/** What the provider's walk, listing, stat, enumerate and read guarantee. */
module ProviderProps {
  import opened Wrappers
  import opened Remote
  import opened PathUtils
  import opened ProviderSpec
  import BoxSpec
  import BoxProps

  // ---------------------------------------------------------------- the walk

  /** What `get_box_item` answers for each outcome of the reference descent. */
  function LookupOf(l: Located): Result<Lookup, ProviderError> {
    match l
    case Unlistable => Failure(ListFailed)
    case NotThere => Success(Missing)
    case At(ch) => Success(Resolved(ch.id, ch.kind))
  }

  lemma {:induction false} BoxWalkLocates(c: Client, rs: seq<CreateResponse>, segs: seq<string>, id: Id, t: Option<Kind>)
    requires segs != []
    ensures BoxWalk(c, rs, false, segs, id, t) == LookupOf(Locate(c, id, segs))
    decreases |segs|
  {
    match Items(c, id)
    case None =>
    case Some(kids) =>
      match FirstMatch(kids, segs[0])
      case None =>
      case Some(k) =>
        if |segs| > 1 {
          BoxWalkLocates(c, rs, segs[1..], kids[k].id, Some(kids[k].kind));
        }
  }

  /**
   * Without creation `get_box_item` is the first-match descent from the root
   * folder "0": the item reached, `(None, None)` at the first segment with no
   * match, or the listing error. The empty relative path is the root folder.
   */
  lemma GetBoxItemLocates(c: Client, rs: seq<CreateResponse>, path: string)
    ensures RelPath(path) == "" ==> GetBoxItemS(c, rs, path, false) == Success(Resolved("0", Folder))
    ensures RelPath(path) != "" ==> GetBoxItemS(c, rs, path, false) == LookupOf(Locate(c, "0", Split(RelPath(path))))
  {
    if RelPath(path) != "" {
      BoxWalkLocates(c, rs, Split(RelPath(path)), "0", None);
    }
  }

  /** Where every segment is found, the provider and `BoxItem.get_by_path` without its cache reach the same item. */
  lemma WalksAgree(s: BoxSpec.ItemState, c: Client, path: string, ch: Child)
    requires RelPath(path) != "" && Locate(c, "0", Split(RelPath(path))) == At(ch)
    ensures GetBoxItemS(c, [], path, false) == Success(Resolved(ch.id, ch.kind))
    ensures var r := BoxSpec.GetByPathS(s, c, path, false, true);
      r.out.Success? && r.st.id == Some(ch.id) && r.st.kind == Some(ch.kind)
  {
    GetBoxItemLocates(c, [], path);
    BoxProps.ResolveWithoutCache(s, c, path, ch);
  }

  /**
   * Where a segment is missing they part: for `missing/b` with `b` a child of
   * the root, the provider answers "not found" while `get_by_path` goes on
   * and lands on `b`.
   */
  lemma WalksDiverge(s: BoxSpec.ItemState, c: Client, missing: string, b: string)
    requires missing != "" && '/' !in missing && '/' !in b
    requires "0" in c.listing
    requires FirstMatch(c.listing["0"], missing).None? && FirstMatch(c.listing["0"], b).Some?
    ensures GetBoxItemS(c, [], missing + "/" + b, false) == Success(Missing)
    ensures var ch := c.listing["0"][FirstMatch(c.listing["0"], b).value];
      var r := BoxSpec.GetByPathS(s, c, missing + "/" + b, false, true);
      r.out.Success? && r.st.id == Some(ch.id) && r.st.kind == Some(ch.kind)
  {
    var rel := missing + "/" + b;
    assert RelPath(rel) == rel;
    SplitAround(missing, b);
    SplitSlashFree(missing);
    SplitSlashFree(b);
    assert Split(rel) == [missing, b];
    BoxProps.MissThenMatch(s, c, rel, missing, b);
  }

  /**
   * Creating a path none of whose segments exists never binds `item_type`:
   * every creation succeeds, and the call still fails on the unbound local.
   */
  lemma {:induction false} CreateFreshUnbound(c: Client, rs: seq<CreateResponse>, segs: seq<string>, id: Id)
    requires segs != [] && |rs| >= |segs|
    requires Items(c, id) == Some([])
    requires forall i :: 0 <= i < |rs| ==> rs[i].Created? && Items(c, rs[i].id) == Some([])
    ensures BoxWalk(c, rs, true, segs, id, None) == Failure(TypeUnbound)
    decreases |segs|
  {
    assert rs[0].Created?;
    if |segs| > 1 {
      assert forall i :: 0 <= i < |rs[1..]| ==> rs[1..][i] == rs[i + 1];
      CreateFreshUnbound(c, rs[1..], segs[1..], rs[0].id);
    }
  }

  /** In particular, when every creation succeeds and each new folder lists as empty, `get_box_item(path, True)` under an empty root folder fails. */
  lemma CreateUnderEmptyRoot(c: Client, rs: seq<CreateResponse>, path: string)
    requires RelPath(path) != "" && |rs| >= |Split(RelPath(path))|
    requires Items(c, "0") == Some([])
    requires forall i :: 0 <= i < |rs| ==> rs[i].Created? && Items(c, rs[i].id) == Some([])
    ensures GetBoxItemS(c, rs, path, true) == Failure(TypeUnbound)
  {
    CreateFreshUnbound(c, rs, Split(RelPath(path)), "0");
  }

  /** A folder created below a found item is reported with the type of that found item, not as a folder of its own. */
  lemma CreateReportsParentKind(c: Client, nid: Id, parentName: string, name: string)
    requires Items(c, "0").Some? && FirstMatch(Items(c, "0").value, parentName).Some?
    requires var p := Items(c, "0").value[FirstMatch(Items(c, "0").value, parentName).value];
      Items(c, p.id) == Some([])
    ensures var p := Items(c, "0").value[FirstMatch(Items(c, "0").value, parentName).value];
      BoxWalk(c, [Created(nid)], true, [parentName, name], "0", None) == Success(Resolved(nid, p.kind))
  {
    var p := Items(c, "0").value[FirstMatch(Items(c, "0").value, parentName).value];
    assert [parentName, name][1..] == [name];
    assert BoxWalk(c, [Created(nid)], true, [name], p.id, Some(p.kind))
        == BoxWalk(c, [], true, [], nid, Some(p.kind));
  }

  // ---------------------------------------------------------------- roots

  /** The constructor's strip is absorbed by normalisation, so `root_lnt` is the normal form of the root as given. */
  lemma RootLntNormal(root: string)
    ensures RootLnt(root) == NormalizedPath(root)
    ensures RootLnt("/" + root) == RootLnt(root)
    ensures Canonical(RootLnt(root))
  {
    RelPathNormalized(root);
    RelPathNormalized("/" + root);
    assert RelPath("/" + root) == root;
    NormalizedCanonical(root);
  }

  /**
   * With an empty root, `root_lnt` is "/" and every path below the top gains a
   * second leading slash: the walk then looks for a child named "" first, so
   * nothing below the top resolves when the root folder has none.
   */
  lemma EmptyRootMisses(c: Client, path: string, limit: Limit)
    requires Items(c, "0").Some? && FirstMatch(Items(c, "0").value, "").None?
    requires NormalizedPath(path) != "/"
    ensures GetBoxItemS(c, [], FullPath(RootLnt(""), path), false) == Success(Missing)
    ensures StatS(c, RootLnt(""), path) == Success(None)
    ensures ReadS(c, RootLnt(""), path, limit) == Failure(NotFound)
  {
    var n := NormalizedPath(path);
    assert RootLnt("") == "/";
    assert FullPath("/", path) == "/" + n;
    NormalizedCanonical(path);
    assert RelPath("/" + n) == n;
    NormalizedSplit(path);
    assert Split(n)[0] == "";
  }

  /** The top of an empty root is the root folder itself. */
  lemma EmptyRootTop(c: Client, path: string)
    requires NormalizedPath(path) == "/"
    ensures GetBoxItemS(c, [], FullPath(RootLnt(""), path), false) == Success(Resolved("0", Folder))
  {
    assert RootLnt("") == "/";
  }

  // ---------------------------------------------------------------- stat

  /** `stat` returns None exactly when the path does not resolve. */
  lemma StatMissing(c: Client, rootLnt: string, path: string)
    ensures StatS(c, rootLnt, path) == Success(None)
        <==> GetBoxItemS(c, [], FullPath(rootLnt, path), false) == Success(Missing)
  {
    var g := GetBoxItemS(c, [], FullPath(rootLnt, path), false);
    if g.Success? && g.value.Resolved? {
      assert StatS(c, rootLnt, path).Failure? || StatS(c, rootLnt, path).value.Some?;
    }
  }

  /** On a resolved item `stat` reports the normal form of the path, a size only for files, and `isDirectory` exactly for folders. */
  lemma StatReports(c: Client, rootLnt: string, path: string, id: Id, kind: Kind, m: Meta)
    requires GetBoxItemS(c, [], FullPath(rootLnt, path), false) == Success(Resolved(id, kind))
    requires DetailsS(c, id, kind) == Some(m)
    ensures var r := StatS(c, rootLnt, path);
      r.Success? && r.value.Some? && Canonical(r.value.value.path)
      && NonEmpty(Split(r.value.value.path)) == NonEmpty(Split(path))
      && (r.value.value.isDirectory <==> kind == Folder)
      && (kind == Folder ==> r.value.value.size == 0)
      && (kind != Folder ==> r.value.value.size == m.size)
      && r.value.value.lastModified == m.modifiedAt
  {
    NormalizedCanonical(path);
    NormalizedSegments(path);
  }

  // ---------------------------------------------------------------- listing

  /** Every listed folder can be listed, and every other child's details can be fetched. */
  ghost predicate Complete(c: Client) {
    forall p, k :: p in c.listing && 0 <= k < |c.listing[p]| ==>
      (c.listing[p][k].kind == Folder ==> c.listing[p][k].id in c.listing)
      && (c.listing[p][k].kind != Folder ==> Fetch(c, c.listing[p][k].id, File).Some?)
  }

  /** Reference count: the children below `id`, at any depth, that are not folders. */
  function NonFolderCount(c: Client, id: Id): nat
    requires Ranked(c)
    decreases Height(c, id), 1, 0
  {
    if id in c.listing then NonFolderCountOf(c, id, c.listing[id]) else 0
  }

  function NonFolderCountOf(c: Client, parent: Id, kids: seq<Child>): nat
    requires Ranked(c) && parent in c.listing && SuffixOf(kids, c.listing[parent])
    decreases Height(c, parent), 0, |kids|
  {
    if kids == [] then 0
    else
      SuffixHeight(c, parent, kids);
      (if kids[0].kind == Folder then NonFolderCount(c, kids[0].id) else 1)
      + NonFolderCountOf(c, parent, kids[1..])
  }

  predicate StartsWith(s: string, q: string) {
    |q| <= |s| && s[..|q|] == q
  }

  /** Every entry is a path entry under `q`. */
  predicate AllUnder(es: seq<ListEntry>, q: string) {
    forall i :: 0 <= i < |es| ==> es[i].PathEntry? && StartsWith(es[i].path, q)
  }

  lemma AllUnderWiden(es: seq<ListEntry>, q: string, q': string)
    requires AllUnder(es, q') && StartsWith(q', q)
    ensures AllUnder(es, q)
  {
    forall i | 0 <= i < |es|
      ensures StartsWith(es[i].path, q)
    {
      assert es[i].path[..|q|] == es[i].path[..|q'|][..|q|];
    }
  }

  /** The prefix `list_recursive` puts before "/": a prefix "/" counts as empty. */
  function Trimmed(prefix: string): string {
    if prefix == "/" then "" else prefix
  }

  lemma TrimmedNests(p: string, name: string)
    ensures StartsWith(Trimmed(p + "/" + name) + "/", p + "/")
  {
    var t := p + "/" + name;
    if t == "/" {
      assert |p| == 0;
    } else {
      assert (t + "/")[..|p + "/"|] == p + "/";
    }
  }

  lemma SuffixHead(c: Client, parent: Id, kids: seq<Child>)
    requires parent in c.listing && SuffixOf(kids, c.listing[parent]) && kids != []
    ensures kids[0] == c.listing[parent][|c.listing[parent]| - |kids|]
  {
  }

  // ---------------------------------------------------------------- reference listing

  /**
   * Reference listing of the files below folder `id`: depth first, children
   * in listing order, each non-folder as a path entry `p/name` with its size,
   * where `p` is the prefix with "/" read as "" and a sub-folder's prefix is
   * the parent's prefix, "/" and the folder's name. A non-folder whose
   * details cannot be fetched contributes nothing.
   */
  function Below(c: Client, prefix: string, id: Id): seq<ListEntry>
    requires Ranked(c)
    decreases Height(c, id), 1, 0
  {
    if id in c.listing then BelowKids(c, Trimmed(prefix), id, c.listing[id]) else []
  }

  function BelowKids(c: Client, p: string, parent: Id, kids: seq<Child>): seq<ListEntry>
    requires Ranked(c) && parent in c.listing && SuffixOf(kids, c.listing[parent])
    decreases Height(c, parent), 0, |kids|
  {
    if kids == [] then []
    else
      SuffixHeight(c, parent, kids);
      BelowChild(c, p, parent, kids[0]) + BelowKids(c, p, parent, kids[1..])
  }

  function BelowChild(c: Client, p: string, parent: Id, ch: Child): seq<ListEntry>
    requires Ranked(c) && (ch.kind == Folder ==> Height(c, ch.id) < Height(c, parent))
    decreases Height(c, parent), 0, 0
  {
    if ch.kind == Folder then Below(c, p + "/" + ch.name, ch.id)
    else match Fetch(c, ch.id, File)
      case None => []
      case Some(m) => [PathEntry(p + "/" + m.name, m.size)]
  }

  /** In a complete tree the reference listing has one entry per non-folder below the folder. */
  lemma {:induction false} BelowCount(c: Client, prefix: string, id: Id)
    requires Ranked(c) && Complete(c)
    ensures |Below(c, prefix, id)| == NonFolderCount(c, id)
    decreases Height(c, id), 1, 0
  {
    if id in c.listing {
      BelowKidsCount(c, Trimmed(prefix), id, c.listing[id]);
    }
  }

  lemma {:induction false} BelowKidsCount(c: Client, p: string, parent: Id, kids: seq<Child>)
    requires Ranked(c) && Complete(c) && parent in c.listing && SuffixOf(kids, c.listing[parent])
    ensures |BelowKids(c, p, parent, kids)| == NonFolderCountOf(c, parent, kids)
    decreases Height(c, parent), 0, |kids|
  {
    if kids != [] {
      SuffixHeight(c, parent, kids);
      SuffixHead(c, parent, kids);
      BelowKidsCount(c, p, parent, kids[1..]);
      if kids[0].kind == Folder {
        BelowCount(c, p + "/" + kids[0].name, kids[0].id);
      }
    }
  }

  /** Every entry of the reference listing is a path entry under the prefix. */
  lemma {:induction false} BelowUnder(c: Client, prefix: string, id: Id)
    requires Ranked(c)
    ensures AllUnder(Below(c, prefix, id), Trimmed(prefix) + "/")
    decreases Height(c, id), 1, 0
  {
    if id in c.listing {
      BelowKidsUnder(c, Trimmed(prefix), id, c.listing[id]);
    }
  }

  lemma {:induction false} BelowKidsUnder(c: Client, p: string, parent: Id, kids: seq<Child>)
    requires Ranked(c) && parent in c.listing && SuffixOf(kids, c.listing[parent])
    ensures AllUnder(BelowKids(c, p, parent, kids), p + "/")
    decreases Height(c, parent), 0, |kids|
  {
    if kids != [] {
      SuffixHeight(c, parent, kids);
      var ch := kids[0];
      BelowKidsUnder(c, p, parent, kids[1..]);
      var head := BelowChild(c, p, parent, ch);
      if ch.kind == Folder {
        BelowUnder(c, p + "/" + ch.name, ch.id);
        TrimmedNests(p, ch.name);
        AllUnderWiden(head, p + "/", Trimmed(p + "/" + ch.name) + "/");
      } else if Fetch(c, ch.id, File).Some? {
        var m := Fetch(c, ch.id, File).value;
        assert StartsWith(p + "/" + m.name, p + "/");
      }
      AllUnderAppend(head, BelowKids(c, p, parent, kids[1..]), p + "/");
    }
  }

  lemma AllUnderAppend(a: seq<ListEntry>, b: seq<ListEntry>, q: string)
    requires AllUnder(a, q) && AllUnder(b, q)
    ensures AllUnder(a + b, q)
  {
    forall i | 0 <= i < |a + b|
      ensures (a + b)[i].PathEntry? && StartsWith((a + b)[i].path, q)
    {
      if i >= |a| {
        assert (a + b)[i] == b[i - |a|];
      }
    }
  }

  /**
   * Every non-folder child of a folder has its entry, its fetched name after
   * the prefix and its size, in the reference listing, and every entry of a
   * sub-folder's listing is in it too: so every file below appears, at any depth.
   */
  lemma BelowHasChild(c: Client, prefix: string, id: Id, k: nat)
    requires Ranked(c) && id in c.listing && k < |c.listing[id]|
    ensures var ch := c.listing[id][k]; var q := Trimmed(prefix);
      && (ch.kind != Folder && Fetch(c, ch.id, File).Some? ==>
            PathEntry(q + "/" + Fetch(c, ch.id, File).value.name, Fetch(c, ch.id, File).value.size) in Below(c, prefix, id))
      && (ch.kind == Folder ==> forall e :: e in Below(c, q + "/" + ch.name, ch.id) ==> e in Below(c, prefix, id))
  {
    var kids := c.listing[id];
    var q := Trimmed(prefix);
    assert kids[0..] == kids;
    BelowKidsHas(c, q, id, kids, k);
  }

  lemma {:induction false} BelowKidsHas(c: Client, p: string, parent: Id, kids: seq<Child>, j: nat)
    requires Ranked(c) && parent in c.listing && SuffixOf(kids, c.listing[parent]) && j < |kids|
    ensures kids[j].kind == Folder ==> Height(c, kids[j].id) < Height(c, parent)
    ensures forall e :: e in BelowChild(c, p, parent, kids[j]) ==> e in BelowKids(c, p, parent, kids)
    decreases |kids|
  {
    SuffixHeight(c, parent, kids);
    if j > 0 {
      assert kids[1..][j - 1] == kids[j];
      BelowKidsHas(c, p, parent, kids[1..], j - 1);
    }
  }

  /**
   * Without the cut and without ids, a complete tree lists exactly the
   * reference listing: one path entry per non-folder below the folder, with
   * its joined path and size, depth first, each under the prefix.
   */
  lemma {:induction false} ListAll(c: Client, prefix: string, id: Id)
    requires Ranked(c) && Complete(c) && id in c.listing
    ensures ListRecS(c, prefix, id, false, false) == Success(Below(c, prefix, id))
    ensures var r := ListRecS(c, prefix, id, false, false);
      r.Success? && |r.value| == NonFolderCount(c, id) && AllUnder(r.value, Trimmed(prefix) + "/")
    decreases Height(c, id), 1, 0
  {
    ListAllKids(c, Trimmed(prefix), id, c.listing[id]);
    BelowCount(c, prefix, id);
    BelowUnder(c, prefix, id);
  }

  lemma {:induction false} ListAllKids(c: Client, p: string, parent: Id, kids: seq<Child>)
    requires Ranked(c) && Complete(c) && parent in c.listing && SuffixOf(kids, c.listing[parent])
    ensures ListKidsS(c, p, parent, kids, false, false) == Success(BelowKids(c, p, parent, kids))
    decreases Height(c, parent), 0, |kids|
  {
    if kids != [] {
      SuffixHeight(c, parent, kids);
      SuffixHead(c, parent, kids);
      var ch := kids[0];
      ListAllKids(c, p, parent, kids[1..]);
      var rest := BelowKids(c, p, parent, kids[1..]);
      if ch.kind == Folder {
        ListAll(c, p + "/" + ch.name, ch.id);
        var sub := Below(c, p + "/" + ch.name, ch.id);
        assert ChildS(c, p, parent, ch, false, false) == Success(([] + sub, false));
        assert [] + sub == sub;
        assert BelowKids(c, p, parent, kids) == sub + rest;
      } else {
        var m := Fetch(c, ch.id, File).value;
        var e := PathEntry(p + "/" + m.name, m.size);
        assert ListKidsS(c, p, parent, kids, false, false) == Success([e] + rest);
      }
    }
  }

  /**
   * With the cut, a complete tree's listing is non-empty exactly when some
   * non-folder exists below the folder: the probe `first_non_empty` is for.
   */
  lemma {:induction false} ListFirstFinds(c: Client, prefix: string, id: Id, idOnly: bool)
    requires Ranked(c) && Complete(c) && id in c.listing
    ensures var r := ListRecS(c, prefix, id, true, false);
      r.Success? && (r.value != [] <==> NonFolderCount(c, id) > 0)
    decreases Height(c, id), 1, 0
  {
    ListFirstKids(c, Trimmed(prefix), id, c.listing[id]);
  }

  lemma {:induction false} ListFirstKids(c: Client, p: string, parent: Id, kids: seq<Child>)
    requires Ranked(c) && Complete(c) && parent in c.listing && SuffixOf(kids, c.listing[parent])
    ensures var r := ListKidsS(c, p, parent, kids, true, false);
      r.Success? && (r.value != [] <==> NonFolderCountOf(c, parent, kids) > 0)
    decreases Height(c, parent), 0, |kids|
  {
    if kids != [] {
      SuffixHeight(c, parent, kids);
      SuffixHead(c, parent, kids);
      var ch := kids[0];
      if ch.kind == Folder {
        ListFirstFinds(c, p + "/" + ch.name, ch.id, false);
        ListFirstKids(c, p, parent, kids[1..]);
      }
    }
  }

  /** The cut: once a folder's first child is a file, the rest of that folder is not looked at. */
  lemma ListCutsAfterFile(c: Client, p: string, parent: Id, kids: seq<Child>, m: Meta)
    requires Ranked(c) && parent in c.listing && SuffixOf(kids, c.listing[parent])
    requires kids != [] && kids[0].kind != Folder && Fetch(c, kids[0].id, File) == Some(m)
    ensures ListKidsS(c, p, parent, kids, true, false) == Success([PathEntry(p + "/" + m.name, m.size)])
  {
  }

  /**
   * The cut ends only the folder it happens in: a folder holding sub-folder
   * `a` (whose first child is file `f`) and then file `g` lists both `f` and `g`.
   */
  lemma CutIsLocal(c: Client, prefix: string, id: Id, a: Child, f: Child, g: Child, mf: Meta, mg: Meta)
    requires Ranked(c) && id in c.listing && c.listing[id] == [a, g]
    requires a.kind == Folder && a.id in c.listing && c.listing[a.id] != [] && c.listing[a.id][0] == f
    requires f.kind != Folder && Fetch(c, f.id, File) == Some(mf)
    requires g.kind != Folder && Fetch(c, g.id, File) == Some(mg)
    ensures var p := Trimmed(prefix);
      ListRecS(c, prefix, id, true, false)
        == Success([PathEntry(Trimmed(p + "/" + a.name) + "/" + mf.name, mf.size), PathEntry(p + "/" + mg.name, mg.size)])
  {
    var p := Trimmed(prefix);
    var kids := c.listing[id];
    SuffixHeight(c, id, kids);
    assert kids[1..] == [g];
    assert c.listing[a.id][0..] == c.listing[a.id];
    var q := Trimmed(p + "/" + a.name);
    assert ListKidsS(c, q, a.id, c.listing[a.id], true, false) == Success([PathEntry(q + "/" + mf.name, mf.size)]);
    var sub := ListRecS(c, p + "/" + a.name, a.id, true, false);
    assert sub == Success([PathEntry(Trimmed(p + "/" + a.name) + "/" + mf.name, mf.size)]);
    SuffixHeight(c, id, kids[1..]);
    assert kids[1..][1..] == [];
    assert ChildS(c, p, id, g, true, false) == Success(([PathEntry(p + "/" + mg.name, mg.size)], true));
    var tail := ListKidsS(c, p, id, kids[1..], true, false);
    assert tail == Success([PathEntry(p + "/" + mg.name, mg.size)]);
    assert ListKidsS(c, p, id, kids, true, false) == Prepend([] + sub.value, tail);
    assert ListRecS(c, prefix, id, true, false) == ListKidsS(c, p, id, kids, true, false);
    assert ([] + sub.value) + tail.value
        == [PathEntry(q + "/" + mf.name, mf.size), PathEntry(p + "/" + mg.name, mg.size)];
  }

  predicate AllIds(es: seq<ListEntry>) {
    forall i :: 0 <= i < |es| ==> es[i].IdEntry?
  }

  /** With `box_id_only` every entry is an id entry. */
  lemma {:induction false} IdOnlyGivesIds(c: Client, prefix: string, id: Id, first: bool)
    requires Ranked(c)
    ensures ListRecS(c, prefix, id, first, true).Success? ==> AllIds(ListRecS(c, prefix, id, first, true).value)
    decreases Height(c, id), 1, 0
  {
    if id in c.listing {
      IdOnlyKids(c, Trimmed(prefix), id, c.listing[id], first);
    }
  }

  lemma {:induction false} IdOnlyKids(c: Client, p: string, parent: Id, kids: seq<Child>, first: bool)
    requires Ranked(c) && parent in c.listing && SuffixOf(kids, c.listing[parent])
    ensures ListKidsS(c, p, parent, kids, first, true).Success? ==> AllIds(ListKidsS(c, p, parent, kids, first, true).value)
    decreases Height(c, parent), 0, |kids|
  {
    if kids != [] {
      SuffixHeight(c, parent, kids);
      IdOnlyKids(c, p, parent, kids[1..], first);
      var ch := kids[0];
      var rest := ListKidsS(c, p, parent, kids[1..], first, true);
      if ch.kind == Folder {
        IdOnlyGivesIds(c, p + "/" + ch.name, ch.id, first);
        var sub := ListRecS(c, p + "/" + ch.name, ch.id, first, true);
        match Fetch(c, ch.id, Folder)
        case None =>
        case Some(m) =>
          if sub.Success? && rest.Success? {
            assert ListKidsS(c, p, parent, kids, first, true) == Success([IdEntry(ch.id, m.kind)] + sub.value + rest.value);
          }
      }
    }
  }

  // ---------------------------------------------------------------- enumerate

  /** `enumerate` returns None exactly when the path does not resolve. */
  lemma EnumerateMissing(c: Client, rootLnt: string, path: string, first: bool)
    requires Ranked(c)
    ensures EnumerateS(c, rootLnt, path, first) == Success(None)
        <==> GetBoxItemS(c, [], FullPath(rootLnt, path), false) == Success(Missing)
  {
  }

  /** On a file, `enumerate` returns one entry named by the last segment of the path. */
  lemma EnumerateFile(c: Client, rootLnt: string, path: string, first: bool, id: Id, kind: Kind, m: Meta)
    requires Ranked(c)
    requires GetBoxItemS(c, [], FullPath(rootLnt, path), false) == Success(Resolved(id, kind))
    requires kind != Folder && Fetch(c, id, File) == Some(m)
    ensures var r := EnumerateS(c, rootLnt, path, first);
      r.Success? && r.value.Some? && |r.value.value| == 1 && r.value.value[0].PathEntry?
      && r.value.value[0].size == m.size && '/' !in r.value.value[0].path
      && (NormalizedPath(path) != "/" ==>
            var ne := NonEmpty(Split(path)); r.value.value[0].path == ne[|ne| - 1])
  {
    assert EnumerateS(c, rootLnt, path, first) == Success(Some([PathEntry(LastSegment(NormalizedPath(path)), m.size)]));
    LastOfNormalized(path);
  }

  /** On a folder of a complete tree, `enumerate` gives the reference listing of the folder, and with the cut finds a file when any exists. */
  lemma EnumerateFolder(c: Client, rootLnt: string, path: string, id: Id)
    requires Ranked(c) && Complete(c) && id in c.listing
    requires GetBoxItemS(c, [], FullPath(rootLnt, path), false) == Success(Resolved(id, Folder))
    ensures EnumerateS(c, rootLnt, path, false) == Success(Some(Below(c, path, id)))
    ensures var r := EnumerateS(c, rootLnt, path, false);
      r.Success? && r.value.Some? && |r.value.value| == NonFolderCount(c, id)
      && AllUnder(r.value.value, Trimmed(path) + "/")
    ensures var r := EnumerateS(c, rootLnt, path, true);
      r.Success? && r.value.Some? && (r.value.value != [] <==> NonFolderCount(c, id) > 0)
  {
    ListAll(c, path, id);
    ListFirstFinds(c, path, id, false);
  }

  // ---------------------------------------------------------------- read

  /**
   * `read` fails with "not found" exactly when the path does not resolve,
   * whatever the limit; on a resolved path a missing limit trips the unbound
   * range, the text "-1" or a count L <= 0 reads the whole file, and a count
   * L > 0 asks for exactly L bytes from the start.
   */
  lemma ReadOutcome(c: Client, rootLnt: string, path: string, limit: Limit)
    ensures var g := GetBoxItemS(c, [], FullPath(rootLnt, path), false);
      ReadS(c, rootLnt, path, limit) == Failure(NotFound) <==> g == Success(Missing)
    ensures var g := GetBoxItemS(c, [], FullPath(rootLnt, path), false);
      ReadS(c, rootLnt, path, limit) == Failure(RangeUnbound) <==> g.Success? && g.value.Resolved? && limit.NoLimit?
    ensures var r := ReadS(c, rootLnt, path, limit);
      r.Success? && r.value.Range? ==> limit.Count? && r.value.first == 0 && r.value.last - r.value.first + 1 == limit.n
    ensures var r := ReadS(c, rootLnt, path, limit);
      r.Success? && r.value.Whole? ==> limit.MinusOneText? || (limit.Count? && limit.n <= 0)
    ensures var g := GetBoxItemS(c, [], FullPath(rootLnt, path), false);
      g.Success? && g.value.Resolved? ==>
        (ReadS(c, rootLnt, path, limit) == Success(Whole) <==> limit.MinusOneText? || (limit.Count? && limit.n <= 0))
  {
  }

  /** The text "-1" reads exactly as the number -1 does: the whole file. */
  lemma MinusOneTextReadsWhole(c: Client, rootLnt: string, path: string)
    ensures ReadS(c, rootLnt, path, MinusOneText) == ReadS(c, rootLnt, path, Count(-1))
    ensures var g := GetBoxItemS(c, [], FullPath(rootLnt, path), false);
      g.Success? && g.value.Resolved? ==> ReadS(c, rootLnt, path, MinusOneText) == Success(Whole)
  {
  }
}
