/** Properties of the resolver in python-lib/box_item.py, stated over the functions of BoxSpec. */
module BoxProps {
  import opened Wrappers
  import opened Remote
  import opened PathUtils
  import opened BoxSpec

  // ---------------------------------------------------------------- get_by_path

  /** An empty relative path puts the item at the root with no remote call and no cache change. */
  lemma RootShortcut(s: ItemState, c: Client, path: string, create: bool, force: bool)
    requires RelPath(path) == ""
    ensures var r := GetByPathS(s, c, path, create, force);
      r.out.Success? && r.st.id == Some("0") && r.st.kind == Some(Folder) && r.st.size == Some(0)
      && r.st.cache == s.cache && r.st.responses == s.responses && r.st.deleteLog == s.deleteLog
  {
  }

  /** A cache hit whose details fetch succeeds is answered from the cache without any walk. */
  lemma CacheHitNoWalk(s: ItemState, c: Client, path: string, create: bool)
    requires RelPath(path) != "" && RelPath(path) in s.cache
    requires HitSize(c, s.cache[RelPath(path)]).Some?
    ensures var e := s.cache[RelPath(path)]; var r := GetByPathS(s, c, path, create, false);
      r.out.Success? && r.st.path == RelPath(path) && r.st.id == Some(e.id) && r.st.kind == Some(e.kind)
      && (e.kind != File ==> r.st.size == Some(0))
      && (e.kind == File ==> r.st.size == Some(Fetch(c, e.id, File).value.size))
      && r.st.modifiedAt == s.modifiedAt
      && r.st.cache == s.cache && r.st.responses == s.responses && r.st.deleteLog == s.deleteLog
  {
  }

  /** A cache hit whose details fetch raises resets the cache and walks from the root "0". */
  lemma StaleHitRestarts(s: ItemState, c: Client, path: string, create: bool)
    requires RelPath(path) != "" && RelPath(path) in s.cache
    requires HitSize(c, s.cache[RelPath(path)]).None?
    ensures GetByPathS(s, c, path, create, false)
         == WalkS(s.(cache := map[]), c, RelPath(path), create, "0", "", Split(RelPath(path)))
  {
  }

  /** The `current_path` after joining the remaining segments onto `cur`. */
  function JoinAll(cur: string, segs: seq<string>): string
    decreases |segs|
  {
    if segs == [] then cur else JoinAll(OsJoin(cur, segs[0]), segs[1..])
  }

  lemma {:induction false} JoinAllIsJoin(segs: seq<string>, i: nat)
    requires 1 <= i <= |segs| && SlashFree(segs)
    requires forall k :: 0 <= k < |segs| ==> segs[k] != ""
    ensures JoinAll(Join(segs[..i]), segs[i..]) == Join(segs)
    decreases |segs| - i
  {
    if i == |segs| {
      assert segs[..i] == segs;
    } else {
      OsJoinPrefix(segs, i + 1);
      assert segs[..i + 1][..i] == segs[..i];
      assert segs[i..][1..] == segs[i + 1..];
      JoinAllIsJoin(segs, i + 1);
    }
  }

  /** With non-empty segments, `os.path.join` from "" spells the slash-joined path. */
  lemma JoinAllFromTop(xs: seq<string>)
    requires xs != [] && SlashFree(xs) && forall k :: 0 <= k < |xs| ==> xs[k] != ""
    ensures JoinAll("", xs) == Join(xs)
  {
    JoinAllIsJoin(xs, 1);
    assert xs[..1] == [xs[0]];
  }

  /** Without creation, a walk that reaches its child never rewrites a cache key no longer than its starting key. */
  lemma {:induction false} WalkKeepsShort(s: ItemState, c: Client, rel: string, id: Id, cur: string, segs: seq<string>, ch: Child)
    requires segs != [] && Locate(c, id, segs) == At(ch)
    requires forall k :: 0 <= k < |segs| ==> segs[k] != ""
    ensures var r := WalkS(s, c, rel, false, id, cur, segs);
      forall key :: key in s.cache && |key| <= |cur| ==> key in r.st.cache && r.st.cache[key] == s.cache[key]
    decreases |segs|
  {
    var kids := Items(c, id).value;
    var k := FirstMatch(kids, segs[0]).value;
    var key := OsJoin(cur, segs[0]);
    assert |key| > |cur|;
    if |segs| > 1 {
      WalkKeepsShort(Found(s, rel, key, kids[k]), c, rel, kids[k].id, key, segs[1..], ch);
    }
  }

  /**
   * Without creation, when the first-match descent reaches a child, the walk
   * ends on that child: its id, type, size and date, the cache holds the
   * walked path with the child's id and type, and nothing is created or
   * deleted. With non-empty segments, every prefix walked is cached with the
   * child it reached, as `cache.add(current_path, ...)` does at each match.
   */
  lemma {:induction false} WalkReaches(s: ItemState, c: Client, rel: string, id: Id, cur: string, segs: seq<string>, ch: Child)
    requires segs != [] && Locate(c, id, segs) == At(ch)
    ensures var r := WalkS(s, c, rel, false, id, cur, segs);
      && r.out.Success? && r.st.path == rel
      && r.st.id == Some(ch.id) && r.st.kind == Some(ch.kind) && r.st.size == Some(ch.size)
      && r.st.modifiedAt == ch.modifiedAt
      && JoinAll(cur, segs) in r.st.cache && r.st.cache[JoinAll(cur, segs)] == CacheEntry(ch.id, ch.kind)
      && r.st.responses == s.responses && r.st.deleteLog == s.deleteLog
    ensures (forall k :: 0 <= k < |segs| ==> segs[k] != "") ==>
      var r := WalkS(s, c, rel, false, id, cur, segs);
      forall j :: 1 <= j <= |segs| ==>
        && Locate(c, id, segs[..j]).At? && JoinAll(cur, segs[..j]) in r.st.cache
        && r.st.cache[JoinAll(cur, segs[..j])] == CacheEntry(Locate(c, id, segs[..j]).child.id, Locate(c, id, segs[..j]).child.kind)
    decreases |segs|
  {
    var kids := Items(c, id).value;
    var k := FirstMatch(kids, segs[0]).value;
    var key := OsJoin(cur, segs[0]);
    var s1 := Found(s, rel, key, kids[k]);
    if |segs| > 1 {
      WalkReaches(s1, c, rel, kids[k].id, key, segs[1..], ch);
    }
    if forall k :: 0 <= k < |segs| ==> segs[k] != "" {
      var r := WalkS(s, c, rel, false, id, cur, segs);
      if |segs| > 1 {
        WalkKeepsShort(s1, c, rel, kids[k].id, key, segs[1..], ch);
      }
      forall j | 1 <= j <= |segs|
        ensures Locate(c, id, segs[..j]).At? && JoinAll(cur, segs[..j]) in r.st.cache
        ensures r.st.cache[JoinAll(cur, segs[..j])] == CacheEntry(Locate(c, id, segs[..j]).child.id, Locate(c, id, segs[..j]).child.kind)
      {
        var pre := segs[..j];
        assert pre[0] == segs[0];
        if j == 1 {
          assert pre == [segs[0]];
          assert JoinAll(cur, pre) == key;
        } else {
          assert pre[1..] == segs[1..][..j - 1];
        }
      }
    }
  }

  /**
   * When every segment is found, `get_by_path` without the cache resolves to
   * the reference descent's item; with non-empty segments it caches every
   * prefix of the path with the item that prefix reaches, the path itself last.
   */
  lemma ResolveWithoutCache(s: ItemState, c: Client, path: string, ch: Child)
    requires RelPath(path) != "" && Locate(c, "0", Split(RelPath(path))) == At(ch)
    ensures var r := GetByPathS(s, c, path, false, true);
      r.out.Success? && r.st.id == Some(ch.id) && r.st.kind == Some(ch.kind) && r.st.size == Some(ch.size)
      && r.st.responses == s.responses && r.st.deleteLog == s.deleteLog
    ensures var segs := Split(RelPath(path)); var r := GetByPathS(s, c, path, false, true);
      (forall k :: 0 <= k < |segs| ==> segs[k] != "") ==>
        RelPath(path) in r.st.cache && r.st.cache[RelPath(path)] == CacheEntry(ch.id, ch.kind)
    ensures var segs := Split(RelPath(path)); var r := GetByPathS(s, c, path, false, true);
      (forall k :: 0 <= k < |segs| ==> segs[k] != "") ==>
        forall j :: 1 <= j <= |segs| ==>
          && Locate(c, "0", segs[..j]).At? && Join(segs[..j]) in r.st.cache
          && r.st.cache[Join(segs[..j])] == CacheEntry(Locate(c, "0", segs[..j]).child.id, Locate(c, "0", segs[..j]).child.kind)
  {
    var rel := RelPath(path);
    var segs := Split(rel);
    WalkReaches(s, c, rel, "0", "", segs, ch);
    if forall k :: 0 <= k < |segs| ==> segs[k] != "" {
      assert segs[..1] == [segs[0]];
      JoinAllIsJoin(segs, 1);
      assert segs[1..] == segs[1..];
      JoinSplit(rel);
      forall j | 1 <= j <= |segs|
        ensures JoinAll("", segs[..j]) == Join(segs[..j])
      {
        JoinAllFromTop(segs[..j]);
      }
    }
  }

  /**
   * A cache entry that agrees with the remote tree gives the same id and
   * type as bypassing the cache and walking again.
   */
  lemma CachedAgreesWithWalk(s: ItemState, c: Client, path: string, ch: Child)
    requires RelPath(path) != "" && Locate(c, "0", Split(RelPath(path))) == At(ch)
    requires RelPath(path) in s.cache && s.cache[RelPath(path)] == CacheEntry(ch.id, ch.kind)
    ensures var hit := GetByPathS(s, c, path, false, false); var walk := GetByPathS(s, c, path, false, true);
      hit.out.Success? && walk.out.Success? && hit.st.id == walk.st.id && hit.st.kind == walk.st.kind
  {
    ResolveWithoutCache(s, c, path, ch);
    var rel := RelPath(path);
    if HitSize(c, s.cache[rel]).None? {
      WalkReaches(s.(cache := map[]), c, rel, "0", "", Split(rel), ch);
    }
  }

  /** A segment with no match, without creation, clears id, type, size and date; the walk goes on at the same parent. */
  lemma MissClearsItem(s: ItemState, c: Client, rel: string, id: Id, cur: string, segs: seq<string>)
    requires segs != [] && id in c.listing && FirstMatch(c.listing[id], segs[0]).None?
    ensures WalkS(s, c, rel, false, id, cur, segs)
         == WalkS(SetNoneS(s), c, rel, false, id, OsJoin(cur, segs[0]), segs[1..])
    ensures var r := WalkS(s, c, rel, false, id, cur, [segs[0]]);
      r.out.Success? && r.st.id.None? && r.st.kind.None? && r.st.size.None? && r.st.modifiedAt.None?
  {
  }

  /**
   * The walk does not stop at a miss: after `missing` has no match under the
   * root, a following segment that names a child of the root puts the item on
   * that child, so `missing/b` resolves like `b`.
   */
  lemma MissThenMatch(s: ItemState, c: Client, rel: string, missing: string, b: string)
    requires "0" in c.listing
    requires FirstMatch(c.listing["0"], missing).None? && FirstMatch(c.listing["0"], b).Some?
    ensures var ch := c.listing["0"][FirstMatch(c.listing["0"], b).value];
      var r := WalkS(s, c, rel, false, "0", "", [missing, b]);
      r.out.Success? && r.st.id == Some(ch.id) && r.st.kind == Some(ch.kind)
  {
    var s1 := SetNoneS(s);
    var ch := c.listing["0"][FirstMatch(c.listing["0"], b).value];
    assert WalkS(s, c, rel, false, "0", "", [missing, b]) == WalkS(s1, c, rel, false, "0", missing, [b]);
    WalkReaches(s1, c, rel, "0", missing, [b], ch);
  }

  /** Without creation the walk makes no remote change and only adds cache entries. */
  lemma {:induction false} WalkReadOnly(s: ItemState, c: Client, rel: string, id: Id, cur: string, segs: seq<string>)
    ensures var r := WalkS(s, c, rel, false, id, cur, segs);
      r.st.responses == s.responses && r.st.deleteLog == s.deleteLog && s.cache.Keys <= r.st.cache.Keys
    decreases |segs|
  {
    if segs != [] && id in c.listing {
      var kids := c.listing[id];
      var key := OsJoin(cur, segs[0]);
      match FirstMatch(kids, segs[0])
      case Some(k) => WalkReadOnly(Found(s, rel, key, kids[k]), c, rel, kids[k].id, key, segs[1..]);
      case None => WalkReadOnly(SetNoneS(s), c, rel, id, key, segs[1..]);
    }
  }

  /** Every step of the resolver keeps id, type and size all present or all absent. */
  lemma {:induction false} WalkValid(s: ItemState, c: Client, rel: string, create: bool, id: Id, cur: string, segs: seq<string>)
    requires ValidState(s)
    ensures ValidState(WalkS(s, c, rel, create, id, cur, segs).st)
    decreases |segs|
  {
    if segs != [] && id in c.listing {
      var kids := c.listing[id];
      var key := OsJoin(cur, segs[0]);
      match FirstMatch(kids, segs[0])
      case Some(k) => WalkValid(Found(s, rel, key, kids[k]), c, rel, create, kids[k].id, key, segs[1..]);
      case None =>
        if create {
          var r := CreateSubfolderS(s, c, segs[0]);
          CreateValid(s, c, segs[0]);
          if r.out.Success? {
            WalkValid(r.st.(cache := r.st.cache[key := CacheEntry(r.out.value, Folder)]), c, rel, create, r.out.value, key, segs[1..]);
          }
        } else {
          WalkValid(SetNoneS(s), c, rel, create, id, key, segs[1..]);
        }
    }
  }

  lemma {:induction false} CreateValid(s: ItemState, c: Client, name: string)
    requires ValidState(s)
    ensures ValidState(CreateSubfolderS(s, c, name).st)
    decreases |s.responses|
  {
    if s.responses != [] {
      var s1 := s.(responses := s.responses[1..]);
      match s.responses[0]
      case Reserved => CreateValid(s1, c, name);
      case _ =>
    }
  }

  lemma GetByPathValid(s: ItemState, c: Client, path: string, create: bool, force: bool)
    requires ValidState(s)
    ensures ValidState(GetByPathS(s, c, path, create, force).st)
  {
    var rel := RelPath(path);
    if rel != "" {
      var q := CacheQuery(s.cache, rel, force);
      if !(q.Some? && HitSize(c, q.value).Some?) {
        WalkValid(if q.Some? then s.(cache := map[]) else s, c, rel, create, "0", "", Split(rel));
      }
    }
  }

  /** One segment step keeps id, type and size all present or all absent. */
  lemma StepValid(s: ItemState, c: Client, rel: string, create: bool, itemId: Id, key: string, elt: string)
    requires ValidState(s)
    ensures ValidState(StepS(s, c, rel, create, itemId, key, elt).st)
  {
    if itemId in c.listing && FirstMatch(c.listing[itemId], elt).None? && create {
      CreateValid(s, c, elt);
    }
  }

  /** `create_path` keeps the item valid: only the resolution and the path assignment change it. */
  lemma CreatePathValid(s: ItemState, c: Client, path: string, force: bool)
    requires ValidState(s)
    ensures ValidState(CreatePathS(s, c, path, force).st)
  {
    GetByPathValid(s, c, ParentPath(path), true, force);
  }

  // ---------------------------------------------------------------- create_subfolder

  /** `name_temporarily_reserved` answers are retried; the first `item_name_in_use` is adopted. */
  lemma {:induction false} ReservedThenAdopt(s: ItemState, c: Client, name: string, k: nat, cid: Id)
    requires k < |s.responses| && s.responses[k] == InUse(cid)
    requires forall i :: 0 <= i < k ==> s.responses[i] == Reserved
    ensures CreateSubfolderS(s, c, name) == Run(Adopt(s.(responses := s.responses[k + 1..]), cid), Success(cid))
    decreases k
  {
    var s1 := s.(responses := s.responses[1..]);
    if k > 0 {
      ReservedThenAdopt(s1, c, name, k - 1, cid);
      assert s1.responses[k..] == s.responses[k + 1..];
    }
  }

  /** Any other 409 code, or any other status, raises. */
  lemma CreateRaises(s: ItemState, c: Client, name: string)
    requires s.responses != [] && (s.responses[0] == OtherConflict || s.responses[0] == OtherStatus)
    ensures CreateSubfolderS(s, c, name).out.Failure?
  {
  }

  /** A normal return that is not a duplicate keeps the new id, as a folder of size 0. */
  lemma CreateFresh(s: ItemState, c: Client, name: string, id: Id)
    requires s.responses != [] && s.responses[0] == Created(id)
    requires IsDuplicatedS(c, s.id, name, id) == Success(false)
    ensures CreateSubfolderS(s, c, name)
         == Run(Adopt(s.(responses := s.responses[1..]), id), Success(id))
  {
  }

  /**
   * The folder is created under the item's own id, not under the walk's
   * parent: once a miss has cleared the id, a created folder cannot be
   * checked for duplicates and creation raises.
   */
  lemma CreateUnderClearedItem(s: ItemState, c: Client, name: string, id: Id)
    requires s.id.None? && s.responses != [] && s.responses[0] == Created(id)
    ensures CreateSubfolderS(s, c, name).out == Failure(AccessFailed)
  {
  }

  /**
   * `fix_any_duplicate` returns the new id unless its folder is duplicated;
   * then it resets the cache, returns the probed id and deletes the new
   * folder exactly when the two ids differ.
   */
  lemma FixDuplicateOutcome(s: ItemState, c: Client, name: string, newId: Id)
    requires IsDuplicatedS(c, s.id, name, newId).Success?
    ensures var r := FixAnyDuplicateS(s, c, name, newId);
      !IsDuplicatedS(c, s.id, name, newId).value ==> r == Run(s, Success(newId))
    ensures var r := FixAnyDuplicateS(s, c, name, newId); var p := IdDefaultFolderS(s.(cache := map[]), name);
      IsDuplicatedS(c, s.id, name, newId).value && p.out.Success? ==>
        r.out == p.out && r.st.cache == map[]
        && (r.st.deleteLog == s.deleteLog + [newId] <==> p.out.value != newId)
        && (p.out.value == newId ==> r.st.deleteLog == s.deleteLog)
  {
  }

  // ---------------------------------------------------------------- create_path / write_stream

  /** `create_path` splits the path into the parent it resolves and the last segment it keeps. */
  lemma ParentAndLast(path: string)
    ensures |Split(path)| == 1 ==> ParentPath(path) == "" && LastSegment(path) == path
    ensures |Split(path)| > 1 ==> ParentPath(path) + "/" + LastSegment(path) == path
  {
    var segs := Split(path);
    var n := |segs|;
    JoinSplit(path);
    if n > 1 {
      JoinSnoc(segs[..n - 1], segs[n - 1]);
      assert segs[..n - 1] + [segs[n - 1]] == segs;
    }
  }

  /**
   * `create_path` raises exactly when resolving the parent does, and then
   * leaves the state that resolution left, path included; otherwise only the
   * path changes, to the full path.
   */
  lemma CreatePathOutcome(s: ItemState, c: Client, path: string, force: bool)
    ensures var r := CreatePathS(s, c, path, force); var g := GetByPathS(s, c, ParentPath(path), true, force);
      && r.out == g.out
      && (g.out.Failure? ==> r.st == g.st)
      && (g.out.Success? ==> r.st.path == path && r.st.(path := g.st.path) == g.st)
  {
  }

  /** After `write_stream` the cache answers the item's path with the uploaded id; the type field is left as it was. */
  lemma WriteStreamCaches(s: ItemState, uid: Id, ukind: Kind, q: string)
    ensures var r := WriteStreamS(s, uid, ukind);
      r.cache[s.path] == CacheEntry(uid, ukind) && r.id == Some(uid) && r.kind == s.kind
      && (q != s.path && q in s.cache ==> q in r.cache && r.cache[q] == s.cache[q])
  {
  }

  // ---------------------------------------------------------------- deletion

  /** The files of the subtree below `id`, in the order `recursive_delete` visits them. */
  function SubtreeFiles(c: Client, id: Id): seq<Id>
    requires Ranked(c)
    decreases Height(c, id), 1, 0
  {
    if id in c.listing then FilesOf(c, id, c.listing[id]) else []
  }

  function FilesOf(c: Client, parent: Id, kids: seq<Child>): seq<Id>
    requires Ranked(c) && parent in c.listing && SuffixOf(kids, c.listing[parent])
    decreases Height(c, parent), 0, |kids|
  {
    if kids == [] then []
    else
      SuffixHeight(c, parent, kids);
      ChildFiles(c, parent, kids[0]) + FilesOf(c, parent, kids[1..])
  }

  /** The files one child contributes: its subtree's for a folder, itself for a file, none for a web link. */
  function ChildFiles(c: Client, parent: Id, ch: Child): seq<Id>
    requires Ranked(c) && (ch.kind == Folder ==> Height(c, ch.id) < Height(c, parent))
    decreases Height(c, parent), 0, 0
  {
    if ch.kind == Folder then SubtreeFiles(c, ch.id) else if ch.kind == File then [ch.id] else []
  }

  /** The number of folders in the subtree below `id`. */
  function SubtreeFolders(c: Client, id: Id): nat
    requires Ranked(c)
    decreases Height(c, id), 1, 0
  {
    if id in c.listing then FoldersOf(c, id, c.listing[id]) else 0
  }

  function FoldersOf(c: Client, parent: Id, kids: seq<Child>): nat
    requires Ranked(c) && parent in c.listing && SuffixOf(kids, c.listing[parent])
    decreases Height(c, parent), 0, |kids|
  {
    if kids == [] then 0
    else
      SuffixHeight(c, parent, kids);
      (if kids[0].kind == Folder then 1 + SubtreeFolders(c, kids[0].id) else 0)
      + FoldersOf(c, parent, kids[1..])
  }

  /**
   * `recursive_delete` issues a remote delete for every file of the subtree
   * and for nothing else: folders are never deleted remotely.
   */
  lemma {:induction false} RecDeleteIssues(s: ItemState, c: Client, id: Id)
    requires Ranked(c)
    ensures RecDeleteS(s, c, id).st.deleteLog == s.deleteLog + SubtreeFiles(c, id)
    decreases Height(c, id), 1, 0
  {
    if id in c.listing {
      RecDeleteKidsIssues(s, c, id, c.listing[id]);
    } else {
      assert s.deleteLog + [] == s.deleteLog;
    }
  }

  lemma {:induction false} RecDeleteKidsIssues(s: ItemState, c: Client, parent: Id, kids: seq<Child>)
    requires Ranked(c) && parent in c.listing && SuffixOf(kids, c.listing[parent])
    ensures RecDeleteKids(s, c, parent, kids).st.deleteLog == s.deleteLog + FilesOf(c, parent, kids)
    decreases Height(c, parent), 0, |kids|
  {
    if kids == [] {
      assert s.deleteLog + [] == s.deleteLog;
    } else {
      SuffixHeight(c, parent, kids);
      var d1 := DeleteChildS(s, c, parent, kids[0]);
      DeleteChildIssues(s, c, parent, kids[0]);
      RecDeleteKidsIssues(d1.st, c, parent, kids[1..]);
      var head := ChildFiles(c, parent, kids[0]);
      assert s.deleteLog + head + FilesOf(c, parent, kids[1..]) == s.deleteLog + (head + FilesOf(c, parent, kids[1..]));
    }
  }

  lemma {:induction false} DeleteChildIssues(s: ItemState, c: Client, parent: Id, ch: Child)
    requires Ranked(c) && (ch.kind == Folder ==> Height(c, ch.id) < Height(c, parent))
    ensures DeleteChildS(s, c, parent, ch).st.deleteLog == s.deleteLog + ChildFiles(c, parent, ch)
    decreases Height(c, parent), 0, 0
  {
    if ch.kind == Folder {
      RecDeleteIssues(s, c, ch.id);
    } else if ch.kind != File {
      assert s.deleteLog + [] == s.deleteLog;
    }
  }

  /** With every delete succeeding, the count is the files deleted plus the folders visited, over the whole subtree. */
  lemma {:induction false} RecDeleteCount(s: ItemState, c: Client, id: Id)
    requires Ranked(c) && c.deleteStatus == map[]
    ensures RecDeleteS(s, c, id).count == |SubtreeFiles(c, id)| + SubtreeFolders(c, id)
    decreases Height(c, id), 1, 0
  {
    if id in c.listing {
      RecDeleteKidsCount(s, c, id, c.listing[id]);
    }
  }

  lemma {:induction false} RecDeleteKidsCount(s: ItemState, c: Client, parent: Id, kids: seq<Child>)
    requires Ranked(c) && c.deleteStatus == map[] && parent in c.listing && SuffixOf(kids, c.listing[parent])
    ensures RecDeleteKids(s, c, parent, kids).count == |FilesOf(c, parent, kids)| + FoldersOf(c, parent, kids)
    decreases Height(c, parent), 0, |kids|
  {
    if kids != [] {
      SuffixHeight(c, parent, kids);
      var ch := kids[0];
      var d1 := DeleteChildS(s, c, parent, ch);
      if ch.kind == Folder {
        RecDeleteCount(s, c, ch.id);
      }
      RecDeleteKidsCount(d1.st, c, parent, kids[1..]);
    }
  }

  /** `recursive_delete` only removes cache entries, and at the end none is left for the item's own id. */
  lemma {:induction false} RecDeleteCache(s: ItemState, c: Client, id: Id)
    requires Ranked(c)
    ensures var r := RecDeleteS(s, c, id).st;
      (forall p :: p in r.cache ==> p in s.cache && r.cache[p] == s.cache[p])
      && (forall p :: p in r.cache ==> Some(r.cache[p].id) != s.id)
    ensures var r := RecDeleteS(s, c, id).st;
      r.path == s.path && r.id == s.id && r.kind == s.kind && r.size == s.size
    decreases Height(c, id), 1, 0
  {
    if id in c.listing {
      RecDeleteKidsCache(s, c, id, c.listing[id]);
    }
  }

  lemma {:induction false} RecDeleteKidsCache(s: ItemState, c: Client, parent: Id, kids: seq<Child>)
    requires Ranked(c) && parent in c.listing && SuffixOf(kids, c.listing[parent])
    ensures var r := RecDeleteKids(s, c, parent, kids).st;
      (forall p :: p in r.cache ==> p in s.cache && r.cache[p] == s.cache[p])
      && r.path == s.path && r.id == s.id && r.kind == s.kind && r.size == s.size
    decreases Height(c, parent), 0, |kids|
  {
    if kids != [] {
      SuffixHeight(c, parent, kids);
      var ch := kids[0];
      var d1 := DeleteChildS(s, c, parent, ch);
      if ch.kind == Folder {
        RecDeleteCache(s, c, ch.id);
      }
      RecDeleteKidsCache(d1.st, c, parent, kids[1..]);
    }
  }

  /** One round of `recursive_delete` leaves the item's own path, id, type and size as they were. */
  lemma DeleteChildKeeps(s: ItemState, c: Client, parent: Id, ch: Child)
    requires Ranked(c) && (ch.kind == Folder ==> Height(c, ch.id) < Height(c, parent))
    ensures var r := DeleteChildS(s, c, parent, ch).st;
      r.path == s.path && r.id == s.id && r.kind == s.kind && r.size == s.size
  {
    if ch.kind == Folder {
      RecDeleteCache(s, c, ch.id);
    }
  }

  /** `delete` changes only the cache and the deletion log, so the item stays valid. */
  lemma DeleteKeeps(s: ItemState, c: Client)
    requires Ranked(c) && ValidState(s)
    ensures var r := DeleteS(s, c).st;
      r.path == s.path && r.id == s.id && r.kind == s.kind && r.size == s.size
    ensures ValidState(DeleteS(s, c).st)
  {
    if s.kind == Some(Folder) {
      RecDeleteCache(s, c, s.id.value);
    }
  }

  /** `delete` on a file counts 1 after a success or a 404, and raises on any other status. */
  lemma DeleteFileCount(s: ItemState, c: Client)
    requires Ranked(c) && ValidState(s) && s.kind == Some(File)
    ensures var r := DeleteS(s, c); var id := s.id.value;
      (id !in c.deleteStatus || c.deleteStatus[id] == 404 <==> r.out == Success(Some(1)))
      && r.st.deleteLog == s.deleteLog + [id]
  {
  }

  // ---------------------------------------------------------------- check_path_format

  /** Worked example of `CheckPathFormat`'s contract: a `..` segment is refused. */
  lemma FormatRefusesDotDot()
    ensures CheckPathFormat("a/..") == Some(SpecialName(".."))
  {
    SplitAround("a", "..");
    SplitSlashFree("a");
    SplitSlashFree("..");
    assert Split("a/..") == ["a", ".."];
  }

  /** Worked example of `CheckPathFormat`'s contract: a segment ending in a space is refused. */
  lemma FormatRefusesTrailingSpace()
    ensures CheckPathFormat("a /b") == Some(TrailingSpace("a "))
  {
    SplitAround("a ", "b");
    SplitSlashFree("a ");
    SplitSlashFree("b");
    assert "a " + "/" + "b" == "a /b";
    assert Split("a /b") == ["a ", "b"];
  }

  /** Worked example of `CheckPathFormat`'s contract: a segment of 256 characters is refused. */
  lemma FormatRefusesLong(long: string)
    requires |long| == 256 && '/' !in long
    ensures CheckPathFormat(long).Some?
  {
    SplitSlashFree(long);
    if AllPrintable(long) {
      assert CheckSegments([long]) == Some(TooLong(long));
    }
  }

  /** Worked example of `CheckPathFormat`'s contract: an ordinary two-segment path is accepted. */
  lemma FormatAccepts()
    ensures CheckPathFormat("ab/c") == None
  {
    var p := "ab/c";
    SplitAround("ab", "c");
    SplitSlashFree("ab");
    SplitSlashFree("c");
    assert "ab" + "/" + "c" == p;
    assert Split(p) == ["ab", "c"];
    assert SegmentsOk(["ab", "c"]);
    assert AllPrintable(p) by {
      assert p[0] == 'a' && p[1] == 'b' && p[2] == '/' && p[3] == 'c';
    }
  }
}
