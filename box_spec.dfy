/**
 * The behaviour of python-lib/box_item.py as functions over a value
 * `ItemState` (the fields of one `BoxItem`, its cache, the folder-creation
 * answers still to come and the remote deletes issued so far). The class in
 * box_item.dfy runs the same steps imperatively and is proved equal to these.
 */
module BoxSpec {
  import opened Wrappers
  import opened Remote
  import opened PathUtils

  /** What the abstract cache stores under a path. */
  datatype CacheEntry = CacheEntry(id: Id, kind: Kind)

  /** The dictionaries `get_stat`, `get_as_browse` and `get_children` return. */
  datatype Stat = Stat(path: string, size: nat, isDirectory: bool, lastModified: Option<int>)
  datatype Browse = Browse(fullPath: string, present: bool, directory: bool, size: Option<nat>, lastModified: Option<int>)

  /** The exceptions the resolver lets escape. */
  datatype Error =
    | ListFailed              // get_items raised during the walk
    | AccessFailed            // "Error while accessing box.com item" in is_duplicated
    | ConflictUnimplemented   // a 409 whose code the resolver does not handle
    | StatusUnimplemented     // a non-409 error while creating a folder
    | ResponsesExhausted      // no scripted creation answer is left
    | DeleteFailed(status: int)

  datatype ItemState = ItemState(
    path: string,
    id: Option<Id>,
    kind: Option<Kind>,
    size: Option<nat>,
    modifiedAt: Option<int>,
    cache: map<string, CacheEntry>,
    responses: seq<CreateResponse>,
    deleteLog: seq<Id>)

  /** The state after a step, with its value or the exception it raised. */
  datatype Run<T> = Run(st: ItemState, out: Result<T, Error>)

  datatype Deletion = Deletion(st: ItemState, count: nat)

  /** id, type and size are either all present or all absent. */
  predicate ValidState(s: ItemState) {
    s.id.None? == s.kind.None? && s.kind.None? == s.size.None?
  }

  /** The fields `__init__` sets. */
  function Initial(stored: map<string, CacheEntry>, responses: seq<CreateResponse>): (s: ItemState)
    ensures ValidState(s) && s.id == Some("0") && s.kind == Some(Folder)
  {
    ItemState("", Some("0"), Some(Folder), Some(0), None, stored, responses, [])
  }

  // ---------------------------------------------------------------- the abstract cache

  /** `query(path, force_no_cache)`. */
  function CacheQuery(m: map<string, CacheEntry>, path: string, force: bool): (r: Option<CacheEntry>)
    ensures r.Some? <==> !force && path in m
    ensures r.Some? ==> r.value == m[path]
  {
    if !force && path in m then Some(m[path]) else None
  }

  /** `remove(id)`: no entry for that id is left, every other entry stays. */
  function CacheRemove(m: map<string, CacheEntry>, id: Option<Id>): (r: map<string, CacheEntry>)
    ensures forall p :: p in r ==> p in m && r[p] == m[p] && Some(m[p].id) != id
    ensures forall p :: p in m && Some(m[p].id) != id ==> p in r
  {
    map p | p in m && Some(m[p].id) != id :: m[p]
  }

  // ---------------------------------------------------------------- field updates

  /** `set_root`: the root folder "0", a folder of size 0. */
  function SetRootS(s: ItemState): ItemState {
    s.(id := Some("0"), kind := Some(Folder), size := Some(0))
  }

  /** `set_none`: the item no longer names anything. */
  function SetNoneS(s: ItemState): ItemState {
    s.(id := None, kind := None, size := None, modifiedAt := None)
  }

  /** What `create_subfolder` sets once it has an id. */
  function Adopt(s: ItemState, id: Id): ItemState {
    s.(id := Some(id), kind := Some(Folder), size := Some(0))
  }

  /** What the walk sets when a segment matches child `ch`. */
  function Found(s: ItemState, rel: string, key: string, ch: Child): ItemState {
    s.(path := rel, id := Some(ch.id), kind := Some(ch.kind), modifiedAt := ch.modifiedAt,
       size := Some(ch.size), cache := s.cache[key := CacheEntry(ch.id, ch.kind)])
  }

  // ---------------------------------------------------------------- duplicates

  function CountNamed(kids: seq<Child>, name: string): (n: nat)
    ensures n <= |kids|
    ensures n == 0 <==> forall j :: 0 <= j < |kids| ==> kids[j].name != name
  {
    if kids == [] then 0
    else (if kids[0].name == name then 1 else 0) + CountNamed(kids[1..], name)
  }

  predicate HasNamedId(kids: seq<Child>, name: string, id: Id) {
    exists j :: 0 <= j < |kids| && kids[j].name == name && kids[j].id == id
  }

  lemma {:induction false} CountNamedSnoc(kids: seq<Child>, x: Child, name: string)
    ensures CountNamed(kids + [x], name) == CountNamed(kids, name) + (if x.name == name then 1 else 0)
    decreases |kids|
  {
    if kids == [] {
      assert [] + [x] == [x];
    } else {
      assert (kids + [x])[1..] == kids[1..] + [x];
      CountNamedSnoc(kids[1..], x, name);
    }
  }

  /** The record `get_children` builds for one child, below `internal`. */
  function ChildRecord(internal: string, ch: Child): Browse {
    Browse(NormalizedPath(OsJoin(internal, ch.name)), true, ch.kind == Folder, Some(ch.size), ch.modifiedAt)
  }

  /** `get_children` caches every child under its bare name, not under its path. */
  function CacheByName(m: map<string, CacheEntry>, kids: seq<Child>): map<string, CacheEntry>
    decreases |kids|
  {
    if kids == [] then m
    else CacheByName(m[RelPath(kids[0].name) := CacheEntry(kids[0].id, kids[0].kind)], kids[1..])
  }

  lemma {:induction false} CacheByNameSnoc(m: map<string, CacheEntry>, kids: seq<Child>, x: Child)
    ensures CacheByName(m, kids + [x]) == CacheByName(m, kids)[RelPath(x.name) := CacheEntry(x.id, x.kind)]
    decreases |kids|
  {
    if kids == [] {
      assert [] + [x] == [x];
    } else {
      assert (kids + [x])[1..] == kids[1..] + [x];
      CacheByNameSnoc(m[RelPath(kids[0].name) := CacheEntry(kids[0].id, kids[0].kind)], kids[1..], x);
    }
  }

  /**
   * After `get_children`, a key that is the bare name of some child answers
   * the last child of that name; every other key keeps its old entry.
   */
  lemma {:induction false} CacheByNameAt(m: map<string, CacheEntry>, kids: seq<Child>, key: string)
    ensures key in CacheByName(m, kids) <==> key in m || exists j :: 0 <= j < |kids| && RelPath(kids[j].name) == key
    ensures forall k :: (0 <= k < |kids| && RelPath(kids[k].name) == key
                         && forall j :: k < j < |kids| ==> RelPath(kids[j].name) != key)
                        ==> CacheByName(m, kids)[key] == CacheEntry(kids[k].id, kids[k].kind)
    ensures (forall j :: 0 <= j < |kids| ==> RelPath(kids[j].name) != key) && key in m
      ==> CacheByName(m, kids)[key] == m[key]
    decreases |kids|
  {
    if kids != [] {
      var pre := kids[..|kids| - 1];
      var x := kids[|kids| - 1];
      assert kids == pre + [x];
      CacheByNameSnoc(m, pre, x);
      CacheByNameAt(m, pre, key);
      assert forall j :: 0 <= j < |pre| ==> pre[j] == kids[j];
    }
  }

  /** `is_duplicated`: the listing of the item's own folder has that name more than once, once with `newId`. */
  function IsDuplicatedS(c: Client, parent: Option<Id>, name: string, newId: Id): (r: Result<bool, Error>)
    ensures r.Failure? <==> parent.None? || parent.value !in c.listing
    ensures r.Success? ==>
      (r.value <==> CountNamed(c.listing[parent.value], name) > 1 && HasNamedId(c.listing[parent.value], name, newId))
  {
    if parent.None? || parent.value !in c.listing then Failure(AccessFailed)
    else
      var kids := c.listing[parent.value];
      Success(CountNamed(kids, name) > 1 && HasNamedId(kids, name, newId))
  }

  /** `id_default_folder`: one more creation call, whose answer names the canonical folder. */
  function IdDefaultFolderS(s: ItemState, name: string): (r: Run<Id>)
    ensures s.responses == [] ==> r == Run(s, Failure(ResponsesExhausted))
    ensures s.responses != [] ==> r.st == s.(responses := s.responses[1..])
    ensures r.out.Success? <==> s.responses != [] && (s.responses[0].Created? || s.responses[0].InUse?)
    ensures r.out.Success? && s.responses[0].Created? ==> r.out.value == s.responses[0].id
    ensures r.out.Success? && s.responses[0].InUse? ==> r.out.value == s.responses[0].conflictId
  {
    if s.responses == [] then Run(s, Failure(ResponsesExhausted))
    else
      var s1 := s.(responses := s.responses[1..]);
      match s.responses[0]
      case Created(id) => Run(s1, Success(id))
      case InUse(cid) => Run(s1, Success(cid))
      case Reserved => Run(s1, Failure(ConflictUnimplemented))
      case OtherConflict => Run(s1, Failure(ConflictUnimplemented))
      case OtherStatus => Run(s1, Failure(StatusUnimplemented))
  }

  /** `fix_any_duplicate`: it never touches the item's own path, id, type or size. */
  function FixAnyDuplicateS(s: ItemState, c: Client, name: string, newId: Id): (r: Run<Id>)
    ensures r.st.path == s.path && r.st.id == s.id && r.st.kind == s.kind && r.st.size == s.size
  {
    match IsDuplicatedS(c, s.id, name, newId)
    case Failure(e) => Run(s, Failure(e))
    case Success(dup) =>
      if !dup then Run(s, Success(newId))
      else
        var p := IdDefaultFolderS(s.(cache := map[]), name);
        if p.out.Success? && p.out.value != newId then
          Run(p.st.(deleteLog := p.st.deleteLog + [newId]), p.out)
        else p
  }

  /** `create_subfolder`: the `while new_id is None` loop over the creation answers. */
  function CreateSubfolderS(s: ItemState, c: Client, name: string): (r: Run<Id>)
    ensures r.out.Success? ==> r.st.id == Some(r.out.value) && r.st.kind == Some(Folder) && r.st.size == Some(0)
    ensures |r.st.responses| < |s.responses| || (s.responses == [] && r == Run(s, Failure(ResponsesExhausted)))
    decreases |s.responses|
  {
    if s.responses == [] then Run(s, Failure(ResponsesExhausted))
    else
      var s1 := s.(responses := s.responses[1..]);
      match s.responses[0]
      case Created(id) =>
        var f := FixAnyDuplicateS(s1, c, name, id);
        if f.out.Success? then Run(Adopt(f.st, f.out.value), f.out) else f
      case Reserved => CreateSubfolderS(s1, c, name)
      case InUse(cid) => Run(Adopt(s1, cid), Success(cid))
      case OtherConflict => Run(s1, Failure(ConflictUnimplemented))
      case OtherStatus => Run(s1, Failure(StatusUnimplemented))
  }

  // ---------------------------------------------------------------- resolution

  /** The size a cache hit reports, when `get_details` returns: the file's size, 0 for other kinds. */
  function HitSize(c: Client, e: CacheEntry): (r: Option<nat>)
    ensures e.kind != File && r.Some? ==> r.value == 0
    ensures e.kind == WebLink ==> r.Some?
    ensures e.kind != WebLink ==> (r.Some? <==> Fetch(c, e.id, e.kind).Some?)
    ensures e.kind == File && r.Some? ==> r.value == Fetch(c, e.id, File).value.size
  {
    if e.kind == WebLink then Some(0)
    else match Fetch(c, e.id, e.kind)
      case None => None
      case Some(m) => Some(if e.kind == File then m.size else 0)
  }

  /**
   * One iteration of the segment loop of `get_by_path`: list `itemId`, take
   * the first child named `elt`, or create the folder, or clear the item.
   * The value is the parent id for the next segment.
   */
  function StepS(s: ItemState, c: Client, rel: string, create: bool, itemId: Id, key: string, elt: string): Run<Id>
  {
    match Items(c, itemId)
    case None => Run(s, Failure(ListFailed))
    case Some(kids) =>
      match FirstMatch(kids, elt)
      case Some(k) => Run(Found(s, rel, key, kids[k]), Success(kids[k].id))
      case None =>
        if create then
          var r := CreateSubfolderS(s, c, elt);
          if r.out.Failure? then Run(r.st, Failure(r.out.error))
          else Run(r.st.(cache := r.st.cache[key := CacheEntry(r.out.value, Folder)]), Success(r.out.value))
        else Run(SetNoneS(s), Success(itemId))
  }

  /** The segment loop of `get_by_path`, from parent `itemId` with `current_path` equal to `cur`. */
  function WalkS(s: ItemState, c: Client, rel: string, create: bool, itemId: Id, cur: string, segs: seq<string>): Run<()>
    decreases |segs|
  {
    if segs == [] then Run(s, Success(()))
    else
      var key := OsJoin(cur, segs[0]);
      var r := StepS(s, c, rel, create, itemId, key, segs[0]);
      if r.out.Failure? then Run(r.st, Failure(r.out.error))
      else WalkS(r.st, c, rel, create, r.out.value, key, segs[1..])
  }

  /** `get_by_path(path, create_if_not_exist, force_no_cache)`. */
  function GetByPathS(s: ItemState, c: Client, path: string, create: bool, force: bool): Run<()>
  {
    var rel := RelPath(path);
    if rel == "" then Run(SetRootS(s), Success(()))
    else
      var q := CacheQuery(s.cache, rel, force);
      if q.Some? && HitSize(c, q.value).Some? then
        Run(s.(path := rel, id := Some(q.value.id), kind := Some(q.value.kind),
               size := HitSize(c, q.value)), Success(()))
      else
        WalkS(if q.Some? then s.(cache := map[]) else s, c, rel, create, "0", "", Split(rel))
  }

  /**
   * `create_path`: resolve the parent with creation on, then point the item
   * at the full path; when the resolution raises, the path is never set.
   */
  function CreatePathS(s: ItemState, c: Client, path: string, force: bool): Run<()>
  {
    var r := GetByPathS(s, c, ParentPath(path), true, force);
    if r.out.Success? then Run(r.st.(path := path), r.out) else r
  }

  /** `write_stream` after the upload returned `(uid, ukind)`: only the id changes, and the cache learns the path. */
  function WriteStreamS(s: ItemState, uid: Id, ukind: Kind): ItemState {
    s.(id := Some(uid), cache := s.cache[s.path := CacheEntry(uid, ukind)])
  }

  // ---------------------------------------------------------------- deletion


  /** `recursive_delete(id)`: folder children first recursively, file children deleted remotely, then `remove(self.id)`. */
  function RecDeleteS(s: ItemState, c: Client, id: Id): Deletion
    requires Ranked(c)
    decreases Height(c, id), 1, 0
  {
    var d := if id in c.listing then RecDeleteKids(s, c, id, c.listing[id]) else Deletion(s, 0);
    Deletion(d.st.(cache := CacheRemove(d.st.cache, s.id)), d.count)
  }

  function RecDeleteKids(s: ItemState, c: Client, parent: Id, kids: seq<Child>): Deletion
    requires Ranked(c) && parent in c.listing && SuffixOf(kids, c.listing[parent])
    decreases Height(c, parent), 0, |kids|
  {
    if kids == [] then Deletion(s, 0)
    else
      SuffixHeight(c, parent, kids);
      var d1 := DeleteChildS(s, c, parent, kids[0]);
      var d2 := RecDeleteKids(d1.st, c, parent, kids[1..]);
      Deletion(d2.st, d1.count + d2.count)
  }

  /**
   * One round of the loop of `recursive_delete`: a folder child is emptied
   * recursively and dropped from the cache; a file child is deleted remotely
   * and, when that succeeds, dropped from the cache; the count follows.
   */
  function DeleteChildS(s: ItemState, c: Client, parent: Id, ch: Child): Deletion
    requires Ranked(c) && (ch.kind == Folder ==> Height(c, ch.id) < Height(c, parent))
    decreases Height(c, parent), 0, 0
  {
    if ch.kind == Folder then
      var d := RecDeleteS(s, c, ch.id);
      Deletion(d.st.(cache := CacheRemove(d.st.cache, Some(ch.id))), d.count + 1)
    else if ch.kind == File then
      if ch.id in c.deleteStatus then Deletion(s.(deleteLog := s.deleteLog + [ch.id]), 0)
      else Deletion(s.(deleteLog := s.deleteLog + [ch.id], cache := CacheRemove(s.cache, Some(ch.id))), 1)
    else Deletion(s, 0)
  }

  /** `delete`: a file is deleted directly (a 404 counts as done); a folder recursively. */
  function DeleteS(s: ItemState, c: Client): Run<Option<nat>>
    requires Ranked(c) && ValidState(s)
  {
    if s.kind == Some(File) then
      var id := s.id.value;
      var s1 := s.(deleteLog := s.deleteLog + [id]);
      if id in c.deleteStatus && c.deleteStatus[id] != 404 then Run(s1, Failure(DeleteFailed(c.deleteStatus[id])))
      else Run(s1.(cache := CacheRemove(s1.cache, s.id)), Success(Some(1)))
    else if s.kind == Some(Folder) then
      var d := RecDeleteS(s, c, s.id.value);
      Run(d.st, Success(Some(d.count)))
    else Run(s, Success(None))
  }

  // ---------------------------------------------------------------- path validation

  datatype FormatError = NonPrintable | TooLong(seg: string) | SpecialName(seg: string) | TrailingSpace(seg: string)

  /** Membership in Python's `string.printable`: ASCII 32..126 and the whitespace 9..13. */
  predicate Printable(ch: char) {
    (9 <= ch as int <= 13) || (32 <= ch as int <= 126)
  }

  predicate SegmentOk(e: string) {
    |e| <= 255 && e != "." && e != ".." && !(|e| > 0 && e[|e| - 1] == ' ')
  }

  predicate AllPrintable(p: string) {
    forall i :: 0 <= i < |p| ==> Printable(p[i])
  }

  predicate SegmentsOk(segs: seq<string>) {
    forall i :: 0 <= i < |segs| ==> SegmentOk(segs[i])
  }

  function CheckSegments(segs: seq<string>): (r: Option<FormatError>)
    ensures r.None? <==> SegmentsOk(segs)
    ensures r != Some(NonPrintable)
  {
    if segs == [] then None
    else
      var e := segs[0];
      if |e| > 255 then Some(TooLong(e))
      else if e == "." || e == ".." then Some(SpecialName(e))
      else if |e| > 0 && e[|e| - 1] == ' ' then Some(TrailingSpace(e))
      else CheckSegments(segs[1..])
  }

  /** `check_path_format`: None when the path is accepted, otherwise the first reason it is refused. */
  function CheckPathFormat(p: string): (r: Option<FormatError>)
    ensures r.None? <==> AllPrintable(p) && SegmentsOk(Split(p))
    ensures r == Some(NonPrintable) <==> !AllPrintable(p)
  {
    if !AllPrintable(p) then Some(NonPrintable)
    else CheckSegments(Split(p))
  }
}
