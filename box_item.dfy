/**
 * The `BoxItem` class of python-lib/box_item.py: a mutable descriptor that
 * resolves a path to an item id by walking the remote tree. Every method is
 * proved to leave the object in the state the matching function of BoxSpec
 * computes from the old state.
 */
module BoxItems {
  import opened Wrappers
  import opened Remote
  import opened PathUtils
  import opened BoxSpec
  import BoxProps

  class BoxItem {
    var path: string
    var id: Option<Id>
    var kind: Option<Kind>
    var size: Option<nat>
    var modifiedAt: Option<int>
    /** The path cache: relative path to (id, type). */
    var cache: map<string, CacheEntry>
    /** The answers the remote folder-creation call still has to give, in order. */
    var responses: seq<CreateResponse>
    /** The remote delete calls issued so far, in order. */
    var deleteLog: seq<Id>
    const root: string
    const client: Client

    function State(): ItemState
      reads this
    {
      ItemState(path, id, kind, size, modifiedAt, cache, responses, deleteLog)
    }

    ghost predicate Valid()
      reads this
    {
      ValidState(State())
    }

    /** `__init__`: the item starts at the root; `stored` is what the cache loaded. */
    constructor (root: string, client: Client, stored: map<string, CacheEntry>, responses: seq<CreateResponse>)
      ensures State() == Initial(stored, responses) && Valid()
      ensures this.root == root && this.client == client
    {
      this.path := "";
      this.id := Some("0");
      this.kind := Some(Folder);
      this.modifiedAt := None;
      this.size := Some(0);
      this.cache := stored;
      this.root := root;
      this.client := client;
      this.responses := responses;
      this.deleteLog := [];
    }

    predicate Exists() reads this { id.Some? }
    predicate NotExists() reads this { id == None }
    predicate IsFolder() reads this { kind == Some(Folder) }
    predicate IsFile() reads this { kind == Some(File) }

    /** `set_root`: the item becomes the root folder; path, cache and date stay. */
    method SetRoot()
      modifies this
      ensures State() == SetRootS(old(State()))
      ensures Exists() && IsFolder() && !IsFile() && Valid()
    {
      id := Some("0");
      kind := Some(Folder);
      size := Some(0);
    }

    /** `set_none`: id, type, size and date are cleared; path and cache stay. */
    method SetNone()
      modifies this
      ensures State() == SetNoneS(old(State()))
      ensures !Exists() && NotExists() && !IsFolder() && !IsFile() && Valid()
    {
      id := None;
      kind := None;
      modifiedAt := None;
      size := None;
    }

    /** `get_stat`: normalised path, size only for files, `isDirectory` exactly for folders. */
    function GetStat(): (r: Stat)
      reads this
      ensures Canonical(r.path) && NonEmpty(Split(r.path)) == NonEmpty(Split(path))
      ensures r.size != 0 ==> IsFile()
      ensures IsFile() && size.Some? ==> r.size == size.value
      ensures r.isDirectory <==> IsFolder()
      ensures r.lastModified == modifiedAt
    {
      NormalizedCanonical(path);
      NormalizedSegments(path);
      Stat(NormalizedPath(path), if IsFile() && size.Some? then size.value else 0, IsFolder(), modifiedAt)
    }

    /** `get_as_browse`. */
    function GetAsBrowse(): (r: Browse)
      reads this
      ensures Canonical(r.fullPath) && NonEmpty(Split(r.fullPath)) == NonEmpty(Split(path))
      ensures r.present <==> Exists()
      ensures r.directory <==> IsFolder()
      ensures r.size == size && r.lastModified == modifiedAt
    {
      NormalizedCanonical(path);
      NormalizedSegments(path);
      Browse(NormalizedPath(path), Exists(), IsFolder(), size, modifiedAt)
    }

    /** `is_duplicated`: counts the children of the item's folder that carry `name`. */
    method IsDuplicated(name: string, newId: Id) returns (r: Result<bool, Error>)
      ensures r == IsDuplicatedS(client, id, name, newId)
    {
      if id.None? || id.value !in client.listing {
        return Failure(AccessFailed);
      }
      var kids := client.listing[id.value];
      var instances := 0;
      var myChild := false;
      var i := 0;
      while i < |kids|
        invariant 0 <= i <= |kids|
        invariant instances == CountNamed(kids[..i], name)
        invariant myChild <==> HasNamedId(kids[..i], name, newId)
      {
        CountNamedSnoc(kids[..i], kids[i], name);
        assert kids[..i + 1] == kids[..i] + [kids[i]];
        if kids[i].name == name {
          instances := instances + 1;
          if kids[i].id == newId {
            myChild := true;
          }
        }
        i := i + 1;
      }
      assert kids[..i] == kids;
      r := Success(instances > 1 && myChild);
    }

    /** `id_default_folder`: probe with one more creation call. */
    method IdDefaultFolder(name: string) returns (r: Result<Id, Error>)
      modifies this
      ensures Run(State(), r) == IdDefaultFolderS(old(State()), name)
      ensures old(Valid()) ==> Valid()
    {
      if responses == [] {
        return Failure(ResponsesExhausted);
      }
      var resp := responses[0];
      responses := responses[1..];
      match resp {
        case Created(pid) => r := Success(pid);
        case InUse(cid) => r := Success(cid);
        case Reserved => r := Failure(ConflictUnimplemented);
        case OtherConflict => r := Failure(ConflictUnimplemented);
        case OtherStatus => r := Failure(StatusUnimplemented);
      }
    }

    /** `fix_any_duplicate`. */
    method FixAnyDuplicate(name: string, newId: Id) returns (r: Result<Id, Error>)
      modifies this
      ensures Run(State(), r) == FixAnyDuplicateS(old(State()), client, name, newId)
      ensures old(Valid()) ==> Valid()
    {
      var dup := IsDuplicated(name, newId);
      if dup.Failure? {
        return Failure(dup.error);
      }
      if dup.value {
        cache := map[];
        var d := IdDefaultFolder(name);
        if d.Failure? {
          return d;
        }
        if d.value != newId {
          deleteLog := deleteLog + [newId];
          return d;
        }
      }
      r := Success(newId);
    }

    /** `create_subfolder`: loop until the remote gives an id, retrying while the name is reserved. */
    method CreateSubfolder(name: string) returns (r: Result<Id, Error>)
      modifies this
      ensures Run(State(), r) == CreateSubfolderS(old(State()), client, name)
      ensures old(Valid()) ==> Valid()
    {
      if Valid() {
        BoxProps.CreateValid(State(), client, name);
      }
      var newId: Option<Id> := None;
      while newId.None?
        invariant newId.None? ==> CreateSubfolderS(State(), client, name) == CreateSubfolderS(old(State()), client, name)
        invariant newId.Some? ==>
          CreateSubfolderS(old(State()), client, name) == Run(Adopt(State(), newId.value), Success(newId.value))
        decreases |responses|, if newId.None? then 1 else 0
      {
        if responses == [] {
          return Failure(ResponsesExhausted);
        }
        var resp := responses[0];
        responses := responses[1..];
        match resp {
          case Created(fid) =>
            var f := FixAnyDuplicate(name, fid);
            if f.Failure? {
              return f;
            }
            newId := Some(f.value);
          case Reserved =>
          case InUse(cid) =>
            newId := Some(cid);
          case OtherConflict =>
            return Failure(ConflictUnimplemented);
          case OtherStatus =>
            return Failure(StatusUnimplemented);
        }
      }
      id := newId;
      kind := Some(Folder);
      size := Some(0);
      r := Success(newId.value);
    }

    /** `get_by_path`. */
    method GetByPath(p: string, create: bool, force: bool) returns (r: Result<(), Error>)
      modifies this
      ensures Run(State(), r) == GetByPathS(old(State()), client, p, create, force)
      ensures old(Valid()) ==> Valid()
    {
      if Valid() {
        BoxProps.GetByPathValid(State(), client, p, create, force);
      }
      var rel := RelPath(p);
      if rel == "" {
        SetRoot();
        return Success(());
      }
      var q := CacheQuery(cache, rel, force);
      if q.Some? {
        var details := HitSize(client, q.value);
        if details.Some? {
          path := rel;
          id := Some(q.value.id);
          kind := Some(q.value.kind);
          size := details;
          return Success(());
        }
        cache := map[];
      }
      var itemId := "0";
      var segs := Split(rel);
      var cur := "";
      var i := 0;
      while i < |segs|
        invariant 0 <= i <= |segs|
        invariant WalkS(State(), client, rel, create, itemId, cur, segs[i..]) == GetByPathS(old(State()), client, p, create, force)
      {
        var elt := segs[i];
        assert segs[i..][0] == elt && segs[i..][1..] == segs[i + 1..];
        cur := OsJoin(cur, elt);
        var next := Step(rel, create, itemId, cur, elt);
        if next.Failure? {
          return Failure(next.error);
        }
        itemId := next.value;
        i := i + 1;
      }
      r := Success(());
    }

    /** The body of the segment loop of `get_by_path`, for segment `elt` whose `current_path` is `key`. */
    method Step(rel: string, create: bool, itemId: Id, key: string, elt: string) returns (r: Result<Id, Error>)
      modifies this
      ensures Run(State(), r) == StepS(old(State()), client, rel, create, itemId, key, elt)
      ensures old(Valid()) ==> Valid()
    {
      if Valid() {
        BoxProps.StepValid(State(), client, rel, create, itemId, key, elt);
      }
      if itemId !in client.listing {
        return Failure(ListFailed);
      }
      var kids := client.listing[itemId];
      var j := 0;
      while j < |kids| && kids[j].name != elt
        invariant 0 <= j <= |kids|
        invariant forall t :: 0 <= t < j ==> kids[t].name != elt
      {
        j := j + 1;
      }
      if j < |kids| {
        var ch := kids[j];
        path := rel;
        id := Some(ch.id);
        kind := Some(ch.kind);
        modifiedAt := ch.modifiedAt;
        size := Some(ch.size);
        cache := cache[key := CacheEntry(ch.id, ch.kind)];
        r := Success(ch.id);
      } else if create {
        var made := CreateSubfolder(elt);
        if made.Failure? {
          return Failure(made.error);
        }
        cache := cache[key := CacheEntry(made.value, Folder)];
        r := Success(made.value);
      } else {
        SetNone();
        r := Success(itemId);
      }
    }

    /** `create_path`: resolve the parent, creating folders, then point at the full path. */
    method CreatePath(p: string, force: bool) returns (r: Result<(), Error>)
      modifies this
      ensures Run(State(), r) == CreatePathS(old(State()), client, p, force)
      ensures old(Valid()) ==> Valid()
    {
      if Valid() {
        BoxProps.CreatePathValid(State(), client, p, force);
      }
      var segs := Split(p);
      var target := Join(segs[..|segs| - 1]);
      r := GetByPath(target, true, force);
      if r.Success? {
        path := p;
      }
    }

    /**
     * The state side of `write_stream`, once the upload under the item's
     * folder returned `(uid, ukind)`; the upload needs the item to exist.
     */
    method WriteStream(uid: Id, ukind: Kind) returns (fileName: string)
      requires Exists()
      modifies this
      ensures fileName == LastSegment(old(path))
      ensures State() == WriteStreamS(old(State()), uid, ukind)
      ensures id == Some(uid)
      ensures old(Valid()) ==> Valid()
    {
      var segs := Split(path);
      fileName := segs[|segs| - 1];
      id := Some(uid);
      cache := cache[path := CacheEntry(uid, ukind)];
    }

    /** `get_children`: one record per child of the item's folder, each cached under its bare name. */
    method GetChildren(internal: string) returns (r: Result<seq<Browse>, Error>)
      modifies this
      ensures id.None? || id.value !in client.listing ==> r == Failure(ListFailed) && State() == old(State())
      ensures id.Some? && id.value in client.listing ==>
        var kids := client.listing[id.value];
        && r.Success? && |r.value| == |kids|
        && (forall k :: 0 <= k < |kids| ==> r.value[k] == ChildRecord(internal, kids[k]))
        && State() == old(State()).(cache := CacheByName(old(cache), kids))
      ensures old(Valid()) ==> Valid()
    {
      if id.None? || id.value !in client.listing {
        return Failure(ListFailed);
      }
      var kids := client.listing[id.value];
      var children: seq<Browse> := [];
      var i := 0;
      while i < |kids|
        invariant 0 <= i <= |kids|
        invariant |children| == i
        invariant forall k {:trigger children[k]} :: 0 <= k < i ==> children[k] == ChildRecord(internal, kids[k])
        invariant cache == CacheByName(old(cache), kids[..i])
        invariant path == old(path) && id == old(id) && kind == old(kind) && size == old(size)
        invariant modifiedAt == old(modifiedAt) && responses == old(responses) && deleteLog == old(deleteLog)
      {
        var sub := kids[i];
        children := children + [ChildRecord(internal, sub)];
        CacheByNameSnoc(old(cache), kids[..i], sub);
        assert kids[..i + 1] == kids[..i] + [sub];
        cache := cache[RelPath(sub.name) := CacheEntry(sub.id, sub.kind)];
        i := i + 1;
      }
      assert kids[..i] == kids;
      r := Success(children);
    }

    /** `recursive_delete(fid)`. */
    method RecursiveDelete(fid: Id) returns (n: nat)
      requires Ranked(client)
      modifies this
      ensures Deletion(State(), n) == RecDeleteS(old(State()), client, fid)
      ensures id == old(id)
      ensures old(Valid()) ==> Valid()
      decreases Height(client, fid), 1
    {
      BoxProps.RecDeleteCache(State(), client, fid);
      var counter: nat := 0;
      if fid in client.listing {
        var kids := client.listing[fid];
        var i := 0;
        while i < |kids|
          invariant 0 <= i <= |kids| && id == old(id)
          invariant SuffixOf(kids[i..], kids)
          invariant RecDeleteKids(old(State()), client, fid, kids)
                 == var d := RecDeleteKids(State(), client, fid, kids[i..]); Deletion(d.st, counter + d.count)
        {
          SuffixHeight(client, fid, kids[i..]);
          assert kids[i..][0] == kids[i] && kids[i..][1..] == kids[i + 1..];
          var m := DeleteChild(fid, kids[i]);
          counter := counter + m;
          i := i + 1;
        }
      }
      cache := CacheRemove(cache, id);
      n := counter;
    }

    /** The body of the loop of `recursive_delete` for one child of `parent`. */
    method DeleteChild(parent: Id, ch: Child) returns (m: nat)
      requires Ranked(client) && (ch.kind == Folder ==> Height(client, ch.id) < Height(client, parent))
      modifies this
      ensures Deletion(State(), m) == DeleteChildS(old(State()), client, parent, ch)
      ensures id == old(id)
      ensures old(Valid()) ==> Valid()
      decreases Height(client, parent), 0
    {
      BoxProps.DeleteChildKeeps(State(), client, parent, ch);
      m := 0;
      if ch.kind == Folder {
        var k := RecursiveDelete(ch.id);
        cache := CacheRemove(cache, Some(ch.id));
        m := k + 1;
      } else if ch.kind == File {
        deleteLog := deleteLog + [ch.id];
        if ch.id !in client.deleteStatus {
          cache := CacheRemove(cache, Some(ch.id));
          m := 1;
        }
      }
    }

    /** `delete`: a file directly, a folder recursively, and nothing for an absent item. */
    method Delete() returns (r: Result<Option<nat>, Error>)
      requires Valid() && Ranked(client)
      modifies this
      ensures Run(State(), r) == DeleteS(old(State()), client)
      ensures Valid()
    {
      BoxProps.DeleteKeeps(State(), client);
      if IsFile() {
        var fid := id.value;
        deleteLog := deleteLog + [fid];
        if fid in client.deleteStatus && client.deleteStatus[fid] != 404 {
          return Failure(DeleteFailed(client.deleteStatus[fid]));
        }
        cache := CacheRemove(cache, id);
        return Success(Some(1));
      }
      if IsFolder() {
        var n := RecursiveDelete(id.value);
        return Success(Some(n));
      }
      r := Success(None);
    }
  }
}
