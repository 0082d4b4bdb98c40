/**
 * `BoxComFSProvider` (python-fs-providers/box-com_box-com/fs-provider.py):
 * the root it was built with and the client it talks to never change, so
 * the operations are methods that change nothing and return what the
 * provider answers, each proved equal to its function in ProviderSpec.
 */
module Provider {
  import opened Wrappers
  import opened Remote
  import opened PathUtils
  import opened ProviderSpec

  class BoxComFSProvider {
    const root: string
    const rootLnt: string
    const client: Client

    /** Strips one leading slash from `root0`, then keeps its normal form as `rootLnt`. */
    constructor (root0: string, client0: Client)
      ensures root == RelPath(root0) && rootLnt == RootLnt(root0) && client == client0
      ensures Canonical(rootLnt)
    {
      var r := root0;
      if |r| > 0 && r[0] == '/' {
        r := r[1..];
      }
      root := r;
      rootLnt := NormalizedPath(r);
      client := client0;
      NormalizedCanonical(r);
    }

    /** `get_box_item`: walk from the root folder "0", creating the missing folders when `create` is set. */
    method GetBoxItem(path: string, create: bool, responses: seq<CreateResponse>) returns (r: Result<Lookup, ProviderError>)
      ensures r == GetBoxItemS(client, responses, path, create)
    {
      var rel := RelPath(path);
      var itemId: Id := "0";
      if rel == "" {
        return Success(Resolved(itemId, Folder));
      }
      var elts := Split(rel);
      var itemType: Option<Kind> := None;
      var pending := responses;
      var i := 0;
      while i < |elts|
        invariant 0 <= i <= |elts|
        invariant BoxWalk(client, pending, create, elts[i..], itemId, itemType) == GetBoxItemS(client, responses, path, create)
      {
        var items := Items(client, itemId);
        if items.None? {
          return Failure(ListFailed);
        }
        var kids := items.value;
        var parent, parentType := itemId, itemType;
        var found := false;
        var j := 0;
        while j < |kids| && !found
          invariant 0 <= j <= |kids|
          invariant !found ==> itemId == parent && itemType == parentType
          invariant !found ==> forall k :: 0 <= k < j ==> kids[k].name != elts[i]
          invariant found ==> (0 < j && FirstMatch(kids, elts[i]) == Some(j - 1)
            && itemId == kids[j - 1].id && itemType == Some(kids[j - 1].kind))
        {
          if kids[j].name == elts[i] {
            itemId := kids[j].id;
            itemType := Some(kids[j].kind);
            found := true;
          }
          j := j + 1;
        }
        assert elts[i..][1..] == elts[i + 1..];
        if !found {
          if !create {
            return Success(Missing);
          }
          if pending == [] {
            return Failure(ResponsesExhausted);
          }
          if !pending[0].Created? {
            return Failure(CreateFailed);
          }
          itemId := pending[0].id;
          pending := pending[1..];
        }
        i := i + 1;
      }
      if itemType.None? {
        return Failure(TypeUnbound);
      }
      return Success(Resolved(itemId, itemType.value));
    }

    /** `stat`: None when the path does not resolve; otherwise what the details fetch reports. */
    method Stat(path: string) returns (r: Result<Option<ProviderStat>, ProviderError>)
      ensures r == StatS(client, rootLnt, path)
    {
      var found := GetBoxItem(FullPath(rootLnt, path), false, []);
      if found.Failure? {
        return Failure(found.error);
      }
      if found.value.Missing? {
        return Success(None);
      }
      var details := DetailsS(client, found.value.id, found.value.kind);
      if details.None? {
        return Failure(DetailsFailed);
      }
      var m := details.value;
      var size := if m.kind == File then m.size else 0;
      return Success(Some(ProviderStat(NormalizedPath(path), size, m.kind == Folder, m.modifiedAt)));
    }

    /** `list_recursive`: depth-first over the listing of `folderId`, cut after the first file when `first` is set. */
    method ListRecursive(prefix: string, folderId: Id, first: bool, idOnly: bool) returns (r: Result<seq<ListEntry>, ProviderError>)
      requires Ranked(client)
      ensures r == ListRecS(client, prefix, folderId, first, idOnly)
      decreases Height(client, folderId), 1
    {
      var p := if prefix == "/" then "" else prefix;
      if folderId !in client.listing {
        return Failure(ListFailed);
      }
      var kids := client.listing[folderId];
      var paths: seq<ListEntry> := [];
      var i := 0;
      assert kids[0..] == kids;
      PrependNil(ListKidsS(client, p, folderId, kids, first, idOnly));
      while i < |kids|
        invariant 0 <= i <= |kids|
        invariant SuffixOf(kids[i..], kids)
        invariant Prepend(paths, ListKidsS(client, p, folderId, kids[i..], first, idOnly))
               == ListRecS(client, prefix, folderId, first, idOnly)
      {
        SuffixHeight(client, folderId, kids[i..]);
        assert kids[i..][0] == kids[i] && kids[i..][1..] == kids[i + 1..];
        var v := VisitChild(p, folderId, kids[i], first, idOnly);
        ListKidsStep(client, p, folderId, kids[i..], first, idOnly, paths);
        if v.Failure? {
          return Failure(v.error);
        }
        paths := paths + v.value.0;
        if v.value.1 {
          return Success(paths);
        }
        i := i + 1;
      }
      assert paths + [] == paths;
      return Success(paths);
    }

    /** The body of the loop of `list_recursive` for one child: recurse into a folder, or fetch a file's details. */
    method VisitChild(p: string, parent: Id, child: Child, first: bool, idOnly: bool)
      returns (r: Result<(seq<ListEntry>, bool), ProviderError>)
      requires Ranked(client) && (child.kind == Folder ==> Height(client, child.id) < Height(client, parent))
      ensures r == ChildS(client, p, parent, child, first, idOnly)
      decreases Height(client, parent), 0
    {
      if child.kind == Folder {
        var head: seq<ListEntry> := [];
        if idOnly {
          var details := Fetch(client, child.id, Folder);
          if details.None? {
            return Failure(DetailsFailed);
          }
          head := [IdEntry(child.id, details.value.kind)];
        }
        var sub := ListRecursive(p + "/" + child.name, child.id, first, idOnly);
        if sub.Failure? {
          return Failure(sub.error);
        }
        return Success((head + sub.value, false));
      }
      var details := Fetch(client, child.id, File);
      if details.None? {
        return Failure(DetailsFailed);
      }
      var m := details.value;
      var e := if idOnly then IdEntry(child.id, m.kind) else PathEntry(p + "/" + m.name, m.size);
      return Success(([e], first));
    }

    /** `enumerate`: None when the path does not resolve, the files below a folder, or the file itself. */
    method Enumerate(path: string, first: bool) returns (r: Result<Option<seq<ListEntry>>, ProviderError>)
      requires Ranked(client)
      ensures r == EnumerateS(client, rootLnt, path, first)
    {
      var found := GetBoxItem(FullPath(rootLnt, path), false, []);
      if found.Failure? {
        return Failure(found.error);
      }
      if found.value.Missing? {
        return Success(None);
      }
      if found.value.kind == Folder {
        var paths := ListRecursive(path, found.value.id, first, false);
        if paths.Failure? {
          return Failure(paths.error);
        }
        return Success(Some(paths.value));
      }
      var details := Fetch(client, found.value.id, File);
      if details.None? {
        return Failure(DetailsFailed);
      }
      return Success(Some([PathEntry(LastSegment(NormalizedPath(path)), details.value.size)]));
    }

    /** `read` up to the download call: which part of the file it asks for. */
    method Read(path: string, limit: Limit) returns (r: Result<Download, ProviderError>)
      ensures r == ReadS(client, rootLnt, path, limit)
    {
      var byteRange: Option<Download> := None;
      if !limit.NoLimit? {
        var intLimit := if limit.MinusOneText? then -1 else limit.n;
        if intLimit > 0 {
          byteRange := Some(Range(0, intLimit - 1));
        } else {
          byteRange := Some(Whole);
        }
      }
      var found := GetBoxItem(FullPath(rootLnt, path), false, []);
      if found.Failure? {
        return Failure(found.error);
      }
      if found.value.Missing? {
        return Failure(NotFound);
      }
      if byteRange.None? {
        return Failure(RangeUnbound);
      }
      return Success(byteRange.value);
    }

    /** `set_last_modified` is not implemented: it always raises. */
    method SetLastModified(path: string, lastModified: int) returns (r: Result<(), ProviderError>)
      ensures r == Failure(Unsupported("set_last_modified"))
    {
      return Failure(Unsupported("set_last_modified"));
    }

    /** `delete_recursive` is not implemented: it always raises. */
    method DeleteRecursive(path: string) returns (r: Result<nat, ProviderError>)
      ensures r == Failure(Unsupported("delete_recursive"))
    {
      return Failure(Unsupported("delete_recursive"));
    }

    /** `move` is not implemented: it always raises. */
    method Move(fromPath: string, toPath: string) returns (r: Result<bool, ProviderError>)
      ensures r == Failure(Unsupported("move"))
    {
      return Failure(Unsupported("move"));
    }

    /** `write` is not implemented: it always raises. */
    method Write(path: string, data: seq<bv8>) returns (r: Result<(), ProviderError>)
      ensures r == Failure(Unsupported("write"))
    {
      return Failure(Unsupported("write"));
    }
  }
}
