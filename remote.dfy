/**
 * The remote store as the adapter sees it: an immutable snapshot of folder
 * listings and item details, plus the scripted answers of the calls that
 * change remote state (folder creation, deletion).
 */
module Remote {
  import opened Wrappers

  type Id = string

  /** The `type` attribute of a Box item. */
  datatype Kind = Folder | File | WebLink

  /** One entry of a folder listing, in listing order. */
  datatype Child = Child(id: Id, name: string, kind: Kind, size: nat, modifiedAt: Option<int>)

  /** What `client.folder(id).get()` / `client.file(id).get()` returns. */
  datatype Meta = Meta(name: string, kind: Kind, size: nat, modifiedAt: Option<int>)

  /** One answer of the remote folder-creation call. */
  datatype CreateResponse =
    | Created(id: Id)          // normal return with the new folder's id
    | Reserved                 // 409 name_temporarily_reserved
    | InUse(conflictId: Id)    // 409 item_name_in_use, conflicts[0].id
    | OtherConflict            // any other 409 code
    | OtherStatus              // any non-409 status

  /**
   * listing: the children of every folder that can be listed (an id missing
   * here makes `get_items` raise); meta: the details of every item that can
   * be fetched; deleteStatus: the error status a delete of that id raises
   * (absent means the delete succeeds); height: a bound on the height of the
   * tree below each folder, so that recursive walks terminate.
   */
  datatype Client = Client(
    listing: map<Id, seq<Child>>,
    meta: map<Id, Meta>,
    deleteStatus: map<Id, int>,
    height: map<Id, nat>)

  function Height(c: Client, id: Id): nat {
    if id in c.height then c.height[id] else 0
  }

  /** The remote tree is finite and acyclic: every listed sub-folder sits strictly lower. */
  ghost predicate Ranked(c: Client) {
    forall p, k :: p in c.listing && 0 <= k < |c.listing[p]| && c.listing[p][k].kind == Folder ==>
      Height(c, c.listing[p][k].id) < Height(c, p)
  }

  /** `get_items` on a folder id: None when the call raises. */
  function Items(c: Client, id: Id): (r: Option<seq<Child>>)
    ensures r.Some? <==> id in c.listing
    ensures r.Some? ==> r.value == c.listing[id]
  {
    if id in c.listing then Some(c.listing[id]) else None
  }

  /** The details fetch for an id of the given kind: None when the call raises. */
  function Fetch(c: Client, id: Id, kind: Kind): (r: Option<Meta>)
    ensures r.Some? <==> id in c.meta && c.meta[id].kind == kind
    ensures r.Some? ==> r.value == c.meta[id]
  {
    if id in c.meta && c.meta[id].kind == kind then Some(c.meta[id]) else None
  }

  /** Index of the first child in listing order whose name is `name`. */
  function FirstMatch(kids: seq<Child>, name: string): (r: Option<nat>)
    ensures r.Some? ==> r.value < |kids| && kids[r.value].name == name
    ensures r.Some? ==> forall j :: 0 <= j < r.value ==> kids[j].name != name
    ensures r.None? <==> forall j :: 0 <= j < |kids| ==> kids[j].name != name
  {
    if kids == [] then None
    else if kids[0].name == name then Some(0)
    else match FirstMatch(kids[1..], name)
      case None => None
      case Some(k) => Some(k + 1)
  }

  /** The outcome of a first-match descent: a listing raised, a segment had no match, or the item reached. */
  datatype Located = Unlistable | NotThere | At(child: Child)

  /**
   * Reference resolution of a path's segments below `parent`: at every
   * segment take the first child in listing order with that name, and stop
   * at the first segment that has none.
   */
  function Locate(c: Client, parent: Id, segs: seq<string>): Located
    requires segs != []
    decreases |segs|
  {
    match Items(c, parent)
    case None => Unlistable
    case Some(kids) =>
      match FirstMatch(kids, segs[0])
      case None => NotThere
      case Some(k) => if |segs| == 1 then At(kids[k]) else Locate(c, kids[k].id, segs[1..])
  }

  /** `kids` is what is left of `all` after some of its first children have been visited. */
  predicate SuffixOf(kids: seq<Child>, all: seq<Child>) {
    |kids| <= |all| && kids == all[|all| - |kids|..]
  }

  lemma SuffixHeight(c: Client, parent: Id, kids: seq<Child>)
    requires Ranked(c) && parent in c.listing && SuffixOf(kids, c.listing[parent]) && kids != []
    ensures kids[0].kind == Folder ==> Height(c, kids[0].id) < Height(c, parent)
    ensures SuffixOf(kids[1..], c.listing[parent])
  {
    var all := c.listing[parent];
    var k := |all| - |kids|;
    assert kids[0] == all[k];
    assert kids[1..] == all[k + 1..];
  }
}
