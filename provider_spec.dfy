/**
 * The older filesystem provider (python-fs-providers/box-com_box-com/fs-provider.py)
 * as functions: the cache-free first-match walk `get_box_item`, the
 * depth-first `list_recursive`, and what the provider answers from them.
 */
module ProviderSpec {
  import opened Wrappers
  import opened Remote
  import opened PathUtils

  datatype ProviderError =
    | ListFailed            // get_items raised
    | DetailsFailed         // a details fetch raised
    | CreateFailed          // the creation call raised
    | ResponsesExhausted    // no scripted creation answer is left
    | TypeUnbound           // `item_type` read before any assignment
    | RangeUnbound          // `byte_range` read before any assignment
    | NotFound              // "Path doesn t exist"
    | Unsupported(op: string)

  /** The pair `get_box_item` returns; `(None, None)` is Missing. */
  datatype Lookup = Missing | Resolved(id: Id, kind: Kind)

  /** One element of the list `list_recursive` builds. */
  datatype ListEntry = PathEntry(path: string, size: nat) | IdEntry(id: Id, kind: Kind)

  /** The dictionary `stat` returns. */
  datatype ProviderStat = ProviderStat(path: string, size: nat, isDirectory: bool, lastModified: Option<int>)

  /**
   * The `limit` argument of `read`: absent, the text "-1", or a number.
   * `read` tests the text with `is not`, an identity test that a "-1" built
   * at run time passes, so that text goes on to `int(limit)` like the number -1.
   */
  datatype Limit = NoLimit | MinusOneText | Count(n: int)

  /** What `int(limit)` gives once `limit` is known to be present. */
  function IntLimit(limit: Limit): int
    requires !limit.NoLimit?
  {
    if limit.MinusOneText? then -1 else limit.n
  }

  /** What `read` asks the download call for. */
  datatype Download = Whole | Range(first: int, last: int)

  /** `self.root_lnt` as the constructor computes it: strip one leading slash, then normalise. */
  function RootLnt(root: string): string {
    NormalizedPath(RelPath(root))
  }

  /** The segment loop of `get_box_item`, from parent `itemId`; `itemType` None is the still-unbound local. */
  function BoxWalk(c: Client, responses: seq<CreateResponse>, create: bool, segs: seq<string>, itemId: Id, itemType: Option<Kind>)
    : (r: Result<Lookup, ProviderError>)
    ensures r.Failure? ==> r.error in [ListFailed, CreateFailed, ResponsesExhausted, TypeUnbound]
    ensures !create && segs != [] && r.Failure? ==> r.error == ListFailed
    decreases |segs|
  {
    if segs == [] then
      if itemType.None? then Failure(TypeUnbound) else Success(Resolved(itemId, itemType.value))
    else
      match Items(c, itemId)
      case None => Failure(ListFailed)
      case Some(kids) =>
        match FirstMatch(kids, segs[0])
        case Some(k) => BoxWalk(c, responses, create, segs[1..], kids[k].id, Some(kids[k].kind))
        case None =>
          if !create then Success(Missing)
          else if responses == [] then Failure(ResponsesExhausted)
          else match responses[0]
            case Created(nid) => BoxWalk(c, responses[1..], create, segs[1..], nid, itemType)
            case _ => Failure(CreateFailed)
  }

  /** `get_box_item(path, create_if_not_exist)`. */
  function GetBoxItemS(c: Client, responses: seq<CreateResponse>, path: string, create: bool): (r: Result<Lookup, ProviderError>)
    ensures r.Failure? ==> r.error in [ListFailed, CreateFailed, ResponsesExhausted, TypeUnbound]
    ensures !create && r.Failure? ==> r.error == ListFailed
  {
    var rel := RelPath(path);
    if rel == "" then Success(Resolved("0", Folder))
    else BoxWalk(c, responses, create, Split(rel), "0", None)
  }

  /** `get_box_item_details`: the folder fetch for folders, the file fetch for everything else. */
  function DetailsS(c: Client, id: Id, kind: Kind): Option<Meta> {
    Fetch(c, id, if kind == Folder then Folder else File)
  }

  /** `stat`, for the provider whose root is `rootLnt`. */
  function StatS(c: Client, rootLnt: string, path: string): Result<Option<ProviderStat>, ProviderError>
  {
    match GetBoxItemS(c, [], FullPath(rootLnt, path), false)
    case Failure(e) => Failure(e)
    case Success(Missing) => Success(None)
    case Success(Resolved(id, kind)) =>
      match DetailsS(c, id, kind)
      case None => Failure(DetailsFailed)
      case Some(m) =>
        Success(Some(ProviderStat(NormalizedPath(path), if m.kind == File then m.size else 0, m.kind == Folder, m.modifiedAt)))
  }

  /** `value` with `acc` put in front, or the same failure. */
  function Prepend(acc: seq<ListEntry>, r: Result<seq<ListEntry>, ProviderError>): Result<seq<ListEntry>, ProviderError> {
    if r.Success? then Success(acc + r.value) else r
  }

  lemma PrependNil(r: Result<seq<ListEntry>, ProviderError>)
    ensures Prepend([], r) == r
  {
    if r.Success? {
      assert [] + r.value == r.value;
    }
  }

  lemma PrependPrepend(a: seq<ListEntry>, b: seq<ListEntry>, r: Result<seq<ListEntry>, ProviderError>)
    ensures Prepend(a, Prepend(b, r)) == Prepend(a + b, r)
  {
    if r.Success? {
      assert a + (b + r.value) == (a + b) + r.value;
    }
  }

  /** `list_recursive(prefix, id, first_non_empty, box_id_only)`. */
  function ListRecS(c: Client, prefix: string, id: Id, first: bool, idOnly: bool): Result<seq<ListEntry>, ProviderError>
    requires Ranked(c)
    decreases Height(c, id), 1, 0
  {
    var p := if prefix == "/" then "" else prefix;
    if id !in c.listing then Failure(ListFailed)
    else ListKidsS(c, p, id, c.listing[id], first, idOnly)
  }

  /** The loop of `list_recursive` over the children still to visit. */
  function ListKidsS(c: Client, p: string, parent: Id, kids: seq<Child>, first: bool, idOnly: bool)
    : Result<seq<ListEntry>, ProviderError>
    requires Ranked(c) && parent in c.listing && SuffixOf(kids, c.listing[parent])
    decreases Height(c, parent), 0, |kids|
  {
    if kids == [] then Success([])
    else
      SuffixHeight(c, parent, kids);
      match ChildS(c, p, parent, kids[0], first, idOnly)
      case Failure(e) => Failure(e)
      case Success(v) =>
        if v.1 then Success(v.0) else Prepend(v.0, ListKidsS(c, p, parent, kids[1..], first, idOnly))
  }

  /** One round of that loop, seen from the entries `acc` gathered before it. */
  lemma ListKidsStep(c: Client, p: string, parent: Id, kids: seq<Child>, first: bool, idOnly: bool, acc: seq<ListEntry>)
    requires Ranked(c) && parent in c.listing && SuffixOf(kids, c.listing[parent]) && kids != []
    ensures SuffixOf(kids[1..], c.listing[parent])
    ensures var v := (SuffixHeight(c, parent, kids); ChildS(c, p, parent, kids[0], first, idOnly));
      Prepend(acc, ListKidsS(c, p, parent, kids, first, idOnly))
      == if v.Failure? then Failure(v.error)
         else if v.value.1 then Success(acc + v.value.0)
         else Prepend(acc + v.value.0, ListKidsS(c, p, parent, kids[1..], first, idOnly))
  {
    SuffixHeight(c, parent, kids);
    var v := ChildS(c, p, parent, kids[0], first, idOnly);
    if v.Success? && !v.value.1 {
      PrependPrepend(acc, v.value.0, ListKidsS(c, p, parent, kids[1..], first, idOnly));
    }
  }

  /**
   * One round of that loop for child `ch` of `parent`: the entries it adds,
   * and whether `first_non_empty` returns right after them.
   */
  function ChildS(c: Client, p: string, parent: Id, ch: Child, first: bool, idOnly: bool)
    : Result<(seq<ListEntry>, bool), ProviderError>
    requires Ranked(c) && (ch.kind == Folder ==> Height(c, ch.id) < Height(c, parent))
    decreases Height(c, parent), 0, 0
  {
    if ch.kind == Folder then
      var head :=
        if !idOnly then Success([])
        else match Fetch(c, ch.id, Folder)
          case None => Failure(DetailsFailed)
          case Some(m) => Success([IdEntry(ch.id, m.kind)]);
      if head.Failure? then Failure(head.error)
      else
        match ListRecS(c, p + "/" + ch.name, ch.id, first, idOnly)
        case Failure(e) => Failure(e)
        case Success(sub) => Success((head.value + sub, false))
    else
      match Fetch(c, ch.id, File)
      case None => Failure(DetailsFailed)
      case Some(m) =>
        Success(([if idOnly then IdEntry(ch.id, m.kind) else PathEntry(p + "/" + m.name, m.size)], first))
  }

  /** `enumerate(path, first_non_empty)`. */
  function EnumerateS(c: Client, rootLnt: string, path: string, first: bool): Result<Option<seq<ListEntry>>, ProviderError>
    requires Ranked(c)
  {
    match GetBoxItemS(c, [], FullPath(rootLnt, path), false)
    case Failure(e) => Failure(e)
    case Success(Missing) => Success(None)
    case Success(Resolved(id, kind)) =>
      if kind == Folder then
        match ListRecS(c, path, id, first, false)
        case Failure(e) => Failure(e)
        case Success(es) => Success(Some(es))
      else
        match Fetch(c, id, File)
        case None => Failure(DetailsFailed)
        case Some(m) => Success(Some([PathEntry(LastSegment(NormalizedPath(path)), m.size)]))
  }

  /** The byte range `read` computes from `limit`; None is the still-unbound local. */
  function ByteRange(limit: Limit): Option<Download> {
    if limit.NoLimit? then None
    else if IntLimit(limit) > 0 then Some(Range(0, IntLimit(limit) - 1))
    else Some(Whole)
  }

  /** `read`, up to the download call. */
  function ReadS(c: Client, rootLnt: string, path: string, limit: Limit): Result<Download, ProviderError>
  {
    match GetBoxItemS(c, [], FullPath(rootLnt, path), false)
    case Failure(e) => Failure(e)
    case Success(Missing) => Failure(NotFound)
    case Success(Resolved(_, _)) =>
      if ByteRange(limit).None? then Failure(RangeUnbound) else Success(ByteRange(limit).value)
  }
}
