# box.com filesystem adapter — a Dafny model

This project models the core of a box.com adapter. The adapter exposes a box.com
account as a filesystem: paths go in, and it walks the remote folder tree from the
root folder "0" to find item ids.

- **`BoxItem`** (python-lib/box_item.py) is a mutable descriptor and the centre of the model.
  - `get_by_path` resolves a path. It tries a path cache first, then a first-match walk over folder listings.
  - The walk can create missing folders. Creation handles box.com's conflict answers ("reserved" and "in use") and repairs duplicates made by concurrent creators.
  - `recursive_delete` and `delete` remove a subtree. They count what they removed and keep the cache in step.
  - `check_path_format` refuses names box.com rejects.
- **`CacheHandler`** (python-lib/cache_handler.py) is the path → (id, type) dictionary, gated by `cache_enabled`.
- **The path helpers** (python-lib/utils.py, repeated inside the provider) strip one leading slash, give the canonical `/a/b` form, and prefix the provider root.
- **`BoxComFSProvider`** (python-fs-providers/box-com_box-com/fs-provider.py) is the older provider.
  - Its walk has no cache, and it stops at the first missing segment.
  - `list_recursive` enumerates depth-first, with a `first_non_empty` cut.
  - `stat`, `enumerate` and the byte range of `read` are built on these two.
  - Its remaining operations always raise.

## How the model is built

- **The remote store is a value, `Remote.Client`.** It holds the folder listings in listing order, the item details, and the status of each file delete.
  - A `height` map bounds the depth of every folder. The predicate `Ranked` requires a listed sub-folder to sit strictly lower than its parent, and the recursive walks terminate on that measure.
  - Remote folder creation is a scripted sequence of answers (`CreateResponse`): created, reserved, in use with the conflicting id, another conflict, or another status. A creation with no answer left fails with `ResponsesExhausted`.
- **`BoxSpec` holds the specification side of `BoxItem`.** `ItemState` is the object's fields plus the cache, the creation answers still to come, and the log of remote deletes. Each operation is a function returning the new state together with the value or the exception (`Run`). State changes made before an exception stay visible, as in the source.
- **`box_item.dfy` is the imperative side.** The class `BoxItem` has the same fields and loops. Each method is proved to produce exactly the state and result its `BoxSpec` function computes, and `BoxProps` proves what those functions guarantee.
- **The provider follows the same split.**
  - `ProviderSpec` holds the functions and `ProviderProps` the properties.
  - `provider.dfy` holds the class `BoxComFSProvider`, whose loop-based methods change nothing and are proved equal to the functions.
- **`Cache.CacheHandler`** is a class over a `map` field. Its `cache_enabled` guard and its empty-on-failure load are both modelled.

Behaviour of the source that the model keeps on purpose:

- In `get_by_path`, a segment with no match clears the item (`set_none`), but the loop goes on from the same parent. So `missing/b` can still land on `b` (`BoxProps.MissThenMatch`).
- `create_subfolder` always creates under `self.id`, not under the parent the walk reached. After a miss has cleared the item, a creation that box.com answers with "created" raises, because the duplicate check cannot list the folder of a missing id (`BoxProps.CreateUnderClearedItem`). An "in use" answer is adopted without that check, so creation can still succeed there.
- `get_children` caches each child under its bare name, not under its path.
- `recursive_delete` never deletes a folder remotely. It removes from the cache the entries for `self.id`, whatever folder it was asked to walk.
- In the provider, `item_type` is never assigned on the creation branch of `get_box_item`. A path made only of new folders fails on the unbound variable (`ProviderProps.CreateFreshUnbound`), and a new folder below a found item reports the found item's type.
- `byte_range` in `read` is unbound when `limit` is absent, and the lookup's "not found" comes first. `limit is not "-1"` is an identity test, and a "-1" that arrives at run time is a different object from the literal. Such a text therefore goes on to `int(limit)` and reads the whole file, like the number -1 (`ProviderProps.MinusOneTextReadsWhole`).
- `create_path` sets the path only after `get_by_path` returns. When the parent's resolution raises, the item keeps the path that resolution left (`BoxProps.CreatePathOutcome`).
- `get_by_path` caches every prefix of the path it matches, not only the full path (`BoxProps.ResolveWithoutCache`).
- An empty provider root gives `root_lnt == "/"`, and every full path below the top then starts with `//`. The walk therefore looks for a child named "" first.

The model follows the code as written where it departs from its docstring or from the files that call it:

- The docstring of `enumerate` (fs-provider.py:140) says it stops at the first non-empty file when `first_non_empty` is set. The cut in `list_recursive` ends only the folder's own loop, and the caller's loop goes on (`ProviderProps.CutIsLocal`).
- `list_recursive` adds folder entries only when `box_id_only` is set.
- `recursive_delete` walks by the `id` argument but removes `self.id` from the cache.
- box_item.py imports `get_full_path`, `get_rel_path` and `get_normalized_path` from utils.py as functions, but utils.py defines them as methods of a `Utils` class and never sets `root_lnt` in it. The model uses the functions, with `root_lnt` as a parameter.
- `BoxItem` builds `CacheHandler(cache_file_name)` and calls `query`, `add`, `remove` and `reset` on it. cache_handler.py has none of these, and its constructor reads a configuration dictionary. `BoxItem`'s cache is therefore modelled as a plain path map that is always enabled, and `Cache.CacheHandler` models cache_handler.py as written.

## Model

| member | source | states |
|---|---|---|
| Remote.Items | python-lib/box_item.py:66 | a listing is available exactly for the folders the remote lists, and it is that listing in order |
| Remote.Fetch | python-lib/box_item.py:89-93 | the details fetch succeeds exactly when the id exists with the requested kind, and returns its details |
| Remote.FirstMatch | python-lib/box_item.py:68-78 | the index found is the first child carrying the name; none is found exactly when no child carries it |
| PathUtils.Split | python-lib/utils.py:11 | `split('/')` gives at least one piece and no piece contains a slash |
| PathUtils.NonEmpty | python-lib/utils.py:12 | the comprehension keeps only non-empty segments taken from the input, never more than there were |
| PathUtils.JoinSplit | python-lib/utils.py:11-13 | joining the pieces of a split gives back the original string |
| PathUtils.SplitJoin | python-lib/utils.py:11-13 | splitting a join of slash-free segments gives back those segments |
| PathUtils.SplitAround | python-lib/utils.py:11 | splitting at a separator splits the two sides independently |
| PathUtils.SplitSlashFree | python-lib/utils.py:11 | a string without a slash splits to itself |
| PathUtils.NonEmptyAppend | python-lib/utils.py:12 | the filter distributes over concatenation |
| PathUtils.NonEmptyOfNonEmpty | python-lib/utils.py:12 | the filter leaves a list with no empty segment unchanged |
| PathUtils.NonEmptySlashFree | python-lib/utils.py:12 | filtering keeps segments slash-free |
| PathUtils.JoinShape | python-lib/utils.py:13 | joining non-empty slash-free segments gives a string with no leading, trailing or doubled slash |
| PathUtils.NormalizedSplit | python-lib/utils.py:8-13 | the normal form is "/" exactly when the path has no non-empty segment; otherwise its segments are "" followed by the input's non-empty segments |
| PathUtils.NormalizedSegments | python-lib/utils.py:8-13 | normalising keeps the non-empty segments and their order |
| PathUtils.NormalizedCanonical | python-lib/utils.py:8-13 | '' and '/' normalise to '/', and every result starts with '/' and has no empty segment and no trailing slash |
| PathUtils.NormalizedIdempotent | python-lib/utils.py:8-13 | normalising twice is the same as normalising once |
| PathUtils.CanonicalIsNormalized | python-lib/utils.py:8-13 | a path already in canonical form is its own normal form |
| PathUtils.CanonicalSegment | python-lib/utils.py:11 | a string with no leading, trailing or doubled slash splits into non-empty segments only |
| PathUtils.RelPathStrips | python-lib/utils.py:4-7 | exactly one leading slash is dropped when present, and the path is unchanged otherwise |
| PathUtils.RelPathNormalized | python-lib/utils.py:4-13 | stripping the leading slash never changes the normal form |
| PathUtils.FullPathSegments | python-lib/utils.py:14-19 | the full path's non-empty segments are the root's followed by the path's |
| PathUtils.FullPathShape | python-lib/utils.py:14-19 | the top path gives the root itself; any other path gives the root, a slash, then the rest, with no de-duplication of separators |
| PathUtils.OsJoinPrefix | python-lib/box_item.py:63-65 | joining segment by segment with `os.path.join` spells the slash-joined prefix |
| PathUtils.JoinSnoc | python-lib/box_item.py:199 | joining with one more segment appends a slash and that segment |
| PathUtils.JoinLast | python-lib/box_item.py:199 | a join ending in a non-empty slash-free segment does not end in a slash |
| PathUtils.LastOfNormalized | python-fs-providers/box-com_box-com/fs-provider.py:157 | the last segment of a normal form has no slash and, below the top, is the input's last non-empty segment |
| PathUtils.RelPath | python-lib/utils.py:4-7 | definition only; contract given by `PathUtils.RelPathStrips` and `PathUtils.RelPathNormalized` |
| PathUtils.NormalizedPath | python-lib/utils.py:8-13 | definition only; contract given by `PathUtils.NormalizedSplit`, `PathUtils.NormalizedSegments`, `PathUtils.NormalizedCanonical` and `PathUtils.NormalizedIdempotent` |
| PathUtils.FullPath | python-lib/utils.py:14-19 | definition only; contract given by `PathUtils.FullPathSegments` and `PathUtils.FullPathShape`; the copy in fs-provider.py (lines 30-46, `get_lnt_path` for `get_normalized_path`) is the same function |
| PathUtils.OsJoin | python-lib/box_item.py:65 | definition only; contract given by `PathUtils.OsJoinPrefix` |
| PathUtils.ParentPath | python-lib/box_item.py:199 | definition only; contract given by `BoxProps.ParentAndLast` |
| PathUtils.LastSegment | python-lib/box_item.py:189 | definition only; contract given by `BoxProps.ParentAndLast` and `BoxItems.BoxItem.WriteStream` |
| Cache.Loaded | python-lib/cache_handler.py:11-17 | a failed load leaves the empty dictionary; a successful one leaves what the file held |
| Cache.Lookup | python-lib/cache_handler.py:46-52 | a hit happens exactly when the cache is enabled and holds the path, and returns the stored id and type |
| Cache.Added | python-lib/cache_handler.py:40-43 | when disabled nothing changes; when enabled the keys grow by exactly the path |
| Cache.CacheHandler.constructor | python-lib/cache_handler.py:4-9 | the flag is kept, and the dictionary is loaded only when the cache is enabled |
| Cache.CacheHandler.LoadCache | python-lib/cache_handler.py:11-17 | the dictionary becomes the loaded one, or empty on failure; the flag stays |
| Cache.CacheHandler.AddToCache | python-lib/cache_handler.py:40-44 | the dictionary becomes the upsert of the path when enabled and stays the same when disabled |
| Cache.CacheHandler.QueryCache | python-lib/cache_handler.py:46-52 | `(None, None)` when disabled or when the path is absent, else the stored id and type |
| Cache.DisabledIsInert | python-lib/cache_handler.py:40-48 | with the cache disabled, adding changes nothing and every query misses |
| Cache.AddThenQuery | python-lib/cache_handler.py:40-52 | a query right after an add returns what was added |
| Cache.AddLeavesOthers | python-lib/cache_handler.py:40-52 | adding under one path leaves the answer for every other path unchanged |
| Cache.AddIsUpsert | python-lib/cache_handler.py:43 | a later add for the same path overrides an earlier one, and repeating an add changes nothing |
| Cache.UnknownPathMisses | python-lib/cache_handler.py:49-52 | a path that was never stored misses |
| Cache.FailedLoadMisses | python-lib/cache_handler.py:16-17 | after a failed load every query misses |
| BoxSpec.Initial | python-lib/box_item.py:27-35 | a new item is the root folder "0": it exists and it is a folder |
| BoxSpec.CacheQuery | python-lib/box_item.py:43 | forcing bypasses the cache; otherwise a hit is exactly a stored path, with its entry |
| BoxSpec.CacheRemove | python-lib/box_item.py:214 | afterwards no entry carries the removed id, and every entry carrying another id is kept unchanged |
| BoxSpec.CountNamed | python-lib/box_item.py:263-265 | the number of children with the name is at most the number of children, and zero exactly when none has it |
| BoxSpec.IsDuplicatedS | python-lib/box_item.py:259-270 | raises exactly when the item's folder cannot be listed; otherwise true exactly when the name occurs at least twice and one occurrence has the new id |
| BoxSpec.IdDefaultFolderS | python-lib/box_item.py:272-284 | consumes one creation answer; returns the created id or the conflicting id of an in-use answer, and raises on every other answer |
| BoxSpec.CreateSubfolderS | python-lib/box_item.py:106-128 | on success the item is a folder of size 0 with the returned id; every loop round consumes a creation answer |
| BoxSpec.HitSize | python-lib/box_item.py:47-51 | a web link hit (no `get_details` branch) never raises and reports 0; any other hit raises exactly when its details fetch fails; a file reports the fetched size and a folder 0 |
| BoxSpec.CheckSegments | python-lib/box_item.py:290-296 | no refusal exactly when every segment is at most 255 long, is not "." or "..", and does not end in a space |
| BoxSpec.CheckPathFormat | python-lib/box_item.py:286-296 | accepted exactly when every character is printable and every segment is acceptable; a non-printable character is reported as such exactly when there is one |
| BoxSpec.CacheByName | python-lib/box_item.py:172 | definition only; contract given by `BoxSpec.CacheByNameAt` and `BoxItems.BoxItem.GetChildren` |
| BoxSpec.CacheByNameAt | python-lib/box_item.py:168-172 | after `get_children`, a key is cached exactly when it was cached before or is the bare name of a child; a child's bare name answers the last child carrying it, and every other key keeps its old entry |
| BoxSpec.FixAnyDuplicateS | python-lib/box_item.py:245-257 | the item's own path, id, type and size are never touched; the outcome is given by `BoxProps.FixDuplicateOutcome` |
| BoxSpec.StepS | python-lib/box_item.py:65-86 | definition only; contract given by `BoxProps.StepValid`, `BoxProps.MissClearsItem` and `BoxItems.BoxItem.Step` |
| BoxSpec.WalkS | python-lib/box_item.py:61-86 | definition only; contract given by `BoxProps.WalkReaches`, `BoxProps.WalkReadOnly` and `BoxProps.WalkValid` |
| BoxSpec.GetByPathS | python-lib/box_item.py:37-87 | definition only; contract given by `BoxProps.RootShortcut`, `BoxProps.CacheHitNoWalk`, `BoxProps.StaleHitRestarts`, `BoxProps.ResolveWithoutCache` and `BoxProps.GetByPathValid` |
| BoxSpec.CreatePathS | python-lib/box_item.py:198-202 | definition only; contract given by `BoxProps.CreatePathOutcome` and `BoxProps.CreatePathValid` |
| BoxSpec.WriteStreamS | python-lib/box_item.py:188-196 | definition only; contract given by `BoxProps.WriteStreamCaches` and `BoxItems.BoxItem.WriteStream` |
| BoxSpec.RecDeleteS | python-lib/box_item.py:219-243 | definition only; contract given by `BoxProps.RecDeleteIssues`, `BoxProps.RecDeleteCount` and `BoxProps.RecDeleteCache` |
| BoxSpec.RecDeleteKids | python-lib/box_item.py:224-239 | definition only; contract given by `BoxProps.RecDeleteKidsIssues`, `BoxProps.RecDeleteKidsCount` and `BoxProps.RecDeleteKidsCache` |
| BoxSpec.DeleteChildS | python-lib/box_item.py:225-239 | definition only; contract given by `BoxProps.DeleteChildIssues` and `BoxProps.DeleteChildKeeps` |
| BoxSpec.DeleteS | python-lib/box_item.py:204-217 | definition only; contract given by `BoxProps.DeleteFileCount` and `BoxProps.DeleteKeeps` |
| BoxProps.RootShortcut | python-lib/box_item.py:38-41 | an empty relative path puts the item on the root folder with no remote call and no cache change |
| BoxProps.CacheHitNoWalk | python-lib/box_item.py:43-52 | a cache hit whose details fetch succeeds sets path, id and type from the cache, the size to the fetched file size (0 for other kinds), keeps the date, and walks nothing |
| BoxProps.StaleHitRestarts | python-lib/box_item.py:53-61 | a cache hit whose details fetch raises empties the cache and walks from the root "0" |
| BoxProps.WalkKeepsShort | python-lib/box_item.py:63-76 | a walk that reaches its child only adds cache keys longer than the one it starts from |
| BoxProps.WalkReaches | python-lib/box_item.py:61-79 | when the first-match descent reaches a child, the walk ends on that child's id, type, size and date, caches the walked path, and with non-empty segments caches every walked prefix with the child that prefix reaches |
| BoxProps.ResolveWithoutCache | python-lib/box_item.py:37-87 | without the cache, a path whose segments all match resolves to the descent's item, creates and deletes nothing, and, when no segment is empty, caches every slash-joined prefix with the item that prefix reaches, the path itself included |
| BoxProps.CachedAgreesWithWalk | python-lib/box_item.py:43-87 | a cache entry that agrees with the tree gives the same id and type as a forced walk |
| BoxProps.MissClearsItem | python-lib/box_item.py:80-86 | a segment with no match clears id, type, size and date, and the walk goes on from the same parent |
| BoxProps.MissThenMatch | python-lib/box_item.py:64-86 | after a missing first segment, a second segment naming a child of the root lands on that child |
| BoxProps.WalkReadOnly | python-lib/box_item.py:64-86 | without creation the walk consumes no creation answer, issues no delete, and only adds cache entries |
| BoxProps.WalkValid | python-lib/box_item.py:64-86 | every walk step keeps id, type and size all present or all absent |
| BoxProps.CreateValid | python-lib/box_item.py:106-128 | `create_subfolder` keeps id, type and size all present or all absent |
| BoxProps.GetByPathValid | python-lib/box_item.py:37-87 | `get_by_path` keeps id, type and size all present or all absent |
| BoxProps.StepValid | python-lib/box_item.py:65-86 | one round of the segment loop keeps id, type and size all present or all absent |
| BoxProps.CreatePathValid | python-lib/box_item.py:198-202 | `create_path` keeps id, type and size all present or all absent |
| BoxProps.ReservedThenAdopt | python-lib/box_item.py:109-120 | "reserved" answers are retried, and the first "in use" answer's conflicting id is adopted as a folder of size 0 |
| BoxProps.CreateRaises | python-lib/box_item.py:121-124 | any other conflict code or status raises |
| BoxProps.CreateFresh | python-lib/box_item.py:109-128 | a creation that is not duplicated keeps the new id as a folder of size 0 |
| BoxProps.CreateUnderClearedItem | python-lib/box_item.py:109-113 | when box.com answers "created", creating after a miss cleared the item raises: the duplicate check cannot list the folder of a missing id |
| BoxProps.FixDuplicateOutcome | python-lib/box_item.py:245-257 | returns the new id unless it is duplicated; then the cache is reset, the probed id is returned, and the new folder is deleted exactly when the two ids differ |
| BoxProps.CreatePathOutcome | python-lib/box_item.py:198-202 | `create_path` raises exactly when resolving the parent does, and then keeps the state that resolution left; on success only the path changes, to the full path |
| BoxProps.ParentAndLast | python-lib/box_item.py:189-199 | the parent `create_path` resolves and the last segment `write_stream` uses put back together give the path |
| BoxProps.WriteStreamCaches | python-lib/box_item.py:188-196 | the cache answers the item's path with the uploaded id and type, the id becomes the uploaded one, the type field stays, and other paths are unchanged |
| BoxProps.RecDeleteIssues | python-lib/box_item.py:219-243 | the remote deletes issued are exactly the files of the subtree, in visiting order |
| BoxProps.RecDeleteKidsIssues | python-lib/box_item.py:224-239 | the loop over the children issues a delete for exactly the files below them |
| BoxProps.DeleteChildIssues | python-lib/box_item.py:225-239 | one child issues a delete for each file of its subtree if it is a folder, for itself if it is a file, and none for a web link |
| BoxProps.RecDeleteCount | python-lib/box_item.py:219-243 | when every delete succeeds, the count is the number of files plus the number of sub-folders in the subtree |
| BoxProps.RecDeleteKidsCount | python-lib/box_item.py:224-239 | the per-children form of the count |
| BoxProps.RecDeleteCache | python-lib/box_item.py:219-243 | only cache entries are ever removed, no entry for the item's own id is left at the end, and the item's id is unchanged |
| BoxProps.RecDeleteKidsCache | python-lib/box_item.py:224-239 | the loop over the children only removes cache entries and keeps the item's id |
| BoxProps.DeleteChildKeeps | python-lib/box_item.py:225-239 | one round of the deletion loop leaves the item's own path, id, type and size as they were |
| BoxProps.DeleteKeeps | python-lib/box_item.py:204-217 | `delete` leaves the item's own path, id, type and size as they were, so the item stays valid |
| BoxProps.DeleteFileCount | python-lib/box_item.py:204-215 | deleting a file returns 1 exactly when the delete succeeds or answers 404, and the delete is issued either way |
| BoxProps.FormatRefusesDotDot | python-lib/box_item.py:287-294 | a ".." segment is refused as a special name |
| BoxProps.FormatRefusesTrailingSpace | python-lib/box_item.py:295-296 | a segment ending in a space is refused |
| BoxProps.FormatRefusesLong | python-lib/box_item.py:291-292 | a 256-character segment is refused |
| BoxProps.FormatAccepts | python-lib/box_item.py:286-296 | an ordinary two-segment path is accepted |
| BoxItems.BoxItem.constructor | python-lib/box_item.py:27-35 | the item starts on the root folder with the loaded cache |
| BoxItems.BoxItem.SetRoot | python-lib/box_item.py:95-98 | the item becomes the existing root folder of size 0; path, date and cache stay |
| BoxItems.BoxItem.SetNone | python-lib/box_item.py:100-104 | id, type, size and date are cleared, so the item no longer exists and is neither folder nor file |
| BoxItems.BoxItem.NotExists | python-lib/box_item.py:146-147 | definition only; contract given by `BoxItems.BoxItem.SetNone` |
| BoxItems.BoxItem.Exists | python-lib/box_item.py:149-150 | definition only; contract given by `BoxItems.BoxItem.SetNone`, `BoxItems.BoxItem.SetRoot` and `BoxItems.BoxItem.GetAsBrowse` |
| BoxItems.BoxItem.IsFolder | python-lib/box_item.py:152-153 | definition only; contract given by `BoxItems.BoxItem.SetRoot` and `BoxItems.BoxItem.GetAsBrowse` |
| BoxItems.BoxItem.IsFile | python-lib/box_item.py:155-156 | definition only; contract given by `BoxItems.BoxItem.GetStat` and `BoxItems.BoxItem.Delete` |
| BoxItems.BoxItem.GetStat | python-lib/box_item.py:158-162 | normal-form path with the same segments as the item's path; non-zero size only for files; `isDirectory` exactly for folders |
| BoxItems.BoxItem.GetAsBrowse | python-lib/box_item.py:178-179 | normal-form path; `exists` exactly when there is an id; `directory` exactly for folders |
| BoxItems.BoxItem.IsDuplicated | python-lib/box_item.py:259-270 | the counting loop computes `BoxSpec.IsDuplicatedS` |
| BoxItems.BoxItem.IdDefaultFolder | python-lib/box_item.py:272-284 | the new state and result are those of `BoxSpec.IdDefaultFolderS`; a valid item (id, type and size all present or all absent) stays valid |
| BoxItems.BoxItem.FixAnyDuplicate | python-lib/box_item.py:245-257 | the new state and result are those of `BoxSpec.FixAnyDuplicateS`; a valid item (id, type and size all present or all absent) stays valid |
| BoxItems.BoxItem.CreateSubfolder | python-lib/box_item.py:106-128 | the `while new_id is None` loop computes the state and result of `BoxSpec.CreateSubfolderS`; a valid item (id, type and size all present or all absent) stays valid |
| BoxItems.BoxItem.GetByPath | python-lib/box_item.py:37-87 | the cache probe and the segment loop compute the state and result of `BoxSpec.GetByPathS`; a valid item (id, type and size all present or all absent) stays valid |
| BoxItems.BoxItem.Step | python-lib/box_item.py:65-86 | one round of the segment loop computes `BoxSpec.StepS`; a valid item (id, type and size all present or all absent) stays valid |
| BoxItems.BoxItem.CreatePath | python-lib/box_item.py:198-202 | resolves the parent with creation on, then sets the path only if that returned: `BoxSpec.CreatePathS`; a valid item (id, type and size all present or all absent) stays valid |
| BoxItems.BoxItem.WriteStream | python-lib/box_item.py:188-196 | on an existing item, the file name is the last segment of the path, the id becomes the uploaded one, the new state is `BoxSpec.WriteStreamS`, and a valid item stays valid |
| BoxItems.BoxItem.GetChildren | python-lib/box_item.py:164-173 | one record per child in listing order, each child cached under its bare name; an unlistable folder raises and changes nothing; a valid item (id, type and size all present or all absent) stays valid |
| BoxItems.BoxItem.RecursiveDelete | python-lib/box_item.py:219-243 | the count and new state are `BoxSpec.RecDeleteS`, and the item's id is unchanged; a valid item (id, type and size all present or all absent) stays valid |
| BoxItems.BoxItem.DeleteChild | python-lib/box_item.py:225-239 | one round of the deletion loop: its count and the new state are `BoxSpec.DeleteChildS`, and the id is unchanged; a valid item (id, type and size all present or all absent) stays valid |
| BoxItems.BoxItem.Delete | python-lib/box_item.py:204-217 | the new state and result are `BoxSpec.DeleteS`: a file directly, a folder recursively; the valid item it requires stays valid |
| ProviderSpec.BoxWalk | python-fs-providers/box-com_box-com/fs-provider.py:85-101 | the only failures are a listing, a creation, an exhausted script or the unbound type; without creation, a listing failure is the only one |
| ProviderSpec.GetBoxItemS | python-fs-providers/box-com_box-com/fs-provider.py:77-101 | the same failure bounds for the whole lookup |
| ProviderSpec.ListKidsStep | python-fs-providers/box-com_box-com/fs-provider.py:164-180 | one round of the listing loop either fails with the child's error, returns the entries gathered so far plus the child's, or goes on with them to the remaining children |
| ProviderSpec.StatS | python-fs-providers/box-com_box-com/fs-provider.py:54-75 | definition only; contract given by `ProviderProps.StatMissing` and `ProviderProps.StatReports` |
| ProviderSpec.ListRecS | python-fs-providers/box-com_box-com/fs-provider.py:160-180 | definition only; contract given by `ProviderProps.ListAll`, `ProviderProps.ListFirstFinds`, `ProviderProps.ListCutsAfterFile`, `ProviderProps.CutIsLocal` and `ProviderProps.IdOnlyGivesIds` |
| ProviderSpec.ListKidsS | python-fs-providers/box-com_box-com/fs-provider.py:164-180 | definition only; contract given by `ProviderProps.ListAllKids`, `ProviderProps.ListFirstKids` and `ProviderProps.IdOnlyKids` |
| ProviderSpec.EnumerateS | python-fs-providers/box-com_box-com/fs-provider.py:138-158 | definition only; contract given by `ProviderProps.EnumerateMissing`, `ProviderProps.EnumerateFile` and `ProviderProps.EnumerateFolder` |
| ProviderSpec.IntLimit | python-fs-providers/box-com_box-com/fs-provider.py:197-198 | definition only; contract given by `ProviderProps.ReadOutcome` and `ProviderProps.MinusOneTextReadsWhole` |
| ProviderSpec.ByteRange | python-fs-providers/box-com_box-com/fs-provider.py:196-201 | definition only; contract given by `ProviderProps.ReadOutcome` |
| ProviderSpec.ReadS | python-fs-providers/box-com_box-com/fs-provider.py:194-208 | definition only; contract given by `ProviderProps.ReadOutcome`, `ProviderProps.MinusOneTextReadsWhole` and `Provider.BoxComFSProvider.Read` |
| ProviderProps.BoxWalkLocates | python-fs-providers/box-com_box-com/fs-provider.py:85-101 | without creation the walk is the first-match descent: the item reached, "missing" at the first unmatched segment, or the listing error |
| ProviderProps.GetBoxItemLocates | python-fs-providers/box-com_box-com/fs-provider.py:77-101 | the empty relative path gives `('0', 'folder')`; any other path gives the descent's answer from the root folder |
| ProviderProps.WalksAgree | python-fs-providers/box-com_box-com/fs-provider.py:77-101 | when every segment matches, the provider and `BoxItem.get_by_path` reach the same id and type |
| ProviderProps.WalksDiverge | python-fs-providers/box-com_box-com/fs-provider.py:94-99 | for `missing/b`, the provider answers "missing" while `get_by_path` lands on `b` |
| ProviderProps.CreateFreshUnbound | python-fs-providers/box-com_box-com/fs-provider.py:94-101 | creating a path none of whose segments exists fails on the unbound `item_type`, however many creations succeed |
| ProviderProps.CreateUnderEmptyRoot | python-fs-providers/box-com_box-com/fs-provider.py:77-101 | when every creation succeeds and every new folder lists as empty, `get_box_item(path, True)` under an empty root folder fails on the unbound type |
| ProviderProps.CreateReportsParentKind | python-fs-providers/box-com_box-com/fs-provider.py:88-101 | a folder created below a found item is reported with the found item's type |
| ProviderProps.RootLntNormal | python-fs-providers/box-com_box-com/fs-provider.py:15-18 | `root_lnt` is the normal form of the root as given, is unaffected by the stripped slash, and is canonical |
| ProviderProps.EmptyRootMisses | python-fs-providers/box-com_box-com/fs-provider.py:40-99 | with an empty root, every path below the top looks for a child named "" first, so `stat` returns None and `read` raises when there is none |
| ProviderProps.EmptyRootTop | python-fs-providers/box-com_box-com/fs-provider.py:40-81 | with an empty root, the top path is the root folder |
| ProviderProps.StatMissing | python-fs-providers/box-com_box-com/fs-provider.py:59-64 | `stat` returns None exactly when the path does not resolve |
| ProviderProps.StatReports | python-fs-providers/box-com_box-com/fs-provider.py:61-68 | on a resolved item: a canonical path with the same segments, `isDirectory` exactly for folders, size 0 for folders and the fetched size otherwise |
| ProviderProps.BelowCount | python-fs-providers/box-com_box-com/fs-provider.py:160-180 | in a complete tree the reference listing has one entry per non-folder at any depth below the folder |
| ProviderProps.BelowKidsCount | python-fs-providers/box-com_box-com/fs-provider.py:164-177 | the per-children form of the count |
| ProviderProps.BelowUnder | python-fs-providers/box-com_box-com/fs-provider.py:160-180 | every reference entry is a path entry under the prefix, with "/" read as "" |
| ProviderProps.BelowKidsUnder | python-fs-providers/box-com_box-com/fs-provider.py:164-177 | the per-children form of the prefix property |
| ProviderProps.BelowHasChild | python-fs-providers/box-com_box-com/fs-provider.py:164-177 | each non-folder child appears at the prefix, "/" and its fetched name, with its fetched size; each sub-folder's entries all appear too |
| ProviderProps.BelowKidsHas | python-fs-providers/box-com_box-com/fs-provider.py:164-177 | each child's entries appear in the listing of the children |
| ProviderProps.ListAll | python-fs-providers/box-com_box-com/fs-provider.py:160-180 | without the cut, a complete tree lists exactly the reference listing `Below`: each file below the folder once, depth first in listing order, at its joined path with its size |
| ProviderProps.ListAllKids | python-fs-providers/box-com_box-com/fs-provider.py:164-177 | the children's loop, without the cut, lists exactly their reference entries |
| ProviderProps.ListFirstFinds | python-fs-providers/box-com_box-com/fs-provider.py:160-180 | with the cut, the listing is non-empty exactly when some non-folder exists below the folder |
| ProviderProps.ListFirstKids | python-fs-providers/box-com_box-com/fs-provider.py:164-180 | the per-children form of the non-empty probe |
| ProviderProps.ListCutsAfterFile | python-fs-providers/box-com_box-com/fs-provider.py:170-179 | when a folder's next child is a file, the cut returns that file's entry and ignores the rest |
| ProviderProps.CutIsLocal | python-fs-providers/box-com_box-com/fs-provider.py:165-180 | the cut inside a sub-folder does not stop the parent: both the sub-folder's first file and the parent's later file are listed |
| ProviderProps.IdOnlyGivesIds | python-fs-providers/box-com_box-com/fs-provider.py:166-173 | with `box_id_only`, every entry is an id entry |
| ProviderProps.IdOnlyKids | python-fs-providers/box-com_box-com/fs-provider.py:164-179 | the per-children form of the id-only property |
| ProviderProps.EnumerateMissing | python-fs-providers/box-com_box-com/fs-provider.py:145-150 | `enumerate` returns None exactly when the path does not resolve |
| ProviderProps.EnumerateFile | python-fs-providers/box-com_box-com/fs-provider.py:155-157 | on a file, `enumerate` gives one entry with the file's size, named by the path's last non-empty segment |
| ProviderProps.EnumerateFolder | python-fs-providers/box-com_box-com/fs-provider.py:152-180 | on a folder of a complete tree, `enumerate` gives the folder's reference listing, one entry per non-folder below it, and with the cut finds one exactly when one exists |
| ProviderProps.ReadOutcome | python-fs-providers/box-com_box-com/fs-provider.py:194-208 | "not found" exactly when unresolved; the unbound range exactly when resolved with no limit; the whole file exactly when resolved with the text "-1" or a count L <= 0; a count L > 0 gives the range (0, L-1) of exactly L bytes |
| ProviderProps.MinusOneTextReadsWhole | python-fs-providers/box-com_box-com/fs-provider.py:196-201 | the text "-1" passes the identity test and reads as the number -1: the whole file once resolved |
| Provider.BoxComFSProvider.constructor | python-fs-providers/box-com_box-com/fs-provider.py:9-18 | the root loses one leading slash, and `root_lnt` is its canonical normal form |
| Provider.BoxComFSProvider.GetBoxItem | python-fs-providers/box-com_box-com/fs-provider.py:77-101 | the nested search loops compute `ProviderSpec.GetBoxItemS` |
| Provider.BoxComFSProvider.Stat | python-fs-providers/box-com_box-com/fs-provider.py:54-75 | computes `ProviderSpec.StatS` |
| Provider.BoxComFSProvider.ListRecursive | python-fs-providers/box-com_box-com/fs-provider.py:160-180 | the appending loop, with its early return, computes `ProviderSpec.ListRecS` |
| Provider.BoxComFSProvider.VisitChild | python-fs-providers/box-com_box-com/fs-provider.py:165-179 | one round of the listing loop yields `ProviderSpec.ChildS`: the entries the child adds, and whether the loop returns right after them |
| Provider.BoxComFSProvider.Enumerate | python-fs-providers/box-com_box-com/fs-provider.py:138-158 | computes `ProviderSpec.EnumerateS` |
| Provider.BoxComFSProvider.Read | python-fs-providers/box-com_box-com/fs-provider.py:194-208 | the step-by-step `byte_range` computation and lookup compute `ProviderSpec.ReadS` |
| Provider.BoxComFSProvider.SetLastModified | python-fs-providers/box-com_box-com/fs-provider.py:103-107 | always raises "not implemented" |
| Provider.BoxComFSProvider.DeleteRecursive | python-fs-providers/box-com_box-com/fs-provider.py:182-186 | always raises "not implemented" |
| Provider.BoxComFSProvider.Move | python-fs-providers/box-com_box-com/fs-provider.py:188-192 | always raises "not implemented" |
| Provider.BoxComFSProvider.Write | python-fs-providers/box-com_box-com/fs-provider.py:211-215 | always raises "not implemented" |

## Left out

- OAuth2 and `Client` construction and `user().get()` (fs-provider.py:19-27) are left out. They are network calls into the SDK; the client is the parameter `Remote.Client`.
- The JSON file side of the cache is left out: reading in `load_cache`, `dump_cache`, `create_dir`, `os.environ`. It is file I/O. `create_dir` also refers to `errno`, which cache_handler.py never imports. Only the loaded dictionary, or the empty one on failure, is modelled.
- The connectors and runnables (`check-box-parameters`, `get-box-com-sharing-email`, `clean-box-com-cache`) are left out. They are thin SDK or `os.remove` calls.
- Date parsing (`format_date`, `get_last_modified` and the date code in `stat`) is left out. It relies on `strptime` and floating-point seconds. `modified_at` is an opaque optional integer passed through unchanged.
- Byte streams are left out: `get_stream`, the copying in `write_stream` and `read`, and the upload and download themselves. `WriteStream` takes the upload's `(id, type)` as parameters, and `Read` returns the range it would request.
- The provider's `browse` and `get_box_item_details` are left out as separate operations; `DetailsS` is `get_box_item_details`. Logging, `print`, `time.sleep`, `close` and `write_onto_disk` are left out, as they have no effect on the modelled state.
- Concurrent creators are left out. Races are represented only by the scripted creation answers that `create_subfolder`, `id_default_folder` and `fix_any_duplicate` see in order.
- The remote listing is a fixed snapshot, so a folder the walk has just created never appears in it. The listing that `is_duplicated` and `fix_any_duplicate` scan therefore never contains the walk's own new folder, and duplicates show up only through the scripted answers.
- `remove(id)` is called on the cache, but cache_handler.py does not define it. The model chooses to read it as dropping every cache entry that carries the id (`BoxSpec.CacheRemove`).
- The `'lastModified': 0` field of the entry that `enumerate` returns for a file (fs-provider.py:157) is left out. It is a constant, and `ListEntry` carries only the path and the size.
- BoxItems.BoxItem.WriteStream: requires `Exists()`. On an item without an id, `folder(None).upload_stream` raises before `self.id` is assigned; that raise is left to the caller.
- BoxItems.BoxItem.CreateSubfolder: a remote that keeps answering "reserved" forever is not modelled; the loop ends when the scripted answers run out, with `ResponsesExhausted`, where the source would loop forever.
- BoxItems.BoxItem.RecursiveDelete: requires `Ranked(client)`, a finite and acyclic remote tree, which box.com guarantees but the source does not check; the same holds for `BoxItems.BoxItem.DeleteChild`, `BoxItems.BoxItem.Delete`, `BoxSpec.RecDeleteS`, `BoxSpec.DeleteS`, `Provider.BoxComFSProvider.ListRecursive` and `Provider.BoxComFSProvider.Enumerate`.
- Provider.BoxComFSProvider.Read: a limit that is text other than "-1" and does not parse as an integer makes `int(limit)` raise, and that case is not modelled. The limit is absent, the text "-1", or an integer. The model also takes the text "-1" to differ in identity from the literal, as every "-1" built at run time does. It does not model the case where the caller passes the very same string object.
- A `BoxItem` whose cache is disabled is left out. cache_handler.py never creates `self.cache` when disabled, and the `query`/`add`/`remove`/`reset` methods that `BoxItem` calls do not exist there.
