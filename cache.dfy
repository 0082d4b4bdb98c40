/**
 * python-lib/cache_handler.py: a dictionary from relative path to
 * {item_id, item_type}, gated by the `cache_enabled` flag. Reading and
 * writing the JSON file is replaced by the outcome of the load.
 */
module Cache {
  import opened Wrappers
  import opened Remote

  datatype Entry = Entry(itemId: Id, itemType: Kind)

  /** The pair `query_cache` returns; `(None, None)` is Miss. */
  datatype Answer = Miss | Hit(itemId: Id, itemType: Kind)

  /** The upsert `cache[path] = {...}`. */
  function Upsert(m: map<string, Entry>, path: string, id: Id, kind: Kind): map<string, Entry>
  {
    m[path := Entry(id, kind)]
  }

  /** The dictionary after `load_cache`: the stored map, or empty when the file is missing or not valid JSON. */
  function Loaded(stored: Option<map<string, Entry>>): (m: map<string, Entry>)
    ensures stored.None? ==> m == map[]
    ensures stored.Some? ==> m == stored.value
  {
    match stored
    case None => map[]
    case Some(s) => s
  }

  /** The answer of `query_cache` on a given dictionary and flag. */
  function Lookup(enabled: bool, m: map<string, Entry>, path: string): (a: Answer)
    ensures a.Hit? <==> enabled && path in m
    ensures a.Hit? ==> m[path] == Entry(a.itemId, a.itemType)
  {
    if enabled && path in m then Hit(m[path].itemId, m[path].itemType) else Miss
  }

  /** The dictionary after `add_to_cache`. */
  function Added(enabled: bool, m: map<string, Entry>, path: string, id: Id, kind: Kind): (m': map<string, Entry>)
    ensures !enabled ==> m' == m
    ensures enabled ==> m'.Keys == m.Keys + {path}
  {
    if enabled then Upsert(m, path, id, kind) else m
  }

  class CacheHandler {
    var enabled: bool
    var cache: map<string, Entry>

    /**
     * `__init__` followed by `load_cache` when enabled. With the cache
     * disabled the source never creates the dictionary; here it is empty
     * and never read.
     */
    constructor (cacheEnabled: bool, stored: Option<map<string, Entry>>)
      ensures enabled == cacheEnabled
      ensures cache == if cacheEnabled then Loaded(stored) else map[]
    {
      enabled := cacheEnabled;
      cache := if cacheEnabled then Loaded(stored) else map[];
    }

    /** `load_cache`: the file's dictionary, or the empty one on any failure. */
    method LoadCache(stored: Option<map<string, Entry>>)
      modifies this
      ensures enabled == old(enabled)
      ensures cache == Loaded(stored)
    {
      match stored {
        case None => cache := map[];
        case Some(s) => cache := s;
      }
    }

    method AddToCache(path: string, id: Id, kind: Kind)
      modifies this
      ensures enabled == old(enabled)
      ensures cache == Added(old(enabled), old(cache), path, id, kind)
    {
      if !enabled {
        return;
      }
      cache := cache[path := Entry(id, kind)];
    }

    method QueryCache(path: string) returns (a: Answer)
      ensures !enabled ==> a == Miss
      ensures enabled && path !in cache ==> a == Miss
      ensures enabled && path in cache ==> a == Hit(cache[path].itemId, cache[path].itemType)
    {
      if !enabled {
        return Miss;
      }
      if path in cache {
        a := Hit(cache[path].itemId, cache[path].itemType);
      } else {
        a := Miss;
      }
    }
  }

  // ---------------------------------------------------------------- properties

  /** With the cache disabled, adding changes nothing and every query misses. */
  lemma DisabledIsInert(m: map<string, Entry>, path: string, id: Id, kind: Kind, q: string)
    ensures Added(false, m, path, id, kind) == m
    ensures Lookup(false, Added(false, m, path, id, kind), q) == Miss
  {
  }

  /** A query right after an add returns what was added. */
  lemma AddThenQuery(m: map<string, Entry>, path: string, id: Id, kind: Kind)
    ensures Lookup(true, Added(true, m, path, id, kind), path) == Hit(id, kind)
  {
  }

  /** Adding under one path leaves every other path's answer unchanged. */
  lemma AddLeavesOthers(enabled: bool, m: map<string, Entry>, path: string, id: Id, kind: Kind, q: string)
    requires q != path
    ensures Lookup(enabled, Added(enabled, m, path, id, kind), q) == Lookup(enabled, m, q)
  {
  }

  /** `add_to_cache` is an upsert: the later add wins, and repeating an add changes nothing more. */
  lemma AddIsUpsert(enabled: bool, m: map<string, Entry>, path: string, id1: Id, kind1: Kind, id2: Id, kind2: Kind)
    ensures Added(enabled, Added(enabled, m, path, id1, kind1), path, id2, kind2) == Added(enabled, m, path, id2, kind2)
    ensures Added(enabled, Added(enabled, m, path, id1, kind1), path, id1, kind1) == Added(enabled, m, path, id1, kind1)
  {
  }

  /** A path that was never stored is a miss. */
  lemma UnknownPathMisses(enabled: bool, m: map<string, Entry>, path: string)
    requires path !in m
    ensures Lookup(enabled, m, path) == Miss
  {
  }

  /** A failed load leaves an empty cache, so every later query misses. */
  lemma FailedLoadMisses(enabled: bool, path: string)
    ensures Lookup(enabled, Loaded(None), path) == Miss
  {
  }
}
