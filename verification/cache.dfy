/**
 * The proxy's response cache. In the running program each entry is a file
 * named by its key inside the cache directory; here the directory is a map
 * from key to the file's bytes.
 */
module Cache {
  import opened Wrappers
  import opened Utf8

  /** Cache directory contents: file name (the cache key) to file bytes. */
  type Store = map<string, seq<byte>>

  /** The bytes stored under `key`, or None when no such entry exists. */
  function Lookup(store: Store, key: string): (r: Option<seq<byte>>)
    ensures r.Some? <==> key in store
    ensures r.Some? ==> r.value == store[key]
  {
    if key in store then Some(store[key]) else None
  }

  /** Writes `content` under `key`, replacing any earlier entry; no other entry changes. */
  function Put(store: Store, key: string, content: seq<byte>): (r: Store)
    ensures r.Keys == store.Keys + {key}
    ensures r[key] == content
    ensures forall k :: k in store && k != key ==> r[k] == store[k]
  {
    store[key := content]
  }

  /** Round trip: a lookup right after a store returns exactly the stored bytes. */
  lemma PutThenLookup(store: Store, key: string, content: seq<byte>)
    ensures Lookup(Put(store, key, content), key) == Some(content)
  {
  }

  /** Storing twice under one key keeps only the second value. */
  lemma PutOverwrites(store: Store, key: string, first: seq<byte>, second: seq<byte>)
    ensures Put(Put(store, key, first), key, second) == Put(store, key, second)
  {
  }

  /** Storing under one key leaves lookups of every other key as they were. */
  lemma PutKeepsOthers(store: Store, key: string, other: string, content: seq<byte>)
    requires other != key
    ensures Lookup(Put(store, key, content), other) == Lookup(store, other)
  {
  }
}
