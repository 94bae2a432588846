/**
 * Key order of the tile cache (src/api/pixmap.ts, `touchChunkCache`): a JS
 * `Map` iterates in insertion order, so deleting and re-inserting a key
 * moves it to the end, and the first key is the oldest insertion.
 */
module CacheOrder {
  import opened Coords

  /** Maximum number of tiles kept in the cache. */
  const CHUNK_CACHE_MAX_SIZE: int := 512

  predicate Distinct(s: seq<TileKey>)
  {
    forall i, j :: 0 <= i < j < |s| ==> s[i] != s[j]
  }

  /** Concatenating two duplicate-free sequences with no common element keeps it duplicate-free. */
  lemma DistinctAppend(a: seq<TileKey>, b: seq<TileKey>)
    ensures Distinct(a) && Distinct(b) && (forall x :: x in a ==> x !in b) ==> Distinct(a + b)
  {
    if Distinct(a) && Distinct(b) && (forall x :: x in a ==> x !in b) {
      forall i, j | 0 <= i < j < |a + b|
        ensures (a + b)[i] != (a + b)[j]
      {
        if i < |a| && j >= |a| {
          assert (a + b)[i] in a && (a + b)[j] in b;
        }
      }
    }
  }

  /** The sequence without any occurrence of `k` (`Map.delete`). */
  function Remove(s: seq<TileKey>, k: TileKey): (r: seq<TileKey>)
    ensures forall x :: x in r <==> x in s && x != k
    ensures Distinct(s) ==> Distinct(r)
    ensures k !in s ==> r == s
    ensures k in s && Distinct(s) ==> |r| == |s| - 1
  {
    if s == [] then []
    else
      assert Distinct(s) ==> Distinct(s[1..]) && s[0] !in s[1..];
      if s[0] == k then Remove(s[1..], k)
      else
        var rest := Remove(s[1..], k);
        DistinctAppend([s[0]], rest);
        [s[0]] + rest
  }

  /**
   * The key order after `touchChunkCache(key, …)`: an existing key moves to
   * the end; a new key is appended, first evicting the oldest key when the
   * cache is full.
   */
  function Touch(order: seq<TileKey>, key: TileKey): seq<TileKey>
  {
    if key in order then Remove(order, key) + [key]
    else if |order| >= CHUNK_CACHE_MAX_SIZE then order[1..] + [key]
    else order + [key]
  }

  /** The keys that `Touch` removes from the cache, if any. */
  function Evicted(order: seq<TileKey>, key: TileKey): set<TileKey>
  {
    if key !in order && |order| >= CHUNK_CACHE_MAX_SIZE then {order[0]} else {}
  }

  /**
   * Touching keeps the cache within its bound and duplicate-free, puts the
   * touched key last, and drops exactly the evicted key.
   */
  lemma TouchInvariant(order: seq<TileKey>, key: TileKey)
    requires Distinct(order) && |order| <= CHUNK_CACHE_MAX_SIZE
    ensures var r := Touch(order, key);
      && Distinct(r)
      && |r| <= CHUNK_CACHE_MAX_SIZE
      && |r| <= |order| + 1
      && (|order| < CHUNK_CACHE_MAX_SIZE ==> Evicted(order, key) == {})
      && |r| > 0 && r[|r| - 1] == key
      && (forall x :: x in r <==> (x in order && x !in Evicted(order, key)) || x == key)
  {
    var r := Touch(order, key);
    if key in order {
      DistinctAppend(Remove(order, key), [key]);
    } else if |order| >= CHUNK_CACHE_MAX_SIZE {
      assert order == [order[0]] + order[1..];
      assert order[0] !in order[1..];
      assert Distinct(order[1..]);
      DistinctAppend(order[1..], [key]);
    } else {
      DistinctAppend(order, [key]);
    }
  }

  /** Re-touching a present key evicts nothing and keeps the others' relative order. */
  lemma TouchPresent(order: seq<TileKey>, key: TileKey)
    requires Distinct(order) && key in order
    ensures Evicted(order, key) == {}
    ensures |Touch(order, key)| == |order|
    ensures Touch(order, key)[..|order| - 1] == Remove(order, key)
  {
  }

  /** A new key on a full cache evicts the oldest key, and only it. */
  lemma TouchFullEvictsOldest(order: seq<TileKey>, key: TileKey)
    requires Distinct(order) && key !in order && |order| == CHUNK_CACHE_MAX_SIZE
    ensures Evicted(order, key) == {order[0]}
    ensures Touch(order, key) == order[1..] + [key]
    ensures order[0] !in Touch(order, key)
  {
    assert order[0] !in order[1..];
  }
}
