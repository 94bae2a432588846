/**
 * `Array.prototype.sort` with a comparator, as the ordering strategies use
 * it (src/bot/imageProcessor.ts): a stable sort of pixels by a
 * lexicographic integer key. Every comparator of the deterministic
 * strategies compares one to three integers derived from each pixel, so
 * each becomes a key function here.
 */
module Sorting {
  import opened Types

  type Key = (int, int, int)

  lemma SplitLast(s: seq<PixelData>)
    requires s != []
    ensures s == s[..|s| - 1] + [s[|s| - 1]]
  {
  }

  /** Lexicographic order on keys. */
  predicate KeyLe(a: Key, b: Key)
  {
    a.0 < b.0 || (a.0 == b.0 && (a.1 < b.1 || (a.1 == b.1 && a.2 <= b.2)))
  }

  predicate SortedBy(s: seq<PixelData>, key: PixelData -> Key)
  {
    forall i, j :: 0 <= i < j < |s| ==> KeyLe(key(s[i]), key(s[j]))
  }

  /** Inserts `p` after every element whose key is not greater than its own. */
  function Insert(s: seq<PixelData>, p: PixelData, key: PixelData -> Key): (r: seq<PixelData>)
    ensures |r| == |s| + 1
  {
    if s == [] then [p]
    else if KeyLe(key(s[|s| - 1]), key(p)) then s + [p]
    else Insert(s[..|s| - 1], p, key) + [s[|s| - 1]]
  }

  /** Inserting adds `p` and keeps every element of `s`. */
  lemma {:induction false} InsertPermutes(s: seq<PixelData>, p: PixelData, key: PixelData -> Key)
    ensures multiset(Insert(s, p, key)) == multiset(s) + multiset{p}
    decreases |s|
  {
    if s != [] && !KeyLe(key(s[|s| - 1]), key(p)) {
      var init, last := s[..|s| - 1], s[|s| - 1];
      InsertPermutes(init, p, key);
      assert Insert(s, p, key) == Insert(init, p, key) + [last];
      assert s == init + [last];
    }
  }

  /** A stable sort: insertion of each element in turn, from the first. */
  function SortBy(s: seq<PixelData>, key: PixelData -> Key): (r: seq<PixelData>)
    ensures |r| == |s|
  {
    if s == [] then []
    else Insert(SortBy(s[..|s| - 1], key), s[|s| - 1], key)
  }

  /** No element of `s` has a key above `b`. */
  predicate AllLe(s: seq<PixelData>, key: PixelData -> Key, b: Key)
  {
    forall i :: 0 <= i < |s| ==> KeyLe(key(s[i]), b)
  }

  lemma AllLePermuted(r: seq<PixelData>, s: seq<PixelData>, p: PixelData, key: PixelData -> Key, b: Key)
    requires multiset(r) == multiset(s) + multiset{p}
    requires AllLe(s, key, b) && KeyLe(key(p), b)
    ensures AllLe(r, key, b)
  {
    forall i | 0 <= i < |r|
      ensures KeyLe(key(r[i]), b)
    {
      assert r[i] in multiset(r);
      if r[i] != p {
        assert r[i] in multiset(s);
        var j :| 0 <= j < |s| && s[j] == r[i];
      }
    }
  }

  lemma SortedSnoc(a: seq<PixelData>, x: PixelData, key: PixelData -> Key)
    requires SortedBy(a, key) && AllLe(a, key, key(x))
    ensures SortedBy(a + [x], key)
  {
    var r := a + [x];
    forall i, j | 0 <= i < j < |r|
      ensures KeyLe(key(r[i]), key(r[j]))
    {
      assert r[i] == a[i];
      if j < |a| {
        assert r[j] == a[j];
      }
    }
  }

  lemma {:induction false} InsertSorted(s: seq<PixelData>, p: PixelData, key: PixelData -> Key)
    requires SortedBy(s, key)
    ensures SortedBy(Insert(s, p, key), key)
    decreases |s|
  {
    if s == [] {
    } else if KeyLe(key(s[|s| - 1]), key(p)) {
      assert AllLe(s, key, key(p)) by {
        forall i | 0 <= i < |s|
          ensures KeyLe(key(s[i]), key(p))
        {
          if i < |s| - 1 {
            assert KeyLe(key(s[i]), key(s[|s| - 1]));
          }
        }
      }
      SortedSnoc(s, p, key);
    } else {
      var init, last := s[..|s| - 1], s[|s| - 1];
      var ri := Insert(init, p, key);
      assert Insert(s, p, key) == ri + [last];
      assert SortedBy(init, key);
      InsertSorted(init, p, key);
      assert AllLe(init, key, key(last)) by {
        forall i | 0 <= i < |init|
          ensures KeyLe(key(init[i]), key(last))
        {
          assert init[i] == s[i];
        }
      }
      InsertPermutes(init, p, key);
      AllLePermuted(ri, init, p, key, key(last));
      SortedSnoc(ri, last, key);
    }
  }

  /** The sorted sequence is a permutation of the input, ordered by the key. */
  lemma {:induction false} SortByCorrect(s: seq<PixelData>, key: PixelData -> Key)
    ensures multiset(SortBy(s, key)) == multiset(s)
    ensures SortedBy(SortBy(s, key), key)
    decreases |s|
  {
    if s != [] {
      var init, last := s[..|s| - 1], s[|s| - 1];
      var sorted := SortBy(init, key);
      assert SortBy(s, key) == Insert(sorted, last, key);
      assert multiset(sorted) == multiset(init) && SortedBy(sorted, key) by {
        SortByCorrect(init, key);
      }
      assert SortedBy(Insert(sorted, last, key), key) by {
        InsertSorted(sorted, last, key);
      }
      InsertPermutes(sorted, last, key);
      assert multiset(s) == multiset(init) + multiset{last} by {
        assert s == init + [last];
      }
    }
  }

  /** `[p]` when `p` has key `k`, otherwise nothing. */
  function Matching(p: PixelData, key: PixelData -> Key, k: Key): seq<PixelData>
  {
    if key(p) == k then [p] else []
  }

  /** The elements of `s` whose key is `k`, in order. */
  function WithKey(s: seq<PixelData>, key: PixelData -> Key, k: Key): seq<PixelData>
  {
    if s == [] then []
    else WithKey(s[..|s| - 1], key, k) + Matching(s[|s| - 1], key, k)
  }

  lemma {:induction false} WithKeyAppend(a: seq<PixelData>, b: seq<PixelData>, key: PixelData -> Key, k: Key)
    ensures WithKey(a + b, key, k) == WithKey(a, key, k) + WithKey(b, key, k)
    decreases |b|
  {
    if b == [] {
      assert a + b == a;
    } else {
      assert (a + b)[..|a + b| - 1] == a + b[..|b| - 1];
      WithKeyAppend(a, b[..|b| - 1], key, k);
    }
  }

  /** Appending `last` on both sides keeps the equation when `p` and `last` have different keys. */
  lemma StableStep(ins: seq<PixelData>, init: seq<PixelData>, last: PixelData, p: PixelData, key: PixelData -> Key, k: Key)
    requires WithKey(ins, key, k) == WithKey(init, key, k) + Matching(p, key, k)
    requires key(last) != key(p)
    ensures WithKey(ins + [last], key, k) == WithKey(init + [last], key, k) + Matching(p, key, k)
  {
    var pk, lk := Matching(p, key, k), Matching(last, key, k);
    assert WithKey([last], key, k) == lk;
    assert WithKey(ins + [last], key, k) == WithKey(init, key, k) + pk + lk by {
      WithKeyAppend(ins, [last], key, k);
    }
    assert WithKey(init + [last], key, k) == WithKey(init, key, k) + lk by {
      WithKeyAppend(init, [last], key, k);
    }
    var a := WithKey(init, key, k);
    if pk == [] {
      assert a + pk + lk == a + lk + pk by {
        assert a + pk == a;
        assert a + lk + pk == a + lk;
      }
    } else {
      assert lk == [];
      assert a + pk + lk == a + lk + pk by {
        assert a + pk + lk == a + pk;
        assert a + lk == a;
      }
    }
  }

  lemma {:induction false} InsertStable(s: seq<PixelData>, p: PixelData, key: PixelData -> Key, k: Key)
    ensures WithKey(Insert(s, p, key), key, k) == WithKey(s, key, k) + Matching(p, key, k)
    decreases |s|
  {
    if s == [] {
      assert WithKey([p], key, k) == WithKey([], key, k) + Matching(p, key, k);
    } else if KeyLe(key(s[|s| - 1]), key(p)) {
      WithKeyAppend(s, [p], key, k);
      assert WithKey([p], key, k) == Matching(p, key, k);
    } else {
      InsertStable(s[..|s| - 1], p, key, k);
      InsertBehindStable(s, p, key, k);
    }
  }

  /** The step of `InsertStable` where `p` goes before the last element. */
  lemma InsertBehindStable(s: seq<PixelData>, p: PixelData, key: PixelData -> Key, k: Key)
    requires s != [] && !KeyLe(key(s[|s| - 1]), key(p))
    requires WithKey(Insert(s[..|s| - 1], p, key), key, k) == WithKey(s[..|s| - 1], key, k) + Matching(p, key, k)
    ensures WithKey(Insert(s, p, key), key, k) == WithKey(s, key, k) + Matching(p, key, k)
  {
    var init, last := s[..|s| - 1], s[|s| - 1];
    assert Insert(s, p, key) == Insert(init, p, key) + [last];
    SplitLast(s);
    StableStep(Insert(init, p, key), init, last, p, key, k);
  }

  /** Stability: elements with equal keys keep their relative order. */
  lemma {:induction false} SortByStable(s: seq<PixelData>, key: PixelData -> Key, k: Key)
    ensures WithKey(SortBy(s, key), key, k) == WithKey(s, key, k)
    decreases |s|
  {
    if s != [] {
      SortByStable(s[..|s| - 1], key, k);
      InsertStable(SortBy(s[..|s| - 1], key), s[|s| - 1], key, k);
    }
  }

  /** Sorting depends only on the keys of the elements. */
  lemma {:induction false} InsertSameKeys(s: seq<PixelData>, p: PixelData, key: PixelData -> Key, key': PixelData -> Key)
    requires forall q :: key(q) == key'(q)
    ensures Insert(s, p, key) == Insert(s, p, key')
    decreases |s|
  {
    if s != [] {
      InsertSameKeys(s[..|s| - 1], p, key, key');
    }
  }

  lemma {:induction false} SortBySameKeys(s: seq<PixelData>, key: PixelData -> Key, key': PixelData -> Key)
    requires forall q :: key(q) == key'(q)
    ensures SortBy(s, key) == SortBy(s, key')
    decreases |s|
  {
    if s != [] {
      SortBySameKeys(s[..|s| - 1], key, key');
      InsertSameKeys(SortBy(s[..|s| - 1], key), s[|s| - 1], key, key');
    }
  }
}
