/**
 * Palette handling (src/api/pixmap.ts): the fixed palette of the pixmap
 * site and the nearest-colour search that maps an RGB value to a palette
 * index by squared Euclidean distance.
 */
module Palette {
  import opened Types

  /** The 55-entry palette used on the pixmap site instead of the canvas's own colours. */
  const PIXMAP_PALETTE: seq<Rgb> :=
    [Rgb(202, 227, 255), Rgb(255, 255, 255), Rgb(255, 255, 255), Rgb(228, 228, 228),
     Rgb(196, 196, 196), Rgb(136, 136, 136), Rgb(78, 78, 78), Rgb(0, 0, 0),
     Rgb(244, 179, 174), Rgb(255, 167, 209), Rgb(255, 84, 178), Rgb(255, 101, 101),
     Rgb(229, 0, 0), Rgb(154, 0, 0), Rgb(254, 164, 96), Rgb(229, 149, 0),
     Rgb(160, 106, 66), Rgb(96, 64, 40), Rgb(245, 223, 176), Rgb(255, 248, 137),
     Rgb(229, 217, 0), Rgb(148, 224, 68), Rgb(2, 190, 1), Rgb(104, 131, 56),
     Rgb(0, 101, 19), Rgb(202, 227, 255), Rgb(0, 211, 221), Rgb(0, 131, 199),
     Rgb(0, 0, 234), Rgb(25, 25, 115), Rgb(207, 110, 228), Rgb(130, 0, 128),
     Rgb(83, 39, 68), Rgb(125, 46, 78), Rgb(193, 55, 71), Rgb(214, 113, 55),
     Rgb(252, 154, 41), Rgb(68, 33, 57), Rgb(131, 51, 33), Rgb(163, 61, 24),
     Rgb(223, 96, 22), Rgb(31, 37, 127), Rgb(10, 79, 175), Rgb(10, 126, 230),
     Rgb(88, 237, 240), Rgb(37, 20, 51), Rgb(53, 33, 67), Rgb(66, 21, 100),
     Rgb(74, 27, 144), Rgb(110, 75, 237), Rgb(16, 58, 47), Rgb(16, 74, 31),
     Rgb(16, 142, 47), Rgb(16, 180, 47), Rgb(117, 215, 87)]

  function Square(a: int): (s: int)
    ensures s >= 0
    ensures s == 0 <==> a == 0
  {
    if a >= 0 then a * a else (-a) * (-a)
  }

  /** Squared Euclidean distance between an RGB value and a palette entry. */
  function Dist(r: int, g: int, b: int, c: Rgb): (d: int)
    ensures d >= 0
    ensures d == 0 <==> c == Rgb(r, g, b)
  {
    Square(r - c.r) + Square(g - c.g) + Square(b - c.b)
  }

  /** First index searched: entry 0 is skipped unless it is the only one. */
  function ScanStart(colors: seq<Rgb>): nat
  {
    if |colors| > 1 then 1 else 0
  }

  /**
   * The winner among the entries `ScanStart(colors) .. n-1`: a later entry
   * replaces the current winner only when strictly closer.
   */
  function ClosestBelow(r: int, g: int, b: int, colors: seq<Rgb>, n: nat): (k: nat)
    requires ScanStart(colors) < n <= |colors|
    ensures ScanStart(colors) <= k < n
    decreases n
  {
    if n == ScanStart(colors) + 1 then ScanStart(colors)
    else
      var k := ClosestBelow(r, g, b, colors, n - 1);
      if Dist(r, g, b, colors[n - 1]) < Dist(r, g, b, colors[k]) then n - 1 else k
  }

  /** The index `findClosestColorIndex` returns; 1 for an empty palette. */
  function NearestIndex(r: int, g: int, b: int, colors: seq<Rgb>): int
  {
    if |colors| == 0 then 1 else ClosestBelow(r, g, b, colors, |colors|)
  }

  /** The winner is the first entry at minimum distance among those searched. */
  lemma {:induction false} ClosestBelowIsFirstMinimum(r: int, g: int, b: int, colors: seq<Rgb>, n: nat)
    requires ScanStart(colors) < n <= |colors|
    ensures var k := ClosestBelow(r, g, b, colors, n);
      && (forall j :: ScanStart(colors) <= j < n ==> Dist(r, g, b, colors[k]) <= Dist(r, g, b, colors[j]))
      && (forall j :: ScanStart(colors) <= j < k ==> Dist(r, g, b, colors[k]) < Dist(r, g, b, colors[j]))
    decreases n
  {
    if n > ScanStart(colors) + 1 {
      ClosestBelowIsFirstMinimum(r, g, b, colors, n - 1);
    }
  }

  /**
   * For a palette of two or more entries the result is the first index
   * from 1 on whose entry is nearest; entry 0 is never chosen then. A
   * one-entry palette gives 0 and an empty one gives 1.
   */
  lemma NearestIndexMeaning(r: int, g: int, b: int, colors: seq<Rgb>)
    ensures |colors| == 0 ==> NearestIndex(r, g, b, colors) == 1
    ensures |colors| == 1 ==> NearestIndex(r, g, b, colors) == 0
    ensures |colors| > 1 ==> var k := NearestIndex(r, g, b, colors);
      && 1 <= k < |colors|
      && (forall j :: 1 <= j < |colors| ==> Dist(r, g, b, colors[k]) <= Dist(r, g, b, colors[j]))
      && (forall j :: 1 <= j < k ==> Dist(r, g, b, colors[k]) < Dist(r, g, b, colors[j]))
  {
    if |colors| > 0 {
      ClosestBelowIsFirstMinimum(r, g, b, colors, |colors|);
    }
  }

  /** An exact match at index 1 or later wins unless an earlier entry from 1 on also matches. */
  lemma ExactColourFound(r: int, g: int, b: int, colors: seq<Rgb>, i: nat)
    requires 1 <= i < |colors| && colors[i] == Rgb(r, g, b)
    requires forall j :: 1 <= j < i ==> colors[j] != Rgb(r, g, b)
    ensures NearestIndex(r, g, b, colors) == i
  {
    NearestIndexMeaning(r, g, b, colors);
  }

  /** `findClosestColorIndex`: a linear scan keeping the strictly closer entry. */
  method FindClosestColorIndex(r: int, g: int, b: int, colors: seq<Rgb>) returns (closestIndex: int)
    ensures closestIndex == NearestIndex(r, g, b, colors)
  {
    var haveMin := false;  // minDist is still Infinity
    var minDist := 0;
    closestIndex := 1;
    var startIndex := if |colors| > 1 then 1 else 0;
    var i := startIndex;
    while i < |colors|
      invariant startIndex <= i <= |colors|
      invariant i == startIndex ==> !haveMin && closestIndex == 1
      invariant i > startIndex ==> haveMin && closestIndex == ClosestBelow(r, g, b, colors, i)
      invariant i > startIndex ==> minDist == Dist(r, g, b, colors[closestIndex])
    {
      var c := colors[i];
      var dr := r - c.r;
      var dg := g - c.g;
      var db := b - c.b;
      var dist := dr * dr + dg * dg + db * db;
      assert dist == Dist(r, g, b, c) by {
        assert dr * dr == Square(dr) && dg * dg == Square(dg) && db * db == Square(db);
      }
      if !haveMin || dist < minDist {
        haveMin := true;
        minDist := dist;
        closestIndex := i;
      }
      i := i + 1;
    }
  }
}
