/**
 * The deterministic branches of `sortPixelsByStrategy`
 * (src/bot/imageProcessor.ts): comparator sorts over a copy of the pixels,
 * the checkerboard partition, the snake and zigzag row walks and the
 * text-draw flood fill.
 */
module Ordering {
  import opened Types
  import opened Sorting
  import opened Seqs
  import opened Arith

  /** The placement strategies whose order depends on the pixels alone. */
  datatype Strategy =
    | LineLtr | LineRtl | LineUtb | LineBtu
    | CircleIn | CircleOut | CenterOut
    | DiagonalTl | DiagonalTr | DiagonalBl | DiagonalBr
    | EdgesFirst | Checkerboard | Snake | Zigzag | TextDraw

  /** The image's origin on the canvas and its size. */
  datatype Box = Box(startX: int, startY: int, width: int, height: int)

  /** Column order: x, then y. Used by line-ltr and to order text-draw seeds. */
  function ColumnKey(p: PixelData): Key { (p.x, p.y, 0) }

  /** Row order: y, then x. Used by line-utb, checkerboard, snake and zigzag. */
  function RowKey(p: PixelData): Key { (p.y, p.x, 0) }

  /**
   * Four times the squared distance from the box centre
   * `(startX + width/2, startY + height/2)`. The source compares square roots
   * of the real distance; the square root is monotone, so comparing this
   * integer orders pixels the same way.
   */
  function CentreDistance(box: Box, p: PixelData): (d: int)
    ensures d >= 0
  {
    var dx := 2 * p.x - 2 * box.startX - box.width;
    var dy := 2 * p.y - 2 * box.startY - box.height;
    dx * dx + dy * dy
  }

  /** A pixel on the border of the box. */
  predicate IsEdge(box: Box, p: PixelData)
  {
    p.x == box.startX || p.x == box.startX + box.width - 1 ||
    p.y == box.startY || p.y == box.startY + box.height - 1
  }

  /** The strategies that are one comparator sort of the whole copy. */
  predicate Keyed(strategy: Strategy)
  {
    !(strategy.Checkerboard? || strategy.Snake? || strategy.Zigzag? || strategy.TextDraw?)
  }

  /**
   * The comparator of each strategy as a key. For the strategies that are
   * not a single sort this is the order of their first sort.
   */
  function StrategyKey(strategy: Strategy, box: Box, p: PixelData): Key
  {
    var sx, sy, w, h := box.startX, box.startY, box.width, box.height;
    match strategy
    case LineLtr => ColumnKey(p)
    case LineRtl => (-p.x, p.y, 0)
    case LineUtb => RowKey(p)
    case LineBtu => (-p.y, p.x, 0)
    case CircleIn => (CentreDistance(box, p), 0, 0)
    case CenterOut => (CentreDistance(box, p), 0, 0)
    case CircleOut => (-CentreDistance(box, p), 0, 0)
    case DiagonalTl => ((p.x - sx) + (p.y - sy), p.x, 0)
    case DiagonalTr => ((sx + w - p.x) + (p.y - sy), -p.x, 0)
    case DiagonalBl => ((p.x - sx) + (sy + h - p.y), p.x, 0)
    case DiagonalBr => ((sx + w - p.x) + (sy + h - p.y), -p.x, 0)
    case EdgesFirst => (if IsEdge(box, p) then 0 else 1, p.y, p.x)
    case Checkerboard => RowKey(p)
    case Snake => RowKey(p)
    case Zigzag => RowKey(p)
    case TextDraw => ColumnKey(p)
  }

  function KeyOf(strategy: Strategy, box: Box): PixelData -> Key
  {
    (p: PixelData) => StrategyKey(strategy, box, p)
  }

  /** Result of a keyed strategy: a stable sort of the copy. */
  function Sorted(strategy: Strategy, box: Box, s: seq<PixelData>): seq<PixelData>
  {
    SortBy(s, KeyOf(strategy, box))
  }

  /** Any two pixels of a keyed strategy's result are in key order. */
  lemma SortedPair(strategy: Strategy, box: Box, s: seq<PixelData>, i: int, j: int)
    requires 0 <= i < j < |Sorted(strategy, box, s)|
    ensures KeyLe(StrategyKey(strategy, box, Sorted(strategy, box, s)[i]),
                  StrategyKey(strategy, box, Sorted(strategy, box, s)[j]))
  {
    SortByCorrect(s, KeyOf(strategy, box));
    var r := Sorted(strategy, box, s);
    assert KeyLe(KeyOf(strategy, box)(r[i]), KeyOf(strategy, box)(r[j]));
  }

  lemma SortedPermutation(strategy: Strategy, box: Box, s: seq<PixelData>)
    ensures multiset(Sorted(strategy, box, s)) == multiset(s)
  {
    SortByCorrect(s, KeyOf(strategy, box));
  }

  /** line-ltr: by ascending x, then ascending y. */
  lemma LineLtrOrder(box: Box, s: seq<PixelData>)
    ensures var r := Sorted(LineLtr, box, s);
      multiset(r) == multiset(s) &&
      forall i, j :: 0 <= i < j < |r| ==> r[i].x < r[j].x || (r[i].x == r[j].x && r[i].y <= r[j].y)
  {
    SortedPermutation(LineLtr, box, s);
    forall i, j | 0 <= i < j < |Sorted(LineLtr, box, s)| { SortedPair(LineLtr, box, s, i, j); }
  }

  /** line-rtl: by descending x, then ascending y. */
  lemma LineRtlOrder(box: Box, s: seq<PixelData>)
    ensures var r := Sorted(LineRtl, box, s);
      multiset(r) == multiset(s) &&
      forall i, j :: 0 <= i < j < |r| ==> r[i].x > r[j].x || (r[i].x == r[j].x && r[i].y <= r[j].y)
  {
    SortedPermutation(LineRtl, box, s);
    forall i, j | 0 <= i < j < |Sorted(LineRtl, box, s)| { SortedPair(LineRtl, box, s, i, j); }
  }

  /** line-utb: by ascending y, then ascending x. */
  lemma LineUtbOrder(box: Box, s: seq<PixelData>)
    ensures var r := Sorted(LineUtb, box, s);
      multiset(r) == multiset(s) &&
      forall i, j :: 0 <= i < j < |r| ==> r[i].y < r[j].y || (r[i].y == r[j].y && r[i].x <= r[j].x)
  {
    SortedPermutation(LineUtb, box, s);
    forall i, j | 0 <= i < j < |Sorted(LineUtb, box, s)| { SortedPair(LineUtb, box, s, i, j); }
  }

  /** line-btu: by descending y, then ascending x. */
  lemma LineBtuOrder(box: Box, s: seq<PixelData>)
    ensures var r := Sorted(LineBtu, box, s);
      multiset(r) == multiset(s) &&
      forall i, j :: 0 <= i < j < |r| ==> r[i].y > r[j].y || (r[i].y == r[j].y && r[i].x <= r[j].x)
  {
    SortedPermutation(LineBtu, box, s);
    forall i, j | 0 <= i < j < |Sorted(LineBtu, box, s)| { SortedPair(LineBtu, box, s, i, j); }
  }

  /** circle-in and center-out: nearest the centre first. */
  lemma CircleInOrder(box: Box, s: seq<PixelData>)
    ensures Sorted(CenterOut, box, s) == Sorted(CircleIn, box, s)
    ensures var r := Sorted(CircleIn, box, s);
      multiset(r) == multiset(s) &&
      forall i, j :: 0 <= i < j < |r| ==> CentreDistance(box, r[i]) <= CentreDistance(box, r[j])
  {
    SortBySameKeys(s, KeyOf(CenterOut, box), KeyOf(CircleIn, box));
    SortedPermutation(CircleIn, box, s);
    forall i, j | 0 <= i < j < |Sorted(CircleIn, box, s)| { SortedPair(CircleIn, box, s, i, j); }
  }

  /** circle-out: farthest from the centre first. */
  lemma CircleOutOrder(box: Box, s: seq<PixelData>)
    ensures var r := Sorted(CircleOut, box, s);
      multiset(r) == multiset(s) &&
      forall i, j :: 0 <= i < j < |r| ==> CentreDistance(box, r[i]) >= CentreDistance(box, r[j])
  {
    SortedPermutation(CircleOut, box, s);
    forall i, j | 0 <= i < j < |Sorted(CircleOut, box, s)| { SortedPair(CircleOut, box, s, i, j); }
  }

  /** Distance, along the anti-diagonal of the chosen corner, from that corner. */
  function CornerSum(strategy: Strategy, box: Box, p: PixelData): int
  {
    StrategyKey(strategy, box, p).0
  }

  /**
   * The diagonal strategies sweep anti-diagonals away from their corner;
   * along one diagonal the top-left and bottom-left sweeps go by ascending x,
   * the top-right and bottom-right ones by descending x.
   */
  lemma DiagonalOrder(box: Box, s: seq<PixelData>, strategy: Strategy)
    requires strategy.DiagonalTl? || strategy.DiagonalTr? || strategy.DiagonalBl? || strategy.DiagonalBr?
    ensures var r := Sorted(strategy, box, s);
      multiset(r) == multiset(s) &&
      (forall i, j :: 0 <= i < j < |r| ==> CornerSum(strategy, box, r[i]) <= CornerSum(strategy, box, r[j])) &&
      (forall i, j :: 0 <= i < j < |r| && CornerSum(strategy, box, r[i]) == CornerSum(strategy, box, r[j]) ==>
        if strategy.DiagonalTl? || strategy.DiagonalBl? then r[i].x <= r[j].x else r[i].x >= r[j].x)
  {
    SortedPermutation(strategy, box, s);
    forall i, j | 0 <= i < j < |Sorted(strategy, box, s)| { SortedPair(strategy, box, s, i, j); }
  }

  /** edges-first: every border pixel before every interior one, each group by row. */
  lemma EdgesFirstOrder(box: Box, s: seq<PixelData>)
    ensures var r := Sorted(EdgesFirst, box, s);
      multiset(r) == multiset(s) &&
      (forall i, j :: 0 <= i < j < |r| && IsEdge(box, r[j]) ==> IsEdge(box, r[i])) &&
      (forall i, j :: 0 <= i < j < |r| && IsEdge(box, r[i]) == IsEdge(box, r[j]) ==>
        r[i].y < r[j].y || (r[i].y == r[j].y && r[i].x <= r[j].x))
  {
    SortedPermutation(EdgesFirst, box, s);
    forall i, j | 0 <= i < j < |Sorted(EdgesFirst, box, s)| { SortedPair(EdgesFirst, box, s, i, j); }
  }

  // ---------------------------------------------------------------- checkerboard

  /** `(x + y) % 2 === 0`: zero for even sums of either sign. */
  predicate EvenCell(p: PixelData)
  {
    (p.x + p.y) % 2 == 0
  }

  /** The pixels of `s` whose cell parity is `even`, in order. */
  function Filter(s: seq<PixelData>, even: bool): (r: seq<PixelData>)
    ensures forall q :: q in r ==> EvenCell(q) == even
  {
    if s == [] then []
    else Filter(s[..|s| - 1], even) + (if EvenCell(s[|s| - 1]) == even then [s[|s| - 1]] else [])
  }

  lemma {:induction false} FilterPartition(s: seq<PixelData>)
    ensures multiset(Filter(s, true)) + multiset(Filter(s, false)) == multiset(s)
    decreases |s|
  {
    if s != [] {
      FilterPartition(s[..|s| - 1]);
      assert s == s[..|s| - 1] + [s[|s| - 1]];
    }
  }

  function CheckerboardOrder(s: seq<PixelData>): seq<PixelData>
  {
    SortBy(Filter(s, true), RowKey) + SortBy(Filter(s, false), RowKey)
  }

  /** Two pixels of a row-sorted sequence are in (y, x) order. */
  lemma RowPair(r: seq<PixelData>, i: int, j: int)
    requires SortedBy(r, RowKey) && 0 <= i < j < |r|
    ensures r[i].y < r[j].y || (r[i].y == r[j].y && r[i].x <= r[j].x)
  {
    assert KeyLe(RowKey(r[i]), RowKey(r[j]));
  }

  /** One checkerboard group: one parity, in (y, x) order. */
  lemma CheckerboardGroup(s: seq<PixelData>, even: bool)
    ensures var g := SortBy(Filter(s, even), RowKey);
      multiset(g) == multiset(Filter(s, even)) &&
      (forall i :: 0 <= i < |g| ==> EvenCell(g[i]) == even) &&
      (forall i, j :: 0 <= i < j < |g| ==> g[i].y < g[j].y || (g[i].y == g[j].y && g[i].x <= g[j].x))
  {
    var g := SortBy(Filter(s, even), RowKey);
    SortByCorrect(Filter(s, even), RowKey);
    forall i | 0 <= i < |g| ensures EvenCell(g[i]) == even {
      assert g[i] in multiset(Filter(s, even));
    }
    forall i, j | 0 <= i < j < |g| ensures g[i].y < g[j].y || (g[i].y == g[j].y && g[i].x <= g[j].x) {
      RowPair(g, i, j);
    }
  }

  /** checkerboard: even cells before odd cells, each group by row. */
  lemma CheckerboardOrdered(s: seq<PixelData>)
    ensures var r := CheckerboardOrder(s);
      multiset(r) == multiset(s) &&
      (forall i, j :: 0 <= i < j < |r| && EvenCell(r[j]) ==> EvenCell(r[i])) &&
      (forall i, j :: 0 <= i < j < |r| && EvenCell(r[i]) == EvenCell(r[j]) ==>
        r[i].y < r[j].y || (r[i].y == r[j].y && r[i].x <= r[j].x))
  {
    var e, o := SortBy(Filter(s, true), RowKey), SortBy(Filter(s, false), RowKey);
    CheckerboardGroup(s, true);
    CheckerboardGroup(s, false);
    FilterPartition(s);
    var r := e + o;
    forall i, j | 0 <= i < j < |r| && EvenCell(r[i]) == EvenCell(r[j])
      ensures r[i].y < r[j].y || (r[i].y == r[j].y && r[i].x <= r[j].x)
    {
      if j < |e| {
        assert r[i] == e[i] && r[j] == e[j];
      } else if i >= |e| {
        assert r[i] == o[i - |e|] && r[j] == o[j - |e|];
      }
    }
  }

  // ---------------------------------------------------------------- snake, zigzag

  /**
   * One step of the row grouping: start a new row unless the pixel has the
   * y of the first pixel of the last row.
   */
  function Push(rows: seq<seq<PixelData>>, p: PixelData): seq<seq<PixelData>>
  {
    if rows == [] || rows[|rows| - 1] == [] || p.y != rows[|rows| - 1][0].y then rows + [[p]]
    else rows[..|rows| - 1] + [rows[|rows| - 1] + [p]]
  }

  /** The rows of `s`: maximal runs of consecutive pixels with one y. */
  function GroupRows(s: seq<PixelData>): seq<seq<PixelData>>
  {
    if s == [] then [] else Push(GroupRows(s[..|s| - 1]), s[|s| - 1])
  }

  function Flatten(rows: seq<seq<PixelData>>): seq<PixelData>
  {
    if rows == [] then [] else Flatten(rows[..|rows| - 1]) + rows[|rows| - 1]
  }

  /** Odd-indexed rows reversed. */
  function Alternate(rows: seq<seq<PixelData>>): (r: seq<seq<PixelData>>)
    ensures |r| == |rows|
  {
    seq(|rows|, k requires 0 <= k < |rows| => if k % 2 == 1 then Reverse(rows[k]) else rows[k])
  }

  /** The elements of `r` at positions `i`, `i + 2`, `i + 4`, … */
  function Stride(r: seq<PixelData>, i: nat): seq<PixelData>
    decreases |r| - i
  {
    if i >= |r| then [] else [r[i]] + Stride(r, i + 2)
  }

  /** A row as zigzag emits it: even positions, then odd positions. */
  function EvensThenOdds(r: seq<PixelData>): seq<PixelData>
  {
    Stride(r, 0) + Stride(r, 1)
  }

  function Interleave(rows: seq<seq<PixelData>>): (r: seq<seq<PixelData>>)
    ensures |r| == |rows|
  {
    seq(|rows|, k requires 0 <= k < |rows| => EvensThenOdds(rows[k]))
  }

  /** The rows the snake and zigzag strategies walk, with direction applied. */
  function WalkRows(s: seq<PixelData>): seq<seq<PixelData>>
  {
    Alternate(GroupRows(SortBy(s, RowKey)))
  }

  function SnakeOrder(s: seq<PixelData>): seq<PixelData>
  {
    Flatten(WalkRows(s))
  }

  function ZigzagOrder(s: seq<PixelData>): seq<PixelData>
  {
    Flatten(Interleave(WalkRows(s)))
  }

  lemma FlattenPush(rows: seq<seq<PixelData>>, p: PixelData)
    ensures Flatten(Push(rows, p)) == Flatten(rows) + [p]
  {
    if rows == [] || rows[|rows| - 1] == [] || p.y != rows[|rows| - 1][0].y {
      assert (rows + [[p]])[..|rows|] == rows;
    } else {
      var init := rows[..|rows| - 1];
      var rows' := init + [rows[|rows| - 1] + [p]];
      assert rows'[..|rows'| - 1] == init;
    }
  }

  /** Grouping loses and reorders nothing. */
  lemma {:induction false} GroupRowsFlatten(s: seq<PixelData>)
    ensures Flatten(GroupRows(s)) == s
    decreases |s|
  {
    if s != [] {
      GroupRowsFlatten(s[..|s| - 1]);
      FlattenPush(GroupRows(s[..|s| - 1]), s[|s| - 1]);
      assert s == s[..|s| - 1] + [s[|s| - 1]];
    }
  }

  /** None is empty, each holds one y in ascending x, and the y values strictly ascend. */
  predicate RowsOrdered(rows: seq<seq<PixelData>>)
  {
    (forall k :: 0 <= k < |rows| ==> rows[k] != []) &&
    (forall k, i :: 0 <= k < |rows| && 0 <= i < |rows[k]| ==> rows[k][i].y == rows[k][0].y) &&
    (forall k, i, j :: 0 <= k < |rows| && 0 <= i < j < |rows[k]| ==> rows[k][i].x <= rows[k][j].x) &&
    (forall k, l :: 0 <= k < l < |rows| ==> rows[k][0].y < rows[l][0].y)
  }

  /** Every pixel of a row of `s` is a pixel of `s`. */
  lemma {:induction false} GroupRowsMembers(s: seq<PixelData>)
    ensures forall k, i :: 0 <= k < |GroupRows(s)| && 0 <= i < |GroupRows(s)[k]| ==> GroupRows(s)[k][i] in s
    decreases |s|
  {
    if s != [] {
      var init: seq<PixelData> := s[..|s| - 1];
      var p: PixelData := s[|s| - 1];
      GroupRowsMembers(init);
      var rows: seq<seq<PixelData>> := GroupRows(init);
      assert forall q :: q in init ==> q in s;
    }
  }

  /** Pushing a pixel that is not below any grouped pixel keeps the rows ordered. */
  lemma PushOrdered(rows: seq<seq<PixelData>>, p: PixelData)
    requires RowsOrdered(rows)
    requires forall k, i :: 0 <= k < |rows| && 0 <= i < |rows[k]| ==> KeyLe(RowKey(rows[k][i]), RowKey(p))
    ensures RowsOrdered(Push(rows, p))
  {
    if rows == [] || p.y != rows[|rows| - 1][0].y {
      PushNewRow(rows, p);
    } else {
      PushSameRow(rows, p);
    }
  }

  /** A pixel below every row opens a new row. */
  lemma PushNewRow(rows: seq<seq<PixelData>>, p: PixelData)
    requires RowsOrdered(rows)
    requires forall k :: 0 <= k < |rows| ==> KeyLe(RowKey(rows[k][0]), RowKey(p))
    requires rows == [] || p.y != rows[|rows| - 1][0].y
    ensures RowsOrdered(Push(rows, p))
  {
    var rows': seq<seq<PixelData>> := rows + [[p]];
    assert Push(rows, p) == rows';
    forall k, l | 0 <= k < l < |rows'|
      ensures rows'[k][0].y < rows'[l][0].y
    {
      if l == |rows| {
        assert KeyLe(RowKey(rows[k][0]), RowKey(p));
        assert rows[k][0].y <= rows[|rows| - 1][0].y;
      }
    }
    RowsOrderedIntro(rows');
  }

  /** A pixel on the last row's y, right of all of it, extends that row. */
  lemma PushSameRow(rows: seq<seq<PixelData>>, p: PixelData)
    requires RowsOrdered(rows)
    requires rows != [] && p.y == rows[|rows| - 1][0].y
    requires forall k, i :: 0 <= k < |rows| && 0 <= i < |rows[k]| ==> KeyLe(RowKey(rows[k][i]), RowKey(p))
    ensures RowsOrdered(Push(rows, p))
  {
    var n := |rows| - 1;
    var last := rows[n];
    var last': seq<PixelData> := last + [p];
    var rows': seq<seq<PixelData>> := rows[..n] + [last'];
    assert Push(rows, p) == rows';
    forall i, j | 0 <= i < j < |last'|
      ensures last'[i].x <= last'[j].x
    {
      if j == |last| {
        assert KeyLe(RowKey(last[i]), RowKey(p));
      }
    }
    assert forall i :: 0 <= i < |last'| ==> last'[i].y == last'[0].y;
    forall k | 0 <= k < |rows'|
      ensures rows'[k][0].y == rows[k][0].y
    {
      if k == n {
        assert rows'[k] == last';
      } else {
        assert rows'[k] == rows[k];
      }
    }
    RowsOrderedIntro(rows');
  }

  lemma RowsOrderedIntro(rows: seq<seq<PixelData>>)
    requires forall k :: 0 <= k < |rows| ==> rows[k] != []
    requires forall k, i :: 0 <= k < |rows| && 0 <= i < |rows[k]| ==> rows[k][i].y == rows[k][0].y
    requires forall k, i, j :: 0 <= k < |rows| && 0 <= i < j < |rows[k]| ==> rows[k][i].x <= rows[k][j].x
    requires forall k, l :: 0 <= k < l < |rows| ==> rows[k][0].y < rows[l][0].y
    ensures RowsOrdered(rows)
  {
  }

  /**
   * Rows of a row-sorted sequence: none is empty, each holds one y in
   * ascending x, and the rows' y values strictly ascend.
   */
  lemma {:induction false} GroupRowsOfSorted(s: seq<PixelData>)
    requires SortedBy(s, RowKey)
    ensures RowsOrdered(GroupRows(s))
    decreases |s|
  {
    if s != [] {
      var init: seq<PixelData> := s[..|s| - 1];
      var p: PixelData := s[|s| - 1];
      assert SortedBy(init, RowKey);
      GroupRowsOfSorted(init);
      GroupRowsMembers(init);
      var rows: seq<seq<PixelData>> := GroupRows(init);
      forall k, i | 0 <= k < |rows| && 0 <= i < |rows[k]| ensures KeyLe(RowKey(rows[k][i]), RowKey(p)) {
        var m :| 0 <= m < |init| && init[m] == rows[k][i];
        assert s[m] == init[m];
      }
      PushOrdered(rows, p);
    }
  }

  lemma {:induction false} FlattenPermutation(rows: seq<seq<PixelData>>, rows': seq<seq<PixelData>>)
    requires |rows| == |rows'|
    requires forall k :: 0 <= k < |rows| ==> multiset(rows[k]) == multiset(rows'[k])
    ensures multiset(Flatten(rows)) == multiset(Flatten(rows'))
    decreases |rows|
  {
    if rows != [] {
      FlattenPermutation(rows[..|rows| - 1], rows'[..|rows'| - 1]);
    }
  }

  lemma AlternatePermutation(rows: seq<seq<PixelData>>)
    ensures forall k :: 0 <= k < |rows| ==> multiset(Alternate(rows)[k]) == multiset(rows[k])
  {
    forall k | 0 <= k < |rows| ensures multiset(Alternate(rows)[k]) == multiset(rows[k]) {
      ReverseMultiset(rows[k]);
    }
  }

  lemma {:induction false} StrideSplit(r: seq<PixelData>, i: nat)
    requires i <= |r|
    ensures multiset(Stride(r, i)) + multiset(Stride(r, i + 1)) == multiset(r[i..])
    decreases |r| - i
  {
    if i < |r| {
      StrideSplit(r, i + 1);
      assert r[i..] == [r[i]] + r[i + 1..];
    }
  }

  /** Zigzag's within-row order is a permutation of the row. */
  lemma EvensThenOddsPermutation(r: seq<PixelData>)
    ensures multiset(EvensThenOdds(r)) == multiset(r)
  {
    StrideSplit(r, 0);
    assert r[0..] == r;
  }

  /** Reversing the odd rows keeps each row's y and flips its x order. */
  lemma AlternateOrdered(rows: seq<seq<PixelData>>)
    requires RowsOrdered(rows)
    ensures var w := Alternate(rows);
      (forall k :: 0 <= k < |w| ==> w[k] != [] && w[k][0].y == rows[k][0].y) &&
      (forall k, i :: 0 <= k < |w| && 0 <= i < |w[k]| ==> w[k][i].y == w[k][0].y) &&
      (forall k, i, j :: 0 <= k < |w| && 0 <= i < j < |w[k]| ==>
        if k % 2 == 0 then w[k][i].x <= w[k][j].x else w[k][i].x >= w[k][j].x)
  {
    forall k | 0 <= k < |rows|
      ensures Alternate(rows)[k] != [] && Alternate(rows)[k][0].y == rows[k][0].y
      ensures forall i :: 0 <= i < |Alternate(rows)[k]| ==> Alternate(rows)[k][i].y == Alternate(rows)[k][0].y
      ensures forall i, j :: 0 <= i < j < |Alternate(rows)[k]| ==>
        if k % 2 == 0 then Alternate(rows)[k][i].x <= Alternate(rows)[k][j].x
        else Alternate(rows)[k][i].x >= Alternate(rows)[k][j].x
    {
      ParityStep(k);
      if k % 2 == 1 {
        ReversedRow(rows[k]);
      }
    }
  }

  /** A non-empty row of one y, ascending in x, reversed: same y throughout, descending in x. */
  lemma ReversedRow(row: seq<PixelData>)
    requires row != []
    requires forall i :: 0 <= i < |row| ==> row[i].y == row[0].y
    requires forall i, j :: 0 <= i < j < |row| ==> row[i].x <= row[j].x
    ensures Reverse(row) != [] && Reverse(row)[0].y == row[0].y
    ensures forall i :: 0 <= i < |Reverse(row)| ==> Reverse(row)[i].y == Reverse(row)[0].y
    ensures forall i, j :: 0 <= i < j < |Reverse(row)| ==> Reverse(row)[i].x >= Reverse(row)[j].x
  {
    var r := Reverse(row);
    var n := |row|;
    assert r[0] == row[n - 1];
    forall i | 0 <= i < |r|
      ensures r[i].y == r[0].y
    {
      assert r[i] == row[n - 1 - i];
    }
    forall i, j | 0 <= i < j < |r|
      ensures r[i].x >= r[j].x
    {
      assert r[i] == row[n - 1 - i] && r[j] == row[n - 1 - j];
    }
  }

  lemma SnakePermutation(s: seq<PixelData>)
    ensures multiset(SnakeOrder(s)) == multiset(s)
  {
    var t := SortBy(s, RowKey);
    SortByCorrect(s, RowKey);
    GroupRowsFlatten(t);
    AlternatePermutation(GroupRows(t));
    FlattenPermutation(Alternate(GroupRows(t)), GroupRows(t));
  }

  /**
   * snake walks the rows by ascending y; even-indexed rows run by ascending
   * x and odd-indexed ones by descending x. The result is a permutation.
   */
  lemma SnakeOrdered(s: seq<PixelData>)
    ensures multiset(SnakeOrder(s)) == multiset(s)
    ensures var w := WalkRows(s);
      (forall k :: 0 <= k < |w| ==> w[k] != []) &&
      (forall k, i :: 0 <= k < |w| && 0 <= i < |w[k]| ==> w[k][i].y == w[k][0].y) &&
      (forall k, l :: 0 <= k < l < |w| ==> w[k][0].y < w[l][0].y) &&
      (forall k, i, j :: 0 <= k < |w| && 0 <= i < j < |w[k]| ==>
        if k % 2 == 0 then w[k][i].x <= w[k][j].x else w[k][i].x >= w[k][j].x)
  {
    SnakePermutation(s);
    var t := SortBy(s, RowKey);
    SortByCorrect(s, RowKey);
    GroupRowsOfSorted(t);
    AlternateOrdered(GroupRows(t));
  }

  /**
   * zigzag walks the same rows as snake and emits each row's even positions
   * before its odd positions; the result is a permutation.
   */
  lemma ZigzagOrdered(s: seq<PixelData>)
    ensures multiset(ZigzagOrder(s)) == multiset(s)
    ensures forall k :: 0 <= k < |WalkRows(s)| ==> EvensFirst(Interleave(WalkRows(s))[k], WalkRows(s)[k])
  {
    var w: seq<seq<PixelData>> := WalkRows(s);
    SnakePermutation(s);
    forall k | 0 <= k < |w| ensures multiset(Interleave(w)[k]) == multiset(w[k]) {
      EvensThenOddsPermutation(w[k]);
    }
    FlattenPermutation(Interleave(w), w);
    forall k | 0 <= k < |w| ensures EvensFirst(Interleave(w)[k], w[k]) {
      EvensThenOddsAt(w[k]);
    }
  }

  /**
   * `out` lists `row`'s elements at even positions in order, then those at
   * odd positions in order: out[i] is row[2i] for the first ceil(n/2)
   * places and row[2j + 1] at place ceil(n/2) + j.
   */
  ghost predicate EvensFirst(out: seq<PixelData>, row: seq<PixelData>)
  {
    var half := (|row| + 1) / 2;
    && |out| == |row|
    && (forall i :: 0 <= i < half ==> out[i] == row[2 * i])
    && (forall j :: 0 <= j < |row| - half ==> out[half + j] == row[2 * j + 1])
  }

  /** The stride from `i` has one element per second position, in order. */
  lemma {:induction false} StrideAt(r: seq<PixelData>, i: nat)
    requires i <= |r|
    decreases |r| - i
    ensures |Stride(r, i)| == (|r| - i + 1) / 2
    ensures forall j :: 0 <= j < |Stride(r, i)| ==> Stride(r, i)[j] == r[i + 2 * j]
  {
    if i < |r| {
      if i + 2 <= |r| {
        StrideAt(r, i + 2);
      } else {
        assert Stride(r, i + 2) == [];
      }
    }
  }

  /** A row as zigzag emits it holds the even positions first, then the odd ones. */
  lemma EvensThenOddsAt(r: seq<PixelData>)
    ensures EvensFirst(EvensThenOdds(r), r)
  {
    StrideAt(r, 0);
    if |r| >= 1 {
      StrideAt(r, 1);
    } else {
      assert Stride(r, 1) == [];
    }
  }

  /** The `forEach` that builds the rows, as a loop. */
  method GroupIntoRows(t: seq<PixelData>) returns (rows: seq<seq<PixelData>>)
    ensures rows == GroupRows(t)
  {
    rows := [];
    for i := 0 to |t|
      invariant rows == GroupRows(t[..i])
    {
      var p := t[i];
      if rows == [] || rows[|rows| - 1] == [] || p.y != rows[|rows| - 1][0].y {
        rows := rows + [[p]];
      } else {
        rows := rows[..|rows| - 1] + [rows[|rows| - 1] + [p]];
      }
      assert t[..i + 1][..i] == t[..i];
    }
    assert t[..|t|] == t;
  }

  lemma FlattenStep(rows: seq<seq<PixelData>>, k: nat)
    requires k < |rows|
    ensures Flatten(rows[..k + 1]) == Flatten(rows[..k]) + rows[k]
  {
    assert rows[..k + 1][..k] == rows[..k];
  }

  /** The snake branch: sort by row, group, reverse odd rows, concatenate. */
  method SnakeWalk(pixels: seq<PixelData>) returns (result: seq<PixelData>)
    ensures result == SnakeOrder(pixels)
  {
    var rows := GroupIntoRows(SortBy(pixels, RowKey));
    result := [];
    for k := 0 to |rows|
      invariant result == Flatten(Alternate(rows)[..k])
    {
      var row := rows[k];
      if k % 2 == 1 {
        row := Reverse(row);
      }
      FlattenStep(Alternate(rows), k);
      result := result + row;
    }
    assert Alternate(rows)[..|rows|] == Alternate(rows);
  }

  /** Appends the elements of `row` at `i`, `i + 2`, … to `acc`. */
  method PushStride(acc: seq<PixelData>, row: seq<PixelData>, start: nat) returns (result: seq<PixelData>)
    ensures result == acc + Stride(row, start)
  {
    result := acc;
    var i := start;
    while i < |row|
      invariant result + Stride(row, i) == acc + Stride(row, start)
      decreases |row| - i
    {
      assert Stride(row, i) == [row[i]] + Stride(row, i + 2);
      result := result + [row[i]];
      i := i + 2;
    }
  }

  /** The zigzag branch: as snake, but each row emits even then odd positions. */
  method ZigzagWalk(pixels: seq<PixelData>) returns (result: seq<PixelData>)
    ensures result == ZigzagOrder(pixels)
  {
    var rows := GroupIntoRows(SortBy(pixels, RowKey));
    ghost var w: seq<seq<PixelData>> := Interleave(Alternate(rows));
    result := [];
    var reversed := false;
    for k := 0 to |rows|
      invariant reversed == (k % 2 == 1)
      invariant result == Flatten(w[..k])
    {
      ParityStep(k);
      var row := rows[k];
      if reversed {
        row := Reverse(row);
      }
      reversed := !reversed;
      assert w[k] == EvensThenOdds(row);
      FlattenStep(w, k);
      result := EmitRow(result, row);
    }
    assert w[..|rows|] == w;
    assert WalkRows(pixels) == Alternate(rows);
  }

  /** The two stride loops of one zigzag row. */
  method EmitRow(acc: seq<PixelData>, row: seq<PixelData>) returns (result: seq<PixelData>)
    ensures result == acc + EvensThenOdds(row)
  {
    result := PushStride(acc, row, 0);
    result := PushStride(result, row, 1);
  }

  // ---------------------------------------------------------------- text-draw

  /** A canvas position, the `"x,y"` key of the source. */
  type Pos = (int, int)

  function PosOf(p: PixelData): Pos { (p.x, p.y) }

  function Positions(s: seq<PixelData>): set<Pos>
  {
    set p | p in s :: PosOf(p)
  }

  lemma PositionsAppend(s: seq<PixelData>, t: seq<PixelData>)
    ensures Positions(s + t) == Positions(s) + Positions(t)
  {
    forall q | q in Positions(s + t) ensures q in Positions(s) + Positions(t) {
      var p :| p in s + t && PosOf(p) == q;
    }
    forall q | q in Positions(s) + Positions(t) ensures q in Positions(s + t) {
      if q in Positions(s) {
        var p :| p in s && PosOf(p) == q;
        assert p in s + t;
      } else {
        var p :| p in t && PosOf(p) == q;
        assert p in s + t;
      }
    }
  }

  /** The position map: one pixel per position, the last one given winning. */
  function ByPosition(s: seq<PixelData>): (m: map<Pos, PixelData>)
    ensures m.Keys == Positions(s)
    ensures forall k :: k in m ==> m[k] in s && PosOf(m[k]) == k
  {
    if s == [] then map[]
    else
      var init: seq<PixelData> := s[..|s| - 1];
      var p: PixelData := s[|s| - 1];
      PositionsAppend(init, [p]);
      assert s == init + [p];
      assert Positions([p]) == {PosOf(p)};
      ByPosition(init)[PosOf(p) := p]
  }

  /** The pixel map fills in input order, so a later pixel at a position wins. */
  lemma {:induction false} ByPositionLastWins(s: seq<PixelData>, i: nat)
    requires i < |s|
    requires forall j :: i < j < |s| ==> PosOf(s[j]) != PosOf(s[i])
    ensures ByPosition(s)[PosOf(s[i])] == s[i]
    decreases |s|
  {
    if i < |s| - 1 {
      ByPositionLastWins(s[..|s| - 1], i);
    }
  }

  /** The `forEach` that fills the pixel map. */
  method BuildPixelMap(s: seq<PixelData>) returns (m: map<Pos, PixelData>)
    ensures m == ByPosition(s)
  {
    m := map[];
    for i := 0 to |s|
      invariant m == ByPosition(s[..i])
    {
      assert s[..i + 1][..i] == s[..i];
      m := m[PosOf(s[i]) := s[i]];
    }
    assert s[..|s|] == s;
  }

  /** The eight neighbour directions, clockwise from straight up. */
  const DIRS: seq<(int, int)> := [(0, -1), (1, -1), (1, 0), (1, 1), (0, 1), (-1, 1), (-1, 0), (-1, -1)]

  function Step(c: PixelData, d: (int, int)): Pos { (c.x + d.0, c.y + d.1) }

  /** `q` is one of the eight cells around `c`. */
  predicate Adjacent(c: PixelData, q: PixelData)
  {
    -1 <= q.x - c.x <= 1 && -1 <= q.y - c.y <= 1 && PosOf(q) != PosOf(c)
  }

  lemma DirsAreNeighbours(c: PixelData, k: nat, q: PixelData)
    requires k < |DIRS| && PosOf(q) == Step(c, DIRS[k])
    ensures Adjacent(c, q)
  {
    if k == 0 {} else if k == 1 {} else if k == 2 {} else if k == 3 {}
    else if k == 4 {} else if k == 5 {} else if k == 6 {} else {}
  }

  /** Every cell around `c` lies in one of the eight directions. */
  lemma AdjacentDir(c: PixelData, q: PixelData) returns (k: nat)
    requires Adjacent(c, q)
    ensures k < |DIRS| && PosOf(q) == Step(c, DIRS[k])
  {
    var dx, dy := q.x - c.x, q.y - c.y;
    if dx == 0 && dy == -1 { k := 0; }
    else if dx == 1 && dy == -1 { k := 1; }
    else if dx == 1 && dy == 0 { k := 2; }
    else if dx == 1 && dy == 1 { k := 3; }
    else if dx == 0 && dy == 1 { k := 4; }
    else if dx == -1 && dy == 1 { k := 5; }
    else if dx == -1 && dy == 0 { k := 6; }
    else { k := 7; }
  }

  /** The mapped, unvisited cells in the first `k` directions around `c`, in direction order. */
  function NeighbourList(pm: map<Pos, PixelData>, visited: set<Pos>, c: PixelData, k: nat): seq<PixelData>
    requires k <= |DIRS|
  {
    if k == 0 then []
    else
      var key := Step(c, DIRS[k - 1]);
      NeighbourList(pm, visited, c, k - 1) + (if key in pm && key !in visited then [pm[key]] else [])
  }

  /** getNeighbors: the unvisited mapped pixels around `c`, in direction order. */
  method Neighbours(pm: map<Pos, PixelData>, visited: set<Pos>, c: PixelData) returns (ns: seq<PixelData>)
    requires forall k :: k in pm ==> PosOf(pm[k]) == k
    ensures ns == NeighbourList(pm, visited, c, |DIRS|)
    ensures |ns| <= |DIRS|
    ensures forall q :: q in ns ==> PosOf(q) in pm && pm[PosOf(q)] == q && PosOf(q) !in visited && Adjacent(c, q)
    ensures forall k :: 0 <= k < |DIRS| && Step(c, DIRS[k]) in pm && Step(c, DIRS[k]) !in visited ==>
      pm[Step(c, DIRS[k])] in ns
  {
    ns := [];
    for k := 0 to |DIRS|
      invariant ns == NeighbourList(pm, visited, c, k)
      invariant |ns| <= k
      invariant forall q :: q in ns ==> PosOf(q) in pm && pm[PosOf(q)] == q && PosOf(q) !in visited && Adjacent(c, q)
      invariant forall k' :: 0 <= k' < k && Step(c, DIRS[k']) in pm && Step(c, DIRS[k']) !in visited ==>
        pm[Step(c, DIRS[k'])] in ns
    {
      var key := Step(c, DIRS[k]);
      if key in pm && key !in visited {
        DirsAreNeighbours(c, k, pm[key]);
        ns := ns + [pm[key]];
      }
    }
  }

  function Abs(a: int): nat { if a < 0 then -a else a }

  /** The neighbour comparator: Manhattan distance from `c`. */
  function ManhattanKey(c: PixelData): PixelData -> Key
  {
    (q: PixelData) => (Abs(q.y - c.y) + Abs(q.x - c.x), 0, 0)
  }

  /** `a` comes no later than `b` in the seed order: lesser x, then lesser y. */
  predicate ColumnLe(a: PixelData, b: PixelData)
  {
    a.x < b.x || (a.x == b.x && a.y <= b.y)
  }

  /** `q` is next to one of the pixels of `r`. */
  predicate Touches(r: seq<PixelData>, q: PixelData)
  {
    exists j :: 0 <= j < |r| && Adjacent(r[j], q)
  }

  /**
   * Pixel `i` of `r` starts a new component: it comes first in the seed
   * order among the pixels from `i` on, and none of them is next to a
   * pixel before `i`, so every earlier component is complete.
   */
  predicate StartsComponent(r: seq<PixelData>, i: int)
    requires 0 <= i < |r|
  {
    forall j :: i <= j < |r| ==> ColumnLe(r[i], r[j]) && !Touches(r[..i], r[j])
  }

  /**
   * The order text-draw emits: each pixel is next to an earlier one, or
   * starts a new component. Components thus come whole and one after
   * another, each begun at its least pixel in the seed order.
   */
  predicate DrawOrdered(r: seq<PixelData>)
  {
    forall i :: 0 <= i < |r| ==> Touches(r[..i], r[i]) || StartsComponent(r, i)
  }

  /** Every input pixel next to an emitted one has been visited. */
  ghost predicate Closed(pixels: seq<PixelData>, result: seq<PixelData>, visited: set<Pos>)
  {
    forall p :: p in pixels && Touches(result, p) ==> PosOf(p) in visited
  }

  /**
   * The component order so far. A pixel that starts a component also
   * precedes, in the seed order, every input pixel still unvisited, and
   * none of those is next to a pixel emitted before it.
   */
  ghost predicate Walking(pixels: seq<PixelData>, result: seq<PixelData>, visited: set<Pos>)
  {
    forall i :: 0 <= i < |result| ==> Touches(result[..i], result[i]) || Seeded(pixels, result, visited, i)
  }

  ghost predicate Seeded(pixels: seq<PixelData>, result: seq<PixelData>, visited: set<Pos>, i: int)
    requires 0 <= i < |result|
  {
    StartsComponent(result, i) &&
    forall p :: p in pixels && PosOf(p) !in visited ==> ColumnLe(result[i], p) && !Touches(result[..i], p)
  }

  lemma WalkingOrdered(pixels: seq<PixelData>, result: seq<PixelData>, visited: set<Pos>)
    requires Walking(pixels, result, visited)
    ensures DrawOrdered(result)
  {
  }

  /** A pixel next to `r` stays next to it as `r` grows, and is next to what is appended beside it. */
  lemma TouchesSnoc(r: seq<PixelData>, x: PixelData, q: PixelData)
    ensures Touches(r, q) || Adjacent(x, q) ==> Touches(r + [x], q)
  {
    if Touches(r, q) {
      var j :| 0 <= j < |r| && Adjacent(r[j], q);
      assert (r + [x])[j] == r[j];
    } else if Adjacent(x, q) {
      assert (r + [x])[|r|] == x;
    }
  }

  /**
   * Emitting an unvisited input pixel keeps the component order when the
   * pixel is next to an emitted one, or when it precedes every unvisited
   * input pixel and none of those is next to an emitted one.
   */
  lemma WalkEmit(pixels: seq<PixelData>, result: seq<PixelData>, visited: set<Pos>, q: PixelData)
    requires Walking(pixels, result, visited)
    requires q in pixels && PosOf(q) !in visited
    requires Touches(result, q) ||
      forall p :: p in pixels && PosOf(p) !in visited ==> ColumnLe(q, p) && !Touches(result, p)
    ensures Walking(pixels, result + [q], visited + {PosOf(q)})
  {
    var r', v' := result + [q], visited + {PosOf(q)};
    forall i | 0 <= i < |r'|
      ensures Touches(r'[..i], r'[i]) || Seeded(pixels, r', v', i)
    {
      if i < |result| {
        assert r'[..i] == result[..i] && r'[i] == result[i];
        if !Touches(result[..i], result[i]) {
          SeededSnoc(pixels, result, visited, i, q);
        }
      } else {
        assert r'[..i] == result && r'[i] == q;
        if !Touches(result, q) {
          forall j | i <= j < |r'| ensures ColumnLe(r'[i], r'[j]) && !Touches(r'[..i], r'[j]) {
            assert j == i;
          }
        }
      }
    }
  }

  lemma SeededSnoc(pixels: seq<PixelData>, result: seq<PixelData>, visited: set<Pos>, i: int, q: PixelData)
    requires 0 <= i < |result| && Seeded(pixels, result, visited, i)
    requires q in pixels && PosOf(q) !in visited
    ensures Seeded(pixels, result + [q], visited + {PosOf(q)}, i)
  {
    var r' := result + [q];
    assert r'[..i] == result[..i];
    forall j | i <= j < |r'| ensures ColumnLe(r'[i], r'[j]) && !Touches(r'[..i], r'[j]) {
      if j < |result| {
        assert r'[j] == result[j];
      }
    }
  }

  /**
   * The state a flood fill keeps: `visited` holds exactly the positions
   * emitted, each once, all of them mapped, every pixel from the input.
   */
  ghost predicate Visiting(pm: map<Pos, PixelData>, pixels: seq<PixelData>, result: seq<PixelData>, visited: set<Pos>)
  {
    visited == Positions(result) && visited <= pm.Keys &&
    (forall i, j :: 0 <= i < j < |result| ==> PosOf(result[i]) != PosOf(result[j])) &&
    (forall i :: 0 <= i < |result| ==> result[i] in pixels)
  }

  /** Emitting an unvisited mapped pixel keeps the flood-fill state. */
  lemma VisitStep(pm: map<Pos, PixelData>, pixels: seq<PixelData>, result: seq<PixelData>, visited: set<Pos>,
                  current: PixelData)
    requires Visiting(pm, pixels, result, visited)
    requires current in pixels && PosOf(current) in pm && PosOf(current) !in visited
    ensures Visiting(pm, pixels, result + [current], visited + {PosOf(current)})
    ensures |pm.Keys - (visited + {PosOf(current)})| < |pm.Keys - visited|
  {
    var key := PosOf(current);
    assert pm.Keys - visited == (pm.Keys - (visited + {key})) + {key};
    PositionsSnoc(result, current);
    NotInPositions(result, key);
    var result' := result + [current];
    forall i, j | 0 <= i < j < |result'|
      ensures PosOf(result'[i]) != PosOf(result'[j])
    {
      assert result'[i] == result[i];
      if j < |result| {
        assert result'[j] == result[j];
      }
    }
    forall i | 0 <= i < |result'|
      ensures result'[i] in pixels
    {
      if i < |result| {
        assert result'[i] == result[i];
      }
    }
    VisitingIntro(pm, pixels, result', visited + {key});
  }

  lemma VisitingIntro(pm: map<Pos, PixelData>, pixels: seq<PixelData>, result: seq<PixelData>, visited: set<Pos>)
    requires visited == Positions(result) && visited <= pm.Keys
    requires forall i, j :: 0 <= i < j < |result| ==> PosOf(result[i]) != PosOf(result[j])
    requires forall i :: 0 <= i < |result| ==> result[i] in pixels
    ensures Visiting(pm, pixels, result, visited)
  {
  }

  lemma PositionsSnoc(s: seq<PixelData>, p: PixelData)
    ensures Positions(s + [p]) == Positions(s) + {PosOf(p)}
  {
    PositionsAppend(s, [p]);
    assert Positions([p]) == {PosOf(p)};
  }

  lemma NotInPositions(s: seq<PixelData>, key: Pos)
    requires key !in Positions(s)
    ensures forall i :: 0 <= i < |s| ==> PosOf(s[i]) != key
  {
    forall i | 0 <= i < |s|
      ensures PosOf(s[i]) != key
    {
      assert s[i] in s;
    }
  }

  /**
   * The neighbours in the order they are pushed: `getNeighbors`' list
   * sorted stably by Manhattan distance from `c`, nearest first. They are
   * input pixels next to `c`, and every unvisited input pixel next to `c`
   * is represented by the pixel its position maps to.
   */
  method OrderedNeighbours(pm: map<Pos, PixelData>, visited: set<Pos>, c: PixelData, ghost pixels: seq<PixelData>)
    returns (ordered: seq<PixelData>)
    requires forall k :: k in pm ==> pm[k] in pixels && PosOf(pm[k]) == k
    requires Positions(pixels) <= pm.Keys
    ensures ordered == SortBy(NeighbourList(pm, visited, c, |DIRS|), ManhattanKey(c))
    ensures forall q :: q in ordered ==> q in pixels && PosOf(q) in pm && Adjacent(c, q)
    ensures forall p :: p in pixels && Adjacent(c, p) && PosOf(p) !in visited ==> PosOf(p) in pm && pm[PosOf(p)] in ordered
  {
    var ns := Neighbours(pm, visited, c);
    ordered := SortBy(ns, ManhattanKey(c));
    SortByCorrect(ns, ManhattanKey(c));
    forall q | q in ordered ensures q in pixels && PosOf(q) in pm && Adjacent(c, q) {
      assert q in multiset(ordered);
      assert q in ns;
    }
    forall p | p in pixels && Adjacent(c, p) && PosOf(p) !in visited
      ensures PosOf(p) in pm && pm[PosOf(p)] in ordered
    {
      assert PosOf(p) in Positions(pixels);
      var k := AdjacentDir(c, p);
      assert pm[PosOf(p)] in multiset(ns);
    }
  }

  /** The loop state of one flood fill started at `seed`. */
  ghost predicate Filling(pm: map<Pos, PixelData>, pixels: seq<PixelData>, seed: PixelData,
                          result0: seq<PixelData>, visited0: set<Pos>,
                          stack: seq<PixelData>, result: seq<PixelData>, visited: set<Pos>)
  {
    Visiting(pm, pixels, result, visited) && visited0 <= visited &&
    (forall q :: q in stack ==> q in pixels && PosOf(q) in pm) &&
    |result| >= |result0| && result[..|result0|] == result0 &&
    (|result| == |result0| ==> stack == [seed] && visited == visited0) &&
    (|result| > |result0| ==> result[|result0|] == seed)
  }

  /** Popping an already visited pixel keeps the fill state and shrinks the stack. */
  lemma FillSkip(pm: map<Pos, PixelData>, pixels: seq<PixelData>, seed: PixelData,
                 result0: seq<PixelData>, visited0: set<Pos>,
                 stack: seq<PixelData>, result: seq<PixelData>, visited: set<Pos>)
    requires stack != [] && Filling(pm, pixels, seed, result0, visited0, stack, result, visited)
    requires PosOf(stack[|stack| - 1]) in visited && PosOf(seed) !in visited0
    ensures Filling(pm, pixels, seed, result0, visited0, stack[..|stack| - 1], result, visited)
  {
    var rest := stack[..|stack| - 1];
    forall q | q in rest
      ensures q in stack
    {
      var i :| 0 <= i < |rest| && rest[i] == q;
      assert stack[i] == q;
    }
    assert |result| == |result0| ==> PosOf(seed) in visited0;
  }

  /** Popping an unvisited pixel emits it, marks it and pushes its neighbours. */
  lemma FillVisit(pm: map<Pos, PixelData>, pixels: seq<PixelData>, seed: PixelData,
                  result0: seq<PixelData>, visited0: set<Pos>,
                  stack: seq<PixelData>, result: seq<PixelData>, visited: set<Pos>, ordered: seq<PixelData>)
    requires stack != [] && Filling(pm, pixels, seed, result0, visited0, stack, result, visited)
    requires PosOf(stack[|stack| - 1]) !in visited
    requires forall q :: q in ordered ==> q in pixels && PosOf(q) in pm
    ensures Filling(pm, pixels, seed, result0, visited0, stack[..|stack| - 1] + ordered,
                    result + [stack[|stack| - 1]], visited + {PosOf(stack[|stack| - 1])})
    ensures |pm.Keys - (visited + {PosOf(stack[|stack| - 1])})| < |pm.Keys - visited|
  {
    var current := stack[|stack| - 1];
    assert current in stack;
    VisitStep(pm, pixels, result, visited, current);
    PushedStack(stack, ordered, pixels, pm);
    EmitKeepsSeed(seed, result0, stack, result);
    FillingIntro(pm, pixels, seed, result0, visited0, stack[..|stack| - 1] + ordered,
                 result + [current], visited + {PosOf(current)});
  }

  lemma FillingIntro(pm: map<Pos, PixelData>, pixels: seq<PixelData>, seed: PixelData,
                     result0: seq<PixelData>, visited0: set<Pos>,
                     stack: seq<PixelData>, result: seq<PixelData>, visited: set<Pos>)
    requires Visiting(pm, pixels, result, visited) && visited0 <= visited
    requires forall q :: q in stack ==> q in pixels && PosOf(q) in pm
    requires |result| > |result0| && result[..|result0|] == result0 && result[|result0|] == seed
    ensures Filling(pm, pixels, seed, result0, visited0, stack, result, visited)
  {
  }

  /** Emitting the top of the stack keeps the emitted prefix and the seed right after it. */
  lemma EmitKeepsSeed(seed: PixelData, result0: seq<PixelData>, stack: seq<PixelData>, result: seq<PixelData>)
    requires stack != [] && |result| >= |result0| && result[..|result0|] == result0
    requires |result| == |result0| ==> stack == [seed]
    requires |result| > |result0| ==> result[|result0|] == seed
    ensures (result + [stack[|stack| - 1]])[..|result0|] == result0
    ensures (result + [stack[|stack| - 1]])[|result0|] == seed
  {
    var result' := result + [stack[|stack| - 1]];
    assert result'[..|result0|] == result[..|result0|];
    if |result| > |result0| {
      assert result'[|result0|] == result[|result0|];
    }
  }

  /** The stack after popping its top and pushing `ordered` still holds mapped pixels only. */
  lemma PushedStack(stack: seq<PixelData>, ordered: seq<PixelData>, pixels: seq<PixelData>, pm: map<Pos, PixelData>)
    requires stack != []
    requires forall q :: q in stack ==> q in pixels && PosOf(q) in pm
    requires forall q :: q in ordered ==> q in pixels && PosOf(q) in pm
    ensures forall q :: q in stack[..|stack| - 1] + ordered ==> q in pixels && PosOf(q) in pm
  {
    var rest := stack[..|stack| - 1];
    forall q | q in rest + ordered
      ensures q in pixels && PosOf(q) in pm
    {
      assert q in rest || q in ordered;
      if q in rest {
        var i :| 0 <= i < |rest| && rest[i] == q;
        assert stack[i] == q;
      }
    }
  }

  /**
   * What a flood fill still owes: once it has emitted its seed, every
   * stacked pixel is next to an emitted one, and every unvisited input
   * pixel next to a pixel this fill emitted waits on the stack.
   */
  ghost predicate Frontier(pm: map<Pos, PixelData>, pixels: seq<PixelData>, result0: seq<PixelData>,
                           stack: seq<PixelData>, result: seq<PixelData>, visited: set<Pos>)
  {
    (|result| > |result0| ==> forall q :: q in stack ==> Touches(result, q)) &&
    forall j, p :: |result0| <= j < |result| && p in pixels && Adjacent(result[j], p) && PosOf(p) !in visited ==>
      PosOf(p) in pm && pm[PosOf(p)] in stack
  }

  /**
   * A seed is ready to fill when the walk so far is closed and the seed
   * comes first, in the seed order, among the unvisited input pixels.
   */
  ghost predicate SeedReady(pixels: seq<PixelData>, seed: PixelData, result0: seq<PixelData>, visited0: set<Pos>)
  {
    Closed(pixels, result0, visited0) &&
    forall p :: p in pixels && PosOf(p) !in visited0 ==> ColumnLe(seed, p)
  }

  /** The pixel on top of the stack may be emitted without breaking the component order. */
  lemma FrontierEmit(pm: map<Pos, PixelData>, pixels: seq<PixelData>, seed: PixelData,
                     result0: seq<PixelData>, visited0: set<Pos>,
                     stack: seq<PixelData>, result: seq<PixelData>, visited: set<Pos>)
    requires stack != [] && Filling(pm, pixels, seed, result0, visited0, stack, result, visited)
    requires Frontier(pm, pixels, result0, stack, result, visited)
    requires SeedReady(pixels, seed, result0, visited0)
    ensures Touches(result, stack[|stack| - 1]) ||
      forall p :: p in pixels && PosOf(p) !in visited ==> ColumnLe(stack[|stack| - 1], p) && !Touches(result, p)
  {
    if |result| > |result0| {
      assert stack[|stack| - 1] in stack;
    } else {
      assert result == result0 by {
        assert result == result[..|result0|];
      }
    }
  }

  /** Popping a visited pixel leaves the frontier on the rest of the stack. */
  lemma FrontierSkip(pm: map<Pos, PixelData>, pixels: seq<PixelData>, result0: seq<PixelData>,
                     stack: seq<PixelData>, result: seq<PixelData>, visited: set<Pos>)
    requires forall k :: k in pm ==> PosOf(pm[k]) == k
    requires stack != [] && PosOf(stack[|stack| - 1]) in visited
    requires Frontier(pm, pixels, result0, stack, result, visited)
    ensures Frontier(pm, pixels, result0, stack[..|stack| - 1], result, visited)
  {
    var rest := stack[..|stack| - 1];
    assert stack == rest + [stack[|stack| - 1]];
    forall q | q in stack && PosOf(q) !in visited ensures q in rest {
    }
  }

  /** Emitting the top and pushing its unvisited neighbours moves the frontier along. */
  lemma FrontierVisit(pm: map<Pos, PixelData>, pixels: seq<PixelData>, result0: seq<PixelData>,
                      stack: seq<PixelData>, result: seq<PixelData>, visited: set<Pos>, ordered: seq<PixelData>)
    requires forall k :: k in pm ==> PosOf(pm[k]) == k
    requires stack != [] && |result| >= |result0|
    requires |result| == |result0| ==> |stack| == 1
    requires Frontier(pm, pixels, result0, stack, result, visited)
    requires forall q :: q in ordered ==> Adjacent(stack[|stack| - 1], q)
    requires forall p ::
      (p in pixels && Adjacent(stack[|stack| - 1], p) && PosOf(p) !in visited + {PosOf(stack[|stack| - 1])}) ==>
      PosOf(p) in pm && pm[PosOf(p)] in ordered
    ensures Frontier(pm, pixels, result0, stack[..|stack| - 1] + ordered,
                     result + [stack[|stack| - 1]], visited + {PosOf(stack[|stack| - 1])})
  {
    var current, rest := stack[|stack| - 1], stack[..|stack| - 1];
    var result', visited' := result + [current], visited + {PosOf(current)};
    assert stack == rest + [current];
    forall q | q in rest + ordered ensures Touches(result', q) {
      if q in rest {
        assert q in stack;
      }
      TouchesSnoc(result, current, q);
    }
    forall j, p | |result0| <= j < |result'| && p in pixels && Adjacent(result'[j], p) && PosOf(p) !in visited'
      ensures PosOf(p) in pm && pm[PosOf(p)] in rest + ordered
    {
      if j < |result| {
        assert result'[j] == result[j];
        assert pm[PosOf(p)] in stack;
        assert pm[PosOf(p)] != current;
      } else {
        assert result'[j] == current;
      }
    }
  }

  /** A fill whose stack ran empty leaves the walk closed. */
  lemma FrontierClosed(pm: map<Pos, PixelData>, pixels: seq<PixelData>, seed: PixelData,
                       result0: seq<PixelData>, visited0: set<Pos>, result: seq<PixelData>, visited: set<Pos>)
    requires Filling(pm, pixels, seed, result0, visited0, [], result, visited)
    requires Frontier(pm, pixels, result0, [], result, visited)
    requires Closed(pixels, result0, visited0)
    ensures Closed(pixels, result, visited)
  {
    forall p | p in pixels && Touches(result, p) ensures PosOf(p) in visited {
      var j :| 0 <= j < |result| && Adjacent(result[j], p);
      if j < |result0| {
        assert result0[j] == result[..|result0|][j];
        assert Touches(result0, p);
      }
    }
  }

  /**
   * One turn of the flood-fill loop: pop a pixel; unless its position was
   * visited, emit it and push its neighbours, nearest first, so that the
   * farthest is popped next.
   */
  method FillStep(pm: map<Pos, PixelData>, ghost pixels: seq<PixelData>, ghost seed: PixelData,
                  ghost result0: seq<PixelData>, ghost visited0: set<Pos>,
                  stack: seq<PixelData>, result: seq<PixelData>, visited: set<Pos>)
    returns (stack': seq<PixelData>, result': seq<PixelData>, visited': set<Pos>)
    requires forall k :: k in pm ==> pm[k] in pixels && PosOf(pm[k]) == k
    requires pm.Keys == Positions(pixels)
    requires PosOf(seed) !in visited0 && SeedReady(pixels, seed, result0, visited0)
    requires stack != [] && Filling(pm, pixels, seed, result0, visited0, stack, result, visited)
    requires Walking(pixels, result, visited) && Frontier(pm, pixels, result0, stack, result, visited)
    ensures Filling(pm, pixels, seed, result0, visited0, stack', result', visited')
    ensures Walking(pixels, result', visited') && Frontier(pm, pixels, result0, stack', result', visited')
    ensures |pm.Keys - visited'| < |pm.Keys - visited| || (visited' == visited && |stack'| < |stack|)
  {
    var current := stack[|stack| - 1];
    stack' := stack[..|stack| - 1];
    var key := PosOf(current);
    if key in visited {
      FillSkip(pm, pixels, seed, result0, visited0, stack, result, visited);
      FrontierSkip(pm, pixels, result0, stack, result, visited);
      result', visited' := result, visited;
      return;
    }
    var ordered := OrderedNeighbours(pm, visited + {key}, current, pixels);
    FillVisit(pm, pixels, seed, result0, visited0, stack, result, visited, ordered);
    FrontierEmit(pm, pixels, seed, result0, visited0, stack, result, visited);
    assert current in stack;
    WalkEmit(pixels, result, visited, current);
    FrontierVisit(pm, pixels, result0, stack, result, visited, ordered);
    visited' := visited + {key};
    result' := result + [current];
    stack' := stack' + ordered;
  }

  /**
   * floodFill: a depth-first walk over the 8-connected component of `seed`.
   * Started from the least unvisited pixel of a closed walk, it emits the
   * whole component and leaves the walk closed.
   */
  method FloodFill(pm: map<Pos, PixelData>, seed: PixelData, result0: seq<PixelData>, visited0: set<Pos>,
                   ghost pixels: seq<PixelData>)
    returns (result: seq<PixelData>, visited: set<Pos>)
    requires forall k :: k in pm ==> pm[k] in pixels && PosOf(pm[k]) == k
    requires pm.Keys == Positions(pixels)
    requires seed in pixels && PosOf(seed) in pm && PosOf(seed) !in visited0
    requires Visiting(pm, pixels, result0, visited0) && Walking(pixels, result0, visited0)
    requires SeedReady(pixels, seed, result0, visited0)
    ensures Visiting(pm, pixels, result, visited)
    ensures Walking(pixels, result, visited) && Closed(pixels, result, visited)
    ensures visited0 <= visited
    ensures |result| > |result0| && result[..|result0|] == result0 && result[|result0|] == seed
  {
    var stack := [seed];
    result, visited := result0, visited0;
    assert result[..|result0|] == result0;
    while stack != []
      invariant Filling(pm, pixels, seed, result0, visited0, stack, result, visited)
      invariant Walking(pixels, result, visited) && Frontier(pm, pixels, result0, stack, result, visited)
      decreases |pm.Keys - visited|, |stack|
    {
      stack, result, visited := FillStep(pm, pixels, seed, result0, visited0, stack, result, visited);
    }
    FrontierClosed(pm, pixels, seed, result0, visited0, result, visited);
  }

  /** In the column-sorted seeds, the first seed not yet visited precedes every unvisited pixel. */
  lemma SeedLeast(pixels: seq<PixelData>, seeds: seq<PixelData>, n: int, visited: set<Pos>)
    requires multiset(seeds) == multiset(pixels) && SortedBy(seeds, ColumnKey)
    requires 0 <= n < |seeds| && forall j :: 0 <= j < n ==> PosOf(seeds[j]) in visited
    ensures forall p :: p in pixels && PosOf(p) !in visited ==> ColumnLe(seeds[n], p)
  {
    forall p | p in pixels && PosOf(p) !in visited ensures ColumnLe(seeds[n], p) {
      assert p in multiset(seeds);
      var k :| 0 <= k < |seeds| && seeds[k] == p;
      if k != n {
        assert KeyLe(ColumnKey(seeds[n]), ColumnKey(seeds[k]));
      }
    }
  }

  /**
   * The text-draw branch. Seeds are taken in column order; each unvisited
   * seed starts a flood fill. The result holds each position once, starts
   * at the least seed and emits the components whole, one after another.
   */
  method TextDrawWalk(pixels: seq<PixelData>) returns (result: seq<PixelData>)
    ensures forall i, j :: 0 <= i < j < |result| ==> PosOf(result[i]) != PosOf(result[j])
    ensures Positions(result) == Positions(pixels)
    ensures forall i :: 0 <= i < |result| ==> result[i] in pixels
    ensures |pixels| > 0 ==> |result| > 0 && result[0] == SortBy(pixels, ColumnKey)[0]
    ensures DrawOrdered(result)
  {
    var pm := BuildPixelMap(pixels);
    var seeds := SortBy(pixels, ColumnKey);
    SortByCorrect(pixels, ColumnKey);
    var visited: set<Pos> := {};
    result := [];
    for n := 0 to |seeds|
      invariant Visiting(pm, pixels, result, visited)
      invariant Walking(pixels, result, visited) && Closed(pixels, result, visited)
      invariant forall j :: 0 <= j < n ==> PosOf(seeds[j]) in visited
      invariant n > 0 ==> |result| > 0 && result[0] == seeds[0]
      invariant n == 0 ==> result == []
    {
      var seed := seeds[n];
      assert seed in multiset(pixels) by {
        assert seed in multiset(seeds);
      }
      if PosOf(seed) !in visited {
        SeedLeast(pixels, seeds, n, visited);
        var result', visited' := FloodFill(pm, seed, result, visited, pixels);
        if n > 0 {
          assert result'[0] == result'[..|result|][0];
        }
        result, visited := result', visited';
      }
    }
    forall q | q in Positions(pixels) ensures q in visited {
      var p :| p in pixels && PosOf(p) == q;
      assert p in multiset(seeds);
      var j :| 0 <= j < |seeds| && seeds[j] == p;
    }
    WalkingOrdered(pixels, result, visited);
  }

  /** The text-draw walk starts at the pixel with the least x, then least y. */
  lemma ColumnFirstIsLeast(pixels: seq<PixelData>)
    requires |pixels| > 0
    ensures var f := SortBy(pixels, ColumnKey)[0];
      f in pixels && forall q :: q in pixels ==> f.x < q.x || (f.x == q.x && f.y <= q.y)
  {
    var r := SortBy(pixels, ColumnKey);
    SortByCorrect(pixels, ColumnKey);
    assert r[0] in multiset(pixels);
    forall q | q in pixels ensures r[0].x < q.x || (r[0].x == q.x && r[0].y <= q.y) {
      assert q in multiset(r);
      var j :| 0 <= j < |r| && r[j] == q;
      if j > 0 {
        assert KeyLe(ColumnKey(r[0]), ColumnKey(r[j]));
      }
    }
  }

  /** No two pixels share a position, as holds for the quantised pixels. */
  predicate DistinctPositions(s: seq<PixelData>)
  {
    forall i, j :: 0 <= i < j < |s| ==> PosOf(s[i]) != PosOf(s[j])
  }

  /** No value occurs twice in `s`. */
  predicate Unique(s: seq<PixelData>)
  {
    forall i, j :: 0 <= i < j < |s| ==> s[i] != s[j]
  }

  /** In a duplicate-free sequence every value occurs once or not at all. */
  lemma {:induction false} UniqueCount(s: seq<PixelData>, x: PixelData)
    requires Unique(s)
    ensures multiset(s)[x] == if x in s then 1 else 0
  {
    if s != [] {
      assert Unique(s[1..]);
      UniqueCount(s[1..], x);
      assert s == [s[0]] + s[1..];
      assert x == s[0] ==> x !in s[1..];
      assert x in s <==> x == s[0] || x in s[1..];
    }
  }

  /** Two duplicate-free sequences with the same elements are permutations of each other. */
  lemma SameElementsPermutation(s: seq<PixelData>, r: seq<PixelData>)
    requires Unique(s) && Unique(r)
    requires forall x :: x in s <==> x in r
    ensures multiset(r) == multiset(s)
  {
    forall x ensures multiset(r)[x] == multiset(s)[x] {
      UniqueCount(s, x);
      UniqueCount(r, x);
    }
  }

  /**
   * On pixels with distinct positions, text-draw's one pixel per position
   * is a permutation of its input.
   */
  lemma TextDrawnPermutation(s: seq<PixelData>, r: seq<PixelData>)
    requires DistinctPositions(s)
    requires TextDrawn(s, r)
    ensures multiset(r) == multiset(s)
  {
    assert Unique(s) && Unique(r);
    forall x ensures x in s <==> x in r {
      if x in s {
        assert PosOf(x) in Positions(r);
        var y :| y in r && PosOf(y) == PosOf(x);
        var k :| 0 <= k < |s| && s[k] == x;
        var l :| 0 <= l < |s| && s[l] == y;
        assert k == l;
      }
    }
    SameElementsPermutation(s, r);
  }

  // ---------------------------------------------------------------- dispatch

  /**
   * What text-draw promises: one input pixel per input position, starting
   * at the least seed in column order, the 8-connected components emitted
   * whole, one after another.
   */
  predicate TextDrawn(s: seq<PixelData>, r: seq<PixelData>)
  {
    Positions(r) == Positions(s) &&
    (forall i, j :: 0 <= i < j < |r| ==> PosOf(r[i]) != PosOf(r[j])) &&
    (forall i :: 0 <= i < |r| ==> r[i] in s) &&
    (|s| > 0 ==> |r| > 0 && r[0] == SortBy(s, ColumnKey)[0]) &&
    DrawOrdered(r)
  }

  /**
   * Read against the input: each emitted pixel is next to an earlier one,
   * or it is the least input pixel, in column order, whose position is not
   * yet emitted, and no such pixel is next to an earlier emitted one.
   */
  lemma TextDrawnComponents(s: seq<PixelData>, r: seq<PixelData>, i: int)
    requires TextDrawn(s, r) && 0 <= i < |r|
    ensures r[i] in s && PosOf(r[i]) !in Positions(r[..i])
    ensures Touches(r[..i], r[i]) ||
      forall p :: p in s && PosOf(p) !in Positions(r[..i]) ==> ColumnLe(r[i], p) && !Touches(r[..i], p)
  {
    if !Touches(r[..i], r[i]) {
      assert StartsComponent(r, i);
      forall p | p in s && PosOf(p) !in Positions(r[..i])
        ensures ColumnLe(r[i], p) && !Touches(r[..i], p)
      {
        assert PosOf(p) in Positions(r);
        var x :| x in r && PosOf(x) == PosOf(p);
        var k :| 0 <= k < |r| && r[k] == x;
        assert ColumnLe(r[i], r[k]) && !Touches(r[..i], r[k]);
        if Touches(r[..i], p) {
          var j :| 0 <= j < i && Adjacent(r[..i][j], p);
          assert Adjacent(r[..i][j], r[k]);
        }
      }
    }
  }

  /** `r` is what `strategy` makes of `s`. */
  predicate Arranged(strategy: Strategy, box: Box, s: seq<PixelData>, r: seq<PixelData>)
  {
    (Keyed(strategy) ==> r == Sorted(strategy, box, s)) &&
    (strategy.Checkerboard? ==> r == CheckerboardOrder(s)) &&
    (strategy.Snake? ==> r == SnakeOrder(s)) &&
    (strategy.Zigzag? ==> r == ZigzagOrder(s)) &&
    (strategy.TextDraw? ==> TextDrawn(s, r))
  }

  /**
   * sortPixelsByStrategy for the deterministic strategies. Every strategy but
   * text-draw returns a permutation of its input; text-draw returns one pixel
   * per input position, which is a permutation when no two input pixels
   * share a position.
   */
  method SortPixelsByStrategy(pixels: seq<PixelData>, strategy: Strategy, box: Box) returns (r: seq<PixelData>)
    ensures Arranged(strategy, box, pixels, r)
    ensures !strategy.TextDraw? || DistinctPositions(pixels) ==> multiset(r) == multiset(pixels)
  {
    match strategy {
      case Checkerboard =>
        r := CheckerboardOrder(pixels);
        CheckerboardOrdered(pixels);
      case Snake =>
        r := SnakeWalk(pixels);
        SnakePermutation(pixels);
      case Zigzag =>
        r := ZigzagWalk(pixels);
        ZigzagOrdered(pixels);
      case TextDraw =>
        r := TextDrawWalk(pixels);
        if DistinctPositions(pixels) {
          TextDrawnPermutation(pixels, r);
        }
      case _ =>
        r := Sorted(strategy, box, pixels);
        SortedPermutation(strategy, box, pixels);
    }
  }
}
