/**
 * The stroke font and rasteriser behind the text-drawing mode
 * (src/bot/textGenerator.ts): each character is a list of strokes on a
 * 5-by-5 grid, each stroke is drawn as a thick Bresenham line without
 * repeated points, and a text becomes a mask of numbered pixels.
 */
module TextGenerator {
  import opened Wrappers
  import opened Arith

  datatype Point = Point(x: int, y: int)

  /** A stroke from grid point (x1, y1) to grid point (x2, y2). */
  datatype Stroke = S(x1: int, y1: int, x2: int, y2: int)

  /** The letters of `LETTER_STROKES`. */
  const LETTERS: map<char, seq<Stroke>> := map[
      'A' := [S(0, 4, 0, 1), S(0, 1, 2, 0), S(2, 0, 4, 1), S(4, 1, 4, 4), S(1, 2, 3, 2)],
      'B' := [S(0, 0, 0, 4), S(0, 0, 2, 0), S(2, 0, 3, 1), S(3, 1, 2, 2), S(0, 2, 2, 2), S(2, 2, 3, 3), S(3, 3, 2, 4), S(0, 4, 2, 4)],
      'C' := [S(3, 0, 1, 0), S(1, 0, 0, 1), S(0, 1, 0, 3), S(0, 3, 1, 4), S(1, 4, 3, 4)],
      'D' := [S(0, 0, 0, 4), S(0, 0, 2, 0), S(2, 0, 4, 2), S(4, 2, 2, 4), S(2, 4, 0, 4)],
      'E' := [S(0, 0, 0, 4), S(0, 0, 3, 0), S(0, 2, 2, 2), S(0, 4, 3, 4)],
      'F' := [S(0, 0, 0, 4), S(0, 0, 3, 0), S(0, 2, 2, 2)],
      'G' := [S(3, 0, 1, 0), S(1, 0, 0, 1), S(0, 1, 0, 3), S(0, 3, 1, 4), S(1, 4, 3, 4), S(3, 4, 3, 2), S(3, 2, 2, 2)],
      'H' := [S(0, 0, 0, 4), S(4, 0, 4, 4), S(0, 2, 4, 2)],
      'I' := [S(1, 0, 3, 0), S(2, 0, 2, 4), S(1, 4, 3, 4)],
      'J' := [S(1, 0, 3, 0), S(2, 0, 2, 3), S(2, 3, 1, 4), S(1, 4, 0, 3)],
      'K' := [S(0, 0, 0, 4), S(3, 0, 0, 2), S(0, 2, 3, 4)],
      'L' := [S(0, 0, 0, 4), S(0, 4, 3, 4)],
      'M' := [S(0, 4, 0, 0), S(0, 0, 2, 2), S(2, 2, 4, 0), S(4, 0, 4, 4)],
      'N' := [S(0, 4, 0, 0), S(0, 0, 4, 4), S(4, 4, 4, 0)],
      'O' := [S(1, 0, 3, 0), S(3, 0, 4, 1), S(4, 1, 4, 3), S(4, 3, 3, 4), S(3, 4, 1, 4), S(1, 4, 0, 3), S(0, 3, 0, 1), S(0, 1, 1, 0)],
      'P' := [S(0, 0, 0, 4), S(0, 0, 3, 0), S(3, 0, 4, 1), S(4, 1, 3, 2), S(3, 2, 0, 2)],
      'Q' := [S(1, 0, 3, 0), S(3, 0, 4, 1), S(4, 1, 4, 3), S(4, 3, 3, 4), S(3, 4, 1, 4), S(1, 4, 0, 3), S(0, 3, 0, 1), S(0, 1, 1, 0), S(3, 3, 4, 4)],
      'R' := [S(0, 0, 0, 4), S(0, 0, 3, 0), S(3, 0, 4, 1), S(4, 1, 3, 2), S(3, 2, 0, 2), S(2, 2, 4, 4)],
      'S' := [S(3, 0, 1, 0), S(1, 0, 0, 1), S(0, 1, 1, 2), S(1, 2, 3, 2), S(3, 2, 4, 3), S(4, 3, 3, 4), S(3, 4, 1, 4)],
      'T' := [S(0, 0, 4, 0), S(2, 0, 2, 4)],
      'U' := [S(0, 0, 0, 3), S(0, 3, 1, 4), S(1, 4, 3, 4), S(3, 4, 4, 3), S(4, 3, 4, 0)],
      'V' := [S(0, 0, 2, 4), S(2, 4, 4, 0)],
      'W' := [S(0, 0, 1, 4), S(1, 4, 2, 2), S(2, 2, 3, 4), S(3, 4, 4, 0)],
      'X' := [S(0, 0, 4, 4), S(4, 0, 0, 4)],
      'Y' := [S(0, 0, 2, 2), S(4, 0, 2, 2), S(2, 2, 2, 4)],
      'Z' := [S(0, 0, 4, 0), S(4, 0, 0, 4), S(0, 4, 4, 4)]
    ]

  /** The digits and punctuation of `LETTER_STROKES`. */
  const SYMBOLS: map<char, seq<Stroke>> := map[
      '0' := [S(1, 0, 3, 0), S(3, 0, 4, 1), S(4, 1, 4, 3), S(4, 3, 3, 4), S(3, 4, 1, 4), S(1, 4, 0, 3), S(0, 3, 0, 1), S(0, 1, 1, 0)],
      '1' := [S(1, 1, 2, 0), S(2, 0, 2, 4), S(1, 4, 3, 4)],
      '2' := [S(0, 1, 1, 0), S(1, 0, 3, 0), S(3, 0, 4, 1), S(4, 1, 3, 2), S(3, 2, 0, 4), S(0, 4, 4, 4)],
      '3' := [S(0, 0, 3, 0), S(3, 0, 4, 1), S(4, 1, 3, 2), S(3, 2, 4, 3), S(4, 3, 3, 4), S(3, 4, 0, 4), S(1, 2, 3, 2)],
      '4' := [S(0, 0, 0, 2), S(0, 2, 4, 2), S(3, 0, 3, 4)],
      '5' := [S(4, 0, 0, 0), S(0, 0, 0, 2), S(0, 2, 3, 2), S(3, 2, 4, 3), S(4, 3, 3, 4), S(3, 4, 0, 4)],
      '6' := [S(3, 0, 1, 0), S(1, 0, 0, 1), S(0, 1, 0, 4), S(0, 4, 3, 4), S(3, 4, 4, 3), S(4, 3, 3, 2), S(3, 2, 0, 2)],
      '7' := [S(0, 0, 4, 0), S(4, 0, 2, 4)],
      '8' := [S(1, 0, 3, 0), S(3, 0, 4, 1), S(4, 1, 3, 2), S(3, 2, 4, 3), S(4, 3, 3, 4), S(3, 4, 1, 4), S(1, 4, 0, 3), S(0, 3, 1, 2), S(1, 2, 0, 1), S(0, 1, 1, 0), S(1, 2, 3, 2)],
      '9' := [S(4, 2, 0, 2), S(0, 2, 0, 1), S(0, 1, 1, 0), S(1, 0, 3, 0), S(3, 0, 4, 1), S(4, 1, 4, 4)],
      ' ' := [],
      '.' := [S(2, 4, 2, 4)],
      ',' := [S(2, 4, 1, 5)],
      '!' := [S(2, 0, 2, 3), S(2, 4, 2, 4)],
      '?' := [S(1, 0, 3, 0), S(3, 0, 4, 1), S(4, 1, 3, 2), S(3, 2, 2, 2), S(2, 2, 2, 3), S(2, 4, 2, 4)],
      '-' := [S(1, 2, 3, 2)],
      '_' := [S(0, 4, 4, 4)],
      ':' := [S(2, 1, 2, 1), S(2, 3, 2, 3)],
      '/' := [S(4, 0, 0, 4)]
    ]

  /** `LETTER_STROKES`: the strokes of each character the font knows. */
  const LETTER_STROKES: map<char, seq<Stroke>> := LETTERS + SYMBOLS

  /**
   * `toUpperCase` on one character, as far as it can reach a key of the
   * font: ASCII letters, the dotless i and the long s. Every other
   * character either is its own upper case or maps to text the font does
   * not know.
   */
  function ToUpper(c: char): char
  {
    if 'a' <= c <= 'z' then ((c as int) - 32) as char
    else if c == 'ı' then 'I'
    else if c == 'ſ' then 'S'
    else c
  }

  /** `getStrokesForChar`: the strokes of the upper-case character, none for an unknown one. */
  function GetStrokesForChar(c: char): seq<Stroke>
  {
    var upper := ToUpper(c);
    if upper in LETTER_STROKES then LETTER_STROKES[upper] else []
  }

  /** The font's keys are ASCII capitals, digits and punctuation, none beyond '_'. */
  lemma FontKeys(c: char)
    requires c in LETTER_STROKES
    ensures c <= '_'
  {
    if c in LETTERS {
      LetterKeys(c);
    } else {
      SymbolKeys(c);
    }
  }

  lemma LetterKeys(c: char)
    requires c in LETTERS
    ensures 'A' <= c <= 'Z'
  {
  }

  lemma SymbolKeys(c: char)
    requires c in SYMBOLS
    ensures c <= '_'
  {
  }

  /** Lookup ignores case: a character draws as its upper case, a lower-case letter as its capital. */
  lemma StrokeLookup(c: char)
    ensures ToUpper(ToUpper(c)) == ToUpper(c)
    ensures GetStrokesForChar(ToUpper(c)) == GetStrokesForChar(c)
    ensures 'a' <= c <= 'z' ==> GetStrokesForChar(c) == GetStrokesForChar(((c as int) - 32) as char)
  {
    assert ToUpper(ToUpper(c)) == ToUpper(c);
    if 'a' <= c <= 'z' {
      assert ToUpper(((c as int) - 32) as char) == ToUpper(c);
    }
  }

  /**
   * Every character of the font draws its own strokes, and a character
   * that is neither in the font nor upper-cased into it draws nothing.
   */
  lemma FontLookup(c: char)
    ensures c in LETTER_STROKES ==> GetStrokesForChar(c) == LETTER_STROKES[c]
    ensures c !in LETTER_STROKES && !('a' <= c <= 'z') && c != 'ı' && c != 'ſ' ==> GetStrokesForChar(c) == []
  {
    if c in LETTER_STROKES {
      FontKeys(c);
      assert ToUpper(c) == c;
    }
  }

  // ------------------------------------------------------------ UTF-16 code units

  /**
   * A UTF-16 code unit. JavaScript strings are sequences of these:
   * `text.length` and `text[i]` count and index code units, so a
   * character beyond U+FFFF occupies two of them, a surrogate pair.
   */
  newtype CodeUnit = n: int | 0 <= n < 0x1_0000

  predicate IsSurrogate(u: CodeUnit)
  {
    0xD800 <= u < 0xE000
  }

  predicate IsHighSurrogate(u: CodeUnit)
  {
    0xD800 <= u < 0xDC00
  }

  predicate IsLowSurrogate(u: CodeUnit)
  {
    0xDC00 <= u < 0xE000
  }

  /** The code units of one character: itself below U+10000, else its high and low surrogate. */
  function CharUnits(c: char): (units: seq<CodeUnit>)
    ensures (c as int) < 0x1_0000 ==> units == [(c as int) as CodeUnit] && !IsSurrogate(units[0])
    ensures (c as int) >= 0x1_0000 ==> |units| == 2 && IsHighSurrogate(units[0]) && IsLowSurrogate(units[1])
  {
    var n := c as int;
    if n < 0x1_0000 then [n as CodeUnit]
    else [(0xD800 + (n - 0x1_0000) / 0x400) as CodeUnit, (0xDC00 + (n - 0x1_0000) % 0x400) as CodeUnit]
  }

  /** The UTF-16 encoding of a string, the code units a JavaScript string holds. */
  function Utf16(text: string): (units: seq<CodeUnit>)
    ensures |units| >= |text|
  {
    if text == [] then [] else CharUnits(text[0]) + Utf16(text[1..])
  }

  /** Decodes well-formed UTF-16; a lone surrogate has no character. */
  function FromUtf16(units: seq<CodeUnit>): (text: Option<string>)
    decreases |units|
  {
    if units == [] then Some([])
    else if !IsSurrogate(units[0]) then
      match FromUtf16(units[1..])
      case Some(rest) => Some([(units[0] as int) as char] + rest)
      case None => None
    else if IsHighSurrogate(units[0]) && |units| >= 2 && IsLowSurrogate(units[1]) then
      var n := 0x1_0000 + (units[0] as int - 0xD800) * 0x400 + (units[1] as int - 0xDC00);
      match FromUtf16(units[2..])
      case Some(rest) => Some([n as char] + rest)
      case None => None
    else None
  }

  /** Decoding inverts the encoding. */
  lemma {:induction false} Utf16RoundTrip(text: string)
    ensures FromUtf16(Utf16(text)) == Some(text)
  {
    if text != [] {
      var units := CharUnits(text[0]);
      Utf16RoundTrip(text[1..]);
      assert Utf16(text) == units + Utf16(text[1..]);
      var n := text[0] as int;
      if n < 0x1_0000 {
        assert Utf16(text)[1..] == Utf16(text[1..]);
      } else {
        assert Utf16(text)[2..] == Utf16(text[1..]);
        var m := n - 0x1_0000;
        assert 0x1_0000 + (m / 0x400) * 0x400 + m % 0x400 == n;
      }
      assert [text[0]] + text[1..] == text;
    }
  }

  /** Text wholly below U+10000 has one code unit per character, equal to it. */
  lemma {:induction false} Utf16Bmp(text: string)
    requires forall i :: 0 <= i < |text| ==> (text[i] as int) < 0x1_0000
    ensures |Utf16(text)| == |text|
    ensures forall i :: 0 <= i < |text| ==> Utf16(text)[i] as int == text[i] as int
  {
    if text != [] {
      Utf16Bmp(text[1..]);
      assert Utf16(text) == [(text[0] as int) as CodeUnit] + Utf16(text[1..]);
    }
  }

  /**
   * `getStrokesForChar` of the one-unit string `text[i]`. A surrogate unit
   * is not a key of the font and stays itself under `toUpperCase`, so it
   * draws nothing; any other unit is a character of its own.
   */
  function UnitStrokes(u: CodeUnit): seq<Stroke>
  {
    if IsSurrogate(u) then [] else GetStrokesForChar((u as int) as char)
  }

  // ------------------------------------------------------------ Bresenham walk

  function Abs(n: int): nat
  {
    if n < 0 then -n else n
  }

  function Max(a: int, b: int): int
  {
    if a >= b then a else b
  }

  /**
   * Multiplication of naturals by repeated addition, so that the walk's
   * error term stays within linear arithmetic.
   */
  function Times(a: nat, b: nat): nat
  {
    if a == 0 then 0 else Times(a - 1, b) + b
  }

  lemma {:induction false} TimesRight(a: nat, b: nat)
    ensures Times(a, b + 1) == Times(a, b) + a
  {
    if a > 0 {
      TimesRight(a - 1, b);
    }
  }

  lemma {:induction false} TimesZero(b: nat)
    ensures Times(b, 0) == 0
  {
    if b > 0 {
      TimesZero(b - 1);
    }
  }

  lemma {:induction false} TimesComm(a: nat, b: nat)
    ensures Times(a, b) == Times(b, a)
  {
    if a == 0 {
      TimesZero(b);
    } else {
      TimesComm(a - 1, b);
      TimesRight(b, a - 1);
    }
  }

  lemma {:induction false} TimesMonotone(a: nat, c: nat, b: nat)
    requires a <= c
    ensures Times(a, b) <= Times(c, b)
    decreases c - a
  {
    if a < c {
      TimesMonotone(a, c - 1, b);
    }
  }

  /**
   * The state of the line walk from (0, 0) towards (dx, dy): u and v steps
   * taken along each axis and the error term, which tracks the distance from
   * the ideal line (`err = dx - dy + v*dx - u*dy`) and stays within half
   * the longer axis of it.
   */
  ghost predicate OnTrack(dx: nat, dy: nat, u: int, v: int, err: int)
  {
    && 0 <= u <= dx && 0 <= v <= dy
    && err == dx - dy + Times(v, dx) - Times(u, dy)
    && -Max(dx, dy) <= 2 * (err - dx + dy) <= Max(dx, dy)
    && (dx == dy ==> err == 0)
  }

  function NextU(dy: int, u: int, err: int): int
  {
    if 2 * err > -dy then u + 1 else u
  }

  function NextV(dx: int, v: int, err: int): int
  {
    if 2 * err < dx then v + 1 else v
  }

  function NextErr(dx: int, dy: int, err: int): int
  {
    var e := if 2 * err > -dy then err - dy else err;
    if 2 * err < dx then e + dx else e
  }

  /** At the last column no step goes further right; at the last row none goes further down. */
  lemma NoOvershoot(dx: nat, dy: nat, u: int, v: int, err: int)
    requires OnTrack(dx, dy, u, v, err)
    ensures u == dx && v < dy ==> 2 * err + dy <= 0
    ensures v == dy && u < dx ==> 2 * err >= dx
  {
    TimesComm(dx, dy);
    if u == dx && v < dy {
      TimesMonotone(v, dy - 1, dx);
    }
    if v == dy && u < dx {
      TimesMonotone(u, dx - 1, dy);
    }
  }

  /**
   * One step of the walk short of the end: it stays on track, moves at
   * most one along each axis and at least one along some axis, and always
   * moves along the longer axis.
   */
  lemma StepOnTrack(dx: nat, dy: nat, u: int, v: int, err: int)
    requires OnTrack(dx, dy, u, v, err) && !(u == dx && v == dy)
    ensures var u1, v1 := NextU(dy, u, err), NextV(dx, v, err);
      && OnTrack(dx, dy, u1, v1, NextErr(dx, dy, err))
      && u + v < u1 + v1
      && (dx >= dy ==> u1 == u + 1)
      && (dy >= dx ==> v1 == v + 1)
  {
    NoOvershoot(dx, dy, u, v, err);
  }

  /** A state of the walk: steps taken along each axis and the error term. */
  datatype PenState = PenState(u: int, v: int, err: int)

  /** The states of the walk from the given one until (dx, dy) is reached. */
  function Walk(dx: nat, dy: nat, u: int, v: int, err: int): (w: seq<PenState>)
    requires OnTrack(dx, dy, u, v, err)
    ensures |w| >= 1 && w[0] == PenState(u, v, err)
    ensures w[|w| - 1].u == dx && w[|w| - 1].v == dy
    decreases dx - u + dy - v
  {
    if u == dx && v == dy then [PenState(u, v, err)]
    else
      StepOnTrack(dx, dy, u, v, err);
      var rest := Walk(dx, dy, NextU(dy, u, err), NextV(dx, v, err), NextErr(dx, dy, err));
      [PenState(u, v, err)] + rest
  }

  /** A step of the walk: forward by zero or one along each axis, and not standing still. */
  predicate UnitStep(a: PenState, b: PenState)
  {
    a.u <= b.u <= a.u + 1 && a.v <= b.v <= a.v + 1 && (a.u, a.v) != (b.u, b.v)
  }

  /** Every state of the walk lies between its start and (dx, dy). */
  lemma {:induction false} WalkBounds(dx: nat, dy: nat, u: int, v: int, err: int)
    requires OnTrack(dx, dy, u, v, err)
    ensures forall i :: 0 <= i < |Walk(dx, dy, u, v, err)| ==>
      u <= Walk(dx, dy, u, v, err)[i].u <= dx && v <= Walk(dx, dy, u, v, err)[i].v <= dy
    decreases dx - u + dy - v
  {
    if !(u == dx && v == dy) {
      StepOnTrack(dx, dy, u, v, err);
      var u1, v1, e1 := NextU(dy, u, err), NextV(dx, v, err), NextErr(dx, dy, err);
      WalkBounds(dx, dy, u1, v1, e1);
      var rest := Walk(dx, dy, u1, v1, e1);
      var w := Walk(dx, dy, u, v, err);
      assert w == [PenState(u, v, err)] + rest;
      assert u <= u1 && v <= v1;
      forall i | 0 <= i < |w|
        ensures u <= w[i].u <= dx && v <= w[i].v <= dy
      {
        if i > 0 {
          assert w[i] == rest[i - 1];
        }
      }
    }
  }

  /** Each step of the walk moves by zero or one along each axis, never standing still. */
  lemma {:induction false} WalkSteps(dx: nat, dy: nat, u: int, v: int, err: int)
    requires OnTrack(dx, dy, u, v, err)
    ensures forall i :: 0 <= i < |Walk(dx, dy, u, v, err)| - 1 ==>
      UnitStep(Walk(dx, dy, u, v, err)[i], Walk(dx, dy, u, v, err)[i + 1])
    decreases dx - u + dy - v
  {
    if !(u == dx && v == dy) {
      StepOnTrack(dx, dy, u, v, err);
      var u1, v1, e1 := NextU(dy, u, err), NextV(dx, v, err), NextErr(dx, dy, err);
      WalkSteps(dx, dy, u1, v1, e1);
      var rest := Walk(dx, dy, u1, v1, e1);
      var w := Walk(dx, dy, u, v, err);
      assert w == [PenState(u, v, err)] + rest;
      assert UnitStep(PenState(u, v, err), PenState(u1, v1, e1));
      forall i | 0 <= i < |w| - 1
        ensures UnitStep(w[i], w[i + 1])
      {
        if i > 0 {
          var j := i - 1;
          assert w[i] == rest[j] && w[i + 1] == rest[j + 1];
        }
      }
    }
  }

  /** The walk takes one step per unit of the longer axis. */
  lemma {:induction false} WalkLength(dx: nat, dy: nat, u: int, v: int, err: int)
    requires OnTrack(dx, dy, u, v, err)
    ensures dx >= dy ==> |Walk(dx, dy, u, v, err)| == dx - u + 1
    ensures dy >= dx ==> |Walk(dx, dy, u, v, err)| == dy - v + 1
    decreases dx - u + dy - v
  {
    if !(u == dx && v == dy) {
      StepOnTrack(dx, dy, u, v, err);
      WalkLength(dx, dy, NextU(dy, u, err), NextV(dx, v, err), NextErr(dx, dy, err));
    }
  }

  function Min(a: int, b: int): int
  {
    if a <= b then a else b
  }

  /** `from` moved `k` steps in the direction of `to` (backwards when the two coincide). */
  function Along(from: int, to: int, k: int): int
  {
    if from < to then from + k else from - k
  }

  /** The canvas points of a walk normalised to the first quadrant. */
  function Placed(x1: int, y1: int, x2: int, y2: int, w: seq<PenState>): (cs: seq<Point>)
    ensures |cs| == |w|
  {
    seq(|w|, i requires 0 <= i < |w| => Point(Along(x1, x2, w[i].u), Along(y1, y2, w[i].v)))
  }

  lemma PlacedAppend(x1: int, y1: int, x2: int, y2: int, a: seq<PenState>, b: seq<PenState>)
    ensures Placed(x1, y1, x2, y2, a + b) == Placed(x1, y1, x2, y2, a) + Placed(x1, y1, x2, y2, b)
  {
    assert forall i :: 0 <= i < |a + b| ==>
      Placed(x1, y1, x2, y2, a + b)[i] == (Placed(x1, y1, x2, y2, a) + Placed(x1, y1, x2, y2, b))[i];
  }

  /** The centres the thick pen visits going from (x1, y1) to (x2, y2). */
  function Centres(x1: int, y1: int, x2: int, y2: int): seq<Point>
  {
    var dx, dy := Abs(x2 - x1), Abs(y2 - y1);
    Placed(x1, y1, x2, y2, Walk(dx, dy, 0, 0, dx as int - dy))
  }

  /** Consecutive centres are neighbours: at most one apart on each axis, and distinct. */
  predicate Neighbours(cs: seq<Point>)
  {
    forall i :: 0 <= i < |cs| - 1 ==>
      Abs(cs[i + 1].x - cs[i].x) <= 1 && Abs(cs[i + 1].y - cs[i].y) <= 1 && cs[i] != cs[i + 1]
  }

  /** Every point lies in the rectangle spanned by the two ends, widened by `t - 1` to the right and below. */
  ghost predicate InSpan(ps: seq<Point>, x1: int, y1: int, x2: int, y2: int, t: int)
  {
    forall i :: 0 <= i < |ps| ==>
      Min(x1, x2) <= ps[i].x <= Max(x1, x2) + t - 1 && Min(y1, y2) <= ps[i].y <= Max(y1, y2) + t - 1
  }

  /** Placing a walk of unit steps gives neighbouring points. */
  lemma PlacedNeighbours(x1: int, y1: int, x2: int, y2: int, w: seq<PenState>)
    requires forall i :: 0 <= i < |w| - 1 ==> UnitStep(w[i], w[i + 1])
    ensures Neighbours(Placed(x1, y1, x2, y2, w))
  {
    var cs := Placed(x1, y1, x2, y2, w);
    forall i | 0 <= i < |cs| - 1
      ensures Abs(cs[i + 1].x - cs[i].x) <= 1 && Abs(cs[i + 1].y - cs[i].y) <= 1 && cs[i] != cs[i + 1]
    {
      assert UnitStep(w[i], w[i + 1]);
    }
  }

  /** Placing a walk that stays within (dx, dy) keeps the points between the ends. */
  lemma PlacedInSpan(x1: int, y1: int, x2: int, y2: int, w: seq<PenState>)
    requires forall i :: 0 <= i < |w| ==> 0 <= w[i].u <= Abs(x2 - x1) && 0 <= w[i].v <= Abs(y2 - y1)
    ensures InSpan(Placed(x1, y1, x2, y2, w), x1, y1, x2, y2, 1)
  {
    var cs := Placed(x1, y1, x2, y2, w);
    forall i | 0 <= i < |cs|
      ensures Min(x1, x2) <= cs[i].x <= Max(x1, x2) && Min(y1, y2) <= cs[i].y <= Max(y1, y2)
    {
      assert 0 <= w[i].u <= Abs(x2 - x1) && 0 <= w[i].v <= Abs(y2 - y1);
    }
  }

  /**
   * The centres start at the first end and stop at the second, one per unit
   * of the longer axis.
   */
  lemma CentresEnds(x1: int, y1: int, x2: int, y2: int)
    ensures |Centres(x1, y1, x2, y2)| == Max(Abs(x2 - x1), Abs(y2 - y1)) + 1
    ensures Centres(x1, y1, x2, y2)[0] == Point(x1, y1)
    ensures Centres(x1, y1, x2, y2)[|Centres(x1, y1, x2, y2)| - 1] == Point(x2, y2)
  {
    var dx, dy := Abs(x2 - x1), Abs(y2 - y1);
    var w := Walk(dx, dy, 0, 0, dx as int - dy);
    var cs := Placed(x1, y1, x2, y2, w);
    assert cs == Centres(x1, y1, x2, y2);
    WalkLength(dx, dy, 0, 0, dx as int - dy);
    var last := w[|w| - 1];
    AlongEnd(x1, x2, last.u);
    AlongEnd(y1, y2, last.v);
    assert cs[|cs| - 1] == Point(Along(x1, x2, last.u), Along(y1, y2, last.v));
  }

  /** Consecutive centres are neighbours, and every centre lies between the ends. */
  lemma CentresPath(x1: int, y1: int, x2: int, y2: int)
    ensures Neighbours(Centres(x1, y1, x2, y2))
    ensures InSpan(Centres(x1, y1, x2, y2), x1, y1, x2, y2, 1)
  {
    var dx, dy := Abs(x2 - x1), Abs(y2 - y1);
    var w := Walk(dx, dy, 0, 0, dx as int - dy);
    assert Placed(x1, y1, x2, y2, w) == Centres(x1, y1, x2, y2);
    WalkBounds(dx, dy, 0, 0, dx as int - dy);
    WalkSteps(dx, dy, 0, 0, dx as int - dy);
    assert forall i :: 0 <= i < |w| ==> 0 <= w[i].u <= dx && 0 <= w[i].v <= dy;
    PlacedNeighbours(x1, y1, x2, y2, w);
    PlacedInSpan(x1, y1, x2, y2, w);
  }

  // ------------------------------------------------------------ thick pen

  /** The first `m` cells of column `tx` of the pen square at `c`, top to bottom. */
  function Column(c: Point, tx: int, m: nat): (ps: seq<Point>)
    ensures |ps| == m
    ensures forall i :: 0 <= i < m ==> ps[i] == Point(c.x + tx, c.y + i)
  {
    if m == 0 then [] else Column(c, tx, m - 1) + [Point(c.x + tx, c.y + m - 1)]
  }

  /** The first `n` columns of the `t`-by-`t` pen square at `c`, left to right. */
  function Columns(c: Point, t: nat, n: nat): (ps: seq<Point>)
  {
    if n == 0 then [] else Columns(c, t, n - 1) + Column(c, n - 1, t)
  }

  /** The pen square: `t` by `t` cells with `c` at its top-left corner. */
  function Block(c: Point, t: nat): seq<Point>
  {
    Columns(c, t, t)
  }

  /** The pen square holds exactly the cells within `t` to the right of and below its corner. */
  lemma {:induction false} ColumnsMeaning(c: Point, t: nat, n: nat, p: Point)
    ensures p in Columns(c, t, n) <==> c.x <= p.x < c.x + n && c.y <= p.y < c.y + t
  {
    if n > 0 {
      ColumnsMeaning(c, t, n - 1, p);
      var col := Column(c, n - 1, t);
      if p.x == c.x + n - 1 && c.y <= p.y < c.y + t {
        assert col[p.y - c.y] == p;
      }
    }
  }

  /** The cells `pen` stamps at each centre, one centre after the other. */
  function Stamps(cs: seq<Point>, pen: Point -> seq<Point>): seq<Point>
  {
    if cs == [] then [] else Stamps(cs[..|cs| - 1], pen) + pen(cs[|cs| - 1])
  }

  lemma StampsSnoc(cs: seq<Point>, c: Point, pen: Point -> seq<Point>)
    ensures Stamps(cs + [c], pen) == Stamps(cs, pen) + pen(c)
  {
    assert (cs + [c])[..|cs|] == cs;
  }

  lemma {:induction false} StampsAppend(a: seq<Point>, b: seq<Point>, pen: Point -> seq<Point>)
    ensures Stamps(a + b, pen) == Stamps(a, pen) + Stamps(b, pen)
    decreases |b|
  {
    if b == [] {
      assert a + b == a;
    } else {
      var init, last := b[..|b| - 1], b[|b| - 1];
      assert b == init + [last];
      assert a + b == (a + init) + [last];
      StampsAppend(a, init, pen);
      StampsSnoc(a + init, last, pen);
      StampsSnoc(init, last, pen);
    }
  }

  lemma {:induction false} StampsMeaning(cs: seq<Point>, pen: Point -> seq<Point>, p: Point)
    ensures p in Stamps(cs, pen) <==> exists i :: 0 <= i < |cs| && p in pen(cs[i])
    decreases |cs|
  {
    if cs != [] {
      var init := cs[..|cs| - 1];
      StampsMeaning(init, pen, p);
      if exists i :: 0 <= i < |init| && p in pen(init[i]) {
        var i :| 0 <= i < |init| && p in pen(init[i]);
        assert cs[i] == init[i];
      }
      if exists i :: 0 <= i < |cs| && p in pen(cs[i]) {
        var i :| 0 <= i < |cs| && p in pen(cs[i]);
        if i < |init| {
          assert init[i] == cs[i];
        }
      }
    }
  }

  /** The thick pen: its `t`-by-`t` square at each centre. */
  function Pen(t: nat): Point -> seq<Point>
  {
    c => Block(c, t)
  }

  /** The pen squares of every centre, one after the other. */
  function Blocks(cs: seq<Point>, t: nat): seq<Point>
  {
    Stamps(cs, Pen(t))
  }

  lemma BlocksAppend(a: seq<Point>, b: seq<Point>, t: nat)
    ensures Blocks(a + b, t) == Blocks(a, t) + Blocks(b, t)
  {
    StampsAppend(a, b, Pen(t));
  }

  lemma BlocksMeaning(cs: seq<Point>, t: nat, p: Point)
    ensures p in Blocks(cs, t) <==> exists i :: 0 <= i < |cs| && p in Block(cs[i], t)
  {
    StampsMeaning(cs, Pen(t), p);
    assert forall i :: 0 <= i < |cs| ==> Pen(t)(cs[i]) == Block(cs[i], t);
  }

  // ------------------------------------------------------------ de-duplication

  /** The local state of `drawThickLine`: the points so far and the set of their keys. */
  datatype Drawn = Drawn(points: seq<Point>, added: set<Point>)

  /** `addPoint`: push a point unless its key was added before. */
  function AddPoint(d: Drawn, p: Point): Drawn
  {
    if p in d.added then d else Drawn(d.points + [p], d.added + {p})
  }

  /** `addPoint` on each point in turn. */
  function AddAll(d: Drawn, ps: seq<Point>): Drawn
  {
    if ps == [] then d else AddPoint(AddAll(d, ps[..|ps| - 1]), ps[|ps| - 1])
  }

  lemma {:induction false} AddAllAppend(d: Drawn, a: seq<Point>, b: seq<Point>)
    ensures AddAll(d, a + b) == AddAll(AddAll(d, a), b)
    decreases |b|
  {
    if b == [] {
      assert a + b == a;
    } else {
      assert (a + b)[..|a + b| - 1] == a + b[..|b| - 1];
      AddAllAppend(d, a, b[..|b| - 1]);
    }
  }

  /** The key set names exactly the points pushed, and no point is pushed twice. */
  ghost predicate Coherent(d: Drawn)
  {
    && (forall p :: p in d.added <==> p in d.points)
    && (forall i, j :: 0 <= i < j < |d.points| ==> d.points[i] != d.points[j])
  }

  /**
   * Adding points keeps the state coherent, keeps what was there as a
   * prefix, and ends with exactly the old points and the new ones.
   */
  lemma {:induction false} AddAllMeaning(d: Drawn, ps: seq<Point>)
    requires Coherent(d)
    ensures Coherent(AddAll(d, ps))
    ensures d.points <= AddAll(d, ps).points
    ensures forall p :: p in AddAll(d, ps).points <==> p in d.points || p in ps
    decreases |ps|
  {
    if ps != [] {
      var init := ps[..|ps| - 1];
      AddAllMeaning(d, init);
      assert ps == init + [ps[|ps| - 1]];
    }
  }

  /**
   * `drawThickLine` as a value: the pen squares along the centres, each
   * point kept the first time it appears.
   */
  function ThickLine(x1: int, y1: int, x2: int, y2: int, t: nat): seq<Point>
  {
    AddAll(Drawn([], {}), Blocks(Centres(x1, y1, x2, y2), t)).points
  }

  /** Some pen square at one of the centres covers `p`. */
  ghost predicate Covered(cs: seq<Point>, t: nat, p: Point)
  {
    exists i :: 0 <= i < |cs| && cs[i].x <= p.x < cs[i].x + t && cs[i].y <= p.y < cs[i].y + t
  }

  /** The thick line holds no point twice. */
  lemma ThickLineDistinct(x1: int, y1: int, x2: int, y2: int, t: nat)
    ensures forall i, j :: 0 <= i < j < |ThickLine(x1, y1, x2, y2, t)| ==>
      ThickLine(x1, y1, x2, y2, t)[i] != ThickLine(x1, y1, x2, y2, t)[j]
  {
    AddAllMeaning(Drawn([], {}), Blocks(Centres(x1, y1, x2, y2), t));
  }

  /** The thick line holds exactly the cells of the pen squares at its centres. */
  lemma ThickLineCells(x1: int, y1: int, x2: int, y2: int, t: nat, p: Point)
    ensures p in ThickLine(x1, y1, x2, y2, t) <==> Covered(Centres(x1, y1, x2, y2), t, p)
  {
    var cs := Centres(x1, y1, x2, y2);
    AddAllMeaning(Drawn([], {}), Blocks(cs, t));
    BlocksMeaning(cs, t, p);
    forall i | 0 <= i < |cs|
      ensures p in Block(cs[i], t) <==> cs[i].x <= p.x < cs[i].x + t && cs[i].y <= p.y < cs[i].y + t
    {
      ColumnsMeaning(cs[i], t, t, p);
    }
  }

  /** With a pen of positive width, the line starts with the cell at its first end. */
  lemma ThickLineStart(x1: int, y1: int, x2: int, y2: int, t: nat)
    requires t > 0
    ensures |ThickLine(x1, y1, x2, y2, t)| > 0 && ThickLine(x1, y1, x2, y2, t)[0] == Point(x1, y1)
  {
    var cs := Centres(x1, y1, x2, y2);
    CentresEnds(x1, y1, x2, y2);
    assert cs == [cs[0]] + cs[1..];
    BlocksAppend([cs[0]], cs[1..], t);
    StampsSnoc([], cs[0], Pen(t));
    assert [] + [cs[0]] == [cs[0]];
    assert Blocks([cs[0]], t) == Block(cs[0], t);
    AddAllAppend(Drawn([], {}), Block(cs[0], t), Blocks(cs[1..], t));
    FirstCellFirst(cs[0], t);
    AddAllMeaning(Drawn([], {}), Block(cs[0], t));
    AddAllMeaning(AddAll(Drawn([], {}), Block(cs[0], t)), Blocks(cs[1..], t));
  }

  /** The thick line stays within the span of its ends, widened by the pen. */
  lemma ThickLineInSpan(x1: int, y1: int, x2: int, y2: int, t: nat)
    ensures InSpan(ThickLine(x1, y1, x2, y2, t), x1, y1, x2, y2, t)
  {
    var cs := Centres(x1, y1, x2, y2);
    var ps := ThickLine(x1, y1, x2, y2, t);
    CentresPath(x1, y1, x2, y2);
    forall i | 0 <= i < |ps|
      ensures Min(x1, x2) <= ps[i].x <= Max(x1, x2) + t - 1 && Min(y1, y2) <= ps[i].y <= Max(y1, y2) + t - 1
    {
      ThickLineCells(x1, y1, x2, y2, t, ps[i]);
      var k :| 0 <= k < |cs| && cs[k].x <= ps[i].x < cs[k].x + t && cs[k].y <= ps[i].y < cs[k].y + t;
      assert Min(x1, x2) <= cs[k].x <= Max(x1, x2) && Min(y1, y2) <= cs[k].y <= Max(y1, y2);
    }
  }

  /** Drawing a pen square from scratch puts its corner first. */
  lemma FirstCellFirst(c: Point, t: nat)
    requires t > 0
    ensures |AddAll(Drawn([], {}), Block(c, t)).points| > 0
    ensures AddAll(Drawn([], {}), Block(c, t)).points[0] == c
  {
    var b := Block(c, t);
    ColumnsFirst(c, t, t);
    assert b == [c] + b[1..];
    AddAllAppend(Drawn([], {}), [c], b[1..]);
    assert AddAll(Drawn([], {}), [c]) == Drawn([c], {c});
    AddAllMeaning(Drawn([c], {c}), b[1..]);
  }

  lemma {:induction false} ColumnsFirst(c: Point, t: nat, n: nat)
    requires 0 < t && 0 < n
    ensures |Columns(c, t, n)| > 0 && Columns(c, t, n)[0] == c
  {
    if n > 1 {
      ColumnsFirst(c, t, n - 1);
    } else {
      assert Columns(c, t, 0) == [];
    }
  }

  /** The inner `for` loop of `drawThickLine`: `addPoint` on each cell of column `tx` of the pen square at (x, y). */
  method StampColumn(points: seq<Point>, added: set<Point>, x: int, y: int, tx: int, thickness: nat)
    returns (points': seq<Point>, added': set<Point>)
    ensures Drawn(points', added') == AddAll(Drawn(points, added), Column(Point(x, y), tx, thickness))
  {
    points', added' := points, added;
    for ty := 0 to thickness
      invariant Drawn(points', added') == AddAll(Drawn(points, added), Column(Point(x, y), tx, ty))
    {
      var p := Point(x + tx, y + ty);
      ghost var col := Column(Point(x, y), tx, ty);
      assert Column(Point(x, y), tx, ty + 1) == col + [p];
      assert (col + [p])[..|col|] == col;
      if p !in added' {
        added' := added' + {p};
        points' := points' + [p];
      }
    }
  }

  /** The two nested `for` loops of `drawThickLine`: `addPoint` on each cell of the pen square at (x, y), column by column. */
  method Stamp(points: seq<Point>, added: set<Point>, x: int, y: int, thickness: nat)
    returns (points': seq<Point>, added': set<Point>)
    ensures Drawn(points', added') == AddAll(Drawn(points, added), Block(Point(x, y), thickness))
  {
    points', added' := points, added;
    for tx := 0 to thickness
      invariant Drawn(points', added') == AddAll(Drawn(points, added), Columns(Point(x, y), thickness, tx))
    {
      ghost var before := Drawn(points', added');
      points', added' := StampColumn(points', added', x, y, tx, thickness);
      AddAllAppend(Drawn(points, added), Columns(Point(x, y), thickness, tx), Column(Point(x, y), tx, thickness));
    }
  }

  /** `q` is the state after `p` on the walk, and `p` is not its end. */
  predicate Follows(dx: nat, dy: nat, p: PenState, q: PenState)
  {
    (p.u, p.v) != (dx, dy) && q == PenState(NextU(dy, p.u, p.err), NextV(dx, p.v, p.err), NextErr(dx, dy, p.err))
  }

  /** Each state of the walk but the last is the end of no walk, and is followed by one step of the loop. */
  lemma {:induction false} WalkChain(dx: nat, dy: nat, u: int, v: int, err: int)
    requires OnTrack(dx, dy, u, v, err)
    ensures forall k :: 0 <= k < |Walk(dx, dy, u, v, err)| - 1 ==>
      Follows(dx, dy, Walk(dx, dy, u, v, err)[k], Walk(dx, dy, u, v, err)[k + 1])
    decreases dx - u + dy - v
  {
    if !(u == dx && v == dy) {
      StepOnTrack(dx, dy, u, v, err);
      var u1, v1, e1 := NextU(dy, u, err), NextV(dx, v, err), NextErr(dx, dy, err);
      WalkChain(dx, dy, u1, v1, e1);
      var rest := Walk(dx, dy, u1, v1, e1);
      var w := Walk(dx, dy, u, v, err);
      assert w == [PenState(u, v, err)] + rest;
      forall k | 0 <= k < |w| - 1
        ensures Follows(dx, dy, w[k], w[k + 1])
      {
        if k > 0 {
          var j := k - 1;
          assert w[k] == rest[j] && w[k + 1] == rest[j + 1];
        } else {
          assert w[1] == PenState(u1, v1, e1);
        }
      }
    }
  }

  /** Along one axis, the pen reaches the far end exactly after the full distance, one unit per step. */
  lemma AlongEnd(from: int, to: int, k: int)
    requires 0 <= k <= Abs(to - from)
    ensures Along(from, to, k) == to <==> k == Abs(to - from)
    ensures Along(from, to, k + 1) == Along(from, to, k) + (if from < to then 1 else -1)
  {
  }

  /**
   * What one iteration of `drawThickLine` needs to know about the `k`-th
   * state of the walk: its point is the far end exactly when it is the last
   * state, and otherwise the next state follows from the step rules.
   */
  lemma WalkAt(x1: int, y1: int, x2: int, y2: int, w: seq<PenState>, k: int)
    requires w == Walk(Abs(x2 - x1), Abs(y2 - y1), 0, 0, Abs(x2 - x1) as int - Abs(y2 - y1))
    requires 0 <= k < |w|
    ensures (Along(x1, x2, w[k].u) == x2 && Along(y1, y2, w[k].v) == y2) <==> k == |w| - 1
    ensures k < |w| - 1 ==> Follows(Abs(x2 - x1), Abs(y2 - y1), w[k], w[k + 1])
  {
    var dx, dy := Abs(x2 - x1), Abs(y2 - y1);
    WalkChain(dx, dy, 0, 0, dx as int - dy);
    WalkBounds(dx, dy, 0, 0, dx as int - dy);
    assert 0 <= w[k].u <= dx && 0 <= w[k].v <= dy;
    AlongEnd(x1, x2, w[k].u);
    AlongEnd(y1, y2, w[k].v);
    if k < |w| - 1 {
      assert Follows(dx, dy, w[k], w[k + 1]);
    } else {
      assert w[k].u == dx && w[k].v == dy;
    }
  }

  /** Stamping the pen square at the next centre extends the drawing by one centre. */
  lemma StampNext(d: Drawn, d': Drawn, cs: seq<Point>, k: int, t: nat)
    requires 0 <= k < |cs|
    requires d == AddAll(Drawn([], {}), Blocks(cs[..k], t))
    requires d' == AddAll(d, Block(cs[k], t))
    ensures d' == AddAll(Drawn([], {}), Blocks(cs[..k + 1], t))
  {
    assert cs[..k + 1][..k] == cs[..k];
    AddAllAppend(Drawn([], {}), Blocks(cs[..k], t), Block(cs[k], t));
  }

  /**
   * One step of the pen in `drawThickLine`: the error term decides whether x,
   * y or both move one unit towards the far end, which takes the pen from
   * walk state `p` to the state `q` that follows it.
   */
  method Advance(x1: int, y1: int, x2: int, y2: int, x: int, y: int, err: int,
                 ghost p: PenState, ghost q: PenState)
    returns (x': int, y': int, err': int)
    requires Follows(Abs(x2 - x1), Abs(y2 - y1), p, q)
    requires err == p.err && x == Along(x1, x2, p.u) && y == Along(y1, y2, p.v)
    ensures err' == q.err && x' == Along(x1, x2, q.u) && y' == Along(y1, y2, q.v)
  {
    var dx, dy := Abs(x2 - x1), Abs(y2 - y1);
    var sx := if x1 < x2 then 1 else -1;
    var sy := if y1 < y2 then 1 else -1;
    x', y', err' := x, y, err;
    var e2 := 2 * err;
    if e2 > -(dy as int) {
      err' := err' - dy;
      x' := x' + sx;
    }
    if e2 < dx {
      err' := err' + dx;
      y' := y' + sy;
    }
  }

  /** `drawThickLine`: the Bresenham walk from (x1, y1) to (x2, y2), stamping a `thickness`-square at each step. */
  method DrawThickLine(x1: int, y1: int, x2: int, y2: int, thickness: nat) returns (points: seq<Point>)
    ensures points == ThickLine(x1, y1, x2, y2, thickness)
  {
    points := [];
    var added: set<Point> := {};
    var dx, dy := Abs(x2 - x1), Abs(y2 - y1);
    var err: int := dx as int - dy;
    var x, y := x1, y1;
    ghost var w := Walk(dx, dy, 0, 0, dx as int - dy);
    ghost var cs := Placed(x1, y1, x2, y2, w);
    assert cs == Centres(x1, y1, x2, y2);
    ghost var k := 0;
    while true
      invariant 0 <= k < |w| && |cs| == |w|
      invariant err == w[k].err
      invariant x == Along(x1, x2, w[k].u) && y == Along(y1, y2, w[k].v)
      invariant Drawn(points, added) == AddAll(Drawn([], {}), Blocks(cs[..k], thickness))
      decreases |w| - k
    {
      WalkAt(x1, y1, x2, y2, w, k);
      ghost var before := Drawn(points, added);
      assert cs[k] == Point(x, y);
      points, added := Stamp(points, added, x, y, thickness);
      StampNext(before, Drawn(points, added), cs, k, thickness);
      if x == x2 && y == y2 {
        assert cs[..k + 1] == cs;
        break;
      }
      x, y, err := Advance(x1, y1, x2, y2, x, y, err, w[k], w[k + 1]);
      k := k + 1;
    }
  }

  // ------------------------------------------------------------ slant

  /** The integer square root, counting up from that of `n - 1`. */
  function FloorSqrt(n: nat): nat
  {
    if n == 0 then 0
    else
      var r := FloorSqrt(n - 1);
      if (r + 1) * (r + 1) <= n then r + 1 else r
  }

  /** `FloorSqrt(n)` is the largest `r` with `r * r <= n`. */
  lemma {:induction false} FloorSqrtMeaning(n: nat)
    ensures FloorSqrt(n) * FloorSqrt(n) <= n < (FloorSqrt(n) + 1) * (FloorSqrt(n) + 1)
  {
    if n > 0 {
      FloorSqrtMeaning(n - 1);
      var r := FloorSqrt(n - 1);
      assert (r + 2) * (r + 2) == (r + 1) * (r + 1) + 2 * r + 3;
    }
  }

  /** `c` is the floor of h times the square root of 3, stated in integers. */
  predicate IsFloorRoot3(h: int, c: int)
  {
    if h >= 0 then 0 <= c && c * c <= 3 * h * h < (c + 1) * (c + 1)
    else c < 0 && (c + 1) * (c + 1) < 3 * h * h <= c * c
  }

  /** `c` is the ceiling of h times the square root of 3, stated in integers. */
  predicate IsCeilRoot3(h: int, c: int)
  {
    if h >= 0 then 0 <= c && 3 * h * h <= c * c && (c == 0 || (c - 1) * (c - 1) < 3 * h * h)
    else c <= 0 && c * c <= 3 * h * h < (c - 1) * (c - 1)
  }

  /**
   * `Math.floor(h * slantOffset)` with `slantOffset` = tan 15° = 2 - sqrt 3:
   * the floor of 2h - h sqrt 3 is 2h minus the ceiling of h sqrt 3.
   */
  function SlantFloor(h: int): int
  {
    var r := FloorSqrt(3 * h * h);
    if h < 0 then 2 * h + r
    else if r * r == 3 * h * h then 2 * h - r
    else 2 * h - (r + 1)
  }

  /** `Math.ceil(h * slantOffset)`: 2h minus the floor of h sqrt 3. */
  function SlantCeil(h: int): int
  {
    var r := FloorSqrt(3 * h * h);
    if h >= 0 then 2 * h - r
    else if r * r == 3 * h * h then 2 * h + r
    else 2 * h + r + 1
  }

  /** `SlantFloor` rounds h tan 15° down: 2h minus it is the ceiling of h sqrt 3. */
  lemma SlantFloorMeaning(h: int)
    ensures IsCeilRoot3(h, 2 * h - SlantFloor(h))
  {
    var r := FloorSqrt(3 * h * h);
    FloorSqrtMeaning(3 * h * h);
    CeilRootCases(h, r);
  }

  /** `SlantCeil` rounds h tan 15° up: 2h minus it is the floor of h sqrt 3. */
  lemma SlantCeilMeaning(h: int)
    ensures IsFloorRoot3(h, 2 * h - SlantCeil(h))
  {
    var r := FloorSqrt(3 * h * h);
    FloorSqrtMeaning(3 * h * h);
    FloorRootCases(h, r);
  }

  /** The ceiling of h sqrt 3, from the integer square root `r` of 3h². */
  lemma CeilRootCases(h: int, r: int)
    requires 0 <= r && r * r <= 3 * h * h < (r + 1) * (r + 1)
    ensures IsCeilRoot3(h, if h < 0 then -r else if r * r == 3 * h * h then r else r + 1)
  {
    if h < 0 {
      var c := -r;
      assert c * c == r * r;
      assert (c - 1) * (c - 1) == (r + 1) * (r + 1);
    } else if r * r == 3 * h * h {
      if r > 0 {
        assert (r - 1) * (r - 1) == r * r - 2 * r + 1;
      }
    }
  }

  /** The floor of h sqrt 3, from the integer square root `r` of 3h². */
  lemma FloorRootCases(h: int, r: int)
    requires 0 <= r && r * r <= 3 * h * h < (r + 1) * (r + 1)
    ensures IsFloorRoot3(h, if h >= 0 then r else if r * r == 3 * h * h then -r else -(r + 1))
  {
    if h < 0 {
      if r * r == 3 * h * h {
        MulMonotone(-h, 1, -h);
        assert h * h == (-h) * (-h);
        assert r != 0;
        assert (-r + 1) * (-r + 1) == r * r - 2 * r + 1;
        assert (-r) * (-r) == r * r;
      } else {
        assert -(r + 1) + 1 == -r;
        assert (-r) * (-r) == r * r;
        assert (-(r + 1)) * (-(r + 1)) == (r + 1) * (r + 1);
      }
    }
  }

  /** Each predicate pins down a single integer, so the two slant functions are determined by their contracts. */
  lemma Root3Unique(h: int, c: int, c': int)
    ensures IsFloorRoot3(h, c) && IsFloorRoot3(h, c') ==> c == c'
    ensures IsCeilRoot3(h, c) && IsCeilRoot3(h, c') ==> c == c'
  {
    if c < c' {
      Root3Below(h, c, c');
    } else if c' < c {
      Root3Below(h, c', c);
    }
  }

  lemma Root3Below(h: int, c: int, c': int)
    requires c < c'
    ensures !(IsFloorRoot3(h, c) && IsFloorRoot3(h, c'))
    ensures !(IsCeilRoot3(h, c) && IsCeilRoot3(h, c'))
  {
    if h >= 0 {
      if 0 <= c {
        SquareLe(c + 1, c');
        SquareLe(c, c' - 1);
      }
    } else {
      if c' <= 0 {
        SquareLe(-c', -(c + 1));
        SquareLe(-(c' - 1), -c);
      }
    }
  }

  lemma SquareLe(a: int, b: int)
    requires 0 <= a <= b
    ensures a * a <= b * b
  {
    MulMonotone(a, a, b);
    MulMonotone(b, a, b);
  }

  // ------------------------------------------------------------ text mask

  /** One pixel of a text mask, tagged with its character, its stroke and its place in drawing order. */
  datatype TextPixel = TextPixel(x: int, y: int, charIndex: int, strokeIndex: int, order: int)

  datatype TextMask = TextMask(width: int, height: int, pixels: seq<TextPixel>)

  /** Horizontal advance per character: five grid units and one of spacing. */
  function CharWidth(scale: nat): nat
  {
    5 * scale + scale
  }

  function CharHeight(scale: nat): nat
  {
    5 * scale
  }

  /** The left edge of character `i`: a margin of 5, then one advance per earlier character. */
  function CursorX(i: nat, scale: nat): int
  {
    5 + i * CharWidth(scale)
  }

  /** The canvas ends of a stroke's centre line. */
  datatype Segment = Segment(x1: int, y1: int, x2: int, y2: int)

  /** The ends of a stroke on the canvas: grid points scaled, lowered by the margin and sheared by the slant. */
  function StrokeEnds(cursorX: int, s: Stroke, scale: nat): Segment
  {
    var h := CharHeight(scale);
    Segment(cursorX + s.x1 * scale + SlantFloor(h - s.y1 * scale), 5 + s.y1 * scale,
            cursorX + s.x2 * scale + SlantFloor(h - s.y2 * scale), 5 + s.y2 * scale)
  }

  /** The thick line of a stroke, drawn with a pen two cells wide. */
  function StrokeLine(cursorX: int, s: Stroke, scale: nat): seq<Point>
  {
    var e := StrokeEnds(cursorX, s, scale);
    ThickLine(e.x1, e.y1, e.x2, e.y2, 2)
  }

  /** The points of a stroke, tagged with their character and stroke and numbered from `base`. */
  function Tag(ps: seq<Point>, charIndex: int, strokeIndex: int, base: int): (r: seq<TextPixel>)
    ensures |r| == |ps|
  {
    seq(|ps|, i requires 0 <= i < |ps| => TextPixel(ps[i].x, ps[i].y, charIndex, strokeIndex, base + i))
  }

  /** The thick lines of the strokes of a character whose left edge is `cursorX`. */
  function StrokeLines(cursorX: int, strokes: seq<Stroke>, scale: nat): (lines: seq<seq<Point>>)
    ensures |lines| == |strokes|
  {
    seq(|strokes|, i requires 0 <= i < |strokes| => StrokeLine(cursorX, strokes[i], scale))
  }

  /** The points of the first `n` stroke lines of character `charIndex`, tagged and numbered from `base`. */
  function CharPixels(lines: seq<seq<Point>>, charIndex: int, n: nat, base: int): (r: seq<TextPixel>)
    requires n <= |lines|
    ensures forall i :: 0 <= i < |r| ==> r[i].order == base + i
    ensures forall i :: 0 <= i < |r| ==> r[i].charIndex == charIndex && 0 <= r[i].strokeIndex < n
  {
    if n == 0 then []
    else
      var prev := CharPixels(lines, charIndex, n - 1, base);
      prev + Tag(lines[n - 1], charIndex, n - 1, base + |prev|)
  }

  /** The pixels of the first `m` characters, `lines[c]` holding the stroke lines of character `c`. */
  function TextPixels(lines: seq<seq<seq<Point>>>, m: nat): (r: seq<TextPixel>)
    requires m <= |lines|
    ensures forall i :: 0 <= i < |r| ==> r[i].order == i
    ensures forall i :: 0 <= i < |r| ==> 0 <= r[i].charIndex < m
  {
    if m == 0 then []
    else
      var prev := TextPixels(lines, m - 1);
      prev + CharPixels(lines[m - 1], m - 1, |lines[m - 1]|, |prev|)
  }

  /** The `k`-th tagged point. */
  lemma TagAt(ps: seq<Point>, charIndex: int, strokeIndex: int, base: int, k: int)
    requires 0 <= k < |ps|
    ensures Tag(ps, charIndex, strokeIndex, base)[k] == TextPixel(ps[k].x, ps[k].y, charIndex, strokeIndex, base + k)
  {
  }

  /** Each pixel of a character lies on the stroke line it is tagged with. */
  lemma {:induction false} CharPixelsOnLines(lines: seq<seq<Point>>, charIndex: int, n: nat, base: int)
    requires n <= |lines|
    ensures forall i :: 0 <= i < |CharPixels(lines, charIndex, n, base)| ==>
      0 <= CharPixels(lines, charIndex, n, base)[i].strokeIndex < n && Point(CharPixels(lines, charIndex, n, base)[i].x, CharPixels(lines, charIndex, n, base)[i].y) in lines[CharPixels(lines, charIndex, n, base)[i].strokeIndex]
    decreases n
  {
    if n > 0 {
      CharPixelsOnLines(lines, charIndex, n - 1, base);
      var prev := CharPixels(lines, charIndex, n - 1, base);
      var tail := Tag(lines[n - 1], charIndex, n - 1, base + |prev|);
      var r := CharPixels(lines, charIndex, n, base);
      assert r == prev + tail;
      forall i | 0 <= i < |r|
        ensures 0 <= r[i].strokeIndex < n && Point(r[i].x, r[i].y) in lines[r[i].strokeIndex]
      {
        if i >= |prev| {
          TagAt(lines[n - 1], charIndex, n - 1, base + |prev|, i - |prev|);
          assert r[i] == tail[i - |prev|];
        } else {
          assert r[i] == prev[i];
        }
      }
    }
  }

  /** The pixels of a character come stroke by stroke. */
  lemma {:induction false} CharPixelsOrdered(lines: seq<seq<Point>>, charIndex: int, n: nat, base: int)
    requires n <= |lines|
    ensures forall i, j :: 0 <= i < j < |CharPixels(lines, charIndex, n, base)| ==> CharPixels(lines, charIndex, n, base)[i].strokeIndex <= CharPixels(lines, charIndex, n, base)[j].strokeIndex
    decreases n
  {
    if n > 0 {
      CharPixelsOrdered(lines, charIndex, n - 1, base);
      var prev := CharPixels(lines, charIndex, n - 1, base);
      var tail := Tag(lines[n - 1], charIndex, n - 1, base + |prev|);
      var r := CharPixels(lines, charIndex, n, base);
      assert r == prev + tail;
      forall i, j | 0 <= i < j < |r|
        ensures r[i].strokeIndex <= r[j].strokeIndex
      {
        if j >= |prev| {
          TagAt(lines[n - 1], charIndex, n - 1, base + |prev|, j - |prev|);
          assert r[j] == tail[j - |prev|];
          if i < |prev| {
            assert r[i] == prev[i];
          } else {
            TagAt(lines[n - 1], charIndex, n - 1, base + |prev|, i - |prev|);
            assert r[i] == tail[i - |prev|];
          }
        } else {
          assert r[i] == prev[i] && r[j] == prev[j];
        }
      }
    }
  }

  /** Every point of every stroke line is among the character's pixels, under its stroke's tag. */
  lemma {:induction false} CharPixelsComplete(lines: seq<seq<Point>>, charIndex: int, n: nat, base: int, s: int, k: int)
    requires n <= |lines| && 0 <= s < n && 0 <= k < |lines[s]|
    ensures exists i ::
      && 0 <= i < |CharPixels(lines, charIndex, n, base)|
      && CharPixels(lines, charIndex, n, base)[i].charIndex == charIndex
      && CharPixels(lines, charIndex, n, base)[i].strokeIndex == s
      && Point(CharPixels(lines, charIndex, n, base)[i].x, CharPixels(lines, charIndex, n, base)[i].y) == lines[s][k]
    decreases n
  {
    var prev := CharPixels(lines, charIndex, n - 1, base);
    var tail := Tag(lines[n - 1], charIndex, n - 1, base + |prev|);
    var r := CharPixels(lines, charIndex, n, base);
    assert r == prev + tail;
    if s == n - 1 {
      TagAt(lines[n - 1], charIndex, n - 1, base + |prev|, k);
      assert r[|prev| + k] == tail[k];
    } else {
      CharPixelsComplete(lines, charIndex, n - 1, base, s, k);
      var i :| 0 <= i < |prev| && prev[i].charIndex == charIndex && prev[i].strokeIndex == s && Point(prev[i].x, prev[i].y) == lines[s][k];
      assert r[i] == prev[i];
    }
  }

  /** Each pixel of the first `m` characters lies on the stroke line it is tagged with. */
  lemma {:induction false} TextPixelsOnLines(lines: seq<seq<seq<Point>>>, m: nat)
    requires m <= |lines|
    ensures forall i :: 0 <= i < |TextPixels(lines, m)| ==>
      var p := TextPixels(lines, m)[i];
      0 <= p.strokeIndex < |lines[p.charIndex]| && Point(p.x, p.y) in lines[p.charIndex][p.strokeIndex]
    decreases m
  {
    if m > 0 {
      TextPixelsOnLines(lines, m - 1);
      var prev := TextPixels(lines, m - 1);
      var tail := CharPixels(lines[m - 1], m - 1, |lines[m - 1]|, |prev|);
      var r := TextPixels(lines, m);
      assert r == prev + tail;
      CharPixelsOnLines(lines[m - 1], m - 1, |lines[m - 1]|, |prev|);
      forall i | 0 <= i < |r|
        ensures 0 <= r[i].strokeIndex < |lines[r[i].charIndex]| && Point(r[i].x, r[i].y) in lines[r[i].charIndex][r[i].strokeIndex]
      {
        if i >= |prev| {
          assert r[i] == tail[i - |prev|];
        } else {
          assert r[i] == prev[i];
        }
      }
    }
  }

  /** Pixels come character by character and, within a character, stroke by stroke. */
  lemma {:induction false} TextPixelsOrdered(lines: seq<seq<seq<Point>>>, m: nat)
    requires m <= |lines|
    ensures forall i, j :: 0 <= i < j < |TextPixels(lines, m)| ==>
      var p, q := TextPixels(lines, m)[i], TextPixels(lines, m)[j];
      p.charIndex < q.charIndex || (p.charIndex == q.charIndex && p.strokeIndex <= q.strokeIndex)
    decreases m
  {
    if m > 0 {
      TextPixelsOrdered(lines, m - 1);
      var prev := TextPixels(lines, m - 1);
      var tail := CharPixels(lines[m - 1], m - 1, |lines[m - 1]|, |prev|);
      var r := TextPixels(lines, m);
      assert r == prev + tail;
      CharPixelsOrdered(lines[m - 1], m - 1, |lines[m - 1]|, |prev|);
      forall i, j | 0 <= i < j < |r|
        ensures r[i].charIndex < r[j].charIndex || (r[i].charIndex == r[j].charIndex && r[i].strokeIndex <= r[j].strokeIndex)
      {
        if j >= |prev| {
          assert r[j] == tail[j - |prev|];
          if i < |prev| {
            assert r[i] == prev[i];
          } else {
            assert r[i] == tail[i - |prev|];
          }
        } else {
          assert r[i] == prev[i] && r[j] == prev[j];
        }
      }
    }
  }

  /** Some pixel of `r` is `p`, tagged with character `c` and stroke `s`. */
  predicate HasPixel(r: seq<TextPixel>, c: int, s: int, p: Point)
  {
    exists i :: 0 <= i < |r| && r[i].charIndex == c && r[i].strokeIndex == s && Point(r[i].x, r[i].y) == p
  }

  lemma HasPixelAppend(a: seq<TextPixel>, b: seq<TextPixel>, c: int, s: int, p: Point)
    requires HasPixel(a, c, s, p) || HasPixel(b, c, s, p)
    ensures HasPixel(a + b, c, s, p)
  {
    var r := a + b;
    if HasPixel(a, c, s, p) {
      var i :| 0 <= i < |a| && a[i].charIndex == c && a[i].strokeIndex == s && Point(a[i].x, a[i].y) == p;
      assert r[i] == a[i];
    } else {
      var i :| 0 <= i < |b| && b[i].charIndex == c && b[i].strokeIndex == s && Point(b[i].x, b[i].y) == p;
      assert r[|a| + i] == b[i];
    }
  }

  /** Every point of every stroke line of the first `m` characters is among the pixels, tagged with its character and stroke. */
  lemma {:induction false} TextPixelsComplete(lines: seq<seq<seq<Point>>>, m: nat, c: nat, s: nat, k: nat)
    requires m <= |lines| && c < m && s < |lines[c]| && k < |lines[c][s]|
    ensures HasPixel(TextPixels(lines, m), c, s, lines[c][s][k])
    decreases m
  {
    var prev := TextPixels(lines, m - 1);
    var tail := CharPixels(lines[m - 1], m - 1, |lines[m - 1]|, |prev|);
    assert TextPixels(lines, m) == prev + tail;
    if c == m - 1 {
      CharPixelsComplete(lines[m - 1], m - 1, |lines[m - 1]|, |prev|, s, k);
      assert HasPixel(tail, c, s, lines[c][s][k]);
    } else {
      TextPixelsComplete(lines, m - 1, c, s, k);
    }
    HasPixelAppend(prev, tail, c, s, lines[c][s][k]);
  }

  /** `getStrokesForChar` of each code unit of `text`, the characters the loop over `text.length` visits. */
  function Glyphs(text: string): seq<seq<Stroke>>
  {
    var units := Utf16(text);
    seq(|units|, i requires 0 <= i < |units| => UnitStrokes(units[i]))
  }

  /** Below U+10000 every character is one glyph slot and draws its own strokes. */
  lemma GlyphsBmp(text: string)
    requires forall i :: 0 <= i < |text| ==> (text[i] as int) < 0x1_0000
    ensures |Glyphs(text)| == |text|
    ensures forall i :: 0 <= i < |text| ==> Glyphs(text)[i] == GetStrokesForChar(text[i])
  {
    Utf16Bmp(text);
    forall i | 0 <= i < |text|
      ensures Glyphs(text)[i] == GetStrokesForChar(text[i])
    {
      assert (Utf16(text)[i] as int) as char == text[i];
    }
  }

  /**
   * A character beyond U+FFFF takes two glyph slots, both blank, so it
   * advances the cursor by two character widths and draws nothing, and
   * what follows it draws at its own index in code units.
   */
  lemma GlyphsAstral(pre: string, c: char, post: string)
    requires (c as int) >= 0x1_0000
    ensures Glyphs(pre + [c] + post) == Glyphs(pre) + [[], []] + Glyphs(post)
  {
    Utf16Append(pre, [c]);
    Utf16Append(pre + [c], post);
    assert Utf16([c]) == CharUnits(c) + Utf16([c][1..]);
    var units := Utf16(pre + [c] + post);
    var mid := CharUnits(c);
    assert units == Utf16(pre) + mid + Utf16(post);
    var g, want := Glyphs(pre + [c] + post), Glyphs(pre) + [[], []] + Glyphs(post);
    assert |g| == |want|;
    forall i | 0 <= i < |g|
      ensures g[i] == want[i]
    {
      if i < |Utf16(pre)| {
        assert units[i] == Utf16(pre)[i];
      } else if i < |Utf16(pre)| + 2 {
        assert units[i] == mid[i - |Utf16(pre)|];
      } else {
        assert units[i] == Utf16(post)[i - |Utf16(pre)| - 2];
      }
    }
  }

  /** The encoding of a concatenation is the concatenation of the encodings. */
  lemma {:induction false} Utf16Append(a: string, b: string)
    ensures Utf16(a + b) == Utf16(a) + Utf16(b)
  {
    if a != [] {
      assert (a + b)[0] == a[0];
      assert (a + b)[1..] == a[1..] + b;
      Utf16Append(a[1..], b);
      assert Utf16(a + b) == CharUnits(a[0]) + Utf16(a[1..] + b);
    } else {
      assert a + b == b;
    }
  }

  /** The stroke lines of each character, character `c` placed at its cursor. */
  function GlyphLines(glyphs: seq<seq<Stroke>>, scale: nat): seq<seq<seq<Point>>>
  {
    seq(|glyphs|, c requires 0 <= c < |glyphs| => StrokeLines(CursorX(c, scale), glyphs[c], scale))
  }

  /** The pixels of a text whose characters have strokes `glyphs`. */
  function MaskPixels(glyphs: seq<seq<Stroke>>, scale: nat): seq<TextPixel>
  {
    TextPixels(GlyphLines(glyphs, scale), |glyphs|)
  }

  /** The mask `generateTextMask` returns: the canvas size, with room for the slant, and the pixels. */
  function TextMaskOf(text: string, scale: nat): TextMask
  {
    var extraWidth := SlantCeil(CharHeight(scale)) + 5;
    TextMask(|Utf16(text)| * CharWidth(scale) + 10 + extraWidth, CharHeight(scale) + 10, MaskPixels(Glyphs(text), scale))
  }

  /** Character `c`'s stroke lines: one thick line per stroke, placed at its cursor. */
  lemma GlyphLinesAt(glyphs: seq<seq<Stroke>>, scale: nat, c: int, s: int)
    requires 0 <= c < |glyphs|
    ensures |GlyphLines(glyphs, scale)[c]| == |glyphs[c]|
    ensures 0 <= s < |glyphs[c]| ==>
      GlyphLines(glyphs, scale)[c][s] == StrokeLine(CursorX(c, scale), glyphs[c][s], scale)
  {
    assert GlyphLines(glyphs, scale)[c] == StrokeLines(CursorX(c, scale), glyphs[c], scale);
  }

  /** `p` lies on the thick line of the character and stroke it is tagged with, the character placed at its cursor. */
  predicate OnStroke(glyphs: seq<seq<Stroke>>, scale: nat, p: TextPixel)
  {
    && 0 <= p.charIndex < |glyphs|
    && 0 <= p.strokeIndex < |glyphs[p.charIndex]|
    && Point(p.x, p.y) in StrokeLine(CursorX(p.charIndex, scale), glyphs[p.charIndex][p.strokeIndex], scale)
  }

  /** Every pixel of the mask lies on the stroke it is tagged with. */
  lemma MaskOnStrokes(glyphs: seq<seq<Stroke>>, scale: nat)
    ensures forall i :: 0 <= i < |MaskPixels(glyphs, scale)| ==> OnStroke(glyphs, scale, MaskPixels(glyphs, scale)[i])
  {
    var lines := GlyphLines(glyphs, scale);
    var r := MaskPixels(glyphs, scale);
    TextPixelsOnLines(lines, |glyphs|);
    forall i | 0 <= i < |r|
      ensures OnStroke(glyphs, scale, r[i])
    {
      GlyphLinesAt(glyphs, scale, r[i].charIndex, r[i].strokeIndex);
    }
  }

  /** A character without strokes, such as a space or one the font does not know, contributes no pixel. */
  lemma MaskSkipsBlank(glyphs: seq<seq<Stroke>>, scale: nat, c: int)
    requires 0 <= c < |glyphs| && glyphs[c] == []
    ensures forall i :: 0 <= i < |MaskPixels(glyphs, scale)| ==> MaskPixels(glyphs, scale)[i].charIndex != c
  {
    MaskOnStrokes(glyphs, scale);
  }

  /** The mask lists pixels character by character and, within a character, stroke by stroke. */
  lemma MaskOrdered(glyphs: seq<seq<Stroke>>, scale: nat)
    ensures forall i, j :: 0 <= i < j < |MaskPixels(glyphs, scale)| ==>
      var p, q := MaskPixels(glyphs, scale)[i], MaskPixels(glyphs, scale)[j];
      p.charIndex < q.charIndex || (p.charIndex == q.charIndex && p.strokeIndex <= q.strokeIndex)
  {
    TextPixelsOrdered(GlyphLines(glyphs, scale), |glyphs|);
  }

  /** Every point of every stroke's thick line is in the mask, tagged with its character and stroke. */
  lemma MaskComplete(glyphs: seq<seq<Stroke>>, scale: nat, c: int, s: int, k: int)
    requires 0 <= c < |glyphs| && 0 <= s < |glyphs[c]|
    requires 0 <= k < |StrokeLine(CursorX(c, scale), glyphs[c][s], scale)|
    ensures exists i ::
      && 0 <= i < |MaskPixels(glyphs, scale)|
      && MaskPixels(glyphs, scale)[i].charIndex == c && MaskPixels(glyphs, scale)[i].strokeIndex == s
      && Point(MaskPixels(glyphs, scale)[i].x, MaskPixels(glyphs, scale)[i].y)
         == StrokeLine(CursorX(c, scale), glyphs[c][s], scale)[k]
  {
    var lines := GlyphLines(glyphs, scale);
    GlyphLinesAt(glyphs, scale, c, s);
    TextPixelsComplete(lines, |glyphs|, c, s, k);
    var r := MaskPixels(glyphs, scale);
    var i :| 0 <= i < |r| && r[i].charIndex == c && r[i].strokeIndex == s && Point(r[i].x, r[i].y) == lines[c][s][k];
  }

  /** The `points.forEach` callback of `generateTextMask`: push each point, numbered by the running order. */
  method PushPoints(pixels: seq<TextPixel>, globalOrder: int, points: seq<Point>, charIndex: int, strokeIndex: int)
    returns (pixels': seq<TextPixel>, globalOrder': int)
    requires globalOrder == |pixels|
    ensures pixels' == pixels + Tag(points, charIndex, strokeIndex, |pixels|)
    ensures globalOrder' == |pixels'|
  {
    pixels', globalOrder' := pixels, globalOrder;
    for i := 0 to |points|
      invariant pixels' == pixels + Tag(points[..i], charIndex, strokeIndex, |pixels|)
      invariant globalOrder' == |pixels'|
    {
      assert Tag(points[..i + 1], charIndex, strokeIndex, |pixels|)
        == Tag(points[..i], charIndex, strokeIndex, |pixels|) + [TextPixel(points[i].x, points[i].y, charIndex, strokeIndex, |pixels| + i)];
      pixels' := pixels' + [TextPixel(points[i].x, points[i].y, charIndex, strokeIndex, globalOrder')];
      globalOrder' := globalOrder' + 1;
    }
    assert points[..|points|] == points;
  }

  /** The first half of the `strokes.forEach` callback of `generateTextMask`: place the stroke and draw its thick line. */
  method DrawStroke(cursorX: int, stroke: Stroke, scale: nat) returns (points: seq<Point>)
    ensures points == StrokeLine(cursorX, stroke, scale)
  {
    var charHeight := 5 * scale;
    var baseY1 := 5 + stroke.y1 * scale;
    var baseY2 := 5 + stroke.y2 * scale;
    var slantX1 := SlantFloor(charHeight - stroke.y1 * scale);
    var slantX2 := SlantFloor(charHeight - stroke.y2 * scale);
    points := DrawThickLine(cursorX + stroke.x1 * scale + slantX1, baseY1,
                            cursorX + stroke.x2 * scale + slantX2, baseY2, 2);
    assert StrokeEnds(cursorX, stroke, scale)
      == Segment(cursorX + stroke.x1 * scale + slantX1, baseY1, cursorX + stroke.x2 * scale + slantX2, baseY2);
  }

  /** The drawing half of the `strokes.forEach` callback, for every stroke of one character in turn. */
  method DrawStrokes(strokes: seq<Stroke>, cursorX: int, scale: nat) returns (lines: seq<seq<Point>>)
    ensures lines == StrokeLines(cursorX, strokes, scale)
  {
    lines := [];
    for strokeIndex := 0 to |strokes|
      invariant |lines| == strokeIndex
      invariant forall j :: 0 <= j < strokeIndex ==> lines[j] == StrokeLine(cursorX, strokes[j], scale)
    {
      var points := DrawStroke(cursorX, strokes[strokeIndex], scale);
      lines := lines + [points];
    }
  }

  /** The pushing half of the `strokes.forEach` callback, for every stroke line of one character in turn. */
  method PushLines(pixels: seq<TextPixel>, globalOrder: int, lines: seq<seq<Point>>, charIndex: int)
    returns (pixels': seq<TextPixel>, globalOrder': int)
    requires globalOrder == |pixels|
    ensures pixels' == pixels + CharPixels(lines, charIndex, |lines|, |pixels|)
    ensures globalOrder' == |pixels'|
  {
    pixels', globalOrder' := pixels, globalOrder;
    for strokeIndex := 0 to |lines|
      invariant pixels' == pixels + CharPixels(lines, charIndex, strokeIndex, |pixels|)
      invariant globalOrder' == |pixels'|
    {
      pixels', globalOrder' := PushPoints(pixels', globalOrder', lines[strokeIndex], charIndex, strokeIndex);
    }
  }

  /** The loop of `generateTextMask` over the characters, given the strokes of each. */
  method DrawText(glyphs: seq<seq<Stroke>>, scale: nat) returns (pixels: seq<TextPixel>)
    ensures pixels == MaskPixels(glyphs, scale)
  {
    var charWidth := 5 * scale + scale;
    pixels := [];
    var cursorX := 5;
    var globalOrder := 0;
    ghost var lines := GlyphLines(glyphs, scale);
    for charIndex := 0 to |glyphs|
      invariant pixels == TextPixels(lines, charIndex)
      invariant cursorX == CursorX(charIndex, scale)
      invariant globalOrder == |pixels|
    {
      var strokeLines := DrawStrokes(glyphs[charIndex], cursorX, scale);
      assert strokeLines == lines[charIndex];
      pixels, globalOrder := PushLines(pixels, globalOrder, strokeLines, charIndex);
      assert (charIndex + 1) * charWidth == charIndex * charWidth + charWidth;
      cursorX := cursorX + charWidth;
    }
  }

  /** The scale `generateTextMask` draws at when its caller gives none. */
  const DEFAULT_TEXT_SCALE: nat := 3

  /**
   * `generateTextMask`: every stroke of every code unit of `text` drawn as
   * a thick line, its points numbered in drawing order.
   */
  method GenerateTextMask(text: string, scale: nat := DEFAULT_TEXT_SCALE) returns (mask: TextMask)
    ensures mask == TextMaskOf(text, scale)
  {
    var charWidth := 5 * scale + scale;
    var charHeight := 5 * scale;
    var extraWidth := SlantCeil(charHeight) + 5;
    var width := |Utf16(text)| * charWidth + 10 + extraWidth;
    var height := charHeight + 10;
    var glyphs := Glyphs(text);
    var pixels := DrawText(glyphs, scale);
    mask := TextMask(width, height, pixels);
  }

}
