/**
 * String helpers used by the controller and the WebSocket layer:
 * substring search (`String.prototype.includes`), decimal rendering
 * (template literals of integers) and decimal parsing (`parseInt` on a
 * string that already matched `-?\d+`).
 */
module Strings {

  /** `s.includes(t)`: some window of `s` starting at or after `i` equals `t`. */
  function ContainsFrom(s: string, t: string, i: nat): bool
    decreases |s| - i
  {
    if i + |t| > |s| then false
    else s[i..i + |t|] == t || ContainsFrom(s, t, i + 1)
  }

  function Contains(s: string, t: string): bool
  {
    ContainsFrom(s, t, 0)
  }

  /** A string whose characters all differ from `t`'s first one does not contain `t`. */
  lemma {:induction false} NotContainsWithoutHead(s: string, t: string, i: nat)
    requires |t| > 0
    requires forall k :: 0 <= k < |s| ==> s[k] != t[0]
    ensures !ContainsFrom(s, t, i)
    decreases |s| - i
  {
    if i + |t| <= |s| {
      assert s[i..i + |t|][0] == s[i];
      NotContainsWithoutHead(s, t, i + 1);
    }
  }

  /**
   * A string in which `t`'s first character is never followed by `t`'s
   * second one does not contain `t`.
   */
  lemma {:induction false} NotContainsWithoutPair(s: string, t: string, i: nat)
    requires |t| > 1
    requires forall k :: 0 <= k < |s| - 1 ==> !(s[k] == t[0] && s[k + 1] == t[1])
    ensures !ContainsFrom(s, t, i)
    decreases |s| - i
  {
    if i + |t| <= |s| {
      assert s[i..i + |t|][0] == s[i] && s[i..i + |t|][1] == s[i + 1];
      NotContainsWithoutPair(s, t, i + 1);
    }
  }

  /** A window equal to `t` at or after `i` makes `s` contain `t` from `i` on. */
  lemma {:induction false} ContainsAt(s: string, t: string, i: nat, k: nat)
    requires i <= k && k + |t| <= |s| && s[k..k + |t|] == t
    ensures ContainsFrom(s, t, i)
    decreases k - i
  {
    if i < k {
      ContainsAt(s, t, i + 1, k);
    }
  }

  /** A character absent from both halves is absent from the concatenation. */
  lemma AbsentFromConcat(a: string, b: string, c: char)
    requires forall k :: 0 <= k < |a| ==> a[k] != c
    requires forall k :: 0 <= k < |b| ==> b[k] != c
    ensures forall k :: 0 <= k < |a + b| ==> (a + b)[k] != c
  {
    forall k | 0 <= k < |a + b|
      ensures (a + b)[k] != c
    {
      if k >= |a| {
        assert (a + b)[k] == b[k - |a|];
      }
    }
  }

  /** A pair absent from both halves, and not straddling them, is absent from the concatenation. */
  lemma PairAbsentFromConcat(a: string, b: string, c: char, d: char)
    requires |a| > 0 && a[|a| - 1] != c
    requires forall k :: 0 <= k < |a| - 1 ==> !(a[k] == c && a[k + 1] == d)
    requires forall k :: 0 <= k < |b| - 1 ==> !(b[k] == c && b[k + 1] == d)
    ensures forall k :: 0 <= k < |a + b| - 1 ==> !((a + b)[k] == c && (a + b)[k + 1] == d)
  {
    forall k | 0 <= k < |a + b| - 1
      ensures !((a + b)[k] == c && (a + b)[k + 1] == d)
    {
      if k >= |a| {
        assert (a + b)[k] == b[k - |a|] && (a + b)[k + 1] == b[k + 1 - |a|];
      } else if k < |a| - 1 {
        assert (a + b)[k] == a[k] && (a + b)[k + 1] == a[k + 1];
      }
    }
  }

  /** A string shorter than `t` cannot contain it. */
  lemma ShorterNotContains(s: string, t: string)
    requires |s| < |t|
    ensures !Contains(s, t)
  {
  }

  predicate IsDigit(c: char)
  {
    '0' <= c <= '9'
  }

  predicate AllDigits(s: string)
  {
    forall i :: 0 <= i < |s| ==> IsDigit(s[i])
  }

  function DigitChar(d: nat): (c: char)
    requires d < 10
    ensures IsDigit(c)
  {
    "0123456789"[d]
  }

  function DigitValue(c: char): nat
    requires IsDigit(c)
  {
    (c as int) - ('0' as int)
  }

  /** Decimal rendering of a natural number, without leading zeros. */
  function NatToString(n: nat): (s: string)
    ensures |s| > 0 && AllDigits(s)
    ensures |s| > 1 ==> s[0] != '0'
  {
    if n < 10 then [DigitChar(n)]
    else NatToString(n / 10) + [DigitChar(n % 10)]
  }

  /** Decimal rendering of an integer, `-` in front of negative ones. */
  function IntToString(n: int): string
  {
    if n < 0 then "-" + NatToString(-n) else NatToString(n)
  }

  /** The value of a non-empty digit string (leading zeros allowed). */
  function DigitsValue(s: string): nat
    requires AllDigits(s)
  {
    if s == [] then 0
    else DigitsValue(s[..|s| - 1]) * 10 + DigitValue(s[|s| - 1])
  }

  /** `parseInt` on a string that matches `-?\d+`. */
  function ParseSigned(s: string): int
    requires IsSignedDecimal(s)
  {
    if s[0] == '-' then -(DigitsValue(s[1..]) as int) else DigitsValue(s)
  }

  /** Strings matching `-?\d+`. */
  predicate IsSignedDecimal(s: string)
  {
    if |s| > 0 && s[0] == '-' then |s| > 1 && AllDigits(s[1..])
    else |s| > 0 && AllDigits(s)
  }

  lemma {:induction false} NatToStringRoundTrip(n: nat)
    ensures DigitsValue(NatToString(n)) == n
  {
    var s := NatToString(n);
    if n < 10 {
      assert s[..0] == [];
    } else {
      NatToStringRoundTrip(n / 10);
      assert s[..|s| - 1] == NatToString(n / 10);
    }
  }

  /** Rendering an integer and parsing it back yields the integer. */
  lemma IntToStringRoundTrip(n: int)
    ensures IsSignedDecimal(IntToString(n))
    ensures ParseSigned(IntToString(n)) == n
  {
    if n < 0 {
      NatToStringRoundTrip(-n);
      NegatedRoundTrip(NatToString(-n), -n);
    } else {
      var d := NatToString(n);
      NatToStringRoundTrip(n);
      assert IsDigit(d[0]);
    }
  }

  /** A digit string with value `m`, behind a minus sign, parses as `-m`. */
  lemma NegatedRoundTrip(d: string, m: nat)
    requires |d| > 0 && AllDigits(d) && DigitsValue(d) == m
    ensures IsSignedDecimal("-" + d)
    ensures ParseSigned("-" + d) == -(m as int)
  {
    assert ("-" + d)[1..] == d;
  }

}
