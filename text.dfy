/**
 * Python string helpers shared by the text-processing parts of the model:
 * decimal rendering and parsing of integers (`str(n)` / `int(s)`), substring
 * tests (`t in s`), splitting at a character and character replacement.
 */
module Text {
  import opened Wrappers

  predicate IsDigit(c: char)
  {
    '0' <= c <= '9'
  }

  predicate AllDigits(s: string)
  {
    forall i :: 0 <= i < |s| ==> IsDigit(s[i])
  }

  /** The form `str(n)` gives a natural number: digits only, no leading zero unless the number is 0. */
  predicate CanonicalDigits(s: string)
  {
    0 < |s| && AllDigits(s) && (s[0] == '0' ==> |s| == 1)
  }

  function DigitChar(d: nat): (c: char)
    requires d < 10
    ensures IsDigit(c) && (c == '0' <==> d == 0)
  {
    "0123456789"[d]
  }

  function DigitValue(c: char): (d: nat)
    requires IsDigit(c)
    ensures d < 10 && DigitChar(d) == c
  {
    (c as int - '0' as int) as nat
  }

  /** `str(n)` for a natural number. */
  function NatToString(n: nat): (s: string)
    ensures CanonicalDigits(s)
  {
    if n < 10 then [DigitChar(n)] else NatToString(n / 10) + [DigitChar(n % 10)]
  }

  /** Reading a written digit gives it back. */
  lemma DigitCharValue(d: nat)
    requires d < 10
    ensures DigitValue(DigitChar(d)) == d
  {
    assert forall i :: 0 <= i < 10 ==> "0123456789"[i] as int == '0' as int + i;
  }

  /** `int(s)` for a string of decimal digits. */
  function DigitsValue(s: string): nat
    requires AllDigits(s)
  {
    if |s| == 0 then 0 else 10 * DigitsValue(s[..|s| - 1]) + DigitValue(s[|s| - 1])
  }

  /** Reading back what `str` wrote gives the number again. */
  lemma {:induction false} NatToStringRoundTrip(n: nat)
    ensures DigitsValue(NatToString(n)) == n
  {
    var s := NatToString(n);
    if n >= 10 {
      NatToStringRoundTrip(n / 10);
      assert s[..|s| - 1] == NatToString(n / 10);
    } else {
      assert s[..|s| - 1] == [];
    }
  }

  lemma {:induction false} CanonicalPositive(s: string)
    requires CanonicalDigits(s) && s[0] != '0'
    ensures DigitsValue(s) > 0
  {
    if |s| > 1 {
      var p := s[..|s| - 1];
      assert p[0] == s[0];
      CanonicalPositive(p);
    }
  }

  /** Writing back a canonical digit string that was read gives the same string. */
  lemma {:induction false} DigitsRoundTrip(s: string)
    requires CanonicalDigits(s)
    ensures NatToString(DigitsValue(s)) == s
  {
    if |s| > 1 {
      var p := s[..|s| - 1];
      assert p[0] == s[0];
      DigitsRoundTrip(p);
      CanonicalPositive(p);
      var v, d := DigitsValue(p), DigitValue(s[|s| - 1]);
      var n := 10 * v + d;
      assert DigitsValue(s) == n;
      assert n / 10 == v && n % 10 == d;
      assert NatToString(n) == NatToString(v) + [DigitChar(d)];
      assert s == p + [s[|s| - 1]];
    }
  }

  /** `str(i)` for any integer. */
  function IntToString(i: int): (s: string)
    ensures 0 < |s|
    ensures i >= 0 ==> CanonicalDigits(s)
    ensures i < 0 ==> s[0] == '-' && CanonicalDigits(s[1..])
  {
    if i < 0 then "-" + NatToString(-i) else NatToString(i)
  }

  /**
   * `int(s)` on the decimal forms `str` produces: digits with an optional
   * leading minus sign; `None` where Python raises `ValueError`.
   */
  function ParseInt(s: string): (r: Option<int>)
    ensures r.Some? <==> (0 < |s| && AllDigits(s)) || (1 < |s| && s[0] == '-' && AllDigits(s[1..]))
  {
    if 0 < |s| && AllDigits(s) then Some(DigitsValue(s))
    else if 1 < |s| && s[0] == '-' && AllDigits(s[1..]) then Some(0 - DigitsValue(s[1..]) as int)
    else None
  }

  /** `int(str(i)) == i`. */
  lemma IntToStringRoundTrip(i: int)
    ensures ParseInt(IntToString(i)) == Some(i)
  {
    if i < 0 {
      NatToStringRoundTrip(-i);
      assert IntToString(i)[1..] == NatToString(-i);
    } else {
      NatToStringRoundTrip(i);
    }
  }

  /** The longest prefix of `s` made of decimal digits (what a greedy `\d+` consumes). */
  function DigitPrefix(s: string): (r: string)
    ensures r <= s && AllDigits(r)
    ensures |r| == |s| || !IsDigit(s[|r|])
  {
    if |s| == 0 || !IsDigit(s[0]) then [] else [s[0]] + DigitPrefix(s[1..])
  }

  /** The digit prefix of a digit string followed by a non-digit is that digit string. */
  lemma {:induction false} DigitPrefixOf(digits: string, rest: string)
    requires AllDigits(digits)
    requires |rest| == 0 || !IsDigit(rest[0])
    ensures DigitPrefix(digits + rest) == digits
  {
    if |digits| > 0 {
      assert (digits + rest)[1..] == digits[1..] + rest;
      DigitPrefixOf(digits[1..], rest);
      assert [digits[0]] + digits[1..] == digits;
    } else {
      assert digits + rest == rest;
    }
  }

  /** `t` occurs in `s` starting at position `i`. */
  predicate OccursAt(s: string, t: string, i: nat)
  {
    i + |t| <= |s| && s[i..i + |t|] == t
  }

  /** `t in s` for strings: `t` occurs in `s` at some position. */
  ghost predicate Contains(s: string, t: string)
  {
    exists i: nat :: OccursAt(s, t, i)
  }

  /** `t in s`, computed by scanning the start positions. */
  function ContainsFrom(s: string, t: string, from: nat): (r: bool)
    requires from <= |s|
    ensures r <==> exists i: nat :: from <= i && OccursAt(s, t, i)
    decreases |s| - from
  {
    if from + |t| > |s| then false
    else if s[from..from + |t|] == t then assert OccursAt(s, t, from); true
    else ContainsFrom(s, t, from + 1)
  }

  function Substring(s: string, t: string): (r: bool)
    ensures r <==> Contains(s, t)
  {
    ContainsFrom(s, t, 0)
  }

  /** A string no longer than `t` contains `t` only by being `t`. */
  lemma ContainsShort(s: string, t: string)
    requires |s| <= |t|
    ensures Contains(s, t) <==> s == t
  {
    if s == t {
      assert OccursAt(s, t, 0);
    }
    if Contains(s, t) {
      var i: nat :| OccursAt(s, t, i);
      assert s[i..i + |t|] == s;
    }
  }

  lemma ContainsConcat(a: string, t: string, b: string)
    ensures Contains(a + t + b, t)
  {
    assert OccursAt(a + t + b, t, |a|);
  }

  /** The first occurrence of `c` in `s`, splitting `s` around it. */
  function SplitFirst(s: string, c: char): (r: Option<(string, string)>)
    ensures r.None? <==> c !in s
    ensures r.Some? ==> s == r.value.0 + [c] + r.value.1 && c !in r.value.0
  {
    if |s| == 0 then None
    else if s[0] == c then Some(([], s[1..]))
    else match SplitFirst(s[1..], c)
      case None => None
      case Some(p) => Some(([s[0]] + p.0, p.1))
  }

  /** Splitting a string at a character its head lacks recovers the head and the tail. */
  lemma {:induction false} SplitFirstAt(a: string, c: char, b: string)
    requires c !in a
    ensures SplitFirst(a + [c] + b, c) == Some((a, b))
  {
    if |a| > 0 {
      assert (a + [c] + b)[1..] == a[1..] + [c] + b;
      SplitFirstAt(a[1..], c, b);
      assert [a[0]] + a[1..] == a;
    } else {
      assert (a + [c] + b)[1..] == b;
    }
  }

  /** Every `from` character replaced by `to` (`s.replace(from, to)` for single characters). */
  function ReplaceChar(s: string, from: char, to: char): (r: string)
    ensures |r| == |s|
    ensures forall i :: 0 <= i < |s| ==> r[i] == (if s[i] == from then to else s[i])
  {
    seq(|s|, i requires 0 <= i < |s| => if s[i] == from then to else s[i])
  }

  /** `s.rstrip("\n")`: every trailing newline removed. */
  function StripNewlines(s: string): (r: string)
    ensures r <= s
    ensures |r| == 0 || r[|r| - 1] != '\n'
    ensures forall i :: |r| <= i < |s| ==> s[i] == '\n'
  {
    if |s| > 0 && s[|s| - 1] == '\n' then StripNewlines(s[..|s| - 1]) else s
  }
}
