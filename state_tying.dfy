/**
 * RASR allophone lines `phon{prev+next}flags.S idx` and the state-tying rewrites
 * built on them: the end-of-word offset, the diphone mixed-radix index, the dense
 * one-state renumbering and the duplication of states.
 */
module StateTying {
  import opened Wrappers
  import opened Text
  import opened TensorOps

  /** One allophone of a state-tying file with its HMM state and its tied index. */
  datatype Allophone = Allophone(phon: string, prev: string, next: string,
                                 initial: bool, final: bool, state: int, idx: int)

  /** The flag suffix of an allophone: "@i" when word-initial, then "@f" when word-final. */
  function FlagsOf(initial: bool, final: bool): (f: string)
    ensures f == "" <==> !initial && !final
    ensures |f| == (if initial then 2 else 0) + (if final then 2 else 0)
  {
    (if initial then "@i" else "") + (if final then "@f" else "")
  }

  function Flags(a: Allophone): string
  {
    FlagsOf(a.initial, a.final)
  }

  /** Reading the flags back with `"@i" in flags` and `"@f" in flags` recovers both booleans. */
  lemma FlagsRecover(initial: bool, final: bool)
    ensures Substring(FlagsOf(initial, final), "@i") == initial
    ensures Substring(FlagsOf(initial, final), "@f") == final
  {
    assert "@i" + "@f" == "@i@f" && "@i" + "" == "@i" && "" + "@f" == "@f" && "" + "" == "";
    FlagRecovered(FlagsOf(initial, final), "@i", initial);
    FlagRecovered(FlagsOf(initial, final), "@f", final);
  }

  /** A flag string of the allophone form contains a two-character flag exactly when the flag was set. */
  lemma FlagRecovered(f: string, flag: string, set_: bool)
    requires f in {"", "@i", "@f", "@i@f"} && flag in {"@i", "@f"}
    requires set_ <==> (f == flag || f == "@i@f")
    ensures Substring(f, flag) == set_
  {
    assert "@f" != "@i" by {
      assert "@f"[1] != "@i"[1];
    }
    if f == "@i@f" {
      assert OccursAt(f, flag, if flag == "@i" then 0 else 2);
    } else {
      ContainsShort(f, flag);
    }
  }

  /** `write_phon`: the allophone without state and index. */
  function WritePhon(a: Allophone): string
  {
    a.phon + "{" + a.prev + "+" + a.next + "}" + Flags(a)
  }

  /** `write(omit_idx)`: the full line, or only its part before the first space. */
  function Write(a: Allophone, omitIdx: bool): (r: string)
    ensures ' ' in r <==> !omitIdx
  {
    var line := WritePhon(a) + "." + IntToString(a.state) + " " + IntToString(a.idx);
    if !omitIdx then line
    else match SplitFirst(line, ' ')
      case None => line
      case Some(parts) => parts.0
  }

  /** A field the parser can delimit: non-empty and free of the separator characters and newlines. */
  predicate PlainField(s: string)
  {
    0 < |s| && '{' !in s && '+' !in s && '}' !in s && ' ' !in s && '\n' !in s
  }

  /** The allophones whose written line parses back to them. */
  predicate Plain(a: Allophone)
  {
    PlainField(a.phon) && PlainField(a.prev) && PlainField(a.next) && 0 <= a.state <= 2 && 0 <= a.idx
  }

  /**
   * The part of a line after `}`: `(.*).([0-2]) (\d+)` gives the flags, the state digit
   * and the index digits (the longest run of digits after the space).
   */
  function ParseTail(r: string): Result<(string, nat, nat), string>
  {
    match SplitFirst(r, ' ')
    case None => Failure("no match")
    case Some(parts) =>
      var (head, tail) := parts;
      var digits := DigitPrefix(tail);
      if |head| < 2 || '\n' in head || !('0' <= head[|head| - 1] <= '2') || |digits| == 0 then Failure("no match")
      else Success((head[..|head| - 2], DigitValue(head[|head| - 1]), DigitsValue(digits)))
  }

  /**
   * `Allophone.parse_line`: match `(.+)\{(.+)\+(.+)\}(.*).([0-2]) (\d+)` at the start of
   * the line and convert the groups, with `initial` and `final` read from the flags by
   * substring tests; a line that does not match makes `m.groups()` raise. The
   * delimiters are taken at their first occurrence.
   */
  function Parse(line: string): (r: Result<Allophone, string>)
    ensures '{' !in line || '+' !in line || '}' !in line || ' ' !in line ==> r.Failure?
    ensures r.Success? ==>
              && PlainGroup(r.value.phon) && PlainGroup(r.value.prev) && PlainGroup(r.value.next)
              && 0 <= r.value.state <= 2 && 0 <= r.value.idx
  {
    match SplitFirst(line, '{')
    case None => Failure("no match")
    case Some(p1) =>
      var (phon, r1) := p1;
      match SplitFirst(r1, '+')
      case None => Failure("no match")
      case Some(p2) =>
        var (prev, r2) := p2;
        match SplitFirst(r2, '}')
        case None => Failure("no match")
        case Some(p3) =>
          var (next, r3) := p3;
          if !PlainGroup(phon) || !PlainGroup(prev) || !PlainGroup(next) then Failure("no match")
          else match ParseTail(r3)
            case Failure(e) => Failure(e)
            case Success(t) =>
              var (flags, state, idx) := t;
              Success(Allophone(phon, prev, next, Substring(flags, "@i"), Substring(flags, "@f"), state, idx))
  }

  /** What `(.+)` can match: at least one character, none of them a newline. */
  predicate PlainGroup(s: string)
  {
    0 < |s| && '\n' !in s
  }

  lemma ParseTailParts(flags: string, sep: char, st: char, digits: string, rest: string)
    requires ' ' !in flags && '\n' !in flags && sep != ' ' && sep != '\n' && '0' <= st <= '2'
    requires 0 < |digits| && AllDigits(digits) && (|rest| == 0 || !IsDigit(rest[0]))
    ensures ParseTail(flags + [sep] + [st] + " " + digits + rest) == Success((flags, DigitValue(st), DigitsValue(digits)))
  {
    var head := flags + [sep] + [st];
    var tail := digits + rest;
    assert flags + [sep] + [st] + " " + digits + rest == head + [' '] + tail by {
      Assoc(head + " ", digits, rest);
    }
    SplitFirstAt(head, ' ', tail);
    DigitPrefixOf(digits, rest);
    assert head[..|head| - 2] == flags;
    ParseTailSplit(head + [' '] + tail, head, tail);
  }

  /** Once the line is split at its first blank, the tail is read off the two halves. */
  lemma ParseTailSplit(r: string, head: string, tail: string)
    requires SplitFirst(r, ' ') == Some((head, tail))
    requires 2 <= |head| && '\n' !in head && '0' <= head[|head| - 1] <= '2' && 0 < |DigitPrefix(tail)|
    ensures ParseTail(r) == Success((head[..|head| - 2], DigitValue(head[|head| - 1]), DigitsValue(DigitPrefix(tail))))
  {
  }

  /**
   * The parse splits a line `phon{prev+next}flags<sep>S idx` into its parts: the flags
   * give `initial` and `final` by substring tests, the state digit and the index digits
   * become integers, and anything after the index digits is ignored. The flags hold
   * no delimiter and the text after the index no space: on such lines the greedy
   * groups of the pattern and the first-occurrence split agree.
   */
  lemma ParseParts(phon: string, prev: string, next: string, flags: string, sep: char, st: char,
                   digits: string, rest: string)
    requires PlainField(phon) && PlainField(prev) && PlainField(next)
    requires ' ' !in flags && '\n' !in flags && '{' !in flags && '+' !in flags && '}' !in flags
    requires sep != ' ' && sep != '\n' && '0' <= st <= '2'
    requires 0 < |digits| && AllDigits(digits) && (|rest| == 0 || !IsDigit(rest[0])) && ' ' !in rest
    ensures Parse(phon + "{" + prev + "+" + next + "}" + flags + [sep] + [st] + " " + digits + rest)
            == Success(Allophone(phon, prev, next, Substring(flags, "@i"), Substring(flags, "@f"),
                                 DigitValue(st), DigitsValue(digits)))
  {
    var r3 := flags + [sep] + [st] + " " + digits + rest;
    var r2 := next + ['}'] + r3;
    var r1 := prev + ['+'] + r2;
    var line := phon + "{" + prev + "+" + next + "}" + flags + [sep] + [st] + " " + digits + rest;
    assert SplitFirst(line, '{') == Some((phon, r1)) by {
      LineShape(phon, prev, next, flags, sep, st, digits, rest);
      SplitFirstAt(phon, '{', r1);
    }
    assert SplitFirst(r1, '+') == Some((prev, r2)) by {
      SplitFirstAt(prev, '+', r2);
    }
    assert SplitFirst(r2, '}') == Some((next, r3)) by {
      SplitFirstAt(next, '}', r3);
    }
    assert ParseTail(r3) == Success((flags, DigitValue(st), DigitsValue(digits))) by {
      ParseTailParts(flags, sep, st, digits, rest);
    }
    assert PlainGroup(phon) && PlainGroup(prev) && PlainGroup(next);
  }

  /** A written line regrouped around its first three delimiters. */
  lemma LineShape(phon: string, prev: string, next: string, flags: string, sep: char, st: char, digits: string, rest: string)
    ensures phon + "{" + prev + "+" + next + "}" + flags + [sep] + [st] + " " + digits + rest
            == phon + ['{'] + (prev + ['+'] + (next + ['}'] + (flags + [sep] + [st] + " " + digits + rest)))
  {
    var r3 := flags + [sep] + [st] + " " + digits + rest;
    var l6 := phon + "{" + prev + "+" + next + "}";
    calc {
      phon + "{" + prev + "+" + next + "}" + flags + [sep] + [st] + " " + digits + rest;
      { Assoc(l6, flags, [sep]); Assoc(l6, flags + [sep], [st]); Assoc(l6, flags + [sep] + [st], " ");
        Assoc(l6, flags + [sep] + [st] + " ", digits); Assoc(l6, flags + [sep] + [st] + " " + digits, rest); }
      l6 + r3;
      { Assoc(phon + "{" + prev + "+" + next, "}", r3); Assoc(phon + "{" + prev + "+", next, "}" + r3);
        Assoc(phon + "{" + prev, "+", next + ['}'] + r3); Assoc(phon + "{", prev, "+" + (next + ['}'] + r3));
        Assoc(phon, "{", prev + ['+'] + (next + ['}'] + r3)); }
      phon + ['{'] + (prev + ['+'] + (next + ['}'] + r3));
    }
  }

  lemma Assoc<T>(a: seq<T>, b: seq<T>, c: seq<T>)
    ensures a + b + c == a + (b + c)
  {
  }

  /** Round trip: parsing the line an allophone writes gives the allophone back. */
  lemma ParseWrite(a: Allophone)
    requires Plain(a)
    ensures Parse(Write(a, false)) == Success(a)
  {
    var st := DigitChar(a.state);
    assert IntToString(a.state) == [st];
    var digits := IntToString(a.idx);
    var line := Write(a, false);
    assert line == a.phon + "{" + a.prev + "+" + a.next + "}" + Flags(a) + ['.'] + [st] + " " + digits + "";
    ParseParts(a.phon, a.prev, a.next, Flags(a), '.', st, digits, "");
    assert Parse(line) == Success(Allophone(a.phon, a.prev, a.next, Substring(Flags(a), "@i"), Substring(Flags(a), "@f"),
                                            DigitValue(st), DigitsValue(digits)));
    FlagsRecover(a.initial, a.final);
    NatToStringRoundTrip(a.idx);
    DigitCharValue(a.state);
  }

  /**
   * Round trip: a canonical line (flags "", "@i", "@f" or "@i@f", separator ".",
   * index written without leading zeros) is written back exactly as it was read.
   */
  lemma WriteParse(phon: string, prev: string, next: string, initial: bool, final: bool, st: char, digits: string)
    requires PlainField(phon) && PlainField(prev) && PlainField(next)
    requires '0' <= st <= '2' && CanonicalDigits(digits)
    ensures var line := phon + "{" + prev + "+" + next + "}" + FlagsOf(initial, final) + "." + [st] + " " + digits;
            Parse(line).Success? && Write(Parse(line).value, false) == line
  {
    var flags := FlagsOf(initial, final);
    var line := phon + "{" + prev + "+" + next + "}" + flags + "." + [st] + " " + digits;
    assert "." == ['.'];
    assert line == line + "";
    ParseParts(phon, prev, next, flags, '.', st, digits, "");
    FlagsRecover(initial, final);
    DigitsRoundTrip(digits);
    assert IntToString(DigitValue(st)) == [st];
  }

  /** `write(omit_idx=True)` is the full line without its trailing " idx". */
  lemma WriteOmitIdx(a: Allophone)
    requires Plain(a)
    ensures Write(a, false) == Write(a, true) + " " + IntToString(a.idx)
    ensures Write(a, true) == WritePhon(a) + "." + IntToString(a.state)
  {
    var head := WritePhon(a) + "." + IntToString(a.state);
    assert IntToString(a.state) == [DigitChar(a.state)];
    assert ' ' !in head;
    SplitFirstAt(head, ' ', IntToString(a.idx));
    assert Write(a, false) == head + [' '] + IntToString(a.idx);
  }

  // ---------------------------------------------------------------------------------
  // End-of-word state tying

  /** `any(exc in phon for exc in exceptions)`. */
  predicate IsException(phon: string, exceptions: seq<string>)
  {
    exists exc :: exc in exceptions && Substring(phon, exc)
  }

  /**
   * `MakeEOWStateTying.run.transform`: strip the newlines, split `phon idx` at its one
   * space, and add `numStates` to the index of a word-final ("@f") allophone that is
   * not an exception; any other two-part line comes back unchanged. Unpacking a
   * split that does not give exactly two parts (no space, or more than one), or
   * `int` of a non-number, raises `ValueError`.
   */
  function EowTransform(line: string, numStates: int, exceptions: seq<string>): (r: Result<string, string>)
    ensures ' ' !in StripNewlines(line) ==> r.Failure?
    ensures ' ' in StripNewlines(line) ==>
              var (phon, idx) := SplitFirst(StripNewlines(line), ' ').value;
              && (' ' in idx ==> r.Failure?)
              && (' ' !in idx && (IsException(phon, exceptions) || !Substring(phon, "@f")) ==>
                    r == Success(StripNewlines(line)))
              && (' ' !in idx && !IsException(phon, exceptions) && Substring(phon, "@f") ==>
                    (r.Success? <==> ParseInt(idx).Some?)
                    && (r.Success? ==> SplitFirst(r.value, ' ') == Some((phon, IntToString(ParseInt(idx).value + numStates)))))
  {
    var l := StripNewlines(line);
    match SplitFirst(l, ' ')
    case None => Failure("ValueError: not enough values to unpack")
    case Some(parts) =>
      var (phon, idx) := parts;
      if ' ' in idx then Failure("ValueError: too many values to unpack")
      else if IsException(phon, exceptions) || !Substring(phon, "@f") then Success(l)
      else match ParseInt(idx)
        case None => Failure("ValueError: invalid literal for int()")
        case Some(v) =>
          var out := phon + " " + IntToString(v + numStates);
          NoSpaceInIndex(v + numStates);
          assert out == phon + [' '] + IntToString(v + numStates);
          SplitFirstAt(phon, ' ', IntToString(v + numStates));
          Success(out)
  }

  /** A printed index holds no space. */
  lemma NoSpaceInIndex(i: int)
    ensures ' ' !in IntToString(i)
  {
    if i < 0 { assert IntToString(i) == "-" + NatToString(-i); }
  }

  /**
   * On a line `phon idx` the transform keeps the phone and adds `numStates` to the
   * index exactly when the phone is word-final and no exception occurs in it.
   */
  lemma EowTransformLine(phon: string, idx: int, newlines: string, numStates: int, exceptions: seq<string>)
    requires ' ' !in phon && forall i :: 0 <= i < |newlines| ==> newlines[i] == '\n'
    ensures var shifted := !IsException(phon, exceptions) && Substring(phon, "@f");
            EowTransform(phon + " " + IntToString(idx) + newlines, numStates, exceptions)
            == Success(phon + " " + IntToString(if shifted then idx + numStates else idx))
  {
    var l := phon + " " + IntToString(idx);
    NoSpaceInIndex(idx);
    assert 0 < |l| && l[|l| - 1] != '\n' by {
      var t := IntToString(idx);
      assert IsDigit(t[|t| - 1]) by {
        if idx < 0 { assert t[|t| - 1] == t[1..][|t| - 2]; }
      }
      assert l[|l| - 1] == t[|t| - 1];
    }
    StripTrailingNewlines(l, newlines);
    assert l == phon + [' '] + IntToString(idx);
    SplitFirstAt(phon, ' ', IntToString(idx));
    assert SplitFirst(l, ' ') == Some((phon, IntToString(idx)));
    IntToStringRoundTrip(idx);
  }

  lemma {:induction false} StripTrailingNewlines(l: string, newlines: string)
    requires 0 < |l| && l[|l| - 1] != '\n' && forall i :: 0 <= i < |newlines| ==> newlines[i] == '\n'
    ensures StripNewlines(l + newlines) == l
    decreases |newlines|
  {
    if |newlines| == 0 {
      assert l + newlines == l;
    } else {
      var shorter := newlines[..|newlines| - 1];
      assert (l + newlines)[..|l + newlines| - 1] == l + shorter;
      StripTrailingNewlines(l, shorter);
    }
  }

  /** The transformed index, read back, is the original index shifted by `numStates`. */
  lemma EowShiftReadsBack(phon: string, idx: int, numStates: int, exceptions: seq<string>)
    requires ' ' !in phon && !IsException(phon, exceptions) && Substring(phon, "@f")
    ensures EowTransform(phon + " " + IntToString(idx), numStates, exceptions).Success?
    ensures var out := EowTransform(phon + " " + IntToString(idx), numStates, exceptions).value;
            SplitFirst(out, ' ') == Some((phon, IntToString(idx + numStates)))
            && ParseInt(IntToString(idx + numStates)) == Some(idx + numStates)
  {
    EowTransformLine(phon, idx, "", numStates, exceptions);
    assert phon + " " + IntToString(idx) + "" == phon + " " + IntToString(idx);
    SplitFirstAt(phon, ' ', IntToString(idx + numStates));
    assert phon + " " + IntToString(idx + numStates) == phon + [' '] + IntToString(idx + numStates);
    IntToStringRoundTrip(idx + numStates);
  }

  // ---------------------------------------------------------------------------------
  // Diphone state tying

  /** `list.index`: the first position of `x`, `None` where Python raises `ValueError`. */
  function IndexOf<T(==)>(xs: seq<T>, x: T): (r: Option<nat>)
    ensures r.None? <==> x !in xs
    ensures r.Some? ==> r.value < |xs| && xs[r.value] == x && x !in xs[..r.value]
  {
    if |xs| == 0 then None
    else if xs[0] == x then Some(0)
    else match IndexOf(xs[1..], x)
      case None => None
      case Some(i) =>
        assert xs[..i + 1] == [xs[0]] + xs[1..][..i];
        Some(i + 1)
  }

  /**
   * `MakeDiphoneStateTying.run.get_new_idx`. With `P = |allPhons|` phones, `P + 1`
   * contexts ("#" last) and `H = hmmPartition` states: an exception keeps its place
   * after the `P * (P + 1) * H` diphone states, shifted down by the `P * H` monophone
   * states it used to follow; any other allophone gets the mixed-radix number
   * `(phone, context, state)`. A phone or context missing from the lists raises.
   */
  function DiphoneIndex(a: Allophone, allPhons: seq<string>, exceptions: seq<string>, hmmPartition: nat): (r: Result<int, string>)
    ensures r.Failure? <==> !IsException(a.phon, exceptions) && (a.phon !in allPhons || a.prev !in allPhons + ["#"])
  {
    var numPhons := |allPhons|;
    var numCtxs := numPhons + 1;
    var excOffset := numPhons * hmmPartition;
    if IsException(a.phon, exceptions) then
      Success(a.idx - excOffset + numPhons * numCtxs * hmmPartition)
    else match (IndexOf(allPhons, a.phon), IndexOf(allPhons + ["#"], a.prev))
      case (Some(p), Some(c)) => Success(p * numCtxs * hmmPartition + c * hmmPartition + a.state)
      case _ => Failure("ValueError: not in list")
  }

  /**
   * A non-exception diphone index is a mixed-radix number: it lies below the
   * `P * (P + 1) * H` diphone states and its digits are the phone's position, the
   * context's position and the state.
   */
  lemma DiphoneIndexDigits(a: Allophone, allPhons: seq<string>, exceptions: seq<string>, hmmPartition: nat)
    requires !IsException(a.phon, exceptions) && 0 <= a.state < hmmPartition
    requires a.phon in allPhons && a.prev in allPhons + ["#"]
    ensures var r := DiphoneIndex(a, allPhons, exceptions, hmmPartition);
            var numCtxs := |allPhons| + 1;
            && r.Success? && 0 <= r.value < |allPhons| * numCtxs * hmmPartition
            && r.value / (numCtxs * hmmPartition) == IndexOf(allPhons, a.phon).value
            && r.value / hmmPartition % numCtxs == IndexOf(allPhons + ["#"], a.prev).value
            && r.value % hmmPartition == a.state
  {
    var numCtxs := |allPhons| + 1;
    var p := IndexOf(allPhons, a.phon).value;
    var c := IndexOf(allPhons + ["#"], a.prev).value;
    var h := hmmPartition;
    var r := DiphoneIndex(a, allPhons, exceptions, hmmPartition).value;
    MixedRadix(r, p, c, a.state, numCtxs, h, |allPhons|);
  }

  lemma Distrib(a: nat, b: nat, m: nat)
    ensures (a + b) * m == a * m + b * m
  {
  }

  lemma MulAssoc(a: nat, b: nat, c: nat)
    ensures a * b * c == a * (b * c)
  {
  }

  lemma QuotRem(n: nat, d: nat, q: nat, r: nat)
    requires r < d && n == q * d + r
    ensures n / d == q && n % d == r
  {
    QuotientUnique(q, r, n / d, n % d, d);
  }

  /**
   * The number with digits `p, c, s` in the mixed radix `(C, H)` is below
   * `numPhons * C * H` when `p < numPhons`, and it is read back digit by digit.
   */
  lemma MixedRadix(n: int, p: nat, c: nat, s: nat, numCtxs: nat, h: nat, numPhons: nat)
    requires c < numCtxs && s < h && p < numPhons
    requires n == p * numCtxs * h + c * h + s
    ensures 0 <= n < numPhons * numCtxs * h
    ensures n / (numCtxs * h) == p
    ensures n / h % numCtxs == c
    ensures n % h == s
  {
    var pc: nat := p * numCtxs;
    var q: nat := pc + c;
    var ch: nat := numCtxs * h;
    var low: nat := c * h + s;
    assert n == q * h + s by {
      Distrib(pc, c, h);
    }
    assert low < ch by {
      MulStep(c, numCtxs - c, h);
    }
    assert n == p * ch + low by {
      MulAssoc(p, numCtxs, h);
    }
    assert n < numPhons * numCtxs * h by {
      MulStep(p, numPhons - p, ch);
      MulAssoc(numPhons, numCtxs, h);
    }
    QuotRem(n, ch, p, low);
    QuotRem(n, h, q, s);
    QuotRem(q, numCtxs, p, c);
  }

  /** Different non-exception allophones (phone, context or state) get different diphone indices. */
  lemma DiphoneIndexInjective(a: Allophone, b: Allophone, allPhons: seq<string>, exceptions: seq<string>, hmmPartition: nat)
    requires !IsException(a.phon, exceptions) && 0 <= a.state < hmmPartition
    requires !IsException(b.phon, exceptions) && 0 <= b.state < hmmPartition
    requires a.phon in allPhons && a.prev in allPhons + ["#"] && b.phon in allPhons && b.prev in allPhons + ["#"]
    requires DiphoneIndex(a, allPhons, exceptions, hmmPartition) == DiphoneIndex(b, allPhons, exceptions, hmmPartition)
    ensures a.phon == b.phon && a.prev == b.prev && a.state == b.state
  {
    DiphoneIndexDigits(a, allPhons, exceptions, hmmPartition);
    DiphoneIndexDigits(b, allPhons, exceptions, hmmPartition);
  }

  /**
   * An exception whose old index follows the `P * H` monophone states is moved past
   * the diphone block, keeping its distance from the block's start.
   */
  lemma DiphoneExceptionAfterBlock(a: Allophone, allPhons: seq<string>, exceptions: seq<string>, hmmPartition: nat)
    requires IsException(a.phon, exceptions)
    ensures var r := DiphoneIndex(a, allPhons, exceptions, hmmPartition);
            var block := |allPhons| * (|allPhons| + 1) * hmmPartition;
            r.Success? && r.value - block == a.idx - |allPhons| * hmmPartition
            && (r.value >= block <==> a.idx >= |allPhons| * hmmPartition)
  {
  }

  // ---------------------------------------------------------------------------------
  // One-state tying

  /** The allophones of HMM state 0, in their order. */
  function StateZero(allos: seq<Allophone>): (kept: seq<Allophone>)
    ensures |kept| <= |allos|
    ensures forall a :: a in kept <==> a in allos && a.state == 0
  {
    if |allos| == 0 then []
    else (if allos[0].state == 0 then [allos[0]] else []) + StateZero(allos[1..])
  }

  /** `filter` keeps order and duplicates: filtering a concatenation filters each part. */
  lemma {:induction false} StateZeroConcat(a: seq<Allophone>, b: seq<Allophone>)
    ensures StateZero(a + b) == StateZero(a) + StateZero(b)
  {
    if |a| > 0 {
      assert (a + b)[0] == a[0] && (a + b)[1..] == a[1..] + b;
      StateZeroConcat(a[1..], b);
    } else {
      assert a + b == b;
    }
  }

  /** Reading one more line appends it exactly when it is of state 0. */
  lemma StateZeroAppend(a: seq<Allophone>, x: Allophone)
    ensures StateZero(a + [x]) == StateZero(a) + (if x.state == 0 then [x] else [])
  {
    StateZeroConcat(a, [x]);
    assert [x][1..] == [];
  }

  predicate StrictlyIncreasing(l: seq<int>)
  {
    forall i, j :: 0 <= i < j < |l| ==> l[i] < l[j]
  }

  /** `x` inserted into a strictly increasing list. */
  function Insert(x: int, l: seq<int>): (r: seq<int>)
    requires StrictlyIncreasing(l)
    ensures StrictlyIncreasing(r)
    ensures forall y :: y in r <==> y == x || y in l
  {
    if |l| == 0 then [x]
    else if x < l[0] then [x] + l
    else if x == l[0] then l
    else
      var rest := Insert(x, l[1..]);
      assert forall y :: y in l <==> y == l[0] || y in l[1..];
      BelowAll(l);
      ConsIncreasing(l[0], rest);
      [l[0]] + rest
  }

  /** The head of a strictly increasing list lies below everything after it. */
  lemma BelowAll(l: seq<int>)
    requires StrictlyIncreasing(l) && 0 < |l|
    ensures forall y :: y in l[1..] ==> l[0] < y
  {
    forall y | y in l[1..]
      ensures l[0] < y
    {
      var j :| 0 <= j < |l[1..]| && l[1..][j] == y;
      assert l[j + 1] == y;
    }
  }

  lemma ConsIncreasing(a: int, s: seq<int>)
    requires StrictlyIncreasing(s) && forall y :: y in s ==> a < y
    ensures StrictlyIncreasing([a] + s)
  {
    var r := [a] + s;
    forall i, j | 0 <= i < j < |r|
      ensures r[i] < r[j]
    {
      assert r[j] == s[j - 1] && s[j - 1] in s;
      if 0 < i {
        assert r[i] == s[i - 1];
      }
    }
  }

  /** `sorted(set(xs))`. */
  function SortedSet(xs: seq<int>): (l: seq<int>)
    ensures StrictlyIncreasing(l)
    ensures forall y :: y in l <==> y in xs
  {
    if |xs| == 0 then [] else Insert(xs[0], SortedSet(xs[1..]))
  }

  function Indices(allos: seq<Allophone>): (idxs: seq<int>)
    ensures |idxs| == |allos| && forall k :: 0 <= k < |allos| ==> idxs[k] == allos[k].idx
  {
    seq(|allos|, k requires 0 <= k < |allos| => allos[k].idx)
  }

  /** In a strictly increasing list, positions compare as their elements do. */
  lemma IncreasingPositions(l: seq<int>, i: nat, j: nat)
    requires StrictlyIncreasing(l) && i < |l| && j < |l|
    ensures l[i] < l[j] <==> i < j
    ensures l[i] == l[j] <==> i == j
  {
  }

  /**
   * `MakeOneStateStateTyingJob.run`: keep the state-0 allophones, count their distinct
   * indices, and renumber each index by its rank in `sorted(idxs)`.
   */
  function OneStateTying(allos: seq<Allophone>): (r: (nat, seq<Allophone>))
    ensures var kept := StateZero(allos);
            && |r.1| == |kept|
            && (forall k :: 0 <= k < |kept| ==> r.1[k] == kept[k].(idx := r.1[k].idx))
            && (forall k :: 0 <= k < |kept| ==> 0 <= r.1[k].idx < r.0)
  {
    var kept := StateZero(allos);
    var sorted := SortedSet(Indices(kept));
    var idxMap := RankMap(sorted);
    assert forall k :: 0 <= k < |kept| ==> kept[k].idx in idxMap by {
      forall k | 0 <= k < |kept| ensures kept[k].idx in idxMap {
        assert Indices(kept)[k] == kept[k].idx;
      }
    }
    (|sorted|, Renumber(kept, idxMap))
  }

  /** Every allophone with its index replaced by the map's value for it. */
  function Renumber(kept: seq<Allophone>, idxMap: map<int, nat>): (r: seq<Allophone>)
    requires forall k :: 0 <= k < |kept| ==> kept[k].idx in idxMap
    ensures |r| == |kept|
    ensures forall k :: 0 <= k < |kept| ==> r[k] == kept[k].(idx := idxMap[kept[k].idx])
  {
    seq(|kept|, k requires 0 <= k < |kept| => kept[k].(idx := idxMap[kept[k].idx]))
  }

  /** `idx_map`: each value of the sorted distinct indices mapped to its position. */
  function RankMap(sorted: seq<int>): (m: map<int, nat>)
    ensures forall x :: x in m <==> x in sorted
    ensures forall x :: x in m ==> m[x] < |sorted| && m[x] == IndexOf(sorted, x).value
  {
    map x | x in sorted :: IndexOf(sorted, x).value
  }

  /** Each kept allophone's new index is the position of its old index in `sorted(idxs)`. */
  lemma OneStateRank(allos: seq<Allophone>, k: nat)
    requires k < |StateZero(allos)|
    ensures var kept := StateZero(allos);
            var sorted := SortedSet(Indices(kept));
            kept[k].idx in sorted && OneStateTying(allos).1[k].idx == IndexOf(sorted, kept[k].idx).value
  {
    var kept := StateZero(allos);
    assert Indices(kept)[k] == kept[k].idx;
  }

  /** Renumbered indices compare, and are equal, exactly as the original indices do. */
  lemma OneStateOrder(allos: seq<Allophone>, j: nat, k: nat)
    requires j < |StateZero(allos)| && k < |StateZero(allos)|
    ensures var out := OneStateTying(allos).1;
            var kept := StateZero(allos);
            && (out[j].idx < out[k].idx <==> kept[j].idx < kept[k].idx)
            && (out[j].idx == out[k].idx <==> kept[j].idx == kept[k].idx)
  {
    var kept := StateZero(allos);
    var sorted := SortedSet(Indices(kept));
    var out := OneStateTying(allos).1;
    OneStateRank(allos, j);
    OneStateRank(allos, k);
    IncreasingPositions(sorted, out[j].idx, out[k].idx);
  }

  /** Every number below the state count is the new index of some kept allophone. */
  lemma OneStateDense(allos: seq<Allophone>, v: nat)
    requires v < OneStateTying(allos).0
    ensures exists k :: 0 <= k < |OneStateTying(allos).1| && OneStateTying(allos).1[k].idx == v
  {
    var kept := StateZero(allos);
    var sorted := SortedSet(Indices(kept));
    var x := sorted[v];
    assert x in Indices(kept);
    var k :| 0 <= k < |kept| && Indices(kept)[k] == x;
    OneStateRank(allos, k);
    var i := IndexOf(sorted, x).value;
    IncreasingPositions(sorted, i, v);
  }

  /** The state count is the number of distinct indices among the state-0 allophones. */
  lemma OneStateCount(allos: seq<Allophone>)
    ensures OneStateTying(allos).0 == |set x | x in Indices(StateZero(allos))|
  {
    var sorted := SortedSet(Indices(StateZero(allos)));
    assert (set x | x in Indices(StateZero(allos))) == set x | x in sorted;
    DistinctCard(sorted);
  }

  lemma {:induction false} DistinctCard(l: seq<int>)
    requires StrictlyIncreasing(l)
    ensures |set x | x in l| == |l|
  {
    if |l| > 0 {
      var rest := l[1..];
      DistinctCard(rest);
      assert (set x | x in l) == (set x | x in rest) + {l[0]};
      assert l[0] !in rest;
    }
  }

  // ---------------------------------------------------------------------------------
  // Duplicated state tying

  /** The number of states an allophone is expanded into: one for an exception phone. */
  function StateCount(a: Allophone, exceptions: seq<string>, statesPerPhon: nat): nat
  {
    if a.phon in exceptions then 1 else statesPerPhon
  }

  /** The number of lines the expansion of `allos` writes. */
  function TotalStates(allos: seq<Allophone>, exceptions: seq<string>, statesPerPhon: nat): nat
  {
    if |allos| == 0 then 0
    else TotalStates(allos[..|allos| - 1], exceptions, statesPerPhon)
         + StateCount(allos[|allos| - 1], exceptions, statesPerPhon)
  }

  /**
   * `DuplicateStateTyingJob.run`: each allophone, in order, expanded into copies
   * with states `0 .. count - 1`, everything else unchanged.
   */
  function Duplicate(allos: seq<Allophone>, exceptions: seq<string>, statesPerPhon: nat): (out: seq<Allophone>)
    ensures |out| == TotalStates(allos, exceptions, statesPerPhon)
  {
    if |allos| == 0 then []
    else
      var last := allos[|allos| - 1];
      Duplicate(allos[..|allos| - 1], exceptions, statesPerPhon)
      + seq(StateCount(last, exceptions, statesPerPhon), s requires s >= 0 => last.(state := s))
  }

  /**
   * The lines of allophone `j` form one block starting after those of its
   * predecessors: line `s` of the block is allophone `j` with state `s`.
   */
  lemma {:induction false} DuplicateAt(allos: seq<Allophone>, exceptions: seq<string>, statesPerPhon: nat, j: nat, s: nat)
    requires j < |allos| && s < StateCount(allos[j], exceptions, statesPerPhon)
    ensures var at := TotalStates(allos[..j], exceptions, statesPerPhon) + s;
            var out := Duplicate(allos, exceptions, statesPerPhon);
            at < |out| && out[at] == allos[j].(state := s)
  {
    var n := |allos|;
    var init := allos[..n - 1];
    if j < n - 1 {
      assert init[..j] == allos[..j];
      DuplicateAt(init, exceptions, statesPerPhon, j, s);
    } else {
      assert init == allos[..j];
    }
  }
}
