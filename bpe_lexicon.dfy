/**
 * Building a BPE lexicon from a word lexicon: the word tokens of the ordinary
 * lemmas are collected, the BPE vocabulary file is read into a symbol set (and a
 * fake-count vocabulary for the BPE tool), and each word's BPE split has the
 * tokens outside the vocabulary replaced by the unknown label.
 */
module BpeLexicon {
  import opened Wrappers
  import Text

  // ---------------------------------------------------------------------------------
  // Lemmas and the word tokens

  /** A lemma of the word lexicon; `special` names special lemmas such as silence. */
  datatype Lemma = Lemma(
    orth: seq<string>,
    phon: seq<string>,
    synt: Option<seq<string>>,
    eval: seq<seq<string>>,
    special: Option<string>)

  function Elems(ts: seq<string>): set<string>
  {
    set t | t in ts
  }

  /** The tokens of the evaluation token sequences. */
  function EvalTokens(eval: seq<seq<string>>): set<string>
  {
    if |eval| == 0 then {} else EvalTokens(eval[..|eval| - 1]) + Elems(eval[|eval| - 1])
  }

  /** The tokens a lemma contributes: its orthographies, its syntactic tokens (if any) and its evaluation tokens. */
  function LemmaTokens(l: Lemma): set<string>
  {
    Elems(l.orth) + (if l.synt.Some? then Elems(l.synt.value) else {}) + EvalTokens(l.eval)
  }

  /** The tokens of the ordinary (non-special) lemmas among the first lemmas. */
  function AllTokens(lemmata: seq<Lemma>): set<string>
  {
    if |lemmata| == 0 then {}
    else
      var l := lemmata[|lemmata| - 1];
      AllTokens(lemmata[..|lemmata| - 1]) + (if l.special.None? then LemmaTokens(l) else {})
  }

  /** The special lemmas, in order. */
  function Specials(lemmata: seq<Lemma>): seq<Lemma>
  {
    if |lemmata| == 0 then []
    else
      var l := lemmata[|lemmata| - 1];
      Specials(lemmata[..|lemmata| - 1]) + (if l.special.Some? then [l] else [])
  }

  /** A word token is collected exactly when some ordinary lemma has it. */
  lemma {:induction false} AllTokensMembers(lemmata: seq<Lemma>, t: string)
    ensures t in AllTokens(lemmata) <==> exists i :: 0 <= i < |lemmata| && lemmata[i].special.None? && t in LemmaTokens(lemmata[i])
  {
    if |lemmata| > 0 {
      var n := |lemmata| - 1;
      AllTokensMembers(lemmata[..n], t);
      if t in AllTokens(lemmata[..n]) {
        var i :| 0 <= i < n && lemmata[..n][i].special.None? && t in LemmaTokens(lemmata[..n][i]);
        assert lemmata[i] == lemmata[..n][i];
      }
      if exists i :: 0 <= i < |lemmata| && lemmata[i].special.None? && t in LemmaTokens(lemmata[i]) {
        var i :| 0 <= i < |lemmata| && lemmata[i].special.None? && t in LemmaTokens(lemmata[i]);
        if i < n {
          assert lemmata[..n][i] == lemmata[i];
        }
      }
    }
  }

  /** The special lemmas are exactly the lemmas with `special` set, in their lexicon order. */
  lemma {:induction false} SpecialsFilter(lemmata: seq<Lemma>)
    ensures forall k :: 0 <= k < |Specials(lemmata)| ==> Specials(lemmata)[k].special.Some?
    ensures forall l :: l in Specials(lemmata) <==> l in lemmata && l.special.Some?
    ensures |Specials(lemmata)| <= |lemmata|
  {
    if |lemmata| > 0 {
      var n := |lemmata| - 1;
      SpecialsFilter(lemmata[..n]);
      assert lemmata == lemmata[..n] + [lemmata[n]];
    }
  }

  /** Adds every token of `ts` to `acc`. */
  method AddTokens(acc: set<string>, ts: seq<string>) returns (r: set<string>)
    ensures r == acc + Elems(ts)
  {
    r := acc;
    for i := 0 to |ts|
      invariant r == acc + Elems(ts[..i])
    {
      assert ts[..i + 1] == ts[..i] + [ts[i]];
      r := r + {ts[i]};
    }
    assert ts[..|ts|] == ts;
  }

  /**
   * `_fill_lm_tokens`: the word tokens of the ordinary lemmas and the special
   * lemmas in order. The token collection is a set; the order in which it is
   * later listed is not part of this model.
   */
  method FillLmTokens(lemmata: seq<Lemma>) returns (lmTokens: set<string>, specialLemmas: seq<Lemma>)
    ensures lmTokens == AllTokens(lemmata)
    ensures specialLemmas == Specials(lemmata)
  {
    lmTokens, specialLemmas := {}, [];
    for i := 0 to |lemmata|
      invariant lmTokens == AllTokens(lemmata[..i])
      invariant specialLemmas == Specials(lemmata[..i])
    {
      var l := lemmata[i];
      assert lemmata[..i + 1][..i] == lemmata[..i];
      if l.special.None? {
        lmTokens := AddTokens(lmTokens, l.orth);
        if l.synt.Some? {
          lmTokens := AddTokens(lmTokens, l.synt.value);
        }
        for e := 0 to |l.eval|
          invariant lmTokens == AllTokens(lemmata[..i]) + Elems(l.orth) +
                                (if l.synt.Some? then Elems(l.synt.value) else {}) + EvalTokens(l.eval[..e])
        {
          assert l.eval[..e + 1][..e] == l.eval[..e];
          lmTokens := AddTokens(lmTokens, l.eval[e]);
        }
        assert l.eval[..|l.eval|] == l.eval;
      } else {
        specialLemmas := specialLemmas + [l];
      }
    }
    assert lemmata[..|lemmata|] == lemmata;
  }

  // ---------------------------------------------------------------------------------
  // Whitespace, splitting and joining

  /**
   * The characters `str.strip` and `str.split` treat as whitespace (`str.isspace`):
   * tab to carriage return, the four information separators, space, next line,
   * no-break space, and the Unicode space separators and line/paragraph separators.
   */
  predicate IsWs(c: char)
  {
    var n := c as int;
    || (9 <= n <= 13) || (0x1C <= n <= 0x20) || n == 0x85 || n == 0xA0 || n == 0x1680
    || (0x2000 <= n <= 0x200A) || n == 0x2028 || n == 0x2029 || n == 0x202F || n == 0x205F || n == 0x3000
  }

  predicate NoWs(s: string)
  {
    forall k :: 0 <= k < |s| ==> !IsWs(s[k])
  }

  /** `s.strip()`: leading and trailing whitespace removed. */
  function Strip(s: string): (r: string)
    ensures |r| <= |s|
    ensures |r| > 0 ==> !IsWs(r[0]) && !IsWs(r[|r| - 1])
  {
    if |s| > 0 && IsWs(s[0]) then Strip(s[1..])
    else if |s| > 0 && IsWs(s[|s| - 1]) then Strip(s[..|s| - 1])
    else s
  }

  /** `s[i..j]` is surrounded by whitespace only. */
  predicate Surrounded(s: string, i: nat, j: nat)
  {
    && i <= j <= |s|
    && (forall k :: 0 <= k < i ==> IsWs(s[k]))
    && (forall k :: j <= k < |s| ==> IsWs(s[k]))
  }

  /**
   * `strip()` removes only surrounding whitespace: the result is a slice of the
   * input with whitespace before and after it.
   */
  lemma {:induction false} StripTrims(s: string)
    ensures exists i: nat, j: nat :: Surrounded(s, i, j) && Strip(s) == s[i..j]
  {
    if |s| > 0 && IsWs(s[0]) {
      var t := s[1..];
      StripTrims(t);
      var i: nat, j: nat :| Surrounded(t, i, j) && Strip(t) == t[i..j];
      SurroundedFront(s, i, j);
      assert t[i..j] == s[i + 1..j + 1];
    } else if |s| > 0 && IsWs(s[|s| - 1]) {
      var t := s[..|s| - 1];
      StripTrims(t);
      var i: nat, j: nat :| Surrounded(t, i, j) && Strip(t) == t[i..j];
      SurroundedBack(s, i, j);
      assert t[i..j] == s[i..j];
    } else {
      assert Surrounded(s, 0, |s|);
      assert Strip(s) == s[0..|s|];
    }
  }

  lemma SurroundedFront(s: string, i: nat, j: nat)
    requires 0 < |s| && IsWs(s[0]) && Surrounded(s[1..], i, j)
    ensures Surrounded(s, i + 1, j + 1)
  {
    forall k | 0 <= k < i + 1
      ensures IsWs(s[k])
    {
      if k > 0 {
        assert s[k] == s[1..][k - 1];
      }
    }
    forall k | j + 1 <= k < |s|
      ensures IsWs(s[k])
    {
      assert s[k] == s[1..][k - 1];
    }
  }

  lemma SurroundedBack(s: string, i: nat, j: nat)
    requires 0 < |s| && IsWs(s[|s| - 1]) && Surrounded(s[..|s| - 1], i, j)
    ensures Surrounded(s, i, j)
  {
    forall k | 0 <= k < i
      ensures IsWs(s[k])
    {
      assert s[k] == s[..|s| - 1][k];
    }
    forall k | j <= k < |s|
      ensures IsWs(s[k])
    {
      if k < |s| - 1 {
        assert s[k] == s[..|s| - 1][k];
      }
    }
  }

  /** A string without surrounding whitespace is its own strip. */
  lemma StripNoop(s: string)
    requires |s| > 0 ==> !IsWs(s[0]) && !IsWs(s[|s| - 1])
    ensures Strip(s) == s
  {
  }

  /** The longest prefix without whitespace. */
  function Token(s: string): (t: string)
    ensures t <= s && NoWs(t)
    ensures |t| == |s| || IsWs(s[|t|])
  {
    if |s| == 0 || IsWs(s[0]) then "" else [s[0]] + Token(s[1..])
  }

  /** `s.split()`: the maximal runs of non-whitespace characters. */
  function SplitWs(s: string): (ts: seq<string>)
    ensures forall k :: 0 <= k < |ts| ==> 0 < |ts[k]| && NoWs(ts[k])
    decreases |s|
  {
    if |s| == 0 then []
    else if IsWs(s[0]) then SplitWs(s[1..])
    else
      var t := Token(s);
      [t] + SplitWs(s[|t|..])
  }

  /** `" ".join(ts)`. */
  function JoinSpace(ts: seq<string>): string
  {
    if |ts| == 0 then "" else if |ts| == 1 then ts[0] else ts[0] + " " + JoinSpace(ts[1..])
  }

  lemma {:induction false} TokenOf(t: string, rest: string)
    requires NoWs(t) && (|rest| == 0 || IsWs(rest[0]))
    ensures Token(t + rest) == t
  {
    if |t| > 0 {
      assert (t + rest)[1..] == t[1..] + rest;
      TokenOf(t[1..], rest);
      assert [t[0]] + t[1..] == t;
    } else {
      assert t + rest == rest;
    }
  }

  /** Splitting what was joined with single spaces gives back the tokens. */
  lemma {:induction false} SplitJoin(ts: seq<string>)
    requires forall k :: 0 <= k < |ts| ==> 0 < |ts[k]| && NoWs(ts[k])
    ensures SplitWs(JoinSpace(ts)) == ts
  {
    if |ts| == 1 {
      TokenOf(ts[0], "");
      assert ts[0] + "" == ts[0];
      assert !IsWs(ts[0][0]);
      assert ts[0][|ts[0]|..] == "";
      assert SplitWs(ts[0]) == [ts[0]] + SplitWs("");
    } else if |ts| > 1 {
      var rest := JoinSpace(ts[1..]);
      var s := ts[0] + " " + rest;
      TokenOf(ts[0], " " + rest);
      assert s == ts[0] + (" " + rest);
      assert s[|ts[0]|..] == " " + rest;
      assert (" " + rest)[1..] == rest;
      SplitJoin(ts[1..]);
      assert ts == [ts[0]] + ts[1..];
    }
  }

  /** Replacing `.` by `_` commutes with joining by spaces. */
  lemma {:induction false} ReplaceJoin(ts: seq<string>)
    ensures Text.ReplaceChar(JoinSpace(ts), '.', '_') ==
            JoinSpace(seq(|ts|, k requires 0 <= k < |ts| => Text.ReplaceChar(ts[k], '.', '_')))
  {
    var rs := seq(|ts|, k requires 0 <= k < |ts| => Text.ReplaceChar(ts[k], '.', '_'));
    if |ts| > 1 {
      ReplaceJoin(ts[1..]);
      assert rs[1..] == seq(|ts| - 1, k requires 0 <= k < |ts| - 1 => Text.ReplaceChar(ts[1..][k], '.', '_'));
      ReplaceConcat(ts[0] + " ", JoinSpace(ts[1..]));
      ReplaceConcat(ts[0], " ");
    }
  }

  lemma ReplaceConcat(a: string, b: string)
    ensures Text.ReplaceChar(a + b, '.', '_') == Text.ReplaceChar(a, '.', '_') + Text.ReplaceChar(b, '.', '_')
  {
  }

  // ---------------------------------------------------------------------------------
  // The vocabulary file

  /**
   * The symbol of a vocabulary line (`line.split(":")[0][1:-1]`): the text before
   * the first colon without its first and last character (the quotes).
   */
  function Symbol(line: string): (r: string)
    ensures ':' !in r
    ensures r != "" ==> |r| + 2 <= |line| && r == line[1..|r| + 1]
  {
    var head := match Text.SplitFirst(line, ':')
      case None => line
      case Some(parts) => parts.0;
    if |head| >= 2 then head[1..|head| - 1] else ""
  }

  /** The lines the vocabulary reader skips: the braces and the sentence boundary symbols. */
  predicate Skipped(line: string)
  {
    line == "{" || line == "}" || line == "<s>" || line == "</s>"
  }

  /** The raw symbols of the vocabulary lines that are kept: not skipped and not the unknown label. */
  function RawSymbols(lines: seq<string>, unk: string): (r: seq<string>)
    ensures forall k :: 0 <= k < |r| ==> r[k] != unk
  {
    if |lines| == 0 then []
    else
      var rest := RawSymbols(lines[..|lines| - 1], unk);
      var line := Strip(lines[|lines| - 1]);
      if Skipped(line) || Symbol(line) == unk then rest else rest + [Symbol(line)]
  }

  /**
   * `_fill_vocab_and_lexicon`: reads the vocabulary lines; each kept symbol is
   * written to the fake-count vocabulary with count -1 and enters the vocabulary
   * with every `.` replaced by `_`.
   */
  method FillVocab(lines: seq<string>, unk: string) returns (vocab: set<string>, fakeCounts: seq<string>)
    ensures vocab == set s | s in RawSymbols(lines, unk) :: Text.ReplaceChar(s, '.', '_')
    ensures |fakeCounts| == |RawSymbols(lines, unk)|
    ensures forall k :: 0 <= k < |fakeCounts| ==> fakeCounts[k] == RawSymbols(lines, unk)[k] + " -1"
  {
    vocab, fakeCounts := {}, [];
    for i := 0 to |lines|
      invariant vocab == set s | s in RawSymbols(lines[..i], unk) :: Text.ReplaceChar(s, '.', '_')
      invariant |fakeCounts| == |RawSymbols(lines[..i], unk)|
      invariant forall k :: 0 <= k < |fakeCounts| ==> fakeCounts[k] == RawSymbols(lines[..i], unk)[k] + " -1"
    {
      SymbolsStep(lines, unk, i);
      var line := Strip(lines[i]);
      if line == "{" || line == "}" {
        continue;
      }
      if line == "<s>" || line == "</s>" {
        continue;
      }
      var symbol := Symbol(line);
      if symbol != unk {
        VocabStep(RawSymbols(lines[..i], unk), symbol);
        fakeCounts := fakeCounts + [symbol + " -1"];
        vocab := vocab + {Text.ReplaceChar(symbol, '.', '_')};
      }
    }
    assert lines[..|lines|] == lines;
  }

  /** One more line adds its symbol, unless it is skipped or the unknown label. */
  lemma SymbolsStep(lines: seq<string>, unk: string, i: nat)
    requires i < |lines|
    ensures var line := Strip(lines[i]);
            RawSymbols(lines[..i + 1], unk) ==
              if Skipped(line) || Symbol(line) == unk then RawSymbols(lines[..i], unk)
              else RawSymbols(lines[..i], unk) + [Symbol(line)]
  {
    assert lines[..i + 1][..i] == lines[..i];
  }

  /** The vocabulary of one more symbol gains that symbol with its dots replaced. */
  lemma VocabStep(r: seq<string>, x: string)
    ensures (set s | s in r + [x] :: Text.ReplaceChar(s, '.', '_')) ==
            (set s | s in r :: Text.ReplaceChar(s, '.', '_')) + {Text.ReplaceChar(x, '.', '_')}
  {
  }

  /** A quoted symbol without a colon, followed by a colon and anything, reads back as the symbol. */
  lemma SymbolOf(quote: char, sym: string, rest: string)
    requires ':' !in sym && quote != ':'
    ensures Symbol([quote] + sym + [quote] + ":" + rest) == sym
  {
    var head := [quote] + sym + [quote];
    assert ':' !in head;
    Text.SplitFirstAt(head, ':', rest);
    assert [quote] + sym + [quote] + ":" + rest == head + [':'] + rest;
    assert head[1..|head| - 1] == sym;
  }

  /** Vocabulary symbols contain no `.`. */
  lemma VocabHasNoDots(lines: seq<string>, unk: string, v: string)
    requires v in set s | s in RawSymbols(lines, unk) :: Text.ReplaceChar(s, '.', '_')
    ensures '.' !in v
  {
  }

  /** The unknown label never reaches the fake-count vocabulary, nor the vocabulary unless a dotted symbol becomes it. */
  lemma UnkExcluded(lines: seq<string>, unk: string)
    ensures forall k :: 0 <= k < |RawSymbols(lines, unk)| ==> RawSymbols(lines, unk)[k] + " -1" != unk + " -1"
    ensures '_' !in unk ==> unk !in set s | s in RawSymbols(lines, unk) :: Text.ReplaceChar(s, '.', '_')
  {
    if '_' !in unk {
      forall s | s in RawSymbols(lines, unk)
        ensures Text.ReplaceChar(s, '.', '_') != unk
      {
        ReplaceFixed(s, unk);
      }
    }
    forall k | 0 <= k < |RawSymbols(lines, unk)|
      ensures RawSymbols(lines, unk)[k] + " -1" != unk + " -1"
    {
      var s := RawSymbols(lines, unk)[k];
      if |s| == |unk| {
        assert (s + " -1")[..|s|] == s;
        assert (unk + " -1")[..|unk|] == unk;
      }
    }
  }

  /** A symbol that differs from a label without `_` still differs from it after replacing dots. */
  lemma ReplaceFixed(s: string, unk: string)
    requires '_' !in unk && s != unk
    ensures Text.ReplaceChar(s, '.', '_') != unk
  {
    var r := Text.ReplaceChar(s, '.', '_');
    if |r| == |unk| {
      var k :| 0 <= k < |s| && s[k] != unk[k];
      assert r[k] != unk[k];
    }
  }

  /** The skipped lines contribute nothing. */
  lemma SkippedLines(lines: seq<string>, unk: string, line: string)
    requires Skipped(Strip(line))
    ensures RawSymbols(lines + [line], unk) == RawSymbols(lines, unk)
  {
    assert (lines + [line])[..|lines|] == lines;
  }

  // ---------------------------------------------------------------------------------
  // Unknown-token substitution

  /**
   * The substitution as written: each BPE token not in the vocabulary becomes the
   * unknown label, then the tokens are joined and every `.` becomes `_`. The
   * vocabulary holds the symbols after that replacement while the BPE tokens
   * come before it, so a token with a `.` is never found.
   */
  function SubstituteAsWritten(bpe: string, vocab: set<string>, unk: string): (r: string)
    ensures '.' !in r
  {
    var ts := SplitWs(bpe);
    Text.ReplaceChar(JoinSpace(seq(|ts|, k requires 0 <= k < |ts| => if ts[k] in vocab then ts[k] else unk)), '.', '_')
  }

  /** The substitution looking each token up with its dots replaced, as the vocabulary stores it. */
  function Substitute(bpe: string, vocab: set<string>, unk: string): (r: string)
    ensures '.' !in r
  {
    var ts := SplitWs(bpe);
    var kept := seq(|ts|, k requires 0 <= k < |ts| =>
      if Text.ReplaceChar(ts[k], '.', '_') in vocab then ts[k] else unk);
    Text.ReplaceChar(JoinSpace(kept), '.', '_')
  }

  /**
   * After substitution, the pronunciation splits into the BPE tokens of the input
   * with dots replaced, each one in the vocabulary or else the unknown label
   * (with dots replaced).
   */
  lemma SubstituteTokens(bpe: string, vocab: set<string>, unk: string)
    requires 0 < |unk| && NoWs(unk)
    ensures |SplitWs(Substitute(bpe, vocab, unk))| == |SplitWs(bpe)|
    ensures forall k :: 0 <= k < |SplitWs(bpe)| ==>
              var t := Text.ReplaceChar(SplitWs(bpe)[k], '.', '_');
              SplitWs(Substitute(bpe, vocab, unk))[k] == (if t in vocab then t else Text.ReplaceChar(unk, '.', '_'))
  {
    var ts := SplitWs(bpe);
    var kept := seq(|ts|, k requires 0 <= k < |ts| =>
      if Text.ReplaceChar(ts[k], '.', '_') in vocab then ts[k] else unk);
    var rs := seq(|kept|, k requires 0 <= k < |kept| => Text.ReplaceChar(kept[k], '.', '_'));
    ReplaceJoin(kept);
    assert forall k :: 0 <= k < |rs| ==> |rs[k]| == |kept[k]|;
    assert forall k :: 0 <= k < |rs| ==> NoWs(rs[k]);
    SplitJoin(rs);
  }

  /** A token whose dots the vocabulary stores replaced is lost by the as-written substitution and kept by the corrected one. */
  lemma DottedTokenLost()
    ensures FillVocabSymbols(["'a.b': 7"], "UNK") == {"a_b"}
    ensures SubstituteAsWritten("a.b", {"a_b"}, "UNK") == "UNK"
    ensures Substitute("a.b", {"a_b"}, "UNK") == "a_b"
  {
    DottedVocab();
    DottedToken();
    assert SubstituteAsWritten("a.b", {"a_b"}, "UNK") == "UNK" by {
      SingleTokenAsWritten("a.b", {"a_b"}, "UNK");
      ReplaceAbsent("UNK");
    }
    assert Substitute("a.b", {"a_b"}, "UNK") == "a_b" by {
      DotReplaced();
      SingleToken("a.b", {"a_b"}, "UNK");
    }
  }

  /** The token "a.b" is one whitespace-free token, and it differs from "a_b". */
  lemma DottedToken()
    ensures NoWs("a.b") && "a.b" !in {"a_b"}
  {
    var t := "a.b";
    assert t[0] == 'a' && t[1] == '.' && t[2] == 'b';
    assert t[1] != "a_b"[1];
  }

  /** A one-token split. */
  lemma SplitOne(t: string)
    requires 0 < |t| && NoWs(t)
    ensures SplitWs(t) == [t]
  {
    SplitJoin([t]);
  }

  /** The as-written substitution of one token outside the vocabulary gives the unknown label. */
  lemma SingleTokenAsWritten(t: string, vocab: set<string>, unk: string)
    requires 0 < |t| && NoWs(t) && t !in vocab
    ensures SubstituteAsWritten(t, vocab, unk) == Text.ReplaceChar(unk, '.', '_')
  {
    SplitOne(t);
    var ts := [t];
    assert seq(|ts|, k requires 0 <= k < |ts| => if ts[k] in vocab then ts[k] else unk) == [unk];
  }

  /** The corrected substitution of one token whose replaced form is in the vocabulary gives that form. */
  lemma SingleToken(t: string, vocab: set<string>, unk: string)
    requires 0 < |t| && NoWs(t) && Text.ReplaceChar(t, '.', '_') in vocab
    ensures Substitute(t, vocab, unk) == Text.ReplaceChar(t, '.', '_')
  {
    SplitOne(t);
    var ts := [t];
    assert seq(|ts|, k requires 0 <= k < |ts| =>
      if Text.ReplaceChar(ts[k], '.', '_') in vocab then ts[k] else unk) == [t];
  }

  lemma DottedVocab()
    ensures FillVocabSymbols(["'a.b': 7"], "UNK") == {"a_b"}
  {
    DottedRaw();
    DotReplaced();
    var r := RawSymbols(["'a.b': 7"], "UNK");
    assert forall s :: s in r <==> s == "a.b";
  }

  lemma DottedRaw()
    ensures RawSymbols(["'a.b': 7"], "UNK") == ["a.b"]
  {
    QuotedLineKept('\'', "a.b", " 7", "UNK");
    assert ['\''] + "a.b" + ['\''] + ":" + " 7" == "'a.b': 7";
  }

  /** A stripped line holding a quoted symbol other than the unknown label contributes that symbol. */
  lemma QuotedLineKept(quote: char, sym: string, rest: string, unk: string)
    requires ':' !in sym && quote != ':' && !IsWs(quote) && quote != '{' && quote != '}' && quote != '<'
    requires |rest| > 0 ==> !IsWs(rest[|rest| - 1])
    requires sym != unk
    ensures RawSymbols([[quote] + sym + [quote] + ":" + rest], unk) == [sym]
  {
    var line := [quote] + sym + [quote] + ":" + rest;
    assert Strip(line) == line by {
      assert line[0] == quote;
      assert line[|line| - 1] == if |rest| > 0 then rest[|rest| - 1] else ':';
      StripNoop(line);
    }
    SymbolOf(quote, sym, rest);
    assert line[0] == quote;
    assert !Skipped(line);
    RawSymbolsSingle(line, unk);
  }

  /** Replacing a character that does not occur changes nothing. */
  lemma ReplaceAbsent(s: string)
    requires '.' !in s
    ensures Text.ReplaceChar(s, '.', '_') == s
  {
  }

  lemma DotReplaced()
    ensures Text.ReplaceChar("a.b", '.', '_') == "a_b"
  {
  }

  /** A single kept line contributes its symbol. */
  lemma RawSymbolsSingle(line: string, unk: string)
    requires !Skipped(Strip(line)) && Symbol(Strip(line)) != unk
    ensures RawSymbols([line], unk) == [Symbol(Strip(line))]
  {
    assert [line][..0] == [];
  }

  /** The vocabulary `FillVocab` builds from the given lines. */
  function FillVocabSymbols(lines: seq<string>, unk: string): set<string>
  {
    set s | s in RawSymbols(lines, unk) :: Text.ReplaceChar(s, '.', '_')
  }

  /**
   * The BPE lemmas of `run`: the i-th word pairs with the i-th line of the BPE
   * tool's output (as far as both go), and the pronunciation is that line after
   * substitution. `words` is the word token collection in the order it was listed.
   */
  function BpeLemmas(words: seq<string>, bpeLines: seq<string>, vocab: set<string>, unk: string): (r: seq<Lemma>)
    ensures |r| == if |words| <= |bpeLines| then |words| else |bpeLines|
    ensures forall k :: 0 <= k < |r| ==>
              r[k].orth == [words[k]] && r[k].phon == [Substitute(Strip(bpeLines[k]), vocab, unk)]
  {
    var n := if |words| <= |bpeLines| then |words| else |bpeLines|;
    seq(n, k requires 0 <= k < n => Lemma([words[k]], [Substitute(Strip(bpeLines[k]), vocab, unk)], None, [], None))
  }

  /** The lemmas of the output lexicon: the special lemmas if they are kept, then the BPE lemmas. */
  function OutputLemmas(specialLemmas: seq<Lemma>, keepSpecialLemmas: bool, bpeLemmas: seq<Lemma>): (r: seq<Lemma>)
    ensures |r| == (if keepSpecialLemmas then |specialLemmas| else 0) + |bpeLemmas|
    ensures keepSpecialLemmas ==> r[..|specialLemmas|] == specialLemmas && r[|specialLemmas|..] == bpeLemmas
    ensures !keepSpecialLemmas ==> r == bpeLemmas
  {
    (if keepSpecialLemmas then specialLemmas else []) + bpeLemmas
  }
}
