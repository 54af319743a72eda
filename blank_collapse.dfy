/**
 * CTC blank collapsing over a per-frame blank mask: the leading and trailing runs
 * of blank frames are cut off and every run of blank frames between two label
 * frames shrinks to its last frame. Three versions compute this: the single-row
 * mask expression, the run-length loop of the initial version, and the batched
 * mask with per-row lengths; each is proved to keep exactly the frames of `Kept`.
 */
module BlankCollapse {
  import opened Wrappers

  // ---------------------------------------------------------------------------------
  // The reference definition

  /** Every frame of the mask is blank (true also of the empty mask). */
  predicate AllBlank(b: seq<bool>)
  {
    forall t :: 0 <= t < |b| ==> b[t]
  }

  /** The length of the leading run of blank frames. */
  function LeadingBlanks(b: seq<bool>): (n: nat)
    ensures n <= |b| && (forall t :: 0 <= t < n ==> b[t]) && (n < |b| ==> !b[n])
  {
    if |b| == 0 || !b[0] then 0 else 1 + LeadingBlanks(b[1..])
  }

  /** The length of the trailing run of blank frames. */
  function TrailingBlanks(b: seq<bool>): (n: nat)
    ensures n <= |b| && (forall t :: |b| - n <= t < |b| ==> b[t]) && (n < |b| ==> !b[|b| - n - 1])
  {
    if |b| == 0 || !b[|b| - 1] then 0 else 1 + TrailingBlanks(b[..|b| - 1])
  }

  /** Unless every frame is blank, the leading and trailing runs leave a label frame between them. */
  lemma Bounds(b: seq<bool>)
    requires !AllBlank(b)
    ensures LeadingBlanks(b) < |b| - TrailingBlanks(b)
  {
    var t :| 0 <= t < |b| && !b[t];
    assert LeadingBlanks(b) <= t < |b| - TrailingBlanks(b);
  }

  /**
   * Frame `t` survives the collapse: it lies between the first and the last label
   * frame, and it is not a blank frame followed by another blank frame.
   */
  predicate Keep(b: seq<bool>, t: nat)
    requires t < |b|
  {
    && LeadingBlanks(b) <= t < |b| - TrailingBlanks(b)
    && !(b[t] && t + 1 < |b| && b[t + 1])
  }

  /** The positions `offset + u` of the true entries of `flags`, in increasing order (`nonzero`). */
  function Positions(flags: seq<bool>, offset: nat): (r: seq<nat>)
    ensures StrictlyIncreasing(r)
    ensures forall t :: t in r <==> offset <= t < offset + |flags| && flags[t - offset]
    ensures forall k :: 0 <= k < |r| ==> offset <= r[k] < offset + |flags|
  {
    if |flags| == 0 then []
    else
      var n := |flags| - 1;
      var init := Positions(flags[..n], offset);
      assert forall t :: t in init ==> t < offset + n;
      init + (if flags[n] then [offset + n] else [])
  }

  predicate StrictlyIncreasing(l: seq<nat>)
  {
    forall i, j :: 0 <= i < j < |l| ==> l[i] < l[j]
  }

  /** The frames that survive the collapse, in order. */
  function Kept(b: seq<bool>): (r: seq<nat>)
    ensures StrictlyIncreasing(r)
    ensures forall t: nat :: t in r <==> t < |b| && Keep(b, t)
  {
    Positions(seq(|b|, t requires 0 <= t < |b| => Keep(b, t)), 0)
  }

  /** Two increasing lists with the same elements are the same list. */
  lemma {:induction false} SameElements(l: seq<nat>, l': seq<nat>)
    requires StrictlyIncreasing(l) && StrictlyIncreasing(l')
    requires forall t :: t in l <==> t in l'
    ensures l == l'
  {
    if |l| > 0 || |l'| > 0 {
      assert |l| > 0 && |l'| > 0 by {
        assert |l| > 0 ==> l[0] in l';
        assert |l'| > 0 ==> l'[0] in l;
      }
      SameLast(l, l');
      var p, p' := l[..|l| - 1], l'[..|l'| - 1];
      forall t ensures t in p <==> t in p' {
        DropLast(l, l', t);
        DropLast(l', l, t);
      }
      SameElements(p, p');
      assert l == p + [l[|l| - 1]] && l' == p' + [l'[|l'| - 1]];
    }
  }

  /** The largest elements of two increasing lists with the same elements agree. */
  lemma SameLast(l: seq<nat>, l': seq<nat>)
    requires StrictlyIncreasing(l) && StrictlyIncreasing(l') && 0 < |l| && 0 < |l'|
    requires forall t :: t in l <==> t in l'
    ensures l[|l| - 1] == l'[|l'| - 1]
  {
    var m, m' := l[|l| - 1], l'[|l'| - 1];
    assert m <= m' by {
      assert m in l';
      var i :| 0 <= i < |l'| && l'[i] == m;
    }
    assert m' <= m by {
      assert m' in l;
      var i :| 0 <= i < |l| && l[i] == m';
    }
  }

  /** With the same largest element, what precedes it in one list precedes it in the other. */
  lemma DropLast(l: seq<nat>, l': seq<nat>, t: nat)
    requires StrictlyIncreasing(l) && StrictlyIncreasing(l') && 0 < |l| && 0 < |l'|
    requires forall t :: t in l <==> t in l'
    requires l[|l| - 1] == l'[|l'| - 1]
    ensures t in l[..|l| - 1] ==> t in l'[..|l'| - 1]
  {
    if t in l[..|l| - 1] {
      var i :| 0 <= i < |l| - 1 && l[i] == t;
      assert t < l'[|l'| - 1] && t in l';
      var i' :| 0 <= i' < |l'| && l'[i'] == t;
      assert l'[..|l'| - 1][i'] == t;
    }
  }

  /** The first label frame survives, so a mask with a label frame keeps at least one frame. */
  lemma KeptNonEmpty(b: seq<bool>)
    requires !AllBlank(b)
    ensures |Kept(b)| > 0
  {
    Bounds(b);
    assert Keep(b, LeadingBlanks(b));
    assert LeadingBlanks(b) in Kept(b);
  }

  /** An increasing list of numbers below `n` has at most `n` elements. */
  lemma {:induction false} IncreasingBelow(l: seq<nat>, n: nat)
    requires StrictlyIncreasing(l) && forall k :: 0 <= k < |l| ==> l[k] < n
    ensures |l| <= n
  {
    if |l| > 0 {
      var last := l[|l| - 1];
      IncreasingBelow(l[..|l| - 1], last);
    }
  }

  // ---------------------------------------------------------------------------------
  // Runs of equal frames (`torch.unique_consecutive(..., return_counts=True)`)

  datatype Run = Run(blank: bool, count: nat)

  /** The first frame of run `j`: the total length of the runs before it. */
  function Start(runs: seq<Run>, j: nat): nat
    requires j <= |runs|
  {
    if j == 0 then 0 else Start(runs, j - 1) + runs[j - 1].count
  }

  /** Run `j` covers the frames `Start(runs, j) .. Start(runs, j + 1) - 1`. */
  lemma StartNext(runs: seq<Run>, j: nat)
    requires j < |runs|
    ensures Start(runs, j + 1) == Start(runs, j) + runs[j].count
  {
  }

  lemma {:induction false} StartPrefix(runs: seq<Run>, runs': seq<Run>, j: nat)
    requires j <= |runs| && j <= |runs'| && runs[..j] == runs'[..j]
    ensures Start(runs, j) == Start(runs', j)
  {
    if j > 0 {
      assert runs[..j - 1] == runs'[..j - 1];
      assert runs[j - 1] == runs[..j][j - 1];
      StartPrefix(runs, runs', j - 1);
    }
  }

  lemma {:induction false} StartMono(runs: seq<Run>, i: nat, j: nat)
    requires i <= j <= |runs|
    ensures Start(runs, i) <= Start(runs, j)
    decreases j
  {
    if i < j {
      StartMono(runs, i, j - 1);
    }
  }

  /**
   * `runs` is the run-length encoding of `b`: non-empty runs of alternating value
   * that together cover the mask, each frame carrying the value of its run.
   */
  ghost predicate RunsOf(runs: seq<Run>, b: seq<bool>)
  {
    && Start(runs, |runs|) == |b|
    && (forall j :: 0 <= j < |runs| ==> runs[j].count >= 1)
    && (forall i, j {:trigger runs[i], runs[j]} :: 0 <= i && j == i + 1 < |runs| ==> runs[i].blank != runs[j].blank)
    && (forall j :: 0 <= j < |runs| ==> Covers(runs, b, j))
  }

  /** Every frame of run `j` carries the run's value. */
  ghost predicate Covers(runs: seq<Run>, b: seq<bool>, j: nat)
    requires j < |runs|
  {
    forall t :: Start(runs, j) <= t < Start(runs, j) + runs[j].count && t < |b| ==> b[t] == runs[j].blank
  }

  /** A frame of run `j` carries the run's value. */
  lemma FrameValue(runs: seq<Run>, b: seq<bool>, j: nat, t: nat)
    requires RunsOf(runs, b) && j < |runs| && Start(runs, j) <= t < Start(runs, j) + runs[j].count && t < |b|
    ensures b[t] == runs[j].blank
  {
    assert Covers(runs, b, j);
  }

  /** `torch.unique_consecutive(blanks, return_counts=True)`: the runs of equal frames. */
  function Runs(b: seq<bool>): (runs: seq<Run>)
    ensures RunsOf(runs, b)
  {
    if |b| == 0 then []
    else
      var n := |b| - 1;
      var r := Runs(b[..n]);
      var x := b[n];
      if |r| > 0 && r[|r| - 1].blank == x then
        var r' := r[..|r| - 1] + [Run(x, r[|r| - 1].count + 1)];
        RunsExtend(r, r', b);
        r'
      else
        var r' := r + [Run(x, 1)];
        RunsAppend(r, r', b);
        r'
  }

  lemma RunsExtend(r: seq<Run>, r': seq<Run>, b: seq<bool>)
    requires 0 < |b| && RunsOf(r, b[..|b| - 1]) && 0 < |r| && r[|r| - 1].blank == b[|b| - 1]
    requires r' == r[..|r| - 1] + [Run(b[|b| - 1], r[|r| - 1].count + 1)]
    ensures RunsOf(r', b)
  {
    var n, m := |b| - 1, |r| - 1;
    forall j | 0 <= j <= m ensures Start(r', j) == Start(r, j) {
      StartPrefix(r, r', j);
    }
    StartNext(r, m);
    StartNext(r', m);
    forall j | 0 <= j < |r'| ensures Covers(r', b, j) {
      forall t | Start(r', j) <= t < Start(r', j) + r'[j].count && t < |b|
        ensures b[t] == r'[j].blank
      {
        if j < m {
          StartNext(r, j);
          StartMono(r, j + 1, |r|);
          FrameValue(r, b[..n], j, t);
          assert b[..n][t] == b[t];
        } else if t < n {
          FrameValue(r, b[..n], m, t);
          assert b[..n][t] == b[t];
        }
      }
    }
  }

  lemma RunsAppend(r: seq<Run>, r': seq<Run>, b: seq<bool>)
    requires 0 < |b| && RunsOf(r, b[..|b| - 1]) && (|r| == 0 || r[|r| - 1].blank != b[|b| - 1])
    requires r' == r + [Run(b[|b| - 1], 1)]
    ensures RunsOf(r', b)
  {
    var n, m := |b| - 1, |r|;
    forall j | 0 <= j <= m ensures Start(r', j) == Start(r, j) {
      StartPrefix(r, r', j);
    }
    StartNext(r', m);
    forall j | 0 <= j < |r'| ensures Covers(r', b, j) {
      forall t | Start(r', j) <= t < Start(r', j) + r'[j].count && t < |b|
        ensures b[t] == r'[j].blank
      {
        if j < m {
          StartNext(r, j);
          StartMono(r, j + 1, |r|);
          FrameValue(r, b[..n], j, t);
          assert b[..n][t] == b[t];
        }
      }
    }
  }

  /** Frame `t` of a mask lies in exactly one run, whose value it carries. */
  lemma {:induction false} RunOf(runs: seq<Run>, b: seq<bool>, t: nat) returns (j: nat)
    requires RunsOf(runs, b) && t < |b|
    ensures j < |runs| && Start(runs, j) <= t < Start(runs, j) + runs[j].count && b[t] == runs[j].blank
  {
    j := 0;
    while Start(runs, j) + runs[j].count <= t
      invariant j < |runs| && Start(runs, j) <= t
      decreases |runs| - j
    {
      StartNext(runs, j);
      j := j + 1;
    }
    FrameValue(runs, b, j, t);
  }

  /** A blank first run is the leading blank run. */
  lemma FirstRun(runs: seq<Run>, b: seq<bool>)
    requires RunsOf(runs, b) && 0 < |b|
    ensures 0 < |runs| && b[0] == runs[0].blank
    ensures b[0] ==> LeadingBlanks(b) == runs[0].count
  {
    StartNext(runs, 0);
    StartMono(runs, 1, |runs|);
    var c := runs[0].count;
    FrameValue(runs, b, 0, 0);
    if b[0] {
      forall t | 0 <= t < c ensures b[t] {
        FrameValue(runs, b, 0, t);
      }
      if c < |b| {
        StartNext(runs, 1);
        FrameValue(runs, b, 1, c);
      }
      LeadingUnique(b, c);
    } else {
      LeadingUnique(b, 0);
    }
  }

  /** A blank last run is the trailing blank run. */
  lemma LastRun(runs: seq<Run>, b: seq<bool>)
    requires RunsOf(runs, b) && 0 < |b|
    ensures 0 < |runs| && b[|b| - 1] == runs[|runs| - 1].blank
    ensures b[|b| - 1] ==> TrailingBlanks(b) == runs[|runs| - 1].count
  {
    var last := |runs| - 1;
    StartNext(runs, last);
    var s := Start(runs, last);
    FrameValue(runs, b, last, |b| - 1);
    if b[|b| - 1] && 0 < s {
      StartNext(runs, last - 1);
      FrameValue(runs, b, last - 1, s - 1);
    }
    forall u | s <= u < |b| ensures b[u] == runs[last].blank {
      FrameValue(runs, b, last, u);
    }
    TrailingUnique(b, if b[|b| - 1] then |b| - s else 0);
  }

  lemma LeadingUnique(b: seq<bool>, n: nat)
    requires n <= |b| && (forall t :: 0 <= t < n ==> b[t]) && (n < |b| ==> !b[n])
    ensures LeadingBlanks(b) == n
  {
  }

  lemma TrailingUnique(b: seq<bool>, n: nat)
    requires n <= |b| && (forall t :: |b| - n <= t < |b| ==> b[t]) && (n < |b| ==> !b[|b| - n - 1])
    ensures TrailingBlanks(b) == n
  {
  }

  // ---------------------------------------------------------------------------------
  // `blank_collapse_init`

  /** The sum of a list of counts. */
  function Sum(cc: seq<nat>): nat
  {
    if |cc| == 0 then 0 else Sum(cc[..|cc| - 1]) + cc[|cc| - 1]
  }

  /** `torch.cumsum`: entry `k` is the sum of the first `k + 1` counts. */
  function CumSum(cc: seq<nat>): (r: seq<nat>)
    ensures |r| == |cc|
  {
    if |cc| == 0 then [] else CumSum(cc[..|cc| - 1]) + [Sum(cc)]
  }

  /** `torch.cumsum(cc) - 1 + first_blanks`. */
  function Indices(first: nat, cc: seq<nat>): (r: seq<int>)
    ensures |r| == |cc|
  {
    var cs := CumSum(cc);
    seq(|cs|, k requires 0 <= k < |cs| => first + cs[k] - 1)
  }

  /** `[1] * c`. */
  function Ones(c: nat): (r: seq<nat>)
    ensures |r| == c && forall i :: 0 <= i < c ==> r[i] == 1
  {
    seq(c, i => 1)
  }

  /** The frames `s, s + 1, ..., s + c - 1`. */
  function Range(s: nat, c: nat): (r: seq<nat>)
    ensures |r| == c && forall i :: 0 <= i < c ==> r[i] == s + i
  {
    seq(c, i requires 0 <= i < c => s + i)
  }

  /** Appending a count `c` appends one index: the last frame covered by the counts so far plus `c`. */
  lemma IndicesAppend(first: nat, cc: seq<nat>, c: nat)
    ensures Sum(cc + [c]) == Sum(cc) + c
    ensures Indices(first, cc + [c]) == Indices(first, cc) + [first + Sum(cc) + c - 1]
  {
    assert (cc + [c])[..|cc|] == cc;
  }

  /** Appending `c` ones appends the indices of the next `c` frames. */
  lemma {:induction false} IndicesOnes(first: nat, cc: seq<nat>, c: nat)
    ensures Sum(cc + Ones(c)) == Sum(cc) + c
    ensures Indices(first, cc + Ones(c)) == Indices(first, cc) + Range(first + Sum(cc), c)
  {
    if c == 0 {
      assert cc + Ones(c) == cc;
    } else {
      IndicesOnes(first, cc, c - 1);
      assert cc + Ones(c) == (cc + Ones(c - 1)) + [1];
      IndicesAppend(first, cc + Ones(c - 1), 1);
      assert Range(first + Sum(cc), c) == Range(first + Sum(cc), c - 1) + [first + Sum(cc) + c - 1];
    }
  }

  /** `idx` lists, in increasing order, exactly the kept frames before frame `n`. */
  ghost predicate KeptBefore(idx: seq<nat>, b: seq<bool>, n: nat)
  {
    && StrictlyIncreasing(idx)
    && (forall k :: 0 <= k < |idx| ==> idx[k] < n)
    && (forall t: nat :: t in idx <==> t < n && t < |b| && Keep(b, t))
  }

  /** A run other than a blank first or last run lies between the leading and the trailing blanks. */
  lemma InnerRun(runs: seq<Run>, b: seq<bool>, j: nat)
    requires RunsOf(runs, b) && j < |runs|
    requires runs[j].blank ==> 0 < j < |runs| - 1
    ensures LeadingBlanks(b) <= Start(runs, j) && Start(runs, j + 1) <= |b| - TrailingBlanks(b)
  {
    LeadingBefore(runs, b, j);
    TrailingAfter(runs, b, j);
  }

  lemma LeadingBefore(runs: seq<Run>, b: seq<bool>, j: nat)
    requires RunsOf(runs, b) && j < |runs|
    requires runs[j].blank ==> 0 < j
    ensures LeadingBlanks(b) <= Start(runs, j)
  {
    StartNext(runs, 0);
    StartMono(runs, 1, |runs|);
    FirstRun(runs, b);
    if 0 < j {
      StartMono(runs, 1, j);
    } else {
      assert !b[0];
    }
  }

  lemma TrailingAfter(runs: seq<Run>, b: seq<bool>, j: nat)
    requires RunsOf(runs, b) && j < |runs|
    requires runs[j].blank ==> j < |runs| - 1
    ensures Start(runs, j + 1) <= |b| - TrailingBlanks(b)
  {
    var last := |runs| - 1;
    LastRunBound(runs, b);
    if j < last {
      StartMono(runs, j + 1, last);
    } else {
      assert TrailingBlanks(b) == 0;
    }
  }

  /** The trailing blanks lie inside the last run, and there are none after a label run. */
  lemma LastRunBound(runs: seq<Run>, b: seq<bool>)
    requires RunsOf(runs, b) && 0 < |runs|
    ensures Start(runs, |runs| - 1) <= |b| - TrailingBlanks(b)
    ensures !runs[|runs| - 1].blank ==> TrailingBlanks(b) == 0
  {
    var last := |runs| - 1;
    StartNext(runs, last);
    assert 0 < runs[last].count;
    LastRun(runs, b);
  }

  /** Every frame of a label run is kept. */
  lemma LabelRunKept(runs: seq<Run>, b: seq<bool>, j: nat, t: nat)
    requires RunsOf(runs, b) && j < |runs| && !runs[j].blank
    requires Start(runs, j) <= t < Start(runs, j + 1)
    ensures t < |b| && Keep(b, t)
  {
    StartNext(runs, j);
    StartMono(runs, j + 1, |runs|);
    FrameValue(runs, b, j, t);
  }

  /** Of a blank run between two label runs only the last frame is kept. */
  lemma BlankRunKept(runs: seq<Run>, b: seq<bool>, j: nat, t: nat)
    requires RunsOf(runs, b) && 0 < j < |runs| - 1 && runs[j].blank
    requires Start(runs, j) <= t < Start(runs, j + 1)
    ensures t < |b| && (Keep(b, t) <==> t + 1 == Start(runs, j + 1))
  {
    InnerRun(runs, b, j);
    StartNext(runs, j);
    StartNext(runs, j + 1);
    StartMono(runs, j + 2, |runs|);
    FrameValue(runs, b, j, t);
    if t + 1 < Start(runs, j + 1) {
      FrameValue(runs, b, j, t + 1);
    } else {
      FrameValue(runs, b, j + 1, t + 1);
    }
  }

  /** No frame of a blank first run is kept. */
  lemma LeadingRunDropped(runs: seq<Run>, b: seq<bool>)
    requires RunsOf(runs, b) && 0 < |runs| && runs[0].blank
    ensures runs[0].count == LeadingBlanks(b) == Start(runs, 1)
    ensures KeptBefore([], b, Start(runs, 1))
  {
    StartNext(runs, 0);
    StartMono(runs, 1, |runs|);
    FirstRun(runs, b);
  }

  /** No frame of a blank last run is kept. */
  lemma TrailingRunDropped(runs: seq<Run>, b: seq<bool>, idx: seq<nat>)
    requires RunsOf(runs, b) && 0 < |runs| && runs[|runs| - 1].blank
    requires KeptBefore(idx, b, Start(runs, |runs| - 1))
    ensures KeptBefore(idx, b, |b|)
  {
    StartNext(runs, |runs| - 1);
    LastRun(runs, b);
  }

  lemma LabelStep(runs: seq<Run>, b: seq<bool>, j: nat, idx: seq<nat>)
    requires RunsOf(runs, b) && j < |runs| && !runs[j].blank
    requires KeptBefore(idx, b, Start(runs, j))
    ensures KeptBefore(idx + Range(Start(runs, j), runs[j].count), b, Start(runs, j + 1))
  {
    StartNext(runs, j);
    var s, c := Start(runs, j), runs[j].count;
    var idx' := idx + Range(s, c);
    forall t: nat
      ensures t in idx' <==> t < s + c && t < |b| && Keep(b, t)
    {
      if s <= t < s + c {
        LabelRunKept(runs, b, j, t);
        assert idx'[|idx| + t - s] == t;
      }
    }
  }

  lemma BlankStep(runs: seq<Run>, b: seq<bool>, j: nat, idx: seq<nat>)
    requires RunsOf(runs, b) && 0 < j < |runs| - 1 && runs[j].blank
    requires KeptBefore(idx, b, Start(runs, j))
    ensures KeptBefore(idx + [Start(runs, j + 1) - 1], b, Start(runs, j + 1))
  {
    StartNext(runs, j);
    var s, e := Start(runs, j), Start(runs, j + 1);
    var idx' := idx + [e - 1];
    assert s < e;
    forall t: nat | s <= t < e
      ensures t < |b| && (Keep(b, t) <==> t + 1 == e)
    {
      BlankRunKept(runs, b, j, t);
    }
    assert StrictlyIncreasing(idx') by {
      forall i, k | 0 <= i < k < |idx'| ensures idx'[i] < idx'[k] {
        if k == |idx| {
          assert idx'[i] == idx[i] < s;
        }
      }
    }
    forall t: nat ensures t in idx' <==> t < e && t < |b| && Keep(b, t) {
      assert t in idx' <==> t in idx || t == e - 1;
      if s <= t < e {
        BlankRunKept(runs, b, j, t);
        assert t !in idx;
      }
    }
  }

  /** Python's `xs[i]` for an integer index: negative indices count from the end. */
  function PyIndex<T>(xs: seq<T>, i: int): (r: Result<T, string>)
    ensures r.Success? <==> -|xs| <= i < |xs|
  {
    if 0 <= i < |xs| then Success(xs[i])
    else if -|xs| <= i < 0 then Success(xs[|xs| + i])
    else Failure("IndexError: index out of range")
  }

  /** `xs[indices]` for a list of integer indices. */
  function PyGather<T>(xs: seq<T>, indices: seq<int>): (r: Result<seq<T>, string>)
    ensures r.Success? <==> forall k :: 0 <= k < |indices| ==> PyIndex(xs, indices[k]).Success?
    ensures r.Success? ==> |r.value| == |indices| && forall k :: 0 <= k < |indices| ==> r.value[k] == PyIndex(xs, indices[k]).value
  {
    if |indices| == 0 then Success([])
    else match (PyIndex(xs, indices[0]), PyGather(xs, indices[1..]))
      case (Success(x), Success(rest)) => Success([x] + rest)
      case (Failure(e), _) => Failure(e)
      case (_, Failure(e)) => Failure(e)
  }

  /**
   * `blank_collapse_init`: walks the runs, recording the leading blank count,
   * one count per frame of a label run and one count per blank run in between,
   * and stops at a trailing blank run; the kept frames are the running sums of
   * the counts, shifted by the leading blank count. With no count recorded (an
   * all-blank mask) the single index -1 picks the last frame; on an empty mask
   * that index is out of range.
   */
  method CollapseInit<T>(emission: seq<T>, blanks: seq<bool>) returns (r: Result<(seq<T>, seq<int>), string>)
    requires |emission| == |blanks|
    ensures r.Success? <==> 0 < |blanks|
    ensures r.Success? && !AllBlank(blanks) ==>
              r.value.1 == Kept(blanks) && |r.value.0| == |Kept(blanks)| &&
              forall k :: 0 <= k < |r.value.0| ==> r.value.0[k] == emission[Kept(blanks)[k]]
    ensures r.Success? && AllBlank(blanks) ==> r.value == ([emission[|emission| - 1]], [-1])
  {
    var first, cc := RunCounts(blanks);
    if |cc| == 0 {
      cc := [0];
      first := 0;
    }
    var indices := Indices(first, cc);
    match PyGather(emission, indices) {
      case Failure(e) => r := Failure(e);
      case Success(frames) => r := Success((frames, indices));
    }
    if AllBlank(blanks) {
      KeptAllBlank(blanks);
      LastFrame(emission);
    } else {
      KeptNonEmpty(blanks);
      GatherInRange(emission, Kept(blanks));
    }
  }

  /** The index list `[-1]` picks the last frame, and fails on no frames. */
  lemma LastFrame<T>(xs: seq<T>)
    ensures Indices(0, [0]) == [-1]
    ensures PyGather(xs, [-1]).Success? <==> 0 < |xs|
    ensures 0 < |xs| ==> PyGather(xs, [-1]).value == [xs[|xs| - 1]]
  {
    assert CumSum([0]) == [0];
  }

  /**
   * The loop of `blank_collapse_init`: the leading blank count `first` and the
   * counts `cc` whose running sums, shifted by `first`, are the kept frames.
   */
  method RunCounts(blanks: seq<bool>) returns (first: nat, cc: seq<nat>)
    ensures Indices(first, cc) == Kept(blanks)
  {
    var runs := Runs(blanks);
    first, cc := 0, [];
    ghost var idx: seq<nat> := [];
    var j := 0;
    while j < |runs|
      invariant j <= |runs|
      invariant Walked(runs, blanks, j, first, cc, idx) == true
    {
      var c := runs[j].count;
      if runs[j].blank {
        if j == 0 {
          WalkLeading(runs, blanks, first, cc, idx);
          first := c;
        } else if j == |runs| - 1 {
          WalkTrailing(runs, blanks, j, first, cc, idx);
          break;
        } else {
          WalkBlank(runs, blanks, j, first, cc, idx);
          cc := cc + [c];
          idx := idx + [Start(runs, j + 1) - 1];
        }
      } else {
        WalkLabel(runs, blanks, j, first, cc, idx);
        cc := cc + Ones(c);
        idx := idx + Range(Start(runs, j), c);
      }
      j := j + 1;
    }
    assert KeptBefore(idx, blanks, |blanks|) && Indices(first, cc) == idx;
    SameElements(idx, Kept(blanks));
  }

  /**
   * The state of the loop of `blank_collapse_init` after the first `j` runs:
   * `first` plus the counts reach the start of run `j`, and the indices they give
   * are exactly the kept frames before it.
   */
  ghost predicate Walked(runs: seq<Run>, b: seq<bool>, j: nat, first: nat, cc: seq<nat>, idx: seq<nat>)
  {
    && RunsOf(runs, b)
    && j <= |runs|
    && first + Sum(cc) == Start(runs, j)
    && Indices(first, cc) == idx
    && KeptBefore(idx, b, Start(runs, j))
  }

  lemma WalkLeading(runs: seq<Run>, b: seq<bool>, first: nat, cc: seq<nat>, idx: seq<nat>)
    requires Walked(runs, b, 0, first, cc, idx) && 0 < |runs| && runs[0].blank
    ensures Walked(runs, b, 1, runs[0].count, cc, idx)
  {
    LeadingRunDropped(runs, b);
    IncreasingBelow(idx, 0);
    assert |cc| == 0;
  }

  lemma WalkTrailing(runs: seq<Run>, b: seq<bool>, j: nat, first: nat, cc: seq<nat>, idx: seq<nat>)
    requires Walked(runs, b, j, first, cc, idx) && j == |runs| - 1 && runs[j].blank
    ensures KeptBefore(idx, b, |b|) && Indices(first, cc) == idx
  {
    TrailingRunDropped(runs, b, idx);
  }

  lemma WalkBlank(runs: seq<Run>, b: seq<bool>, j: nat, first: nat, cc: seq<nat>, idx: seq<nat>)
    requires Walked(runs, b, j, first, cc, idx) && 0 < j < |runs| - 1 && runs[j].blank
    ensures Walked(runs, b, j + 1, first, cc + [runs[j].count], idx + [Start(runs, j + 1) - 1])
  {
    StartNext(runs, j);
    BlankStep(runs, b, j, idx);
    IndicesAppend(first, cc, runs[j].count);
  }

  lemma WalkLabel(runs: seq<Run>, b: seq<bool>, j: nat, first: nat, cc: seq<nat>, idx: seq<nat>)
    requires Walked(runs, b, j, first, cc, idx) && j < |runs| && !runs[j].blank
    ensures Walked(runs, b, j + 1, first, cc + Ones(runs[j].count), idx + Range(Start(runs, j), runs[j].count))
  {
    StartNext(runs, j);
    LabelStep(runs, b, j, idx);
    IndicesOnes(first, cc, runs[j].count);
  }

  /** Gathering at indices within range succeeds and picks the frames at those indices. */
  lemma GatherInRange<T>(xs: seq<T>, indices: seq<nat>)
    requires forall k :: 0 <= k < |indices| ==> indices[k] < |xs|
    ensures PyGather(xs, indices).Success?
    ensures forall k :: 0 <= k < |indices| ==> PyGather(xs, indices).value[k] == xs[indices[k]]
  {
  }

  /** An all-blank mask keeps no frame. */
  lemma KeptAllBlank(b: seq<bool>)
    requires AllBlank(b)
    ensures Kept(b) == []
  {
    LeadingUnique(b, |b|);
    NoPositions(seq(|b|, t requires 0 <= t < |b| => Keep(b, t)), 0);
  }

  lemma {:induction false} NoPositions(flags: seq<bool>, offset: nat)
    requires forall u :: 0 <= u < |flags| ==> !flags[u]
    ensures Positions(flags, offset) == []
  {
    if |flags| > 0 {
      NoPositions(flags[..|flags| - 1], offset);
    }
  }

  // ---------------------------------------------------------------------------------
  // `blank_collapse_single`

  /**
   * The frames `blank_collapse_single` keeps: cut the leading and trailing blank
   * runs (their lengths read from the first and last run counts), then drop each
   * remaining frame that is blank and whose successor, taken cyclically as
   * `torch.roll(blanks, -1)` does, is blank too. An empty mask fails at `blanks[0]`
   * and an all-blank mask at the assertion's `blanks[0]` of the empty slice.
   */
  function SingleKept(blanks: seq<bool>): Result<seq<nat>, string>
  {
    if |blanks| == 0 then Failure("IndexError: empty mask")
    else
      var (initialCnt, finalCnt) := EdgeCounts(blanks);
      SingleCut(blanks, initialCnt, finalCnt)
  }

  /** The slice between the counted edge runs, and the frames kept from it. */
  function SingleCut(blanks: seq<bool>, initialCnt: nat, finalCnt: nat): Result<seq<nat>, string>
  {
    var lo, hi := initialCnt, |blanks| - finalCnt;
    if hi <= lo then Failure("IndexError: every frame is blank")
    else
      var seg := blanks[lo..hi];
      if seg[0] || seg[|seg| - 1] then Failure("AssertionError")
      else Success(Positions(CyclicFlags(seg), lo))
  }

  /**
   * The first run's count if the mask starts blank (else 0) and the last run's
   * count if it ends blank (else 0): the lengths of the leading and trailing blank runs.
   */
  function EdgeCounts(blanks: seq<bool>): (r: (nat, nat))
    requires 0 < |blanks|
    ensures r.0 == LeadingBlanks(blanks) && r.1 == TrailingBlanks(blanks)
  {
    var runs := Runs(blanks);
    FirstRun(runs, blanks);
    LastRun(runs, blanks);
    (if blanks[0] then runs[0].count else 0, if blanks[|blanks| - 1] then runs[|runs| - 1].count else 0)
  }

  /** `~(seg & torch.roll(seg, -1))`: a frame is dropped when it and its cyclic successor are blank. */
  function CyclicFlags(seg: seq<bool>): (r: seq<bool>)
    ensures |r| == |seg|
    ensures forall u {:trigger r[u]} :: 0 <= u < |seg| ==> (r[u] <==> !(seg[u] && seg[(u + 1) % |seg|]))
  {
    seq(|seg|, u requires 0 <= u < |seg| => !(seg[u] && seg[(u + 1) % |seg|]))
  }

  /** `blank_collapse_single`: the kept frames of `logprobs`, in order. */
  function CollapseSingle<T>(logprobs: seq<T>, blanks: seq<bool>): (r: Result<seq<T>, string>)
    requires |logprobs| == |blanks|
    ensures r.Success? <==> SingleKept(blanks).Success?
    ensures r.Success? ==> |r.value| == |SingleKept(blanks).value|
  {
    match SingleKept(blanks)
    case Failure(e) => Failure(e)
    case Success(kept) => Success(seq(|kept|, k requires 0 <= k < |kept| => logprobs[kept[k]]))
  }

  /**
   * `blank_collapse_single` fails exactly on an all-blank (or empty) mask; otherwise
   * it keeps exactly the frames of `Kept`, in order.
   */
  lemma SingleIsKept(blanks: seq<bool>)
    ensures SingleKept(blanks).Success? <==> !AllBlank(blanks)
    ensures SingleKept(blanks).Success? ==> SingleKept(blanks).value == Kept(blanks)
  {
    if AllBlank(blanks) {
      SingleAllBlank(blanks);
    } else {
      var p := SingleSegment(blanks);
      SameElements(p, Kept(blanks));
    }
  }

  /** On an all-blank mask the leading run is the whole mask, and the single-row collapse fails. */
  lemma SingleAllBlank(blanks: seq<bool>)
    requires AllBlank(blanks)
    ensures SingleKept(blanks).Failure?
  {
    if |blanks| > 0 {
      LeadingUnique(blanks, |blanks|);
      var (lo, n) := EdgeCounts(blanks);
      assert SingleKept(blanks) == SingleCut(blanks, lo, n);
    }
  }

  /** With a label frame, the single-row collapse succeeds on the segment between the cuts. */
  lemma SingleSegment(blanks: seq<bool>) returns (p: seq<nat>)
    requires !AllBlank(blanks)
    ensures SingleKept(blanks) == Success(p)
    ensures StrictlyIncreasing(p) && forall t :: t in p <==> t in Kept(blanks)
  {
    Bounds(blanks);
    var n := TrailingBlanks(blanks);
    var lo, hi := LeadingBlanks(blanks), |blanks| - n;
    assert !blanks[lo] && !blanks[hi - 1];
    SliceEnds(blanks, lo, hi);
    SingleKeptOf(blanks, lo, n);
    p := Positions(CyclicFlags(blanks[lo..hi]), lo);
    SegmentKept(blanks, lo, hi);
  }

  /** Unfolding `SingleKept` once its cut is known to leave a segment with label frames at both ends. */
  lemma SingleKeptOf(blanks: seq<bool>, lo: nat, n: nat)
    requires 0 < |blanks| && EdgeCounts(blanks) == (lo, n) && lo < |blanks| - n
    requires !blanks[lo..|blanks| - n][0] && !blanks[lo..|blanks| - n][|blanks[lo..|blanks| - n]| - 1]
    ensures SingleKept(blanks) == Success(Positions(CyclicFlags(blanks[lo..|blanks| - n]), lo))
  {
    assert SingleKept(blanks) == SingleCut(blanks, lo, n);
    CutOf(blanks, lo, n);
  }

  lemma CutOf(blanks: seq<bool>, lo: nat, n: nat)
    requires lo < |blanks| - n
    requires !blanks[lo..|blanks| - n][0] && !blanks[lo..|blanks| - n][|blanks[lo..|blanks| - n]| - 1]
    ensures SingleCut(blanks, lo, n) == Success(Positions(CyclicFlags(blanks[lo..|blanks| - n]), lo))
  {
  }

  lemma SliceEnds(b: seq<bool>, lo: nat, hi: nat)
    requires lo < hi <= |b|
    ensures b[lo..hi][0] == b[lo] && b[lo..hi][|b[lo..hi]| - 1] == b[hi - 1]
  {
  }

  /** Inside the cut, the cyclic flags keep exactly the frames `Keep` keeps. */
  lemma SegmentKept(blanks: seq<bool>, lo: nat, hi: nat)
    requires lo == LeadingBlanks(blanks) && hi == |blanks| - TrailingBlanks(blanks) && lo < hi
    ensures forall t :: t in Positions(CyclicFlags(blanks[lo..hi]), lo) <==> t in Kept(blanks)
  {
    forall t: nat {
      SegmentMember(blanks, lo, hi, t);
    }
  }

  lemma SegmentMember(blanks: seq<bool>, lo: nat, hi: nat, t: nat)
    requires lo == LeadingBlanks(blanks) && hi == |blanks| - TrailingBlanks(blanks) && lo < hi
    ensures t in Positions(CyclicFlags(blanks[lo..hi]), lo) <==> t in Kept(blanks)
  {
    var p := Positions(CyclicFlags(blanks[lo..hi]), lo);
    if lo <= t < hi {
      LastLabel(blanks);
      SegmentFlag(blanks, lo, hi, t);
      assert t in p <==> Keep(blanks, t);
    } else {
      assert t !in p;
      assert t !in Kept(blanks);
    }
  }

  lemma SegmentFlag(b: seq<bool>, lo: nat, hi: nat, t: nat)
    requires lo <= t < hi <= |b| && !b[hi - 1]
    ensures CyclicFlags(b[lo..hi])[t - lo] == !(b[t] && t + 1 < |b| && b[t + 1])
  {
    var seg := b[lo..hi];
    var u := t - lo;
    var n := |seg|;
    SliceAt(b, lo, hi, u);
    var next := if t + 1 < hi then u + 1 else 0;
    if t + 1 < hi {
      ModNext(u, n);
      SliceAt(b, lo, hi, u + 1);
    } else {
      ModWrap(u, n);
    }
    assert (u + 1) % n == next;
    assert CyclicFlags(seg)[u] == !(seg[u] && seg[next]);
  }

  lemma LastLabel(b: seq<bool>)
    requires TrailingBlanks(b) < |b|
    ensures !b[|b| - TrailingBlanks(b) - 1]
  {
  }

  lemma SliceAt(b: seq<bool>, lo: nat, hi: nat, v: nat)
    requires lo <= hi <= |b| && v < hi - lo
    ensures b[lo..hi][v] == b[lo + v]
  {
  }

  lemma ModWrap(u: nat, n: nat)
    requires u + 1 == n
    ensures (u + 1) % n == 0
  {
  }

  lemma ModNext(u: nat, n: nat)
    requires u + 1 < n
    ensures (u + 1) % n == u + 1
  {
  }

  /** The collapsed frames are the input frames at the kept positions. */
  lemma CollapseSingleFrames<T>(logprobs: seq<T>, blanks: seq<bool>)
    requires |logprobs| == |blanks| && !AllBlank(blanks)
    ensures CollapseSingle(logprobs, blanks).Success?
    ensures var out := CollapseSingle(logprobs, blanks).value;
            |out| == |Kept(blanks)| && forall k :: 0 <= k < |out| ==> out[k] == logprobs[Kept(blanks)[k]]
  {
    SingleIsKept(blanks);
  }

  // ---------------------------------------------------------------------------------
  // `blank_collapse_batched`

  /** A row's mask with its padding frames (those at or after the row's length) marked blank. */
  function RowMask(blanks: seq<bool>, len: nat): (m: seq<bool>)
    ensures |m| == |blanks|
    ensures forall t :: 0 <= t < |m| ==> m[t] == (blanks[t] || t >= len)
  {
    seq(|blanks|, t requires 0 <= t < |blanks| => blanks[t] || t >= len)
  }

  /**
   * The batched keep mask of one row: not (blank and followed, cyclically as
   * `torch.roll(blanks, -1, dims=1)` does, by a blank), and within the row's first
   * and last label frame `lo` and `last`.
   */
  function BatchedFlags(m: seq<bool>, lo: nat, last: nat): (r: seq<bool>)
    ensures |r| == |m|
    ensures forall t :: 0 <= t < |m| ==> (r[t] <==> !((m[t] && m[(t + 1) % |m|]) || t < lo || t > last))
  {
    seq(|m|, t requires 0 <= t < |m| => !((m[t] && m[(t + 1) % |m|]) || t < lo || t > last))
  }

  /** The first and the last label frame of a row that has one. */
  function LabelBounds(m: seq<bool>): (r: (nat, nat))
    requires !AllBlank(m)
    ensures r.0 <= r.1 < |m| && !m[r.0] && !m[r.1]
    ensures forall t :: 0 <= t < |m| && !m[t] ==> r.0 <= t <= r.1
  {
    Bounds(m);
    LastLabel(m);
    (LeadingBlanks(m), |m| - TrailingBlanks(m) - 1)
  }

  /** The frames the batched mask keeps in one row. */
  function BatchedRowKept(m: seq<bool>): (r: seq<nat>)
    requires !AllBlank(m)
    ensures forall k :: 0 <= k < |r| ==> r[k] < |m|
  {
    var (lo, last) := LabelBounds(m);
    Positions(BatchedFlags(m, lo, last), 0)
  }

  /** The largest entry of a non-empty list (`torch.max`). */
  function Max(xs: seq<nat>): (r: nat)
    requires 0 < |xs|
    ensures r in xs && forall k :: 0 <= k < |xs| ==> xs[k] <= r
  {
    if |xs| == 1 then xs[0]
    else
      var m := Max(xs[1..]);
      assert forall k :: 1 <= k < |xs| ==> xs[k] == xs[1..][k - 1];
      if xs[0] >= m then xs[0] else m
  }

  /** `pad_sequence(..., batch_first=True)` of one row: zeros appended up to `width`. */
  function PadZeros(l: seq<nat>, width: nat): (r: seq<nat>)
    requires |l| <= width
    ensures |r| == width
    ensures forall k :: 0 <= k < width ==> r[k] == (if k < |l| then l[k] else 0)
  {
    l + seq(width - |l|, _ => 0)
  }

  /** Every row has `width` frames. */
  ghost predicate Rows<T>(xs: seq<seq<T>>, width: nat)
  {
    forall b :: 0 <= b < |xs| ==> |xs[b]| == width
  }

  /** The masks of all rows. */
  function Masks(blanks: seq<seq<bool>>, lens: seq<nat>): (r: seq<seq<bool>>)
    requires |lens| == |blanks|
    ensures |r| == |blanks| && forall b :: 0 <= b < |r| ==> r[b] == RowMask(blanks[b], lens[b])
  {
    seq(|blanks|, b requires 0 <= b < |blanks| => RowMask(blanks[b], lens[b]))
  }

  /** Row `row` gathered at the kept frames, then at frame 0 up to `width'` frames. */
  function GatherPadded<T>(row: seq<T>, kept: seq<nat>, width': nat): (r: seq<T>)
    requires |kept| <= width' && 0 < |row| && forall k :: 0 <= k < |kept| ==> kept[k] < |row|
    ensures |r| == width'
    ensures forall k :: 0 <= k < width' ==> r[k] == row[if k < |kept| then kept[k] else 0]
  {
    var indices := PadZeros(kept, width');
    seq(width', k requires 0 <= k < width' => row[indices[k]])
  }

  /**
   * `blank_collapse_batched`: each row is masked beyond its length, its kept
   * frames are gathered and zero-index padded to the longest collapsed row; the
   * new lengths are the per-row kept counts. An empty batch fails at `torch.max`
   * of no counts; a row without a label frame inside its length is refused (the
   * per-row counts of `torch.unique` would no longer line up with the rows).
   */
  function CollapseBatched<T>(logprobs: seq<seq<T>>, lens: seq<nat>, blanks: seq<seq<bool>>, width: nat)
    : Result<(seq<seq<T>>, seq<nat>), string>
    requires |logprobs| == |lens| == |blanks| && Rows(logprobs, width) && Rows(blanks, width)
  {
    var masks := Masks(blanks, lens);
    if |masks| == 0 then Failure("RuntimeError: max of an empty tensor")
    else if !forall b :: 0 <= b < |masks| ==> !AllBlank(masks[b]) then Failure("a row has no label frame")
    else
      var kept := KeptRows(masks);
      var newLens := Lengths(kept);
      var width' := Max(newLens);
      assert 0 < width by {
        var t :| 0 <= t < |masks[0]| && !masks[0][t];
      }
      Success((GatherRows(logprobs, kept, width'), newLens))
  }

  /** The kept frames of every row. */
  function KeptRows(masks: seq<seq<bool>>): (kept: seq<seq<nat>>)
    requires forall b :: 0 <= b < |masks| ==> !AllBlank(masks[b])
    ensures |kept| == |masks| && forall b :: 0 <= b < |kept| ==> kept[b] == BatchedRowKept(masks[b])
  {
    seq(|masks|, b requires 0 <= b < |masks| => BatchedRowKept(masks[b]))
  }

  /** The number of kept frames of every row. */
  function Lengths(kept: seq<seq<nat>>): (r: seq<nat>)
    ensures |r| == |kept| && forall b :: 0 <= b < |r| ==> r[b] == |kept[b]|
  {
    seq(|kept|, b requires 0 <= b < |kept| => |kept[b]|)
  }

  /** Every row gathered at its kept frames and padded to `width'`. */
  function GatherRows<T>(rows: seq<seq<T>>, kept: seq<seq<nat>>, width': nat): (r: seq<seq<T>>)
    requires |rows| == |kept|
    requires forall b :: 0 <= b < |kept| ==> |kept[b]| <= width' && 0 < |rows[b]|
    requires forall b, k :: 0 <= b < |kept| && 0 <= k < |kept[b]| ==> kept[b][k] < |rows[b]|
    ensures |r| == |rows| && forall b :: 0 <= b < |r| ==> r[b] == GatherPadded(rows[b], kept[b], width')
  {
    seq(|rows|, b requires 0 <= b < |rows| => GatherPadded(rows[b], kept[b], width'))
  }

  /** In a row with a label frame, the batched keep mask keeps exactly the frames of `Kept`. */
  lemma BatchedRowIsKept(m: seq<bool>)
    requires !AllBlank(m)
    ensures BatchedRowKept(m) == Kept(m)
  {
    var (lo, last) := LabelBounds(m);
    var flags := BatchedFlags(m, lo, last);
    forall t | 0 <= t < |m|
      ensures flags[t] == Keep(m, t)
    {
      BatchedFlag(m, t);
    }
    assert flags == seq(|m|, t requires 0 <= t < |m| => Keep(m, t));
  }

  lemma BatchedFlag(m: seq<bool>, t: nat)
    requires !AllBlank(m) && t < |m|
    ensures BatchedFlags(m, LabelBounds(m).0, LabelBounds(m).1)[t] == Keep(m, t)
  {
    var (lo, last) := LabelBounds(m);
    if lo <= t < last {
      ModNext(t, |m|);
    }
  }

  function Min(a: nat, b: nat): nat
  {
    if a <= b then a else b
  }

  /**
   * Marking the padding blank collapses a row as if it were cut at its length:
   * the row has a label frame exactly when its unpadded part does, and then the
   * kept frames are those of the unpadded part.
   */
  lemma PaddingIgnored(blanks: seq<bool>, len: nat)
    ensures AllBlank(RowMask(blanks, len)) <==> AllBlank(blanks[..Min(len, |blanks|)])
    ensures !AllBlank(RowMask(blanks, len)) ==> Kept(RowMask(blanks, len)) == Kept(blanks[..Min(len, |blanks|)])
  {
    var m, p := RowMask(blanks, len), blanks[..Min(len, |blanks|)];
    if !AllBlank(p) {
      var u :| 0 <= u < |p| && !p[u];
      assert !m[u];
      PaddedEdges(blanks, len);
      forall t: nat
        ensures t in Kept(m) <==> t in Kept(p)
      {
        PaddedKeep(blanks, len, t);
      }
      SameElements(Kept(m), Kept(p));
    }
  }

  /** The padded row has the leading blanks of the unpadded part and the padding after its trailing blanks. */
  lemma PaddedEdges(blanks: seq<bool>, len: nat)
    requires !AllBlank(blanks[..Min(len, |blanks|)])
    ensures LeadingBlanks(RowMask(blanks, len)) == LeadingBlanks(blanks[..Min(len, |blanks|)])
    ensures |blanks| - TrailingBlanks(RowMask(blanks, len)) ==
            Min(len, |blanks|) - TrailingBlanks(blanks[..Min(len, |blanks|)])
  {
    PaddedLeading(blanks, len, blanks[..Min(len, |blanks|)]);
    PaddedTrailing(blanks, len, blanks[..Min(len, |blanks|)]);
  }

  lemma PaddedLeading(blanks: seq<bool>, len: nat, p: seq<bool>)
    requires p == blanks[..Min(len, |blanks|)] && !AllBlank(p)
    ensures LeadingBlanks(RowMask(blanks, len)) == LeadingBlanks(p)
  {
    var m := RowMask(blanks, len);
    var n := LeadingBlanks(p);
    Bounds(p);
    assert !m[n];
    assert forall t :: 0 <= t < n ==> m[t];
    LeadingUnique(m, n);
  }

  lemma PaddedTrailing(blanks: seq<bool>, len: nat, p: seq<bool>)
    requires p == blanks[..Min(len, |blanks|)] && !AllBlank(p)
    ensures |blanks| - TrailingBlanks(RowMask(blanks, len)) == |p| - TrailingBlanks(p)
  {
    var m := RowMask(blanks, len);
    var n := |blanks| - |p| + TrailingBlanks(p);
    Bounds(p);
    LastLabel(p);
    assert !m[|m| - n - 1];
    forall t | |m| - n <= t < |m|
      ensures m[t]
    {
      if t < |p| {
        assert p[t];
      }
    }
    TrailingUnique(m, n);
  }

  lemma PaddedKeep(blanks: seq<bool>, len: nat, t: nat)
    requires !AllBlank(blanks[..Min(len, |blanks|)])
    requires LeadingBlanks(RowMask(blanks, len)) == LeadingBlanks(blanks[..Min(len, |blanks|)])
    requires |blanks| - TrailingBlanks(RowMask(blanks, len)) ==
             Min(len, |blanks|) - TrailingBlanks(blanks[..Min(len, |blanks|)])
    ensures t in Kept(RowMask(blanks, len)) <==> t in Kept(blanks[..Min(len, |blanks|)])
  {
    var m, p := RowMask(blanks, len), blanks[..Min(len, |blanks|)];
    if t < |p| {
      PaddedKeepInside(blanks, len, t);
    } else if t < |m| {
      PaddedKeepOutside(blanks, len, t);
    }
  }

  /** Inside the row's length the padded mask keeps a frame exactly when the unpadded row does. */
  lemma PaddedKeepInside(blanks: seq<bool>, len: nat, t: nat)
    requires !AllBlank(blanks[..Min(len, |blanks|)])
    requires LeadingBlanks(RowMask(blanks, len)) == LeadingBlanks(blanks[..Min(len, |blanks|)])
    requires |blanks| - TrailingBlanks(RowMask(blanks, len)) ==
             Min(len, |blanks|) - TrailingBlanks(blanks[..Min(len, |blanks|)])
    requires t < Min(len, |blanks|)
    ensures Keep(RowMask(blanks, len), t) == Keep(blanks[..Min(len, |blanks|)], t)
  {
    var m, p := RowMask(blanks, len), blanks[..Min(len, |blanks|)];
    assert m[t] == p[t];
    if t + 1 < |p| {
      assert m[t + 1] == p[t + 1];
    } else {
      LastLabel(p);
    }
  }

  /** Beyond the row's length the padded mask keeps nothing. */
  lemma PaddedKeepOutside(blanks: seq<bool>, len: nat, t: nat)
    requires !AllBlank(blanks[..Min(len, |blanks|)])
    requires |blanks| - TrailingBlanks(RowMask(blanks, len)) ==
             Min(len, |blanks|) - TrailingBlanks(blanks[..Min(len, |blanks|)])
    requires Min(len, |blanks|) <= t < |blanks|
    ensures !Keep(RowMask(blanks, len), t)
  {
  }

  /** A collapsed row keeps frames only within its length, so it is never longer than before. */
  lemma CollapsedWithinLength(blanks: seq<bool>, len: nat)
    ensures forall k :: 0 <= k < |Kept(RowMask(blanks, len))| ==> Kept(RowMask(blanks, len))[k] < Min(len, |blanks|)
    ensures |Kept(RowMask(blanks, len))| <= Min(len, |blanks|)
  {
    var m := RowMask(blanks, len);
    var kept := Kept(m);
    forall k | 0 <= k < |kept|
      ensures kept[k] < Min(len, |blanks|)
    {
      assert kept[k] in kept;
      assert !m[LeadingBlanks(m)] || LeadingBlanks(m) == |m|;
    }
    IncreasingBelow(kept, Min(len, |blanks|));
  }

  /**
   * `blank_collapse_batched` succeeds on a non-empty batch whose every row has a
   * label frame within its length.
   */
  lemma CollapseBatchedSucceeds<T>(logprobs: seq<seq<T>>, lens: seq<nat>, blanks: seq<seq<bool>>, width: nat)
    requires |logprobs| == |lens| == |blanks| && Rows(logprobs, width) && Rows(blanks, width)
    ensures CollapseBatched(logprobs, lens, blanks, width).Success? <==>
              0 < |blanks| && forall b :: 0 <= b < |blanks| ==> !AllBlank(blanks[b][..Min(lens[b], width)])
  {
    var masks := Masks(blanks, lens);
    forall b | 0 <= b < |blanks|
      ensures AllBlank(masks[b]) <==> AllBlank(blanks[b][..Min(lens[b], width)])
    {
      PaddingIgnored(blanks[b], lens[b]);
    }
  }

  /**
   * Each row of a successful `blank_collapse_batched` keeps exactly the frames of
   * `Kept` of its unpadded part; its new length is their number, at most its old
   * length; it is padded with frame 0 up to the longest new length.
   */
  lemma CollapseBatchedRow<T>(logprobs: seq<seq<T>>, lens: seq<nat>, blanks: seq<seq<bool>>, width: nat, b: nat)
    requires |logprobs| == |lens| == |blanks| && Rows(logprobs, width) && Rows(blanks, width)
    requires CollapseBatched(logprobs, lens, blanks, width).Success? && b < |blanks|
    ensures |CollapseBatched(logprobs, lens, blanks, width).value.0| == |blanks|
    ensures |CollapseBatched(logprobs, lens, blanks, width).value.1| == |blanks|
    ensures var out, newLens := CollapseBatched(logprobs, lens, blanks, width).value.0,
                                CollapseBatched(logprobs, lens, blanks, width).value.1;
            var kept := Kept(blanks[b][..Min(lens[b], width)]);
            && newLens[b] == |kept| <= lens[b]
            && |out[b]| == Max(newLens)
            && forall k :: 0 <= k < |out[b]| ==> out[b][k] == logprobs[b][if k < |kept| then kept[k] else 0]
  {
    var m := RowMask(blanks[b], lens[b]);
    assert Masks(blanks, lens)[b] == m;
    PaddingIgnored(blanks[b], lens[b]);
    CollapsedWithinLength(blanks[b], lens[b]);
    BatchedRowIsKept(m);
  }
}
