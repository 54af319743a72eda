/**
 * The per-step bookkeeping of `beam_search_sep_ended`: classifying every slot of
 * the combined `[active candidates | carried ended]` row as active, ended or
 * invalid (codes 0 / 1 / 100), the stable argsort by those codes, and the repacking
 * of each row into `[active ... | ended ...]` with padding sentinels.
 */
module SepEndedOps {
  import opened TensorOps
  import opened BeamSearch

  /** The codes of `state_comb`. */
  const ACTIVE: int := 0
  const ENDED: int := 1
  const INVALID: int := 100
  /** The code active slots are remapped to before the ended pass of the argsort. */
  const REMAPPED_ACTIVE: int := 2

  /**
   * `state_comb` of one slot, built by the source's successive overwrites: start
   * active, become ended if carried over from the ended pool, if the label is
   * `eos`, or if the row reached `max_seq_len`; finally become invalid if the
   * score is at most `bad_score`. Invalid overrides ended, which overrides active.
   */
  function ClassifySlot(score: real, target: nat, carried: bool, eos: nat, i: nat, maxLen: int): (c: int)
    ensures c == ACTIVE || c == ENDED || c == INVALID
    ensures c == INVALID <==> score <= BAD
    ensures c == ENDED <==> score > BAD && (carried || target == eos || i >= maxLen)
    ensures c == ACTIVE <==> score > BAD && !carried && target != eos && i < maxLen
  {
    var c0 := ACTIVE;
    var c1 := if carried then ENDED else c0;
    var c2 := if target == eos then ENDED else c1;
    var c3 := if i >= maxLen then ENDED else c2;
    if score <= BAD then INVALID else c3
  }

  /** Every code is one of active, ended, invalid. */
  ghost predicate ValidCodes(codes: seq<int>)
  {
    forall j :: 0 <= j < |codes| ==> codes[j] == ACTIVE || codes[j] == ENDED || codes[j] == INVALID
  }

  /** The positions holding code `c`, in increasing order. */
  function Positions(codes: seq<int>, c: int): (r: seq<nat>)
    ensures forall j :: 0 <= j < |r| ==> r[j] < |codes| && codes[r[j]] == c
    ensures forall j, j' :: 0 <= j < j' < |r| ==> r[j] < r[j']
    ensures forall p :: 0 <= p < |codes| && codes[p] == c ==> p in r
    decreases |codes|
  {
    if codes == [] then []
    else Positions(codes[..|codes| - 1], c) + (if codes[|codes| - 1] == c then [|codes| - 1] else [])
  }

  /** `(state_comb == c).sum()` for one row. */
  function Count(codes: seq<int>, c: int): nat
  {
    |Positions(codes, c)|
  }

  /** The positions of `keys[0]`, then those of `keys[1]`, and so on. */
  function ArgsortByKeys(codes: seq<int>, keys: seq<int>): (perm: seq<nat>)
    ensures forall j :: 0 <= j < |perm| ==> perm[j] < |codes|
    decreases |keys|
  {
    if keys == [] then [] else Positions(codes, keys[0]) + ArgsortByKeys(codes, keys[1..])
  }

  /**
   * `perm` is what a stable argsort of `codes` returns: a permutation of the
   * positions that orders the codes, keeping equal codes in their original order.
   */
  ghost predicate IsStableArgsort(codes: seq<int>, perm: seq<nat>)
  {
    && |perm| == |codes|
    && (forall j :: 0 <= j < |perm| ==> perm[j] < |codes|)
    && Distinct(perm)
    && (forall j, j' :: 0 <= j < j' < |perm| ==> codes[perm[j]] <= codes[perm[j']])
    && (forall j, j' :: 0 <= j < j' < |perm| && codes[perm[j]] == codes[perm[j']] ==> perm[j] < perm[j'])
  }

  ghost predicate Increasing(keys: seq<int>)
  {
    forall j, j' :: 0 <= j < j' < |keys| ==> keys[j] < keys[j']
  }

  /** Every position listed has one of the keys as its code. */
  lemma {:induction false} ArgsortByKeysInRange(codes: seq<int>, keys: seq<int>)
    ensures forall j :: 0 <= j < |ArgsortByKeys(codes, keys)| ==>
              ArgsortByKeys(codes, keys)[j] < |codes| && codes[ArgsortByKeys(codes, keys)[j]] in keys
    decreases |keys|
  {
    if keys != [] {
      var first := Positions(codes, keys[0]);
      var rest := ArgsortByKeys(codes, keys[1..]);
      ArgsortByKeysInRange(codes, keys[1..]);
      var perm := first + rest;
      assert perm == ArgsortByKeys(codes, keys);
      forall j | 0 <= j < |perm|
        ensures perm[j] < |codes| && codes[perm[j]] in keys
      {
        if j >= |first| {
          assert perm[j] == rest[j - |first|];
          assert codes[rest[j - |first|]] in keys[1..];
        }
      }
    }
  }

  /** With increasing keys the listed positions are distinct, ordered by code, and stable. */
  lemma {:induction false} ArgsortByKeysOrders(codes: seq<int>, keys: seq<int>)
    requires Increasing(keys)
    ensures forall j, j' :: 0 <= j < j' < |ArgsortByKeys(codes, keys)| ==>
              && ArgsortByKeys(codes, keys)[j] != ArgsortByKeys(codes, keys)[j']
              && codes[ArgsortByKeys(codes, keys)[j]] <= codes[ArgsortByKeys(codes, keys)[j']]
              && (codes[ArgsortByKeys(codes, keys)[j]] == codes[ArgsortByKeys(codes, keys)[j']] ==>
                    ArgsortByKeys(codes, keys)[j] < ArgsortByKeys(codes, keys)[j'])
    decreases |keys|
  {
    if keys != [] {
      var first := Positions(codes, keys[0]);
      var rest := ArgsortByKeys(codes, keys[1..]);
      ArgsortByKeysOrders(codes, keys[1..]);
      ArgsortByKeysInRange(codes, keys[1..]);
      var perm := first + rest;
      assert perm == ArgsortByKeys(codes, keys);
      forall j | 0 <= j < |rest|
        ensures codes[rest[j]] > keys[0]
      {
        var k :| 0 <= k < |keys[1..]| && keys[1..][k] == codes[rest[j]];
        assert keys[k + 1] == codes[rest[j]];
      }
      forall j, j' | 0 <= j < j' < |perm|
        ensures && perm[j] != perm[j']
                && codes[perm[j]] <= codes[perm[j']]
                && (codes[perm[j]] == codes[perm[j']] ==> perm[j] < perm[j'])
      {
        if j' < |first| {
          assert perm[j] == first[j] && perm[j'] == first[j'];
        } else if j < |first| {
          assert perm[j] == first[j] && perm[j'] == rest[j' - |first|];
        } else {
          assert perm[j] == rest[j - |first|] && perm[j'] == rest[j' - |first|];
        }
      }
    }
  }

  /** Every position whose code is a key is listed. */
  lemma {:induction false} ArgsortByKeysCovers(codes: seq<int>, keys: seq<int>)
    ensures forall p :: 0 <= p < |codes| && codes[p] in keys ==> p in ArgsortByKeys(codes, keys)
    decreases |keys|
  {
    if keys != [] {
      ArgsortByKeysCovers(codes, keys[1..]);
      forall p | 0 <= p < |codes| && codes[p] in keys
        ensures p in ArgsortByKeys(codes, keys)
      {
        if codes[p] != keys[0] {
          assert codes[p] in keys[1..];
        }
      }
    }
  }

  /** With increasing keys covering every code, listing positions key by key is a stable argsort. */
  lemma ArgsortByKeysStable(codes: seq<int>, keys: seq<int>)
    requires Increasing(keys)
    requires forall j :: 0 <= j < |codes| ==> codes[j] in keys
    ensures IsStableArgsort(codes, ArgsortByKeys(codes, keys))
  {
    ArgsortByKeysInRange(codes, keys);
    ArgsortByKeysOrders(codes, keys);
    ArgsortByKeysCovers(codes, keys);
    var perm := ArgsortByKeys(codes, keys);
    assert Elems(perm) == Elems(Iota(|codes|)) by {
      forall p | p in Elems(Iota(|codes|))
        ensures p in Elems(perm)
      {
        assert p < |codes|;
        assert codes[p] in keys;
      }
      forall p | p in Elems(perm)
        ensures p in Elems(Iota(|codes|))
      {
        var j :| 0 <= j < |perm| && perm[j] == p;
        assert Iota(|codes|)[p] == p;
      }
    }
    assert Distinct(perm);
    DistinctSetCard(perm);
    DistinctSetCard(Iota(|codes|));
  }

  /**
   * `torch.argsort(state_comb, stable=True)` on one row whose codes are among
   * 0, 1, 2 and 100.
   */
  function StableArgsort(codes: seq<int>): (perm: seq<nat>)
    requires forall j :: 0 <= j < |codes| ==> codes[j] in {ACTIVE, ENDED, REMAPPED_ACTIVE, INVALID}
    ensures IsStableArgsort(codes, perm)
  {
    var keys := [ACTIVE, ENDED, REMAPPED_ACTIVE, INVALID];
    assert Increasing(keys);
    ArgsortByKeysStable(codes, keys);
    ArgsortByKeys(codes, keys)
  }

  /** The sorted order begins with the active positions. */
  lemma ArgsortStartsActive(codes: seq<int>)
    requires forall j :: 0 <= j < |codes| ==> codes[j] in {ACTIVE, ENDED, REMAPPED_ACTIVE, INVALID}
    ensures Count(codes, ACTIVE) <= |codes|
    ensures StableArgsort(codes)[..Count(codes, ACTIVE)] == Positions(codes, ACTIVE)
  {
    var perm := StableArgsort(codes);
    assert perm == Positions(codes, ACTIVE) + ArgsortByKeys(codes, [ENDED, REMAPPED_ACTIVE, INVALID]) by {
      assert [ACTIVE, ENDED, REMAPPED_ACTIVE, INVALID][1..] == [ENDED, REMAPPED_ACTIVE, INVALID];
    }
  }

  /** `torch.where(act_comb, 2, state_comb)`: active slots are moved behind the ended ones. */
  function RemapActive(codes: seq<int>): (r: seq<int>)
    ensures |r| == |codes|
    ensures forall j :: 0 <= j < |codes| ==> r[j] == if codes[j] == ACTIVE then REMAPPED_ACTIVE else codes[j]
  {
    seq(|codes|, j requires 0 <= j < |codes| => if codes[j] == ACTIVE then REMAPPED_ACTIVE else codes[j])
  }

  lemma {:induction false} RemapKeepsEndedPositions(codes: seq<int>)
    ensures Positions(RemapActive(codes), ACTIVE) == []
    ensures Positions(RemapActive(codes), ENDED) == Positions(codes, ENDED)
    decreases |codes|
  {
    if codes != [] {
      var n := |codes|;
      assert RemapActive(codes)[..n - 1] == RemapActive(codes[..n - 1]);
      RemapKeepsEndedPositions(codes[..n - 1]);
    }
  }

  /** After remapping, the sorted order begins with the ended positions. */
  lemma ArgsortRemappedStartsEnded(codes: seq<int>)
    requires ValidCodes(codes)
    ensures forall j :: 0 <= j < |codes| ==> RemapActive(codes)[j] in {ACTIVE, ENDED, REMAPPED_ACTIVE, INVALID}
    ensures Count(codes, ENDED) <= |codes|
    ensures StableArgsort(RemapActive(codes))[..Count(codes, ENDED)] == Positions(codes, ENDED)
  {
    var r := RemapActive(codes);
    assert forall j :: 0 <= j < |codes| ==> r[j] in {ACTIVE, ENDED, REMAPPED_ACTIVE, INVALID};
    RemapKeepsEndedPositions(codes);
    var keys := [ACTIVE, ENDED, REMAPPED_ACTIVE, INVALID];
    var tail := ArgsortByKeys(r, keys[2..]);
    calc {
      StableArgsort(r);
      ArgsortByKeys(r, keys);
      Positions(r, keys[0]) + ArgsortByKeys(r, keys[1..]);
      { assert keys[1..][1..] == keys[2..]; }
      Positions(r, ACTIVE) + (Positions(r, ENDED) + tail);
      Positions(codes, ENDED) + tail;
    }
  }

  /** `torch.arange(n) < count`. */
  function Below(n: nat, count: nat): (r: seq<bool>)
    ensures |r| == n && forall j :: 0 <= j < n ==> (r[j] <==> j < count)
  {
    seq(n, j requires 0 <= j < n => j < count)
  }

  /** `torch.where(mask, x, fill)` on one row. */
  function Where<T>(mask: seq<bool>, x: seq<T>, fill: T): (r: seq<T>)
    requires |mask| == |x|
    ensures |r| == |x| && forall j :: 0 <= j < |x| ==> r[j] == if mask[j] then x[j] else fill
  {
    seq(|x|, j requires 0 <= j < |x| => if mask[j] then x[j] else fill)
  }

  /** `batch_gather` on one row. */
  function Gather<T>(x: seq<T>, idx: seq<nat>): (r: seq<T>)
    requires forall j :: 0 <= j < |idx| ==> idx[j] < |x|
    ensures |r| == |idx| && forall j :: 0 <= j < |idx| ==> r[j] == x[idx[j]]
  {
    seq(|idx|, j requires 0 <= j < |idx| => x[idx[j]])
  }

  /**
   * Row `out` is the repacked `x`: first the entries of the active slots in their
   * original order, padded with `fill` up to `actW`, then those of the ended slots
   * in their original order, padded with `fill` up to `endW`.
   */
  ghost predicate IsLayout<T>(codes: seq<int>, x: seq<T>, actW: nat, endW: nat, fill: T, out: seq<T>)
    requires |x| == |codes|
  {
    && |out| == actW + endW
    && (forall j :: 0 <= j < actW ==>
          out[j] == if j < Count(codes, ACTIVE) then x[Positions(codes, ACTIVE)[j]] else fill)
    && (forall j :: actW <= j < actW + endW ==>
          out[j] == if j - actW < Count(codes, ENDED) then x[Positions(codes, ENDED)[j - actW]] else fill)
  }

  /** The labels are repacked like the other fields on the active side; the ended side is all `eos`. */
  ghost predicate IsTargetLayout(codes: seq<int>, x: seq<nat>, actW: nat, endW: nat, eos: nat, out: seq<nat>)
    requires |x| == |codes|
  {
    && |out| == actW + endW
    && (forall j :: 0 <= j < actW ==>
          out[j] == if j < Count(codes, ACTIVE) then x[Positions(codes, ACTIVE)[j]] else eos)
    && (forall j :: actW <= j < actW + endW ==> out[j] == eos)
  }

  /** `act_end_idx` of one row: the first `actW` of the sorted order, then the first `endW` after remapping. */
  function ActEndIdx(codes: seq<int>, actW: nat, endW: nat): (idx: seq<nat>)
    requires ValidCodes(codes) && actW <= |codes| && endW <= |codes|
    ensures |idx| == actW + endW && forall j :: 0 <= j < |idx| ==> idx[j] < |codes|
  {
    ArgsortRemappedStartsEnded(codes);
    StableArgsort(codes)[..actW] + (if endW > 0 then StableArgsort(RemapActive(codes))[..endW] else [])
  }

  /** `valid` of one row: the slots below the row's active count, then those below its ended count. */
  function ValidMask(codes: seq<int>, actW: nat, endW: nat): (valid: seq<bool>)
    ensures |valid| == actW + endW
  {
    Below(actW, Count(codes, ACTIVE)) + (if endW > 0 then Below(endW, Count(codes, ENDED)) else [])
  }

  /**
   * Gathering a field by `act_end_idx` and masking by `valid` repacks it: when
   * `actW` and `endW` are at least the row's active and ended counts (they are the
   * maxima over the batch), the result is the layout of the field.
   */
  lemma RepackRowIsLayout<T>(codes: seq<int>, x: seq<T>, actW: nat, endW: nat, fill: T)
    requires ValidCodes(codes) && |x| == |codes|
    requires Count(codes, ACTIVE) <= actW <= |codes| && Count(codes, ENDED) <= endW <= |codes|
    ensures IsLayout(codes, x, actW, endW, fill,
                     Where(ValidMask(codes, actW, endW), Gather(x, ActEndIdx(codes, actW, endW)), fill))
  {
    ArgsortStartsActive(codes);
    ArgsortRemappedStartsEnded(codes);
    var idx := ActEndIdx(codes, actW, endW);
    var out := Where(ValidMask(codes, actW, endW), Gather(x, idx), fill);
    forall j | 0 <= j < Count(codes, ACTIVE)
      ensures idx[j] == Positions(codes, ACTIVE)[j]
    {
      assert StableArgsort(codes)[..Count(codes, ACTIVE)][j] == StableArgsort(codes)[j];
    }
    forall j | actW <= j < actW + Count(codes, ENDED)
      ensures idx[j] == Positions(codes, ENDED)[j - actW]
    {
      var remapped := StableArgsort(RemapActive(codes));
      assert idx == StableArgsort(codes)[..actW] + remapped[..endW];
      assert idx[j] == remapped[..endW][j - actW];
      assert remapped[..Count(codes, ENDED)][j - actW] == remapped[j - actW];
    }
  }

  /**
   * Without masking (every row is full and nothing ended), the gathered row is
   * already the layout.
   */
  lemma UnmaskedRowIsLayout<T>(codes: seq<int>, x: seq<T>, actW: nat, fill: T)
    requires ValidCodes(codes) && |x| == |codes|
    requires Count(codes, ACTIVE) == actW <= |codes| && Count(codes, ENDED) == 0
    ensures IsLayout(codes, x, actW, 0, fill, Gather(x, ActEndIdx(codes, actW, 0)))
  {
    var g := Gather(x, ActEndIdx(codes, actW, 0));
    RepackRowIsLayout(codes, x, actW, 0, fill);
    assert Where(ValidMask(codes, actW, 0), g, fill) == g;
  }

  /** The same for the labels, whose layout pads with `eos`. */
  lemma UnmaskedTargetsIsLayout(codes: seq<int>, x: seq<nat>, actW: nat, eos: nat)
    requires ValidCodes(codes) && |x| == |codes|
    requires Count(codes, ACTIVE) == actW <= |codes| && Count(codes, ENDED) == 0
    ensures IsTargetLayout(codes, x, actW, 0, eos, Gather(x, ActEndIdx(codes, actW, 0)))
  {
    UnmaskedRowIsLayout(codes, x, actW, eos);
  }

  /** The labels of one row: active side gathered and masked with `eos`, ended side all `eos`. */
  function RepackTargets(codes: seq<int>, x: seq<nat>, actW: nat, endW: nat, eos: nat): (out: seq<nat>)
    requires ValidCodes(codes) && |x| == |codes| && actW <= |codes|
    ensures |out| == actW + endW
  {
    Where(Below(actW, Count(codes, ACTIVE)), Gather(x, StableArgsort(codes)[..actW]), eos)
    + seq(endW, _ => eos)
  }

  lemma RepackTargetsIsLayout(codes: seq<int>, x: seq<nat>, actW: nat, endW: nat, eos: nat)
    requires ValidCodes(codes) && |x| == |codes|
    requires Count(codes, ACTIVE) <= actW <= |codes|
    ensures IsTargetLayout(codes, x, actW, endW, eos, RepackTargets(codes, x, actW, endW, eos))
  {
    ArgsortStartsActive(codes);
    forall j | 0 <= j < Count(codes, ACTIVE)
      ensures StableArgsort(codes)[..actW][j] == Positions(codes, ACTIVE)[j]
    {
      assert StableArgsort(codes)[..Count(codes, ACTIVE)][j] == StableArgsort(codes)[j];
    }
  }
}
