/**
 * Pipeline bookkeeping of the factored hybrid setups: the class counts derived
 * from the label topology, the numeric context-type ids of the feature scorer,
 * and the table of stage names per alignment.
 */
module PipelineData {
  import opened Wrappers

  // ---------------------------------------------------------------------------------
  // Context types

  /** The implemented context models. */
  datatype ContextEnum =
    | Monophone
    | MonoStateTransition
    | Diphone
    | DiphoneStateTransition
    | TriphoneSymmetric
    | TriphoneForward
    | TriphoneBackward
    | TriStateTransition

  /** The string value of each context model, as the feature scorer names it. */
  function Value(c: ContextEnum): string
  {
    match c
    case Monophone => "monophone"
    case MonoStateTransition => "monophone-delta"
    case Diphone => "diphone"
    case DiphoneStateTransition => "diphone-delta"
    case TriphoneSymmetric => "triphone-symmetric"
    case TriphoneForward => "triphone-forward"
    case TriphoneBackward => "triphone-backward"
    case TriStateTransition => "triphone-delta"
  }

  /** Distinct context models have distinct string values. */
  lemma ValueInjective(c: ContextEnum, c': ContextEnum)
    ensures Value(c) == Value(c') ==> c == c'
  {
  }

  /** The context-type id table of `ContextMapper`. */
  const Contexts: map<int, string> := map[
    1 := "monophone",
    2 := "diphone",
    3 := "triphone-symmetric",
    4 := "triphone-forward",
    5 := "triphone-backward",
    6 := "triphone-delta",
    7 := "monophone-delta",
    8 := "diphone-delta"
  ]

  /** The context model an id stands for. */
  function ContextOf(contextTypeId: int): (c: ContextEnum)
    requires 1 <= contextTypeId <= 8
  {
    match contextTypeId
    case 1 => Monophone
    case 2 => Diphone
    case 3 => TriphoneSymmetric
    case 4 => TriphoneForward
    case 5 => TriphoneBackward
    case 6 => TriStateTransition
    case 7 => MonoStateTransition
    case _ => DiphoneStateTransition
  }

  /**
   * `ContextMapper.get_enum`: the dictionary lookup. It is defined exactly on the
   * ids 1 to 8, where it gives the value of a context model, and raises `KeyError`
   * on every other id.
   */
  function GetEnum(contextTypeId: int): (r: Result<string, string>)
    ensures r.Success? <==> 1 <= contextTypeId <= 8
    ensures r.Success? ==> r.value == Value(ContextOf(contextTypeId))
  {
    if contextTypeId in Contexts then Success(Contexts[contextTypeId]) else Failure("KeyError")
  }

  /** Different ids name different context models. */
  lemma GetEnumInjective(i: int, j: int)
    requires GetEnum(i).Success? && GetEnum(j).Success?
    ensures GetEnum(i).value == GetEnum(j).value ==> i == j
  {
    ValueInjective(ContextOf(i), ContextOf(j));
  }

  /** Every context model has an id. */
  lemma GetEnumOnto(c: ContextEnum)
    ensures exists i :: 1 <= i <= 8 && GetEnum(i) == Success(Value(c))
  {
    var i := match c
      case Monophone => 1
      case Diphone => 2
      case TriphoneSymmetric => 3
      case TriphoneForward => 4
      case TriphoneBackward => 5
      case TriStateTransition => 6
      case MonoStateTransition => 7
      case DiphoneStateTransition => 8;
    assert GetEnum(i) == Success(Value(c));
  }

  // ---------------------------------------------------------------------------------
  // Label topology

  /**
   * The label topology of `LabelInfo` that the class counts read (the embedding
   * sizes, state tying and silence id are carried along unused here).
   */
  datatype LabelInfo = LabelInfo(
    nStatesPerPhone: nat,
    nContexts: nat,
    useWordEndClass: bool,
    useBoundaryClasses: bool,
    addUnknownPhoneme: bool)

  /** `get_n_state_classes`: states per phone times phonemes, doubled with a word-end class. */
  function NStateClasses(li: LabelInfo): (r: nat)
    ensures li.nStatesPerPhone * li.nContexts <= r <= 2 * (li.nStatesPerPhone * li.nContexts)
    ensures !li.useWordEndClass ==> r == li.nStatesPerPhone * li.nContexts
  {
    li.nStatesPerPhone * li.nContexts * (1 + if li.useWordEndClass then 1 else 0)
  }

  /** `get_n_of_dense_classes`: the state classes times the squared number of contexts. */
  function NDenseClasses(li: LabelInfo): (r: nat)
    ensures li.nContexts == 0 ==> r == 0
    ensures 0 < li.nContexts ==> NStateClasses(li) <= r
  {
    NStateClasses(li) * (li.nContexts * li.nContexts)
  }

  /** The word-end class doubles the state classes and so the dense classes. */
  lemma WordEndDoubles(li: LabelInfo)
    ensures NStateClasses(li.(useWordEndClass := true)) == 2 * NStateClasses(li.(useWordEndClass := false))
    ensures NDenseClasses(li.(useWordEndClass := true)) == 2 * NDenseClasses(li.(useWordEndClass := false))
    ensures NStateClasses(li.(useWordEndClass := false)) == li.nStatesPerPhone * li.nContexts
  {
    var s, n := li.nStatesPerPhone, li.nContexts;
    assert NDenseClasses(li.(useWordEndClass := true)) == (s * n * 2) * (n * n);
    assert (s * n * 2) * (n * n) == 2 * ((s * n) * (n * n)) by {
      MulCommute4(s * n, 2, n * n);
    }
  }

  lemma MulCommute4(a: nat, b: nat, c: nat)
    ensures (a * b) * c == b * (a * c)
  {
  }

  /** The (left context, center class, right context) triples whose left context lies below `m`. */
  ghost function Triples(m: nat, classes: nat, n: nat): set<(nat, nat, nat)>
  {
    set l: nat, c: nat, r: nat | l < m && c < classes && r < n :: (l, c, r)
  }

  /** The triples with left context `l` and center class below `classes`. */
  ghost function Slab(l: nat, classes: nat, n: nat): set<(nat, nat, nat)>
  {
    set c: nat, r: nat | c < classes && r < n :: (l, c, r)
  }

  /** The triples with left context `l`, center class `c` and right context below `n`. */
  ghost function Line(l: nat, c: nat, n: nat): set<(nat, nat, nat)>
  {
    set r: nat | r < n :: (l, c, r)
  }

  lemma {:induction false} LineCard(l: nat, c: nat, n: nat)
    ensures |Line(l, c, n)| == n
  {
    if n > 0 {
      LineCard(l, c, n - 1);
      assert Line(l, c, n) == Line(l, c, n - 1) + {(l, c, n - 1)};
    }
  }

  lemma MulSucc(a: nat, b: nat)
    ensures (a + 1) * b == a * b + b
  {
  }

  lemma {:induction false} SlabCard(l: nat, classes: nat, n: nat)
    ensures |Slab(l, classes, n)| == classes * n
  {
    if classes > 0 {
      var k := classes - 1;
      var a, b := Slab(l, k, n), Line(l, k, n);
      SlabCard(l, k, n);
      LineCard(l, k, n);
      forall x | x in Slab(l, classes, n)
        ensures x in a + b
      {
        var c: nat, r: nat :| c < classes && r < n && x == (l, c, r);
        if c < k {
          assert (l, c, r) in a;
        } else {
          assert (l, c, r) in b;
        }
      }
      forall x | x in a + b
        ensures x in Slab(l, classes, n)
      {
        if x in a {
          var c: nat, r: nat :| c < k && r < n && x == (l, c, r);
          assert (l, c, r) in Slab(l, classes, n);
        } else {
          var r: nat :| r < n && x == (l, k, r);
          assert (l, k, r) in Slab(l, classes, n);
        }
      }
      forall x | x in a
        ensures x !in b
      {
        var c: nat, r: nat :| c < k && r < n && x == (l, c, r);
      }
      assert Slab(l, classes, n) == a + b;
      assert a * b == {};
      assert |a + b| == |a| + |b|;
      MulSucc(k, n);
    }
  }

  lemma {:induction false} TriplesCard(m: nat, classes: nat, n: nat)
    ensures |Triples(m, classes, n)| == m * (classes * n)
  {
    if m > 0 {
      var k := m - 1;
      var a, b := Triples(k, classes, n), Slab(k, classes, n);
      TriplesCard(k, classes, n);
      SlabCard(k, classes, n);
      forall x | x in Triples(m, classes, n)
        ensures x in a + b
      {
        var l: nat, c: nat, r: nat :| l < m && c < classes && r < n && x == (l, c, r);
        if l < k {
          assert (l, c, r) in a;
        } else {
          assert (l, c, r) in b;
        }
      }
      forall x | x in a + b
        ensures x in Triples(m, classes, n)
      {
        if x in a {
          var l: nat, c: nat, r: nat :| l < k && c < classes && r < n && x == (l, c, r);
          assert (l, c, r) in Triples(m, classes, n);
        } else {
          var c: nat, r: nat :| c < classes && r < n && x == (k, c, r);
          assert (k, c, r) in Triples(m, classes, n);
        }
      }
      forall x | x in a
        ensures x !in b
      {
        var l: nat, c: nat, r: nat :| l < k && c < classes && r < n && x == (l, c, r);
      }
      assert Triples(m, classes, n) == a + b;
      assert a * b == {};
      assert |a + b| == |a| + |b|;
      MulSucc(k, classes * n);
    }
  }

  /**
   * The dense classes are exactly the (left context, center state class, right
   * context) triples: one per center class and pair of contexts.
   */
  lemma DenseClassesAreTriples(li: LabelInfo)
    ensures NDenseClasses(li) == |Triples(li.nContexts, NStateClasses(li), li.nContexts)|
  {
    var n, k := li.nContexts, NStateClasses(li);
    TriplesCard(n, k, n);
    assert n * (k * n) == k * (n * n) by {
      MulCommute4(n, k, n);
    }
  }

  /** With at least one state and one context there is at least one class of each kind. */
  lemma ClassesPositive(li: LabelInfo)
    requires 0 < li.nStatesPerPhone && 0 < li.nContexts
    ensures 0 < NStateClasses(li) <= NDenseClasses(li)
  {
    var s, n := li.nStatesPerPhone, li.nContexts;
    var w := 1 + if li.useWordEndClass then 1 else 0;
    assert 0 < s * n;
    assert 0 < s * n * w;
    assert 1 <= n * n;
    MulAtLeast(NStateClasses(li), n * n);
  }

  lemma MulAtLeast(a: nat, b: nat)
    requires 1 <= b
    ensures a <= a * b
  {
  }

  // ---------------------------------------------------------------------------------
  // Stage names

  /** The six context types of the stage table. */
  const ContextTypes: set<string> := {"mono", "mono-delta", "di", "di-delta", "tri", "tri-delta"}

  /** `_get_context_dict`: the stage name of every context type for one alignment key. */
  function ContextDict(alignKey: string): (d: map<string, string>)
    ensures d.Keys == ContextTypes
  {
    map[
      "mono" := "mono-from-" + alignKey,
      "mono-delta" := "mono-delta-from-" + alignKey,
      "di" := "di-from-" + alignKey,
      "di-delta" := "di-delta-from-" + alignKey,
      "tri" := "tri-from-" + alignKey,
      "tri-delta" := "tridelta-from-" + alignKey
    ]
  }

  /** `PipelineStages`: the table of context dictionaries, one per alignment key. */
  datatype PipelineStages = PipelineStages(names: map<string, map<string, string>>)

  /** The constructor: one context dictionary per alignment key. */
  function NewPipelineStages(alignmentKeys: seq<string>): (p: PipelineStages)
    ensures p.names.Keys == set k | k in alignmentKeys
    ensures forall k :: k in p.names ==> p.names[k] == ContextDict(k)
  {
    PipelineStages(map k | k in alignmentKeys :: ContextDict(k))
  }

  /** `get_name`: a lookup in both dictionaries, with `KeyError` for a missing key. */
  function GetName(p: PipelineStages, alignmentKey: string, contextType: string): (r: Result<string, string>)
    ensures r.Failure? <==> alignmentKey !in p.names || contextType !in p.names[alignmentKey]
    ensures r.Failure? ==> r.error == "KeyError"
  {
    if alignmentKey !in p.names then Failure("KeyError")
    else if contextType !in p.names[alignmentKey] then Failure("KeyError")
    else Success(p.names[alignmentKey][contextType])
  }

  /** The name prefix of a context type: the type itself, except "tridelta" for "tri-delta". */
  function StagePrefix(contextType: string): string
  {
    if contextType == "tri-delta" then "tridelta" else contextType
  }

  /** Every context dictionary has exactly the six context types as keys. */
  lemma ContextDictKeys(alignKey: string)
    ensures ContextDict(alignKey).Keys == ContextTypes
    ensures |ContextDict(alignKey).Keys| == 6
  {
  }

  /**
   * A stage name is found exactly for a listed alignment key and one of the six
   * context types, and it is `<prefix>-from-<alignment key>`.
   */
  lemma GetNameSpec(alignmentKeys: seq<string>, alignmentKey: string, contextType: string)
    ensures GetName(NewPipelineStages(alignmentKeys), alignmentKey, contextType).Success? <==>
              alignmentKey in alignmentKeys && contextType in ContextTypes
    ensures GetName(NewPipelineStages(alignmentKeys), alignmentKey, contextType).Success? ==>
              GetName(NewPipelineStages(alignmentKeys), alignmentKey, contextType).value ==
                StagePrefix(contextType) + "-from-" + alignmentKey
  {
    var p := NewPipelineStages(alignmentKeys);
    if alignmentKey in alignmentKeys {
      assert p.names[alignmentKey] == ContextDict(alignmentKey);
      ContextDictKeys(alignmentKey);
      if contextType in ContextTypes {
        ContextDictAt(alignmentKey, contextType);
      }
    }
  }

  lemma ContextDictAt(alignKey: string, contextType: string)
    requires contextType in ContextTypes
    ensures contextType in ContextDict(alignKey)
    ensures ContextDict(alignKey)[contextType] == StagePrefix(contextType) + "-from-" + alignKey
  {
    var d := ContextDict(alignKey);
    if contextType == "tri-delta" {
      assert d["tri-delta"] == "tridelta-from-" + alignKey;
    } else {
      assert StagePrefix(contextType) == contextType;
      if contextType == "mono" {
        assert d["mono"] == "mono" + "-from-" + alignKey;
      } else if contextType == "mono-delta" {
        assert d["mono-delta"] == "mono-delta" + "-from-" + alignKey;
      } else if contextType == "di" {
        assert d["di"] == "di" + "-from-" + alignKey;
      } else if contextType == "di-delta" {
        assert d["di-delta"] == "di-delta" + "-from-" + alignKey;
      } else {
        assert contextType == "tri";
        assert d["tri"] == "tri" + "-from-" + alignKey;
      }
    }
  }
}
