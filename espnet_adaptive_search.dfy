/**
 * The experiment names of the adaptive ESPnet beam-search runs: a description of
 * the recognition arguments (keys in sorted order, one `-`-terminated entry per
 * key) and the name assembled around it.
 */
module EspnetAdaptiveSearch {
  import opened Wrappers
  import Text

  // ---------------------------------------------------------------------------------
  // Argument values

  /** A recognition argument value; `Float` carries its decimal rendering, `Other` any other Python type. */
  datatype Arg =
    | Bool(b: bool)
    | Int(i: int)
    | Float(repr: string)
    | Str(s: string)
    | DictVal(d: PyDict)
    | Other(typeName: string)

  /** A Python dictionary of arguments, as its items in insertion order. */
  datatype PyDict = PyDict(items: seq<(string, Arg)>)

  /** A Python dictionary never holds the same key twice. */
  predicate DistinctKeys(items: seq<(string, Arg)>)
  {
    forall i, j :: 0 <= i < j < |items| ==> items[i].0 != items[j].0
  }

  // ---------------------------------------------------------------------------------
  // Python's string order and `sorted`

  /** Python's `<` on strings: lexicographic by code point, a proper prefix first. */
  predicate Less(a: string, b: string)
  {
    if |a| == 0 then |b| > 0
    else if |b| == 0 then false
    else if a[0] != b[0] then a[0] < b[0]
    else Less(a[1..], b[1..])
  }

  lemma {:induction false} LessIrreflexive(a: string)
    ensures !Less(a, a)
  {
    if |a| > 0 {
      LessIrreflexive(a[1..]);
    }
  }

  lemma {:induction false} LessAsymmetric(a: string, b: string)
    ensures !(Less(a, b) && Less(b, a))
  {
    if |a| > 0 && |b| > 0 && a[0] == b[0] {
      LessAsymmetric(a[1..], b[1..]);
    }
  }

  lemma {:induction false} LessTrans(a: string, b: string, c: string)
    requires Less(a, b) && Less(b, c)
    ensures Less(a, c)
  {
    if |a| > 0 && a[0] == b[0] && b[0] == c[0] {
      LessTrans(a[1..], b[1..], c[1..]);
    }
  }

  /** Two different strings are ordered one way or the other. */
  lemma {:induction false} LessTotal(a: string, b: string)
    requires a != b
    ensures Less(a, b) || Less(b, a)
  {
    if |a| > 0 && |b| > 0 && a[0] == b[0] {
      assert a == [a[0]] + a[1..] && b == [b[0]] + b[1..];
      LessTotal(a[1..], b[1..]);
    }
  }

  /** Items strictly ordered by key. */
  predicate Sorted(s: seq<(string, Arg)>)
  {
    forall i, j :: 0 <= i < j < |s| ==> Less(s[i].0, s[j].0)
  }

  function Insert(x: (string, Arg), s: seq<(string, Arg)>): (r: seq<(string, Arg)>)
    ensures |r| == |s| + 1
  {
    if |s| == 0 then [x]
    else if Less(x.0, s[0].0) then [x] + s
    else [s[0]] + Insert(x, s[1..])
  }

  /** `sorted(d.items())`: the items by key. */
  function SortItems(items: seq<(string, Arg)>): (r: seq<(string, Arg)>)
    ensures |r| == |items|
  {
    if |items| == 0 then [] else Insert(items[0], SortItems(items[1..]))
  }

  lemma {:induction false} InsertPermutes(x: (string, Arg), s: seq<(string, Arg)>)
    ensures multiset(Insert(x, s)) == multiset(s) + multiset{x}
  {
    if |s| > 0 && !Less(x.0, s[0].0) {
      InsertPermutes(x, s[1..]);
      assert s == [s[0]] + s[1..];
    }
  }

  /** Sorting rearranges the items. */
  lemma {:induction false} SortPermutes(items: seq<(string, Arg)>)
    ensures multiset(SortItems(items)) == multiset(items)
  {
    if |items| > 0 {
      SortPermutes(items[1..]);
      InsertPermutes(items[0], SortItems(items[1..]));
      assert items == [items[0]] + items[1..];
    }
  }

  lemma {:induction false} InsertSorted(x: (string, Arg), s: seq<(string, Arg)>)
    requires Sorted(s)
    requires forall k :: 0 <= k < |s| ==> s[k].0 != x.0
    ensures Sorted(Insert(x, s))
  {
    if |s| > 0 && !Less(x.0, s[0].0) {
      LessTotal(x.0, s[0].0);
      InsertSorted(x, s[1..]);
      var r := Insert(x, s[1..]);
      InsertElems(x, s[1..]);
      forall k | 0 <= k < |r|
        ensures Less(s[0].0, r[k].0)
      {
        if r[k] != x {
          var i :| 0 <= i < |s| - 1 && s[1..][i] == r[k];
          assert s[i + 1] == r[k];
        }
      }
      ConsSorted(s[0], r);
    } else if |s| > 0 {
      forall k | 0 <= k < |s|
        ensures Less(x.0, s[k].0)
      {
        if k > 0 {
          LessTrans(x.0, s[0].0, s[k].0);
        }
      }
      ConsSorted(x, s);
    }
  }

  /** Every item of `Insert(x, s)` is `x` or an item of `s`. */
  lemma {:induction false} InsertElems(x: (string, Arg), s: seq<(string, Arg)>)
    ensures forall k :: 0 <= k < |Insert(x, s)| ==> Insert(x, s)[k] == x || Insert(x, s)[k] in s
  {
    if |s| > 0 && !Less(x.0, s[0].0) {
      InsertElems(x, s[1..]);
      var r := Insert(x, s[1..]);
      forall k | 0 < k < |r| + 1
        ensures ([s[0]] + r)[k] == x || ([s[0]] + r)[k] in s
      {
        assert ([s[0]] + r)[k] == r[k - 1];
        if r[k - 1] != x {
          assert r[k - 1] in s[1..];
        }
      }
    }
  }

  /** An item whose key is below every key of a sorted list can go in front. */
  lemma ConsSorted(a: (string, Arg), r: seq<(string, Arg)>)
    requires Sorted(r) && forall k :: 0 <= k < |r| ==> Less(a.0, r[k].0)
    ensures Sorted([a] + r)
  {
    var t := [a] + r;
    forall i, j | 0 <= i < j < |t|
      ensures Less(t[i].0, t[j].0)
    {
      assert t[j] == r[j - 1];
      if 0 < i {
        assert t[i] == r[i - 1];
      }
    }
  }

  /** Sorting a dictionary's items orders them strictly by key. */
  lemma {:induction false} SortSorted(items: seq<(string, Arg)>)
    requires DistinctKeys(items)
    ensures Sorted(SortItems(items))
  {
    if |items| > 0 {
      var tail := items[1..];
      SortSorted(tail);
      SortPermutes(tail);
      var st := SortItems(tail);
      forall k | 0 <= k < |st|
        ensures st[k].0 != items[0].0
      {
        assert st[k] in multiset(tail);
        var j :| 0 <= j < |tail| && tail[j] == st[k];
        assert items[j + 1] == st[k];
      }
      InsertSorted(items[0], st);
    }
  }

  /** Two strictly sorted arrangements of the same items start with the same item. */
  lemma SortedHead(s: seq<(string, Arg)>, t: seq<(string, Arg)>)
    requires Sorted(s) && Sorted(t) && multiset(s) == multiset(t) && |s| > 0 && |t| > 0
    ensures s[0] == t[0]
  {
    assert s[0] in multiset(t);
    assert t[0] in multiset(s);
    if s[0] != t[0] {
      var i :| 0 <= i < |t| && t[i] == s[0];
      var j :| 0 <= j < |s| && s[j] == t[0];
      LessAsymmetric(s[0].0, t[0].0);
      assert false;
    }
  }

  /** Dropping the same first item from two lists with the same items leaves lists with the same items. */
  lemma TailItems(s: seq<(string, Arg)>, t: seq<(string, Arg)>)
    requires multiset(s) == multiset(t) && |s| > 0 && |t| > 0 && s[0] == t[0]
    ensures multiset(s[1..]) == multiset(t[1..])
  {
    assert s == [s[0]] + s[1..];
    assert t == [t[0]] + t[1..];
    assert multiset(s) == multiset{s[0]} + multiset(s[1..]);
    assert multiset(t) == multiset{t[0]} + multiset(t[1..]);
    assert multiset(s[1..]) == multiset(s) - multiset{s[0]};
    assert multiset(t[1..]) == multiset(t) - multiset{t[0]};
  }

  /** Two strictly sorted arrangements of the same items are the same. */
  lemma {:induction false} SortedUnique(s: seq<(string, Arg)>, t: seq<(string, Arg)>)
    requires Sorted(s) && Sorted(t) && multiset(s) == multiset(t)
    ensures s == t
  {
    if |s| > 0 {
      assert |t| == |multiset(t)|;
      SortedHead(s, t);
      TailItems(s, t);
      SortedUnique(s[1..], t[1..]);
      assert s == [s[0]] + s[1..] && t == [t[0]] + t[1..];
    } else {
      assert |t| == |multiset(t)|;
    }
  }

  // ---------------------------------------------------------------------------------
  // The description

  /** `f"{v}"` for an int, float or str value. */
  function Format(v: Arg): (s: string)
    requires v.Int? || v.Float? || v.Str?
    ensures v.Int? ==> Text.ParseInt(s) == Some(v.i)
    ensures v.Str? ==> s == v.s
  {
    match v
    case Int(i) => Text.IntToStringRoundTrip(i); Text.IntToString(i)
    case Float(repr) => repr
    case Str(s) => s
  }

  /** What one item does to the description. */
  datatype Step = Skip | Append(entry: string) | Descend(sub: PyDict) | Fail

  /**
   * One item of `get_exp_desc`: "dataset" is skipped, a dict is described in its
   * place, a true flag adds "k-", a false one "Wo_k-", an int, float or str
   * "k_v-", and any other type fails the assertion.
   */
  function ItemStep(k: string, v: Arg): (st: Step)
    ensures st.Skip? <==> k == "dataset"
    ensures st.Descend? <==> k != "dataset" && v.DictVal?
    ensures st.Descend? ==> v == DictVal(st.sub)
    ensures st.Fail? <==> k != "dataset" && v.Other?
    ensures k != "dataset" && v.Bool? ==> st == Append(if v.b then k + "-" else "Wo_" + k + "-")
    ensures k != "dataset" && (v.Int? || v.Float? || v.Str?) ==> st == Append(k + "_" + Format(v) + "-")
    ensures st.Append? ==> k <= st.entry || "Wo_" + k <= st.entry
    ensures st.Append? ==> 0 < |st.entry| && st.entry[|st.entry| - 1] == '-'
  {
    if k == "dataset" then Skip
    else match v
      case DictVal(sub) => Descend(sub)
      case Bool(b) => Append(if b then k + "-" else "Wo_" + k + "-")
      case Other(_) => Fail
      case _ => Append(k + "_" + Format(v) + "-")
  }

  /** A sorted item belongs to the dictionary, so its value sits below it. */
  lemma SortedMember(items: seq<(string, Arg)>, i: nat)
    requires i < |items|
    ensures SortItems(items)[i] in items
  {
    SortPermutes(items);
    assert SortItems(items)[i] in multiset(SortItems(items));
  }

  /** The description from the `i`-th sorted item on, after `res` so far; a dict value ends it. */
  function DescFrom(args: PyDict, i: nat, res: string): Result<string, string>
    decreases args, |args.items| - i
  {
    var items := SortItems(args.items);
    if i >= |items| then Success(res)
    else match ItemStep(items[i].0, items[i].1)
      case Skip => DescFrom(args, i + 1, res)
      case Append(e) => DescFrom(args, i + 1, res + e)
      case Fail => Failure("AssertionError")
      case Descend(sub) =>
        SortedMember(args.items, i);
        match DescFrom(sub, 0, "")
        case Success(d) => Success(res + d)
        case Failure(e) => Failure(e)
  }

  /** One item of the description, unfolded by what `ItemStep` makes of it. */
  lemma DescUnfold(args: PyDict, i: nat, res: string)
    requires i < |SortItems(args.items)|
    ensures var items := SortItems(args.items);
            var st := ItemStep(items[i].0, items[i].1);
            && (st.Skip? ==> DescFrom(args, i, res) == DescFrom(args, i + 1, res))
            && (st.Append? ==> DescFrom(args, i, res) == DescFrom(args, i + 1, res + st.entry))
            && (st.Fail? ==> DescFrom(args, i, res) == Failure("AssertionError"))
            && (st.Descend? ==>
                  DescFrom(args, i, res) ==
                  (var sub := DescFrom(st.sub, 0, "");
                   if sub.Success? then Success(res + sub.value) else Failure(sub.error)))
  {
  }

  /** `get_exp_desc(args)`. */
  function ExpDesc(args: PyDict): Result<string, string>
  {
    DescFrom(args, 0, "")
  }

  /**
   * `get_exp_desc`: the loop over the sorted items, recursing into a dict value
   * and returning right after it.
   */
  method GetExpDesc(args: PyDict) returns (r: Result<string, string>)
    ensures r == ExpDesc(args)
    decreases args
  {
    var items := SortItems(args.items);
    var res := "";
    for i := 0 to |items|
      invariant DescFrom(args, i, res) == ExpDesc(args)
    {
      var k, v := items[i].0, items[i].1;
      ghost var st := ItemStep(k, v);
      DescUnfold(args, i, res);
      if k == "dataset" {
        assert st == Skip;
        continue;
      }
      if v.DictVal? {
        assert st == Descend(v.d);
        SortedMember(args.items, i);
        var sub := GetExpDesc(v.d);
        if sub.Failure? {
          return Failure(sub.error);
        }
        res := res + sub.value;
        return Success(res);
      }
      if v.Bool? {
        if v.b {
          assert st == Append(k + "-");
          res := res + (k + "-");
        } else {
          assert st == Append("Wo_" + k + "-");
          res := res + ("Wo_" + k + "-");
        }
      } else if v.Other? {
        assert st == Fail;
        return Failure("AssertionError");
      } else {
        assert st == Append(k + "_" + Format(v) + "-");
        res := res + (k + "_" + Format(v) + "-");
      }
    }
    return Success(res);
  }

  /** The description extends what came before, and it adds nothing or ends with "-". */
  lemma {:induction false} DescShape(args: PyDict, i: nat, res: string)
    ensures Shaped(res, DescFrom(args, i, res))
    decreases args, |args.items| - i
  {
    var items := SortItems(args.items);
    if i < |items| {
      var st := ItemStep(items[i].0, items[i].1);
      if st.Skip? {
        assert DescFrom(args, i, res) == DescFrom(args, i + 1, res);
        DescShape(args, i + 1, res);
      } else if st.Descend? {
        SortedMember(args.items, i);
        var sub := DescFrom(st.sub, 0, "");
        DescShape(st.sub, 0, "");
        if sub.Success? {
          assert DescFrom(args, i, res) == Success(res + sub.value);
          AppendShape(res, sub.value);
        } else {
          assert DescFrom(args, i, res).Failure?;
        }
      } else if st.Append? {
        assert DescFrom(args, i, res) == DescFrom(args, i + 1, res + st.entry);
        DescShape(args, i + 1, res + st.entry);
        PrefixTrans(res, res + st.entry, DescFrom(args, i + 1, res + st.entry));
      }
    }
  }

  lemma AppendShape(res: string, d: string)
    requires d == "" || d[|d| - 1] == '-'
    ensures Shaped(res, Success(res + d))
  {
    if d == "" {
      assert res + d == res;
    }
  }

  /** A successful description extends `res` and adds nothing or ends with "-". */
  predicate Shaped(res: string, r: Result<string, string>)
  {
    r.Success? ==> res <= r.value && (r.value == res || r.value[|r.value| - 1] == '-')
  }

  lemma PrefixTrans(res: string, res': string, r: Result<string, string>)
    requires res <= res' && 0 < |res'| && res'[|res'| - 1] == '-'
    requires Shaped(res', r)
    ensures Shaped(res, r)
  {
  }

  /** A description that is not empty ends with "-". */
  lemma ExpDescEndsWithDash(args: PyDict)
    requires ExpDesc(args).Success? && ExpDesc(args).value != ""
    ensures ExpDesc(args).value[|ExpDesc(args).value| - 1] == '-'
  {
    DescShape(args, 0, "");
  }

  /** The description depends on the sorted items alone. */
  lemma {:induction false} SameSorted(a: PyDict, b: PyDict, i: nat, res: string)
    requires SortItems(a.items) == SortItems(b.items)
    ensures DescFrom(a, i, res) == DescFrom(b, i, res)
    decreases |a.items| - i
  {
    var items := SortItems(a.items);
    if i < |items| {
      var st := ItemStep(items[i].0, items[i].1);
      if st.Skip? {
        SameSorted(a, b, i + 1, res);
      } else if st.Append? {
        SameSorted(a, b, i + 1, res + st.entry);
      }
    }
  }

  /**
   * Keys are visited in sorted order: two dictionaries with the same items, in
   * whatever insertion order, have the same description.
   */
  lemma OrderIrrelevant(a: PyDict, b: PyDict)
    requires DistinctKeys(a.items) && multiset(a.items) == multiset(b.items)
    ensures ExpDesc(a) == ExpDesc(b)
  {
    SortSorted(a.items);
    DistinctKeysPermuted(a.items, b.items);
    SortSorted(b.items);
    SortPermutes(a.items);
    SortPermutes(b.items);
    SortedUnique(SortItems(a.items), SortItems(b.items));
    SameSorted(a, b, 0, "");
  }

  /** A rearrangement of items with distinct keys has distinct keys. */
  lemma DistinctKeysPermuted(s: seq<(string, Arg)>, t: seq<(string, Arg)>)
    requires DistinctKeys(s) && multiset(s) == multiset(t)
    ensures DistinctKeys(t)
  {
    forall i, j | 0 <= i < j < |t|
      ensures t[i].0 != t[j].0
    {
      assert t[i] in multiset(s) && t[j] in multiset(s);
      var i' :| 0 <= i' < |s| && s[i'] == t[i];
      var j' :| 0 <= j' < |s| && s[j'] == t[j];
      if t[i].0 == t[j].0 {
        assert i' == j';
        DuplicateCount(t, i, j);
        SingleCount(s, i');
      }
    }
  }

  /** An item at two positions occurs at least twice. */
  lemma DuplicateCount(s: seq<(string, Arg)>, i: nat, j: nat)
    requires i < j < |s| && s[i] == s[j]
    ensures multiset(s)[s[i]] >= 2
  {
    assert s == s[..i] + [s[i]] + s[i + 1..j] + [s[j]] + s[j + 1..];
  }

  /** With distinct keys an item occurs once. */
  lemma SingleCount(s: seq<(string, Arg)>, i: nat)
    requires DistinctKeys(s) && i < |s|
    ensures multiset(s)[s[i]] == 1
  {
    var pre, post := s[..i], s[i + 1..];
    assert s == pre + [s[i]] + post;
    forall k | 0 <= k < |pre|
      ensures pre[k] != s[i]
    {
      assert pre[k] == s[k];
    }
    forall k | 0 <= k < |post|
      ensures post[k] != s[i]
    {
      assert post[k] == s[i + 1 + k];
    }
    assert s[i] !in pre;
    assert s[i] !in post;
  }

  /**
   * A dict value ends the description: two dictionaries whose sorted items agree
   * up to and including such a value have the same description, whatever keys
   * follow it.
   */
  lemma DictDropsRest(a: PyDict, b: PyDict, j: nat)
    requires j < |a.items| && j < |b.items|
    requires SortItems(a.items)[..j + 1] == SortItems(b.items)[..j + 1]
    requires ItemStep(SortItems(a.items)[j].0, SortItems(a.items)[j].1).Descend?
    ensures ExpDesc(a) == ExpDesc(b)
  {
    SamePrefix(a, b, j, 0, "");
  }

  lemma {:induction false} SamePrefix(a: PyDict, b: PyDict, j: nat, i: nat, res: string)
    requires j < |a.items| && j < |b.items| && i <= j
    requires SortItems(a.items)[..j + 1] == SortItems(b.items)[..j + 1]
    requires ItemStep(SortItems(a.items)[j].0, SortItems(a.items)[j].1).Descend?
    ensures DescFrom(a, i, res) == DescFrom(b, i, res)
    decreases j - i
  {
    var sa, sb := SortItems(a.items), SortItems(b.items);
    assert sa[i] == sa[..j + 1][i];
    assert sb[i] == sb[..j + 1][i];
    var st := ItemStep(sa[i].0, sa[i].1);
    if i < j {
      if st.Skip? {
        SamePrefix(a, b, j, i + 1, res);
      } else if st.Append? {
        SamePrefix(a, b, j, i + 1, res + st.entry);
      }
    }
  }

  // ---------------------------------------------------------------------------------
  // The experiment name

  /** The search arguments the name reads; a missing key is `None`. */
  datatype SearchArgs = SearchArgs(dataset: Option<string>, pylasrRecogArgs: Option<PyDict>)

  const NamePrefix: string := "pylasr_beam_search/"

  /**
   * The experiment name of `run_espnet_search`: the prefix, the description
   * without its final "-", then "-suffix" and "-hash_version" when they are
   * non-empty, then "/dataset". It fails when "dataset" is missing, when the
   * recognition arguments are missing (`KeyError`), when the description fails,
   * and when the description is empty (the trailing-dash assertion).
   * `hashVersion` is "" for `None`.
   */
  method ExpName(args: SearchArgs, suffix: string, hashVersion: string) returns (r: Result<string, string>)
    ensures r.Success? <==>
              args.dataset.Some? && args.pylasrRecogArgs.Some? &&
              ExpDesc(args.pylasrRecogArgs.value).Success? && ExpDesc(args.pylasrRecogArgs.value).value != ""
    ensures r.Success? ==>
              var d := ExpDesc(args.pylasrRecogArgs.value).value;
              d == d[..|d| - 1] + "-" &&
              r.value == NamePrefix + d[..|d| - 1] +
                         (if suffix != "" then "-" + suffix else "") +
                         (if hashVersion != "" then "-" + hashVersion else "") +
                         ("/" + args.dataset.value)
  {
    if args.dataset.None? {
      return Failure("AssertionError");
    }
    if args.pylasrRecogArgs.None? {
      return Failure("KeyError");
    }
    var dataset := args.dataset.value;
    var expName := NamePrefix;
    var desc := GetExpDesc(args.pylasrRecogArgs.value);
    if desc.Failure? {
      return Failure(desc.error);
    }
    var d := desc.value;
    if d != "" {
      ExpDescEndsWithDash(args.pylasrRecogArgs.value);
    }
    expName := expName + d;
    if expName[|expName| - 1] != '-' {
      return Failure("AssertionError");
    }
    assert d == d[..|d| - 1] + "-";
    assert expName[..|expName| - 1] == NamePrefix + d[..|d| - 1];
    expName := expName[..|expName| - 1];
    if suffix != "" {
      expName := expName + ("-" + suffix);
    }
    assert expName == NamePrefix + d[..|d| - 1] + (if suffix != "" then "-" + suffix else "");
    if hashVersion != "" {
      expName := expName + ("-" + hashVersion);
    }
    expName := expName + ("/" + dataset);
    return Success(expName);
  }
}
