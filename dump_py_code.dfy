/**
 * The bookkeeping of `PythonCodeDumper`, which writes Python code that rebuilds
 * an object graph: the memo from object ids to the variable names already
 * bound to them, the set of reserved variable names, the fresh names it makes up
 * for shared objects, and the import lines it emits at most once per module.
 */
module DumpPyCode {
  import opened Wrappers
  import Text
  import TensorOps

  // ---------------------------------------------------------------------------------
  // Names

  /** The module names a user-chosen left-hand side may not take. */
  const OtherReservedNames: set<string> := {"gs", "tk", "rasr", "i6_core", "i6_experiments", "make_fake_job"}

  predicate IsAsciiLetter(c: char)
  {
    'a' <= c <= 'z' || 'A' <= c <= 'Z'
  }

  predicate IsUpper(c: char)
  {
    'A' <= c <= 'Z'
  }

  /** A Python identifier over ASCII: a letter or `_`, then letters, digits and `_`. */
  predicate IsIdentifier(s: string)
  {
    && 0 < |s|
    && (IsAsciiLetter(s[0]) || s[0] == '_')
    && forall k :: 0 <= k < |s| ==> IsAsciiLetter(s[k]) || Text.IsDigit(s[k]) || s[k] == '_'
  }

  /** The checks `dump` makes on the left-hand side before writing anything. */
  predicate ValidLhs(lhs: string)
  {
    && !(0 < |lhs| && lhs[0] == '_')
    && lhs !in OtherReservedNames
    && IsIdentifier(lhs)
  }

  /** `c.lower()` for ASCII upper-case letters. */
  function Lower(c: char): (r: char)
    ensures !IsUpper(r)
    ensures !IsUpper(c) ==> r == c
    ensures IsUpper(c) ==> r == "abcdefghijklmnopqrstuvwxyz"[c as int - 'A' as int]
  {
    if IsUpper(c) then (c as int - 'A' as int + 'a' as int) as char else c
  }

  /**
   * `re.sub(r"(?<!^)(?=[A-Z])", "_", name).lower()`: an underscore before every
   * upper-case letter but the first character, then everything lower-cased.
   */
  function SnakeCase(name: string): (r: string)
    ensures forall k :: 0 <= k < |r| ==> !IsUpper(r[k])
    ensures 0 < |name| ==> 0 < |r| && r[0] == Lower(name[0])
  {
    if |name| == 0 then ""
    else [Lower(name[0])] + SnakeTail(name[1..])
  }

  /** The part of `SnakeCase` after the first character. */
  function SnakeTail(s: string): (r: string)
    ensures forall k :: 0 <= k < |r| ==> !IsUpper(r[k])
    ensures |r| == |s| + CountUpper(s)
  {
    if |s| == 0 then ""
    else (if IsUpper(s[0]) then "_" else "") + [Lower(s[0])] + SnakeTail(s[1..])
  }

  /** Snake-casing the tail works character by character. */
  lemma {:induction false} SnakeTailConcat(a: string, b: string)
    ensures SnakeTail(a + b) == SnakeTail(a) + SnakeTail(b)
  {
    if |a| > 0 {
      assert (a + b)[0] == a[0] && (a + b)[1..] == a[1..] + b;
      SnakeTailConcat(a[1..], b);
    } else {
      assert a + b == b;
    }
  }

  /** One character of the tail: an underscore before an upper-case letter, then the lower-cased letter. */
  lemma SnakeTailChar(c: char)
    ensures SnakeTail([c]) == (if IsUpper(c) then "_" + [Lower(c)] else [Lower(c)])
  {
    assert [c][1..] == "";
  }

  /**
   * The substitution rule: appending a character to a non-empty name appends an
   * underscore exactly when the character is upper-case, then the character lower-cased.
   */
  lemma SnakeCaseAppend(name: string, c: char)
    requires 0 < |name|
    ensures SnakeCase(name + [c]) == SnakeCase(name) + (if IsUpper(c) then "_" else "") + [Lower(c)]
  {
    assert (name + [c])[1..] == name[1..] + [c];
    SnakeTailConcat(name[1..], [c]);
    SnakeTailChar(c);
  }

  /** The first character is never preceded by an underscore. */
  lemma SnakeCaseFirst(c: char)
    ensures SnakeCase([c]) == [Lower(c)]
  {
    assert [c][1..] == "";
  }

  function CountUpper(s: string): nat
  {
    if |s| == 0 then 0 else (if IsUpper(s[0]) then 1 else 0) + CountUpper(s[1..])
  }

  /** All characters but the underscores. */
  function Letters(s: string): (r: string)
    ensures |r| <= |s|
  {
    if |s| == 0 then "" else (if s[0] == '_' then "" else [s[0]]) + Letters(s[1..])
  }

  function LowerAll(s: string): (r: string)
    ensures |r| == |s|
  {
    if |s| == 0 then "" else [Lower(s[0])] + LowerAll(s[1..])
  }

  lemma {:induction false} LettersConcat(a: string, b: string)
    ensures Letters(a + b) == Letters(a) + Letters(b)
  {
    if |a| > 0 {
      assert (a + b)[1..] == a[1..] + b;
      LettersConcat(a[1..], b);
    } else {
      assert a + b == b;
    }
  }

  /**
   * Snake-casing only inserts underscores and lower-cases: without the underscores,
   * the snake-cased name is the lower-cased name without its underscores.
   */
  lemma {:induction false} SnakeCaseLetters(name: string)
    ensures Letters(SnakeCase(name)) == Letters(LowerAll(name))
  {
    if |name| > 0 {
      SnakeTailLetters(name[1..]);
      LettersConcat([Lower(name[0])], SnakeTail(name[1..]));
      LettersConcat([Lower(name[0])], LowerAll(name[1..]));
      assert LowerAll(name) == [Lower(name[0])] + LowerAll(name[1..]);
    }
  }

  lemma {:induction false} SnakeTailLetters(s: string)
    ensures Letters(SnakeTail(s)) == Letters(LowerAll(s))
  {
    if |s| > 0 {
      SnakeTailLetters(s[1..]);
      var u := if IsUpper(s[0]) then "_" else "";
      LettersConcat(u, [Lower(s[0])]);
      LettersConcat(u + [Lower(s[0])], SnakeTail(s[1..]));
      LettersConcat([Lower(s[0])], LowerAll(s[1..]));
      assert Letters(u) == "";
      assert LowerAll(s) == [Lower(s[0])] + LowerAll(s[1..]);
    }
  }

  /**
   * The base of a fresh name: a type's own name, or the snake-cased name of an
   * object's class, with a leading underscore added if it lacks one.
   */
  function BaseName(className: string, isType: bool): (r: string)
    ensures 0 < |r| && r[0] == '_'
    ensures var name := if isType then className else SnakeCase(className);
            if 0 < |name| && name[0] == '_' then r == name else r == "_" + name
  {
    var name := if isType then className else SnakeCase(className);
    if 0 < |name| && name[0] == '_' then name else "_" + name
  }

  /** The `i`-th candidate name: the base itself, then the base followed by 1, 2, ... */
  function Candidate(base: string, i: nat): (r: string)
    ensures base <= r
    ensures i == 0 ==> r == base
    ensures 0 < i ==> r == base + Text.NatToString(i)
  {
    if i > 0 then base + Text.NatToString(i) else base
  }

  /** Different counters give different candidates. */
  lemma CandidateInjective(base: string, i: nat, j: nat)
    ensures Candidate(base, i) == Candidate(base, j) ==> i == j
  {
    if Candidate(base, i) == Candidate(base, j) && 0 < i && 0 < j {
      var n := |base|;
      assert Candidate(base, i)[n..] == Text.NatToString(i);
      assert Candidate(base, j)[n..] == Text.NatToString(j);
      Text.NatToStringRoundTrip(i);
      Text.NatToStringRoundTrip(j);
    }
  }

  /** The first `n` candidates. */
  function Candidates(base: string, n: nat): set<string>
  {
    set j | 0 <= j < n :: Candidate(base, j)
  }

  /** The first `n` candidates are `n` different names. */
  lemma {:induction false} CandidatesCard(base: string, n: nat)
    ensures |Candidates(base, n)| == n
  {
    if n > 0 {
      CandidatesCard(base, n - 1);
      CandidatesNext(base, n);
    } else {
      assert Candidates(base, n) == {};
    }
  }

  /** The `n`-th candidate is new: one more candidate makes one more name. */
  lemma CandidatesNext(base: string, n: nat)
    requires 0 < n
    ensures |Candidates(base, n)| == |Candidates(base, n - 1)| + 1
  {
    var a, c := Candidates(base, n - 1), Candidate(base, n - 1);
    forall j | 0 <= j < n - 1
      ensures Candidate(base, j) != c
    {
      CandidateInjective(base, j, n - 1);
    }
    assert c !in a;
    assert Candidates(base, n) == a + {c};
  }

  /** `name` is the first candidate for `base` not among `reserved`. */
  ghost predicate FirstFree(base: string, reserved: set<string>, name: string)
  {
    exists i: nat :: name == Candidate(base, i) && name !in reserved && AllTaken(base, reserved, i)
  }

  ghost predicate AllTaken(base: string, reserved: set<string>, i: nat)
  {
    forall j :: 0 <= j < i ==> Candidate(base, j) in reserved
  }

  /** There is exactly one first free candidate. */
  lemma FirstFreeUnique(base: string, reserved: set<string>, name: string, name': string)
    requires FirstFree(base, reserved, name) && FirstFree(base, reserved, name')
    ensures name == name'
  {
    var i: nat :| name == Candidate(base, i) && name !in reserved && AllTaken(base, reserved, i);
    var i': nat :| name' == Candidate(base, i') && name' !in reserved && AllTaken(base, reserved, i');
  }

  /** A fresh name and a valid user left-hand side are never the same name. */
  lemma FreshNamesAvoidLhs(base: string, i: nat, lhs: string)
    requires 0 < |base| && base[0] == '_' && ValidLhs(lhs)
    ensures Candidate(base, i) != lhs
  {
    assert Candidate(base, i)[0] == '_';
  }

  // ---------------------------------------------------------------------------------
  // Imports

  /** The import line of each reserved module name (the `code` table of `_import_reserved`). */
  function ReservedImportCode(name: string): Option<string>
  {
    if name == "gs" then Some("from sisyphus import gs")
    else if name == "tk" then Some("from sisyphus import tk")
    else if name == "rasr" then Some("import i6_core.rasr as rasr")
    else if name == "make_fake_job" then
      Some("from i6_experiments.common.utils.dump_py_code import _make_fake_job as make_fake_job")
    else None
  }

  ghost predicate NoDuplicates(s: seq<string>)
  {
    forall i, j :: 0 <= i < j < |s| ==> s[i] != s[j]
  }

  // ---------------------------------------------------------------------------------
  // Objects

  /**
   * The objects the dumper meets, each with its `id`: primitives are written by
   * their representation and not remembered; containers (lists, tuples, sets,
   * dicts) are written by their representation and remembered; other objects are
   * created with `object.__new__` of their class and get their state attributes
   * dumped one by one.
   */
  datatype Obj =
    | Primitive(id: nat, repr: string)
    | Container(id: nat, repr: string)
    | Instance(id: nat, moduleName: string, qualname: string, state: seq<Attr>)

  datatype Attr = Attr(key: string, value: Obj)

  // ---------------------------------------------------------------------------------
  // What a dump writes

  /** The dumper's state as a value: the memo, the reserved names, the imports, the import log and the output. */
  datatype Snapshot = Snapshot(memo: map<nat, string>, reserved: set<string>, imports: set<string>,
                               log: seq<string>, output: seq<string>)

  /** The line that creates an instance without calling its constructor. */
  function NewLine(lhs: string, moduleName: string, qualname: string): string
  {
    lhs + " = object.__new__(" + moduleName + "." + qualname + ")"
  }

  /** `line` assigns to `target`. */
  predicate Binds(line: string, target: string)
  {
    target + " = " <= line
  }

  /** `_import_user_mod` on a snapshot. */
  function ImportSpec(s: Snapshot, name: string): (r: Snapshot)
    ensures r.imports == s.imports + {name} && r.memo == s.memo && r.reserved == s.reserved
    ensures r.output == s.output + (if name in s.imports then [] else ["import " + name])
  {
    if name in s.imports then s
    else s.(output := s.output + ["import " + name], imports := s.imports + {name}, log := s.log + [name])
  }

  /** `_register_obj` on a snapshot. */
  function RegisterSpec(s: Snapshot, id: nat, name: string): (r: Snapshot)
    ensures id in r.memo && (id !in s.memo ==> r.memo[id] == name)
    ensures forall i :: i in s.memo ==> i in r.memo && r.memo[i] == s.memo[i]
    ensures r.output == s.output && r.imports == s.imports
  {
    if id in s.memo then s else s.(memo := s.memo[id := name], reserved := s.reserved + {name})
  }

  /**
   * `_dump` on a snapshot. A remembered object (when the memo is consulted) is
   * one line referring to its name; a primitive or a container is one line with
   * its representation, and a container is remembered; an instance imports its
   * module, is created by `object.__new__`, is remembered, and then has its
   * attributes dumped in order. The output only grows, and no memo entry changes.
   */
  function DumpSpec(obj: Obj, lhs: string, checkMemo: bool, s: Snapshot): (r: Snapshot)
    ensures s.output < r.output && s.imports <= r.imports
    ensures forall i :: i in s.memo ==> i in r.memo && r.memo[i] == s.memo[i]
    decreases obj, 1
  {
    if checkMemo && obj.id in s.memo then s.(output := s.output + [lhs + " = " + s.memo[obj.id]])
    else
      match obj
      case Primitive(_, repr) => s.(output := s.output + [lhs + " = " + repr])
      case Container(id, repr) => RegisterSpec(s.(output := s.output + [lhs + " = " + repr]), id, lhs)
      case Instance(id, moduleName, qualname, state) =>
        var s1 := ImportSpec(s, moduleName);
        var s2 := s1.(output := s1.output + [NewLine(lhs, moduleName, qualname)]);
        AttrsSpec(obj, lhs, |state|, RegisterSpec(s2, id, lhs))
  }

  /** The first `k` attributes of an instance dumped one after the other, attribute `key` at `lhs.key`. */
  function AttrsSpec(obj: Obj, lhs: string, k: nat, s: Snapshot): (r: Snapshot)
    requires obj.Instance? && k <= |obj.state|
    ensures s.output <= r.output && s.imports <= r.imports
    ensures forall i :: i in s.memo ==> i in r.memo && r.memo[i] == s.memo[i]
    decreases obj, 0, k
  {
    if k == 0 then s
    else
      var a := obj.state[k - 1];
      DumpSpec(a.value, lhs + "." + a.key, true, AttrsSpec(obj, lhs, k - 1, s))
  }

  /** Every dump writes, after what was there, a line assigning to its left-hand side. */
  lemma DumpBinds(obj: Obj, lhs: string, checkMemo: bool, s: Snapshot)
    ensures exists p :: |s.output| <= p < |DumpSpec(obj, lhs, checkMemo, s).output| &&
                        Binds(DumpSpec(obj, lhs, checkMemo, s).output[p], lhs)
  {
    var r := DumpSpec(obj, lhs, checkMemo, s);
    if checkMemo && obj.id in s.memo {
      assert Binds(r.output[|s.output|], lhs);
    } else if obj.Instance? {
      var s1 := ImportSpec(s, obj.moduleName);
      var s2 := s1.(output := s1.output + [NewLine(lhs, obj.moduleName, obj.qualname)]);
      var p := |s1.output|;
      assert s2.output[p] == NewLine(lhs, obj.moduleName, obj.qualname);
      assert r.output[p] == s2.output[p];
      assert Binds(r.output[p], lhs);
    } else {
      assert Binds(r.output[|s.output|], lhs);
    }
  }

  /**
   * An instance not found in the memo writes its import line if the module is
   * new, then its `object.__new__` line, and after that only its attributes' dumps.
   */
  lemma InstanceOutput(obj: Obj, lhs: string, checkMemo: bool, s: Snapshot)
    requires obj.Instance? && !(checkMemo && obj.id in s.memo)
    ensures var head := s.output + (if obj.moduleName in s.imports then [] else ["import " + obj.moduleName]) +
                        [NewLine(lhs, obj.moduleName, obj.qualname)];
            head <= DumpSpec(obj, lhs, checkMemo, s).output
    ensures obj.moduleName in DumpSpec(obj, lhs, checkMemo, s).imports
    ensures obj.id in DumpSpec(obj, lhs, checkMemo, s).memo
    ensures obj.id !in s.memo ==> DumpSpec(obj, lhs, checkMemo, s).memo[obj.id] == lhs
  {
  }

  /** The dumps of the first `j` attributes come before those of the first `k`. */
  lemma {:induction false} AttrsPrefix(obj: Obj, lhs: string, j: nat, k: nat, s: Snapshot)
    requires obj.Instance? && j <= k <= |obj.state|
    ensures AttrsSpec(obj, lhs, j, s).output <= AttrsSpec(obj, lhs, k, s).output
    decreases k
  {
    if j < k {
      AttrsPrefix(obj, lhs, j, k - 1, s);
    }
  }

  /**
   * The attributes are dumped in order: attribute `j`'s part of the output lies
   * after the parts of the attributes before it, and holds a line assigning to
   * `lhs.key`.
   */
  lemma AttributeOrder(obj: Obj, lhs: string, j: nat, s: Snapshot)
    requires obj.Instance? && j < |obj.state|
    ensures var before, after := AttrsSpec(obj, lhs, j, s).output, AttrsSpec(obj, lhs, j + 1, s).output;
            && before < after <= AttrsSpec(obj, lhs, |obj.state|, s).output
            && exists p :: |before| <= p < |after| && Binds(after[p], lhs + "." + obj.state[j].key)
  {
    var a := obj.state[j];
    DumpBinds(a.value, lhs + "." + a.key, true, AttrsSpec(obj, lhs, j, s));
    AttrsPrefix(obj, lhs, j + 1, |obj.state|, s);
  }

  // ---------------------------------------------------------------------------------
  // The dumper

  class PythonCodeDumper {
    /** Names already bound in the generated code. */
    var reservedNames: set<string>
    /** Object id to the name it is bound to (the memo). */
    var idToObjName: map<nat, string>
    /** Modules already imported by the generated code. */
    var imports: set<string>
    /** The lines written so far. */
    var output: seq<string>
    /** The modules imported, in order. */
    ghost var importLog: seq<string>

    /** Every remembered name is reserved, and every import line is written once. */
    ghost predicate Valid()
      reads this
    {
      && (forall id :: id in idToObjName ==> idToObjName[id] in reservedNames)
      && NoDuplicates(importLog)
      && (forall m :: m in imports <==> m in importLog)
    }

    /** The state as a value. */
    ghost function Snap(): Snapshot
      reads this
    {
      Snapshot(idToObjName, reservedNames, imports, importLog, output)
    }

    constructor()
      ensures Valid()
      ensures reservedNames == {} && idToObjName == map[] && imports == {} && output == []
    {
      reservedNames := {};
      idToObjName := map[];
      imports := {};
      output := [];
      importLog := [];
    }

    /** `_register_obj`: binds `id` to `name` unless it is bound already (first wins). */
    method RegisterObj(id: nat, name: string)
      requires Valid()
      modifies this
      ensures Valid()
      ensures id in old(idToObjName) ==> idToObjName == old(idToObjName) && reservedNames == old(reservedNames)
      ensures id !in old(idToObjName) ==>
                idToObjName == old(idToObjName)[id := name] && reservedNames == old(reservedNames) + {name}
      ensures imports == old(imports) && output == old(output) && importLog == old(importLog)
      ensures Snap() == RegisterSpec(old(Snap()), id, name)
    {
      if id in idToObjName {
        return;
      }
      idToObjName := idToObjName[id := name];
      reservedNames := reservedNames + {name};
    }

    /**
     * `_new_name_for_obj`: tries the base name, then the base name followed by
     * 1, 2, ..., and reserves and returns the first one not yet reserved.
     */
    method NewNameForObj(className: string, isType: bool) returns (name: string)
      requires Valid()
      modifies this
      ensures Valid()
      ensures FirstFree(BaseName(className, isType), old(reservedNames), name)
      ensures name !in old(reservedNames) && reservedNames == old(reservedNames) + {name}
      ensures 0 < |name| && name[0] == '_'
      ensures idToObjName == old(idToObjName) && imports == old(imports) && output == old(output)
      ensures importLog == old(importLog)
    {
      var base := BaseName(className, isType);
      var i: nat := 0;
      while true
        invariant reservedNames == old(reservedNames) && idToObjName == old(idToObjName)
        invariant imports == old(imports) && output == old(output) && importLog == old(importLog)
        invariant AllTaken(base, reservedNames, i)
        invariant i <= |reservedNames|
        decreases |reservedNames| - i
      {
        var candidate := Candidate(base, i);
        if candidate !in reservedNames {
          assert FirstFree(base, reservedNames, candidate);
          reservedNames := reservedNames + {candidate};
          return candidate;
        }
        assert Candidates(base, i + 1) <= reservedNames;
        CandidatesCard(base, i + 1);
        TensorOps.SubsetCard(Candidates(base, i + 1), reservedNames);
        i := i + 1;
      }
    }

    /** `_import_user_mod`: writes `import <name>` unless the module is imported already. */
    method ImportUserMod(name: string)
      requires Valid()
      modifies this
      ensures Valid()
      ensures name in imports
      ensures name in old(imports) ==> output == old(output) && imports == old(imports)
      ensures name !in old(imports) ==> output == old(output) + ["import " + name] && imports == old(imports) + {name}
      ensures idToObjName == old(idToObjName) && reservedNames == old(reservedNames)
      ensures Snap() == ImportSpec(old(Snap()), name)
    {
      if name in imports {
        return;
      }
      output := output + ["import " + name];
      imports := imports + {name};
      importLog := importLog + [name];
    }

    /**
     * `_import_reserved`: writes the import line of a reserved module unless it is
     * imported already; a name outside the table raises `KeyError`.
     */
    method ImportReserved(name: string) returns (r: Result<(), string>)
      requires Valid()
      modifies this
      ensures Valid()
      ensures r.Failure? <==> name !in old(imports) && ReservedImportCode(name).None?
      ensures r.Success? ==> name in imports
      ensures name in old(imports) || r.Failure? ==> output == old(output) && imports == old(imports)
      ensures name !in old(imports) && r.Success? ==>
                output == old(output) + [ReservedImportCode(name).value] && imports == old(imports) + {name}
      ensures idToObjName == old(idToObjName) && reservedNames == old(reservedNames)
    {
      if name in imports {
        return Success(());
      }
      match ReservedImportCode(name) {
        case None =>
          return Failure("KeyError");
        case Some(code) =>
          output := output + [code];
          imports := imports + {name};
          importLog := importLog + [name];
          return Success(());
      }
    }

    /**
     * `_dump` on the object kinds of `Obj`: a remembered object is written as a
     * reference to its existing name; otherwise the object is written and, unless
     * it is a primitive, remembered under `lhs` before its attributes are dumped.
     */
    method DumpObj(obj: Obj, lhs: string, checkMemo: bool)
      requires Valid()
      modifies this
      ensures Valid()
      ensures forall id :: id in old(idToObjName) ==> id in idToObjName && idToObjName[id] == old(idToObjName)[id]
      ensures old(reservedNames) <= reservedNames && old(imports) <= imports && old(output) < output
      ensures checkMemo && obj.id in old(idToObjName) ==>
                output == old(output) + [lhs + " = " + old(idToObjName)[obj.id]] &&
                idToObjName == old(idToObjName) && reservedNames == old(reservedNames) && imports == old(imports)
      ensures !(checkMemo && obj.id in old(idToObjName)) && (obj.Primitive? || obj.Container?) ==>
                output == old(output) + [lhs + " = " + obj.repr] && imports == old(imports)
      ensures !(checkMemo && obj.id in old(idToObjName)) && obj.Primitive? ==>
                idToObjName == old(idToObjName) && reservedNames == old(reservedNames)
      ensures !(checkMemo && obj.id in old(idToObjName)) && obj.Container? ==>
                (obj.id in old(idToObjName) ==> idToObjName == old(idToObjName) && reservedNames == old(reservedNames)) &&
                (obj.id !in old(idToObjName) ==>
                   idToObjName == old(idToObjName)[obj.id := lhs] && reservedNames == old(reservedNames) + {lhs})
      ensures !(checkMemo && obj.id in old(idToObjName)) && obj.Instance? ==>
                obj.moduleName in imports && obj.id in idToObjName &&
                (obj.id !in old(idToObjName) ==> idToObjName[obj.id] == lhs)
      ensures Snap() == DumpSpec(obj, lhs, checkMemo, old(Snap()))
      decreases obj
    {
      if checkMemo && obj.id in idToObjName {
        output := output + [lhs + " = " + idToObjName[obj.id]];
        return;
      }
      match obj {
        case Primitive(_, repr) =>
          output := output + [lhs + " = " + repr];
        case Container(id, repr) =>
          output := output + [lhs + " = " + repr];
          RegisterObj(id, lhs);
        case Instance(id, moduleName, qualname, state) =>
          ImportUserMod(moduleName);
          output := output + [lhs + " = object.__new__(" + moduleName + "." + qualname + ")"];
          RegisterObj(id, lhs);
          DumpState(obj, lhs);
      }
    }

    /** The attribute loop of `_dump`: each state attribute `k` is dumped at `lhs.k`. */
    method DumpState(obj: Obj, lhs: string)
      requires Valid() && obj.Instance?
      modifies this
      ensures Valid()
      ensures forall id :: id in old(idToObjName) ==> id in idToObjName && idToObjName[id] == old(idToObjName)[id]
      ensures old(reservedNames) <= reservedNames && old(imports) <= imports && old(output) <= output
      ensures Snap() == AttrsSpec(obj, lhs, |obj.state|, old(Snap()))
      decreases obj, 0
    {
      var k := 0;
      while k < |obj.state|
        invariant k <= |obj.state|
        invariant Valid()
        invariant Snap() == AttrsSpec(obj, lhs, k, old(Snap()))
        invariant forall id :: id in old(idToObjName) ==> id in idToObjName && idToObjName[id] == old(idToObjName)[id]
        invariant old(reservedNames) <= reservedNames && old(imports) <= imports && old(output) <= output
      {
        var attr := obj.state[k];
        DumpObj(attr.value, lhs + "." + attr.key, true);
        k := k + 1;
      }
    }

    /**
     * `_name_for_obj`: the name an object is remembered under, or else a fresh
     * name to which the object is dumped (without consulting the memo again).
     */
    method NameForObj(obj: Obj, className: string, isType: bool) returns (name: string)
      requires Valid()
      modifies this
      ensures Valid()
      ensures obj.id in old(idToObjName) ==> name == old(idToObjName)[obj.id] && output == old(output)
      ensures obj.id !in old(idToObjName) ==>
                FirstFree(BaseName(className, isType), old(reservedNames), name) && name in reservedNames
      ensures obj.id in idToObjName || obj.Primitive?
      ensures !obj.Primitive? ==> idToObjName[obj.id] == name
      ensures obj.id !in old(idToObjName) ==>
                Snap() == DumpSpec(obj, name, false, old(Snap()).(reserved := old(reservedNames) + {name}))
    {
      if obj.id in idToObjName {
        return idToObjName[obj.id];
      }
      name := NewNameForObj(className, isType);
      DumpObj(obj, name, false);
    }

    /**
     * `dump`: checks the left-hand side, forgets the memo and the reserved names
     * of earlier dumps (the imports stay), and dumps the object.
     */
    method Dump(obj: Obj, lhs: string) returns (r: Result<(), string>)
      requires Valid()
      modifies this
      ensures Valid()
      ensures r.Success? <==> ValidLhs(lhs)
      ensures r.Failure? ==>
                output == old(output) && imports == old(imports) &&
                idToObjName == old(idToObjName) && reservedNames == old(reservedNames)
      ensures r.Success? ==> old(imports) <= imports && old(output) < output
      ensures r.Success? && (obj.Primitive? || obj.Container?) ==>
                output == old(output) + [lhs + " = " + obj.repr] && imports == old(imports)
      ensures r.Success? && obj.Primitive? ==> idToObjName == map[] && reservedNames == {}
      ensures r.Success? && obj.Container? ==> idToObjName == map[obj.id := lhs] && reservedNames == {lhs}
      ensures r.Success? && obj.Instance? ==> obj.id in idToObjName && idToObjName[obj.id] == lhs
      ensures r.Success? ==> Snap() == DumpSpec(obj, lhs, true, old(Snap()).(memo := map[], reserved := {}))
    {
      if !ValidLhs(lhs) {
        return Failure("AssertionError");
      }
      idToObjName := map[];
      reservedNames := {};
      DumpObj(obj, lhs, true);
      return Success(());
    }
  }
}
