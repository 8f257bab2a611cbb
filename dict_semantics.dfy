/**
  Runtime meaning of dictionary displays with `**` unpacking, over abstract
  Python values.

  A Python dict is a `map<Key, Obj>` (insertion order is not modelled).
  An operand of `**` is either a mapping, given by the key/value pairs its
  `keys()` / `__getitem__` protocol yields, or an object whose `dict.update`
  fails: a non-mapping (the update raises AttributeError) or an object whose
  update raises some other exception.
*/
module DictSemantics {
  import opened Wrappers

  type Key = string
  type Obj = int

  /**
    A Python exception: the name of its class, its message, and the names of
    all the classes its class derives from. A handler for class `C` catches
    an exception that is an instance of `C` or of any subclass of `C`.
  */
  datatype Exc = Exc(className: string, message: string, bases: set<string>)

  /** `isinstance(e, C)` for the class named `name`. */
  predicate IsInstance(e: Exc, name: string)
  {
    e.className == name || name in e.bases
  }

  /** The bases of the built-in exception classes used here, which derive directly from Exception. */
  const StandardBases: set<string> := {"Exception", "BaseException"}

  datatype Operand =
    | Mapping(typeName: string, pairs: seq<(Key, Obj)>)
    | NonMapping(typeName: string)
    | Failing(typeName: string, error: Exc)

  /** The AttributeError `dict.update` raises for an object without `keys`. */
  function NoKeysError(typeName: string): (e: Exc)
    ensures IsInstance(e, "AttributeError")
  {
    Exc("AttributeError", "'" + typeName + "' object has no attribute 'keys'", StandardBases)
  }

  /** The message of the TypeError raised for a non-mapping `**` operand. */
  function NotAMappingMessage(typeName: string): string
  {
    "'" + typeName + "' object is not a mapping"
  }

  function NotAMapping(typeName: string): Exc
  {
    Exc("TypeError", NotAMappingMessage(typeName), StandardBases)
  }

  /** Storing the pairs one by one, left to right: a later pair overwrites an earlier one. */
  function MergePairs(acc: map<Key, Obj>, pairs: seq<(Key, Obj)>): map<Key, Obj>
    decreases |pairs|
  {
    if pairs == [] then acc else MergePairs(acc[pairs[0].0 := pairs[0].1], pairs[1..])
  }

  /** The value the last pair with key `k` carries, if any. */
  function LastValue(pairs: seq<(Key, Obj)>, k: Key): Option<Obj>
    decreases |pairs|
  {
    if pairs == [] then None
    else if pairs[|pairs| - 1].0 == k then Some(pairs[|pairs| - 1].1)
    else LastValue(pairs[..|pairs| - 1], k)
  }

  /** `acc.update(item)` for the result dict `acc`. */
  function Update(acc: map<Key, Obj>, item: Operand): Result<map<Key, Obj>, Exc>
  {
    match item
    case Mapping(_, ps) => Ok(MergePairs(acc, ps))
    case NonMapping(t) => Err(NoKeysError(t))
    case Failing(_, e) => Err(e)
  }

  /**
    The helper `_unpack_dict(*args)` continued from the partial result `acc`:
    update with each item in order; an AttributeError (of that class or a
    subclass) from an update becomes
    the "not a mapping" TypeError, every other exception propagates as is.
  */
  function UnpackFrom(acc: map<Key, Obj>, args: seq<Operand>): Result<map<Key, Obj>, Exc>
    decreases |args|
  {
    if args == [] then Ok(acc)
    else
      match Update(acc, args[0])
      case Ok(next) => UnpackFrom(next, args[1..])
      case Err(e) =>
        if IsInstance(e, "AttributeError") then Err(NotAMapping(args[0].typeName)) else Err(e)
  }

  /** The helper's result: start from `{}` and fold the items in. */
  function UnpackDict(args: seq<Operand>): Result<map<Key, Obj>, Exc>
  {
    UnpackFrom(map[], args)
  }

  // ---------------------------------------------------------------------------
  // Properties of the fold

  /** Every pair of every operand, in order. */
  function AllPairs(args: seq<Operand>): seq<(Key, Obj)>
    requires forall i :: 0 <= i < |args| ==> args[i].Mapping?
    decreases |args|
  {
    if args == [] then [] else args[0].pairs + AllPairs(args[1..])
  }

  lemma {:induction false} MergePairsLookup(acc: map<Key, Obj>, pairs: seq<(Key, Obj)>, k: Key)
    ensures k in MergePairs(acc, pairs) <==> (k in acc || LastValue(pairs, k).Some?)
    ensures LastValue(pairs, k).Some? ==> MergePairs(acc, pairs)[k] == LastValue(pairs, k).value
    ensures LastValue(pairs, k).None? && k in acc ==> MergePairs(acc, pairs)[k] == acc[k]
    decreases |pairs|
  {
    if pairs != [] {
      MergePairsLookup(acc[pairs[0].0 := pairs[0].1], pairs[1..], k);
      LastValueCons(pairs, k);
    }
  }

  /** LastValue of a non-empty list, seen from its head. */
  lemma {:induction false} LastValueCons(pairs: seq<(Key, Obj)>, k: Key)
    requires pairs != []
    ensures LastValue(pairs, k) ==
      (if LastValue(pairs[1..], k).Some? then LastValue(pairs[1..], k)
       else if pairs[0].0 == k then Some(pairs[0].1) else None)
    decreases |pairs|
  {
    var n := |pairs|;
    if n == 1 {
      assert pairs[1..] == [];
    } else if pairs[n - 1].0 == k {
      assert pairs[1..][|pairs[1..]| - 1] == pairs[n - 1];
    } else {
      var init := pairs[..n - 1];
      LastValueCons(init, k);
      assert init[1..] == pairs[1..][..|pairs[1..]| - 1];
      assert init[0] == pairs[0];
    }
  }

  lemma {:induction false} LastValueAppend(a: seq<(Key, Obj)>, b: seq<(Key, Obj)>, k: Key)
    ensures LastValue(a + b, k) == if LastValue(b, k).Some? then LastValue(b, k) else LastValue(a, k)
    decreases |b|
  {
    if b == [] {
      assert a + b == a;
    } else {
      var n := |b|;
      assert (a + b)[|a + b| - 1] == b[n - 1];
      assert (a + b)[..|a + b| - 1] == a + b[..n - 1];
      LastValueAppend(a, b[..n - 1], k);
    }
  }

  lemma {:induction false} MergePairsAppend(acc: map<Key, Obj>, a: seq<(Key, Obj)>, b: seq<(Key, Obj)>)
    ensures MergePairs(acc, a + b) == MergePairs(MergePairs(acc, a), b)
    decreases |a|
  {
    if a == [] {
      assert a + b == b;
    } else {
      assert (a + b)[0] == a[0];
      assert (a + b)[1..] == a[1..] + b;
      MergePairsAppend(acc[a[0].0 := a[0].1], a[1..], b);
    }
  }

  /**
    When every operand is a mapping, the helper succeeds with the dict that
    stores all their pairs left to right.
  */
  lemma {:induction false} UnpackAllMappings(acc: map<Key, Obj>, args: seq<Operand>)
    requires forall i :: 0 <= i < |args| ==> args[i].Mapping?
    ensures UnpackFrom(acc, args) == Ok(MergePairs(acc, AllPairs(args)))
    decreases |args|
  {
    if args != [] {
      UnpackAllMappings(MergePairs(acc, args[0].pairs), args[1..]);
      MergePairsAppend(acc, args[0].pairs, AllPairs(args[1..]));
    }
  }

  /**
    Later keys overwrite earlier ones: when every operand is a mapping, key `k`
    is in the result iff some operand has it, and then it maps to the value of
    the last pair with that key over all operands in order.
  */
  lemma LaterKeysOverwrite(args: seq<Operand>, k: Key)
    requires forall i :: 0 <= i < |args| ==> args[i].Mapping?
    ensures UnpackDict(args).Ok?
    ensures k in UnpackDict(args).value <==> LastValue(AllPairs(args), k).Some?
    ensures k in UnpackDict(args).value ==> UnpackDict(args).value[k] == LastValue(AllPairs(args), k).value
  {
    UnpackAllMappings(map[], args);
    MergePairsLookup(map[], AllPairs(args), k);
  }

  /** The exception the helper raises for a failing operand. */
  function RaisedFor(item: Operand): (e: Exc)
    requires !item.Mapping?
    ensures item.NonMapping? ==> e == NotAMapping(item.typeName)
  {
    match item
    case NonMapping(t) => NotAMapping(t)
    case Failing(t, err) => if IsInstance(err, "AttributeError") then NotAMapping(t) else err
  }

  /**
    The helper fails iff some operand is not a mapping; the exception is the one
    for the FIRST such operand (so operands after it are never merged), and a
    non-mapping gives the TypeError "'<type name>' object is not a mapping".
  */
  lemma {:induction false} UnpackFirstFailure(acc: map<Key, Obj>, args: seq<Operand>, i: nat)
    requires i < |args| && !args[i].Mapping?
    requires forall j :: 0 <= j < i ==> args[j].Mapping?
    ensures UnpackFrom(acc, args) == Err(RaisedFor(args[i]))
    ensures args[i].NonMapping? ==>
      UnpackFrom(acc, args) == Err(Exc("TypeError", "'" + args[i].typeName + "' object is not a mapping", StandardBases))
    decreases i
  {
    if i > 0 {
      UnpackFirstFailure(MergePairs(acc, args[0].pairs), args[1..], i - 1);
    }
  }

  lemma {:induction false} UnpackFailsIffNonMapping(acc: map<Key, Obj>, args: seq<Operand>)
    ensures UnpackFrom(acc, args).Err? <==> exists i :: 0 <= i < |args| && !args[i].Mapping?
    decreases |args|
  {
    if args != [] && args[0].Mapping? {
      var tail := args[1..];
      UnpackFailsIffNonMapping(MergePairs(acc, args[0].pairs), tail);
      if exists i :: 0 <= i < |tail| && !tail[i].Mapping? {
        var i :| 0 <= i < |tail| && !tail[i].Mapping?;
        assert args[i + 1] == tail[i];
      }
      if exists i :: 0 <= i < |args| && !args[i].Mapping? {
        var i :| 0 <= i < |args| && !args[i].Mapping?;
        assert tail[i - 1] == args[i];
      }
    }
  }

  /** `{**{"a": 1}, "b": 2, **{"a": 3}}`: the later "a" wins, "b" is kept. */
  lemma OverwriteExample()
    ensures UnpackDict([Mapping("dict", [("a", 1)]), Mapping("dict", [("b", 2)]), Mapping("dict", [("a", 3)])])
         == Ok(map["a" := 3, "b" := 2])
  {
    var r := map[]["a" := 1]["b" := 2]["a" := 3];
    assert r == map["a" := 3, "b" := 2];
  }

  /** `{**5}` raises TypeError("'int' object is not a mapping"). */
  lemma NonMappingExample()
    ensures UnpackDict([NonMapping("int")]) == Err(Exc("TypeError", "'int' object is not a mapping", StandardBases))
  {
    var args := [NonMapping("int")];
    assert Update(map[], args[0]) == Err(NoKeysError("int"));
    assert UnpackFrom(map[], args) == Err(NotAMapping("int"));
    var m, expected := NotAMappingMessage("int"), "'int' object is not a mapping";
    assert |m| == |expected|;
    forall i | 0 <= i < |m| ensures m[i] == expected[i] {}
    assert m == expected;
    assert UnpackDict(args) == Err(Exc("TypeError", expected, StandardBases));
  }

  /**
    An operand whose `update` raises a subclass of AttributeError is reported
    as not a mapping, like one that raises AttributeError itself; an update
    raising an unrelated exception propagates it unchanged.
  */
  lemma AttributeErrorSubclassExample(proxy: string)
    ensures var e := Exc("KeyLookupError", "no keys", {"AttributeError"} + StandardBases);
      UnpackDict([Mapping("dict", [("a", 1)]), Failing(proxy, e)]) == Err(NotAMapping(proxy))
    ensures var e := Exc("ValueError", "bad", StandardBases);
      UnpackDict([Failing(proxy, e), NonMapping("int")]) == Err(e)
  {
    var e := Exc("KeyLookupError", "no keys", {"AttributeError"} + StandardBases);
    UnpackFirstFailure(map[], [Mapping("dict", [("a", 1)]), Failing(proxy, e)], 1);
    UnpackFirstFailure(map[], [Failing(proxy, Exc("ValueError", "bad", StandardBases)), NonMapping("int")], 0);
  }

  // ---------------------------------------------------------------------------
  // The display itself, and what the reformulated call sends to the helper

  /** The runtime value of one entry of a dict display: `**operand` or `key: value`. */
  datatype Entry = Unpack(operand: Operand) | Pair(key: Key, value: Obj)

  /**
    Python 3.5's own meaning of a display `{e1, e2, ...}`, entry by entry:
    a `key: value` entry stores one key, a `**` entry merges a mapping, and a
    failing merge raises as `dict.update` does, AttributeError becoming the
    "not a mapping" TypeError.
  */
  function DisplayMeaning(acc: map<Key, Obj>, entries: seq<Entry>): Result<map<Key, Obj>, Exc>
    decreases |entries|
  {
    if entries == [] then Ok(acc)
    else
      match entries[0]
      case Pair(k, v) => DisplayMeaning(acc[k := v], entries[1..])
      case Unpack(Mapping(_, ps)) => DisplayMeaning(MergePairs(acc, ps), entries[1..])
      case Unpack(NonMapping(t)) => Err(NotAMapping(t))
      case Unpack(Failing(t, e)) => if IsInstance(e, "AttributeError") then Err(NotAMapping(t)) else Err(e)
  }

  /**
    The value the reformulated call passes for one entry: the `**` operand
    itself, or a fresh one-entry dict `{key: value}`.
  */
  function HelperOperand(e: Entry): (o: Operand)
    ensures e.Pair? ==> o.Mapping? && MergePairs(map[], o.pairs) == map[e.key := e.value]
  {
    match e
    case Unpack(op) => op
    case Pair(k, v) => Mapping("dict", [(k, v)])
  }

  function HelperOperands(entries: seq<Entry>): (r: seq<Operand>)
    ensures |r| == |entries|
    ensures forall i :: 0 <= i < |entries| ==> r[i] == HelperOperand(entries[i])
  {
    seq(|entries|, i requires 0 <= i < |entries| => HelperOperand(entries[i]))
  }

  /**
    The reformulation keeps the meaning of the display: calling the helper on
    the tuple of per-entry values gives what evaluating the display directly
    gives, the same dict or the same exception.
  */
  lemma {:induction false} ReformulationPreservesMeaning(acc: map<Key, Obj>, entries: seq<Entry>)
    ensures UnpackFrom(acc, HelperOperands(entries)) == DisplayMeaning(acc, entries)
    decreases |entries|
  {
    if entries != [] {
      var ops := HelperOperands(entries);
      assert ops[1..] == HelperOperands(entries[1..]);
      match entries[0]
      case Pair(k, v) =>
        var one := [(k, v)];
        assert one[1..] == [];
        assert MergePairs(acc, one) == acc[k := v];
        ReformulationPreservesMeaning(acc[k := v], entries[1..]);
      case Unpack(op) =>
        if op.Mapping? {
          ReformulationPreservesMeaning(MergePairs(acc, op.pairs), entries[1..]);
        }
    }
  }
}
