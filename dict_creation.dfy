/**
  Reformulation of dictionary displays (nuitka/tree/ReformulationDictionaryCreation.py).

  A display without `**` operands becomes a dict-creation node. A display
  with one (Python 3.5 and later) becomes a call of the internal helper
  `_unpack_dict(*args)`, built once and shared, with one positional argument
  per entry: the `**` operand itself, or a one-entry dict for `key: value`.
*/
module DictCreation {
  import opened Wrappers
  import opened DictSemantics
  import opened DictTree
  import opened HelperInterp

  const UnpackHelperName := "_unpack_dict"
  const NotAMappingFormat := "'%s' object is not a mapping"

  // ---------------------------------------------------------------------------
  // The helper's tree

  /** No normal arguments, the star argument `args`, no `**` argument, no defaults. */
  function UnpackParameters(): ParameterSpec
  {
    ParameterSpec(UnpackHelperName, [], Some("args"), None, 0, [])
  }

  /** `try: item = next(iter) except StopIteration: break` */
  function NextItem(iter: string, item: string): Stmt
  {
    TryExceptSingle(AssignTemp(item, BuiltinNext1(TempVariableRef(iter))), "StopIteration", BreakLoop)
  }

  /** `raise TypeError("'%s' object is not a mapping" % (type(item).__name__,))` */
  function RaiseNotAMapping(item: string): Stmt
  {
    RaiseException(
      BuiltinMakeException("TypeError", [
        OperationBinaryMod(
          ConstantString(NotAMappingFormat),
          MakeTuple([AttributeLookup(BuiltinType1(TempVariableRef(item)), "__name__")], Internal))]))
  }

  /** `try: result.update(item) except AttributeError: raise TypeError(...)` */
  function MergeItem(result: string, item: string): Stmt
  {
    TryExceptSingle(
      ExpressionOnly(DictOperationUpdate(TempVariableRef(result), TempVariableRef(item))),
      "AttributeError",
      RaiseNotAMapping(item))
  }

  function UnpackLoopBody(result: string, iter: string, item: string): seq<Stmt>
  {
    [NextItem(iter, item), MergeItem(result, item)]
  }

  function UnpackTried(result: string, iter: string, item: string): seq<Stmt>
  {
    [ AssignTemp(iter, BuiltinIter1(VariableRef("args"))),
      AssignTemp(result, ConstantEmptyDict),
      Loop(UnpackLoopBody(result, iter, item)),
      Return(TempVariableRef(result)) ]
  }

  function UnpackFinal(result: string, iter: string, item: string): seq<Stmt>
  {
    [ReleaseVariable(result), ReleaseVariable(iter), ReleaseVariable(item)]
  }

  /**
    The helper's body: one try/finally around the whole computation whose
    final block releases the three temporaries and does nothing else.
  */
  function UnpackHelperStatements(result: string, iter: string, item: string): (body: seq<Stmt>)
    ensures |body| == 1 && body[0].TryFinally?
    ensures forall i :: 0 <= i < |body[0].final| ==> body[0].final[i].ReleaseVariable?
    ensures (set i | 0 <= i < |body[0].final| :: body[0].final[i].variable) == {result, iter, item}
    ensures |body[0].triedBlock| > 0 && body[0].triedBlock[|body[0].triedBlock| - 1] == Return(TempVariableRef(result))
  {
    var final := UnpackFinal(result, iter, item);
    assert (set i | 0 <= i < |final| :: final[i].variable) == {result, iter, item} by {
      assert final[0].variable == result && final[1].variable == iter && final[2].variable == item;
    }
    [TryFinally(UnpackTried(result, iter, item), final)]
  }

  const ResultTemp := "dict"
  const IterTemp := "iter"
  const ItemTemp := "keys"

  /** What getDictUnpackingHelper's result looks like once built. */
  ghost predicate IsDictUnpackingHelper(b: FunctionBody)
    reads b
  {
    && b.name == UnpackHelperName
    && b.parameters == UnpackParameters()
    && b.tempVariables == [ResultTemp, IterTemp, ItemTemp]
    && b.body == UnpackHelperStatements(ResultTemp, IterTemp, ItemTemp)
  }

  /**
    The process-wide memo of getDictUnpackingHelper: empty until the first
    request, then the one helper every later request receives.
  */
  class UnpackingHelperCache {
    var helper: FunctionBody?

    ghost predicate Valid()
      reads this, helper
    {
      helper != null ==> IsDictUnpackingHelper(helper)
    }

    constructor ()
      ensures Valid() && helper == null
    {
      helper := null;
    }

    /** getDictUnpackingHelper: builds the helper on the first call and returns that same body on every call. */
    method GetDictUnpackingHelper() returns (r: FunctionBody)
      requires Valid()
      modifies this
      ensures Valid() && helper == r && IsDictUnpackingHelper(r)
      ensures old(helper) != null ==> r == old(helper)
      ensures old(helper) == null ==> fresh(r)
    {
      if helper == null {
        helper := MakeDictUnpackingHelper();
      }
      r := helper;
    }
  }

  /** The body of getDictUnpackingHelper, before memoisation. */
  method MakeDictUnpackingHelper() returns (r: FunctionBody)
    ensures fresh(r) && IsDictUnpackingHelper(r)
  {
    r := new FunctionBody(UnpackHelperName, UnpackParameters());
    var result := r.AllocateTempVariable(ResultTemp);
    var iter := r.AllocateTempVariable(IterTemp);
    var item := r.AllocateTempVariable(ItemTemp);
    r.SetBody([TryFinally(UnpackTried(result, iter, item), UnpackFinal(result, iter, item))]);
  }

  // ---------------------------------------------------------------------------
  // Call sites

  predicate HasAbsentKey(keys: seq<Option<Syn>>)
  {
    exists i :: 0 <= i < |keys| && keys[i].None?
  }

  /** The unpacking path is taken iff the target is Python 3.5 or later and some key is absent. */
  predicate UsesUnpacking(pythonVersion: int, keys: seq<Option<Syn>>)
  {
    pythonVersion >= 350 && HasAbsentKey(keys)
  }

  /** buildNodeList: each user expression becomes its built node, in order. */
  function BuildNodeList(syns: seq<Syn>): (r: seq<Expr>)
    ensures |r| == |syns| && forall i :: 0 <= i < |syns| ==> r[i] == Built(syns[i])
  {
    seq(|syns|, i requires 0 <= i < |syns| => Built(syns[i]))
  }

  function PresentKeys(keys: seq<Option<Syn>>): (r: seq<Syn>)
    requires !HasAbsentKey(keys)
    ensures |r| == |keys| && forall i :: 0 <= i < |keys| ==> Some(r[i]) == keys[i]
  {
    seq(|keys|, i requires 0 <= i < |keys| => keys[i].value)
  }

  /** The helper argument for one entry: the `**` operand, or `{key: value}`. */
  function HelperArg(key: Option<Syn>, value: Syn, sref: SourceRef): Expr
  {
    match key
    case None => Built(value)
    case Some(k) => MakeDict([KeyValuePair(Built(k), Built(value), sref)], sref)
  }

  /**
    The call buildDictionaryUnpacking returns: the helper called with the
    single argument `tuple(helper_args)`, one element per entry in source
    order, its compatible source reference taken from the last element.
  */
  function UnpackingCall(helper: FunctionBody, keys: seq<Option<Syn>>, values: seq<Syn>, sref: SourceRef): (r: Expr)
    requires |keys| == |values| > 0
    ensures r.FunctionCall? && r.callee == FunctionCreation(FunctionRef(helper, sref), [], sref)
    ensures |r.values| == 1 && r.values[0].MakeTuple? && |r.values[0].elements| == |keys|
    ensures forall i :: 0 <= i < |keys| ==> r.values[0].elements[i] == HelperArg(keys[i], values[i], sref)
    ensures r.compatibleRef == CompatibleSourceRef(r.values[0].elements[|keys| - 1])
  {
    var args := seq(|keys|, i requires 0 <= i < |keys| => HelperArg(keys[i], values[i], sref));
    FunctionCall(
      FunctionCreation(FunctionRef(helper, sref), [], sref),
      [MakeTuple(args, sref)],
      sref,
      CompatibleSourceRef(args[|args| - 1]))
  }

  /**
    Diagnostics of the call point at user code: at the last `**` operand
    when the last entry is one, otherwise at the display itself.
  */
  lemma UnpackingCallSourceRef(helper: FunctionBody, keys: seq<Option<Syn>>, values: seq<Syn>, sref: SourceRef)
    requires |keys| == |values| > 0
    ensures UnpackingCall(helper, keys, values, sref).compatibleRef
         == if keys[|keys| - 1].None? then values[|values| - 1].pos else sref
  {
  }

  /** buildDictionaryUnpacking */
  method BuildDictionaryUnpacking(cache: UnpackingHelperCache, keys: seq<Option<Syn>>, values: seq<Syn>, sref: SourceRef)
    returns (r: Expr)
    requires cache.Valid()
    requires |keys| == |values| > 0
    modifies cache
    ensures cache.Valid() && cache.helper != null
    ensures old(cache.helper) != null ==> cache.helper == old(cache.helper)
    ensures r == UnpackingCall(cache.helper, keys, values, sref)
  {
    var helperArgs: seq<Expr> := [];
    var i := 0;
    while i < |keys|
      invariant 0 <= i <= |keys|
      invariant |helperArgs| == i
      invariant forall j :: 0 <= j < i ==> helperArgs[j] == HelperArg(keys[j], values[j], sref)
    {
      if keys[i].None? {
        helperArgs := helperArgs + [Built(values[i])];
      } else {
        helperArgs := helperArgs + [MakeDict([KeyValuePair(Built(keys[i].value), Built(values[i]), sref)], sref)];
      }
      assert helperArgs[i] == HelperArg(keys[i], values[i], sref);
      i := i + 1;
    }
    var helper := cache.GetDictUnpackingHelper();
    ghost var call := UnpackingCall(helper, keys, values, sref);
    assert helperArgs == call.values[0].elements;
    r := FunctionCall(
      FunctionCreation(FunctionRef(helper, sref), [], sref),
      [MakeTuple(helperArgs, sref)],
      sref,
      CompatibleSourceRef(helperArgs[|helperArgs| - 1]));
  }

  /**
    buildDictionaryNode. Absent keys come only from Python 3.5 syntax, so
    for older versions every key is present.
  */
  method BuildDictionaryNode(cache: UnpackingHelperCache, pythonVersion: int,
                             keys: seq<Option<Syn>>, values: seq<Syn>, sref: SourceRef)
    returns (r: Expr)
    requires cache.Valid()
    requires |keys| == |values|
    requires HasAbsentKey(keys) ==> pythonVersion >= 350
    modifies cache
    ensures cache.Valid()
    ensures old(cache.helper) != null ==> cache.helper == old(cache.helper)
    ensures UsesUnpacking(pythonVersion, keys) ==>
      cache.helper != null && r == UnpackingCall(cache.helper, keys, values, sref)
    ensures !UsesUnpacking(pythonVersion, keys) ==>
      cache.helper == old(cache.helper) &&
      r == DictCreationOrConstant(BuildNodeList(PresentKeys(keys)), BuildNodeList(values), sref)
  {
    if pythonVersion >= 350 {
      var i := 0;
      while i < |keys|
        invariant 0 <= i <= |keys|
        invariant forall j :: 0 <= j < i ==> keys[j].Some?
      {
        if keys[i].None? {
          r := BuildDictionaryUnpacking(cache, keys, values, sref);
          return;
        }
        i := i + 1;
      }
    }
    r := DictCreationOrConstant(BuildNodeList(PresentKeys(keys)), BuildNodeList(values), sref);
  }

  /** Whether node `e` refers to the function body `b` anywhere inside it. */
  predicate RefersTo(e: Expr, b: FunctionBody)
    decreases e
  {
    match e
    case FunctionRef(body, _) => body == b
    case Built(_) => false
    case DictCreationOrConstant(ks, vs, _) =>
      (exists i :: 0 <= i < |ks| && RefersTo(ks[i], b)) || (exists i :: 0 <= i < |vs| && RefersTo(vs[i], b))
    case MakeDict(pairs, _) =>
      exists i :: 0 <= i < |pairs| && (RefersTo(pairs[i].key, b) || RefersTo(pairs[i].value, b))
    case MakeTuple(es, _) => exists i :: 0 <= i < |es| && RefersTo(es[i], b)
    case FunctionCreation(r, ds, _) => RefersTo(r, b) || exists i :: 0 <= i < |ds| && RefersTo(ds[i], b)
    case FunctionCall(c, vs, _, _) => RefersTo(c, b) || exists i :: 0 <= i < |vs| && RefersTo(vs[i], b)
    case BuiltinIter1(v) => RefersTo(v, b)
    case BuiltinNext1(v) => RefersTo(v, b)
    case DictOperationUpdate(d, v) => RefersTo(d, b) || RefersTo(v, b)
    case BuiltinType1(v) => RefersTo(v, b)
    case AttributeLookup(v, _) => RefersTo(v, b)
    case OperationBinaryMod(l, r) => RefersTo(l, b) || RefersTo(r, b)
    case BuiltinMakeException(_, xs) => exists i :: 0 <= i < |xs| && RefersTo(xs[i], b)
    case _ => false
  }

  /**
    Only the unpacking path involves the helper: its call refers to the
    helper body, while the dict-creation node of the other path refers to no
    function body at all.
  */
  lemma DictionaryNodeHelperUse(helper: FunctionBody, pythonVersion: int, keys: seq<Option<Syn>>, values: seq<Syn>, sref: SourceRef)
    requires |keys| == |values|
    requires HasAbsentKey(keys) ==> pythonVersion >= 350
    ensures UsesUnpacking(pythonVersion, keys) ==> RefersTo(UnpackingCall(helper, keys, values, sref), helper)
    ensures !UsesUnpacking(pythonVersion, keys) ==>
      forall b: FunctionBody :: !RefersTo(DictCreationOrConstant(BuildNodeList(PresentKeys(keys)), BuildNodeList(values), sref), b)
  {
    if UsesUnpacking(pythonVersion, keys) {
      var call := UnpackingCall(helper, keys, values, sref);
      assert RefersTo(call.callee.functionRef, helper);
    } else {
      forall b: FunctionBody ensures !RefersTo(DictCreationOrConstant(BuildNodeList(PresentKeys(keys)), BuildNodeList(values), sref), b) {
        var ks, vs := BuildNodeList(PresentKeys(keys)), BuildNodeList(values);
        assert forall i :: 0 <= i < |ks| ==> ks[i].Built?;
        assert forall i :: 0 <= i < |vs| ==> vs[i].Built?;
      }
    }
  }
}
