/**
  What the synthesized `_unpack_dict` body does when run: executing its tree
  on `args` gives exactly the fold DictSemantics.UnpackDict, and on every way
  out (return or raise) the three temporaries are released and nothing else
  in the frame is changed.
*/
module UnpackHelperMeaning {
  import opened Wrappers
  import opened DictSemantics
  import opened DictTree
  import opened HelperInterp
  import opened DictCreation

  function OperandValues(args: seq<Operand>): (r: seq<Value>)
    ensures |r| == |args| && forall i :: 0 <= i < |args| ==> r[i] == VOperand(args[i])
  {
    seq(|args|, i requires 0 <= i < |args| => VOperand(args[i]))
  }

  /** How a call of the helper ends, for a given outcome of the fold. */
  function FlowOf(r: Result<map<Key, Obj>, Exc>): Flow
  {
    match r
    case Ok(m) => Returning(VDict(m))
    case Err(e) => Raising(e)
  }

  /** Three distinct temporaries, none of them the parameter `args`. */
  predicate FreshTemps(result: string, iter: string, item: string)
  {
    result != iter && result != item && iter != item && "args" !in {result, iter, item}
  }

  const NotAMappingSuffix := "' object is not a mapping"

  lemma FormatAfterQuote(t: string, tail: string)
    requires tail == "%s" + NotAMappingSuffix
    ensures FormatOne(tail, t) == Some(t + NotAMappingSuffix)
  {
    assert tail[2..] == NotAMappingSuffix;
  }

  lemma FormatQuoted(t: string, fmt: string)
    requires fmt == "'" + "%s" + NotAMappingSuffix
    ensures FormatOne(fmt, t) == Some("'" + t + NotAMappingSuffix)
  {
    FormatAfterQuote(t, fmt[1..]);
    assert [fmt[0]] + (t + NotAMappingSuffix) == "'" + t + NotAMappingSuffix;
  }

  /** `"'%s' object is not a mapping" % (t,)` is the helper's message for type name `t`. */
  lemma FormatNotAMapping(t: string)
    ensures FormatOne(NotAMappingFormat, t) == Some(NotAMappingMessage(t))
  {
    FormatQuoted(t, NotAMappingFormat);
  }

  lemma NextItemStep(iter: string, item: string, env: Env, fuel: nat, rest: seq<Value>)
    requires iter in env && env[iter] == VIter(rest)
    ensures Exec(NextItem(iter, item), env, fuel) ==
      if rest == [] then State(LoopBreak, env)
      else State(Normal, env[iter := VIter(rest[1..])][item := rest[0]])
  {
  }

  lemma EvalTypeName(item: string, env: Env, o: Operand)
    requires item in env && env[item] == VOperand(o)
    ensures Eval(AttributeLookup(BuiltinType1(TempVariableRef(item)), "__name__"), env) == Value(VStr(o.typeName), env)
  {
    assert Eval(BuiltinType1(TempVariableRef(item)), env) == Value(VType(o.typeName), env);
  }

  lemma EvalFormatted(fmt: string, arg: Expr, env: Env, a: string, text: string)
    requires Eval(arg, env) == Value(VStr(a), env)
    requires FormatOne(fmt, a) == Some(text)
    ensures Eval(OperationBinaryMod(ConstantString(fmt), MakeTuple([arg], Internal)), env) == Value(VStr(text), env)
  {
    EvalSingleton(arg, env, VStr(a));
  }

  lemma EvalSingleton(arg: Expr, env: Env, v: Value)
    requires Eval(arg, env) == Value(v, env)
    ensures Eval(MakeTuple([arg], Internal), env) == Value(VTuple([v]), env)
  {
    assert EvalList([arg], env) == Values([v], env);
  }

  lemma ExecRaise(name: string, msg: Expr, env: Env, fuel: nat, text: string)
    requires Eval(msg, env) == Value(VStr(text), env)
    ensures Exec(RaiseException(BuiltinMakeException(name, [msg])), env, fuel) == State(Raising(Exc(name, text, StandardBases)), env)
  {
    assert EvalList([msg], env) == Values([VStr(text)], env);
  }

  lemma RaiseStep(item: string, env: Env, fuel: nat, o: Operand)
    requires item in env && env[item] == VOperand(o)
    ensures Exec(RaiseNotAMapping(item), env, fuel) == State(Raising(NotAMapping(o.typeName)), env)
  {
    var name := AttributeLookup(BuiltinType1(TempVariableRef(item)), "__name__");
    EvalTypeName(item, env, o);
    FormatNotAMapping(o.typeName);
    EvalFormatted(NotAMappingFormat, name, env, o.typeName, NotAMappingMessage(o.typeName));
    ExecRaise("TypeError", OperationBinaryMod(ConstantString(NotAMappingFormat), MakeTuple([name], Internal)),
              env, fuel, NotAMappingMessage(o.typeName));
  }

  lemma MergeStep(result: string, item: string, env: Env, fuel: nat, acc: map<Key, Obj>, o: Operand)
    requires result in env && env[result] == VDict(acc)
    requires item in env && env[item] == VOperand(o)
    ensures Exec(MergeItem(result, item), env, fuel) ==
      match Update(acc, o)
      case Ok(m) => State(Normal, env[result := VDict(m)])
      case Err(e) => State(Raising(if IsInstance(e, "AttributeError") then NotAMapping(o.typeName) else e), env)
  {
    var upd := DictOperationUpdate(TempVariableRef(result), TempVariableRef(item));
    assert Eval(TempVariableRef(item), env) == Value(VOperand(o), env);
    assert UpdateWith(acc, VOperand(o)) == Update(acc, o);
    match Update(acc, o)
    case Ok(m) =>
      assert Eval(upd, env) == Value(VNone, env[result := VDict(m)]);
    case Err(e) =>
      assert Eval(upd, env) == Thrown(e, env);
      assert Exec(ExpressionOnly(upd), env, fuel) == State(Raising(e), env);
      if IsInstance(e, "AttributeError") {
        RaiseStep(item, env, fuel, o);
      }
  }

  /** One iteration of the loop body: fetch the next operand, merge it. */
  lemma LoopBodyStep(result: string, iter: string, item: string,
                     acc: map<Key, Obj>, rest: seq<Operand>, env: Env, fuel: nat)
    requires FreshTemps(result, iter, item)
    requires result in env && env[result] == VDict(acc)
    requires iter in env && env[iter] == VIter(OperandValues(rest))
    ensures rest == [] ==> ExecBlock(UnpackLoopBody(result, iter, item), env, fuel) == State(LoopBreak, env)
    ensures rest != [] ==>
      var env1 := env[iter := VIter(OperandValues(rest[1..]))][item := VOperand(rest[0])];
      ExecBlock(UnpackLoopBody(result, iter, item), env, fuel) ==
        match Update(acc, rest[0])
        case Ok(m) => State(Normal, env1[result := VDict(m)])
        case Err(e) => State(Raising(if IsInstance(e, "AttributeError") then NotAMapping(rest[0].typeName) else e), env1)
  {
    var body := UnpackLoopBody(result, iter, item);
    var vals := OperandValues(rest);
    NextItemStep(iter, item, env, fuel, vals);
    if rest != [] {
      assert vals[1..] == OperandValues(rest[1..]);
      var env1 := env[iter := VIter(vals[1..])][item := vals[0]];
      MergeStep(result, item, env1, fuel, acc, rest[0]);
      assert Exec(body[0], env, fuel) == State(Normal, env1);
      assert ExecBlock(body, env, fuel) == ExecBlock(body[1..], env1, fuel);
      assert body[1..][0] == MergeItem(result, item) && body[1..][1..] == [];
      match Update(acc, rest[0])
      case Ok(m) =>
        assert ExecBlock(body[1..], env1, fuel) == ExecBlock([], env1[result := VDict(m)], fuel);
      case Err(e) =>
        assert ExecBlock(body[1..], env1, fuel) == Exec(MergeItem(result, item), env1, fuel);
    }
  }

  /**
    One run of the loop from a partial result `acc` with the operands `rest`
    still to come: it leaves normally with the fold's dict in `result`, or
    raises the fold's exception; the other variables of the frame are as before.
  */
  lemma {:induction false} LoopMeaning(result: string, iter: string, item: string,
                                       acc: map<Key, Obj>, rest: seq<Operand>, env: Env, fuel: nat)
    requires FreshTemps(result, iter, item)
    requires result in env && env[result] == VDict(acc)
    requires iter in env && env[iter] == VIter(OperandValues(rest))
    requires fuel > |rest|
    ensures var st := ExecLoop(UnpackLoopBody(result, iter, item), env, fuel);
      && (UnpackFrom(acc, rest).Ok? ==>
            st.flow == Normal && result in st.env && st.env[result] == VDict(UnpackFrom(acc, rest).value))
      && (UnpackFrom(acc, rest).Err? ==> st.flow == Raising(UnpackFrom(acc, rest).error))
      && st.env - {result, iter, item} == env - {result, iter, item}
    decreases |rest|
  {
    LoopBodyStep(result, iter, item, acc, rest, env, fuel - 1);
    if rest != [] {
      var env1 := env[iter := VIter(OperandValues(rest[1..]))][item := VOperand(rest[0])];
      assert env1 - {result, iter, item} == env - {result, iter, item};
      match Update(acc, rest[0])
      case Ok(m) =>
        var env2 := env1[result := VDict(m)];
        LoopMeaning(result, iter, item, m, rest[1..], env2, fuel - 1);
        assert env2 - {result, iter, item} == env - {result, iter, item};
      case Err(e) =>
    }
  }

  /** The first two statements of the tried block: `iter = iter(args)`, `result = {}`. */
  lemma SetupStep(result: string, iter: string, item: string, vals: seq<Value>, env: Env, fuel: nat)
    requires "args" in env && env["args"] == VTuple(vals)
    ensures ExecBlock(UnpackTried(result, iter, item), env, fuel) ==
      ExecBlock([Loop(UnpackLoopBody(result, iter, item)), Return(TempVariableRef(result))],
                env[iter := VIter(vals)][result := VDict(map[])], fuel)
  {
    var tried := UnpackTried(result, iter, item);
    var env1 := env[iter := VIter(vals)][result := VDict(map[])];
    assert Exec(tried[0], env, fuel) == State(Normal, env[iter := VIter(vals)]);
    assert Exec(tried[1], env[iter := VIter(vals)], fuel) == State(Normal, env1);
    assert tried[1..][0] == tried[1] && tried[1..][1..] == tried[2..];
    assert tried[2..] == [Loop(UnpackLoopBody(result, iter, item)), Return(TempVariableRef(result))];
  }

  /** The loop followed by `return result`. */
  lemma LoopThenReturn(result: string, iter: string, item: string, args: seq<Operand>, env1: Env, fuel: nat)
    requires FreshTemps(result, iter, item)
    requires result in env1 && env1[result] == VDict(map[])
    requires iter in env1 && env1[iter] == VIter(OperandValues(args))
    requires fuel > |args|
    ensures var st := ExecBlock([Loop(UnpackLoopBody(result, iter, item)), Return(TempVariableRef(result))], env1, fuel);
      st.flow == FlowOf(UnpackDict(args)) && st.env - {result, iter, item} == env1 - {result, iter, item}
  {
    var rest := [Loop(UnpackLoopBody(result, iter, item)), Return(TempVariableRef(result))];
    LoopMeaning(result, iter, item, map[], args, env1, fuel);
    var st := ExecLoop(UnpackLoopBody(result, iter, item), env1, fuel);
    assert Exec(rest[0], env1, fuel) == st;
    assert rest[1..] == [Return(TempVariableRef(result))];
    if UnpackDict(args).Ok? {
      assert ExecBlock(rest[1..], st.env, fuel) == State(Returning(st.env[result]), st.env);
    }
  }

  /** The tried block: create the iterator and the empty dict, run the loop, return the dict. */
  lemma TriedMeaning(result: string, iter: string, item: string, args: seq<Operand>, env: Env, fuel: nat)
    requires FreshTemps(result, iter, item)
    requires "args" in env && env["args"] == VTuple(OperandValues(args))
    requires result !in env && iter !in env && item !in env
    requires fuel > |args|
    ensures var st := ExecBlock(UnpackTried(result, iter, item), env, fuel);
      st.flow == FlowOf(UnpackDict(args)) && st.env - {result, iter, item} == env
  {
    var vals := OperandValues(args);
    var env1 := env[iter := VIter(vals)][result := VDict(map[])];
    SetupStep(result, iter, item, vals, env, fuel);
    LoopThenReturn(result, iter, item, args, env1, fuel);
    assert env1 - {result, iter, item} == env;
  }

  lemma FinalMeaning(result: string, iter: string, item: string, env: Env, fuel: nat)
    ensures ExecBlock(UnpackFinal(result, iter, item), env, fuel) == State(Normal, env - {result, iter, item})
  {
    var final := UnpackFinal(result, iter, item);
    assert ExecBlock(final, env, fuel) == ExecBlock(final[1..], env - {result}, fuel);
    assert ExecBlock(final[1..], env - {result}, fuel) == ExecBlock(final[2..], env - {result} - {iter}, fuel);
    assert ExecBlock(final[2..], env - {result} - {iter}, fuel) == State(Normal, env - {result} - {iter} - {item});
    assert env - {result} - {iter} - {item} == env - {result, iter, item};
  }

  /**
    The helper called with `args`: it returns the fold's dict or raises the
    fold's exception, and the frame it leaves is the one it was called with,
    all three temporaries released.
  */
  lemma HelperBodyMeaning(result: string, iter: string, item: string, args: seq<Operand>, env: Env, fuel: nat)
    requires FreshTemps(result, iter, item)
    requires "args" in env && env["args"] == VTuple(OperandValues(args))
    requires result !in env && iter !in env && item !in env
    requires fuel > |args|
    ensures ExecBlock(UnpackHelperStatements(result, iter, item), env, fuel) == State(FlowOf(UnpackDict(args)), env)
  {
    TriedMeaning(result, iter, item, args, env, fuel);
    var st := ExecBlock(UnpackTried(result, iter, item), env, fuel);
    FinalMeaning(result, iter, item, st.env, fuel);
    var body := UnpackHelperStatements(result, iter, item);
    assert Exec(body[0], env, fuel) == State(FlowOf(UnpackDict(args)), env);
  }

  /** The helper exactly as getDictUnpackingHelper builds it. */
  lemma DictUnpackingHelperMeaning(b: FunctionBody, args: seq<Operand>, fuel: nat)
    requires IsDictUnpackingHelper(b)
    requires fuel > |args|
    ensures ExecBlock(b.body, map["args" := VTuple(OperandValues(args))], fuel)
         == State(FlowOf(UnpackDict(args)), map["args" := VTuple(OperandValues(args))])
  {
    HelperBodyMeaning(ResultTemp, IterTemp, ItemTemp, args, map["args" := VTuple(OperandValues(args))], fuel);
  }

  // ---------------------------------------------------------------------------
  // The call site and the helper together

  /**
    How the user expressions of a display evaluate: as keys, as values, as
    `**` operands. Evaluating one may raise.
  */
  datatype Valuation = Valuation(keyOf: Syn -> Result<Key, Exc>, objOf: Syn -> Result<Obj, Exc>,
                                 operandOf: Syn -> Result<Operand, Exc>)

  /** One entry of the display evaluated: the `**` operand, or the key and then the value. */
  function EvalEntry(key: Option<Syn>, value: Syn, ev: Valuation): Result<Entry, Exc>
  {
    match key
    case None =>
      (match ev.operandOf(value)
       case Ok(o) => Ok(Unpack(o))
       case Err(e) => Err(e))
    case Some(k) =>
      (match ev.keyOf(k)
       case Err(e) => Err(e)
       case Ok(kv) =>
         match ev.objOf(value)
         case Ok(v) => Ok(Pair(kv, v))
         case Err(e) => Err(e))
  }

  /** The entries of a display evaluated left to right; the first entry that raises ends the evaluation. */
  function EvalEntries(keys: seq<Option<Syn>>, values: seq<Syn>, ev: Valuation): (r: Result<seq<Entry>, Exc>)
    requires |keys| == |values|
    ensures r.Ok? ==> |r.value| == |keys|
    decreases |keys|
  {
    if keys == [] then Ok([])
    else
      match EvalEntry(keys[0], values[0], ev)
      case Err(e) => Err(e)
      case Ok(x) =>
        match EvalEntries(keys[1..], values[1..], ev)
        case Err(e) => Err(e)
        case Ok(xs) => Ok([x] + xs)
  }

  /** When every entry evaluates, the entries are those values, in order. */
  lemma {:induction false} EvalEntriesAllOk(keys: seq<Option<Syn>>, values: seq<Syn>, ev: Valuation)
    requires |keys| == |values|
    requires forall i :: 0 <= i < |keys| ==> EvalEntry(keys[i], values[i], ev).Ok?
    ensures EvalEntries(keys, values, ev).Ok?
    ensures forall i :: 0 <= i < |keys| ==> EvalEntries(keys, values, ev).value[i] == EvalEntry(keys[i], values[i], ev).value
    decreases |keys|
  {
    if keys != [] {
      forall i | 0 <= i < |keys[1..]| ensures EvalEntry(keys[1..][i], values[1..][i], ev).Ok? {
        assert keys[1..][i] == keys[i + 1] && values[1..][i] == values[i + 1];
      }
      EvalEntriesAllOk(keys[1..], values[1..], ev);
      forall i | 1 <= i < |keys| ensures EvalEntries(keys, values, ev).value[i] == EvalEntry(keys[i], values[i], ev).value {
        assert keys[1..][i - 1] == keys[i] && values[1..][i - 1] == values[i];
      }
    }
  }

  /** The first entry that raises decides: its exception is the outcome, later entries are not evaluated. */
  lemma {:induction false} EvalEntriesFirstFailure(keys: seq<Option<Syn>>, values: seq<Syn>, ev: Valuation, i: nat)
    requires |keys| == |values| && i < |keys|
    requires EvalEntry(keys[i], values[i], ev).Err?
    requires forall j :: 0 <= j < i ==> EvalEntry(keys[j], values[j], ev).Ok?
    ensures EvalEntries(keys, values, ev) == Err(EvalEntry(keys[i], values[i], ev).error)
    decreases i
  {
    if i > 0 {
      forall j | 0 <= j < i - 1 ensures EvalEntry(keys[1..][j], values[1..][j], ev).Ok? {
        assert keys[1..][j] == keys[j + 1] && values[1..][j] == values[j + 1];
      }
      assert keys[1..][i - 1] == keys[i] && values[1..][i - 1] == values[i];
      EvalEntriesFirstFailure(keys[1..], values[1..], ev, i - 1);
    }
  }

  /**
    Python 3.5's meaning of the display: every entry is evaluated, left to
    right, before any merge; an entry that raises ends it there, otherwise
    the merge of DisplayMeaning decides.
  */
  function DisplayOutcome(keys: seq<Option<Syn>>, values: seq<Syn>, ev: Valuation): Result<map<Key, Obj>, Exc>
    requires |keys| == |values|
  {
    match EvalEntries(keys, values, ev)
    case Err(e) => Err(e)
    case Ok(entries) => DisplayMeaning(map[], entries)
  }

  /** The runtime value of one helper argument node of a kind HelperArg builds; None for any other node. */
  function ArgValue(a: Expr, ev: Valuation): Option<Result<Operand, Exc>>
  {
    match a
    case Built(s) => Some(ev.operandOf(s))
    case MakeDict(pairs, _) =>
      if |pairs| == 1 && pairs[0].key.Built? && pairs[0].value.Built? then
        Some(match ev.keyOf(pairs[0].key.syn)
             case Err(e) => Err(e)
             case Ok(k) =>
               match ev.objOf(pairs[0].value.syn)
               case Ok(v) => Ok(Mapping("dict", [(k, v)]))
               case Err(e) => Err(e))
      else None
    case _ => None
  }

  /** Building the argument tuple: its elements evaluated left to right; the first that raises ends it. */
  function ArgValues(args: seq<Expr>, ev: Valuation): Option<Result<seq<Operand>, Exc>>
    decreases |args|
  {
    if args == [] then Some(Ok([]))
    else
      match ArgValue(args[0], ev)
      case None => None
      case Some(Err(e)) => Some(Err(e))
      case Some(Ok(o)) =>
        match ArgValues(args[1..], ev)
        case None => None
        case Some(Err(e)) => Some(Err(e))
        case Some(Ok(os)) => Some(Ok([o] + os))
  }

  /**
    The helper arguments evaluate to the helper operands of the display's
    entries, or raise the exception of the display's first raising entry.
  */
  lemma {:induction false} ArgValuesOfHelperArgs(keys: seq<Option<Syn>>, values: seq<Syn>, sref: SourceRef,
                                                 args: seq<Expr>, ev: Valuation)
    requires |keys| == |values| == |args|
    requires forall i :: 0 <= i < |args| ==> args[i] == HelperArg(keys[i], values[i], sref)
    ensures ArgValues(args, ev) ==
      Some(match EvalEntries(keys, values, ev)
           case Ok(entries) => Ok(HelperOperands(entries))
           case Err(e) => Err(e))
    decreases |args|
  {
    if args != [] {
      ArgValuesOfHelperArgs(keys[1..], values[1..], sref, args[1..], ev);
      match EvalEntry(keys[0], values[0], ev)
      case Err(e) =>
      case Ok(x) =>
        assert ArgValue(args[0], ev) == Some(Ok(HelperOperand(x)));
        match EvalEntries(keys[1..], values[1..], ev)
        case Err(e) =>
        case Ok(xs) =>
          assert HelperOperands([x] + xs) == [HelperOperand(x)] + HelperOperands(xs);
    }
  }

  /**
    The reformulation end to end: the call buildDictionaryUnpacking builds
    ends exactly as the display does. When building its argument tuple
    raises, that is the display's exception; otherwise the helper run on the
    tuple returns the display's dict or raises its exception, and leaves its
    frame as it found it.
  */
  lemma UnpackingCallMeaning(helper: FunctionBody, keys: seq<Option<Syn>>, values: seq<Syn>, sref: SourceRef,
                             ev: Valuation, fuel: nat)
    requires IsDictUnpackingHelper(helper)
    requires |keys| == |values| > 0
    requires fuel > |keys|
    ensures var call := UnpackingCall(helper, keys, values, sref);
      var evaluated := ArgValues(call.values[0].elements, ev);
      && evaluated.Some?
      && (evaluated.value.Err? ==> DisplayOutcome(keys, values, ev) == Err(evaluated.value.error))
      && (evaluated.value.Ok? ==>
            var frame := map["args" := VTuple(OperandValues(evaluated.value.value))];
            ExecBlock(helper.body, frame, fuel) == State(FlowOf(DisplayOutcome(keys, values, ev)), frame))
  {
    var call := UnpackingCall(helper, keys, values, sref);
    ArgValuesOfHelperArgs(keys, values, sref, call.values[0].elements, ev);
    match EvalEntries(keys, values, ev)
    case Err(e) =>
    case Ok(entries) =>
      DictUnpackingHelperMeaning(helper, HelperOperands(entries), fuel);
      ReformulationPreservesMeaning(map[], entries);
  }
}
