/**
  A big-step semantics for the statement tree of an internal helper function,
  over the abstract values of DictSemantics. It covers exactly the node kinds
  the dict-unpacking helper is built from; any other node, an unbound
  variable or an operand of the wrong kind leaves the program Stuck.
*/
module HelperInterp {
  import opened Wrappers
  import opened DictSemantics
  import opened DictTree

  datatype Value =
    | VNone
    | VDict(entries: map<Key, Obj>)
    | VOperand(operand: Operand)
    | VTuple(elements: seq<Value>)
    | VIter(rest: seq<Value>)
    | VStr(s: string)
    | VType(name: string)
    | VException(exc: Exc)

  /** Local and temporary variables of the running helper. */
  type Env = map<string, Value>

  datatype EvalResult = Value(value: Value, env: Env) | Thrown(exc: Exc, env: Env) | EvalStuck

  datatype ListResult = Values(values: seq<Value>, env: Env) | ListThrown(exc: Exc, env: Env) | ListStuck

  /** How a statement finished. */
  datatype Flow = Normal | LoopBreak | Returning(value: Value) | Raising(exc: Exc) | Stuck

  datatype State = State(flow: Flow, env: Env)

  function StopIterationExc(): Exc
  {
    Exc("StopIteration", "", StandardBases)
  }

  /** `type(v).__name__` */
  function TypeName(v: Value): string
  {
    match v
    case VNone => "NoneType"
    case VDict(_) => "dict"
    case VOperand(o) => o.typeName
    case VTuple(_) => "tuple"
    case VIter(_) => "tuple_iterator"
    case VStr(_) => "str"
    case VType(_) => "type"
    case VException(e) => e.className
  }

  /** `d.update(v)` on a dict with entries `acc`. */
  function UpdateWith(acc: map<Key, Obj>, v: Value): Result<map<Key, Obj>, Exc>
  {
    match v
    case VOperand(o) => Update(acc, o)
    case VDict(m) => Ok(acc + m)
    case _ => Err(NoKeysError(TypeName(v)))
  }

  /**
    `fmt % (arg,)` for a format with one `%s` conversion and no other `%`:
    the argument replaces the `%s`. Other formats are outside this model.
  */
  function FormatOne(fmt: string, arg: string): Option<string>
    decreases |fmt|
  {
    if |fmt| < 2 then None
    else if fmt[0] == '%' then (if fmt[1] == 's' && '%' !in fmt[2..] then Some(arg + fmt[2..]) else None)
    else
      match FormatOne(fmt[1..], arg)
      case Some(r) => Some([fmt[0]] + r)
      case None => None
  }

  function Eval(e: Expr, env: Env): EvalResult
    decreases e
  {
    match e
    case TempVariableRef(x) => if x in env then Value(env[x], env) else EvalStuck
    case VariableRef(x) => if x in env then Value(env[x], env) else EvalStuck
    case ConstantEmptyDict => Value(VDict(map[]), env)
    case ConstantString(c) => Value(VStr(c), env)
    case BuiltinIter1(x) =>
      (match Eval(x, env)
       case Value(VTuple(es), env1) => Value(VIter(es), env1)
       case Value(_, _) => EvalStuck
       case Thrown(ex, env1) => Thrown(ex, env1)
       case EvalStuck => EvalStuck)
    case BuiltinNext1(TempVariableRef(x)) =>
      // the iterator lives in the temporary and advances in place
      if x in env && env[x].VIter? then
        if env[x].rest == [] then Thrown(StopIterationExc(), env)
        else Value(env[x].rest[0], env[x := VIter(env[x].rest[1..])])
      else EvalStuck
    case DictOperationUpdate(TempVariableRef(d), x) =>
      // the dict lives in the temporary and is updated in place
      (match Eval(x, env)
       case Value(v, env1) =>
         if d in env1 && env1[d].VDict? then
           match UpdateWith(env1[d].entries, v)
           case Ok(m) => Value(VNone, env1[d := VDict(m)])
           case Err(ex) => Thrown(ex, env1)
         else EvalStuck
       case Thrown(ex, env1) => Thrown(ex, env1)
       case EvalStuck => EvalStuck)
    case BuiltinType1(x) =>
      (match Eval(x, env)
       case Value(v, env1) => Value(VType(TypeName(v)), env1)
       case Thrown(ex, env1) => Thrown(ex, env1)
       case EvalStuck => EvalStuck)
    case AttributeLookup(x, attr) =>
      (match Eval(x, env)
       case Value(VType(n), env1) => if attr == "__name__" then Value(VStr(n), env1) else EvalStuck
       case Value(_, _) => EvalStuck
       case Thrown(ex, env1) => Thrown(ex, env1)
       case EvalStuck => EvalStuck)
    case OperationBinaryMod(l, r) =>
      (match Eval(l, env)
       case Value(VStr(fmt), env1) =>
         (match Eval(r, env1)
          case Value(VTuple(args), env2) =>
            if |args| == 1 && args[0].VStr? then
              match FormatOne(fmt, args[0].s)
              case Some(text) => Value(VStr(text), env2)
              case None => EvalStuck
            else EvalStuck
          case Value(_, _) => EvalStuck
          case Thrown(ex, env2) => Thrown(ex, env2)
          case EvalStuck => EvalStuck)
       case Value(_, _) => EvalStuck
       case Thrown(ex, env1) => Thrown(ex, env1)
       case EvalStuck => EvalStuck)
    case MakeTuple(es, _) =>
      (match EvalList(es, env)
       case Values(vs, env1) => Value(VTuple(vs), env1)
       case ListThrown(ex, env1) => Thrown(ex, env1)
       case ListStuck => EvalStuck)
    // the helper only makes TypeError, a built-in class deriving directly from Exception
    case BuiltinMakeException(name, args) =>
      (match EvalList(args, env)
       case Values(vs, env1) =>
         if |vs| == 1 && vs[0].VStr? then Value(VException(Exc(name, vs[0].s, StandardBases)), env1) else EvalStuck
       case ListThrown(ex, env1) => Thrown(ex, env1)
       case ListStuck => EvalStuck)
    case _ => EvalStuck
  }

  /** Left-to-right evaluation of a list of expressions. */
  function EvalList(es: seq<Expr>, env: Env): ListResult
    decreases es
  {
    if es == [] then Values([], env)
    else
      match Eval(es[0], env)
      case Value(v, env1) =>
        (match EvalList(es[1..], env1)
         case Values(vs, env2) => Values([v] + vs, env2)
         case ListThrown(ex, env2) => ListThrown(ex, env2)
         case ListStuck => ListStuck)
      case Thrown(ex, env1) => ListThrown(ex, env1)
      case EvalStuck => ListStuck
  }

  /** Runs one statement; `fuel` bounds the number of loop iterations. */
  function Exec(s: Stmt, env: Env, fuel: nat): State
    decreases fuel, s, 0
  {
    match s
    case AssignTemp(x, e) =>
      (match Eval(e, env)
       case Value(v, env1) => State(Normal, env1[x := v])
       case Thrown(ex, env1) => State(Raising(ex), env1)
       case EvalStuck => State(Stuck, env))
    case ExpressionOnly(e) =>
      (match Eval(e, env)
       case Value(_, env1) => State(Normal, env1)
       case Thrown(ex, env1) => State(Raising(ex), env1)
       case EvalStuck => State(Stuck, env))
    case TryExceptSingle(tried, name, handler) =>
      var st := Exec(tried, env, fuel);
      if st.flow.Raising? && IsInstance(st.flow.exc, name) then Exec(handler, st.env, fuel) else st
    case BreakLoop => State(LoopBreak, env)
    case Loop(body) => ExecLoop(body, env, fuel)
    case Return(e) =>
      (match Eval(e, env)
       case Value(v, env1) => State(Returning(v), env1)
       case Thrown(ex, env1) => State(Raising(ex), env1)
       case EvalStuck => State(Stuck, env))
    case RaiseException(e) =>
      (match Eval(e, env)
       case Value(VException(ex), env1) => State(Raising(ex), env1)
       case Value(_, _) => State(Stuck, env)
       case Thrown(ex, env1) => State(Raising(ex), env1)
       case EvalStuck => State(Stuck, env))
    case ReleaseVariable(x) => State(Normal, env - {x})
    case TryFinally(tried, final) =>
      // the final block runs on every way out of the tried block
      var st := ExecBlock(tried, env, fuel);
      var fs := ExecBlock(final, st.env, fuel);
      if fs.flow.Normal? then State(st.flow, fs.env) else fs
  }

  /** Runs a statement sequence until one statement does not finish normally. */
  function ExecBlock(ss: seq<Stmt>, env: Env, fuel: nat): State
    decreases fuel, ss, 0
  {
    if ss == [] then State(Normal, env)
    else
      var st := Exec(ss[0], env, fuel);
      if st.flow.Normal? then ExecBlock(ss[1..], st.env, fuel) else st
  }

  /** An endless loop left by break, return or an exception; each iteration costs one unit of fuel. */
  function ExecLoop(body: seq<Stmt>, env: Env, fuel: nat): State
    decreases fuel, body, 1
  {
    if fuel == 0 then State(Stuck, env)
    else
      var st := ExecBlock(body, env, fuel - 1);
      match st.flow
      case Normal => ExecLoop(body, st.env, fuel - 1)
      case LoopBreak => State(Normal, st.env)
      case _ => st
  }
}
