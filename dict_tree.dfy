/**
  The node tree the reformulation builds: one tagged variant for the
  expression kinds and one for the statement kinds it uses. Node classes of
  the compiler become constructors; buildNode on a user expression becomes
  the opaque `Built` node.
*/
module DictTree {
  import opened Wrappers

  /** Where a node comes from: the internal module, or a place in user code. */
  datatype SourceRef = Internal | At(file: string, line: nat)

  /** A user expression from the parse tree; its lowering is not part of this model. */
  datatype Syn = Syn(id: nat, pos: SourceRef)

  datatype Expr =
    // nodes built at a dict display
    | Built(syn: Syn)
    | DictCreationOrConstant(keys: seq<Expr>, values: seq<Expr>, sref: SourceRef)
    | MakeDict(pairs: seq<KeyValuePair>, sref: SourceRef)
    | MakeTuple(elements: seq<Expr>, sref: SourceRef)
    | FunctionRef(body: FunctionBody, sref: SourceRef)
    | FunctionCreation(functionRef: Expr, defaults: seq<Expr>, sref: SourceRef)
    | FunctionCall(callee: Expr, values: seq<Expr>, sref: SourceRef, compatibleRef: SourceRef)
    // nodes of the helper body
    | TempVariableRef(variable: string)
    | VariableRef(name: string)
    | ConstantEmptyDict
    | ConstantString(constant: string)
    | BuiltinIter1(value: Expr)
    | BuiltinNext1(value: Expr)
    | DictOperationUpdate(dictArg: Expr, value: Expr)
    | BuiltinType1(value: Expr)
    | AttributeLookup(source: Expr, attributeName: string)
    | OperationBinaryMod(left: Expr, right: Expr)
    | BuiltinMakeException(exceptionName: string, args: seq<Expr>)

  datatype KeyValuePair = KeyValuePair(key: Expr, value: Expr, sref: SourceRef)

  datatype Stmt =
    | AssignTemp(variable: string, source: Expr)
    | ExpressionOnly(expression: Expr)
    /** A try with one handler for the named exception class; anything else propagates. */
    | TryExceptSingle(tried: Stmt, exceptionName: string, handler: Stmt)
    | BreakLoop
    | Loop(body: seq<Stmt>)
    | Return(expression: Expr)
    | RaiseException(exception: Expr)
    | ReleaseVariable(variable: string)
    | TryFinally(triedBlock: seq<Stmt>, final: seq<Stmt>)

  /** The compatible source reference of a node, the one diagnostics point at. */
  function CompatibleSourceRef(e: Expr): SourceRef
  {
    match e
    case Built(syn) => syn.pos
    case FunctionCall(_, _, _, compat) => compat
    case DictCreationOrConstant(_, _, sref) => sref
    case MakeDict(_, sref) => sref
    case MakeTuple(_, sref) => sref
    case FunctionRef(_, sref) => sref
    case FunctionCreation(_, _, sref) => sref
    case _ => Internal
  }

  datatype ParameterSpec = ParameterSpec(
    name: string,
    normalArgs: seq<string>,
    listStarArg: Option<string>,
    dictStarArg: Option<string>,
    defaultCount: nat,
    kwOnlyArgs: seq<string>)

  /** A function body node: its temporaries are allocated and its body is set after creation. */
  class FunctionBody {
    const name: string
    const parameters: ParameterSpec
    var tempVariables: seq<string>
    var body: seq<Stmt>

    constructor (name: string, parameters: ParameterSpec)
      ensures this.name == name && this.parameters == parameters
      ensures tempVariables == [] && body == []
    {
      this.name := name;
      this.parameters := parameters;
      tempVariables := [];
      body := [];
    }

    /** allocateTempVariable: registers a temporary of this body and returns it. */
    method AllocateTempVariable(tempName: string) returns (v: string)
      modifies this`tempVariables
      ensures v == tempName
      ensures tempVariables == old(tempVariables) + [tempName]
    {
      tempVariables := tempVariables + [tempName];
      v := tempName;
    }

    method SetBody(statements: seq<Stmt>)
      modifies this`body
      ensures body == statements
    {
      body := statements;
    }
  }
}
