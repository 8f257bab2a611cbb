/**
  The code-generation context of one function, as the yield code generator
  uses it: the set of names pending cleanup, a label counter, the
  declarations at the top of the function, the locals that may need
  preservation, and the append-only sink of emitted instructions. Emitted C
  statements are abstract instructions.
*/
module CodegenContext {
  import opened Wrappers

  /** What kind of suspendable function is being generated; names its context object. */
  datatype ContextKind = Generator | Coroutine | Asyncgen
  {
    function ObjectName(): string
    {
      match this
      case Generator => "generator"
      case Coroutine => "coroutine"
      case Asyncgen => "asyncgen"
    }
  }

  function DigitChar(d: nat): (c: char)
    requires d < 10
    ensures '0' <= c <= '9'
  {
    ('0' as int + d) as char
  }

  /** `"%d" % n` */
  function NatToDecimal(n: nat): (s: string)
    ensures |s| > 0
    ensures forall i :: 0 <= i < |s| ==> '0' <= s[i] <= '9'
    decreases n
  {
    if n < 10 then [DigitChar(n)] else NatToDecimal(n / 10) + [DigitChar(n % 10)]
  }

  /** The value of a decimal digit character. */
  function DigitValue(c: char): nat
  {
    if '0' <= c <= '9' then (c as int - '0' as int) as nat else 0
  }

  /** `int(s)` for a string of decimal digits. */
  function DecimalValue(s: string): nat
    decreases |s|
  {
    if s == [] then 0 else DecimalValue(s[..|s| - 1]) * 10 + DigitValue(s[|s| - 1])
  }

  /** The decimal text of `n` reads back as `n`. */
  lemma {:induction false} DecimalRoundTrip(n: nat)
    ensures DecimalValue(NatToDecimal(n)) == n
    decreases n
  {
    var s := NatToDecimal(n);
    if n < 10 {
      assert s[..|s| - 1] == [];
    } else {
      assert s[..|s| - 1] == NatToDecimal(n / 10);
      DecimalRoundTrip(n / 10);
    }
  }

  /** The text of label number `n` with the given prefix: `"%s_%d" % (prefix, n)`. */
  function LabelText(prefix: string, n: nat): string
  {
    prefix + "_" + NatToDecimal(n)
  }

  /** Different numbers give different labels. */
  lemma LabelTextInjective(prefix: string, m: nat, n: nat)
    ensures LabelText(prefix, m) == LabelText(prefix, n) ==> m == n
  {
    if LabelText(prefix, m) == LabelText(prefix, n) {
      var k := |prefix| + 1;
      assert LabelText(prefix, m)[k..] == NatToDecimal(m);
      assert LabelText(prefix, n)[k..] == NatToDecimal(n);
      DecimalRoundTrip(m);
      DecimalRoundTrip(n);
    }
  }

  /**
    `s.split(sep)[-1]`: the longest suffix of `s` without `sep`, which is
    all of `s` when `sep` does not occur in it.
  */
  function LastComponent(s: string, sep: char): (r: string)
    ensures |r| <= |s|
    decreases |s|
  {
    if s == [] then []
    else if s[|s| - 1] == sep then []
    else LastComponent(s[..|s| - 1], sep) + [s[|s| - 1]]
  }

  /**
    The last component is the suffix of `s` after its last separator: it
    holds no separator and is preceded by one unless it is all of `s`.
  */
  lemma {:induction false} LastComponentIsLastSegment(s: string, sep: char)
    ensures var r := LastComponent(s, sep);
      sep !in r && r == s[|s| - |r|..] && (|r| < |s| ==> s[|s| - |r| - 1] == sep)
    decreases |s|
  {
    if s != [] && s[|s| - 1] != sep {
      var init := s[..|s| - 1];
      LastComponentIsLastSegment(init, sep);
      var r0 := LastComponent(init, sep);
      assert init[|init| - |r0|..] + [s[|s| - 1]] == s[|s| - |r0| - 1..];
      if |r0| < |init| {
        assert s[|s| - |r0| - 2] == init[|init| - |r0| - 1];
      }
    }
  }

  lemma {:induction false} LastComponentAfterSeparator(p: string, sep: char, d: string)
    requires sep !in d
    ensures LastComponent(p + [sep] + d, sep) == d
    decreases |d|
  {
    var s := p + [sep] + d;
    if d == [] {
      assert s[|s| - 1] == sep;
    } else {
      var init := d[..|d| - 1];
      LastComponentAfterSeparator(p, sep, init);
      assert s[..|s| - 1] == p + [sep] + init;
      assert s[|s| - 1] == d[|d| - 1];
      assert init + [d[|d| - 1]] == d;
    }
  }

  /** The resume index taken from a label is the label's number. */
  lemma ResumeIndexOfLabel(prefix: string, n: nat)
    ensures LastComponent(LabelText(prefix, n), '_') == NatToDecimal(n)
  {
    LastComponentAfterSeparator(prefix, '_', NatToDecimal(n));
    assert LabelText(prefix, n) == prefix + ['_'] + NatToDecimal(n);
  }

  /** A C declaration at the top of the function body. */
  datatype Decl = Decl(cType: string, name: string)

  /** The runtime suspension primitives of call mode. */
  datatype YieldPrimitive = Yield | YieldInHandler | YieldFrom | YieldFromInHandler

  datatype Instr =
    /** the code generateChildExpressionsCode emits for the operand, result in `resultName` */
    | ChildExpression(resultName: string)
    /** getReferenceExportCode for `name` */
    | ReferenceExport(name: string)
    /** Nuitka_PreserveHeap( buffer, &local, sizeof(local), ..., NULL ); */
    | PreserveHeap(buffer: string, locals: seq<string>)
    /** Nuitka_RestoreHeap( buffer, &local, sizeof(local), ..., NULL ); */
    | RestoreHeap(buffer: string, locals: seq<string>)
    | SaveGeneratorException
    | RestoreGeneratorException
    /** <context object>->m_yield_return_index = <index>; */
    | SetYieldReturnIndex(contextObject: string, index: string)
    /** return <value>;  (the suspension of a yield in goto mode) */
    | ReturnYielded(value: string)
    /** generator->m_yieldfrom = <iterable>; return NULL;  (the suspension of a yield from in goto mode) */
    | ReturnDelegating(iterable: string)
    | LabelDef(labelText: string)
    /** <target> = yield_return_value; */
    | AssignYieldReturnValue(target: string)
    /** <target> = <KIND>_<PRIMITIVE>( <context object>, <value> ); */
    | CallYieldPrimitive(target: string, kind: ContextKind, primitive: YieldPrimitive, value: string)
    /** getErrorExitCode( check_name, release_name ) */
    | ErrorExit(checkName: string, releaseName: Option<string>)

  predicate Distinct(s: seq<string>)
  {
    forall i, j :: 0 <= i < j < |s| ==> s[i] != s[j]
  }

  predicate DistinctDeclNames(decls: seq<Decl>)
  {
    forall i, j :: 0 <= i < j < |decls| ==> decls[i].name != decls[j].name
  }

  /** getVariableDeclarationTop: the declaration of that name, if any. */
  function FindDecl(decls: seq<Decl>, name: string): (r: Option<Decl>)
    ensures r.Some? <==> exists i :: 0 <= i < |decls| && decls[i].name == name
    ensures r.Some? ==> r.value in decls && r.value.name == name
    decreases |decls|
  {
    if decls == [] then None
    else if decls[0].name == name then Some(decls[0])
    else
      var r := FindDecl(decls[1..], name);
      assert forall i :: 1 <= i < |decls| ==> decls[i] == decls[1..][i - 1];
      r
  }

  class Context {
    const kind: ContextKind
    /** names whose reference must be released on an error exit */
    var cleanupNames: set<string>
    var labelCounter: nat
    var topDecls: seq<Decl>
    /** the locals getLocalPreservationDeclarations reports */
    var localDecls: seq<string>
    var code: seq<Instr>

    ghost predicate Valid()
      reads this`topDecls, this`localDecls
    {
      DistinctDeclNames(topDecls) && Distinct(localDecls)
    }

    constructor (kind: ContextKind, localDecls: seq<string>)
      requires Distinct(localDecls)
      ensures Valid()
      ensures this.kind == kind && this.localDecls == localDecls
      ensures cleanupNames == {} && labelCounter == 0 && topDecls == [] && code == []
    {
      this.kind := kind;
      this.localDecls := localDecls;
      cleanupNames := {};
      labelCounter := 0;
      topDecls := [];
      code := [];
    }

    predicate NeedsCleanup(name: string)
      reads this
    {
      name in cleanupNames
    }

    method AddCleanupTempName(name: string)
      modifies this`cleanupNames
      ensures cleanupNames == old(cleanupNames) + {name}
    {
      cleanupNames := cleanupNames + {name};
    }

    method RemoveCleanupTempName(name: string)
      modifies this`cleanupNames
      ensures cleanupNames == old(cleanupNames) - {name}
    {
      cleanupNames := cleanupNames - {name};
    }

    /**
      allocateLabel: a label `prefix_<n>` numbered by the counter, different
      from every label the counter has numbered before.
    */
    method AllocateLabel(prefix: string) returns (text: string)
      modifies this`labelCounter
      ensures labelCounter == old(labelCounter) + 1
      ensures text == LabelText(prefix, labelCounter)
      ensures forall k :: 0 <= k <= old(labelCounter) ==> text != LabelText(prefix, k)
    {
      labelCounter := labelCounter + 1;
      text := LabelText(prefix, labelCounter);
      forall k | 0 <= k <= old(labelCounter) ensures text != LabelText(prefix, k) {
        LabelTextInjective(prefix, labelCounter, k);
      }
    }

    function GetVariableDeclarationTop(name: string): Option<Decl>
      reads this
    {
      FindDecl(topDecls, name)
    }

    method AddVariableDeclarationTop(cType: string, name: string) returns (d: Decl)
      requires Valid()
      requires GetVariableDeclarationTop(name).None?
      modifies this`topDecls
      ensures Valid()
      ensures d == Decl(cType, name) && topDecls == old(topDecls) + [d]
    {
      d := Decl(cType, name);
      topDecls := topDecls + [d];
    }

    method Emit(instr: Instr)
      modifies this`code
      ensures code == old(code) + [instr]
    {
      code := code + [instr];
    }
  }
}
