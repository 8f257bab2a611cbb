/**
  Code generation for `yield` and `yield from`: which locals are preserved
  across the suspension, the instruction sequence of the goto-based
  suspension, and the effect of each generator on the context.
*/
module YieldCodes {
  import opened Wrappers
  import opened CodegenContext

  const YieldReturnPrefix := "yield_return"
  const YieldTmpsName := "yield_tmps"
  const YieldTmpsType := "char[1024]"

  /** `list.remove(x)`: drops the first occurrence of `x`. */
  function RemoveFirst(s: seq<string>, x: string): (r: seq<string>)
    requires x in s
    ensures |r| == |s| - 1
    decreases |s|
  {
    if s[0] == x then s[1..] else [s[0]] + RemoveFirst(s[1..], x)
  }

  /** `list.remove(x)` takes away one occurrence of `x` and nothing else. */
  lemma {:induction false} RemoveFirstCounts(s: seq<string>, x: string)
    requires x in s
    ensures multiset(RemoveFirst(s, x)) == multiset(s) - multiset{x}
    decreases |s|
  {
    assert s == [s[0]] + s[1..];
    if s[0] != x {
      RemoveFirstCounts(s[1..], x);
    }
  }

  /** The elements of `s` outside `drop`, in their order. */
  function Without(s: seq<string>, drop: set<string>): (r: seq<string>)
    ensures forall y :: y in r <==> y in s && y !in drop
    ensures |r| <= |s|
    decreases |s|
  {
    if s == [] then []
    else if s[0] in drop then Without(s[1..], drop)
    else [s[0]] + Without(s[1..], drop)
  }

  lemma {:induction false} WithoutNothing(s: seq<string>, drop: set<string>)
    requires forall y :: y in s ==> y !in drop
    ensures Without(s, drop) == s
    decreases |s|
  {
    if s != [] {
      WithoutNothing(s[1..], drop);
      assert s == [s[0]] + s[1..];
    }
  }

  lemma {:induction false} WithoutDistinct(s: seq<string>, drop: set<string>)
    requires Distinct(s)
    ensures Distinct(Without(s, drop))
    decreases |s|
  {
    if s != [] {
      assert s[0] !in s[1..] by {
        forall i | 0 <= i < |s[1..]| ensures s[1..][i] != s[0] {
          assert s[1..][i] == s[i + 1];
        }
      }
      WithoutDistinct(s[1..], drop);
      var t := Without(s[1..], drop);
      if s[0] !in drop {
        forall i, j | 0 <= i < j < |[s[0]] + t| ensures ([s[0]] + t)[i] != ([s[0]] + t)[j] {
          if i == 0 {
            assert ([s[0]] + t)[j] == t[j - 1];
            assert t[j - 1] in t;
          } else {
            assert ([s[0]] + t)[i] == t[i - 1];
            assert ([s[0]] + t)[j] == t[j - 1];
          }
        }
      }
    }
  }

  lemma {:induction false} WithoutTwice(s: seq<string>, a: set<string>, b: set<string>)
    ensures Without(Without(s, a), b) == Without(s, a + b)
    decreases |s|
  {
    if s != [] {
      WithoutTwice(s[1..], a, b);
      if s[0] !in a {
        var t := Without(s[1..], a);
        assert ([s[0]] + t)[0] == s[0] && ([s[0]] + t)[1..] == t;
      }
    }
  }

  /** On a list without repetitions, `list.remove(x)` removes every `x`. */
  lemma {:induction false} RemoveFirstDistinct(s: seq<string>, x: string)
    requires Distinct(s) && x in s
    ensures RemoveFirst(s, x) == Without(s, {x})
    decreases |s|
  {
    assert Distinct(s[1..]);
    if s[0] == x {
      forall y | y in s[1..] ensures y !in {x} {
        var i :| 0 <= i < |s[1..]| && s[1..][i] == y;
        assert s[i + 1] == y;
      }
      WithoutNothing(s[1..], {x});
    } else {
      RemoveFirstDistinct(s[1..], x);
    }
  }

  /**
    The locals saved across a suspension: every local declaration except the
    target, and except the yielded value unless it still needs a release.
    None where `list.remove` raises ValueError: the value needs no cleanup
    and is not a local.
  */
  function PreservedLocals(decls: seq<string>, valueNeedsCleanup: bool, toName: string, valueName: string)
    : Option<seq<string>>
  {
    var afterValue :=
      if valueNeedsCleanup then Some(decls)
      else if valueName in decls then Some(RemoveFirst(decls, valueName))
      else None;
    match afterValue
    case None => None
    case Some(l) => Some(if toName in l then RemoveFirst(l, toName) else l)
  }

  lemma PreservedLocalsMeaning(decls: seq<string>, valueNeedsCleanup: bool, toName: string, valueName: string)
    requires Distinct(decls)
    ensures var p := PreservedLocals(decls, valueNeedsCleanup, toName, valueName);
      (p.Some? <==> valueNeedsCleanup || valueName in decls) &&
      (p.Some? ==>
        Distinct(p.value) &&
        p.value == Without(decls, {toName} + (if valueNeedsCleanup then {} else {valueName})))
  {
    var dropped: set<string> := if valueNeedsCleanup then {} else {valueName};
    if valueNeedsCleanup || valueName in decls {
      var l := if valueNeedsCleanup then decls else RemoveFirst(decls, valueName);
      assert l == Without(decls, dropped) by {
        if valueNeedsCleanup {
          WithoutNothing(decls, {});
        } else {
          RemoveFirstDistinct(decls, valueName);
        }
      }
      WithoutDistinct(decls, dropped);
      WithoutTwice(decls, dropped, {toName});
      assert dropped + {toName} == {toName} + dropped;
      if toName in l {
        RemoveFirstDistinct(l, toName);
      } else {
        WithoutNothing(l, {toName});
      }
      WithoutDistinct(l, {toName});
    }
  }

  /** The declarations after the preservation buffer is requested for `preserved`. */
  function WithYieldTmps(decls: seq<Decl>, preserved: seq<string>): seq<Decl>
  {
    if preserved != [] && FindDecl(decls, YieldTmpsName).None? then decls + [Decl(YieldTmpsType, YieldTmpsName)]
    else decls
  }

  lemma WithYieldTmpsDeclaresOnce(decls: seq<Decl>, preserved: seq<string>)
    requires DistinctDeclNames(decls)
    ensures var d := WithYieldTmps(decls, preserved);
      DistinctDeclNames(d) &&
      (preserved != [] ==> FindDecl(d, YieldTmpsName).Some?) &&
      (preserved == [] || FindDecl(decls, YieldTmpsName).Some? ==> d == decls) &&
      |d| <= |decls| + 1
  {
    var d := WithYieldTmps(decls, preserved);
    if d != decls {
      assert d[|decls|].name == YieldTmpsName;
    }
  }

  predicate IsSuspension(i: Instr)
  {
    i.ReturnYielded? || i.ReturnDelegating?
  }

  /**
    The goto-mode suspension: save the locals and the exception, record the
    resume index, suspend, and after the resume label restore both and
    assign the sent value to the target.
  */
  function PreserveSequence(contextObject: string, preserved: seq<string>, labelText: string,
                            preserveException: bool, suspend: Instr, toName: string): seq<Instr>
  {
    SaveState(preserved, preserveException)
    + [SetYieldReturnIndex(contextObject, LastComponent(labelText, '_')), suspend, LabelDef(labelText)]
    + RestoreState(preserved, preserveException, toName)
  }

  /** What runs before the suspension: the locals to the heap buffer, then the exception. */
  function SaveState(preserved: seq<string>, preserveException: bool): seq<Instr>
  {
    (if preserved != [] then [PreserveHeap(YieldTmpsName, preserved)] else [])
    + (if preserveException then [SaveGeneratorException] else [])
  }

  /** What runs after the resume label: the locals back, the sent value, then the exception. */
  function RestoreState(preserved: seq<string>, preserveException: bool, toName: string): seq<Instr>
  {
    (if preserved != [] then [RestoreHeap(YieldTmpsName, preserved)] else [])
    + [AssignYieldReturnValue(toName)]
    + (if preserveException then [RestoreGeneratorException] else [])
  }

  /** Where each instruction of a suspension sequence belongs. */
  function Phase(i: Instr): nat
  {
    match i
    case PreserveHeap(_, _) => 1
    case SaveGeneratorException => 2
    case SetYieldReturnIndex(_, _) => 3
    case ReturnYielded(_) => 4
    case ReturnDelegating(_) => 4
    case LabelDef(_) => 5
    case RestoreHeap(_, _) => 6
    case AssignYieldReturnValue(_) => 7
    case RestoreGeneratorException => 8
    case _ => 0
  }

  predicate PhasesAscend(s: seq<Instr>)
  {
    forall i, j :: 0 <= i < j < |s| ==> 0 < Phase(s[i]) < Phase(s[j])
  }

  /** Every phase of `s` lies in `[lo, hi)`. */
  predicate PhasesWithin(s: seq<Instr>, lo: nat, hi: nat)
  {
    forall i :: 0 <= i < |s| ==> lo <= Phase(s[i]) < hi
  }

  lemma PhasesAscendConcat(a: seq<Instr>, b: seq<Instr>, lo: nat, mid: nat, hi: nat)
    requires PhasesAscend(a) && PhasesAscend(b)
    requires PhasesWithin(a, lo, mid) && PhasesWithin(b, mid, hi) && 0 < lo <= mid <= hi
    ensures PhasesAscend(a + b) && PhasesWithin(a + b, lo, hi)
  {
    forall i, j | 0 <= i < j < |a + b| ensures 0 < Phase((a + b)[i]) < Phase((a + b)[j]) {
      if j < |a| {
        assert (a + b)[i] == a[i] && (a + b)[j] == a[j];
      } else if i < |a| {
        assert (a + b)[i] == a[i] && (a + b)[j] == b[j - |a|];
      } else {
        assert (a + b)[i] == b[i - |a|] && (a + b)[j] == b[j - |a|];
      }
    }
    forall i | 0 <= i < |a + b| ensures lo <= Phase((a + b)[i]) < hi {
      if i < |a| {
        assert (a + b)[i] == a[i];
      } else {
        assert (a + b)[i] == b[i - |a|];
      }
    }
  }

  lemma SaveStateOrder(preserved: seq<string>, preserveException: bool)
    ensures PhasesAscend(SaveState(preserved, preserveException))
    ensures PhasesWithin(SaveState(preserved, preserveException), 1, 3)
  {
    var p1 := if preserved != [] then [PreserveHeap(YieldTmpsName, preserved)] else [];
    var p2 := if preserveException then [SaveGeneratorException] else [];
    PhasesAscendConcat(p1, p2, 1, 2, 3);
  }

  lemma RestoreStateOrder(preserved: seq<string>, preserveException: bool, toName: string)
    ensures PhasesAscend(RestoreState(preserved, preserveException, toName))
    ensures PhasesWithin(RestoreState(preserved, preserveException, toName), 6, 9)
  {
    var p6 := if preserved != [] then [RestoreHeap(YieldTmpsName, preserved)] else [];
    var p7 := [AssignYieldReturnValue(toName)];
    var p8 := if preserveException then [RestoreGeneratorException] else [];
    PhasesAscendConcat(p6, p7, 6, 7, 8);
    PhasesAscendConcat(p6 + p7, p8, 6, 8, 9);
  }

  /** The suspension sequence visits its phases in order, each at most once. */
  lemma PreserveSequenceOrder(contextObject: string, preserved: seq<string>, labelText: string,
                              preserveException: bool, suspend: Instr, toName: string)
    requires IsSuspension(suspend)
    ensures PhasesAscend(PreserveSequence(contextObject, preserved, labelText, preserveException, suspend, toName))
  {
    var mid := [SetYieldReturnIndex(contextObject, LastComponent(labelText, '_')), suspend, LabelDef(labelText)];
    assert PhasesAscend(mid) && PhasesWithin(mid, 3, 6) by {
      assert Phase(mid[0]) == 3 && Phase(mid[1]) == 4 && Phase(mid[2]) == 5;
    }
    SaveStateOrder(preserved, preserveException);
    RestoreStateOrder(preserved, preserveException, toName);
    PhasesAscendConcat(SaveState(preserved, preserveException), mid, 1, 3, 6);
    PhasesAscendConcat(SaveState(preserved, preserveException) + mid, RestoreState(preserved, preserveException, toName), 1, 6, 9);
  }

  /** Exactly which instructions the suspension sequence holds. */
  lemma PreserveSequenceContents(contextObject: string, preserved: seq<string>, labelText: string,
                                 preserveException: bool, suspend: Instr, toName: string)
    ensures forall i :: i in PreserveSequence(contextObject, preserved, labelText, preserveException, suspend, toName) <==>
      (preserved != [] && (i == PreserveHeap(YieldTmpsName, preserved) || i == RestoreHeap(YieldTmpsName, preserved))) ||
      (preserveException && (i == SaveGeneratorException || i == RestoreGeneratorException)) ||
      i == SetYieldReturnIndex(contextObject, LastComponent(labelText, '_')) || i == suspend ||
      i == LabelDef(labelText) || i == AssignYieldReturnValue(toName)
  {
    var save := SaveState(preserved, preserveException);
    var mid := [SetYieldReturnIndex(contextObject, LastComponent(labelText, '_')), suspend, LabelDef(labelText)];
    var restore := RestoreState(preserved, preserveException, toName);
    assert PreserveSequence(contextObject, preserved, labelText, preserveException, suspend, toName) == save + mid + restore;
    forall i ensures i in save <==> (preserved != [] && i == PreserveHeap(YieldTmpsName, preserved)) || (preserveException && i == SaveGeneratorException) {
    }
    forall i ensures i in restore <==> (preserved != [] && i == RestoreHeap(YieldTmpsName, preserved)) || i == AssignYieldReturnValue(toName) || (preserveException && i == RestoreGeneratorException) {
    }
  }

  /**
    What is saved is what is restored, into and from the preservation
    buffer; the exception is saved exactly when it is restored.
  */
  lemma PreserveSequenceRestoresWhatItSaves(contextObject: string, preserved: seq<string>, labelText: string,
                                            preserveException: bool, suspend: Instr, toName: string)
    requires IsSuspension(suspend)
    ensures var r := PreserveSequence(contextObject, preserved, labelText, preserveException, suspend, toName);
      (PreserveHeap(YieldTmpsName, preserved) in r <==> preserved != []) &&
      (RestoreHeap(YieldTmpsName, preserved) in r <==> preserved != []) &&
      (forall i :: i in r && (i.PreserveHeap? || i.RestoreHeap?) ==> i.buffer == YieldTmpsName && i.locals == preserved) &&
      (SaveGeneratorException in r <==> preserveException) &&
      (RestoreGeneratorException in r <==> preserveException)
  {
    PreserveSequenceContents(contextObject, preserved, labelText, preserveException, suspend, toName);
  }

  /**
    The resume index recorded before the suspension is the number of the
    label emitted after it, and the target is assigned after resuming.
  */
  lemma PreserveSequenceResumeIndex(contextObject: string, preserved: seq<string>, labelPrefix: string, labelNumber: nat,
                                    preserveException: bool, suspend: Instr, toName: string)
    ensures var r := PreserveSequence(contextObject, preserved, LabelText(labelPrefix, labelNumber), preserveException, suspend, toName);
      SetYieldReturnIndex(contextObject, NatToDecimal(labelNumber)) in r &&
      LabelDef(LabelText(labelPrefix, labelNumber)) in r &&
      AssignYieldReturnValue(toName) in r
  {
    ResumeIndexOfLabel(labelPrefix, labelNumber);
    PreserveSequenceContents(contextObject, preserved, LabelText(labelPrefix, labelNumber), preserveException, suspend, toName);
  }

  /**
    What the goto-mode suspension emits for label number `labelNumber`;
    None where `list.remove` raises ValueError.
  */
  function GotoSuspension(contextObject: string, localDecls: seq<string>, valueNeedsCleanup: bool, toName: string,
                          valueName: string, preserveException: bool, suspend: Instr, labelNumber: nat): Option<seq<Instr>>
  {
    match PreservedLocals(localDecls, valueNeedsCleanup, toName, valueName)
    case None => None
    case Some(p) => Some(PreserveSequence(contextObject, p, LabelText(YieldReturnPrefix, labelNumber), preserveException, suspend, toName))
  }

  /** The primitive a call-mode `yield` uses. */
  function YieldPrimitiveFor(preserveException: bool): YieldPrimitive
  {
    if preserveException then YieldInHandler else Yield
  }

  /** The primitive a call-mode `yield from` uses. */
  function YieldFromPrimitiveFor(preserveException: bool): YieldPrimitive
  {
    if preserveException then YieldFromInHandler else YieldFrom
  }

  /**
    The instructions between the export of the value and the error exit of a
    `yield`; None where goto mode fails with ValueError.
  */
  function YieldSuspension(kind: ContextKind, localDecls: seq<string>, toName: string, valueName: string,
                           preserveException: bool, gotoMode: bool, labelNumber: nat): Option<seq<Instr>>
  {
    if gotoMode then GotoSuspension(kind.ObjectName(), localDecls, false, toName, valueName, preserveException, ReturnYielded(valueName), labelNumber)
    else
      Some([CallYieldPrimitive(toName, kind, YieldPrimitiveFor(preserveException), valueName)])
  }

  /** The same for `yield from`; its goto mode checks the cleanup after releasing the value. */
  function YieldFromSuspension(kind: ContextKind, localDecls: seq<string>, toName: string, valueName: string,
                               preserveException: bool, gotoMode: bool, labelNumber: nat): Option<seq<Instr>>
  {
    if gotoMode then GotoSuspension(kind.ObjectName(), localDecls, false, toName, valueName, preserveException, ReturnDelegating(valueName), labelNumber)
    else
      Some([CallYieldPrimitive(toName, kind, YieldFromPrimitiveFor(preserveException), valueName)])
  }

  /** Call mode always succeeds with exactly one runtime call of the matching primitive. */
  lemma CallModeSuspension(kind: ContextKind, localDecls: seq<string>, toName: string, valueName: string,
                           preserveException: bool, labelNumber: nat)
    ensures YieldSuspension(kind, localDecls, toName, valueName, preserveException, false, labelNumber)
      == Some([CallYieldPrimitive(toName, kind, if preserveException then YieldInHandler else Yield, valueName)])
    ensures YieldFromSuspension(kind, localDecls, toName, valueName, preserveException, false, labelNumber)
      == Some([CallYieldPrimitive(toName, kind, if preserveException then YieldFromInHandler else YieldFrom, valueName)])
  {
  }

  /**
    Goto mode, where the value has just been released from cleanup,
    succeeds exactly when the value is a local; it calls no primitive and
    saves every local except the value and the target.
  */
  lemma GotoModeSuspension(contextObject: string, localDecls: seq<string>, toName: string, valueName: string,
                           preserveException: bool, suspend: Instr, labelNumber: nat)
    requires Distinct(localDecls) && IsSuspension(suspend)
    ensures var g := GotoSuspension(contextObject, localDecls, false, toName, valueName, preserveException, suspend, labelNumber);
      (g.Some? <==> valueName in localDecls) &&
      (g.Some? ==> forall i :: i in g.value ==>
        !i.CallYieldPrimitive? && (i.PreserveHeap? ==> i.locals == Without(localDecls, {toName, valueName})))
  {
    PreservedLocalsMeaning(localDecls, false, toName, valueName);
    if valueName in localDecls {
      var p := PreservedLocals(localDecls, false, toName, valueName).value;
      assert {toName} + {valueName} == {toName, valueName};
      PreserveSequenceContents(contextObject, p, LabelText(YieldReturnPrefix, labelNumber), preserveException, suspend, toName);
    }
  }

  /** The list of locals to preserve, narrowed by `list.remove` as in the generator. */
  method LocalsToPreserve(ctx: Context, toName: string, valueName: string) returns (preserved: Option<seq<string>>)
    ensures preserved == PreservedLocals(ctx.localDecls, ctx.NeedsCleanup(valueName), toName, valueName)
  {
    var locals := ctx.localDecls;
    if !ctx.NeedsCleanup(valueName) {
      if valueName !in locals {
        return None;
      }
      locals := RemoveFirst(locals, valueName);
    }
    if toName in locals {
      locals := RemoveFirst(locals, toName);
    }
    preserved := Some(locals);
  }

  method EmitSaveState(ctx: Context, buffer: string, preserved: seq<string>, preserveException: bool)
    requires buffer == YieldTmpsName
    modifies ctx`code
    ensures ctx.code == old(ctx.code) + SaveState(preserved, preserveException)
  {
    if preserved != [] {
      ctx.Emit(PreserveHeap(buffer, preserved));
    }
    if preserveException {
      ctx.Emit(SaveGeneratorException);
    }
  }

  method EmitRestoreState(ctx: Context, buffer: string, preserved: seq<string>, preserveException: bool, toName: string)
    requires buffer == YieldTmpsName
    modifies ctx`code
    ensures ctx.code == old(ctx.code) + RestoreState(preserved, preserveException, toName)
  {
    if preserved != [] {
      ctx.Emit(RestoreHeap(buffer, preserved));
    }
    ctx.Emit(AssignYieldReturnValue(toName));
    if preserveException {
      ctx.Emit(RestoreGeneratorException);
    }
  }

  /** Looks up the preservation buffer, declaring it on first use. */
  method DeclarePreservationBuffer(ctx: Context, preserved: seq<string>) returns (storage: Decl)
    requires ctx.Valid()
    modifies ctx`topDecls
    ensures ctx.Valid()
    ensures ctx.topDecls == WithYieldTmps(old(ctx.topDecls), preserved)
    ensures storage.name == YieldTmpsName
  {
    storage := Decl(YieldTmpsType, YieldTmpsName);
    if preserved != [] {
      var found := ctx.GetVariableDeclarationTop(YieldTmpsName);
      if found.None? {
        storage := ctx.AddVariableDeclarationTop(YieldTmpsType, YieldTmpsName);
      } else {
        storage := found.value;
      }
    }
  }

  method EmitSuspension(ctx: Context, buffer: string, contextObject: string, preserved: seq<string>, labelText: string,
                        index: string, preserveException: bool, yieldCode: Instr, toName: string)
    requires buffer == YieldTmpsName && index == LastComponent(labelText, '_')
    modifies ctx`code
    ensures ctx.code == old(ctx.code) + PreserveSequence(contextObject, preserved, labelText, preserveException, yieldCode, toName)
  {
    EmitSaveState(ctx, buffer, preserved, preserveException);
    ghost var save := ctx.code;
    ctx.Emit(SetYieldReturnIndex(contextObject, index));
    ctx.Emit(yieldCode);
    ctx.Emit(LabelDef(labelText));
    ghost var mid := [SetYieldReturnIndex(contextObject, index), yieldCode, LabelDef(labelText)];
    assert ctx.code == save + mid;
    EmitRestoreState(ctx, buffer, preserved, preserveException, toName);
    ghost var restore := RestoreState(preserved, preserveException, toName);
    assert ctx.code == old(ctx.code) + (SaveState(preserved, preserveException) + mid + restore);
  }

  /**
    Emits the goto-mode suspension for `yieldCode`. Fails (ValueError) when
    the value needs no cleanup and is not among the locals.
  */
  method GetYieldPreserveCode(ctx: Context, toName: string, valueName: string, preserveException: bool, yieldCode: Instr)
    returns (ok: bool)
    requires ctx.Valid()
    modifies ctx
    ensures ctx.Valid()
    ensures ctx.labelCounter == old(ctx.labelCounter) + 1
    ensures ctx.cleanupNames == old(ctx.cleanupNames) && ctx.localDecls == old(ctx.localDecls)
    ensures ok == GotoSuspension(ctx.kind.ObjectName(), old(ctx.localDecls), old(ctx.NeedsCleanup(valueName)), toName, valueName,
                                 preserveException, yieldCode, ctx.labelCounter).Some?
    ensures ok ==> ctx.code == old(ctx.code) + GotoSuspension(ctx.kind.ObjectName(), old(ctx.localDecls), old(ctx.NeedsCleanup(valueName)),
                                                              toName, valueName, preserveException, yieldCode, ctx.labelCounter).value
    ensures ok ==> ctx.topDecls == WithYieldTmps(old(ctx.topDecls), PreservedLocals(old(ctx.localDecls), old(ctx.NeedsCleanup(valueName)), toName, valueName).value)
    ensures !ok ==> ctx.code == old(ctx.code) && ctx.topDecls == old(ctx.topDecls)
  {
    var labelText := ctx.AllocateLabel(YieldReturnPrefix);
    var index := LastComponent(labelText, '_');
    var maybePreserved := LocalsToPreserve(ctx, toName, valueName);
    if maybePreserved.None? {
      return false;
    }
    var preserved := maybePreserved.value;
    var storage := DeclarePreservationBuffer(ctx, preserved);
    EmitSuspension(ctx, storage.name, ctx.kind.ObjectName(), preserved, labelText, index, preserveException, yieldCode, toName);
    ok := true;
  }

  /**
    generateYieldCode: the value is exported and released from cleanup, then
    either suspended by goto or passed to the yield primitive; the target is
    checked for an error and, being borrowed, never enters the cleanup set.
  */
  method GenerateYieldCode(ctx: Context, toName: string, valueName: string, preserveException: bool, gotoMode: bool)
    returns (ok: bool)
    requires ctx.Valid()
    modifies ctx
    ensures ctx.Valid()
    ensures ctx.cleanupNames == old(ctx.cleanupNames) - {valueName}
    ensures ctx.localDecls == old(ctx.localDecls)
    ensures ctx.labelCounter == old(ctx.labelCounter) + (if gotoMode then 1 else 0)
    ensures ok == YieldSuspension(ctx.kind, old(ctx.localDecls), toName, valueName, preserveException, gotoMode, ctx.labelCounter).Some?
    ensures ok ==>
      ctx.code == old(ctx.code) + [ChildExpression(valueName), ReferenceExport(valueName)]
        + YieldSuspension(ctx.kind, old(ctx.localDecls), toName, valueName, preserveException, gotoMode, ctx.labelCounter).value
        + [ErrorExit(toName, None)]
    ensures !ok ==> ctx.code == old(ctx.code) + [ChildExpression(valueName), ReferenceExport(valueName)]
    ensures gotoMode && ok ==>
      ctx.topDecls == WithYieldTmps(old(ctx.topDecls), PreservedLocals(old(ctx.localDecls), false, toName, valueName).value)
    ensures !(gotoMode && ok) ==> ctx.topDecls == old(ctx.topDecls)
  {
    ctx.Emit(ChildExpression(valueName));
    ctx.Emit(ReferenceExport(valueName));
    ghost var code0 := ctx.code;
    assert code0 == old(ctx.code) + [ChildExpression(valueName), ReferenceExport(valueName)];
    if ctx.NeedsCleanup(valueName) {
      ctx.RemoveCleanupTempName(valueName);
    }
    if gotoMode {
      assert !ctx.NeedsCleanup(valueName);
      ok := GetYieldPreserveCode(ctx, toName, valueName, preserveException, ReturnYielded(valueName));
      if !ok {
        return;
      }
    } else {
      ctx.Emit(CallYieldPrimitive(toName, ctx.kind, YieldPrimitiveFor(preserveException), valueName));
      ok := true;
    }
    assert ctx.code == code0 + YieldSuspension(ctx.kind, old(ctx.localDecls), toName, valueName, preserveException, gotoMode, ctx.labelCounter).value;
    ctx.Emit(ErrorExit(toName, None));
  }

  /**
    generateYieldFromCode: in goto mode the value is released from cleanup
    and delegated to by goto; in call mode it is kept for cleanup and
    released on the error exit. Either way the target then needs cleanup.
  */
  method GenerateYieldFromCode(ctx: Context, toName: string, valueName: string, preserveException: bool, gotoMode: bool)
    returns (ok: bool)
    requires ctx.Valid()
    modifies ctx
    ensures ctx.Valid()
    ensures ok ==> ctx.cleanupNames == (if gotoMode then old(ctx.cleanupNames) - {valueName} else old(ctx.cleanupNames) + {valueName}) + {toName}
    ensures !ok ==> ctx.cleanupNames == old(ctx.cleanupNames) - {valueName}
    ensures ctx.localDecls == old(ctx.localDecls)
    ensures ctx.labelCounter == old(ctx.labelCounter) + (if gotoMode then 1 else 0)
    ensures ok == YieldFromSuspension(ctx.kind, old(ctx.localDecls), toName, valueName, preserveException, gotoMode, ctx.labelCounter).Some?
    ensures ok ==>
      ctx.code == old(ctx.code) + [ChildExpression(valueName), ReferenceExport(valueName)]
        + YieldFromSuspension(ctx.kind, old(ctx.localDecls), toName, valueName, preserveException, gotoMode, ctx.labelCounter).value
        + [ErrorExit(toName, if gotoMode then None else Some(valueName))]
    ensures !ok ==> ctx.code == old(ctx.code) + [ChildExpression(valueName), ReferenceExport(valueName)]
    ensures gotoMode && ok ==>
      ctx.topDecls == WithYieldTmps(old(ctx.topDecls), PreservedLocals(old(ctx.localDecls), false, toName, valueName).value)
    ensures !(gotoMode && ok) ==> ctx.topDecls == old(ctx.topDecls)
  {
    ctx.Emit(ChildExpression(valueName));
    ctx.Emit(ReferenceExport(valueName));
    ghost var code0 := ctx.code;
    assert code0 == old(ctx.code) + [ChildExpression(valueName), ReferenceExport(valueName)];
    if gotoMode {
      if ctx.NeedsCleanup(valueName) {
        ctx.RemoveCleanupTempName(valueName);
      }
      assert !ctx.NeedsCleanup(valueName);
      ok := GetYieldPreserveCode(ctx, toName, valueName, preserveException, ReturnDelegating(valueName));
      if !ok {
        return;
      }
      assert ctx.code == code0 + YieldFromSuspension(ctx.kind, old(ctx.localDecls), toName, valueName, preserveException, gotoMode, ctx.labelCounter).value;
      ctx.Emit(ErrorExit(toName, None));
    } else {
      if !ctx.NeedsCleanup(valueName) {
        ctx.AddCleanupTempName(valueName);
      }
      ctx.Emit(CallYieldPrimitive(toName, ctx.kind, YieldFromPrimitiveFor(preserveException), valueName));
      assert ctx.code == code0 + YieldFromSuspension(ctx.kind, old(ctx.localDecls), toName, valueName, preserveException, gotoMode, ctx.labelCounter).value;
      ctx.Emit(ErrorExit(toName, Some(valueName)));
      ok := true;
    }
    ctx.AddCleanupTempName(toName);
  }
}
