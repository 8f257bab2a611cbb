/**
  The run-time meaning of the goto-mode suspension sequence. The C frame
  (the locals and the current exception) does not survive a suspension; the
  generator object (the heap buffer, the saved exception, the resume index
  and the sent value) does. Running the sequence up to its suspension,
  replacing the frame arbitrarily, and resuming at the label the resume
  switch selects must give back every preserved local.
*/
module YieldResume {
  import opened Wrappers
  import opened CodegenContext
  import opened YieldCodes

  datatype Frame = Frame(locals: map<string, int>, exception: int)

  datatype GeneratorObject = GeneratorObject(heap: seq<int>, savedException: int, resumeIndex: string, yieldReturnValue: int)

  datatype Machine = Machine(frame: Frame, generator: GeneratorObject)

  /** A local's value; an unassigned one reads as 0. */
  function Read(locals: map<string, int>, x: string): int
  {
    if x in locals then locals[x] else 0
  }

  /** What Nuitka_PreserveHeap copies into the buffer. */
  function Snapshot(locals: map<string, int>, names: seq<string>): (values: seq<int>)
    ensures |values| == |names|
    ensures forall i :: 0 <= i < |names| ==> values[i] == Read(locals, names[i])
  {
    seq(|names|, i requires 0 <= i < |names| => Read(locals, names[i]))
  }

  /** What Nuitka_RestoreHeap copies back, in order. */
  function Restore(locals: map<string, int>, names: seq<string>, values: seq<int>): map<string, int>
    requires |names| == |values|
    decreases |names|
  {
    if names == [] then locals else Restore(locals[names[0] := values[0]], names[1..], values[1..])
  }

  lemma {:induction false} RestoreSnapshot(locals: map<string, int>, names: seq<string>, values: seq<int>, saved: map<string, int>)
    requires |names| == |values|
    requires forall i :: 0 <= i < |names| ==> values[i] == Read(saved, names[i])
    ensures forall x :: Read(Restore(locals, names, values), x) == if x in names then Read(saved, x) else Read(locals, x)
    decreases |names|
  {
    if names != [] {
      var next := locals[names[0] := values[0]];
      forall i | 0 <= i < |names[1..]| ensures values[1..][i] == Read(saved, names[1..][i]) {
        assert values[1..][i] == values[i + 1] && names[1..][i] == names[i + 1];
      }
      RestoreSnapshot(next, names[1..], values[1..], saved);
      forall x ensures x in names <==> x == names[0] || x in names[1..] {
        assert names == [names[0]] + names[1..];
      }
    }
  }

  function Step(m: Machine, instr: Instr): Machine
  {
    match instr
    case PreserveHeap(_, names) =>
      m.(generator := m.generator.(heap := Snapshot(m.frame.locals, names)))
    case RestoreHeap(_, names) =>
      if |names| == |m.generator.heap| then m.(frame := m.frame.(locals := Restore(m.frame.locals, names, m.generator.heap)))
      else m
    case SaveGeneratorException =>
      m.(generator := m.generator.(savedException := m.frame.exception))
    case RestoreGeneratorException =>
      m.(frame := m.frame.(exception := m.generator.savedException))
    case SetYieldReturnIndex(_, index) =>
      m.(generator := m.generator.(resumeIndex := index))
    case AssignYieldReturnValue(target) =>
      m.(frame := m.frame.(locals := m.frame.locals[target := m.generator.yieldReturnValue]))
    case _ => m
  }

  function Run(m: Machine, code: seq<Instr>): Machine
    decreases |code|
  {
    if code == [] then m else Run(Step(m, code[0]), code[1..])
  }

  lemma {:induction false} RunAppend(m: Machine, a: seq<Instr>, b: seq<Instr>)
    ensures Run(m, a + b) == Run(Run(m, a), b)
    decreases |a|
  {
    if a != [] {
      assert (a + b)[0] == a[0] && (a + b)[1..] == a[1..] + b;
      RunAppend(Step(m, a[0]), a[1..], b);
    } else {
      assert a + b == b;
    }
  }

  /** The first position satisfying `p`. */
  function FirstWhere(code: seq<Instr>, p: Instr -> bool): (r: Option<nat>)
    ensures r.Some? ==> r.value < |code| && p(code[r.value]) && forall i :: 0 <= i < r.value ==> !p(code[i])
    ensures r.None? ==> forall i :: 0 <= i < |code| ==> !p(code[i])
    decreases |code|
  {
    if code == [] then None
    else if p(code[0]) then Some(0)
    else
      var rest := FirstWhere(code[1..], p);
      assert forall i :: 1 <= i < |code| ==> code[1..][i - 1] == code[i];
      match rest
      case None => None
      case Some(k) => Some(k + 1)
  }

  /** The generator's resume switch: index `N` jumps to label `<prefix>_N`. */
  function ResumeLabel(labelPrefix: string, index: string): string
  {
    labelPrefix + "_" + index
  }

  /**
    Runs `code` up to its suspension, replaces the frame by `clobbered`
    while suspended, stores the sent value, and resumes after the label the
    recorded index selects. None if there is no suspension or no such label.
  */
  function SuspendAndResume(code: seq<Instr>, labelPrefix: string, m0: Machine, clobbered: Frame, sent: int): Option<Machine>
  {
    match FirstWhere(code, IsSuspension)
    case None => None
    case Some(k) =>
      var suspended := Run(m0, code[..k]);
      var resumed := Machine(clobbered, suspended.generator.(yieldReturnValue := sent));
      match FirstWhere(code, i => i == LabelDef(ResumeLabel(labelPrefix, suspended.generator.resumeIndex)))
      case None => None
      case Some(j) => Some(Run(resumed, code[j + 1..]))
  }

  lemma RunSaveState(m: Machine, preserved: seq<string>, preserveException: bool)
    ensures var m1 := Run(m, SaveState(preserved, preserveException));
      m1.frame == m.frame &&
      m1.generator.resumeIndex == m.generator.resumeIndex &&
      (preserved != [] ==> m1.generator.heap == Snapshot(m.frame.locals, preserved)) &&
      (preserveException ==> m1.generator.savedException == m.frame.exception)
  {
    var p1 := if preserved != [] then [PreserveHeap(YieldTmpsName, preserved)] else [];
    var p2 := if preserveException then [SaveGeneratorException] else [];
    RunAppend(m, p1, p2);
  }

  lemma RunRestoreState(m: Machine, preserved: seq<string>, preserveException: bool, toName: string, saved: map<string, int>)
    requires preserved != [] ==> m.generator.heap == Snapshot(saved, preserved)
    ensures var m1 := Run(m, RestoreState(preserved, preserveException, toName));
      (forall x :: x != toName ==>
        Read(m1.frame.locals, x) == if x in preserved then Read(saved, x) else Read(m.frame.locals, x)) &&
      Read(m1.frame.locals, toName) == m.generator.yieldReturnValue &&
      m1.frame.exception == (if preserveException then m.generator.savedException else m.frame.exception)
  {
    var p6 := if preserved != [] then [RestoreHeap(YieldTmpsName, preserved)] else [];
    var p7 := [AssignYieldReturnValue(toName)];
    var p8 := if preserveException then [RestoreGeneratorException] else [];
    RunAppend(m, p6, p7);
    RunAppend(m, p6 + p7, p8);
    var m6 := Run(m, p6);
    if preserved != [] {
      RestoreSnapshot(m.frame.locals, preserved, m.generator.heap, saved);
      assert m6.frame.locals == Restore(m.frame.locals, preserved, m.generator.heap);
    }
    assert forall x :: Read(m6.frame.locals, x) == if x in preserved then Read(saved, x) else Read(m.frame.locals, x);
  }

  /** The suspension sequence stops right after recording the resume index. */
  lemma SuspendsAfterSaving(contextObject: string, preserved: seq<string>, labelText: string,
                            preserveException: bool, suspend: Instr, toName: string)
    requires IsSuspension(suspend)
    ensures var code := PreserveSequence(contextObject, preserved, labelText, preserveException, suspend, toName);
      var k := |SaveState(preserved, preserveException)| + 1;
      FirstWhere(code, IsSuspension) == Some(k) &&
      code[..k] == SaveState(preserved, preserveException) + [SetYieldReturnIndex(contextObject, LastComponent(labelText, '_'))]
  {
    var save := SaveState(preserved, preserveException);
    var mid := [SetYieldReturnIndex(contextObject, LastComponent(labelText, '_')), suspend, LabelDef(labelText)];
    var restore := RestoreState(preserved, preserveException, toName);
    var code := PreserveSequence(contextObject, preserved, labelText, preserveException, suspend, toName);
    assert code == save + mid + restore;
    var k := |save| + 1;
    forall i | 0 <= i < k ensures !IsSuspension(code[i]) {
      if i < |save| {
        assert code[i] == save[i];
      } else {
        assert code[i] == mid[0];
      }
    }
    assert code[k] == suspend;
    assert code[..k] == save + [mid[0]];
  }

  /** What the generator object holds at the suspension. */
  lemma StateAtSuspension(m0: Machine, preserved: seq<string>, preserveException: bool, contextObject: string, index: string)
    ensures var m1 := Run(m0, SaveState(preserved, preserveException) + [SetYieldReturnIndex(contextObject, index)]);
      m1.frame == m0.frame &&
      m1.generator.resumeIndex == index &&
      (preserved != [] ==> m1.generator.heap == Snapshot(m0.frame.locals, preserved)) &&
      (preserveException ==> m1.generator.savedException == m0.frame.exception)
  {
    var save := SaveState(preserved, preserveException);
    RunAppend(m0, save, [SetYieldReturnIndex(contextObject, index)]);
    RunSaveState(m0, preserved, preserveException);
    assert [SetYieldReturnIndex(contextObject, index)][1..] == [];
  }

  /** The resume switch lands on the sequence's own label, followed by the restoring code. */
  lemma ResumesAtOwnLabel(contextObject: string, preserved: seq<string>, labelPrefix: string, labelNumber: nat,
                          preserveException: bool, suspend: Instr, toName: string)
    requires IsSuspension(suspend)
    ensures var code := PreserveSequence(contextObject, preserved, LabelText(labelPrefix, labelNumber), preserveException, suspend, toName);
      var k := |SaveState(preserved, preserveException)| + 1;
      FirstWhere(code, i => i == LabelDef(ResumeLabel(labelPrefix, NatToDecimal(labelNumber)))) == Some(k + 1) &&
      code[k + 2..] == RestoreState(preserved, preserveException, toName)
  {
    var labelText := LabelText(labelPrefix, labelNumber);
    var save := SaveState(preserved, preserveException);
    var mid := [SetYieldReturnIndex(contextObject, LastComponent(labelText, '_')), suspend, LabelDef(labelText)];
    var restore := RestoreState(preserved, preserveException, toName);
    var code := PreserveSequence(contextObject, preserved, labelText, preserveException, suspend, toName);
    assert code == save + mid + restore;
    var k := |save| + 1;
    assert ResumeLabel(labelPrefix, NatToDecimal(labelNumber)) == labelText;
    forall i | 0 <= i < k + 1 ensures !code[i].LabelDef? {
      if i < |save| {
        assert code[i] == save[i];
      } else {
        assert code[i] == mid[i - |save|];
      }
    }
    assert code[k + 1] == LabelDef(labelText);
    assert code[k + 2..] == restore;
  }

  /** Suspending and resuming amounts to running the restoring code on the saved generator and the clobbered frame. */
  lemma ResumesWithSavedGenerator(contextObject: string, preserved: seq<string>, labelPrefix: string, labelNumber: nat,
                                  preserveException: bool, suspend: Instr, toName: string,
                                  m0: Machine, clobbered: Frame, sent: int)
    requires IsSuspension(suspend)
    ensures var suspended := Run(m0, SaveState(preserved, preserveException) + [SetYieldReturnIndex(contextObject, NatToDecimal(labelNumber))]);
      SuspendAndResume(PreserveSequence(contextObject, preserved, LabelText(labelPrefix, labelNumber), preserveException, suspend, toName),
                       labelPrefix, m0, clobbered, sent)
      == Some(Run(Machine(clobbered, suspended.generator.(yieldReturnValue := sent)), RestoreState(preserved, preserveException, toName)))
  {
    var labelText := LabelText(labelPrefix, labelNumber);
    var code := PreserveSequence(contextObject, preserved, labelText, preserveException, suspend, toName);
    var index := NatToDecimal(labelNumber);
    SuspendsAfterSaving(contextObject, preserved, labelText, preserveException, suspend, toName);
    ResumeIndexOfLabel(labelPrefix, labelNumber);
    StateAtSuspension(m0, preserved, preserveException, contextObject, index);
    ResumesAtOwnLabel(contextObject, preserved, labelPrefix, labelNumber, preserveException, suspend, toName);
    var k := |SaveState(preserved, preserveException)| + 1;
    var suspended := Run(m0, code[..k]);
    assert suspended.generator.resumeIndex == index;
    assert code[k + 1 + 1..] == RestoreState(preserved, preserveException, toName);
  }

  /**
    After the suspension and resume, every preserved local other than the
    target holds its value from before the suspension, every other local
    holds what the clobbered frame left, the target holds the sent value,
    and the exception is the one from before exactly when it was preserved.
  */
  lemma SuspensionRoundTrip(contextObject: string, preserved: seq<string>, labelPrefix: string, labelNumber: nat,
                            preserveException: bool, suspend: Instr, toName: string,
                            m0: Machine, clobbered: Frame, sent: int)
    requires IsSuspension(suspend)
    ensures var r := SuspendAndResume(PreserveSequence(contextObject, preserved, LabelText(labelPrefix, labelNumber), preserveException, suspend, toName),
                                      labelPrefix, m0, clobbered, sent);
      r.Some? &&
      (forall x :: x != toName ==>
        Read(r.value.frame.locals, x) == if x in preserved then Read(m0.frame.locals, x) else Read(clobbered.locals, x)) &&
      Read(r.value.frame.locals, toName) == sent &&
      r.value.frame.exception == (if preserveException then m0.frame.exception else clobbered.exception)
  {
    var index := NatToDecimal(labelNumber);
    var suspended := Run(m0, SaveState(preserved, preserveException) + [SetYieldReturnIndex(contextObject, index)]);
    var resumed := Machine(clobbered, suspended.generator.(yieldReturnValue := sent));
    ResumesWithSavedGenerator(contextObject, preserved, labelPrefix, labelNumber, preserveException, suspend, toName, m0, clobbered, sent);
    StateAtSuspension(m0, preserved, preserveException, contextObject, index);
    RunRestoreState(resumed, preserved, preserveException, toName, m0.frame.locals);
  }

  /**
    The emitted goto-mode `yield` or `yield from`, resumed through the
    generator's switch on `yield_return_<N>` labels, gives back every local
    declaration except the yielded value and the target, assigns the sent
    value to the target, and restores the exception when asked to.
  */
  lemma GotoSuspensionKeepsLocals(contextObject: string, localDecls: seq<string>, toName: string, valueName: string,
                                  preserveException: bool, suspend: Instr, labelNumber: nat,
                                  m0: Machine, clobbered: Frame, sent: int)
    requires Distinct(localDecls) && valueName in localDecls && IsSuspension(suspend)
    ensures var g := GotoSuspension(contextObject, localDecls, false, toName, valueName, preserveException, suspend, labelNumber);
      g.Some? &&
      var r := SuspendAndResume(g.value, YieldReturnPrefix, m0, clobbered, sent);
      r.Some? &&
      (forall x :: x in localDecls && x != toName && x != valueName ==> Read(r.value.frame.locals, x) == Read(m0.frame.locals, x)) &&
      Read(r.value.frame.locals, toName) == sent &&
      (preserveException ==> r.value.frame.exception == m0.frame.exception)
  {
    PreservedLocalsMeaning(localDecls, false, toName, valueName);
    var p := PreservedLocals(localDecls, false, toName, valueName).value;
    assert forall x :: x in localDecls && x != toName && x != valueName ==> x in p;
    var code := PreserveSequence(contextObject, p, LabelText(YieldReturnPrefix, labelNumber), preserveException, suspend, toName);
    assert GotoSuspension(contextObject, localDecls, false, toName, valueName, preserveException, suspend, labelNumber) == Some(code);
    SuspensionRoundTrip(contextObject, p, YieldReturnPrefix, labelNumber, preserveException, suspend, toName, m0, clobbered, sent);
  }
}
