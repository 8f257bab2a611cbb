# Nuitka: dict-display unpacking and yield code generation, modelled in Dafny

This project models two pieces of the Nuitka Python compiler and proves
properties of them.

**Dictionary-display reformulation** (`nuitka/tree/ReformulationDictionaryCreation.py`).
A display such as `{**a, "k": v, **b}` is lowered either to a plain
dict-creation node or, on Python 3.5 and later when some key is absent (a
`**` entry), to a call of the internal helper `_unpack_dict(*args)`. The helper
is built once and shared. The model covers:

- the node tree of the call site and of the helper (`DictTree`, `DictCreation`);
- the memoised helper, as a cache class whose single helper body is a
  `FunctionBody` object, so "the same body" means object identity;
- a big-step interpreter for the helper's statement tree (`HelperInterp`);
- the Python meaning of a display, as a fold over abstract operands
  (`DictSemantics`);
- proofs that running the built helper on the built arguments gives exactly
  the display's meaning: the same dict or the same exception, with the
  helper's temporaries released (`UnpackHelperMeaning`).

**Yield code generation** (`nuitka/codegen/YieldCodes.py`). `yield` and
`yield from` are emitted either as a call to one of the runtime suspension
primitives, or, in `generator_goto` mode, as an inline sequence. The inline
sequence saves the live locals to the `yield_tmps` heap buffer, records a
resume index, returns, and after a resume label restores them. The model
includes:

- the code-generation context as a class: the cleanup set, the label
  counter, the top-level declarations, the local declarations, and an
  append-only list of abstract instructions (`CodegenContext`);
- the three generator functions as methods, each proved against a
  specification function (`YieldCodes`);
- a small machine that runs the emitted instructions across a suspension
  whose C frame is clobbered. It proves that every preserved local, the
  exception and the sent value come back as intended (`YieldResume`).

The goto-mode step that narrows the preserved locals follows the code. It
drops only the target and, when the yielded value has no pending release,
the yielded value itself. Other temporaries without a pending release are
still preserved. A broader "every non-owning temporary" reading of this step
is not what `YieldCodes.py:39-44` does.

Files: `wrappers.dfy` (Option, Result), `dict_semantics.dfy`, `dict_tree.dfy`,
`helper_interp.dfy`, `dict_creation.dfy`, `unpack_helper_meaning.dfy`,
`codegen_context.dfy`, `yield_codes.dfy`, `yield_resume.dfy`.

## Model

| member | source | states |
|---|---|---|
| DictCreation.BuildDictionaryNode | nuitka/tree/ReformulationDictionaryCreation.py:86-101 | The helper call is built exactly when the version is at least 3.5 and some key is absent. Otherwise the result is the dict-creation node over the built key and value lists, and the helper cache is untouched. |
| DictCreation.DictionaryNodeHelperUse | nuitka/tree/ReformulationDictionaryCreation.py:86-101 | Only the unpacking path involves the helper. Its call refers to the helper body, while the dict-creation node of the other path refers to no function body anywhere inside it. |
| DictCreation.BuildDictionaryUnpacking | nuitka/tree/ReformulationDictionaryCreation.py:282-330 | The loop over the pairs builds exactly UnpackingCall over the memoised helper. The helper is created on first use and otherwise kept. |
| DictCreation.UnpackingCall | nuitka/tree/ReformulationDictionaryCreation.py:283-328 | The result is a call of a function creation of the helper, with one argument: a tuple with one element per pair, in order. A `**` entry gives the built value; a `key: value` entry gives a one-pair dict. The compatible reference is the last element's. |
| DictCreation.UnpackingCallSourceRef | nuitka/tree/ReformulationDictionaryCreation.py:328 | Diagnostics point at the last `**` operand when the last entry is one, otherwise at the display. |
| DictCreation.UnpackingHelperCache.GetDictUnpackingHelper | nuitka/tree/ReformulationDictionaryCreation.py:103-121 | The result is a well-formed `_unpack_dict` body: star-arg `args`, no normal args, no `**` arg, no defaults, temporaries `dict`/`iter`/`keys`. A later call returns the very same object; only the first call allocates. |
| DictCreation.MakeDictUnpackingHelper | nuitka/tree/ReformulationDictionaryCreation.py:104-279 | A fresh body whose name, parameters, temporaries and statement tree are those of the helper. |
| DictCreation.UnpackHelperStatements | nuitka/tree/ReformulationDictionaryCreation.py:213-277 | The body is one try/finally. Its final block releases exactly the three temporaries and does nothing else. Its tried block ends with `return dict`. |
| DictTree.FunctionBody.AllocateTempVariable | nuitka/tree/ReformulationDictionaryCreation.py:125-127 | The temporary is appended to the body's temporaries and returned. |
| DictTree.FunctionBody.SetBody | nuitka/tree/ReformulationDictionaryCreation.py:268-277 | The body becomes the given statements. |
| DictSemantics.LaterKeysOverwrite | nuitka/tree/ReformulationDictionaryCreation.py:151-165 | When every operand is a mapping, the helper succeeds. A key is in the result iff some pair has it, and it maps to the value of the last such pair over all operands in order. |
| DictSemantics.UnpackAllMappings | nuitka/tree/ReformulationDictionaryCreation.py:129-165 | Over mappings, the fold equals storing all pairs left to right. |
| DictSemantics.MergePairsLookup | nuitka/tree/ReformulationDictionaryCreation.py:153-163 | `update` with a pair list: a key's value is the last pair's, or the old one when no pair has the key. |
| DictSemantics.UnpackFailsIffNonMapping | nuitka/tree/ReformulationDictionaryCreation.py:151-206 | The helper raises iff some operand is not a mapping. |
| DictSemantics.UnpackFirstFailure | nuitka/tree/ReformulationDictionaryCreation.py:151-206 | The exception raised is the one for the first operand that is not a mapping, so later operands are never merged. An object without `keys` gives exactly `TypeError("'<type name>' object is not a mapping")`. An update raising an instance of AttributeError gives the same TypeError; any other exception propagates unchanged. |
| DictSemantics.AttributeErrorSubclassExample | nuitka/tree/ReformulationDictionaryCreation.py:151-206 | An update raising a subclass of AttributeError is caught by the `AttributeError` handler and reported as not a mapping. An update raising an unrelated exception propagates it, before a later non-mapping is reached. |
| DictSemantics.OverwriteExample | nuitka/tree/ReformulationDictionaryCreation.py:151-165 | `{**{"a": 1}, "b": 2, **{"a": 3}}` is `{"a": 3, "b": 2}`. |
| DictSemantics.NonMappingExample | nuitka/tree/ReformulationDictionaryCreation.py:166-204 | `{**5}` raises `TypeError("'int' object is not a mapping")`. |
| DictSemantics.HelperOperand | nuitka/tree/ReformulationDictionaryCreation.py:294-305 | A `key: value` entry becomes a mapping that stores exactly that one key. |
| DictSemantics.ReformulationPreservesMeaning | nuitka/tree/ReformulationDictionaryCreation.py:282-306 | Folding the per-entry helper operands gives what evaluating the display entry by entry gives: the same dict or the same exception. |
| UnpackHelperMeaning.FormatNotAMapping | nuitka/tree/ReformulationDictionaryCreation.py:171-196 | `"'%s' object is not a mapping" % (t,)` is the message for type name `t`. |
| UnpackHelperMeaning.NextItemStep | nuitka/tree/ReformulationDictionaryCreation.py:129-150 | `next(iter)` under the StopIteration handler breaks the loop on an exhausted iterator. Otherwise it binds the next item and advances. |
| UnpackHelperMeaning.RaiseStep | nuitka/tree/ReformulationDictionaryCreation.py:167-204 | The raise statement raises the "not a mapping" TypeError for the item's type name. |
| UnpackHelperMeaning.MergeStep | nuitka/tree/ReformulationDictionaryCreation.py:151-206 | The guarded update merges a mapping into the result. It turns an instance of AttributeError (the class or a subclass) into the TypeError and propagates anything else. |
| UnpackHelperMeaning.LoopBodyStep | nuitka/tree/ReformulationDictionaryCreation.py:129-207 | One iteration: break when no item is left, otherwise fetch one operand and merge it. |
| UnpackHelperMeaning.LoopMeaning | nuitka/tree/ReformulationDictionaryCreation.py:129-207 | The loop ends normally with the fold's dict in `dict`, or raises the fold's exception. Variables other than the three temporaries are unchanged. |
| UnpackHelperMeaning.SetupStep | nuitka/tree/ReformulationDictionaryCreation.py:228-254 | `iter = iter(args)` and `dict = {}` come before the loop. |
| UnpackHelperMeaning.LoopThenReturn | nuitka/tree/ReformulationDictionaryCreation.py:255-265 | The loop followed by `return dict` ends with the fold's outcome. |
| UnpackHelperMeaning.TriedMeaning | nuitka/tree/ReformulationDictionaryCreation.py:228-266 | The tried block ends as the fold does. It touches only the three temporaries. |
| UnpackHelperMeaning.FinalMeaning | nuitka/tree/ReformulationDictionaryCreation.py:213-226 | The final block releases exactly `dict`, `iter` and `keys`. |
| UnpackHelperMeaning.HelperBodyMeaning | nuitka/tree/ReformulationDictionaryCreation.py:268-277 | The whole body returns the fold's dict or raises its exception. The frame afterwards is the frame on entry, with all temporaries released, on every exit path. |
| UnpackHelperMeaning.DictUnpackingHelperMeaning | nuitka/tree/ReformulationDictionaryCreation.py:103-279 | The same for the body the helper getter builds. |
| UnpackHelperMeaning.EvalEntriesAllOk | nuitka/tree/ReformulationDictionaryCreation.py:285-306 | When no entry raises, the display's evaluated entries are the entries' values, in order. |
| UnpackHelperMeaning.EvalEntriesFirstFailure | nuitka/tree/ReformulationDictionaryCreation.py:285-306 | When an entry raises, the display's evaluation raises the first such entry's exception. |
| UnpackHelperMeaning.ArgValuesOfHelperArgs | nuitka/tree/ReformulationDictionaryCreation.py:285-324 | Building the helper's argument tuple, its elements evaluated left to right (a one-pair dict evaluates key, then value), gives the helper operands of the display's evaluated entries. Otherwise it raises the exception of the display's first raising entry. |
| UnpackHelperMeaning.UnpackingCallMeaning | nuitka/tree/ReformulationDictionaryCreation.py:282-330 | End to end, the built call ends exactly as the display does. If building the argument tuple raises, that is the display's exception, from its first raising entry. Otherwise the helper run on the tuple returns the display's dict or raises its exception, and leaves its frame as it was. |
| CodegenContext.Context.AllocateLabel | nuitka/codegen/YieldCodes.py:32 | The label is `yield_return_<n>` for the new counter value. It differs from every label numbered by an earlier counter value, so no two allocations share a label. |
| CodegenContext.NatToDecimal | nuitka/codegen/YieldCodes.py:33 | A label number renders as a non-empty string of decimal digits; DecimalRoundTrip gives that the digits denote the number. |
| CodegenContext.DecimalRoundTrip | nuitka/codegen/YieldCodes.py:33 | The decimal text of a label number reads back as that number. |
| CodegenContext.LabelTextInjective | nuitka/codegen/YieldCodes.py:32 | Two labels with the same prefix are equal only if their numbers are. |
| CodegenContext.LastComponentIsLastSegment | nuitka/codegen/YieldCodes.py:33 | `split('_')[-1]` is the suffix after the last `_`, holding no `_`. |
| CodegenContext.LastComponentAfterSeparator | nuitka/codegen/YieldCodes.py:33 | The last component of `p + "_" + d` is `d` when `d` has no `_`. |
| CodegenContext.ResumeIndexOfLabel | nuitka/codegen/YieldCodes.py:32-33 | The resume index taken from label `yield_return_<n>` is the decimal text of `n`. |
| CodegenContext.FindDecl | nuitka/codegen/YieldCodes.py:47 | Looking up a top-level declaration finds one iff a declaration of that name exists. |
| CodegenContext.Context.AddVariableDeclarationTop | nuitka/codegen/YieldCodes.py:50-54 | Appends the declaration. Names stay distinct. |
| CodegenContext.Context.RemoveCleanupTempName | nuitka/codegen/YieldCodes.py:127-128 | The name leaves the cleanup set. |
| CodegenContext.Context.AddCleanupTempName | nuitka/codegen/YieldCodes.py:207-208 | The name joins the cleanup set. |
| CodegenContext.Context.Emit | nuitka/codegen/YieldCodes.py:56-113 | The instruction is appended to the code. |
| YieldCodes.RemoveFirst | nuitka/codegen/YieldCodes.py:40 | `list.remove` shortens the list by one. |
| YieldCodes.RemoveFirstCounts | nuitka/codegen/YieldCodes.py:40 | `list.remove(x)` takes away one occurrence of `x` and nothing else, as a multiset. |
| YieldCodes.RemoveFirstDistinct | nuitka/codegen/YieldCodes.py:40-44 | On a repetition-free list, `remove(x)` removes every `x`. |
| YieldCodes.PreservedLocalsMeaning | nuitka/codegen/YieldCodes.py:35-44 | The narrowing succeeds iff the value needs cleanup or is a local. The preserved list is the locals in order, minus the target and, unless the value needs cleanup, minus the value. It has no repetitions. |
| YieldCodes.LocalsToPreserve | nuitka/codegen/YieldCodes.py:35-44 | The method computes PreservedLocals from the context, with None where `remove` raises ValueError. |
| YieldCodes.WithYieldTmpsDeclaresOnce | nuitka/codegen/YieldCodes.py:46-54 | Requesting the buffer declares `yield_tmps` at most once. It is present afterwards when locals are preserved, and the declarations are unchanged otherwise or when it already exists. |
| YieldCodes.DeclarePreservationBuffer | nuitka/codegen/YieldCodes.py:46-54 | The declarations become WithYieldTmps of the old ones. The storage returned is `yield_tmps`. |
| YieldCodes.PreserveSequenceOrder | nuitka/codegen/YieldCodes.py:56-113 | The goto sequence visits its phases strictly in order: preserve, save exception, set index, suspend, label, restore, assign, restore exception. |
| YieldCodes.PreserveSequenceContents | nuitka/codegen/YieldCodes.py:56-113 | Exactly which instructions the goto sequence holds. |
| YieldCodes.PreserveSequenceRestoresWhatItSaves | nuitka/codegen/YieldCodes.py:46-113 | Preserve and restore appear iff some local is preserved, with the same buffer and the same locals in the same order. The exception save appears iff its restore appears, iff `preserve_exception`. |
| YieldCodes.PreserveSequenceResumeIndex | nuitka/codegen/YieldCodes.py:32-33 | The stored index is the decimal number of the label emitted after the suspension. The target is assigned. |
| YieldCodes.EmitSaveState | nuitka/codegen/YieldCodes.py:46-72 | Appends the save part of the sequence. |
| YieldCodes.EmitRestoreState | nuitka/codegen/YieldCodes.py:90-113 | Appends the restore part of the sequence. |
| YieldCodes.EmitSuspension | nuitka/codegen/YieldCodes.py:56-113 | Appends the whole goto sequence for the given label. |
| YieldCodes.GetYieldPreserveCode | nuitka/codegen/YieldCodes.py:30-113 | The counter moves by one. Success iff the narrowing does not raise. On success the code grows by GotoSuspension and the buffer is declared as WithYieldTmps; on failure nothing is emitted or declared. Cleanup and locals are untouched. |
| YieldCodes.CallModeSuspension | nuitka/codegen/YieldCodes.py:143-155 | Call mode is one call of `YIELD`, or `YIELD_IN_HANDLER` when the exception is preserved; the same for `YIELD_FROM`/`YIELD_FROM_IN_HANDLER`. |
| YieldCodes.GotoModeSuspension | nuitka/codegen/YieldCodes.py:130-142 | Goto mode, entered with the value released, succeeds iff the value is a local. It calls no primitive and preserves the locals minus value and target. |
| YieldCodes.GenerateYieldCode | nuitka/codegen/YieldCodes.py:116-165 | The value leaves cleanup and the target never enters it. The code is child expression, reference export, the mode's suspension, then the error exit on the target with no release. The label counter moves only in goto mode. A successful goto mode declares the `yield_tmps` buffer as WithYieldTmps for the preserved locals; otherwise the declarations are unchanged. |
| YieldCodes.GenerateYieldFromCode | nuitka/codegen/YieldCodes.py:168-229 | Goto mode releases the value and emits the goto sequence and a plain error exit. Call mode keeps the value for cleanup and releases it on the error exit. On success the target needs cleanup in both modes. A successful goto mode declares the `yield_tmps` buffer as WithYieldTmps for the preserved locals; otherwise the declarations are unchanged. |
| YieldResume.RestoreSnapshot | nuitka/codegen/YieldCodes.py:56-104 | Restoring a snapshot of the named locals gives back exactly those locals and leaves the rest alone. |
| YieldResume.RunSaveState | nuitka/codegen/YieldCodes.py:56-72 | The save part copies the locals to the heap and the exception to the generator, leaving the frame alone. |
| YieldResume.RunRestoreState | nuitka/codegen/YieldCodes.py:90-113 | The restore part brings back the saved locals, assigns the sent value to the target, and restores the exception when asked to. |
| YieldResume.SuspendsAfterSaving | nuitka/codegen/YieldCodes.py:56-82 | The first suspension of the goto sequence comes right after the save part and the index store. |
| YieldResume.StateAtSuspension | nuitka/codegen/YieldCodes.py:56-80 | At the suspension the generator holds the snapshot, the exception and the resume index. |
| YieldResume.ResumesAtOwnLabel | nuitka/codegen/YieldCodes.py:74-113 | The resume switch lands on the sequence's own label, followed by the restore part. |
| YieldResume.ResumesWithSavedGenerator | nuitka/codegen/YieldCodes.py:74-113 | Suspending and resuming is running the restore part on the saved generator and the clobbered frame. |
| YieldResume.SuspensionRoundTrip | nuitka/codegen/YieldCodes.py:56-113 | After a suspension that clobbers the frame, each preserved local holds its value from before, other locals hold what the clobbered frame left, the target holds the sent value, and the exception is the earlier one exactly when it was preserved. |
| YieldResume.GotoSuspensionKeepsLocals | nuitka/codegen/YieldCodes.py:35-113 | Across a goto-mode `yield`/`yield from`, every local other than the value and the target survives. The target receives the sent value, and the exception survives when preserved. |

## Left out

- Dict insertion order: a Python dict is a `map`, so the order of keys in the result is not modelled. Overwrite order and the first failure are modelled, both for evaluation and for merging.
- UnpackHelperMeaning.ArgValuesOfHelperArgs: evaluating a user expression either gives a value or raises; any other effect of it, and any effect of a mapping's `keys`/`__getitem__`, is not modelled. Within a `key: value` pair the key is evaluated before the value, as in Python 3.5; the evaluation order of ExpressionKeyValuePair is not part of this model.
- Exception classes: each exception carries the set of its class's base classes, and a handler catches instances of subclasses. The built-in exceptions the helper makes (TypeError) or meets (AttributeError from a missing `keys`, StopIteration) derive directly from Exception.
- `buildNode` and `buildNodeList` on user syntax: a user expression becomes the opaque `Built` node. `makeDictCreationOrConstant` becomes one node kind; its constant folding is not part of this model.
- The provider, `getInternalModule` and the full source-reference objects: a source reference is `Internal` or a file and line.
- `python_version` and `Options.isExperimental("generator_goto")` are parameters of the operations. `expression.isExceptionPreserving()` is the `preserveException` parameter.
- The parser guarantees that keys and values have the same length (`zip` at line 285 relies on it): this is a precondition. For versions before 3.5 every key is present: this is a precondition too, because the parser produces no `**` entries there.
- Python runtime values beyond "mapping (its key/value pairs), non-mapping (its type name), or an operand whose `update` raises some exception". Keys are strings and objects are integers.
- `%` formatting is modelled only for a format with a single `%s`, which is the only one the helper uses.
- Fuel: the helper interpreter takes a fuel bound. The meaning lemmas require fuel above the number of arguments, which is enough for the helper's single loop.
- The C text of every emitted statement, `c_type`/`sizeof`, the `char[1024]` size of `yield_tmps` and whether the preserved locals fit in it: these are abstract instructions.
- `generateChildExpressionsCode`, `getReferenceExportCode` and `getErrorExitCode`: each is one abstract instruction. CodeHelpers, PythonAPICodes and ErrorCodes are not part of this model.
- `allocateLabel` and the variable storage of the context: labels come from one counter as `yield_return_<n>`. PythonContexts and VariableDeclarations are not part of this model. It is not modelled whether `getLocalPreservationDeclarations` returns the context's own list (so that `remove` would alter it) or a copy. The model treats it as a copy.
- The ValueError that `list.remove` raises in goto mode ends the generator function: the methods return `ok == false` at that point, having emitted the child expression and the export.
- YieldResume: locals are integers, and a local never assigned reads as 0. The C resume switch is modelled as "jump to label `yield_return_<index>`". The suspended frame is arbitrary; resumption by an injected exception is not modelled.
- Liveness: which locals are actually live across a suspension is not modelled. The model states what the code preserves, not whether that is enough for an arbitrary function body.
