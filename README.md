# In-process ParDo evaluator

A Dafny model of the in-process runner's ParDo evaluator, `ParDoInProcessEvaluator`. One evaluator is
created per committed input bundle. It takes the bundle's windowed values one `processElement` call
at a time. Each value is exploded into one single-window copy per window. For each copy, the
evaluator asks the side-input reader whether every referenced side input is ready in that window:

- If one is not ready, the copy is deferred unchanged to the "unprocessed" list.
- Otherwise the user function is invoked once, reading its side input in that window. What it
  emits is appended to the output bundle of the emission's destination collection. That bundle is
  created from the evaluation context on the first emission there.

`finishBundle` returns the populated output bundles, the unprocessed elements and the step's timer
update.

The model behind the evaluator's behaviour is the evaluator's test. Its scenario
`sideInputsNotReadyResultHasUnprocessedElements` uses a reader that is ready only in the global
window and a recording user function that outputs the element plus the side input's value.

Layout:

- `windowed_values.dfy` (`WindowedValues`): windows, panes, windowed values, explosion.
- `bundles.dfy` (`Bundles`): committed and uncommitted bundles, creation, append, commit.
- `side_inputs.dfy` (`SideInputs`): the side-input reader as a value of four operations, and the
  conformance requirement "ready implies readable".
- `dofns.dfy` (`DoFns`): the user function.
  - It reads one side-input view.
  - It maps (element, side value) to the emissions to the main output or to tagged additional
    outputs.
  - `None` means the user code threw.
- `evaluation.dfy` (`ParDoEvaluation`): the reference semantics as pure functions, plus the
  properties proved about them.
  - `Run` is the step-by-step state that the evaluator keeps.
  - `Deferred`, `Processed` and `Emitted` are the declarative description of that state.
  - `RunMatchesDefinitions` proves the two agree.
- `evaluator.dfy` (`ParDoInProcessEvaluators`): the evaluator as a class.
  - Fields: the output-bundle map, the first-emission order of destinations, the unprocessed
    list, and the phase.
  - Ghost traces: the elements seen, the units done, the emissions, the invocations (what the test's
    recorder collects) and the side-input reads.
  - Each method is proved against `ParDoEvaluation`.
- `fixtures.dfy` (`ReadyInGlobalWindowReader`, `RecorderFn`): the test's reader and user function.
- `scenario.dfy` (`ParDoInProcessEvaluatorTest`): the test's scenario, both as a lemma about the
  reference semantics and as a method that drives the class.

Design choices:

- The evaluator is modelled for one side-input view per user function. That is the shape of the
  test's `RecorderFn`.
- A user function that asks for a view not passed to `create` fails the bundle. So does an
  emission to a tag without a destination, and so does a throwing user function. After a failure
  the evaluator is in phase `Failed` and cannot be finished. This matches "no partial commit".
- The test compares results with `containsInAnyOrder`. The model states the order exactly:
  - unprocessed elements in deferral order;
  - bundles in the order of their destinations' first emission;
  - each bundle's elements in emission order.
- The test's three consecutive `processElement` calls are one loop over the scenario's elements
  (`ProcessElements`), so that each call is proved once.

## Model

| member | source | states |
|---|---|---|
| WindowedValues.Explode | sdk/src/test/java/com/google/cloud/dataflow/sdk/runners/inprocess/ParDoInProcessEvaluatorTest.java:112-117 | one copy per window, in window order; copy i is in exactly window i and has the element's value, timestamp and pane |
| WindowedValues.ExplodeRoundTrip | sdk/src/test/java/com/google/cloud/dataflow/sdk/runners/inprocess/ParDoInProcessEvaluatorTest.java:112-117 | explosion loses nothing: the copies' windows concatenated give back the element's window list; every copy is the same event in one of the element's windows |
| Bundles.CreateRootBundle | sdk/src/test/java/com/google/cloud/dataflow/sdk/runners/inprocess/ParDoInProcessEvaluatorTest.java:99-100 | a root bundle starts empty, bound to the given collection |
| Bundles.CreateBundle | sdk/src/test/java/com/google/cloud/dataflow/sdk/runners/inprocess/ParDoInProcessEvaluatorTest.java:101-103 | a bundle created for (input bundle, output) starts empty and is bound to the output collection |
| Bundles.CommitAfterAdds | sdk/src/test/java/com/google/cloud/dataflow/sdk/runners/inprocess/ParDoInProcessEvaluatorTest.java:131 | committing a bundle after appends yields exactly the appended values in append order, in the same collection, stamped with the commit time |
| SideInputs.Get | sdk/src/test/java/com/google/cloud/dataflow/sdk/runners/inprocess/ParDoInProcessEvaluatorTest.java:188-194 | the side input can be read only where the reader declares it ready; the read returns the reader's value there |
| ReadyInGlobalWindowReader.Facts | sdk/src/test/java/com/google/cloud/dataflow/sdk/runners/inprocess/ParDoInProcessEvaluatorTest.java:185-209 | the test reader is ready exactly in the global window; it reads 5 there and refuses every other read; it contains every view and is not empty |
| RecorderFn.Fn | sdk/src/test/java/com/google/cloud/dataflow/sdk/runners/inprocess/ParDoInProcessEvaluatorTest.java:169-182 | the recorder reads the view it was built with and emits, for any element and side value, exactly one main output: their sum as a Java `int`, wrapped to 32-bit two's complement (`Wrap32` is in range, congruent to the sum modulo 2^32, and the identity on in-range values) |
| ParDoEvaluation.Deferred | sdk/src/test/java/com/google/cloud/dataflow/sdk/runners/inprocess/ParDoInProcessEvaluatorTest.java:124-127 | deferred units are single-window units whose side inputs are not all ready in their window, never more than the units |
| ParDoEvaluation.Processed | sdk/src/test/java/com/google/cloud/dataflow/sdk/runners/inprocess/ParDoInProcessEvaluatorTest.java:129 | units handed to the user function are single-window units whose side inputs are all ready in their window |
| ParDoEvaluation.RouteAll | sdk/src/test/java/com/google/cloud/dataflow/sdk/runners/inprocess/ParDoInProcessEvaluatorTest.java:164-166 | routing succeeds iff every emission's tag has a destination; then emission i goes to its tag's destination, carrying the unit's timestamp, window and pane |
| ParDoEvaluation.RunAbortsForGood | sdk/src/test/java/com/google/cloud/dataflow/sdk/runners/inprocess/ParDoInProcessEvaluatorTest.java:179-182 | once the user function has failed on a unit, the bundle stays aborted whatever units follow |
| ParDoEvaluation.PrefixAborts | sdk/src/test/java/com/google/cloud/dataflow/sdk/runners/inprocess/ParDoInProcessEvaluatorTest.java:179-182 | a failure on the first units of an element aborts the run over the whole element |
| ParDoEvaluation.RunMatchesDefinitions | sdk/src/test/java/com/google/cloud/dataflow/sdk/runners/inprocess/ParDoInProcessEvaluatorTest.java:119-122 | the step-by-step run aborts exactly when some ready unit fails; otherwise it has deferred exactly the unready units, invoked exactly the ready ones, read the side input once per invocation in that unit's window, and emitted what the invocations emit |
| ParDoEvaluation.EvaluateOutcome | sdk/src/test/java/com/google/cloud/dataflow/sdk/runners/inprocess/ParDoInProcessEvaluatorTest.java:122-134 | the finished result is absent exactly when some ready unit fails; otherwise it holds one bundle per destination emitted to, the deferred units as unprocessed elements, and the given timer update |
| ParDoEvaluation.Units | sdk/src/test/java/com/google/cloud/dataflow/sdk/runners/inprocess/ParDoInProcessEvaluatorTest.java:112-117 | exploding the elements in order gives single-window units only |
| ParDoEvaluation.UnitsCoverElements | sdk/src/test/java/com/google/cloud/dataflow/sdk/runners/inprocess/ParDoInProcessEvaluatorTest.java:112-117 | every window of every element yields a unit: that element's copy in exactly that window |
| ParDoEvaluation.UnitsCount | sdk/src/test/java/com/google/cloud/dataflow/sdk/runners/inprocess/ParDoInProcessEvaluatorTest.java:109-117 | the elements explode into as many units as they have windows in total |
| ParDoEvaluation.UnitsComeFromElements | sdk/src/test/java/com/google/cloud/dataflow/sdk/runners/inprocess/ParDoInProcessEvaluatorTest.java:109-117 | every unit is one of the elements, with the same value, timestamp and pane, in one of its windows |
| ParDoEvaluation.Partition | sdk/src/test/java/com/google/cloud/dataflow/sdk/runners/inprocess/ParDoInProcessEvaluatorTest.java:109-134 | the deferred and the processed units together are a permutation of the units: none dropped, none duplicated |
| ParDoEvaluation.PartitionMembers | sdk/src/test/java/com/google/cloud/dataflow/sdk/runners/inprocess/ParDoInProcessEvaluatorTest.java:124-129 | a unit is deferred iff it is a unit not ready in its window, and processed iff it is a unit ready in its window |
| ParDoEvaluation.ReadsOnlyReady | sdk/src/test/java/com/google/cloud/dataflow/sdk/runners/inprocess/ParDoInProcessEvaluatorTest.java:188-193 | the side input is read once per processed unit, only at a (view, window) where the reader is ready and has a value, so the reader's refusal is never reached |
| ParDoEvaluation.EmittedFromProcessed | sdk/src/test/java/com/google/cloud/dataflow/sdk/runners/inprocess/ParDoInProcessEvaluatorTest.java:131-134 | every emitted value carries the timestamp, window and pane of a processed unit |
| ParDoEvaluation.ForDestMembers | sdk/src/test/java/com/google/cloud/dataflow/sdk/runners/inprocess/ParDoInProcessEvaluatorTest.java:131 | the values collected for a destination are exactly those emitted to it |
| ParDoEvaluation.TouchedDestinations | sdk/src/test/java/com/google/cloud/dataflow/sdk/runners/inprocess/ParDoInProcessEvaluatorTest.java:101-103 | the destinations with a bundle are distinct and are exactly those emitted to; a destination never emitted to collects nothing |
| ParDoEvaluation.BundlesHoldAllEmissions | sdk/src/test/java/com/google/cloud/dataflow/sdk/runners/inprocess/ParDoInProcessEvaluatorTest.java:128-131 | the output bundles together hold as many values as were emitted |
| ParDoEvaluation.OneBundlePerDestination | sdk/src/test/java/com/google/cloud/dataflow/sdk/runners/inprocess/ParDoInProcessEvaluatorTest.java:128-131 | one bundle per destination: distinct destinations; an emission is in the bundle of its destination; every bundle value was emitted there; no emission is lost |
| ParDoInProcessEvaluators.ParDoInProcessEvaluator.constructor | sdk/src/test/java/com/google/cloud/dataflow/sdk/runners/inprocess/ParDoInProcessEvaluatorTest.java:137-166 | `create` binds the input bundle, user function, views, reader, main and additional output tags and the tag-to-collection map, and starts processing with nothing staged |
| ParDoInProcessEvaluators.ParDoInProcessEvaluator.WindowReady | sdk/src/test/java/com/google/cloud/dataflow/sdk/runners/inprocess/ParDoInProcessEvaluatorTest.java:207-209 | the loop over the views answers true iff the reader is ready in the window for every referenced view |
| ParDoInProcessEvaluators.ParDoInProcessEvaluator.AddOutput | sdk/src/test/java/com/google/cloud/dataflow/sdk/runners/inprocess/ParDoInProcessEvaluatorTest.java:101-103 | appending to a destination creates its bundle only on the first emission there; every bundle keeps holding exactly what was emitted to its destination |
| ParDoInProcessEvaluators.ParDoInProcessEvaluator.EmitAll | sdk/src/test/java/com/google/cloud/dataflow/sdk/runners/inprocess/ParDoInProcessEvaluatorTest.java:181 | the emissions of one invocation are staged in order; this succeeds iff every emission has a destination, and then the staged emissions are the routed ones |
| ParDoInProcessEvaluators.ParDoInProcessEvaluator.ProcessUnit | sdk/src/test/java/com/google/cloud/dataflow/sdk/runners/inprocess/ParDoInProcessEvaluatorTest.java:179-181 | evaluating one unit keeps the state equal to the reference run over the units done; the evaluator fails exactly when the run aborts |
| ParDoInProcessEvaluators.ParDoInProcessEvaluator.Defer | sdk/src/test/java/com/google/cloud/dataflow/sdk/runners/inprocess/ParDoInProcessEvaluatorTest.java:124-127 | a unit not ready in its window joins the unprocessed elements; the reference run over the units done so far, plus it, does not abort |
| ParDoInProcessEvaluators.ParDoInProcessEvaluator.Invoke | sdk/src/test/java/com/google/cloud/dataflow/sdk/runners/inprocess/ParDoInProcessEvaluatorTest.java:179-181 | a ready unit is read, invoked and emitted; the state stays equal to the reference run, and the evaluator fails exactly when that run aborts |
| ParDoInProcessEvaluators.ParDoInProcessEvaluator.ProcessUnits | sdk/src/test/java/com/google/cloud/dataflow/sdk/runners/inprocess/ParDoInProcessEvaluatorTest.java:119-121 | the units of one element are evaluated in window order; the evaluator fails exactly when the reference run over them aborts |
| ParDoInProcessEvaluators.ParDoInProcessEvaluator.ProcessElement | sdk/src/test/java/com/google/cloud/dataflow/sdk/runners/inprocess/ParDoInProcessEvaluatorTest.java:119-121 | `processElement` keeps the state equal to the reference semantics of the elements seen; it fails exactly when the reference semantics aborts |
| ParDoInProcessEvaluators.ParDoInProcessEvaluator.FinishBundle | sdk/src/test/java/com/google/cloud/dataflow/sdk/runners/inprocess/ParDoInProcessEvaluatorTest.java:122 | `finishBundle` moves to Finished and returns exactly the reference result of the elements seen, with the timer update taken at finish |
| ParDoInProcessEvaluators.ParDoInProcessEvaluator.OutputBundles | sdk/src/test/java/com/google/cloud/dataflow/sdk/runners/inprocess/ParDoInProcessEvaluatorTest.java:128-131 | the loop over the destinations in first-emission order gives one bundle per destination, holding exactly what was emitted there |
| ParDoInProcessEvaluatorTest.ScenarioExplode | sdk/src/test/java/com/google/cloud/dataflow/sdk/runners/inprocess/ParDoInProcessEvaluatorTest.java:109-117 | the first and second elements are one unit each; the third explodes into its non-global copy, then its global copy |
| ParDoInProcessEvaluatorTest.ScenarioUnits | sdk/src/test/java/com/google/cloud/dataflow/sdk/runners/inprocess/ParDoInProcessEvaluatorTest.java:109-121 | the three elements explode into four units, in order |
| ParDoInProcessEvaluatorTest.ScenarioUnitResults | sdk/src/test/java/com/google/cloud/dataflow/sdk/runners/inprocess/ParDoInProcessEvaluatorTest.java:179-190 | the side input is ready in the global window and not in the non-global one; a global-window unit emits its value + 5, as a wrapped Java `int`, to the output collection |
| ParDoInProcessEvaluatorTest.ScenarioRun | sdk/src/test/java/com/google/cloud/dataflow/sdk/runners/inprocess/ParDoInProcessEvaluatorTest.java:119-134 | the run over the scenario never aborts; it defers the second element and the third's non-global copy, invokes the function on the first element and the third's global copy, reads the side input twice in the global window, and emits 8 and 6 |
| ParDoInProcessEvaluatorTest.ScenarioPrefixes | sdk/src/test/java/com/google/cloud/dataflow/sdk/runners/inprocess/ParDoInProcessEvaluatorTest.java:119-121 | none of the three `processElement` calls makes the run abort |
| ParDoInProcessEvaluatorTest.RecordedValues | sdk/src/test/java/com/google/cloud/dataflow/sdk/runners/inprocess/ParDoInProcessEvaluatorTest.java:129 | the reference run over the scenario invokes the recorder on the first element and the third's global copy, in that order, so the recorded values are 3 and 1 |
| ParDoInProcessEvaluatorTest.ScenarioEvaluation | sdk/src/test/java/com/google/cloud/dataflow/sdk/runners/inprocess/ParDoInProcessEvaluatorTest.java:124-134 | the scenario's result has one bundle, for the output collection, holding 8 (first element's timestamp, global window) and 6 at 2468 in the global window. The unprocessed elements are the second element and the third's non-global copy (value 1, timestamp 2468, no firing). The timer update is empty |
| ParDoInProcessEvaluatorTest.NewTestEvaluator | sdk/src/test/java/com/google/cloud/dataflow/sdk/runners/inprocess/ParDoInProcessEvaluatorTest.java:137-166 | `createEvaluator` yields a fresh, processing evaluator with the test's configuration and nothing seen |
| ParDoInProcessEvaluatorTest.ProcessElements | sdk/src/test/java/com/google/cloud/dataflow/sdk/runners/inprocess/ParDoInProcessEvaluatorTest.java:119-121 | handing the evaluator elements in order, none of whose prefixes makes the reference run abort, leaves it processing with exactly those elements seen |
| ParDoInProcessEvaluatorTest.SideInputsNotReadyResultHasUnprocessedElements | sdk/src/test/java/com/google/cloud/dataflow/sdk/runners/inprocess/ParDoInProcessEvaluatorTest.java:91-134 | driving the evaluator through the scenario gives exactly the expected result; committing its only bundle gives 8 and 6 in the output collection at the second clock reading; the recorder saw 3 and 1 |

## Left out

- Counters, the state sampler and the execution/step contexts are left out. The step context is
  represented only by the timer update handed to `FinishBundle`, which the scenario sets to the
  empty update.
- Mock stubbing, matchers and pipeline construction (`TestPipeline`, `Create`, `View`, `Window`,
  `ParDo.of`) are test harness, not evaluator logic. Collections, views and tags are plain numbers.
- Wall-clock time is not modelled. The test's two `Instant.now()` readings, for the input
  bundle's commit and the output bundle's commit, are the parameters `inputCommitTime` and
  `outputCommitTime`.
- `WindowedValue.valueInGlobalWindow` uses the SDK's minimum timestamp, which is not part of this
  model. The scenario is proved for any value of that timestamp.
- Bundles.Commit: bundles are plain values with no committed mark, so committing the same
  uncommitted bundle twice is not refused. An append to an uncommitted bundle after it has been
  committed is not refused either; only the committed value, a separate type with no `Add`,
  cannot change. The evaluator never commits a bundle, and
  the test commits each bundle once (the input bundle at line 100, the output bundle at line 131).
- Bundle provenance and identity are not modelled. `createBundle`'s link to its input bundle is
  not kept. The test checks that the result contains the very bundle object the context returned;
  the model checks the bundle's collection and contents instead.
- A user function reads exactly one side-input view. User functions that read no side input, or
  several, are not modelled.
- The reader's `contains` and `isEmpty` appear in the model of the reader, but the evaluator never
  consults them; nothing in the test shows them in use.
- The reader's failure on an unready `get` is modelled as an absent value. The evaluator never
  reaches it because `Get` requires readiness.
- ParDoInProcessEvaluator.java is not part of this model. The evaluator's behaviour is the one
  its test exercises.
- The additional output tags (`sideOutputs`) are bound by the constructor but never consulted:
  an emission is routed through the tag-to-collection map alone, and the test passes no
  additional tags.
- The CREATED state is folded into the constructor, which starts the bundle.
- Element and output types are integers. Generic payloads, coders and casts are not modelled.
  The only arithmetic in the core, the recorder's `int` sum, is wrapped to 32 bits explicitly.
- The shared static `RecorderFn.processed` list is the evaluator's ghost `invoked` trace rather
  than a mutable field of the user function.
- Concurrency between evaluator instances is not modelled; each instance is single-threaded.
- Elements with no window explode into no units and so are neither processed nor deferred. The
  test never supplies one.
