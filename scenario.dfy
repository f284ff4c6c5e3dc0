/**
 * The evaluator test's scenario: a user function reading a singleton side
 * input that is ready only in the global window, three elements in the
 * global window, a non-global window and both, and one main output.
 */
module ParDoInProcessEvaluatorTest {
  import opened Options
  import opened WindowedValues
  import opened Bundles
  import opened SideInputs
  import opened DoFns
  import opened ParDoEvaluation
  import opened ParDoInProcessEvaluators
  import ReadyInGlobalWindowReader
  import RecorderFn

  const SingletonView: View := 0
  const MainOutputTag: Tag := 0
  const InputCollection: CollectionId := 0
  const OutputCollection: CollectionId := 1
  const NonGlobalWindow: Window := IntervalWindow(0, 10_000)

  function TestConfig(): Config
  {
    Config(RecorderFn.Fn(SingletonView), [SingletonView], ReadyInGlobalWindowReader.Reader(),
           MainOutputTag, [], map[MainOutputTag := OutputCollection])
  }

  /** 3 in the global window; `ts` is the SDK's default timestamp, whose value the scenario does not depend on. */
  function First(ts: Instant): Elem
  {
    WindowedValue(3, ts, [GlobalWindow], NoFiring)
  }

  function Second(): Elem
  {
    WindowedValue(2, 1234, [NonGlobalWindow], NoFiring)
  }

  function Third(): Elem
  {
    WindowedValue(1, 2468, [NonGlobalWindow, GlobalWindow], NoFiring)
  }

  /** The bundle the output is expected to hold once committed. */
  function ExpectedOutput(ts: Instant): seq<Elem>
  {
    [First(ts).WithValue(8), TimestampedValueInGlobalWindow(6, 2468)]
  }

  function ExpectedUnprocessed(): seq<Elem>
  {
    [Second(), Third().(windows := [NonGlobalWindow])]
  }

  /** Each element is one unit per window: the third explodes into its non-global and its global unit, in that order. */
  lemma ScenarioExplode(ts: Instant)
    ensures Explode(First(ts)) == [First(ts)]
    ensures Explode(Second()) == [Second()]
    ensures Explode(Third()) == [Third().(windows := [NonGlobalWindow]), Third().(windows := [GlobalWindow])]
  {
    var t := Third();
    assert t.(windows := t.windows[1..]).(windows := [GlobalWindow]) == t.(windows := [GlobalWindow]);
  }

  lemma ScenarioUnits(ts: Instant)
    ensures Units([First(ts)]) == [First(ts)]
    ensures Units([First(ts), Second()]) == [First(ts), Second()]
    ensures Units([First(ts), Second(), Third()]) ==
      [First(ts), Second(), Third().(windows := [NonGlobalWindow]), Third().(windows := [GlobalWindow])]
  {
    var f, s, t := First(ts), Second(), Third();
    ScenarioExplode(ts);
    var none: seq<Elem> := [];
    UnitsAppend(none, f);
    assert none + [f] == [f];
    UnitsAppend([f], s);
    assert [f] + [s] == [f, s];
    UnitsAppend([f, s], t);
    assert [f, s] + [t] == [f, s, t];
  }

  /** The side input is ready in the global window only; there the recorder emits its element plus 5, as a Java `int`, to the output. */
  lemma ScenarioUnitResults(u: Elem)
    requires u.windows == [GlobalWindow]
    ensures Conforming(TestConfig().reader)
    ensures Ready(TestConfig(), GlobalWindow) && !Ready(TestConfig(), NonGlobalWindow)
    ensures UnitResult(TestConfig(), u) == Some([(OutputCollection, u.WithValue(RecorderFn.Wrap32(u.value + 5)))])
  {
    ReadyInGlobalWindowReader.Facts();
    var cfg := TestConfig();
    assert !cfg.reader.isReady(SingletonView, NonGlobalWindow);
    assert SideValue(cfg, GlobalWindow) == 5;
    var ems := [Output(RecorderFn.Wrap32(u.value + 5))];
    assert cfg.fn.processElement(u.value, 5) == Some(ems);
    assert Route(cfg, ems[0]) == Some(OutputCollection);
    var r := RouteAll(cfg, u, ems).value;
    var expected: seq<Routed> := [(OutputCollection, u.WithValue(RecorderFn.Wrap32(u.value + 5)))];
    assert |r| == 1 && r[0] == expected[0];
    assert r == expected;
    assert RouteAll(cfg, u, ems) == Some([(OutputCollection, u.WithValue(RecorderFn.Wrap32(u.value + 5)))]);
  }

  /**
   * The first two units of the scenario's shape: a global-window unit is
   * invoked, then a non-global one is deferred.
   */
  lemma RunOverFirstUnits(cfg: Config, f: Elem, s: Elem)
    requires Conforming(cfg.reader) && Ready(cfg, GlobalWindow) && !Ready(cfg, NonGlobalWindow)
    requires f.windows == [GlobalWindow] && s.windows == [NonGlobalWindow] && UnitResult(cfg, f).Some?
    ensures Singles([f, s])
    ensures Run(cfg, [f]).Some?
    ensures Run(cfg, [f, s]) == Some(EvalState([s], [f], [(cfg.fn.view, GlobalWindow)], UnitResult(cfg, f).value))
  {
    RunOneUnit(cfg, f);
    var e, r := UnitResult(cfg, f).value, (cfg.fn.view, GlobalWindow);
    assert [] + [f] == [f] && [] + [r] == [r] && [] + e == e;
    RunDefers(cfg, [f], s, EvalState([], [f], [r], e));
    assert [f] + [s] == [f, s] && [] + [s] == [s];
  }

  /** A third unit outside the global window is deferred too. */
  lemma RunOverThreeUnits(cfg: Config, f: Elem, s: Elem, tn: Elem)
    requires Conforming(cfg.reader) && Ready(cfg, GlobalWindow) && !Ready(cfg, NonGlobalWindow)
    requires f.windows == [GlobalWindow] && s.windows == [NonGlobalWindow] && tn.windows == [NonGlobalWindow]
    requires UnitResult(cfg, f).Some?
    ensures Singles([f, s, tn])
    ensures Run(cfg, [f]).Some? && Run(cfg, [f, s]).Some?
    ensures Run(cfg, [f, s, tn]) == Some(EvalState([s, tn], [f], [(cfg.fn.view, GlobalWindow)], UnitResult(cfg, f).value))
  {
    RunOverFirstUnits(cfg, f, s);
    RunDefers(cfg, [f, s], tn, EvalState([s], [f], [(cfg.fn.view, GlobalWindow)], UnitResult(cfg, f).value));
    assert [f, s] + [tn] == [f, s, tn] && [s] + [tn] == [s, tn];
  }

  /**
   * The run over four units shaped like the scenario's: with the side input
   * ready in the global window only, the global-window units are invoked
   * and the others deferred, and the run never aborts.
   */
  lemma RunOverScenarioUnits(cfg: Config, f: Elem, s: Elem, tn: Elem, tg: Elem)
    requires Conforming(cfg.reader) && Ready(cfg, GlobalWindow) && !Ready(cfg, NonGlobalWindow)
    requires f.windows == [GlobalWindow] && tg.windows == [GlobalWindow]
    requires s.windows == [NonGlobalWindow] && tn.windows == [NonGlobalWindow]
    requires UnitResult(cfg, f).Some? && UnitResult(cfg, tg).Some?
    ensures Singles([f, s, tn, tg])
    ensures Run(cfg, [f]).Some? && Run(cfg, [f, s]).Some?
    ensures Run(cfg, [f, s, tn, tg]) == Some(EvalState([s, tn], [f, tg],
      [(cfg.fn.view, GlobalWindow), (cfg.fn.view, GlobalWindow)], UnitResult(cfg, f).value + UnitResult(cfg, tg).value))
  {
    RunOverThreeUnits(cfg, f, s, tn);
    var e, r := UnitResult(cfg, f).value, (cfg.fn.view, GlobalWindow);
    RunInvokes(cfg, [f, s, tn], tg, EvalState([s, tn], [f], [r], e));
    assert [f, s, tn] + [tg] == [f, s, tn, tg] && [f] + [tg] == [f, tg] && [r] + [r] == [r, r];
  }

  /**
   * The run over the scenario's elements never aborts: the first element
   * emits 3 + 5; the second is deferred whole; the third is deferred in its
   * non-global window and emits 1 + 5 in the global one. The user function
   * is invoked on the first element and the global part of the third only.
   */
  lemma ScenarioRun(ts: Instant)
    ensures Conforming(TestConfig().reader)
    ensures Run(TestConfig(), Units([First(ts)])).Some?
    ensures Run(TestConfig(), Units([First(ts), Second()])).Some?
    ensures Run(TestConfig(), Units([First(ts), Second(), Third()])) == Some(EvalState(
      ExpectedUnprocessed(),
      [First(ts), Third().(windows := [GlobalWindow])],
      [(SingletonView, GlobalWindow), (SingletonView, GlobalWindow)],
      [(OutputCollection, ExpectedOutput(ts)[0]), (OutputCollection, ExpectedOutput(ts)[1])]))
  {
    var f, t := First(ts), Third();
    var tn, tg := t.(windows := [NonGlobalWindow]), t.(windows := [GlobalWindow]);
    ScenarioUnits(ts);
    ScenarioUnitResults(f);
    ScenarioUnitResults(tg);
    RunOverScenarioUnits(TestConfig(), f, Second(), tn, tg);
    assert RecorderFn.Wrap32(f.value + 5) == 8 && RecorderFn.Wrap32(tg.value + 5) == 6;
    var x, y := (OutputCollection, ExpectedOutput(ts)[0]), (OutputCollection, ExpectedOutput(ts)[1]);
    assert UnitResult(TestConfig(), f).value == [x];
    assert UnitResult(TestConfig(), tg).value == [y];
    assert [x] + [y] == [x, y];
  }

  /** The elements handed to the evaluator, in order. */
  function Elements(ts: Instant): seq<Elem>
  {
    [First(ts), Second(), Third()]
  }

  /** No prefix of the scenario's elements makes the run fail. */
  lemma ScenarioPrefixes(ts: Instant)
    ensures forall k :: 0 < k <= |Elements(ts)| ==> Run(TestConfig(), Units(Elements(ts)[..k])).Some?
  {
    ScenarioRun(ts);
    var elems := Elements(ts);
    forall k | 0 < k <= |elems|
      ensures Run(TestConfig(), Units(elems[..k])).Some?
    {
      if k == 1 {
        assert elems[..k] == [First(ts)];
      } else if k == 2 {
        assert elems[..k] == [First(ts), Second()];
      } else {
        assert elems[..k] == [First(ts), Second(), Third()];
      }
    }
  }

  /**
   * The recorder is invoked on the first element and the global copy of the
   * third, in that order, so it records the values 3 and 1.
   */
  lemma RecordedValues(ts: Instant)
    ensures Processed(TestConfig(), Units(Elements(ts))) == [First(ts), Third().(windows := [GlobalWindow])]
    ensures Values(Processed(TestConfig(), Units(Elements(ts)))) == [3, 1]
  {
    ScenarioRun(ts);
    RunMatchesDefinitions(TestConfig(), Units(Elements(ts)));
    ValuesOfTwo(First(ts), Third().(windows := [GlobalWindow]));
  }

  /** The values of a two-element list, in order. */
  lemma ValuesOfTwo(a: Elem, b: Elem)
    ensures Values([a, b]) == [a.value, b.value]
  {
    var none: seq<Elem> := [];
    assert [a, b][..1] == [a] && [a][..0] == none;
    assert Values([a]) == Values(none) + [a.value];
    assert Values([a, b]) == Values([a]) + [b.value];
  }

  /**
   * Evaluating the scenario: one bundle, for the main output, holding 3 + 5
   * in the global window and 1 + 5 at 2468 in the global window; the second
   * element and the non-global part of the third come back unprocessed; the
   * timer update is empty.
   */
  lemma ScenarioEvaluation(ts: Instant)
    ensures Evaluate(TestConfig(), Elements(ts), EmptyTimerUpdate) == Some(TransformResult(
      [UncommittedBundle(OutputCollection, ExpectedOutput(ts))], ExpectedUnprocessed(), EmptyTimerUpdate))
  {
    ScenarioRun(ts);
    ScenarioBundles(ExpectedOutput(ts));
  }

  /** Two emissions to the output collection make one bundle, for that collection, holding both in order. */
  lemma ScenarioBundles(xs: seq<Elem>)
    requires |xs| == 2
    ensures var out := [(OutputCollection, xs[0]), (OutputCollection, xs[1])];
      BundlesOf(Touched(out), out) == [UncommittedBundle(OutputCollection, xs)]
  {
    var out := [(OutputCollection, xs[0]), (OutputCollection, xs[1])];
    TwoEmissionsToOne(OutputCollection, xs[0], xs[1]);
    SingleDestinationBundles(OutputCollection, out);
    assert [xs[0], xs[1]] == xs;
  }

  /** Two emissions to one destination touch only it and collect both values there, in order. */
  lemma TwoEmissionsToOne(d: CollectionId, a: Elem, b: Elem)
    ensures Touched([(d, a), (d, b)]) == [d]
    ensures ForDest([(d, a), (d, b)], d) == [a, b]
  {
    var none: seq<Routed> := [];
    var x, y := (d, a), (d, b);
    assert [x, y][..1] == [x] && [x][..0] == none;
    assert Touched([x]) == [d];
    ForDestAppend(none, x, d);
    assert none + [x] == [x];
    ForDestAppend([x], y, d);
    assert [x] + [y] == [x, y];
  }

  /** The bundles of a single destination: one bundle, holding what was emitted to it. */
  lemma SingleDestinationBundles(d: CollectionId, out: seq<Routed>)
    ensures BundlesOf([d], out) == [UncommittedBundle(d, ForDest(out, d))]
  {
    BundlesOfAppend([], d, out);
    assert [] + [d] == [d];
  }

  /** Creates the evaluator of the test over `inputBundle`: the recorder reading the singleton view, one main output. */
  method NewTestEvaluator(inputBundle: CommittedBundle<int>) returns (evaluator: ParDoInProcessEvaluator)
    ensures fresh(evaluator) && evaluator.Valid() && evaluator.phase == Processing
    ensures evaluator.config == TestConfig() && evaluator.seen == []
  {
    ReadyInGlobalWindowReader.Facts();
    var cfg := TestConfig();
    evaluator := new ParDoInProcessEvaluator(inputBundle, cfg.fn, cfg.views, cfg.reader,
      cfg.mainOutput, cfg.sideOutputs, cfg.outputs);
  }

  /**
   * Hands the evaluator the elements one at a time, in order. When no
   * prefix of them makes the reference run fail, the evaluator is still
   * processing afterwards and has seen exactly those elements.
   */
  method ProcessElements(evaluator: ParDoInProcessEvaluator, elems: seq<Elem>)
    requires evaluator.Valid() && evaluator.phase == Processing && evaluator.seen == []
    requires forall k :: 0 < k <= |elems| ==> Run(evaluator.config, Units(elems[..k])).Some?
    modifies evaluator
    ensures evaluator.Valid() && evaluator.phase == Processing && evaluator.seen == elems
  {
    for i := 0 to |elems|
      invariant evaluator.Valid() && evaluator.phase == Processing && evaluator.seen == elems[..i]
    {
      assert elems[..i] + [elems[i]] == elems[..i + 1];
      evaluator.ProcessElement(elems[i]);
    }
    assert elems[..|elems|] == elems;
  }

  /**
   * The test driven through the evaluator: create it over a committed root
   * bundle, process the three elements, finish the bundle and commit its
   * only output bundle. The two commit times are the test's two readings
   * of the clock. `processed` is what the recording user function saw.
   */
  method SideInputsNotReadyResultHasUnprocessedElements(defaultTimestamp: Instant, inputCommitTime: Instant, outputCommitTime: Instant)
    returns (result: TransformResult, committed: CommittedBundle<int>, ghost processed: seq<int>)
    ensures result == TransformResult(
      [UncommittedBundle(OutputCollection, ExpectedOutput(defaultTimestamp))], ExpectedUnprocessed(), EmptyTimerUpdate)
    ensures committed == CommittedBundle(OutputCollection, ExpectedOutput(defaultTimestamp), outputCommitTime)
    ensures processed == [3, 1]
  {
    var inputBundle := Commit(CreateRootBundle<int>(InputCollection), inputCommitTime);
    var evaluator := NewTestEvaluator(inputBundle);
    ScenarioPrefixes(defaultTimestamp);
    ProcessElements(evaluator, Elements(defaultTimestamp));
    ScenarioRun(defaultTimestamp);
    ScenarioEvaluation(defaultTimestamp);
    result := evaluator.FinishBundle(EmptyTimerUpdate);
    assert evaluator.invoked == [First(defaultTimestamp), Third().(windows := [GlobalWindow])];
    RecordedValues(defaultTimestamp);
    processed := Values(evaluator.invoked);
    committed := Commit(result.outputBundles[0], outputCommitTime);
  }
}
