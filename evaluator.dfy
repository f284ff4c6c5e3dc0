/**
 * The in-process ParDo evaluator: one instance consumes the elements of one
 * committed input bundle, one call at a time, and is then finished once.
 * Its fields accumulate the per-destination output bundles and the deferred
 * units; each method is proved against the reference semantics of
 * ParDoEvaluation.
 */
module ParDoInProcessEvaluators {
  import opened Options
  import opened WindowedValues
  import opened Bundles
  import opened SideInputs
  import opened DoFns
  import opened ParDoEvaluation

  /** Processing until finished; Failed once the user function has thrown (the bundle is abandoned). */
  datatype Phase = Processing | Finished | Failed

  class ParDoInProcessEvaluator {
    const inputBundle: CommittedBundle<int>
    const config: Config
    var phase: Phase
    /** The output bundle of every destination emitted to so far. */
    var outputBundles: map<CollectionId, UncommittedBundle<int>>
    /** The destinations of outputBundles, in the order they were first emitted to. */
    var touched: seq<CollectionId>
    var unprocessedElements: seq<Elem>

    /** The elements handed to ProcessElement. */
    ghost var seen: seq<Elem>
    /** The single-window units evaluated so far. */
    ghost var done: seq<Elem>
    /** Every value sent to an output bundle, with its destination. */
    ghost var emitted: seq<Routed>
    /** The units the user function was invoked on (what the test's recorder collects). */
    ghost var invoked: seq<Elem>
    /** Every (view, window) the side-input reader was read at. */
    ghost var sideReads: seq<(View, Window)>

    /** The output bundles are exactly those of the destinations emitted to, holding what was emitted there. */
    ghost predicate BundlesHold()
      reads this
    {
      && touched == Touched(emitted)
      && (forall d :: d in outputBundles <==> d in touched)
      && (forall d :: d in outputBundles ==> outputBundles[d] == UncommittedBundle(d, ForDest(emitted, d)))
    }

    /** What the evaluator has accumulated, as the reference semantics describes it. */
    ghost function State(): EvalState
      reads this
    {
      EvalState(unprocessedElements, invoked, sideReads, emitted)
    }

    /** While not failed, the state is what the reference semantics gives for the units done. */
    ghost predicate Consistent()
      reads this
    {
      && Conforming(config.reader)
      && Singles(done)
      && (phase != Failed ==> Run(config, done) == Some(State()) && BundlesHold())
    }

    ghost predicate Valid()
      reads this
    {
      Consistent() && (phase != Failed ==> done == Units(seen))
    }

    /** Creates the evaluator and starts the bundle; the reader is the one the context scoped to `views`. */
    constructor (inputBundle: CommittedBundle<int>, fn: DoFn, views: seq<View>, reader: SideInputReader,
                 mainOutput: Tag, sideOutputs: seq<Tag>, outputs: map<Tag, CollectionId>)
      requires Conforming(reader)
      ensures Valid() && phase == Processing && seen == []
      ensures this.inputBundle == inputBundle
      ensures config == Config(fn, views, reader, mainOutput, sideOutputs, outputs)
      ensures outputBundles == map[] && unprocessedElements == [] && invoked == [] && sideReads == []
    {
      this.inputBundle := inputBundle;
      config := Config(fn, views, reader, mainOutput, sideOutputs, outputs);
      phase := Processing;
      outputBundles := map[];
      touched := [];
      unprocessedElements := [];
      seen, done, emitted, invoked, sideReads := [], [], [], [], [];
    }

    /** Asks the reader, view by view, whether every referenced side input is ready in `w`. */
    method WindowReady(w: Window) returns (ready: bool)
      ensures ready == Ready(config, w)
    {
      var views := config.views;
      var i := 0;
      while i < |views|
        invariant 0 <= i <= |views|
        invariant forall k :: 0 <= k < i ==> config.reader.isReady(views[k], w)
      {
        if !config.reader.isReady(views[i], w) {
          return false;
        }
        i := i + 1;
      }
      return true;
    }

    /** Appends `x` to the bundle of `d`, creating that bundle from the context on the first emission to `d`. */
    method AddOutput(d: CollectionId, x: Elem)
      requires BundlesHold()
      modifies this`outputBundles, this`touched, this`emitted
      ensures BundlesHold()
      ensures emitted == old(emitted) + [(d, x)]
      ensures d in old(outputBundles) ==> touched == old(touched)
      ensures d !in old(outputBundles) ==> touched == old(touched) + [d]
    {
      TouchedDestinations(emitted);
      if d !in outputBundles {
        outputBundles := outputBundles[d := CreateBundle(inputBundle, d)];
        touched := touched + [d];
      }
      outputBundles := outputBundles[d := Add(outputBundles[d], x)];
      forall d' ensures ForDest(emitted + [(d, x)], d') == ForDest(emitted, d') + (if d == d' then [x] else []) {
        ForDestAppend(emitted, (d, x), d');
      }
      assert (emitted + [(d, x)])[..|emitted|] == emitted;
      emitted := emitted + [(d, x)];
    }

    /**
     * Sends the user function's emissions for unit `u` to the bundles of
     * their destinations, in order; stops with false at the first emission
     * whose output has no destination.
     */
    method EmitAll(u: Elem, ems: seq<Emission>) returns (ok: bool)
      requires BundlesHold()
      modifies this`outputBundles, this`touched, this`emitted
      ensures BundlesHold()
      ensures ok == RouteAll(config, u, ems).Some?
      ensures ok ==> emitted == old(emitted) + RouteAll(config, u, ems).value
    {
      var i := 0;
      while i < |ems|
        invariant 0 <= i <= |ems|
        invariant BundlesHold()
        invariant RouteAll(config, u, ems[..i]).Some?
        invariant emitted == old(emitted) + RouteAll(config, u, ems[..i]).value
      {
        var dest := Route(config, ems[i]);
        if dest.None? {
          return false;
        }
        RouteAllAppend(config, u, ems, i);
        AddOutput(dest.value, u.WithValue(ems[i].value));
        i := i + 1;
      }
      assert ems[..i] == ems;
      return true;
    }

    /**
     * Evaluates one single-window unit: defers it when a side input is not
     * ready in its window, and otherwise reads the side input there, invokes
     * the user function once and sends its emissions to their bundles.
     */
    method ProcessUnit(u: Elem)
      requires Consistent() && phase == Processing && |u.windows| == 1
      modifies this
      ensures Consistent() && Singles(old(done) + [u])
      ensures phase == (if Run(config, old(done) + [u]).None? then Failed else Processing)
      ensures done == old(done) + [u] && seen == old(seen)
    {
      var w := u.windows[0];
      var ready := WindowReady(w);
      if !ready {
        Defer(u);
      } else {
        Invoke(u);
      }
    }

    /** Defers a unit whose side inputs are not all ready in its window: it joins the unprocessed elements. */
    method Defer(u: Elem)
      requires Consistent() && phase == Processing && |u.windows| == 1 && !Ready(config, u.windows[0])
      modifies this`unprocessedElements, this`done
      ensures Consistent() && Singles(old(done) + [u]) && phase == Processing
      ensures Run(config, old(done) + [u]).Some?
      ensures done == old(done) + [u] && unprocessedElements == old(unprocessedElements) + [u]
    {
      ghost var before, st := done, State();
      unprocessedElements := unprocessedElements + [u];
      done := done + [u];
      RunDefers(config, before, u, st);
    }

    /**
     * Evaluates a unit whose side inputs are ready in its window: reads the
     * side input there, invokes the user function once and sends its
     * emissions to their bundles.
     */
    method Invoke(u: Elem)
      requires Consistent() && phase == Processing && |u.windows| == 1 && Ready(config, u.windows[0])
      modifies this
      ensures Consistent() && Singles(old(done) + [u])
      ensures phase == (if Run(config, old(done) + [u]).None? then Failed else Processing)
      ensures done == old(done) + [u] && seen == old(seen)
    {
      var w := u.windows[0];
      ghost var before, st := done, State();
      done := done + [u];
      if config.fn.view !in config.views {
        // the user function asks for a side input it was not given
        RunAppend(config, before, u);
        phase := Failed;
        return;
      }
      var side := Get(config.reader, config.fn.view, w);
      var result := config.fn.processElement(u.value, side);
      if result.None? {
        RunAppend(config, before, u);
        phase := Failed;
        return;
      }
      assert UnitResult(config, u) == RouteAll(config, u, result.value);
      var ok := EmitAll(u, result.value);
      if !ok {
        RunAppend(config, before, u);
        phase := Failed;
        return;
      }
      invoked := invoked + [u];
      sideReads := sideReads + [(config.fn.view, w)];
      RunInvokes(config, before, u, st);
    }

    /** Evaluates the units of one element in window order, stopping at the first failure. */
    method ProcessUnits(units: seq<Elem>)
      requires Consistent() && phase == Processing && Singles(units)
      modifies this
      ensures Consistent() && Singles(old(done) + units) && seen == old(seen)
      ensures phase == (if Run(config, old(done) + units).None? then Failed else Processing)
      ensures phase == Processing ==> done == old(done) + units
    {
      var i := 0;
      while i < |units|
        invariant 0 <= i <= |units|
        invariant Consistent() && phase == Processing
        invariant done == old(done) + units[..i] && seen == old(seen)
      {
        assert old(done) + units[..i + 1] == done + [units[i]];
        ProcessUnit(units[i]);
        if phase == Failed {
          PrefixAborts(config, old(done), units, i + 1);
          return;
        }
        i := i + 1;
      }
      assert units[..i] == units;
    }

    /**
     * Evaluates one element: explodes it into one unit per window and
     * evaluates each unit in window order. The evaluator fails (and the
     * bundle is abandoned) exactly when the reference semantics aborts.
     */
    method ProcessElement(e: Elem)
      requires Valid() && phase == Processing
      modifies this
      ensures Valid()
      ensures phase == (if Run(config, Units(old(seen) + [e])).None? then Failed else Processing)
      ensures phase == Processing ==> seen == old(seen) + [e]
    {
      UnitsAppend(seen, e);
      ProcessUnits(Explode(e));
      if phase == Processing {
        seen := seen + [e];
      }
    }

    /**
     * Finishes the bundle: the result holds one bundle per destination
     * emitted to (in first-emission order), the deferred units in deferral
     * order, and the timer update the step context holds now.
     */
    method FinishBundle(timerUpdate: TimerUpdate) returns (result: TransformResult)
      requires Valid() && phase == Processing
      modifies this`phase
      ensures Valid() && phase == Finished
      ensures Evaluate(config, seen, timerUpdate) == Some(result)
    {
      EvaluateFromRun(config, seen, State(), timerUpdate);
      var bundles := OutputBundles();
      result := TransformResult(bundles, unprocessedElements, timerUpdate);
      phase := Finished;
    }

    /** The output bundles, one per destination emitted to, in first-emission order. */
    method OutputBundles() returns (bundles: seq<UncommittedBundle<int>>)
      requires BundlesHold()
      ensures bundles == BundlesOf(Touched(emitted), emitted)
    {
      bundles := [];
      var i := 0;
      while i < |touched|
        invariant 0 <= i <= |touched|
        invariant bundles == BundlesOf(touched[..i], emitted)
      {
        assert touched[..i + 1] == touched[..i] + [touched[i]];
        BundlesOfAppend(touched[..i], touched[i], emitted);
        bundles := bundles + [outputBundles[touched[i]]];
        i := i + 1;
      }
      assert touched[..i] == touched;
    }
  }
}
