/**
 * What evaluating one input bundle with a ParDo means, as functions of the
 * elements handed to the evaluator: every element is exploded into
 * single-window units; a unit whose window is ready for every referenced side
 * input is handed to the user function, whose emissions go to the bundle of
 * their destination; any other unit is deferred, unchanged.
 */
module ParDoEvaluation {
  import opened Options
  import opened WindowedValues
  import opened Bundles
  import opened SideInputs
  import opened DoFns

  /** The windowed integers the evaluated transform consumes and produces. */
  type Elem = WindowedValue<int>

  /** An emitted value together with the collection it goes to. */
  type Routed = (CollectionId, Elem)

  /** Identifies a timer registration of a step. */
  type TimerId = nat

  /** A step's timer changes over one bundle; the empty update is the identity of merging. */
  datatype TimerUpdate = TimerUpdate(setTimers: seq<TimerId>, deletedTimers: seq<TimerId>, completedTimers: seq<TimerId>)

  const EmptyTimerUpdate := TimerUpdate([], [], [])

  /** What finishing a bundle yields: populated output bundles, deferred units and the timer update. */
  datatype TransformResult = TransformResult(
    outputBundles: seq<UncommittedBundle<int>>,
    unprocessedElements: seq<Elem>,
    timerUpdate: TimerUpdate)

  /**
   * What an evaluator is created with: the user function, the side inputs
   * it references, the reader scoped to them, the main and additional output
   * tags, and the destination collection of every output tag.
   */
  datatype Config = Config(
    fn: DoFn,
    views: seq<View>,
    reader: SideInputReader,
    mainOutput: Tag,
    sideOutputs: seq<Tag>,
    outputs: map<Tag, CollectionId>)

  /** Every referenced side input is ready in window `w`. */
  predicate Ready(cfg: Config, w: Window)
  {
    forall v :: v in cfg.views ==> cfg.reader.isReady(v, w)
  }

  /** The single-window units of the elements, element by element, window by window. */
  function Units(elems: seq<Elem>): (us: seq<Elem>)
    ensures Singles(us)
  {
    if elems == [] then [] else Units(elems[..|elems| - 1]) + Explode(elems[|elems| - 1])
  }

  /** The units deferred because a side input is not ready in their window, in order. */
  function Deferred(cfg: Config, us: seq<Elem>): (d: seq<Elem>)
    requires Singles(us)
    ensures |d| <= |us|
    ensures forall k :: 0 <= k < |d| ==> |d[k].windows| == 1 && !Ready(cfg, d[k].windows[0])
  {
    if us == [] then []
    else
      var u := us[|us| - 1];
      Deferred(cfg, us[..|us| - 1]) + (if Ready(cfg, u.windows[0]) then [] else [u])
  }

  /** The units handed to the user function, in order. */
  function Processed(cfg: Config, us: seq<Elem>): (p: seq<Elem>)
    requires Singles(us)
    ensures |p| <= |us|
    ensures forall k :: 0 <= k < |p| ==> |p[k].windows| == 1 && Ready(cfg, p[k].windows[0])
  {
    if us == [] then []
    else
      var u := us[|us| - 1];
      Processed(cfg, us[..|us| - 1]) + (if Ready(cfg, u.windows[0]) then [u] else [])
  }

  /** The value the user function sees for its side input in window `w`. */
  function SideValue(cfg: Config, w: Window): int
    requires Conforming(cfg.reader) && cfg.fn.view in cfg.views && Ready(cfg, w)
  {
    Get(cfg.reader, cfg.fn.view, w)
  }

  /** The destination of an emission: that of the main output tag or of its side output tag, if mapped. */
  function Route(cfg: Config, em: Emission): Option<CollectionId>
  {
    var tag := match em case Output(_) => cfg.mainOutput case SideOutput(t, _) => t;
    if tag in cfg.outputs then Some(cfg.outputs[tag]) else None
  }

  /**
   * The emissions of the user function for unit `u`, each sent to its
   * destination and carrying `u`'s timestamp, window and pane; None when an
   * emission has no destination.
   */
  function RouteAll(cfg: Config, u: Elem, ems: seq<Emission>): (r: Option<seq<Routed>>)
    ensures r.Some? <==> forall i :: 0 <= i < |ems| ==> Route(cfg, ems[i]).Some?
    ensures r.Some? ==> |r.value| == |ems|
    ensures r.Some? ==>
      forall i :: 0 <= i < |ems| ==> r.value[i] == (Route(cfg, ems[i]).value, u.WithValue(ems[i].value))
  {
    if ems == [] then Some([])
    else
      var last := ems[|ems| - 1];
      var init := RouteAll(cfg, u, ems[..|ems| - 1]);
      match Route(cfg, last)
      case None => None
      case Some(d) => if init.None? then None else Some(init.value + [(d, u.WithValue(last.value))])
  }

  /**
   * Invoking the user function on a ready unit: None when it throws, when
   * it reads a side input it was not given, or when it emits to an output
   * without destination.
   */
  function UnitResult(cfg: Config, u: Elem): Option<seq<Routed>>
    requires Conforming(cfg.reader) && |u.windows| == 1 && Ready(cfg, u.windows[0])
  {
    if cfg.fn.view !in cfg.views then None
    else
      match cfg.fn.processElement(u.value, SideValue(cfg, u.windows[0]))
      case None => None
      case Some(ems) => RouteAll(cfg, u, ems)
  }

  /** Some ready unit makes the user function fail, which aborts the bundle. */
  predicate Fails(cfg: Config, us: seq<Elem>)
    requires Conforming(cfg.reader) && Singles(us)
  {
    us != [] &&
    var u := us[|us| - 1];
    (Fails(cfg, us[..|us| - 1]) || (Ready(cfg, u.windows[0]) && UnitResult(cfg, u).None?))
  }

  /** Everything the processed units emit, with destinations, in emission order. */
  function Emitted(cfg: Config, us: seq<Elem>): seq<Routed>
    requires Conforming(cfg.reader) && Singles(us) && !Fails(cfg, us)
  {
    if us == [] then []
    else
      var u := us[|us| - 1];
      Emitted(cfg, us[..|us| - 1]) + (if Ready(cfg, u.windows[0]) then UnitResult(cfg, u).value else [])
  }

  /** The values emitted to destination `d`, in emission order. */
  function ForDest(out: seq<Routed>, d: CollectionId): seq<Elem>
  {
    if out == [] then []
    else ForDest(out[..|out| - 1], d) + (if out[|out| - 1].0 == d then [out[|out| - 1].1] else [])
  }

  /** The destinations emitted to, each once, in the order of their first emission. */
  function Touched(out: seq<Routed>): seq<CollectionId>
  {
    if out == [] then []
    else
      var d := out[|out| - 1].0;
      var t := Touched(out[..|out| - 1]);
      if d in t then t else t + [d]
  }

  /** One bundle per destination of `ts`, holding what was emitted to it. */
  function BundlesOf(ts: seq<CollectionId>, out: seq<Routed>): (bs: seq<UncommittedBundle<int>>)
    ensures |bs| == |ts|
    ensures forall i :: 0 <= i < |ts| ==> bs[i] == UncommittedBundle(ts[i], ForDest(out, ts[i]))
  {
    if ts == [] then [] else BundlesOf(ts[..|ts| - 1], out) + [UncommittedBundle(ts[|ts| - 1], ForDest(out, ts[|ts| - 1]))]
  }

  /** The number of values held by the bundles. */
  function TotalElements(bs: seq<UncommittedBundle<int>>): nat
  {
    if bs == [] then 0 else TotalElements(bs[..|bs| - 1]) + |bs[|bs| - 1].elements|
  }

  /** The side-input reads of the user function on the given units: one of `view` per unit, in its window. */
  function ReadsOf(view: View, us: seq<Elem>): seq<(View, Window)>
    requires Singles(us)
  {
    if us == [] then [] else ReadsOf(view, us[..|us| - 1]) + [(view, us[|us| - 1].windows[0])]
  }

  /** The payloads of the values, in order. */
  function Values(us: seq<Elem>): seq<int>
  {
    if us == [] then [] else Values(us[..|us| - 1]) + [us[|us| - 1].value]
  }

  /** What an evaluator has accumulated: deferred units, invoked units, side-input reads and routed emissions. */
  datatype EvalState = EvalState(deferred: seq<Elem>, invoked: seq<Elem>, readLog: seq<(View, Window)>, out: seq<Routed>)

  /**
   * Evaluating one more unit: defer it when a side input is not ready in
   * its window; otherwise read the side input there, invoke the user function
   * and add its routed emissions; None when the invocation fails.
   */
  function UnitStep(cfg: Config, st: EvalState, u: Elem): Option<EvalState>
    requires Conforming(cfg.reader) && |u.windows| == 1
  {
    if !Ready(cfg, u.windows[0]) then Some(st.(deferred := st.deferred + [u]))
    else
      match UnitResult(cfg, u)
      case None => None
      case Some(e) =>
        Some(EvalState(st.deferred, st.invoked + [u], st.readLog + [(cfg.fn.view, u.windows[0])], st.out + e))
  }

  /** The evaluator's state after the units `us`, taken one at a time; None once a unit has failed. */
  function Run(cfg: Config, us: seq<Elem>): Option<EvalState>
    requires Conforming(cfg.reader) && Singles(us)
  {
    if us == [] then Some(EvalState([], [], [], []))
    else
      match Run(cfg, us[..|us| - 1])
      case None => None
      case Some(st) => UnitStep(cfg, st, us[|us| - 1])
  }

  /**
   * The result of evaluating the elements and finishing the bundle with the
   * step's timer update `timers`; None when the bundle is aborted.
   */
  function Evaluate(cfg: Config, elems: seq<Elem>, timers: TimerUpdate): Option<TransformResult>
    requires Conforming(cfg.reader)
  {
    match Run(cfg, Units(elems))
    case None => None
    case Some(st) => Some(TransformResult(BundlesOf(Touched(st.out), st.out), st.deferred, timers))
  }

  /** One more unit: the run aborts if it had aborted, and otherwise takes that unit's step. */
  lemma RunAppend(cfg: Config, us: seq<Elem>, u: Elem)
    requires Conforming(cfg.reader) && Singles(us) && |u.windows| == 1
    ensures Singles(us + [u])
    ensures Run(cfg, us + [u]) == if Run(cfg, us).None? then None else UnitStep(cfg, Run(cfg, us).value, u)
  {
    assert (us + [u])[..|us|] == us;
  }

  /** A run over one unit is that unit's step from the empty state. */
  lemma RunOneUnit(cfg: Config, u: Elem)
    requires Conforming(cfg.reader) && |u.windows| == 1
    ensures Singles([u]) && Run(cfg, [u]) == UnitStep(cfg, EvalState([], [], [], []), u)
  {
    assert [u][..0] == [];
  }

  /** A unit whose side inputs are not all ready is appended to the deferred units, and nothing else changes. */
  lemma RunDefers(cfg: Config, us: seq<Elem>, u: Elem, st: EvalState)
    requires Conforming(cfg.reader) && Singles(us) && |u.windows| == 1
    requires Run(cfg, us) == Some(st) && !Ready(cfg, u.windows[0])
    ensures Singles(us + [u])
    ensures Run(cfg, us + [u]) == Some(st.(deferred := st.deferred + [u]))
  {
    RunAppend(cfg, us, u);
  }

  /**
   * A ready unit on which the user function succeeds is invoked, its window
   * is read, and its routed emissions are appended; the deferred units do
   * not change.
   */
  lemma RunInvokes(cfg: Config, us: seq<Elem>, u: Elem, st: EvalState)
    requires Conforming(cfg.reader) && Singles(us) && |u.windows| == 1
    requires Run(cfg, us) == Some(st) && Ready(cfg, u.windows[0]) && UnitResult(cfg, u).Some?
    ensures Singles(us + [u])
    ensures Run(cfg, us + [u]) == Some(EvalState(st.deferred, st.invoked + [u],
      st.readLog + [(cfg.fn.view, u.windows[0])], st.out + UnitResult(cfg, u).value))
  {
    RunAppend(cfg, us, u);
  }

  /** Evaluation finishes with the bundles of the run's emissions, its deferred units and the given timer update. */
  lemma EvaluateFromRun(cfg: Config, elems: seq<Elem>, st: EvalState, timers: TimerUpdate)
    requires Conforming(cfg.reader) && Run(cfg, Units(elems)) == Some(st)
    ensures Evaluate(cfg, elems, timers) == Some(TransformResult(BundlesOf(Touched(st.out), st.out), st.deferred, timers))
  {
  }

  /** Once a unit has failed, the run stays aborted whatever units follow. */
  lemma {:induction false} RunAbortsForGood(cfg: Config, us: seq<Elem>, more: seq<Elem>)
    requires Conforming(cfg.reader) && Singles(us) && Singles(more)
    requires Run(cfg, us).None?
    ensures Singles(us + more) && Run(cfg, us + more).None?
    decreases |more|
  {
    if more == [] {
      assert us + more == us;
    } else {
      var init, m := more[..|more| - 1], more[|more| - 1];
      assert us + more == (us + init) + [m];
      RunAbortsForGood(cfg, us, init);
      RunAppend(cfg, us + init, m);
    }
  }

  /** A run that aborts after `done` and the first `k` of `units` aborts after all of them. */
  lemma PrefixAborts(cfg: Config, done: seq<Elem>, units: seq<Elem>, k: nat)
    requires Conforming(cfg.reader) && Singles(done) && Singles(units) && k <= |units|
    requires Singles(done + units[..k]) && Run(cfg, done + units[..k]).None?
    ensures Singles(done + units) && Run(cfg, done + units).None?
  {
    RunAbortsForGood(cfg, done + units[..k], units[k..]);
    assert done + units[..k] + units[k..] == done + units;
  }

  /**
   * The step-by-step run agrees with the declarative definitions: it aborts
   * exactly when some ready unit fails, and otherwise it has deferred the
   * unready units, invoked the ready ones, read the side input once per
   * invocation, and emitted what they emit.
   */
  lemma {:induction false} RunMatchesDefinitions(cfg: Config, us: seq<Elem>)
    requires Conforming(cfg.reader) && Singles(us)
    ensures RunMatches(cfg, us)
  {
    if us != [] {
      var init, u := us[..|us| - 1], us[|us| - 1];
      RunMatchesDefinitions(cfg, init);
      RunMatchesStep(cfg, init, u);
      assert us == init + [u];
    }
  }

  /** The run over `us` agrees with the declarative definitions. */
  ghost predicate RunMatches(cfg: Config, us: seq<Elem>)
    requires Conforming(cfg.reader) && Singles(us)
  {
    && (Run(cfg, us).None? <==> Fails(cfg, us))
    && (Run(cfg, us).Some? ==> Run(cfg, us).value == EvalState(
      Deferred(cfg, us), Processed(cfg, us), ReadsOf(cfg.fn.view, Processed(cfg, us)), Emitted(cfg, us)))
  }

  /** The agreement between the run and the declarative definitions survives one more unit. */
  lemma RunMatchesStep(cfg: Config, us: seq<Elem>, u: Elem)
    requires Conforming(cfg.reader) && Singles(us) && |u.windows| == 1 && RunMatches(cfg, us)
    ensures Singles(us + [u]) && RunMatches(cfg, us + [u])
  {
    Step(cfg, us, u);
    if Run(cfg, us).None? || (Ready(cfg, u.windows[0]) && UnitResult(cfg, u).None?) {
      RunAppend(cfg, us, u);
    } else if !Ready(cfg, u.windows[0]) {
      RunDefers(cfg, us, u, Run(cfg, us).value);
      assert Processed(cfg, us + [u]) == Processed(cfg, us) + [];
      assert Emitted(cfg, us + [u]) == Emitted(cfg, us) + [];
    } else {
      RunInvokes(cfg, us, u, Run(cfg, us).value);
      ReadsOfAppend(cfg.fn.view, Processed(cfg, us), u);
      assert Deferred(cfg, us + [u]) == Deferred(cfg, us) + [];
    }
  }

  // ---------------------------------------------------------------------
  // Properties of the reference semantics
  // ---------------------------------------------------------------------

  /**
   * What finishing the bundle returns: nothing exactly when some ready unit
   * fails; otherwise the bundles of the emissions of the ready units, the
   * unready units as unprocessed elements, and the given timer update.
   */
  lemma EvaluateOutcome(cfg: Config, elems: seq<Elem>, timers: TimerUpdate)
    requires Conforming(cfg.reader)
    ensures Evaluate(cfg, elems, timers).None? <==> Fails(cfg, Units(elems))
    ensures Evaluate(cfg, elems, timers).Some? ==>
      var r, out := Evaluate(cfg, elems, timers).value, Emitted(cfg, Units(elems));
      && r.outputBundles == BundlesOf(Touched(out), out)
      && r.unprocessedElements == Deferred(cfg, Units(elems))
      && r.timerUpdate == timers
  {
    RunMatchesDefinitions(cfg, Units(elems));
  }

  /** Exploding element by element: the units of `elems + [e]` are those of `elems` followed by `e`'s copies. */
  lemma UnitsAppend(elems: seq<Elem>, e: Elem)
    ensures Units(elems + [e]) == Units(elems) + Explode(e)
  {
    assert (elems + [e])[..|elems|] == elems;
  }

  /** Evaluating one more unit: how each piece of the reference semantics grows. */
  lemma Step(cfg: Config, us: seq<Elem>, u: Elem)
    requires Conforming(cfg.reader) && Singles(us) && |u.windows| == 1
    ensures Singles(us + [u])
    ensures Deferred(cfg, us + [u]) == Deferred(cfg, us) + (if Ready(cfg, u.windows[0]) then [] else [u])
    ensures Processed(cfg, us + [u]) == Processed(cfg, us) + (if Ready(cfg, u.windows[0]) then [u] else [])
    ensures Fails(cfg, us + [u]) == (Fails(cfg, us) || (Ready(cfg, u.windows[0]) && UnitResult(cfg, u).None?))
    ensures !Fails(cfg, us + [u]) ==>
      Emitted(cfg, us + [u]) == Emitted(cfg, us) + (if Ready(cfg, u.windows[0]) then UnitResult(cfg, u).value else [])
  {
    assert (us + [u])[..|us|] == us;
  }

  /** Routing one more emission appends its routed copy when its tag has a destination. */
  lemma RouteAllAppend(cfg: Config, u: Elem, ems: seq<Emission>, i: nat)
    requires i < |ems| && RouteAll(cfg, u, ems[..i]).Some? && Route(cfg, ems[i]).Some?
    ensures RouteAll(cfg, u, ems[..i + 1]) ==
      Some(RouteAll(cfg, u, ems[..i]).value + [(Route(cfg, ems[i]).value, u.WithValue(ems[i].value))])
  {
    assert ems[..i + 1][..i] == ems[..i];
  }

  /** One more processed unit adds one read, of the view in that unit's window. */
  lemma ReadsOfAppend(view: View, us: seq<Elem>, u: Elem)
    requires Singles(us) && |u.windows| == 1
    ensures Singles(us + [u])
    ensures ReadsOf(view, us + [u]) == ReadsOf(view, us) + [(view, u.windows[0])]
  {
    assert (us + [u])[..|us|] == us;
  }

  /** Explosion loses no window: there are as many units as the elements have windows. */
  lemma {:induction false} UnitsCount(elems: seq<Elem>)
    ensures |Units(elems)| == |AllWindows(elems)|
  {
    if elems != [] {
      var init, e := elems[..|elems| - 1], elems[|elems| - 1];
      UnitsCount(init);
      AllWindowsAppend(init, e);
      assert elems == init + [e];
    }
  }

  /**
   * Explosion invents nothing: each unit is one of the elements, with its
   * payload, timestamp and pane, in one of its windows.
   */
  lemma {:induction false} UnitsComeFromElements(elems: seq<Elem>)
    ensures forall u :: u in Units(elems) ==>
      exists e :: e in elems && SameEvent(u, e) && u.windows[0] in e.windows
  {
    if elems != [] {
      var init, e := elems[..|elems| - 1], elems[|elems| - 1];
      UnitsComeFromElements(init);
      assert Units(elems) == Units(init) + Explode(e);
      forall u | u in Units(elems)
        ensures exists e' :: e' in elems && SameEvent(u, e') && u.windows[0] in e'.windows
      {
        if u in Units(init) {
          var e' :| e' in init && SameEvent(u, e') && u.windows[0] in e'.windows;
          assert e' in elems;
        } else {
          var i :| 0 <= i < |Explode(e)| && Explode(e)[i] == u;
          assert u.windows[0] == e.windows[i];
          assert e in elems;
        }
      }
    }
  }

  /** Explosion drops no window: every window of every element yields that element's copy in exactly that window. */
  lemma {:induction false} UnitsCoverElements(elems: seq<Elem>)
    ensures forall e, i :: e in elems && 0 <= i < |e.windows| ==> e.(windows := [e.windows[i]]) in Units(elems)
  {
    if elems != [] {
      var init, last := elems[..|elems| - 1], elems[|elems| - 1];
      UnitsCoverElements(init);
      assert Units(elems) == Units(init) + Explode(last);
      assert elems == init + [last];
      forall e, i | e in elems && 0 <= i < |e.windows|
        ensures e.(windows := [e.windows[i]]) in Units(elems)
      {
        if e in init {
          assert e.(windows := [e.windows[i]]) in Units(init);
        } else {
          assert e == last;
          assert Explode(e)[i] == e.(windows := [e.windows[i]]);
          assert Explode(e)[i] in Explode(last);
        }
      }
    }
  }

  /** The windows of one more element follow those of the elements before it. */
  lemma {:induction false} AllWindowsAppend(elems: seq<Elem>, e: Elem)
    ensures AllWindows(elems + [e]) == AllWindows(elems) + e.windows
    decreases |elems|
  {
    if elems == [] {
      assert AllWindows([e]) == e.windows + AllWindows([e][1..]);
    } else {
      AllWindowsAppend(elems[1..], e);
      assert (elems + [e])[1..] == elems[1..] + [e];
    }
  }

  /**
   * Partition: every unit is either deferred or processed, never both and
   * never neither; together the two are a permutation of the units.
   */
  lemma {:induction false} Partition(cfg: Config, us: seq<Elem>)
    requires Singles(us)
    ensures multiset(Deferred(cfg, us)) + multiset(Processed(cfg, us)) == multiset(us)
    ensures |Deferred(cfg, us)| + |Processed(cfg, us)| == |us|
  {
    if us != [] {
      var init, u := us[..|us| - 1], us[|us| - 1];
      Partition(cfg, init);
      assert us == init + [u];
    }
  }

  /** Deferred are exactly the units not ready in their window, and processed exactly the ready ones. */
  lemma {:induction false} PartitionMembers(cfg: Config, us: seq<Elem>)
    requires Singles(us)
    ensures forall u :: u in Deferred(cfg, us) <==> u in us && !Ready(cfg, u.windows[0])
    ensures forall u :: u in Processed(cfg, us) <==> u in us && Ready(cfg, u.windows[0])
  {
    if us != [] {
      var init, u := us[..|us| - 1], us[|us| - 1];
      PartitionMembers(cfg, init);
      assert us == init + [u];
    }
  }

  /**
   * Side inputs are read only where they are ready: each processed unit is
   * read once, in its own window, and there the reader declares the view
   * ready and has a value.
   */
  lemma {:induction false} ReadsOnlyReady(cfg: Config, us: seq<Elem>)
    requires Conforming(cfg.reader) && Singles(us) && !Fails(cfg, us)
    ensures |ReadsOf(cfg.fn.view, Processed(cfg, us))| == |Processed(cfg, us)|
    ensures forall r :: r in ReadsOf(cfg.fn.view, Processed(cfg, us)) ==>
      r.0 == cfg.fn.view && cfg.reader.isReady(r.0, r.1) && cfg.reader.get(r.0, r.1).Some?
  {
    if us != [] {
      var init, u := us[..|us| - 1], us[|us| - 1];
      ReadsOnlyReady(cfg, init);
      var p, p' := Processed(cfg, init), Processed(cfg, us);
      if Ready(cfg, u.windows[0]) {
        assert cfg.fn.view in cfg.views;
        assert p' == p + [u];
        assert p'[..|p'| - 1] == p;
        assert ReadsOf(cfg.fn.view, p') == ReadsOf(cfg.fn.view, p) + [(cfg.fn.view, u.windows[0])];
      } else {
        assert p' == p;
      }
    }
  }

  /** `x` has the timestamp, windows and pane of `u`. */
  ghost predicate InPlaceOf(x: Elem, u: Elem)
  {
    x.timestamp == u.timestamp && x.windows == u.windows && x.pane == u.pane
  }

  /**
   * Outputs stay in place: every emitted value carries the timestamp,
   * window and pane of a processed unit.
   */
  lemma {:induction false} EmittedFromProcessed(cfg: Config, us: seq<Elem>)
    requires Conforming(cfg.reader) && Singles(us) && !Fails(cfg, us)
    ensures forall p :: p in Emitted(cfg, us) ==>
      exists u :: u in Processed(cfg, us) && InPlaceOf(p.1, u)
  {
    if us != [] {
      var init, u := us[..|us| - 1], us[|us| - 1];
      EmittedFromProcessed(cfg, init);
      forall p | p in Emitted(cfg, us)
        ensures exists u' :: u' in Processed(cfg, us) && InPlaceOf(p.1, u')
      {
        if p in Emitted(cfg, init) {
          var u' :| u' in Processed(cfg, init) && InPlaceOf(p.1, u');
          assert u' in Processed(cfg, us);
        } else {
          assert Ready(cfg, u.windows[0]);
          var out := UnitResult(cfg, u).value;
          assert p in out;
          var i :| 0 <= i < |out| && out[i] == p;
          assert u in Processed(cfg, us);
        }
      }
    }
  }

  /** The values emitted to `d` are exactly those paired with `d`. */
  lemma {:induction false} ForDestMembers(out: seq<Routed>, d: CollectionId)
    ensures forall x :: x in ForDest(out, d) <==> (d, x) in out
  {
    if out != [] {
      ForDestMembers(out[..|out| - 1], d);
      assert out == out[..|out| - 1] + [out[|out| - 1]];
    }
  }

  /**
   * The destinations touched are distinct, and are exactly those some
   * emission went to; an untouched destination received nothing.
   */
  lemma {:induction false} TouchedDestinations(out: seq<Routed>)
    ensures forall i, j :: 0 <= i < j < |Touched(out)| ==> Touched(out)[i] != Touched(out)[j]
    ensures forall d :: d in Touched(out) <==> exists x :: (d, x) in out
    ensures forall d :: d !in Touched(out) ==> ForDest(out, d) == []
  {
    if out != [] {
      var init := out[..|out| - 1];
      TouchedDestinations(init);
      assert out == init + [out[|out| - 1]];
    }
  }

  /** One more emission adds its value to the values of its own destination only. */
  lemma ForDestAppend(out: seq<Routed>, p: Routed, d: CollectionId)
    ensures ForDest(out + [p], d) == ForDest(out, d) + (if p.0 == d then [p.1] else [])
  {
    assert (out + [p])[..|out|] == out;
  }

  /** One more bundle adds its size to the total. */
  lemma TotalAppend(bs: seq<UncommittedBundle<int>>, b: UncommittedBundle<int>)
    ensures TotalElements(bs + [b]) == TotalElements(bs) + |b.elements|
  {
    assert (bs + [b])[..|bs|] == bs;
  }

  /** One more destination adds one bundle, holding what was emitted to it. */
  lemma BundlesOfAppend(ts: seq<CollectionId>, t: CollectionId, out: seq<Routed>)
    ensures BundlesOf(ts + [t], out) == BundlesOf(ts, out) + [UncommittedBundle(t, ForDest(out, t))]
  {
    assert (ts + [t])[..|ts|] == ts;
  }

  /** Adding one emission for `d` adds one value to the bundles when `d` is among the (distinct) destinations. */
  lemma {:induction false} TotalAfterEmission(ts: seq<CollectionId>, out: seq<Routed>, p: Routed)
    requires forall i, j :: 0 <= i < j < |ts| ==> ts[i] != ts[j]
    ensures TotalElements(BundlesOf(ts, out + [p])) == TotalElements(BundlesOf(ts, out)) + (if p.0 in ts then 1 else 0)
  {
    if ts != [] {
      var init, t := ts[..|ts| - 1], ts[|ts| - 1];
      assert ts == init + [t];
      TotalAfterEmission(init, out, p);
      BundlesOfAppend(init, t, out + [p]);
      BundlesOfAppend(init, t, out);
      TotalAppend(BundlesOf(init, out + [p]), UncommittedBundle(t, ForDest(out + [p], t)));
      TotalAppend(BundlesOf(init, out), UncommittedBundle(t, ForDest(out, t)));
      ForDestAppend(out, p, t);
      assert p.0 in ts <==> p.0 in init || p.0 == t;
      assert t !in init;
    }
  }

  /** The bundles of the touched destinations hold exactly as many values as were emitted. */
  lemma {:induction false} BundlesHoldAllEmissions(out: seq<Routed>)
    ensures TotalElements(BundlesOf(Touched(out), out)) == |out|
  {
    if out != [] {
      var init, p := out[..|out| - 1], out[|out| - 1];
      var ti := Touched(init);
      BundlesHoldAllEmissions(init);
      TouchedDestinations(init);
      assert out == init + [p];
      TotalAfterEmission(ti, init, p);
      if p.0 !in ti {
        assert Touched(out) == ti + [p.0];
        BundlesOfAppend(ti, p.0, out);
        ForDestAppend(init, p, p.0);
        assert ForDest(out, p.0) == [p.1];
        TotalAppend(BundlesOf(ti, out), UncommittedBundle(p.0, [p.1]));
      } else {
        assert Touched(out) == ti;
      }
    }
  }

  /**
   * One bundle per destination: the result's bundles have distinct
   * destinations, every emission is in the bundle of its destination and
   * nowhere else, and together they hold every emission once.
   */
  lemma OneBundlePerDestination(out: seq<Routed>)
    ensures var bs := BundlesOf(Touched(out), out);
      && (forall i, j :: 0 <= i < j < |bs| ==> bs[i].collection != bs[j].collection)
      && (forall d: CollectionId, x: Elem :: (d, x) in out <==> exists i :: 0 <= i < |bs| && bs[i].collection == d && x in bs[i].elements)
      && TotalElements(bs) == |out|
  {
    TouchedDestinations(out);
    BundlesHoldAllEmissions(out);
    var ts := Touched(out);
    var bs := BundlesOf(ts, out);
    forall d: CollectionId, x: Elem
      ensures (d, x) in out <==> exists i :: 0 <= i < |bs| && bs[i].collection == d && x in bs[i].elements
    {
      ForDestMembers(out, d);
      if (d, x) in out {
        assert d in ts;
        var i :| 0 <= i < |ts| && ts[i] == d;
        assert bs[i].collection == d && x in bs[i].elements;
      }
    }
  }
}
