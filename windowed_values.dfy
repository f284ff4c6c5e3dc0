/**
 * Event-time windows, panes and windowed values, and the explosion of a
 * multi-window value into one single-window copy per window.
 */
module WindowedValues {

  /** An event time, in milliseconds since the epoch. */
  type Instant = int

  /** The window an element belongs to: the single global window, or the interval [start, end). */
  datatype Window = GlobalWindow | IntervalWindow(start: Instant, end: Instant)

  /** Firing metadata, carried through unchanged; NoFiring is the pane of values no trigger produced. */
  datatype Pane = NoFiring | Fired(index: nat)

  /** A payload with its event timestamp, the windows it is assigned to (in order) and its pane. */
  datatype WindowedValue<V> = WindowedValue(value: V, timestamp: Instant, windows: seq<Window>, pane: Pane)
  {
    /** The same event, in the same windows and pane, carrying a new payload. */
    function WithValue<U>(u: U): WindowedValue<U>
    {
      WindowedValue(u, timestamp, windows, pane)
    }
  }

  /** A value in a single window. */
  function Of<V>(v: V, timestamp: Instant, w: Window, pane: Pane): WindowedValue<V>
  {
    WindowedValue(v, timestamp, [w], pane)
  }

  /** A value in the global window, at the given timestamp, in the NoFiring pane. */
  function TimestampedValueInGlobalWindow<V>(v: V, timestamp: Instant): WindowedValue<V>
  {
    Of(v, timestamp, GlobalWindow, NoFiring)
  }

  /** True when the two values describe the same event: same payload, timestamp and pane. */
  ghost predicate SameEvent<V>(a: WindowedValue<V>, b: WindowedValue<V>)
  {
    a.value == b.value && a.timestamp == b.timestamp && a.pane == b.pane
  }

  /** True when every value of the sequence is assigned to exactly one window. */
  predicate Singles<V>(us: seq<WindowedValue<V>>)
  {
    forall i :: 0 <= i < |us| ==> |us[i].windows| == 1
  }

  /**
   * One copy of `e` per window of `e`, in window order; each copy keeps the
   * payload, timestamp and pane and is assigned to exactly that one window.
   */
  function Explode<V>(e: WindowedValue<V>): (units: seq<WindowedValue<V>>)
    ensures |units| == |e.windows|
    ensures forall i :: 0 <= i < |units| ==> units[i].windows == [e.windows[i]] && SameEvent(units[i], e)
    ensures Singles(units)
    decreases |e.windows|
  {
    if e.windows == [] then []
    else [e.(windows := [e.windows[0]])] + Explode(e.(windows := e.windows[1..]))
  }

  /** The windows of a sequence of values, concatenated in order. */
  function AllWindows<V>(us: seq<WindowedValue<V>>): seq<Window>
  {
    if us == [] then [] else us[0].windows + AllWindows(us[1..])
  }

  /**
   * Explosion loses nothing: the copies' windows, put back together, are the
   * original window list, and each copy is the original event.
   */
  lemma {:induction false} ExplodeRoundTrip<V>(e: WindowedValue<V>)
    ensures AllWindows(Explode(e)) == e.windows
    ensures forall u :: u in Explode(e) ==> SameEvent(u, e) && |u.windows| == 1 && u.windows[0] in e.windows
    decreases |e.windows|
  {
    if e.windows != [] {
      var rest := e.(windows := e.windows[1..]);
      ExplodeRoundTrip(rest);
      assert Explode(e) == [e.(windows := [e.windows[0]])] + Explode(rest);
      assert Explode(e)[1..] == Explode(rest);
    }
  }
}
