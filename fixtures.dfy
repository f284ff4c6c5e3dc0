/**
 * The reader of the evaluator test: every side input is ready in the global
 * window only, where it reads 5; any other read fails the test.
 */
module ReadyInGlobalWindowReader {
  import opened Options
  import opened WindowedValues
  import opened SideInputs

  /** 5 in the global window; every other window refuses the read. */
  function Get(view: View, w: Window): Option<int>
  {
    if w == GlobalWindow then Some(5) else None
  }

  function Contains(view: View): bool
  {
    true
  }

  function IsEmpty(): bool
  {
    false
  }

  function IsReady(view: View, w: Window): bool
  {
    w == GlobalWindow
  }

  function Reader(): SideInputReader
  {
    SideInputReader(Get, Contains, IsEmpty(), IsReady)
  }

  /**
   * The reader is conforming, and it reads exactly where it is ready: ready
   * and readable in the global window (reading 5), neither anywhere else; it
   * claims every view and is not empty.
   */
  lemma Facts()
    ensures Conforming(Reader())
    ensures forall v, w :: Reader().isReady(v, w) <==> w == GlobalWindow
    ensures forall v, w :: Reader().get(v, w).Some? <==> Reader().isReady(v, w)
    ensures forall v :: Reader().get(v, GlobalWindow) == Some(5)
    ensures forall v :: Reader().contains(v)
    ensures !Reader().isEmpty
  {
  }
}

/**
 * The user function of the evaluator test: it emits the element plus the
 * value of its side input, to the main output.
 */
module RecorderFn {
  import opened Options
  import opened SideInputs
  import opened DoFns

  const TwoTo31: int := 0x8000_0000
  const TwoTo32: int := 0x1_0000_0000

  /**
   * Java `int` arithmetic: the value reduced to 32-bit two's complement.
   * Values already in range are unchanged.
   */
  function Wrap32(x: int): (r: int)
    ensures -TwoTo31 <= r < TwoTo31
    ensures (r - x) % TwoTo32 == 0
    ensures -TwoTo31 <= x < TwoTo31 ==> r == x
  {
    (x + TwoTo31) % TwoTo32 - TwoTo31
  }

  /** The recorder's output is the element plus the side input, as a Java `int` sum. */
  function ProcessElement(element: int, sideInput: int): Option<seq<Emission>>
  {
    Some([Output(Wrap32(element + sideInput))])
  }

  function Fn(view: View): (fn: DoFn)
    ensures fn.view == view
    ensures forall e, s :: fn.processElement(e, s) == Some([Output(Wrap32(e + s))])
  {
    DoFn(view, ProcessElement)
  }

}
