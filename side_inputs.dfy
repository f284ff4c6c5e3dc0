/**
 * The side-input reader the evaluator consults: readiness and retrieval are
 * always asked of a (view, window) pair.
 */
module SideInputs {
  import opened Options
  import opened WindowedValues

  /** Identifies one side input (a PCollectionView). */
  type View = nat

  /**
   * A reader's four capabilities. `get` answers None where the reader
   * refuses the call (the fixture readers fail the test there).
   */
  datatype SideInputReader = SideInputReader(
    get: (View, Window) -> Option<int>,
    contains: View -> bool,
    isEmpty: bool,
    isReady: (View, Window) -> bool)

  /** A conforming reader answers every read of a (view, window) it declares ready. */
  ghost predicate Conforming(r: SideInputReader)
  {
    forall v, w :: r.isReady(v, w) ==> r.get(v, w).Some?
  }

  /**
   * Reading a side input. Callable only where the reader declares the view
   * ready in that window: a read of an unready window cannot be written.
   */
  function Get(r: SideInputReader, v: View, w: Window): (x: int)
    requires Conforming(r) && r.isReady(v, w)
    ensures r.get(v, w) == Some(x)
  {
    r.get(v, w).value
  }
}
