/** The user-supplied per-element function of a ParDo. */
module DoFns {
  import opened Options
  import opened SideInputs

  /** Identifies an output of the transform (a TupleTag). */
  type Tag = nat

  /** One value the user function emits: to the main output, or to a side output. */
  datatype Emission = Output(value: int) | SideOutput(tag: Tag, value: int)

  /**
   * A user function that reads the side input `view`: given an element's
   * payload and the side input's value in the element's window, it emits a
   * list of values, or throws (None).
   */
  datatype DoFn = DoFn(view: View, processElement: (int, int) -> Option<seq<Emission>>)
}
