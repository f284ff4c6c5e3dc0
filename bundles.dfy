/**
 * Bundles: an uncommitted bundle is an append-only batch bound to one
 * destination collection; committing it freezes its elements and stamps it
 * with a commit time.
 */
module Bundles {
  import opened WindowedValues

  /** Identifies a collection (a PCollection) of the pipeline. */
  type CollectionId = nat

  /** An immutable batch of values of one collection, with its commit time. */
  datatype CommittedBundle<T> = CommittedBundle(collection: CollectionId, elements: seq<WindowedValue<T>>, commitTime: Instant)

  /** A batch still being filled, bound to the collection it will belong to. */
  datatype UncommittedBundle<T> = UncommittedBundle(collection: CollectionId, elements: seq<WindowedValue<T>>)

  /** A fresh bundle for externally injected input to `collection`. */
  function CreateRootBundle<T>(collection: CollectionId): (b: UncommittedBundle<T>)
    ensures b.collection == collection && b.elements == []
  {
    UncommittedBundle(collection, [])
  }

  /** A fresh bundle of `destination`, produced while processing `input`. */
  function CreateBundle<S, T>(input: CommittedBundle<S>, destination: CollectionId): (b: UncommittedBundle<T>)
    ensures b.collection == destination && b.elements == []
  {
    UncommittedBundle(destination, [])
  }

  /** Appends one value; the destination never changes. */
  function Add<T>(b: UncommittedBundle<T>, x: WindowedValue<T>): UncommittedBundle<T>
  {
    b.(elements := b.elements + [x])
  }

  /** Appends the values in order. */
  function AddAll<T>(b: UncommittedBundle<T>, xs: seq<WindowedValue<T>>): UncommittedBundle<T>
    decreases |xs|
  {
    if xs == [] then b else AddAll(Add(b, xs[0]), xs[1..])
  }

  /** Freezes the bundle at `commitTime`. */
  function Commit<T>(b: UncommittedBundle<T>, commitTime: Instant): CommittedBundle<T>
  {
    CommittedBundle(b.collection, b.elements, commitTime)
  }

  /**
   * Appending values one at a time and then committing yields exactly the
   * appended values, in append order, in the bundle's collection.
   */
  lemma {:induction false} CommitAfterAdds<T>(b: UncommittedBundle<T>, xs: seq<WindowedValue<T>>, commitTime: Instant)
    ensures Commit(AddAll(b, xs), commitTime).elements == b.elements + xs
    ensures Commit(AddAll(b, xs), commitTime).collection == b.collection
    ensures Commit(AddAll(b, xs), commitTime).commitTime == commitTime
    decreases |xs|
  {
    if xs != [] {
      CommitAfterAdds(Add(b, xs[0]), xs[1..], commitTime);
      assert b.elements + [xs[0]] + xs[1..] == b.elements + xs;
    }
  }
}
