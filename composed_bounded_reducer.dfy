/**
 * `ComposedBoundingReducer` of the newer generation: a reducer with its own
 * composed body, which reaches its three handlers through `reduceCore`,
 * usually by way of `coreReducer` placed inside that body.
 */
module ComposedBoundedReducer {
  import opened FeatureAction
  import opened Dispatch
  import BoundingReducer

  /** `reduceCore(into:action:)`: view, then internal, then delegate; `.none` when nothing matches. */
  function ReduceCore<S(!new), V, I(!new), D(!new), Op>(f: BoundingReducer.Feature<S, V, I, D, Op>, s: S, a: Action<V, I, D>): (r: (S, Effect<Op>))
    ensures a.View? ==> r == f.onView(s, a.view)
    ensures a.Internal? ==> r == BoundingReducer.Resolve(f).onInternal(s, a.internal)
    ensures a.Delegate? ==> r == BoundingReducer.Resolve(f).onDelegate(s, a.delegate)
    ensures a.Other? ==> r == (s, NoEffect)
  {
    Route(BoundingReducer.Resolve(f), s, a)
  }

  /** `coreReducer`: `Reduce(reduceCore)`, a reducer value that runs `reduceCore`, and so the derived reduce. */
  function CoreReducer<S(!new), V(!new), I(!new), D(!new), Op>(f: BoundingReducer.Feature<S, V, I, D, Op>): (reducer: (S, Action<V, I, D>) -> (S, Effect<Op>))
    ensures forall s, a :: reducer(s, a) == ReduceCore(f, s, a)
    ensures forall s, a :: reducer(s, a) == BoundingReducer.Reduce(f, s, a)
  {
    (s, a) => ReduceCore(f, s, a)
  }

  /** `reduceCore` agrees with the derived `reduce(into:action:)` on every state and action. */
  lemma ReduceCoreAgreesWithReduce<S(!new), V, I(!new), D(!new), Op>(f: BoundingReducer.Feature<S, V, I, D, Op>, s: S, a: Action<V, I, D>)
    ensures ReduceCore(f, s, a) == BoundingReducer.Reduce(f, s, a)
  {
  }
}
