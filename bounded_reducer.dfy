/**
 * The older generation, built on `ReducerProtocol` and `EffectTask`. A
 * conforming reducer must implement the view and internal handlers; the
 * delegate handler has a default that returns `.none`. The same file also
 * holds `ComposedBoundingReducer`, whose `reduceCore` repeats the dispatch
 * and whose `coreReducer` wraps it as a reducer value.
 */
module BoundedReducer {
  import opened Wrappers
  import opened FeatureAction
  import opened Dispatch

  /** A conformance: the handlers the reducer implements; `None` leaves the delegate handler to the default. */
  datatype Feature<!S, !V, !I, !D, Op> = Feature(
    onView: Handler<S, V, Op>,
    onInternal: Handler<S, I, Op>,
    onDelegate: Option<Handler<S, D, Op>>)

  /** The handlers in force once the protocol extension has supplied the default. */
  function Resolve<S(!new), V, I(!new), D(!new), Op>(f: Feature<S, V, I, D, Op>): (h: Handlers<S, V, I, D, Op>)
    ensures h.onView == f.onView && h.onInternal == f.onInternal
    ensures f.onDelegate.Some? ==> h.onDelegate == f.onDelegate.value
    ensures f.onDelegate.None? ==> forall s, d :: h.onDelegate(s, d) == (s, NoEffect)
  {
    Handlers(
      f.onView,
      f.onInternal,
      match f.onDelegate
      case Some(h) => h
      case None => Ignore())
  }

  /** The derived `reduce(into:action:)` (for `Body == Never`). */
  function Reduce<S(!new), V, I(!new), D(!new), Op>(f: Feature<S, V, I, D, Op>, s: S, a: Action<V, I, D>): (r: (S, Effect<Op>))
    ensures a.View? ==> r == f.onView(s, a.view)
    ensures a.Internal? ==> r == f.onInternal(s, a.internal)
    ensures a.Delegate? && f.onDelegate.Some? ==> r == f.onDelegate.value(s, a.delegate)
    ensures a.Delegate? && f.onDelegate.None? ==> r == (s, NoEffect)
    ensures a.Other? ==> r == (s, NoEffect)
  {
    Route(Resolve(f), s, a)
  }

  /** `ComposedBoundingReducer.reduceCore(into:action:)`: the same chain, for use inside a composed body. */
  function ReduceCore<S(!new), V, I(!new), D(!new), Op>(f: Feature<S, V, I, D, Op>, s: S, a: Action<V, I, D>): (r: (S, Effect<Op>))
    ensures r == Reduce(f, s, a)
  {
    Route(Resolve(f), s, a)
  }

  /** `coreReducer`: `Reduce(reduceCore)`, a reducer value that runs `reduceCore`. */
  function CoreReducer<S(!new), V(!new), I(!new), D(!new), Op>(f: Feature<S, V, I, D, Op>): (reducer: (S, Action<V, I, D>) -> (S, Effect<Op>))
    ensures forall s, a :: reducer(s, a) == ReduceCore(f, s, a)
    ensures forall s, a :: reducer(s, a) == Reduce(f, s, a)
  {
    (s, a) => ReduceCore(f, s, a)
  }

  /** Without an override, every delegate action is ignored. */
  lemma DefaultDelegateIgnored<S(!new), V, I(!new), D(!new), Op>(f: Feature<S, V, I, D, Op>, d: D)
    requires f.onDelegate.None?
    ensures Ignores(Resolve(f), Delegate(d))
  {
  }

  /** Without an override, any run of delegate actions leaves the state unchanged and yields only `.none`. */
  lemma {:induction false} DefaultDelegateRunKeepsState<S(!new), V, I(!new), D(!new), Op>(f: Feature<S, V, I, D, Op>, s: S, actions: seq<Action<V, I, D>>)
    requires f.onDelegate.None?
    requires forall k :: 0 <= k < |actions| ==> actions[k].Delegate?
    ensures ReduceInOrder(Resolve(f), s, actions).0 == s
    ensures forall k :: 0 <= k < |actions| ==> ReduceInOrder(Resolve(f), s, actions).1[k] == NoEffect
  {
    forall k | 0 <= k < |actions| ensures Ignores(Resolve(f), actions[k]) {
      DefaultDelegateIgnored(f, actions[k].delegate);
    }
    IgnoredRunKeepsState(Resolve(f), s, actions);
  }
}
