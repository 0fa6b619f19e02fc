/**
 * The newer generation, built on `Reducer` and `Effect`. A conforming
 * reducer must implement the view handler; both the internal and the
 * delegate handler have defaults that return `.none`.
 */
module BoundingReducer {
  import opened Wrappers
  import opened FeatureAction
  import opened Dispatch

  /** A conformance: the view handler, and the internal and delegate handlers it overrides, if any. */
  datatype Feature<!S, !V, !I, !D, Op> = Feature(
    onView: Handler<S, V, Op>,
    onInternal: Option<Handler<S, I, Op>>,
    onDelegate: Option<Handler<S, D, Op>>)

  /** The handlers in force once the protocol extension has supplied the defaults, each independently. */
  function Resolve<S(!new), V, I(!new), D(!new), Op>(f: Feature<S, V, I, D, Op>): (h: Handlers<S, V, I, D, Op>)
    ensures h.onView == f.onView
    ensures f.onInternal.Some? ==> h.onInternal == f.onInternal.value
    ensures f.onInternal.None? ==> forall s, i :: h.onInternal(s, i) == (s, NoEffect)
    ensures f.onDelegate.Some? ==> h.onDelegate == f.onDelegate.value
    ensures f.onDelegate.None? ==> forall s, d :: h.onDelegate(s, d) == (s, NoEffect)
  {
    Handlers(
      f.onView,
      match f.onInternal
      case Some(h) => h
      case None => Ignore(),
      match f.onDelegate
      case Some(h) => h
      case None => Ignore())
  }

  /** The derived `reduce(into:action:)` (for `Body == Never`). */
  function Reduce<S(!new), V, I(!new), D(!new), Op>(f: Feature<S, V, I, D, Op>, s: S, a: Action<V, I, D>): (r: (S, Effect<Op>))
    ensures a.View? ==> r == f.onView(s, a.view)
    ensures a.Internal? && f.onInternal.Some? ==> r == f.onInternal.value(s, a.internal)
    ensures a.Internal? && f.onInternal.None? ==> r == (s, NoEffect)
    ensures a.Delegate? && f.onDelegate.Some? ==> r == f.onDelegate.value(s, a.delegate)
    ensures a.Delegate? && f.onDelegate.None? ==> r == (s, NoEffect)
    ensures a.Other? ==> r == (s, NoEffect)
  {
    Route(Resolve(f), s, a)
  }

  /** `a` is not a view action, and the handler it is routed to (if any) is left to its default. */
  predicate ReachesDefault<S, V, I, D, Op>(f: Feature<S, V, I, D, Op>, a: Action<V, I, D>) {
    && !a.View?
    && (a.Internal? ==> f.onInternal.None?)
    && (a.Delegate? ==> f.onDelegate.None?)
  }

  /** An action routed to a default handler (or to none) is ignored, whichever handlers are overridden. */
  lemma DefaultsIgnoreNonView<S(!new), V, I(!new), D(!new), Op>(f: Feature<S, V, I, D, Op>, a: Action<V, I, D>)
    requires ReachesDefault(f, a)
    ensures Ignores(Resolve(f), a)
  {
  }

  /** An internal or delegate action left to its default yields `.none` with state unchanged, and reducing it twice in a row is the same as once. */
  lemma DefaultsIdempotent<S(!new), V, I(!new), D(!new), Op>(f: Feature<S, V, I, D, Op>, s: S, a: Action<V, I, D>)
    requires (a.Internal? && f.onInternal.None?) || (a.Delegate? && f.onDelegate.None?)
    ensures Reduce(f, s, a) == (s, NoEffect)
    ensures Reduce(f, Reduce(f, s, a).0, a) == Reduce(f, s, a)
  {
  }

  /** Any run of non-view actions whose handlers are left to their defaults keeps the state unchanged and yields only `.none`. */
  lemma {:induction false} DefaultsRunKeepsState<S(!new), V, I(!new), D(!new), Op>(f: Feature<S, V, I, D, Op>, s: S, actions: seq<Action<V, I, D>>)
    requires forall k :: 0 <= k < |actions| ==> ReachesDefault(f, actions[k])
    ensures ReduceInOrder(Resolve(f), s, actions).0 == s
    ensures forall k :: 0 <= k < |actions| ==> ReduceInOrder(Resolve(f), s, actions).1[k] == NoEffect
  {
    forall k | 0 <= k < |actions| ensures Ignores(Resolve(f), actions[k]) {
      DefaultsIgnoreNonView(f, actions[k]);
    }
    IgnoredRunKeepsState(Resolve(f), s, actions);
  }
}
