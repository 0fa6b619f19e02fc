/**
 * The dispatch both generations of `BoundingReducer` derive from the three
 * handlers: try the view case, then the internal case, then the delegate
 * case, and hand the extracted payload to the matching handler; if nothing
 * matches, return `.none` and leave the state alone.
 *
 * `inout State` is modelled by handlers that take the state and return the
 * new state together with the effect. Effects are opaque except for the
 * distinguished `.none`.
 */
module Dispatch {
  import opened Wrappers
  import opened FeatureAction

  datatype Effect<Op> = NoEffect | Run(op: Op)

  /** `reduce(into: &state, <case>Action: payload) -> Effect<Action>`. */
  type Handler<!S, !P, Op> = (S, P) -> (S, Effect<Op>)

  datatype Handlers<!S, !V, !I, !D, Op> = Handlers(
    onView: Handler<S, V, Op>,
    onInternal: Handler<S, I, Op>,
    onDelegate: Handler<S, D, Op>)

  /** The default handler of the protocol extensions: `{ .none }`, state untouched. */
  function Ignore<S(!new), P(!new), Op>(): (h: Handler<S, P, Op>)
    ensures forall s, p :: h(s, p) == (s, NoEffect)
  {
    (s, p) => (s, NoEffect)
  }

  /** The derived `reduce(into:action:)`: the first successful extraction picks the handler. */
  function Route<S, V, I, D, Op>(h: Handlers<S, V, I, D, Op>, s: S, a: Action<V, I, D>): (r: (S, Effect<Op>))
    ensures a.View? ==> r == h.onView(s, a.view)
    ensures a.Internal? ==> r == h.onInternal(s, a.internal)
    ensures a.Delegate? ==> r == h.onDelegate(s, a.delegate)
    ensures a.Other? ==> r == (s, NoEffect)
  {
    match ExtractView(a)
    case Some(v) => h.onView(s, v)
    case None =>
      match ExtractInternal(a)
      case Some(i) => h.onInternal(s, i)
      case None =>
        match ExtractDelegate(a)
        case Some(d) => h.onDelegate(s, d)
        case None => (s, NoEffect)
  }

  /** Two handler sets that answer alike on the handler `a` is routed to, at `s` and `a`'s payload. */
  ghost predicate AgreeOnRoutedHandler<S, V, I, D, Op>(h1: Handlers<S, V, I, D, Op>, h2: Handlers<S, V, I, D, Op>, s: S, a: Action<V, I, D>) {
    match a
    case View(v) => h1.onView(s, v) == h2.onView(s, v)
    case Internal(i) => h1.onInternal(s, i) == h2.onInternal(s, i)
    case Delegate(d) => h1.onDelegate(s, d) == h2.onDelegate(s, d)
    case Other => true
  }

  /** Only the routed handler is consulted: changing the other two handlers cannot change the outcome. */
  lemma OnlyRoutedHandlerMatters<S, V, I, D, Op>(h1: Handlers<S, V, I, D, Op>, h2: Handlers<S, V, I, D, Op>, s: S, a: Action<V, I, D>)
    requires AgreeOnRoutedHandler(h1, h2, s, a)
    ensures Route(h1, s, a) == Route(h2, s, a)
  {
  }

  /** `a` is ignored by `h`: from every state it yields `.none` and the same state. */
  ghost predicate Ignores<S(!new), V, I, D, Op>(h: Handlers<S, V, I, D, Op>, a: Action<V, I, D>) {
    forall s :: Route(h, s, a) == (s, NoEffect)
  }

  /** The state after reducing `actions` one after the other, and the effect of each. */
  function ReduceInOrder<S, V, I, D, Op>(h: Handlers<S, V, I, D, Op>, s: S, actions: seq<Action<V, I, D>>): (r: (S, seq<Effect<Op>>))
    ensures |r.1| == |actions|
    decreases |actions|
  {
    if actions == [] then (s, [])
    else
      var (s1, e1) := Route(h, s, actions[0]);
      var (s2, es) := ReduceInOrder(h, s1, actions[1..]);
      (s2, [e1] + es)
  }

  /** Reducing any number of ignored actions in a row leaves the state as it was and yields only `.none`. */
  lemma {:induction false} IgnoredRunKeepsState<S(!new), V, I, D, Op>(h: Handlers<S, V, I, D, Op>, s: S, actions: seq<Action<V, I, D>>)
    requires forall k :: 0 <= k < |actions| ==> Ignores(h, actions[k])
    ensures ReduceInOrder(h, s, actions).0 == s
    ensures forall k :: 0 <= k < |actions| ==> ReduceInOrder(h, s, actions).1[k] == NoEffect
  {
    if actions != [] {
      assert Ignores(h, actions[0]);
      assert Route(h, s, actions[0]) == (s, NoEffect);
      IgnoredRunKeepsState(h, s, actions[1..]);
    }
  }
}
