/**
 * The store mappings of the action taxonomy. `Store.scope(state:action:)`
 * belongs to the library; what this layer contributes are the two closures
 * it hands to it: how to derive the child state from the parent state, and
 * how to turn a child action into a parent action.
 */
module StoreScope {
  import opened Wrappers
  import opened CasePaths
  import opened FeatureAction
  import opened Dispatch

  /** The arguments of a `scope(state:action:)` call. */
  datatype Scoping<!State, !ChildState, !ParentAction, !ChildAction> = Scoping(
    toChildState: State -> ChildState,
    fromChildAction: ChildAction -> ParentAction)

  /** `viewScope`: `scope(state: { $0 }, action: Action.view)`. */
  function ViewScope<S(!new), V(!new), I(!new), D(!new)>(): (sc: Scoping<S, S, Action<V, I, D>, V>)
    ensures forall s :: sc.toChildState(s) == s
    ensures forall v :: ExtractView(sc.fromChildAction(v)) == Some(v)
  {
    Scoping(s => s, v => View(v))
  }

  /** `scope(state:action:)`: the caller's state function, and `{ ._internal(fromChildAction.embed($0)) }`. */
  function Scope<S(!new), CS, V(!new), I(!new), D(!new), C(!new)>(toChildState: S -> CS, fromChildAction: CasePath<I, C>): (sc: Scoping<S, CS, Action<V, I, D>, C>)
    ensures sc.toChildState == toChildState
    ensures forall c :: ExtractInternal(sc.fromChildAction(c)) == Some(fromChildAction.embed(c))
  {
    Scoping(toChildState, c => Internal(fromChildAction.embed(c)))
  }

  /** `viewScope` keeps the whole state. */
  lemma ViewScopeKeepsState<S(!new), V(!new), I(!new), D(!new)>(s: S)
    ensures ViewScope<S, V, I, D>().toChildState(s) == s
  {
  }

  /** `viewScope` sends each view payload as that view action, which the derived reduce gives to the view handler. */
  lemma ViewScopeReachesViewHandler<S(!new), V(!new), I(!new), D(!new), Op>(h: Handlers<S, V, I, D, Op>, s: S, v: V)
    ensures ExtractView(ViewScope<S, V, I, D>().fromChildAction(v)) == Some(v)
    ensures Route(h, s, ViewScope<S, V, I, D>().fromChildAction(v)) == h.onView(s, v)
  {
  }

  /** `scope(state:action:)` passes the caller's state function through. */
  lemma ScopeKeepsStateFunction<S(!new), CS, V(!new), I(!new), D(!new), C(!new)>(toChildState: S -> CS, p: CasePath<I, C>)
    ensures Scope<S, CS, V, I, D, C>(toChildState, p).toChildState == toChildState
  {
  }

  /** A scoped child action is always an internal action, never a view or delegate one. */
  lemma ScopeYieldsInternalOnly<S(!new), CS, V(!new), I(!new), D(!new), C(!new)>(toChildState: S -> CS, p: CasePath<I, C>, c: C)
    ensures ExtractInternal(Scope<S, CS, V, I, D, C>(toChildState, p).fromChildAction(c)) == Some(p.embed(c))
    ensures ExtractView(Scope<S, CS, V, I, D, C>(toChildState, p).fromChildAction(c)).None?
    ensures ExtractDelegate(Scope<S, CS, V, I, D, C>(toChildState, p).fromChildAction(c)).None?
  {
  }

  /** The action mapping is the embed of `_internal` composed with the child path, as Scope, ifLet and forEach build it. */
  lemma ScopeIsAppendedEmbed<S(!new), CS, V(!new), I(!new), D(!new), C(!new)>(toChildState: S -> CS, p: CasePath<I, C>, c: C)
    ensures Scope<S, CS, V, I, D, C>(toChildState, p).fromChildAction(c) == Appending(InternalCase<V, I, D>(), p).embed(c)
  {
  }

  /** If the child path round-trips, extracting `_internal` and then the child case recovers the child action. */
  lemma ScopeRoundTrip<S(!new), CS, V(!new), I(!new), D(!new), C(!new)>(toChildState: S -> CS, p: CasePath<I, C>, c: C)
    requires RoundTrips(p)
    ensures Appending(InternalCase<V, I, D>(), p).extract(Scope<S, CS, V, I, D, C>(toChildState, p).fromChildAction(c)) == Some(c)
    ensures match ExtractInternal(Scope<S, CS, V, I, D, C>(toChildState, p).fromChildAction(c))
            case Some(i) => p.extract(i) == Some(c)
            case None => false
  {
  }

  /** A lawful child path composes with `_internal` into a lawful path from parent action to child action. */
  lemma ScopedPathLawful<V(!new), I(!new), D(!new), C(!new)>(p: CasePath<I, C>)
    requires Lawful(p)
    ensures Lawful(Appending(InternalCase<V, I, D>(), p))
  {
  }
}
