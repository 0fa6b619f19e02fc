/**
 * The action taxonomy of a feature. A feature's action is built by one of
 * three constructors, each wrapping its own payload type: `view` (events
 * sent by or to the view), `_internal` (effect results and actions private to
 * the reducer, child actions among them) and `delegate` (notifications for a
 * parent). The protocol only requires these three constructors, so a
 * conforming enum may declare further cases; `Other` stands for them.
 */
module FeatureAction {
  import opened Wrappers
  import opened CasePaths

  datatype Action<V, I, D> =
    | View(view: V)
    | Internal(internal: I)
    | Delegate(delegate: D)
    | Other

  /** `(/Action.view).extract(from:)`: the view payload, when the action is a view action. */
  function ExtractView<V, I, D>(a: Action<V, I, D>): (r: Option<V>)
    ensures r.Some? <==> a.View?
    ensures r.Some? ==> a == View(r.value)
  {
    match a
    case View(v) => Some(v)
    case _ => None
  }

  /** `(/Action._internal).extract(from:)`: the internal payload, when the action is internal. */
  function ExtractInternal<V, I, D>(a: Action<V, I, D>): (r: Option<I>)
    ensures r.Some? <==> a.Internal?
    ensures r.Some? ==> a == Internal(r.value)
  {
    match a
    case Internal(i) => Some(i)
    case _ => None
  }

  /** `(/Action.delegate).extract(from:)`: the delegate payload, when the action is a delegate action. */
  function ExtractDelegate<V, I, D>(a: Action<V, I, D>): (r: Option<D>)
    ensures r.Some? <==> a.Delegate?
    ensures r.Some? ==> a == Delegate(r.value)
  {
    match a
    case Delegate(d) => Some(d)
    case _ => None
  }

  /** The case paths `/Action.view`, `/Action._internal` and `/Action.delegate`; each obeys the case-path laws. */
  function ViewCase<V(!new), I(!new), D(!new)>(): (p: CasePath<Action<V, I, D>, V>)
    ensures Lawful(p)
  {
    CasePath(v => View(v), a => ExtractView(a))
  }

  function InternalCase<V(!new), I(!new), D(!new)>(): (p: CasePath<Action<V, I, D>, I>)
    ensures Lawful(p)
  {
    CasePath(i => Internal(i), a => ExtractInternal(a))
  }

  function DelegateCase<V(!new), I(!new), D(!new)>(): (p: CasePath<Action<V, I, D>, D>)
    ensures Lawful(p)
  {
    CasePath(d => Delegate(d), a => ExtractDelegate(a))
  }

  /** Each constructor's payload is recovered exactly by its own extraction. */
  lemma ExtractAfterConstruct<V, I, D>(v: V, i: I, d: D)
    ensures ExtractView(Action<V, I, D>.View(v)) == Some(v)
    ensures ExtractInternal(Action<V, I, D>.Internal(i)) == Some(i)
    ensures ExtractDelegate(Action<V, I, D>.Delegate(d)) == Some(d)
  {
  }

  /** An action built with one constructor never extracts as either of the other two. */
  lemma ConstructorsDisjoint<V, I, D>(v: V, i: I, d: D)
    ensures ExtractInternal(Action<V, I, D>.View(v)).None? && ExtractDelegate(Action<V, I, D>.View(v)).None?
    ensures ExtractView(Action<V, I, D>.Internal(i)).None? && ExtractDelegate(Action<V, I, D>.Internal(i)).None?
    ensures ExtractView(Action<V, I, D>.Delegate(d)).None? && ExtractInternal(Action<V, I, D>.Delegate(d)).None?
  {
  }

  /** Whatever the action, at most one of the three extractions succeeds, and none does for an extra case. */
  lemma AtMostOneExtraction<V, I, D>(a: Action<V, I, D>)
    ensures ExtractView(a).Some? ==> ExtractInternal(a).None? && ExtractDelegate(a).None?
    ensures ExtractInternal(a).Some? ==> ExtractView(a).None? && ExtractDelegate(a).None?
    ensures ExtractDelegate(a).Some? ==> ExtractView(a).None? && ExtractInternal(a).None?
    ensures a.Other? <==> ExtractView(a).None? && ExtractInternal(a).None? && ExtractDelegate(a).None?
  {
  }

  /** Equal actions built by the same constructor carry equal payloads, and conversely. */
  lemma ConstructorsInjective<V, I, D>(v1: V, v2: V, i1: I, i2: I, d1: D, d2: D)
    ensures Action<V, I, D>.View(v1) == Action<V, I, D>.View(v2) <==> v1 == v2
    ensures Action<V, I, D>.Internal(i1) == Action<V, I, D>.Internal(i2) <==> i1 == i2
    ensures Action<V, I, D>.Delegate(d1) == Action<V, I, D>.Delegate(d2) <==> d1 == d2
  {
  }
}
