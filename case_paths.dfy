/**
 * Case paths: the embed/extract pair that addresses one case of an enum.
 * `embed` builds the case from its payload; `extract` is a partial matcher
 * that gives the payload back when the value is that case and `None` when
 * it is not. The library that supplies them is not part of this model; only
 * the two operations the action taxonomy relies on are given here: a case
 * path's laws and the composition `appending(path:)`.
 */
module CasePaths {
  import opened Wrappers

  datatype CasePath<!Root, !Value> = CasePath(embed: Value -> Root, extract: Root -> Option<Value>)

  /** Extracting what was just embedded gives it back. */
  ghost predicate RoundTrips<Root, Value(!new)>(p: CasePath<Root, Value>) {
    forall x :: p.extract(p.embed(x)) == Some(x)
  }

  /** Whatever extracts successfully is the embedding of its payload. */
  ghost predicate ExtractsOnlyEmbedded<Root(!new), Value>(p: CasePath<Root, Value>) {
    forall r :: p.extract(r).Some? ==> p.embed(p.extract(r).value) == r
  }

  ghost predicate Lawful<Root(!new), Value(!new)>(p: CasePath<Root, Value>) {
    RoundTrips(p) && ExtractsOnlyEmbedded(p)
  }

  /**
   * `outer.appending(path: inner)`: embed through inner then outer; extract
   * through outer then inner. Appending keeps each law: the composed path
   * round-trips, and extracts only what it embeds, when both parts do.
   */
  function Appending<A(!new), B(!new), C(!new)>(outer: CasePath<A, B>, inner: CasePath<B, C>): (p: CasePath<A, C>)
    ensures RoundTrips(outer) && RoundTrips(inner) ==> RoundTrips(p)
    ensures ExtractsOnlyEmbedded(outer) && ExtractsOnlyEmbedded(inner) ==> ExtractsOnlyEmbedded(p)
  {
    CasePath(
      x => outer.embed(inner.embed(x)),
      r => match outer.extract(r)
           case None => None
           case Some(m) => inner.extract(m))
  }
}
