/** Weighted sampling, with the random source injected. */
module Sampler {
  import opened Results

  /** A source of random draws: given a draw number (which step of the run is
      asking), a non-empty population and its weights, it names a position in
      the population. Nothing else is assumed of it; in particular nothing
      about the distribution of its answers. */
  type Chooser = f: (nat, seq<string>, seq<nat>) -> nat
    | forall t, ks, ws :: |ks| > 0 ==> f(t, ks, ws) < |ks|
    witness (t: nat, ks: seq<string>, ws: seq<nat>) => 0

  /** One weighted draw of a single member of the population,
      or a failure when the population is empty. */
  function Choices(pick: Chooser, t: nat, ks: seq<string>, ws: seq<nat>): (r: Result<string>)
    ensures r.Ok? <==> |ks| > 0
    ensures r.Ok? ==> r.value in ks
    ensures r.Err? ==> r.error == EmptyDistribution
  {
    if |ks| == 0 then Err(EmptyDistribution) else Ok(ks[pick(t, ks, ws)])
  }
}
