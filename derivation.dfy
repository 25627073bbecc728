/** The derivation trees of `src/lib/derivation.ts`: a premise, or a
    transformation that derives its result from the derivations it depends
    on by a named rule. */
module Derivations {
  import opened Judgements

  /** A rule name (`Rule = string`). */
  type Rule = string

  /** `premise(result)` and `transformation(result, deps, rule)`. */
  datatype Derivation =
    | Premise(result: Judgement)
    | Transformation(result: Judgement, deps: seq<Derivation>, rule: Rule)

  /** `introduction(result, rule)`: a transformation with no dependencies. */
  function Introduction(result: Judgement, rule: Rule): (d: Derivation)
    ensures d.Transformation? && d.result == result && d.deps == [] && d.rule == rule
  {
    Transformation(result, [], rule)
  }

  /** The height of a derivation tree: 0 for a premise and one more than its
      deepest dependency for a transformation. */
  function Depth(d: Derivation): nat
  {
    match d
    case Premise(_) => 0
    case Transformation(_, deps, _) => 1 + MaxDepth(deps)
  }

  /** The deepest of the derivations (0 for none). */
  function MaxDepth(ds: seq<Derivation>): nat
  {
    if |ds| == 0 then 0 else
      var rest := MaxDepth(ds[1..]);
      var here := Depth(ds[0]);
      if here < rest then rest else here
  }

  /** MaxDepth is the maximum: it bounds every depth and is reached. */
  lemma {:induction false} MaxDepthIs(ds: seq<Derivation>)
    ensures forall i :: 0 <= i < |ds| ==> Depth(ds[i]) <= MaxDepth(ds)
    ensures |ds| > 0 ==> exists i :: 0 <= i < |ds| && Depth(ds[i]) == MaxDepth(ds)
  {
    if |ds| > 0 {
      MaxDepthIs(ds[1..]);
      assert forall i :: 1 <= i < |ds| ==> ds[i] == ds[1..][i - 1];
      if |ds| > 1 && Depth(ds[0]) < MaxDepth(ds[1..]) {
        var j :| 0 <= j < |ds[1..]| && Depth(ds[1..][j]) == MaxDepth(ds[1..]);
        assert ds[j + 1] == ds[1..][j];
      }
    }
  }

  /** An introduction is a one-step tree and a premise has height 0. */
  lemma IntroductionDepth(result: Judgement, rule: Rule)
    ensures Depth(Introduction(result, rule)) == 1
    ensures Depth(Premise(result)) == 0
  {
  }
}
