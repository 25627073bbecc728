/** Classical truth-table semantics for formulas and sequents. The source
    has no semantics of its own; this one is the yardstick against which
    the rules of the two calculi are shown to be sound. */
module Semantics {
  import opened Props
  import opened Judgements

  /** A truth value for every atom name. */
  type Valuation = string -> bool

  /** The truth value of a formula under a valuation. */
  function Eval(p: Prop, v: Valuation): bool
  {
    match p
    case Atom(x) => v(x)
    case Falsum => false
    case Verum => true
    case Negation(n) => !Eval(n, v)
    case Implication(a, c) => Eval(a, v) ==> Eval(c, v)
    case Conjunction(l, r) => Eval(l, v) && Eval(r, v)
    case Disjunction(l, r) => Eval(l, v) || Eval(r, v)
  }

  /** Every formula of the list is true. */
  predicate AllTrue(fs: Formulas, v: Valuation)
  {
    forall i :: 0 <= i < |fs| ==> Eval(fs[i], v)
  }

  /** Some formula of the list is true. */
  predicate SomeTrue(fs: Formulas, v: Valuation)
  {
    exists i :: 0 <= i < |fs| && Eval(fs[i], v)
  }

  /** A sequent holds under a valuation when, if all of its antecedent is
      true, some formula of its succedent is. */
  predicate Holds(j: Judgement, v: Valuation)
  {
    AllTrue(j.antecedent, v) ==> SomeTrue(j.succedent, v)
  }

  /** Truth of a concatenation, on either side of a sequent. */
  lemma AllTrueAppend(a: Formulas, b: Formulas, v: Valuation)
    ensures AllTrue(a + b, v) <==> AllTrue(a, v) && AllTrue(b, v)
  {
    if AllTrue(a, v) && AllTrue(b, v) {
      forall i | 0 <= i < |a + b| ensures Eval((a + b)[i], v) {
        if i >= |a| { assert (a + b)[i] == b[i - |a|]; }
      }
    }
    if AllTrue(a + b, v) {
      forall i | 0 <= i < |a| ensures Eval(a[i], v) {
        assert (a + b)[i] == a[i];
      }
      forall i | 0 <= i < |b| ensures Eval(b[i], v) {
        assert (a + b)[|a| + i] == b[i];
      }
    }
  }

  lemma SomeTrueAppend(a: Formulas, b: Formulas, v: Valuation)
    ensures SomeTrue(a + b, v) <==> SomeTrue(a, v) || SomeTrue(b, v)
  {
    if SomeTrue(a + b, v) {
      var i :| 0 <= i < |a + b| && Eval((a + b)[i], v);
      if i >= |a| { assert (a + b)[i] == b[i - |a|]; }
    }
    if SomeTrue(b, v) {
      var i :| 0 <= i < |b| && Eval(b[i], v);
      assert (a + b)[|a| + i] == b[i];
    }
    if SomeTrue(a, v) {
      var i :| 0 <= i < |a| && Eval(a[i], v);
      assert (a + b)[i] == a[i];
    }
  }

  /** A one-formula list is true exactly when its formula is. */
  lemma Single(p: Prop, v: Valuation)
    ensures AllTrue([p], v) <==> Eval(p, v)
    ensures SomeTrue([p], v) <==> Eval(p, v)
  {
    assert [p][0] == p;
    if SomeTrue([p], v) {
      var i :| 0 <= i < 1 && Eval([p][i], v);
      assert i == 0;
    }
  }

  /** Truth of lists depends on their contents only, not their order. */
  lemma TrueByMultiset(a: Formulas, b: Formulas, v: Valuation)
    requires multiset(a) == multiset(b)
    ensures AllTrue(a, v) <==> AllTrue(b, v)
    ensures SomeTrue(a, v) <==> SomeTrue(b, v)
  {
    forall x | x in a ensures x in b { assert x in multiset(a); }
    forall x | x in b ensures x in a { assert x in multiset(b); }
    if !AllTrue(a, v) {
      var i :| 0 <= i < |a| && !Eval(a[i], v);
      assert a[i] in b;
    }
    if !AllTrue(b, v) {
      var i :| 0 <= i < |b| && !Eval(b[i], v);
      assert b[i] in a;
    }
    if SomeTrue(a, v) {
      var i :| 0 <= i < |a| && Eval(a[i], v);
      assert a[i] in b;
    }
    if SomeTrue(b, v) {
      var i :| 0 <= i < |b| && Eval(b[i], v);
      assert b[i] in a;
    }
  }

  /** A conclusion `⊢ p` holds exactly when `p` is true. */
  lemma HoldsConclusion(p: Prop, v: Valuation)
    ensures Holds(Conclusion(p), v) <==> Eval(p, v)
  {
    Single(p, v);
  }
}
