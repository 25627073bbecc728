/** Gentzen's sequent calculus LK as built by `src/systems/lk.ts`. Every
    rule reads its premises' antecedent and succedent with `head`, `tail`,
    `init` and `last` and builds the conclusion with array spreads. The
    shapes the TypeScript conditional types demand of a premise become
    `requires` on lengths, and the conditional types themselves become the
    `...Shape` lemmas, with `Γ`, `Δ`, `Σ`, `Π` as sequence parameters. Each
    rule is also shown sound for the truth-table semantics. */
module LK {
  import opened Wrappers
  import opened Props
  import opened Judgements
  import opened Derivations
  import opened Arrays
  import opened Semantics

  function Ant(d: Derivation): Formulas { d.result.antecedent }
  function Suc(d: Derivation): Formulas { d.result.succedent }

  // Axiom

  /** `i(a)`: the axiom `a ⊢ a`. */
  function I(a: Prop): Derivation
  {
    Introduction(Judgement([a], [a]), "I")
  }

  // Cut

  /** `cut(s1, s2)`: `Γ ⊢ Δ, A` and `A', Σ ⊢ Π` give `Γ, Σ ⊢ Δ, Π`. The
      code drops the last succedent formula of `s1` and the first
      antecedent formula of `s2` without comparing them. */
  function Cut(s1: Derivation, s2: Derivation): Derivation
  {
    Transformation(Judgement(Ant(s1) + Tail(Ant(s2)), Init(Suc(s1)) + Suc(s2)), [s1, s2], "Cut")
  }

  /** Cut with the comparison of the two cut formulas that the `cut` rule
      of LK calls for, failing with the message of `assertEqual` like
      contraction does when they differ. */
  function CutChecked(s1: Derivation, s2: Derivation): Result<Derivation>
    requires |Suc(s1)| >= 1 && |Ant(s2)| >= 1
  {
    if Last(Suc(s1)) == Head(Ant(s2)) then Ok(Cut(s1, s2)) else Err("Unexpected value")
  }

  // Conjunction and disjunction

  /** `cl1(b, s)`: `Γ, A ⊢ Δ` gives `Γ, A∧B ⊢ Δ`. */
  function Cl1(b: Prop, s: Derivation): Derivation
    requires |Ant(s)| >= 1
  {
    Transformation(Judgement(Init(Ant(s)) + [Conjunction(Last(Ant(s)), b)], Suc(s)), [s], "cl1")
  }

  /** `dr1(b, s)`: `Γ ⊢ A, Δ` gives `Γ ⊢ A∨B, Δ`. */
  function Dr1(b: Prop, s: Derivation): Derivation
    requires |Suc(s)| >= 1
  {
    Transformation(Judgement(Ant(s), [Disjunction(Head(Suc(s)), b)] + Tail(Suc(s))), [s], "dr1")
  }

  /** `cl2(a, s)`: `Γ, B ⊢ Δ` gives `Γ, A∧B ⊢ Δ`. */
  function Cl2(a: Prop, s: Derivation): Derivation
    requires |Ant(s)| >= 1
  {
    Transformation(Judgement(Init(Ant(s)) + [Conjunction(a, Last(Ant(s)))], Suc(s)), [s], "cl2")
  }

  /** `dr2(a, s)`: `Γ ⊢ B, Δ` gives `Γ ⊢ A∨B, Δ`. */
  function Dr2(a: Prop, s: Derivation): Derivation
    requires |Suc(s)| >= 1
  {
    Transformation(Judgement(Ant(s), [Disjunction(a, Head(Suc(s)))] + Tail(Suc(s))), [s], "dr2")
  }

  /** `dl(s1, s2)`: `Γ, A ⊢ Δ` and `Σ, B ⊢ Π` give `Γ, Σ, A∨B ⊢ Δ, Π`. */
  function Dl(s1: Derivation, s2: Derivation): Derivation
    requires |Ant(s1)| >= 1 && |Ant(s2)| >= 1
  {
    Transformation(
      Judgement(Init(Ant(s1)) + Init(Ant(s2)) + [Disjunction(Last(Ant(s1)), Last(Ant(s2)))],
        Suc(s1) + Suc(s2)),
      [s1, s2], "dl")
  }

  /** `cr(s1, s2)`: `Γ ⊢ A, Δ` and `Σ ⊢ B, Π` give `Γ, Σ ⊢ A∧B, Δ, Π`. */
  function Cr(s1: Derivation, s2: Derivation): Derivation
    requires |Suc(s1)| >= 1 && |Suc(s2)| >= 1
  {
    Transformation(
      Judgement(Ant(s1) + Ant(s2),
        [Conjunction(Head(Suc(s1)), Head(Suc(s2)))] + Tail(Suc(s1)) + Tail(Suc(s2))),
      [s1, s2], "cr")
  }

  // Implication

  /** `il(s1, s2)`: `Γ ⊢ A, Δ` and `Σ, B ⊢ Π` give `Γ, Σ, A→B ⊢ Δ, Π`. */
  function Il(s1: Derivation, s2: Derivation): Derivation
    requires |Suc(s1)| >= 1 && |Ant(s2)| >= 1
  {
    Transformation(
      Judgement(Ant(s1) + Init(Ant(s2)) + [Implication(Head(Suc(s1)), Last(Ant(s2)))],
        Tail(Suc(s1)) + Suc(s2)),
      [s1, s2], "il")
  }

  /** `ir(s)`: `Γ, A ⊢ B, Δ` gives `Γ ⊢ A→B, Δ`. */
  function Ir(s: Derivation): Derivation
    requires |Ant(s)| >= 1 && |Suc(s)| >= 1
  {
    Transformation(
      Judgement(Init(Ant(s)), [Implication(Last(Ant(s)), Head(Suc(s)))] + Tail(Suc(s))), [s], "ir")
  }

  // Negation

  /** `nl(s)`: `Γ ⊢ A, Δ` gives `Γ, ¬A ⊢ Δ`. */
  function Nl(s: Derivation): Derivation
    requires |Suc(s)| >= 1
  {
    Transformation(Judgement(Ant(s) + [Negation(Head(Suc(s)))], Tail(Suc(s))), [s], "nl")
  }

  /** `nr(s)`: `Γ, A ⊢ Δ` gives `Γ ⊢ ¬A, Δ`. */
  function Nr(s: Derivation): Derivation
    requires |Ant(s)| >= 1
  {
    Transformation(Judgement(Init(Ant(s)), [Negation(Last(Ant(s)))] + Suc(s)), [s], "nr")
  }

  // Weakening

  /** `swl(a, s)`: `Γ ⊢ Δ` gives `Γ, A ⊢ Δ`. */
  function Swl(a: Prop, s: Derivation): Derivation
  {
    Transformation(Judgement(Ant(s) + [a], Suc(s)), [s], "swl")
  }

  /** `swr(a, s)`: `Γ ⊢ Δ` gives `Γ ⊢ A, Δ`. */
  function Swr(a: Prop, s: Derivation): Derivation
  {
    Transformation(Judgement(Ant(s), [a] + Suc(s)), [s], "swr")
  }

  // Contraction

  /** `scl(s)`: `Γ, A, A ⊢ Δ` gives `Γ, A ⊢ Δ`; `assertEqual` throws
      "Unexpected value" when the last two antecedent formulas differ. */
  function Scl(s: Derivation): Result<Derivation>
    requires |Ant(s)| >= 2
  {
    var a1 := Last(Ant(s));
    var a2 := Last(Init(Ant(s)));
    if a1 == a2 then Ok(Transformation(Judgement(Init(Init(Ant(s))) + [a1], Suc(s)), [s], "scl"))
    else Err("Unexpected value")
  }

  /** `scr(s)`: `Γ ⊢ A, A, Δ` gives `Γ ⊢ A, Δ`, failing like `scl`. */
  function Scr(s: Derivation): Result<Derivation>
    requires |Suc(s)| >= 2
  {
    var a1 := Head(Suc(s));
    var a2 := Head(Tail(Suc(s)));
    if a1 == a2 then Ok(Transformation(Judgement(Ant(s), [a1] + Tail(Tail(Suc(s)))), [s], "scr"))
    else Err("Unexpected value")
  }

  // Permutation

  /** `srotl(s)`: `A, Γ ⊢ Δ` gives `Γ, A ⊢ Δ`. */
  function Srotl(s: Derivation): Derivation
    requires |Ant(s)| >= 1
  {
    Transformation(Judgement(Tail(Ant(s)) + [Head(Ant(s))], Suc(s)), [s], "srotl")
  }

  /** `srotr(s)`: `Γ ⊢ A, Δ` gives `Γ ⊢ Δ, A`. */
  function Srotr(s: Derivation): Derivation
    requires |Suc(s)| >= 1
  {
    Transformation(Judgement(Ant(s), Tail(Suc(s)) + [Head(Suc(s))]), [s], "srotr")
  }

  /** `sswpl(s)`: `Γ, A, B ⊢ Δ` gives `Γ, B, A ⊢ Δ`. */
  function Sswpl(s: Derivation): Derivation
    requires |Ant(s)| >= 2
  {
    Transformation(
      Judgement(Init(Init(Ant(s))) + [Last(Ant(s)), Last(Init(Ant(s)))], Suc(s)), [s], "sswpl")
  }

  /** `sswpr(s)`: `Γ ⊢ A, B, Δ` gives `Γ ⊢ B, A, Δ`. */
  function Sswpr(s: Derivation): Derivation
    requires |Suc(s)| >= 2
  {
    Transformation(
      Judgement(Ant(s), [Head(Tail(Suc(s))), Head(Suc(s))] + Tail(Tail(Suc(s)))), [s], "sswpr")
  }

  // The conditional types: what each rule makes of a premise of the shape
  // its parameter type names.

  lemma IShape(a: Prop)
    ensures I(a).Transformation? && I(a).deps == [] && I(a).rule == "I"
    ensures I(a).result.antecedent == [a] && I(a).result.succedent == [a]
  {
  }

  lemma CutShape(s1: Derivation, s2: Derivation, gamma: Formulas, delta: Formulas, a: Prop,
                 b: Prop, sigma: Formulas, pi: Formulas)
    requires s1.result == Judgement(gamma, delta + [a])
    requires s2.result == Judgement([b] + sigma, pi)
    ensures Cut(s1, s2) == Transformation(Judgement(gamma + sigma, delta + pi), [s1, s2], "Cut")
  {
    assert Init(delta + [a]) == delta;
    assert Tail([b] + sigma) == sigma;
  }

  lemma Cl1Shape(b: Prop, s: Derivation, gamma: Formulas, a: Prop, delta: Formulas)
    requires s.result == Judgement(gamma + [a], delta)
    ensures Cl1(b, s) == Transformation(Judgement(gamma + [Conjunction(a, b)], delta), [s], "cl1")
  {
    Snoc(gamma, a);
  }

  lemma Dr1Shape(b: Prop, s: Derivation, gamma: Formulas, a: Prop, delta: Formulas)
    requires s.result == Judgement(gamma, [a] + delta)
    ensures Dr1(b, s) == Transformation(Judgement(gamma, [Disjunction(a, b)] + delta), [s], "dr1")
  {
    Cons(a, delta);
  }

  lemma Cl2Shape(a: Prop, s: Derivation, gamma: Formulas, b: Prop, delta: Formulas)
    requires s.result == Judgement(gamma + [b], delta)
    ensures Cl2(a, s) == Transformation(Judgement(gamma + [Conjunction(a, b)], delta), [s], "cl2")
  {
    Snoc(gamma, b);
  }

  lemma Dr2Shape(a: Prop, s: Derivation, gamma: Formulas, b: Prop, delta: Formulas)
    requires s.result == Judgement(gamma, [b] + delta)
    ensures Dr2(a, s) == Transformation(Judgement(gamma, [Disjunction(a, b)] + delta), [s], "dr2")
  {
    Cons(b, delta);
  }

  lemma DlShape(s1: Derivation, s2: Derivation, gamma: Formulas, a: Prop, delta: Formulas,
                sigma: Formulas, b: Prop, pi: Formulas)
    requires s1.result == Judgement(gamma + [a], delta)
    requires s2.result == Judgement(sigma + [b], pi)
    ensures Dl(s1, s2) ==
      Transformation(Judgement(gamma + sigma + [Disjunction(a, b)], delta + pi), [s1, s2], "dl")
  {
    Snoc(gamma, a);
    Snoc(sigma, b);
  }

  lemma CrShape(s1: Derivation, s2: Derivation, gamma: Formulas, a: Prop, delta: Formulas,
                sigma: Formulas, b: Prop, pi: Formulas)
    requires s1.result == Judgement(gamma, [a] + delta)
    requires s2.result == Judgement(sigma, [b] + pi)
    ensures Cr(s1, s2) ==
      Transformation(Judgement(gamma + sigma, [Conjunction(a, b)] + delta + pi), [s1, s2], "cr")
  {
    Cons(a, delta);
    Cons(b, pi);
  }

  lemma IlShape(s1: Derivation, s2: Derivation, gamma: Formulas, a: Prop, delta: Formulas,
                sigma: Formulas, b: Prop, pi: Formulas)
    requires s1.result == Judgement(gamma, [a] + delta)
    requires s2.result == Judgement(sigma + [b], pi)
    ensures Il(s1, s2) ==
      Transformation(Judgement(gamma + sigma + [Implication(a, b)], delta + pi), [s1, s2], "il")
  {
    Cons(a, delta);
    Snoc(sigma, b);
  }

  lemma IrShape(s: Derivation, gamma: Formulas, a: Prop, b: Prop, delta: Formulas)
    requires s.result == Judgement(gamma + [a], [b] + delta)
    ensures Ir(s) == Transformation(Judgement(gamma, [Implication(a, b)] + delta), [s], "ir")
  {
    Snoc(gamma, a);
    Cons(b, delta);
  }

  lemma NlShape(s: Derivation, gamma: Formulas, a: Prop, delta: Formulas)
    requires s.result == Judgement(gamma, [a] + delta)
    ensures Nl(s) == Transformation(Judgement(gamma + [Negation(a)], delta), [s], "nl")
  {
    Cons(a, delta);
  }

  lemma NrShape(s: Derivation, gamma: Formulas, a: Prop, delta: Formulas)
    requires s.result == Judgement(gamma + [a], delta)
    ensures Nr(s) == Transformation(Judgement(gamma, [Negation(a)] + delta), [s], "nr")
  {
    Snoc(gamma, a);
  }

  lemma WeakeningShape(a: Prop, s: Derivation, gamma: Formulas, delta: Formulas)
    requires s.result == Judgement(gamma, delta)
    ensures Swl(a, s) == Transformation(Judgement(gamma + [a], delta), [s], "swl")
    ensures Swr(a, s) == Transformation(Judgement(gamma, [a] + delta), [s], "swr")
  {
  }

  lemma SclShape(s: Derivation, gamma: Formulas, a: Prop, delta: Formulas)
    requires s.result == Judgement(gamma + [a, a], delta)
    ensures Scl(s) == Ok(Transformation(Judgement(gamma + [a], delta), [s], "scl"))
  {
    var ant := gamma + [a, a];
    assert Init(ant) == gamma + [a];
    assert Init(Init(ant)) == gamma;
  }

  lemma ScrShape(s: Derivation, gamma: Formulas, a: Prop, delta: Formulas)
    requires s.result == Judgement(gamma, [a, a] + delta)
    ensures Scr(s) == Ok(Transformation(Judgement(gamma, [a] + delta), [s], "scr"))
  {
    var suc := [a, a] + delta;
    assert Tail(suc) == [a] + delta;
    assert Tail(Tail(suc)) == delta;
  }

  lemma SrotlShape(s: Derivation, a: Prop, gamma: Formulas, delta: Formulas)
    requires s.result == Judgement([a] + gamma, delta)
    ensures Srotl(s) == Transformation(Judgement(gamma + [a], delta), [s], "srotl")
  {
    Cons(a, gamma);
  }

  lemma SrotrShape(s: Derivation, gamma: Formulas, a: Prop, delta: Formulas)
    requires s.result == Judgement(gamma, [a] + delta)
    ensures Srotr(s) == Transformation(Judgement(gamma, delta + [a]), [s], "srotr")
  {
    Cons(a, delta);
  }

  lemma SswplShape(s: Derivation, gamma: Formulas, a: Prop, b: Prop, delta: Formulas)
    requires s.result == Judgement(gamma + [a, b], delta)
    ensures Sswpl(s) == Transformation(Judgement(gamma + [b, a], delta), [s], "sswpl")
  {
    var ant := gamma + [a, b];
    assert Init(ant) == gamma + [a];
    assert Init(Init(ant)) == gamma;
    assert Init(Init(ant)) + [b, a] == gamma + [b, a];
  }

  lemma SswprShape(s: Derivation, gamma: Formulas, a: Prop, b: Prop, delta: Formulas)
    requires s.result == Judgement(gamma, [a, b] + delta)
    ensures Sswpr(s) == Transformation(Judgement(gamma, [b, a] + delta), [s], "sswpr")
  {
    var suc := [a, b] + delta;
    assert Tail(suc) == [b] + delta;
    assert Tail(Tail(suc)) == delta;
  }

  // Contraction: when it succeeds and what it gives.

  /** `scl` succeeds exactly when the last two antecedent formulas are
      equal, and then drops the last one; otherwise it fails with the
      message of `assertEqual`. */
  lemma SclIff(s: Derivation)
    requires |Ant(s)| >= 2
    ensures Scl(s).Ok? <==> Ant(s)[|Ant(s)| - 1] == Ant(s)[|Ant(s)| - 2]
    ensures Scl(s).Ok? ==> Scl(s).value == Transformation(Judgement(Init(Ant(s)), Suc(s)), [s], "scl")
    ensures Scl(s).Err? ==> Scl(s).message == "Unexpected value"
  {
    var ant := Ant(s);
    if ant[|ant| - 1] == ant[|ant| - 2] {
      assert Init(ant) == Init(Init(ant)) + [ant[|ant| - 1]];
    }
  }

  /** `scr` succeeds exactly when the first two succedent formulas are
      equal, and then drops the first one. */
  lemma ScrIff(s: Derivation)
    requires |Suc(s)| >= 2
    ensures Scr(s).Ok? <==> Suc(s)[0] == Suc(s)[1]
    ensures Scr(s).Ok? ==> Scr(s).value == Transformation(Judgement(Ant(s), Tail(Suc(s))), [s], "scr")
    ensures Scr(s).Err? ==> Scr(s).message == "Unexpected value"
  {
    var suc := Suc(s);
    if suc[0] == suc[1] {
      assert Tail(suc) == [suc[0]] + Tail(Tail(suc));
    }
  }

  /** Contracting right after weakening by a copy of the last antecedent
      formula gives back the sequent that was weakened. */
  lemma SclAfterSwl(s: Derivation)
    requires |Ant(s)| >= 1
    ensures Scl(Swl(Last(Ant(s)), s)).Ok?
    ensures Scl(Swl(Last(Ant(s)), s)).value.result == s.result
  {
    var w := Swl(Last(Ant(s)), s);
    SclIff(w);
    assert Init(Ant(w)) == Ant(s);
  }

  /** The same on the right, with a copy of the first succedent formula. */
  lemma ScrAfterSwr(s: Derivation)
    requires |Suc(s)| >= 1
    ensures Scr(Swr(Head(Suc(s)), s)).Ok?
    ensures Scr(Swr(Head(Suc(s)), s)).value.result == s.result
  {
    var w := Swr(Head(Suc(s)), s);
    ScrIff(w);
    assert Tail(Suc(w)) == Suc(s);
  }

  // Permutation: the formulas stay the same, only their order changes.

  /** Rotating moves the first formula of a side to its end and keeps the
      formulas. */
  lemma SrotlPermutes(s: Derivation)
    requires |Ant(s)| >= 1
    ensures multiset(Ant(Srotl(s))) == multiset(Ant(s)) && Suc(Srotl(s)) == Suc(s)
    ensures Ant(Srotl(s)) == Ant(s)[1..] + Ant(s)[..1]
  {
    var ant := Ant(s);
    assert ant == [ant[0]] + ant[1..];
  }

  lemma SrotrPermutes(s: Derivation)
    requires |Suc(s)| >= 1
    ensures multiset(Suc(Srotr(s))) == multiset(Suc(s)) && Ant(Srotr(s)) == Ant(s)
    ensures Suc(Srotr(s)) == Suc(s)[1..] + Suc(s)[..1]
  {
    var suc := Suc(s);
    assert suc == [suc[0]] + suc[1..];
  }

  lemma SswplPermutes(s: Derivation)
    requires |Ant(s)| >= 2
    ensures multiset(Ant(Sswpl(s))) == multiset(Ant(s)) && Suc(Sswpl(s)) == Suc(s)
    ensures |Ant(Sswpl(s))| == |Ant(s)|
  {
    var ant := Ant(s);
    var n := |ant|;
    assert ant == Init(Init(ant)) + [ant[n - 2], ant[n - 1]];
  }

  lemma SswprPermutes(s: Derivation)
    requires |Suc(s)| >= 2
    ensures multiset(Suc(Sswpr(s))) == multiset(Suc(s)) && Ant(Sswpr(s)) == Ant(s)
    ensures |Suc(Sswpr(s))| == |Suc(s)|
  {
    var suc := Suc(s);
    assert suc == [suc[0], suc[1]] + Tail(Tail(suc));
  }

  /** Swapping twice restores the sequent. */
  lemma SswplInvolution(s: Derivation)
    requires |Ant(s)| >= 2
    ensures Sswpl(Sswpl(s)).result == s.result
  {
    var ant := Ant(s);
    var n := |ant|;
    var g := Init(Init(ant));
    assert ant == g + [ant[n - 2], ant[n - 1]];
    SswplShape(s, g, ant[n - 2], ant[n - 1], Suc(s));
    SswplShape(Sswpl(s), g, ant[n - 1], ant[n - 2], Suc(s));
  }

  lemma SswprInvolution(s: Derivation)
    requires |Suc(s)| >= 2
    ensures Sswpr(Sswpr(s)).result == s.result
  {
    var suc := Suc(s);
    var d := Tail(Tail(suc));
    assert suc == [suc[0], suc[1]] + d;
    SswprShape(s, Ant(s), suc[0], suc[1], d);
    SswprShape(Sswpr(s), Ant(s), suc[1], suc[0], d);
  }
}
