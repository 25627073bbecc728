/** Łukasiewicz's third axiom system as built by `src/systems/la3.ts`:
    formulas over atoms, negation and implication, disjunction and
    conjunction as abbreviations, three axiom schemes and modus ponens.
    Every axiom is a tautology and modus ponens preserves truth, so every
    derivation built from them concludes a tautology. */
module LA3 {
  import opened Wrappers
  import Props
  import opened Judgements
  import opened Derivations
  import opened Semantics

  type Prop = Props.Prop

  function Atom(v: string): Prop { Props.Atom(v) }
  function Negation(n: Prop): Prop { Props.Negation(n) }
  function Implication(a: Prop, c: Prop): Prop { Props.Implication(a, c) }

  /** The formulas of this system: the `Prop` type of `la3.ts` admits
      atoms, negations and implications only. */
  predicate InLanguage(p: Prop)
  {
    match p
    case Atom(_) => true
    case Negation(n) => InLanguage(n)
    case Implication(a, c) => InLanguage(a) && InLanguage(c)
    case _ => false
  }

  /** `disjunction(a, b)`: `¬a → b`. */
  function Disjunction(a: Prop, b: Prop): (r: Prop)
    ensures InLanguage(a) && InLanguage(b) ==> InLanguage(r)
  {
    Implication(Negation(a), b)
  }

  /** `conjunction(a, b)`: `¬(a → ¬b)`. */
  function Conjunction(a: Prop, b: Prop): (r: Prop)
    ensures InLanguage(a) && InLanguage(b) ==> InLanguage(r)
  {
    Negation(Implication(a, Negation(b)))
  }

  /** The abbreviations mean what the connectives of `src/lib/prop.ts`
      mean. */
  lemma AbbreviationsMean(a: Prop, b: Prop, v: Valuation)
    ensures Eval(Disjunction(a, b), v) == Eval(Props.Disjunction(a, b), v)
    ensures Eval(Conjunction(a, b), v) == Eval(Props.Conjunction(a, b), v)
  {
    assert Eval(Implication(a, Negation(b)), v) == (Eval(a, v) ==> !Eval(b, v));
  }

  /** `a1(p, q)`: `⊢ p → (q → p)`. */
  function A1(p: Prop, q: Prop): Derivation
  {
    Introduction(Conclusion(Implication(p, Implication(q, p))), "A1")
  }

  /** `a2(p, q, r)`: `⊢ (p → (q → r)) → ((p → q) → (p → r))`. */
  function A2(p: Prop, q: Prop, r: Prop): Derivation
  {
    Introduction(Conclusion(
      Implication(Implication(p, Implication(q, r)), Implication(Implication(p, q), Implication(p, r)))), "A2")
  }

  /** `a3(p, q)`: `⊢ (¬p → ¬q) → (q → p)`. */
  function A3(p: Prop, q: Prop): Derivation
  {
    Introduction(Conclusion(Implication(Implication(Negation(p), Negation(q)), Implication(q, p))), "A3")
  }

  /** `mp(s1, s2)`: from `⊢ a → c` and `⊢ a` conclude `⊢ c`. It reads the
      first succedent formula of each premise and fails with the message of
      `assertEqual` unless the implication's antecedent is the second
      premise's formula. */
  function MP(s1: Derivation, s2: Derivation): Result<Derivation>
    requires |s1.result.succedent| >= 1 && s1.result.succedent[0].Implication?
    requires |s2.result.succedent| >= 1
  {
    var a1 := s1.result.succedent[0].antecedent;
    var a2 := s2.result.succedent[0];
    if a1 == a2 then Ok(Transformation(Conclusion(s1.result.succedent[0].consequent), [s1, s2], "MP"))
    else Err("Unexpected value")
  }

  /** Each axiom is an introduction, with no dependencies, of the named
      rule, concluding its scheme with nothing on the left. */
  lemma AxiomShapes(p: Prop, q: Prop, r: Prop)
    ensures A1(p, q) == Transformation(Judgement([], [Implication(p, Implication(q, p))]), [], "A1")
    ensures A2(p, q, r) == Transformation(Judgement([],
      [Implication(Implication(p, Implication(q, r)), Implication(Implication(p, q), Implication(p, r)))]),
      [], "A2")
    ensures A3(p, q) == Transformation(Judgement([],
      [Implication(Implication(Negation(p), Negation(q)), Implication(q, p))]), [], "A3")
  {
  }

  /** A formula of the language gives axiom formulas of the language. */
  lemma AxiomsInLanguage(p: Prop, q: Prop, r: Prop)
    requires InLanguage(p) && InLanguage(q) && InLanguage(r)
    ensures InLanguage(A1(p, q).result.succedent[0])
    ensures InLanguage(A2(p, q, r).result.succedent[0])
    ensures InLanguage(A3(p, q).result.succedent[0])
  {
  }

  /** `mp` succeeds exactly when the antecedent matches, and then concludes
      the consequent from the two premises in order. */
  lemma MPIff(s1: Derivation, s2: Derivation)
    requires |s1.result.succedent| >= 1 && s1.result.succedent[0].Implication?
    requires |s2.result.succedent| >= 1
    ensures MP(s1, s2).Ok? <==> s1.result.succedent[0].antecedent == s2.result.succedent[0]
    ensures MP(s1, s2).Ok? ==> (
      && MP(s1, s2).value.result == Judgement([], [s1.result.succedent[0].consequent])
      && MP(s1, s2).value.deps == [s1, s2] && MP(s1, s2).value.rule == "MP")
    ensures MP(s1, s2).Err? ==> MP(s1, s2).message == "Unexpected value"
  {
  }

  /** Every instance of every axiom is true under every valuation. */
  lemma AxiomsValid(p: Prop, q: Prop, r: Prop, v: Valuation)
    ensures Holds(A1(p, q).result, v)
    ensures Holds(A2(p, q, r).result, v)
    ensures Holds(A3(p, q).result, v)
  {
    var x, y, z := Eval(p, v), Eval(q, v), Eval(r, v);
    HoldsConclusion(Implication(p, Implication(q, p)), v);
    var a2 := Implication(Implication(p, Implication(q, r)), Implication(Implication(p, q), Implication(p, r)));
    assert Eval(Implication(p, Implication(q, r)), v) == (x ==> (y ==> z));
    assert Eval(Implication(Implication(p, q), Implication(p, r)), v) == ((x ==> y) ==> (x ==> z));
    HoldsConclusion(a2, v);
    var a3 := Implication(Implication(Negation(p), Negation(q)), Implication(q, p));
    assert Eval(Implication(Negation(p), Negation(q)), v) == (!x ==> !y);
    HoldsConclusion(a3, v);
  }

  /** Modus ponens on two true conclusions gives a true conclusion. */
  lemma MPSound(s1: Derivation, s2: Derivation, v: Valuation)
    requires |s1.result.succedent| >= 1 && s1.result.succedent[0].Implication?
    requires |s2.result.succedent| >= 1
    requires IsConclusion(s1.result) && IsConclusion(s2.result)
    requires Holds(s1.result, v) && Holds(s2.result, v)
    ensures MP(s1, s2).Ok? ==> Holds(MP(s1, s2).value.result, v)
  {
    var f1, f2 := s1.result.succedent[0], s2.result.succedent[0];
    assert s1.result == Conclusion(f1) && s2.result == Conclusion(f2);
    HoldsConclusion(f1, v);
    HoldsConclusion(f2, v);
    HoldsConclusion(f1.consequent, v);
  }

  /** How a derivation of this system is put together: an axiom instance,
      or modus ponens applied to two derivations. */
  datatype Proof =
    | Ax1(p: Prop, q: Prop)
    | Ax2(p: Prop, q: Prop, r: Prop)
    | Ax3(p: Prop, q: Prop)
    | Mp(major: Proof, minor: Proof)

  /** The derivation the calls `a1`, `a2`, `a3` and `mp` build for a proof,
      or the error of the first `mp` that does not match. */
  function Derive(pr: Proof): Result<Derivation>
  {
    match pr
    case Ax1(p, q) => Ok(A1(p, q))
    case Ax2(p, q, r) => Ok(A2(p, q, r))
    case Ax3(p, q) => Ok(A3(p, q))
    case Mp(major, minor) =>
      var d1 := Derive(major);
      var d2 := Derive(minor);
      if d1.Err? then d1
      else if d2.Err? then d2
      else if |d1.value.result.succedent| >= 1 && d1.value.result.succedent[0].Implication?
        && |d2.value.result.succedent| >= 1
      then MP(d1.value, d2.value)
      else Err("Unexpected value")
  }

  /** Soundness of the system: whatever derivation is built concludes a
      single formula with nothing on the left, true under every valuation. */
  lemma {:induction false} DeriveSound(pr: Proof, v: Valuation)
    ensures Derive(pr).Ok? ==> IsConclusion(Derive(pr).value.result)
    ensures Derive(pr).Ok? ==> Holds(Derive(pr).value.result, v)
  {
    match pr
    case Ax1(p, q) => AxiomsValid(p, q, p, v);
    case Ax2(p, q, r) => AxiomsValid(p, q, r, v);
    case Ax3(p, q) => AxiomsValid(p, q, p, v);
    case Mp(major, minor) =>
      DeriveSound(major, v);
      DeriveSound(minor, v);
      var d1, d2 := Derive(major), Derive(minor);
      if d1.Ok? && d2.Ok? && |d1.value.result.succedent| >= 1 && d1.value.result.succedent[0].Implication?
        && |d2.value.result.succedent| >= 1 {
        MPSound(d1.value, d2.value, v);
      }
  }

  /** The textbook derivation of `⊢ p → p`: axiom 2 and axiom 1 by modus
      ponens give `⊢ (p → (p → p)) → (p → p)`, and axiom 1 once more gives
      the goal. */
  function Identity(p: Prop): Proof
  {
    Mp(Mp(Ax2(p, Implication(p, p), p), Ax1(p, Implication(p, p))), Ax1(p, p))
  }

  lemma IdentityDerives(p: Prop)
    ensures Derive(Identity(p)).Ok?
    ensures Derive(Identity(p)).value.result == Conclusion(Implication(p, p))
    ensures Derive(Identity(p)).value.rule == "MP" && |Derive(Identity(p)).value.deps| == 2
  {
    var pp := Implication(p, p);
    assert Derive(Ax2(p, pp, p)) == Ok(A2(p, pp, p));
    assert Derive(Ax1(p, pp)) == Ok(A1(p, pp));
    assert Derive(Ax1(p, p)) == Ok(A1(p, p));
    var inner := Derive(Mp(Ax2(p, pp, p), Ax1(p, pp)));
    assert inner == MP(A2(p, pp, p), A1(p, pp));
    assert inner.Ok?;
    assert inner.value.result == Conclusion(Implication(Implication(p, pp), pp));
  }
}
