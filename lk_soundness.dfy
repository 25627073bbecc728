/** Soundness of the LK rules of `src/systems/lk.ts` for the truth-table
    semantics: under any valuation, a rule whose premises hold has a
    conclusion that holds. `cut` is the exception: as written it never
    compares the two cut formulas, and `CutUnsound` exhibits a conclusion
    that does not follow. `LK.CutChecked` is the cut rule with that
    comparison, and it is sound. */
module LKSoundness {
  import opened Wrappers
  import opened Props
  import opened Judgements
  import opened Derivations
  import opened Arrays
  import opened Semantics
  import opened LK

  /** A list read as its first formula and the rest. */
  lemma SplitFirst(xs: Formulas, v: Valuation)
    requires |xs| >= 1
    ensures AllTrue(xs, v) <==> Eval(Head(xs), v) && AllTrue(Tail(xs), v)
    ensures SomeTrue(xs, v) <==> Eval(Head(xs), v) || SomeTrue(Tail(xs), v)
  {
    HeadTail(xs);
    AllTrueAppend([Head(xs)], Tail(xs), v);
    SomeTrueAppend([Head(xs)], Tail(xs), v);
    Single(Head(xs), v);
  }

  /** A list read as its leading formulas and its last one. */
  lemma SplitLast(xs: Formulas, v: Valuation)
    requires |xs| >= 1
    ensures AllTrue(xs, v) <==> AllTrue(Init(xs), v) && Eval(Last(xs), v)
    ensures SomeTrue(xs, v) <==> SomeTrue(Init(xs), v) || Eval(Last(xs), v)
  {
    InitLast(xs);
    AllTrueAppend(Init(xs), [Last(xs)], v);
    SomeTrueAppend(Init(xs), [Last(xs)], v);
    Single(Last(xs), v);
  }

  /** A list with one formula added in front or at the end. */
  lemma Prepend(p: Prop, xs: Formulas, v: Valuation)
    ensures AllTrue([p] + xs, v) <==> Eval(p, v) && AllTrue(xs, v)
    ensures SomeTrue([p] + xs, v) <==> Eval(p, v) || SomeTrue(xs, v)
  {
    AllTrueAppend([p], xs, v);
    SomeTrueAppend([p], xs, v);
    Single(p, v);
  }

  lemma Append(xs: Formulas, p: Prop, v: Valuation)
    ensures AllTrue(xs + [p], v) <==> AllTrue(xs, v) && Eval(p, v)
    ensures SomeTrue(xs + [p], v) <==> SomeTrue(xs, v) || Eval(p, v)
  {
    AllTrueAppend(xs, [p], v);
    SomeTrueAppend(xs, [p], v);
    Single(p, v);
  }

  /** The axiom holds under every valuation. */
  lemma ISound(a: Prop, v: Valuation)
    ensures Holds(I(a).result, v)
  {
    Single(a, v);
  }

  /** `cut` is sound when the two cut formulas are the same. */
  lemma CutSound(s1: Derivation, s2: Derivation, v: Valuation)
    requires |Suc(s1)| >= 1 && |Ant(s2)| >= 1 && Last(Suc(s1)) == Head(Ant(s2))
    requires Holds(s1.result, v) && Holds(s2.result, v)
    ensures Holds(Cut(s1, s2).result, v)
  {
    AllTrueAppend(Ant(s1), Tail(Ant(s2)), v);
    SomeTrueAppend(Init(Suc(s1)), Suc(s2), v);
    SplitLast(Suc(s1), v);
    SplitFirst(Ant(s2), v);
  }

  /** As written, `cut` derives `p ⊢ q` from the axioms `p ⊢ p` and
      `q ⊢ q`, which fails when `p` is true and `q` false. */
  lemma CutUnsound()
    ensures var p, q := Atom("p"), Atom("q");
      var v: Valuation := x => x == "p";
      && Cut(I(p), I(q)).result == Judgement([p], [q])
      && Holds(I(p).result, v) && Holds(I(q).result, v)
      && !Holds(Cut(I(p), I(q)).result, v)
  {
    var p, q := Atom("p"), Atom("q");
    var v: Valuation := x => x == "p";
    assert Init([p]) == [] && Tail([q]) == [];
    assert Cut(I(p), I(q)).result == Judgement([p], [q]);
    ISound(p, v);
    ISound(q, v);
    Single(p, v);
    Single(q, v);
  }

  /** The checked cut fails exactly when the cut formulas differ, agrees
      with `cut` otherwise, and is sound under every valuation. */
  lemma CutCheckedSound(s1: Derivation, s2: Derivation, v: Valuation)
    requires |Suc(s1)| >= 1 && |Ant(s2)| >= 1
    ensures CutChecked(s1, s2).Ok? <==> Last(Suc(s1)) == Head(Ant(s2))
    ensures CutChecked(s1, s2).Ok? ==> CutChecked(s1, s2).value == Cut(s1, s2)
    ensures CutChecked(s1, s2).Ok? && Holds(s1.result, v) && Holds(s2.result, v) ==>
      Holds(CutChecked(s1, s2).value.result, v)
  {
    if Last(Suc(s1)) == Head(Ant(s2)) && Holds(s1.result, v) && Holds(s2.result, v) {
      CutSound(s1, s2, v);
    }
  }

  lemma Cl1Sound(b: Prop, s: Derivation, v: Valuation)
    requires |Ant(s)| >= 1 && Holds(s.result, v)
    ensures Holds(Cl1(b, s).result, v)
  {
    SplitLast(Ant(s), v);
    Append(Init(Ant(s)), Conjunction(Last(Ant(s)), b), v);
  }

  lemma Cl2Sound(a: Prop, s: Derivation, v: Valuation)
    requires |Ant(s)| >= 1 && Holds(s.result, v)
    ensures Holds(Cl2(a, s).result, v)
  {
    SplitLast(Ant(s), v);
    Append(Init(Ant(s)), Conjunction(a, Last(Ant(s))), v);
  }

  lemma Dr1Sound(b: Prop, s: Derivation, v: Valuation)
    requires |Suc(s)| >= 1 && Holds(s.result, v)
    ensures Holds(Dr1(b, s).result, v)
  {
    SplitFirst(Suc(s), v);
    Prepend(Disjunction(Head(Suc(s)), b), Tail(Suc(s)), v);
  }

  lemma Dr2Sound(a: Prop, s: Derivation, v: Valuation)
    requires |Suc(s)| >= 1 && Holds(s.result, v)
    ensures Holds(Dr2(a, s).result, v)
  {
    SplitFirst(Suc(s), v);
    Prepend(Disjunction(a, Head(Suc(s))), Tail(Suc(s)), v);
  }

  lemma DlSound(s1: Derivation, s2: Derivation, v: Valuation)
    requires |Ant(s1)| >= 1 && |Ant(s2)| >= 1 && Holds(s1.result, v) && Holds(s2.result, v)
    ensures Holds(Dl(s1, s2).result, v)
  {
    var g1, g2 := Init(Ant(s1)), Init(Ant(s2));
    SplitLast(Ant(s1), v);
    SplitLast(Ant(s2), v);
    Append(g1 + g2, Disjunction(Last(Ant(s1)), Last(Ant(s2))), v);
    AllTrueAppend(g1, g2, v);
    SomeTrueAppend(Suc(s1), Suc(s2), v);
  }

  lemma CrSound(s1: Derivation, s2: Derivation, v: Valuation)
    requires |Suc(s1)| >= 1 && |Suc(s2)| >= 1 && Holds(s1.result, v) && Holds(s2.result, v)
    ensures Holds(Cr(s1, s2).result, v)
  {
    var t1, t2 := Tail(Suc(s1)), Tail(Suc(s2));
    AllTrueAppend(Ant(s1), Ant(s2), v);
    SplitFirst(Suc(s1), v);
    SplitFirst(Suc(s2), v);
    var c := Conjunction(Head(Suc(s1)), Head(Suc(s2)));
    assert [c] + t1 + t2 == [c] + (t1 + t2);
    Prepend(c, t1 + t2, v);
    SomeTrueAppend(t1, t2, v);
  }

  lemma IlSound(s1: Derivation, s2: Derivation, v: Valuation)
    requires |Suc(s1)| >= 1 && |Ant(s2)| >= 1 && Holds(s1.result, v) && Holds(s2.result, v)
    ensures Holds(Il(s1, s2).result, v)
  {
    var g, i2 := Ant(s1), Init(Ant(s2));
    SplitFirst(Suc(s1), v);
    SplitLast(Ant(s2), v);
    Append(g + i2, Implication(Head(Suc(s1)), Last(Ant(s2))), v);
    AllTrueAppend(g, i2, v);
    SomeTrueAppend(Tail(Suc(s1)), Suc(s2), v);
  }

  lemma IrSound(s: Derivation, v: Valuation)
    requires |Ant(s)| >= 1 && |Suc(s)| >= 1 && Holds(s.result, v)
    ensures Holds(Ir(s).result, v)
  {
    SplitLast(Ant(s), v);
    SplitFirst(Suc(s), v);
    Prepend(Implication(Last(Ant(s)), Head(Suc(s))), Tail(Suc(s)), v);
  }

  lemma NlSound(s: Derivation, v: Valuation)
    requires |Suc(s)| >= 1 && Holds(s.result, v)
    ensures Holds(Nl(s).result, v)
  {
    SplitFirst(Suc(s), v);
    Append(Ant(s), Negation(Head(Suc(s))), v);
  }

  lemma NrSound(s: Derivation, v: Valuation)
    requires |Ant(s)| >= 1 && Holds(s.result, v)
    ensures Holds(Nr(s).result, v)
  {
    SplitLast(Ant(s), v);
    Prepend(Negation(Last(Ant(s))), Suc(s), v);
  }

  lemma WeakeningSound(a: Prop, s: Derivation, v: Valuation)
    requires Holds(s.result, v)
    ensures Holds(Swl(a, s).result, v) && Holds(Swr(a, s).result, v)
  {
    Append(Ant(s), a, v);
    Prepend(a, Suc(s), v);
  }

  /** Contraction, when it succeeds, is sound. */
  lemma ContractionSound(s: Derivation, v: Valuation)
    requires Holds(s.result, v)
    ensures |Ant(s)| >= 2 && Scl(s).Ok? ==> Holds(Scl(s).value.result, v)
    ensures |Suc(s)| >= 2 && Scr(s).Ok? ==> Holds(Scr(s).value.result, v)
  {
    if |Ant(s)| >= 2 && Scl(s).Ok? {
      SclIff(s);
      SplitLast(Ant(s), v);
      SplitLast(Init(Ant(s)), v);
    }
    if |Suc(s)| >= 2 && Scr(s).Ok? {
      ScrIff(s);
      SplitFirst(Suc(s), v);
      SplitFirst(Tail(Suc(s)), v);
    }
  }

  /** The permutation rules are sound because truth ignores order. */
  lemma PermutationSound(s: Derivation, v: Valuation)
    requires Holds(s.result, v)
    ensures |Ant(s)| >= 1 ==> Holds(Srotl(s).result, v)
    ensures |Suc(s)| >= 1 ==> Holds(Srotr(s).result, v)
    ensures |Ant(s)| >= 2 ==> Holds(Sswpl(s).result, v)
    ensures |Suc(s)| >= 2 ==> Holds(Sswpr(s).result, v)
  {
    if |Ant(s)| >= 1 {
      SrotlPermutes(s);
      TrueByMultiset(Ant(s), Ant(Srotl(s)), v);
    }
    if |Suc(s)| >= 1 {
      SrotrPermutes(s);
      TrueByMultiset(Suc(s), Suc(Srotr(s)), v);
    }
    if |Ant(s)| >= 2 {
      SswplPermutes(s);
      TrueByMultiset(Ant(s), Ant(Sswpl(s)), v);
    }
    if |Suc(s)| >= 2 {
      SswprPermutes(s);
      TrueByMultiset(Suc(s), Suc(Sswpr(s)), v);
    }
  }
}
