/** The sequents of `src/lib/judgement.ts`: an antecedent and a succedent
    list of formulas, kept verbatim, in order and with repetitions. */
module Judgements {
  import opened Props

  type Formulas = seq<Prop>

  /** `judgement(antecedent, succedent)` (also called `sequent`). */
  datatype Judgement = Judgement(antecedent: Formulas, succedent: Formulas)

  /** `conclusion(p)`: the sequent `⊢ p`. */
  function Conclusion(p: Prop): (j: Judgement)
    ensures j.antecedent == [] && j.succedent == [p]
  {
    Judgement([], [p])
  }

  /** The shape of the `Conclusion<P>` type: nothing on the left, one
      formula on the right. */
  predicate IsConclusion(j: Judgement)
  {
    |j.antecedent| == 0 && |j.succedent| == 1
  }

  /** A sequent has the conclusion shape exactly when it is the conclusion
      of its only succedent formula. */
  lemma ConclusionShape(j: Judgement)
    ensures IsConclusion(j) <==> |j.succedent| >= 1 && j == Conclusion(j.succedent[0])
  {
  }
}
