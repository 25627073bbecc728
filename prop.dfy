/** The formulas of `src/lib/prop.ts`: a closed union of seven kinds. The
    constructor functions `atom`, `negation`, `implication`, `conjunction`
    and `disjunction` and the constants `falsum` and `verum` are the
    datatype's constructors, with the source's field names. */
module Props {

  datatype Prop =
    | Atom(value: string)
    | Falsum
    | Verum
    | Negation(negand: Prop)
    | Implication(antecedent: Prop, consequent: Prop)
    | Conjunction(leftConjunct: Prop, rightConjunct: Prop)
    | Disjunction(leftDisjunct: Prop, rightDisjunct: Prop)

  /** The `kind` tag every formula object carries (`PropType`). */
  function Kind(p: Prop): string
  {
    match p
    case Atom(_) => "atom"
    case Falsum => "falsum"
    case Verum => "verum"
    case Negation(_) => "negation"
    case Implication(_, _) => "implication"
    case Conjunction(_, _) => "conjunction"
    case Disjunction(_, _) => "disjunction"
  }

  /** The tag tells the seven kinds apart: two formulas have the same tag
      exactly when they are built by the same constructor. */
  lemma KindIdentifies(p: Prop, q: Prop)
    ensures Kind(p) == Kind(q) <==>
      (p.Atom? && q.Atom?) || (p.Falsum? && q.Falsum?) || (p.Verum? && q.Verum?)
      || (p.Negation? && q.Negation?) || (p.Implication? && q.Implication?)
      || (p.Conjunction? && q.Conjunction?) || (p.Disjunction? && q.Disjunction?)
  {
  }

  /** The binary connectives. */
  predicate IsBinary(p: Prop)
  {
    p.Implication? || p.Conjunction? || p.Disjunction?
  }

  /** Every atom name occurring in a formula satisfies `ok`. */
  predicate AtomsAll(p: Prop, ok: string -> bool)
  {
    match p
    case Atom(v) => ok(v)
    case Falsum => true
    case Verum => true
    case Negation(n) => AtomsAll(n, ok)
    case Implication(a, c) => AtomsAll(a, ok) && AtomsAll(c, ok)
    case Conjunction(l, r) => AtomsAll(l, ok) && AtomsAll(r, ok)
    case Disjunction(l, r) => AtomsAll(l, ok) && AtomsAll(r, ok)
  }
}
