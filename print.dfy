/** The themed printer of `src/lib/print.ts`. A `Printer` is a function
    from a template record to a string; templates are substituted around
    the argument printers, operands are parenthesised by connective kind,
    lists are printed by a left fold, and derivations are drawn with
    `Blocks.TreeAuto`. */
module Print {
  import opened Wrappers
  import opened Strings
  import opened Arrays
  import opened Props
  import opened Judgements
  import opened Derivations
  import Blocks

  /** `NullaryTemplateId`, `UnaryTemplateId` and `BinaryTemplateId`: the
      keys of the template record, grouped by how many holes they have. */
  datatype NullaryId = FalsumId | VerumId
  datatype UnaryId = AtomId | OptionalId | ParenthesisId | NegationId
  datatype BinaryId = ConjunctionId | DisjunctionId | ImplicationId | FormulasId | SequentId

  /** `TemplateId`: any key of the record. */
  datatype TemplateId = Nullary(nullary: NullaryId) | Unary(unary: UnaryId) | Binary(binary: BinaryId)

  /** A unary template `[s0, s1]` and a binary template `[s0, s1, s2]`; a
      nullary template `[s0]` is its one string. */
  type UnaryTemplate = (string, string)
  type BinaryTemplate = (string, string, string)

  /** `Templates`: one template per key. */
  datatype Templates = Templates(
    falsum: string,
    verum: string,
    atom: UnaryTemplate,
    optional: UnaryTemplate,
    parenthesis: UnaryTemplate,
    negation: UnaryTemplate,
    conjunction: BinaryTemplate,
    disjunction: BinaryTemplate,
    implication: BinaryTemplate,
    formulas: BinaryTemplate,
    sequent: BinaryTemplate)

  /** The `basic` theme. */
  const Basic: Templates := Templates(
    "⊥", "⊤",
    ("", ""), ("", ""), ("(", ")"), ("¬", ""),
    ("", "∧", ""), ("", "∨", ""), ("", "→", ""), ("", ",", ""), ("", " ⊢ ", ""))

  /** `theme[key]` for each group of keys. */
  function NullaryOf(t: Templates, key: NullaryId): string
  {
    match key
    case FalsumId => t.falsum
    case VerumId => t.verum
  }

  function UnaryOf(t: Templates, key: UnaryId): UnaryTemplate
  {
    match key
    case AtomId => t.atom
    case OptionalId => t.optional
    case ParenthesisId => t.parenthesis
    case NegationId => t.negation
  }

  function BinaryOf(t: Templates, key: BinaryId): BinaryTemplate
  {
    match key
    case ConjunctionId => t.conjunction
    case DisjunctionId => t.disjunction
    case ImplicationId => t.implication
    case FormulasId => t.formulas
    case SequentId => t.sequent
  }

  /** The number of printers a key takes (the overloads of `print`). */
  function Arity(key: TemplateId): nat
  {
    match key
    case Nullary(_) => 0
    case Unary(_) => 1
    case Binary(_) => 2
  }

  /** The template of a key as the list of its strings. */
  function Parts(t: Templates, key: TemplateId): (r: seq<string>)
    ensures |r| == Arity(key) + 1
  {
    match key
    case Nullary(k) => [NullaryOf(t, k)]
    case Unary(k) => [UnaryOf(t, k).0, UnaryOf(t, k).1]
    case Binary(k) => [BinaryOf(t, k).0, BinaryOf(t, k).1, BinaryOf(t, k).2]
  }

  /** Template substitution: the template's strings with the arguments
      between them, `parts[0] + args[0] + parts[1] + ...`. */
  function Interleave(parts: seq<string>, args: seq<string>): string
    requires |parts| == |args| + 1
    decreases |args|
  {
    if |args| == 0 then parts[0] else parts[0] + args[0] + Interleave(parts[1..], args[1..])
  }

  /** Substitution into a one-hole and a two-hole template. */
  lemma InterleaveSmall()
    ensures forall parts, args :: |parts| == 2 && |args| == 1 ==>
      Interleave(parts, args) == parts[0] + args[0] + parts[1]
    ensures forall parts, args :: |parts| == 3 && |args| == 2 ==>
      Interleave(parts, args) == parts[0] + args[0] + parts[1] + args[1] + parts[2]
  {
    forall parts, args | |parts| == 3 && |args| == 2
      ensures Interleave(parts, args) == parts[0] + args[0] + parts[1] + args[1] + parts[2]
    {
      assert Interleave(parts[1..], args[1..]) == parts[1] + args[1] + parts[2];
    }
  }

  /** `[...].join('')` runs two, three, four or five strings together. */
  lemma JoinNothing2(a: string, b: string)
    ensures JoinWith("", [a, b]) == a + b
  {
    var xs := [a, b];
    assert xs[1..] == [b];
  }

  lemma JoinNothing3(a: string, b: string, c: string)
    ensures JoinWith("", [a, b, c]) == a + b + c
  {
    var xs := [a, b, c];
    assert xs[1..] == [b, c];
    JoinNothing2(b, c);
  }

  lemma JoinNothing4(a: string, b: string, c: string, d: string)
    ensures JoinWith("", [a, b, c, d]) == a + b + c + d
  {
    var xs := [a, b, c, d];
    assert xs[1..] == [b, c, d];
    JoinNothing3(b, c, d);
  }

  lemma JoinNothing5(a: string, b: string, c: string, d: string, e: string)
    ensures JoinWith("", [a, b, c, d, e]) == a + b + c + d + e
  {
    var xs := [a, b, c, d, e];
    assert xs[1..] == [b, c, d, e];
    JoinNothing4(b, c, d, e);
  }

  type Printer = Templates -> string

  /** Every printer of a list run on one theme. */
  function Apply(ps: seq<Printer>, t: Templates): (r: seq<string>)
    ensures |r| == |ps| && forall i :: 0 <= i < |ps| ==> r[i] == ps[i](t)
  {
    seq(|ps|, i requires 0 <= i < |ps| => ps[i](t))
  }

  /** `printNullary(key)()`: the template's only string. */
  function PrintNullary(key: NullaryId): (r: Printer)
    ensures forall t :: r(t) == Interleave(Parts(t, Nullary(key)), [])
  {
    t => NullaryOf(t, key)
  }

  /** `printUnary(key)(a)`: `[s0, a(theme), s1].join('')`, that is the
      printed argument inside the template's two strings. */
  function PrintUnary(key: UnaryId, a: Printer): (r: Printer)
    ensures forall t :: r(t) == UnaryOf(t, key).0 + a(t) + UnaryOf(t, key).1
  {
    forall t ensures JoinWith("", [UnaryOf(t, key).0, a(t), UnaryOf(t, key).1])
      == UnaryOf(t, key).0 + a(t) + UnaryOf(t, key).1 {
      JoinNothing3(UnaryOf(t, key).0, a(t), UnaryOf(t, key).1);
    }
    t => JoinWith("", [UnaryOf(t, key).0, a(t), UnaryOf(t, key).1])
  }

  /** `printBinary(key)(a, b)`: `[s0, a(theme), s1, b(theme), s2].join('')`. */
  function PrintBinary(key: BinaryId, a: Printer, b: Printer): (r: Printer)
    ensures forall t :: r(t) == BinaryOf(t, key).0 + a(t) + BinaryOf(t, key).1 + b(t) + BinaryOf(t, key).2
  {
    forall t ensures JoinWith("", [BinaryOf(t, key).0, a(t), BinaryOf(t, key).1, b(t), BinaryOf(t, key).2])
      == BinaryOf(t, key).0 + a(t) + BinaryOf(t, key).1 + b(t) + BinaryOf(t, key).2 {
      JoinNothing5(BinaryOf(t, key).0, a(t), BinaryOf(t, key).1, b(t), BinaryOf(t, key).2);
    }
    t => JoinWith("", [BinaryOf(t, key).0, a(t), BinaryOf(t, key).1, b(t), BinaryOf(t, key).2])
  }

  /** `print(key)(...args)`: dispatch on the group of the key. Whatever the
      key, the result substitutes the printed arguments into its template. */
  function Print(key: TemplateId, args: seq<Printer>): (r: Printer)
    requires |args| == Arity(key)
    ensures forall t :: r(t) == Interleave(Parts(t, key), Apply(args, t))
  {
    InterleaveSmall();
    match key
    case Nullary(k) => PrintNullary(k)
    case Unary(k) => PrintUnary(k, args[0])
    case Binary(k) => PrintBinary(k, args[0], args[1])
  }

  /** `printString(s)`: a printer that ignores the theme. */
  function PrintString(s: string): (r: Printer)
    ensures forall t :: r(t) == s
  {
    t => s
  }

  /** `printNothing`. */
  function PrintNothing(): (r: Printer)
    ensures forall t :: r(t) == ""
  {
    PrintString("")
  }

  /** `tail.reduce(print(k), head)`: the left fold of the binary template. */
  function Fold(k: BinaryId, acc: Printer, rest: seq<Printer>): Printer
    decreases |rest|
  {
    if |rest| == 0 then acc else Fold(k, PrintBinary(k, acc, rest[0]), rest[1..])
  }

  /** `printNonEmptyArray(k)([head, ...tail])`. */
  function PrintNonEmptyArray(k: BinaryId, ps: seq<Printer>): Printer
    requires |ps| >= 1
  {
    Fold(k, ps[0], ps[1..])
  }

  /** `printArray(k)(ps)`: the fold, or nothing for no printers. */
  function PrintArray(k: BinaryId, ps: seq<Printer>): Printer
  {
    if IsNonEmptyArray(ps) then PrintNonEmptyArray(k, ps) else PrintNothing()
  }

  /** `s` written `n` times. */
  function Power(s: string, n: nat): string
  {
    if n == 0 then "" else Power(s, n - 1) + s
  }

  /** The strings `s1 + x + s2` for each x, one after another. */
  function Trailer(s1: string, s2: string, xs: seq<string>): string
  {
    if |xs| == 0 then "" else s1 + xs[0] + s2 + Trailer(s1, s2, xs[1..])
  }

  /** The fold nests to the left: one opening string per later printer in
      front, then the first printer, then each later printer between the
      middle and the closing string. */
  lemma {:induction false} FoldClosed(k: BinaryId, acc: Printer, rest: seq<Printer>, t: Templates)
    ensures var (s0, s1, s2) := BinaryOf(t, k);
      Fold(k, acc, rest)(t) == Power(s0, |rest|) + acc(t) + Trailer(s1, s2, Apply(rest, t))
    decreases |rest|
  {
    var (s0, s1, s2) := BinaryOf(t, k);
    if |rest| > 0 {
      var b := PrintBinary(k, acc, rest[0]);
      FoldClosed(k, b, rest[1..], t);
      var xs := Apply(rest, t);
      assert Apply(rest[1..], t) == xs[1..];
      var m := |rest| - 1;
      assert Power(s0, m + 1) == Power(s0, m) + s0;
      assert b(t) == s0 + acc(t) + s1 + xs[0] + s2;
      assert Trailer(s1, s2, xs) == s1 + xs[0] + s2 + Trailer(s1, s2, xs[1..]);
    }
  }

  /** The opening string repeated is empty when it is empty. */
  lemma {:induction false} PowerEmpty(n: nat)
    ensures Power("", n) == ""
  {
    if n > 0 {
      PowerEmpty(n - 1);
    }
  }

  /** With no closing string the trailer is `sep + x` for each x, so the
      first string followed by it is the list joined by `sep`. */
  lemma {:induction false} TrailerJoin(sep: string, x: string, xs: seq<string>)
    ensures x + Trailer(sep, "", xs) == JoinWith(sep, [x] + xs)
    decreases |xs|
  {
    if |xs| > 0 {
      TrailerJoin(sep, xs[0], xs[1..]);
      assert [xs[0]] + xs[1..] == xs;
      assert ([x] + xs)[1..] == xs;
    }
  }

  /** `printArray` prints `""` for no printers and `p` alone for one. */
  lemma PrintArrayFew(k: BinaryId, ps: seq<Printer>, t: Templates)
    ensures |ps| == 0 ==> PrintArray(k, ps)(t) == ""
    ensures |ps| == 1 ==> PrintArray(k, ps)(t) == ps[0](t)
  {
    if |ps| == 1 {
      var (s0, s1, s2) := BinaryOf(t, k);
      FoldClosed(k, ps[0], ps[1..], t);
      assert Apply(ps[1..], t) == [];
      assert Power(s0, 0) == "";
      assert Trailer(s1, s2, []) == "";
    }
  }

  /** With empty outer strings, as in `basic`'s `formulas`, the list is
      joined by the template's middle string. */
  lemma PrintArrayJoin(k: BinaryId, ps: seq<Printer>, t: Templates)
    requires BinaryOf(t, k).0 == "" && BinaryOf(t, k).2 == ""
    ensures PrintArray(k, ps)(t) == JoinWith(BinaryOf(t, k).1, Apply(ps, t))
  {
    if |ps| > 0 {
      var (s0, s1, s2) := BinaryOf(t, k);
      FoldClosed(k, ps[0], ps[1..], t);
      var xs := Apply(ps, t);
      assert Apply(ps[1..], t) == xs[1..];
      assert [xs[0]] + xs[1..] == xs;
      PowerEmpty(|ps| - 1);
      TrailerJoin(s1, xs[0], xs[1..]);
    }
  }


  /** `printArray('formulas')` of three string printers under `basic`. */
  lemma PrintArrayExample()
    ensures PrintArray(FormulasId, [PrintString("a"), PrintString("b"), PrintString("c")])(Basic) == "a,b,c"
  {
    var ps := [PrintString("a"), PrintString("b"), PrintString("c")];
    PrintArrayJoin(FormulasId, ps, Basic);
    assert Apply(ps, Basic) == ["a", "b", "c"];
    assert JoinWith(",", ["c"]) == "c";
    assert JoinWith(",", ["b", "c"]) == "b" + "," + "c";
  }

  /** `fromAtom`, `fromFalsum`, `fromVerum`. */
  function FromAtom(p: Prop): Printer
    requires p.Atom?
  {
    Print(Unary(AtomId), [PrintString(p.value)])
  }

  function FromFalsum(): Printer
  {
    Print(Nullary(FalsumId), [])
  }

  function FromVerum(): Printer
  {
    Print(Nullary(VerumId), [])
  }

  /** The `expand` of `fromNegation`, `fromConjunction` and
      `fromDisjunction`, which the source writes out three times alike: an
      atom bare, falsum, verum and negations through `optional`, binary
      connectives through `parenthesis`. */
  function Expand(operand: Prop): Printer
    decreases operand, 3
  {
    match operand
    case Atom(_) => FromProp(operand)
    case Falsum => Print(Unary(OptionalId), [FromProp(operand)])
    case Verum => Print(Unary(OptionalId), [FromProp(operand)])
    case Negation(_) => Print(Unary(OptionalId), [FromProp(operand)])
    case Conjunction(_, _) => Print(Unary(ParenthesisId), [FromProp(operand)])
    case Disjunction(_, _) => Print(Unary(ParenthesisId), [FromProp(operand)])
    case Implication(_, _) => Print(Unary(ParenthesisId), [FromProp(operand)])
  }

  /** The `expand` of `fromImplication`: only an implication operand is
      parenthesised. */
  function ExpandImplicationOperand(operand: Prop): Printer
    decreases operand, 3
  {
    match operand
    case Atom(_) => FromProp(operand)
    case Falsum => Print(Unary(OptionalId), [FromProp(operand)])
    case Verum => Print(Unary(OptionalId), [FromProp(operand)])
    case Negation(_) => Print(Unary(OptionalId), [FromProp(operand)])
    case Conjunction(_, _) => Print(Unary(OptionalId), [FromProp(operand)])
    case Disjunction(_, _) => Print(Unary(OptionalId), [FromProp(operand)])
    case Implication(_, _) => Print(Unary(ParenthesisId), [FromProp(operand)])
  }

  function FromNegation(p: Prop): Printer
    requires p.Negation?
    decreases p, 1
  {
    Print(Unary(NegationId), [Expand(p.negand)])
  }

  function FromConjunction(p: Prop): Printer
    requires p.Conjunction?
    decreases p, 1
  {
    Print(Binary(ConjunctionId), [Expand(p.leftConjunct), Expand(p.rightConjunct)])
  }

  function FromDisjunction(p: Prop): Printer
    requires p.Disjunction?
    decreases p, 1
  {
    Print(Binary(DisjunctionId), [Expand(p.leftDisjunct), Expand(p.rightDisjunct)])
  }

  function FromImplication(p: Prop): Printer
    requires p.Implication?
    decreases p, 1
  {
    Print(Binary(ImplicationId), [ExpandImplicationOperand(p.antecedent), ExpandImplicationOperand(p.consequent)])
  }

  /** `fromProp`: dispatch on the kind of formula. */
  function FromProp(p: Prop): Printer
    decreases p, 2
  {
    match p
    case Atom(_) => FromAtom(p)
    case Falsum => FromFalsum()
    case Verum => FromVerum()
    case Negation(_) => FromNegation(p)
    case Conjunction(_, _) => FromConjunction(p)
    case Disjunction(_, _) => FromDisjunction(p)
    case Implication(_, _) => FromImplication(p)
  }

  /** An operand as the printed formula is meant to show it: an atom bare,
      otherwise wrapped in `parenthesis` when `bracket` holds and in
      `optional` when not. */
  function Operand(t: Templates, x: Prop, bracket: bool): string
  {
    var s := FromProp(x)(t);
    if x.Atom? then s
    else if bracket then t.parenthesis.0 + s + t.parenthesis.1
    else t.optional.0 + s + t.optional.1
  }

  /** The operands of negation, conjunction and disjunction are bracketed
      exactly when they are binary. */
  lemma ExpandOperand(x: Prop, t: Templates)
    ensures Expand(x)(t) == Operand(t, x, IsBinary(x))
  {
  }

  /** The operands of an implication are bracketed exactly when they are
      implications themselves. */
  lemma ExpandImplicationOperandIs(x: Prop, t: Templates)
    ensures ExpandImplicationOperand(x)(t) == Operand(t, x, x.Implication?)
  {
  }

  /** Printed formulas, connective by connective, in terms of `Operand`. */
  lemma PrintedNegation(n: Prop, t: Templates)
    ensures FromProp(Negation(n))(t) == t.negation.0 + Operand(t, n, IsBinary(n)) + t.negation.1
  {
    var x := Expand(n);
    assert FromProp(Negation(n)) == Print(Unary(NegationId), [x]);
    assert Print(Unary(NegationId), [x]) == PrintUnary(NegationId, x);
    ExpandOperand(n, t);
  }

  lemma PrintedConjunction(l: Prop, r: Prop, t: Templates)
    ensures FromProp(Conjunction(l, r))(t) ==
      t.conjunction.0 + Operand(t, l, IsBinary(l)) + t.conjunction.1 + Operand(t, r, IsBinary(r)) + t.conjunction.2
  {
    var x, y := Expand(l), Expand(r);
    assert FromProp(Conjunction(l, r)) == Print(Binary(ConjunctionId), [x, y]);
    assert Print(Binary(ConjunctionId), [x, y]) == PrintBinary(ConjunctionId, x, y);
    ExpandOperand(l, t);
    ExpandOperand(r, t);
  }

  lemma PrintedDisjunction(l: Prop, r: Prop, t: Templates)
    ensures FromProp(Disjunction(l, r))(t) ==
      t.disjunction.0 + Operand(t, l, IsBinary(l)) + t.disjunction.1 + Operand(t, r, IsBinary(r)) + t.disjunction.2
  {
    var x, y := Expand(l), Expand(r);
    assert FromProp(Disjunction(l, r)) == Print(Binary(DisjunctionId), [x, y]);
    assert Print(Binary(DisjunctionId), [x, y]) == PrintBinary(DisjunctionId, x, y);
    ExpandOperand(l, t);
    ExpandOperand(r, t);
  }

  lemma PrintedImplication(a: Prop, c: Prop, t: Templates)
    ensures FromProp(Implication(a, c))(t) ==
      t.implication.0 + Operand(t, a, a.Implication?) + t.implication.1 + Operand(t, c, c.Implication?) + t.implication.2
  {
    var x, y := ExpandImplicationOperand(a), ExpandImplicationOperand(c);
    assert FromProp(Implication(a, c)) == Print(Binary(ImplicationId), [x, y]);
    assert Print(Binary(ImplicationId), [x, y]) == PrintBinary(ImplicationId, x, y);
    ExpandImplicationOperandIs(a, t);
    ExpandImplicationOperandIs(c, t);
  }

  lemma PrintedLeaf(p: Prop, t: Templates)
    ensures p.Atom? ==> FromProp(p)(t) == t.atom.0 + p.value + t.atom.1
    ensures p.Falsum? ==> FromProp(p)(t) == t.falsum
    ensures p.Verum? ==> FromProp(p)(t) == t.verum
  {
    if p.Atom? {
      assert FromProp(p) == PrintUnary(AtomId, PrintString(p.value));
    }
  }

  lemma FromPropOperands(p: Prop, t: Templates)
    ensures p.Atom? ==> FromProp(p)(t) == t.atom.0 + p.value + t.atom.1
    ensures p.Falsum? ==> FromProp(p)(t) == t.falsum
    ensures p.Verum? ==> FromProp(p)(t) == t.verum
    ensures p.Negation? ==> (FromProp(p)(t) ==
      t.negation.0 + Operand(t, p.negand, IsBinary(p.negand)) + t.negation.1)
    ensures p.Conjunction? ==> (FromProp(p)(t) ==
      t.conjunction.0 + Operand(t, p.leftConjunct, IsBinary(p.leftConjunct))
      + t.conjunction.1 + Operand(t, p.rightConjunct, IsBinary(p.rightConjunct)) + t.conjunction.2)
    ensures p.Disjunction? ==> (FromProp(p)(t) ==
      t.disjunction.0 + Operand(t, p.leftDisjunct, IsBinary(p.leftDisjunct))
      + t.disjunction.1 + Operand(t, p.rightDisjunct, IsBinary(p.rightDisjunct)) + t.disjunction.2)
    ensures p.Implication? ==> (FromProp(p)(t) ==
      t.implication.0 + Operand(t, p.antecedent, p.antecedent.Implication?)
      + t.implication.1 + Operand(t, p.consequent, p.consequent.Implication?) + t.implication.2)
  {
    match p
    case Atom(_) => PrintedLeaf(p, t);
    case Falsum => PrintedLeaf(p, t);
    case Verum => PrintedLeaf(p, t);
    case Negation(n) => PrintedNegation(n, t);
    case Conjunction(l, r) => PrintedConjunction(l, r, t);
    case Disjunction(l, r) => PrintedDisjunction(l, r, t);
    case Implication(a, c) => PrintedImplication(a, c, t);
  }


  /** Under `basic` an atom prints as its name and a negated atom as "¬"
      and the name. */
  lemma BasicAtoms(v: string)
    ensures FromProp(Atom(v))(Basic) == v
    ensures FromProp(Negation(Atom(v)))(Basic) == "¬" + v
  {
    PrintedLeaf(Atom(v), Basic);
    PrintedNegation(Atom(v), Basic);
  }

  /** Under `basic` (`optional` is empty) an implication's operand is in
      brackets when it is an implication and bare otherwise. */
  lemma BasicImplication(a: Prop, c: Prop)
    ensures var x, y := FromProp(a)(Basic), FromProp(c)(Basic);
      FromProp(Implication(a, c))(Basic) ==
        (if a.Implication? then "(" + x + ")" else x) + "→" + (if c.Implication? then "(" + y + ")" else y)
  {
    var x, y := FromProp(a)(Basic), FromProp(c)(Basic);
    var oa, oc := Operand(Basic, a, a.Implication?), Operand(Basic, c, c.Implication?);
    PrintedImplication(a, c, Basic);
    BasicOperand(a, a.Implication?);
    BasicOperand(c, c.Implication?);
    assert oa == (if a.Implication? then "(" + x + ")" else x);
    assert oc == (if c.Implication? then "(" + y + ")" else y);
    assert Basic.implication == ("", "→", "");
    assert FromProp(Implication(a, c))(Basic) == "" + oa + "→" + oc + "";
    assert "" + oa == oa;
    assert oa + "→" + oc + "" == oa + "→" + oc;
  }

  /** Under `basic` an operand is bracketed or bare. */
  lemma BasicOperand(x: Prop, bracket: bool)
    ensures Operand(Basic, x, bracket) ==
      if bracket && !x.Atom? then "(" + FromProp(x)(Basic) + ")" else FromProp(x)(Basic)
  {
    var s := FromProp(x)(Basic);
    if !x.Atom? && !bracket {
      assert Operand(Basic, x, bracket) == "" + s + "";
      assert "" + s + "" == s;
    }
  }

  /** No template string holds a line break. */
  predicate SingleLineTheme(t: Templates)
  {
    && '\n' !in t.falsum && '\n' !in t.verum
    && '\n' !in t.atom.0 && '\n' !in t.atom.1
    && '\n' !in t.optional.0 && '\n' !in t.optional.1
    && '\n' !in t.parenthesis.0 && '\n' !in t.parenthesis.1
    && '\n' !in t.negation.0 && '\n' !in t.negation.1
    && '\n' !in t.conjunction.0 && '\n' !in t.conjunction.1 && '\n' !in t.conjunction.2
    && '\n' !in t.disjunction.0 && '\n' !in t.disjunction.1 && '\n' !in t.disjunction.2
    && '\n' !in t.implication.0 && '\n' !in t.implication.1 && '\n' !in t.implication.2
    && '\n' !in t.formulas.0 && '\n' !in t.formulas.1 && '\n' !in t.formulas.2
    && '\n' !in t.sequent.0 && '\n' !in t.sequent.1 && '\n' !in t.sequent.2
  }

  /** An atom name without a line break. */
  predicate LineName(v: string)
  {
    '\n' !in v
  }

  lemma BasicSingleLine()
    ensures SingleLineTheme(Basic)
  {
  }

  /** A formula whose atom names are lines prints as one line. */
  lemma {:induction false} FromPropLine(p: Prop, t: Templates)
    requires SingleLineTheme(t) && AtomsAll(p, LineName)
    ensures '\n' !in FromProp(p)(t)
  {
    FromPropOperands(p, t);
    match p
    case Atom(_) =>
    case Falsum =>
    case Verum =>
    case Negation(n) =>
      FromPropLine(n, t);
    case Conjunction(l, r) =>
      FromPropLine(l, t);
      FromPropLine(r, t);
    case Disjunction(l, r) =>
      FromPropLine(l, t);
      FromPropLine(r, t);
    case Implication(a, c) =>
      FromPropLine(a, t);
      FromPropLine(c, t);
  }

  /** `fromFormulas`: the formulas' printers folded with `formulas`. */
  function FromFormulas(fs: Formulas): Printer
  {
    PrintArray(FormulasId, seq(|fs|, i requires 0 <= i < |fs| => FromProp(fs[i])))
  }

  /** The formulas printed one by one. */
  function Texts(fs: Formulas, t: Templates): (r: seq<string>)
    ensures |r| == |fs| && forall i :: 0 <= i < |fs| ==> r[i] == FromProp(fs[i])(t)
  {
    seq(|fs|, i requires 0 <= i < |fs| => FromProp(fs[i])(t))
  }

  /** Under `basic` the formulas are printed in order, separated by commas. */
  lemma FromFormulasBasic(fs: Formulas)
    ensures FromFormulas(fs)(Basic) == JoinWith(",", Texts(fs, Basic))
  {
    var ps := seq(|fs|, i requires 0 <= i < |fs| => FromProp(fs[i]));
    PrintArrayJoin(FormulasId, ps, Basic);
    assert Apply(ps, Basic) == Texts(fs, Basic);
  }

  /** `fromSequent`: `ant ⊢ suc` through the `sequent` template, trimmed. */
  function FromSequent(j: Judgement): Printer
  {
    t => Trim(Print(Binary(SequentId), [FromFormulas(j.antecedent), FromFormulas(j.succedent)])(t))
  }

  /** Under `basic` a sequent prints as its two comma-separated lists
      around " ⊢ ", trimmed. */
  lemma FromSequentBasic(j: Judgement)
    ensures FromSequent(j)(Basic) ==
      Trim(JoinWith(",", Texts(j.antecedent, Basic)) + " ⊢ " + JoinWith(",", Texts(j.succedent, Basic)))
  {
    var args := [FromFormulas(j.antecedent), FromFormulas(j.succedent)];
    var a, c := FromFormulas(j.antecedent)(Basic), FromFormulas(j.succedent)(Basic);
    assert Print(Binary(SequentId), args) == PrintBinary(SequentId, args[0], args[1]);
    assert BinaryOf(Basic, SequentId) == ("", " ⊢ ", "");
    assert Print(Binary(SequentId), args)(Basic) == "" + a + " ⊢ " + "" + c + "";
    assert "" + a + " ⊢ " + "" + c + "" == a + " ⊢ " + c;
    FromFormulasBasic(j.antecedent);
    FromFormulasBasic(j.succedent);
  }

  /** The conclusion `⊢ p` prints without a leading space. */
  lemma FromConclusionBasic(p: Prop)
    ensures FromSequent(Conclusion(p))(Basic) == Trim("⊢ " + FromProp(p)(Basic))
  {
    var x := FromProp(p)(Basic);
    FromSequentBasic(Conclusion(p));
    assert Texts([], Basic) == [];
    assert Texts([p], Basic) == [x];
    assert JoinWith(",", [x]) == x;
    TurnstileSpace(x);
    TrimSpace("⊢ " + x);
  }

  /** The `basic` turnstile with nothing before it starts with a space. */
  lemma TurnstileSpace(x: string)
    ensures "" + " ⊢ " + x == " " + ("⊢ " + x)
  {
    assert " ⊢ " == " " + "⊢ ";
  }


  /** Every atom name of every formula of the sequent is a line. */
  predicate LineSequent(j: Judgement)
  {
    && (forall i :: 0 <= i < |j.antecedent| ==> AtomsAll(j.antecedent[i], LineName))
    && (forall i :: 0 <= i < |j.succedent| ==> AtomsAll(j.succedent[i], LineName))
  }

  /** Texts that are lines joined by a separator that is a line. */
  lemma {:induction false} JoinWithLine(sep: string, xs: seq<string>)
    requires '\n' !in sep && forall i :: 0 <= i < |xs| ==> '\n' !in xs[i]
    ensures '\n' !in JoinWith(sep, xs)
    decreases |xs|
  {
    if |xs| > 1 {
      JoinWithLine(sep, xs[1..]);
      assert '\n' !in xs[0];
    }
  }

  /** Trimming keeps a line a line. */
  lemma TrimKeepsLine(s: string)
    requires '\n' !in s
    ensures '\n' !in Trim(s)
  {
    TrimLine(s);
  }

  /** A sequent whose atom names are lines prints as one line. */
  lemma FromSequentLine(j: Judgement)
    requires LineSequent(j)
    ensures '\n' !in FromSequent(j)(Basic)
  {
    FromSequentBasic(j);
    var a, s := Texts(j.antecedent, Basic), Texts(j.succedent, Basic);
    forall i | 0 <= i < |a| ensures '\n' !in a[i] {
      FromPropLine(j.antecedent[i], Basic);
    }
    forall i | 0 <= i < |s| ensures '\n' !in s[i] {
      FromPropLine(j.succedent[i], Basic);
    }
    JoinWithLine(",", a);
    JoinWithLine(",", s);
    var whole := JoinWith(",", a) + " ⊢ " + JoinWith(",", s);
    assert '\n' !in whole;
    TrimKeepsLine(whole);
  }

  /** `left(n)` and `right(n)`: "L" or "R", followed by `n` unless `n` is
      null or empty (both are falsy). */
  function Left(n: Option<string>): (r: string)
    ensures r == "L" + (if n.Some? then n.value else "")
  {
    if n.Some? && n.value != "" then "L" + n.value else "L"
  }

  function Right(n: Option<string>): (r: string)
    ensures r == "R" + (if n.Some? then n.value else "")
  {
    if n.Some? && n.value != "" then "R" + n.value else "R"
  }

  /** `t.conjunction.join('')` and the like: a template's strings run
      together. */
  function Glyph(b: BinaryTemplate): (r: string)
    ensures r == b.0 + b.1 + b.2
  {
    JoinNothing3(b.0, b.1, b.2);
    JoinWith("", [b.0, b.1, b.2])
  }

  function Glyph1(u: UnaryTemplate): (r: string)
    ensures r == u.0 + u.1
  {
    JoinNothing2(u.0, u.1);
    JoinWith("", [u.0, u.1])
  }

  /** The LK rule names the label table knows. */
  const RuleNames: set<string> := {
    "cl1", "dr1", "cl2", "dr2", "dl", "cr", "il", "ir", "nl", "nr",
    "swl", "swr", "scl", "scr", "srotl", "srotr", "sswpl", "sswpr" }

  /** `fromRule(s)`: the label of an LK rule, or the name itself. */
  function FromRule(s: string): Printer
  {
    (t: Templates) =>
      if s == "cl1" then Glyph(t.conjunction) + Left(Some("₁"))
      else if s == "dr1" then Glyph(t.disjunction) + Right(Some("₁"))
      else if s == "cl2" then Glyph(t.conjunction) + Left(Some("₂"))
      else if s == "dr2" then Glyph(t.disjunction) + Right(Some("₂"))
      else if s == "dl" then Glyph(t.disjunction) + Left(None)
      else if s == "cr" then Glyph(t.conjunction) + Right(None)
      else if s == "il" then Glyph(t.implication) + Left(None)
      else if s == "ir" then Glyph(t.implication) + Right(None)
      else if s == "nl" then Glyph1(t.negation) + Left(None)
      else if s == "nr" then Glyph1(t.negation) + Right(None)
      else if s == "swl" then "WL"
      else if s == "swr" then "WR"
      else if s == "scl" then "CL"
      else if s == "scr" then "CR"
      else if s == "srotl" then "RotL"
      else if s == "srotr" then "RotR"
      else if s == "sswpl" then "PL"
      else if s == "sswpr" then "PR"
      else s
  }

  /** A name outside the table is printed as it is, in every theme. */
  lemma FromRuleFallback(s: string, t: Templates)
    requires s !in RuleNames
    ensures FromRule(s)(t) == s
  {
  }

  /** The conjunction labels under `basic`. */
  lemma FromRuleConjunction()
    ensures FromRule("cl1")(Basic) == "∧L₁" && FromRule("cl2")(Basic) == "∧L₂"
    ensures FromRule("cr")(Basic) == "∧R"
  {
    assert Glyph(Basic.conjunction) == "∧";
  }

  /** The disjunction labels under `basic`. */
  lemma FromRuleDisjunction()
    ensures FromRule("dr1")(Basic) == "∨R₁" && FromRule("dr2")(Basic) == "∨R₂"
    ensures FromRule("dl")(Basic) == "∨L"
  {
    assert Glyph(Basic.disjunction) == "∨";
  }

  /** The implication labels under `basic`. */
  lemma FromRuleImplication()
    ensures FromRule("il")(Basic) == "→L" && FromRule("ir")(Basic) == "→R"
  {
    assert Glyph(Basic.implication) == "→";
  }

  /** The negation labels under `basic`. */
  lemma FromRuleNegation()
    ensures FromRule("nl")(Basic) == "¬L" && FromRule("nr")(Basic) == "¬R"
  {
    assert Glyph1(Basic.negation) == "¬";
  }

  /** The weakening and contraction labels, the same in every theme. */
  lemma FromRuleWeakening(t: Templates)
    ensures FromRule("swl")(t) == "WL" && FromRule("swr")(t) == "WR"
    ensures FromRule("scl")(t) == "CL" && FromRule("scr")(t) == "CR"
  {
  }

  /** The rotation and swap labels, the same in every theme. */
  lemma FromRulePermutation(t: Templates)
    ensures FromRule("srotl")(t) == "RotL" && FromRule("srotr")(t) == "RotR"
    ensures FromRule("sswpl")(t) == "PL" && FromRule("sswpr")(t) == "PR"
  {
  }

  /** In a single-line theme a rule label is a line when the name is. */
  lemma FromRuleLine(s: string, t: Templates)
    requires SingleLineTheme(t) && '\n' !in s
    ensures '\n' !in FromRule(s)(t)
  {
    assert '\n' !in Glyph(t.conjunction) && '\n' !in Glyph(t.disjunction);
    assert '\n' !in Glyph(t.implication) && '\n' !in Glyph1(t.negation);
    assert '\n' !in Left(Some("₁")) && '\n' !in Left(Some("₂")) && '\n' !in Left(None);
    assert '\n' !in Right(Some("₁")) && '\n' !in Right(Some("₂")) && '\n' !in Right(None);
  }

  /** `fromPremise`: the sequent under `basic`, as the lines of a block. */
  function FromPremise(j: Judgement): Blocks.Block
  {
    Split(FromSequent(j)(Basic))
  }

  /** `fromTransformation`: `treeAuto` of the sequent, the drawings of the
      dependencies in order, and the bracketed rule label. */
  function FromTransformation(d: Derivation): Blocks.Block
    requires d.Transformation?
    decreases d, 0
  {
    Blocks.TreeAuto(
      Split(FromSequent(d.result)(Basic)),
      seq(|d.deps|, i requires 0 <= i < |d.deps| => FromDerivation(d.deps[i])),
      Split("(" + FromRule(d.rule)(Basic) + ")"))
  }

  /** `fromDerivation`: the drawing of a derivation, as the lines of the
      string the source returns. */
  function FromDerivation(d: Derivation): Blocks.Block
    decreases d, 1
  {
    match d
    case Premise(j) => FromPremise(j)
    case Transformation(_, _, _) => FromTransformation(d)
  }

  /** The drawing is the same information as the string `fromDerivation`
      returns: that string split is the drawing again. */
  lemma FromDerivationText(d: Derivation)
    ensures Split(Join(FromDerivation(d))) == FromDerivation(d)
  {
    SplitJoin(FromDerivation(d));
  }

  /** Every sequent prints as one line and every rule name is a line. */
  predicate Printable(d: Derivation)
  {
    match d
    case Premise(j) => LineSequent(j)
    case Transformation(j, deps, r) =>
      LineSequent(j) && '\n' !in r && forall i :: 0 <= i < |deps| ==> Printable(deps[i])
  }

  /** A premise is drawn as its sequent on one line. */
  lemma FromPremiseLine(j: Judgement)
    requires LineSequent(j)
    ensures FromDerivation(Premise(j)) == [FromSequent(j)(Basic)]
  {
    FromSequentLine(j);
    SplitLine(FromSequent(j)(Basic));
  }

  /** The tallest of drawings that are each two lines per level plus one is
      two lines per level of the deepest plus one. */
  lemma {:induction false} MaxHeightDrawn(bs: seq<Blocks.Block>, ds: seq<Derivation>)
    requires |bs| == |ds|
    requires forall i :: 0 <= i < |ds| ==> |bs[i]| == 2 * Depth(ds[i]) + 1
    ensures Blocks.MaxHeight(bs) == 2 * MaxDepth(ds) + 1
  {
    if |ds| > 0 {
      MaxHeightDrawn(bs[1..], ds[1..]);
    }
  }

  /** The drawing of a derivation has two lines per level of the tree (the
      sequent and the rule with its label) and one for the top premises or
      axioms. */
  lemma {:induction false} DrawingHeight(d: Derivation)
    requires Printable(d)
    ensures |FromDerivation(d)| == 2 * Depth(d) + 1
    decreases d
  {
    match d
    case Premise(j) =>
      FromPremiseLine(j);
    case Transformation(j, deps, r) =>
      var bs := seq(|deps|, i requires 0 <= i < |deps| => FromDerivation(deps[i]));
      forall i | 0 <= i < |deps| ensures |bs[i]| == 2 * Depth(deps[i]) + 1 {
        DrawingHeight(deps[i]);
      }
      MaxHeightDrawn(bs, deps);
      var root := FromSequent(j)(Basic);
      FromSequentLine(j);
      SplitLine(root);
      var note := "(" + FromRule(r)(Basic) + ")";
      BasicSingleLine();
      FromRuleLine(r, Basic);
      assert '\n' !in note;
      SplitLine(note);
      Blocks.TreeHeight([root], bs, [note], Blocks.AutoWidth([root], bs));
  }
}
