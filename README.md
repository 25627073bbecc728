# logic-experiments in Dafny

This project models logic-experiments in Dafny: a TypeScript toolkit
that builds derivation trees in two proof calculi and draws each tree as
text. The project has four layers.

- **Blocks** (`block.dfy`, with `strings.dfy`): the text-layout engine.
  - A block is a non-empty list of lines without line breaks.
  - Its operations are width, margins, left padding, centring, the
    bottom-aligned horizontal join `concat`, `spaced`, `pad`,
    `centerify`/`leftify` and `underline`.
  - It also has the fusion heuristic `align`, and the tree drawers `tree`
    and `treeAuto`.
  - `Strings.Split` and `Strings.Join` are the JavaScript
    `split('\n')`/`join('\n')`, and they are proved inverse. The layout
    engine works on strings and re-splits its own results, so every block
    function here is the source's string function read line by line.
- **The printer** (`print.dfy`).
  - A `Printer` is a function from a template record (`Templates`) to a
    string, and `Basic` is the `basic` theme.
  - It covers template substitution for nullary, unary and binary keys,
    and list printing as a left fold.
  - It covers operand bracketing by connective kind, sequents with the
    final `trim`, and the rule-label table with its fallback.
  - The derivation walker `fromDerivation` draws through
    `Blocks.TreeAuto`.
- **The two calculi.**
  - `lk.dfy` holds all twenty LK rule constructors as list surgery with
    `head`/`tail`/`init`/`last`. `lk_soundness.dfy` proves their
    soundness.
  - `la3.dfy` holds Łukasiewicz's third axiom system: the abbreviations,
    the axioms `a1`–`a3` and `mp`.
- **The data model**:
  - `prop.dfy` (formulas), `judgement.dfy` (sequents), `derivation.dfy`
    (premise/transformation trees), `array.dfy` (the tuple helpers) and
    `wrappers.dfy` (`Option`, `Result`);
  - `semantics.dfy`, a truth-table semantics that the source does not
    have. It is the yardstick for the soundness lemmas of both calculi.

How the source's conventions are carried over:

- **TypeScript conditional types become shape lemmas.** A type such as
  `Cut` or `Cl1` describes a rule's result when the premise has a given
  shape. Here it becomes a lemma such as `LK.CutShape` or `LK.Cl1Shape`,
  which takes `Γ`, `Δ`, `Σ`, `Π` as sequence parameters.
- **Required shapes become `requires`.** A parameter type demands a shape
  of the premise, such as `[...Γ, A]`. That demand becomes a `requires` on
  sequence lengths.
- **`assertEqual` becomes an error result.** Its `throw` is a
  `Result.Err("Unexpected value")`, and its `JSON.stringify` comparison is
  Dafny's structural equality on `Prop`.

The central results:

- **Drawing height.** `Print.DrawingHeight`: a derivation whose sequents
  and rule names are single lines is drawn with `2·depth + 1` lines.
- **`align`.** `Blocks.Align`, `Blocks.AlignMatched` and the two seam
  lemmas: `align` declines exactly on a blank or mismatched seam. On a
  match it keeps `a` whole and drops `b`'s first line. The two seam lines
  agree once re-margined.
- **`tree` drawings.** `Blocks.TreeOneLine` and
  `Blocks.TreeOverDrawing` state what `tree` draws on the fused path: a
  one-line branch row over the rule, or a whole drawing kept above it.
  Each unit test of `tree` and `treeAuto` on that path is derived from
  them.
- **`treeAuto` width.** `Blocks.AutoWidthOneBranch` and
  `Blocks.AutoWidthNested`: `treeAuto` measures the branch row's last
  line, not its width. For a nested drawing that is the inner root's
  line (`Blocks.TreeRootLine`).
- **Soundness.** Every LK rule except `cut` is sound, and so is every
  derivation of LA3. The `cut` exception is recorded under Findings.

## Model

| member | source | states |
|---|---|---|
| Strings.Split | src/lib/block.ts:5-11 | `split('\n')` never returns an empty list, so the `[s]` fallback is never taken |
| Strings.JoinSplit | src/lib/block.ts:36 | joining the pieces of a split gives back the string |
| Strings.SplitJoin | src/lib/block.ts:34-36 | splitting the join of a non-empty list of lines gives back the lines |
| Strings.TrimStartSpec | src/lib/block.ts:22 | `trimStart` removes exactly a run of leading spaces; the rest does not start with a space |
| Strings.TrimEndSpec | src/lib/block.ts:23 | `trimEnd` removes exactly a run of trailing spaces; the rest does not end with a space |
| Strings.Decompose | src/lib/block.ts:22-25 | a non-blank line is `Leading` spaces, its trimmed text and `Trailing` spaces |
| Strings.TrimFramed | src/lib/block.ts:22-25 | conversely, trimming a tight text framed by a and b spaces gives the text back and counts a and b |
| Blocks.WidthBounds | src/lib/block.ts:48-50 | the width bounds every line's length and is reached by some line |
| Blocks.MarginNone | src/lib/block.ts:39-46 | `margin(0, 0)` leaves a block unchanged |
| Blocks.MarginWidth | src/lib/block.ts:39-46 | margins add exactly l + r to the width |
| Blocks.LeftWidth | src/lib/block.ts:52-58 | `left(wide)` gives width `max(wide, width(b))` and never truncates |
| Blocks.ConcatRows | src/lib/block.ts:60-76 | `concat` has `max` of the heights; row k from the bottom joins both blocks' k-th lines from the bottom, each padded to its block's width, with blanks where a block is shorter |
| Blocks.ConcatRect | src/lib/block.ts:60-76 | every row of `concat` is exactly `width(b1) + width(b2)` long |
| Blocks.ConcatWidth | src/lib/block.ts:60-76 | the width of `concat` is the sum of the widths |
| Blocks.ConcatLine | src/lib/block.ts:60-76 | two single lines concatenate into their juxtaposition |
| Blocks.CenterWidth | src/lib/block.ts:78-85 | `center(w)` keeps the height and gives width `max(w, width(b))` |
| Blocks.CenterMargins | src/lib/block.ts:78-85 | when the target is wide enough, the left margin is half the slack rounded down and the right margin is the rest |
| Blocks.CenterNarrow | src/lib/block.ts:78-85 | a target no wider than the block leaves it unchanged, so nothing is clipped |
| Blocks.CenterExampleNarrow | src/lib/__tests__/block.ts:6 | `center(1)("abc") == "abc"` |
| Blocks.CenterExampleExact | src/lib/__tests__/block.ts:7 | `center(3)("abc") == "abc"` |
| Blocks.CenterExampleWide | src/lib/__tests__/block.ts:8 | `center(5)("abc") == " abc "` |
| Blocks.RuleLine | src/lib/block.ts:87-89 | `line(w)` is w copies of `―` |
| Blocks.PadRect | src/lib/block.ts:90-94 | `pad` keeps the lines and appends spaces to each one, up to exactly the block's width, so the width is unchanged |
| Blocks.SpacedFew | src/lib/block.ts:96-100 | `spaced([])` is the empty string and `spaced([b])` is `b` |
| Blocks.SpacedShape | src/lib/block.ts:96-102 | `spaced(bs, n)` has width `Σ width + n·(k-1)` and the height of the tallest block |
| Blocks.SpacedExample | src/lib/__tests__/block.ts:92-98 | `spaced(["foo", "bar"], 2)` is `"foo  bar"` |
| Blocks.CenterifyShape | src/lib/block.ts:106-109 | `centerify` has the widest block's width and as many lines as all the blocks together |
| Blocks.CenterifyAt | src/lib/block.ts:106-109 | line j of block i, centred to the widest block's width, is line `SumHeights(bs[..i]) + j` of `centerify`: the blocks appear whole and in order, each centred |
| Blocks.FlattenAt | src/lib/block.ts:110-112 | stacking puts line j of block i after all the lines of the blocks before it |
| Blocks.LeftifyText | src/lib/block.ts:110-112 | `leftify` is the blocks' texts joined by line breaks |
| Blocks.UnderlineShape | src/lib/block.ts:158-159 | `underline` keeps the block and appends one line of `width(b)` marks |
| Blocks.LastLine | src/lib/block.ts:132-135 | `lastLine` is the block's last line, also for a one-line block |
| Blocks.Align | src/lib/block.ts:13-21 | `align` declines (null) exactly when the last line of `a` is blank or trims differently from `b`'s first line |
| Blocks.AlignMatched | src/lib/block.ts:22-36 | on a match the result is `a` re-margined, followed by `b` without its first line, re-margined; its height is `\|a\| + max(1, \|b\|-1)` |
| Blocks.AlignTopSeam | src/lib/block.ts:22-30 | on a match the re-margined last line of `a` has `max(tL,bL)` leading and `max(tR,bR)` trailing spaces around the shared text |
| Blocks.AlignBottomSeam | src/lib/block.ts:22-34 | `b`'s first line, given `b`'s margins, equals `a`'s re-margined last line, so dropping it from the join loses nothing |
| Blocks.AlignTruthy | src/lib/block.ts:125-128 | a successful `align` is a non-empty string, so `tree` takes the fused result |
| Blocks.AlignBlank | src/lib/__tests__/block.ts:13 | a blank seam gives null |
| Blocks.AlignMismatch | src/lib/__tests__/block.ts:14 | a mismatched seam gives null |
| Blocks.AlignOffset | src/lib/__tests__/block.ts:16-22 | the offset example gives three lines `"abcd "`, `"  c  "`, `" bcde"` from 2+2 input lines |
| Blocks.RuleRowShape | src/lib/block.ts:122 | the rule row is the rule line, one space and the note |
| Blocks.TreeHeight | src/lib/block.ts:114-130 | on both the fused and the fallback path, `tree` has the height of the branch row plus the note plus the root |
| Blocks.TreeNoBranches | src/lib/block.ts:114-130 | with no branches the fallback `pad(leftify(...))` of a blank row, the rule row and the root is returned |
| Blocks.AutoWidthRoom | src/lib/block.ts:137-148 | the auto width leaves room for the branch row's last line plus 2, and centres the root with at least one space on each side |
| Blocks.AutoWidthOneBranch | src/lib/block.ts:142-146 | with one branch, the width is measured on that branch's trimmed last line, not on its full width |
| Blocks.TreeRootLine | src/lib/block.ts:114-135 | on either path a drawing's last line is its root's last line, spaces aside |
| Blocks.TreeOnStack | src/lib/block.ts:114-130 | when the centred branch row ends in a line framing a tight text, `tree` with a one-line root and note fuses: the branch row and the rule row with the root, each re-margined so that the text lines up over its centred copy |
| Blocks.TreeOneLine | src/lib/block.ts:114-130 | a one-line branch row no wider than the rule gives three lines: the branch row centred, the rule with the note, the root centred, all padded to the rule row's width |
| Blocks.TreeOverDrawing | src/lib/block.ts:114-130 | one branch at least as wide as the rule is kept whole, and the rule row and the root are centred under the text of its last line, with the margins both parts need |
| Blocks.AutoWidthOneLine | src/lib/block.ts:137-148 | over a one-line branch row the width is two more than the longer of that row and the root |
| Blocks.TreeAutoOneLine | src/lib/block.ts:137-148 | `treeAuto` over a one-line branch row gives the three centred lines of `TreeOneLine` at that width |
| Blocks.AutoWidthOverDrawing | src/lib/block.ts:137-148 | one branch whose last line frames a tight text gives a width measured on that text alone |
| Blocks.AutoWidthNested | src/lib/block.ts:137-148 | a `treeAuto` drawing used as a branch gives the outer width measured on the inner root's trimmed last line, not on the wider rule above it |
| Blocks.TreeNoBranchesOneLine | src/lib/block.ts:114-130 | with no branches and a one-line root and note, `tree` draws a blank line as wide as the rule row, the rule row and the root centred under the rule |
| Blocks.AutoWidthNoBranches | src/lib/block.ts:137-148 | with no branches the width is two more than the root's |
| Blocks.TreeExampleNoBranches | src/lib/__tests__/block.ts:25-31 | `tree("bar", [], "omg", 3)` is `"       "`, `"――― omg"`, `"bar    "` |
| Blocks.TreeAutoExampleNoBranches | src/lib/__tests__/block.ts:78-84 | `treeAuto("bar", [], "omg")` is `"         "`, `"――――― omg"`, `" bar     "` |
| Blocks.TreeExampleEqual | src/lib/__tests__/block.ts:32-38 | `tree("bar", ["foo"], "omg", 3)` is `"foo    "`, `"――― omg"`, `"bar    "` |
| Blocks.TreeExampleBigTop | src/lib/__tests__/block.ts:39-45 | `tree("bar", ["foobs"], "omg", 5)` is `"foobs    "`, `"――――― omg"`, `" bar     "` |
| Blocks.TreeExampleBigBottom | src/lib/__tests__/block.ts:46-52 | `tree("barbs", ["foo"], "omg", 5)` is `" foo     "`, `"――――― omg"`, `"barbs    "` |
| Blocks.TreeExampleDoubleFlat | src/lib/__tests__/block.ts:53-63 | the 'equal' tree under `"qux"` at width 3 is that tree followed by `"――― omg"`, `"qux    "` |
| Blocks.TreeExampleDoubleBigTop | src/lib/__tests__/block.ts:64-74 | the 'big top' tree under `"qux"` at width 3 is that tree followed by `" ――― omg "`, `" qux     "` |
| Blocks.TreeAutoExampleEqual | src/lib/__tests__/block.ts:85-91 | `treeAuto("bar", ["foo"], "omg")` is `" foo     "`, `"――――― omg"`, `" bar     "` |
| Blocks.TreeAutoExampleTwo | src/lib/__tests__/block.ts:92-98 | `treeAuto("qux", ["foo", "bar"], "omg")` is `" foo  bar     "`, `"―――――――――― omg"`, `"   qux        "` |
| Blocks.TreeAutoExampleBigTop | src/lib/__tests__/block.ts:99-105 | `treeAuto("bar", ["foobs"], "omg")` is `" foobs     "`, `"――――――― omg"`, `"  bar      "` |
| Blocks.TreeAutoExampleBigBottom | src/lib/__tests__/block.ts:106-112 | `treeAuto("barbs", ["foo"], "omg")` is `"  foo      "`, `"――――――― omg"`, `" barbs     "` |
| Blocks.TreeAutoExampleDoubleFlat | src/lib/__tests__/block.ts:113-123 | the 'equal' `treeAuto` drawing under `"qux"` is that drawing followed by `"――――― omg"`, `" qux     "` |
| Blocks.TreeAutoExampleDoubleBigTop | src/lib/__tests__/block.ts:124-136 | the 'big top' `treeAuto` drawing under `"qux"` is that drawing followed by `" ――――― omg "`, `"  qux      "`: the outer rule is measured on `"bar"`, not on the wider rule above it |
| Arrays.NonEmptyIff | src/lib/array.ts:2-6 | `isNonEmptyArray` holds exactly when there is at least one element |
| Arrays.HeadTail | src/lib/array.ts:8-16 | `[head(a)] ++ tail(a) == a` |
| Arrays.InitLast | src/lib/array.ts:18-24 | `init(a) ++ [last(a)] == a` |
| Arrays.TailInitLength | src/lib/array.ts:13-20 | `tail` and `init` drop exactly one element |
| Arrays.Cons | src/lib/array.ts:8-16 | `head` and `tail` of `[h, ...t]` are `h` and `t` |
| Arrays.Snoc | src/lib/array.ts:18-24 | `init` and `last` of `[...i, l]` are `i` and `l` |
| Props.KindIdentifies | src/lib/prop.ts:1-9 | the `kind` tag tells the seven constructors apart |
| Judgements.ConclusionShape | src/lib/judgement.ts:21-22 | a sequent has the `Conclusion` shape exactly when it is the conclusion of its only formula |
| Derivations.IntroductionDepth | src/lib/derivation.ts:9-14 | an introduction is a one-step tree and a premise has height 0 |
| Print.Parts | src/lib/print.ts:12-45 | a template has one more string than its key takes arguments |
| Print.PrintNullary | src/lib/print.ts:68-75 | a nullary key prints its only string |
| Print.PrintUnary | src/lib/print.ts:76-83 | a unary key prints `t[k][0] + a(t) + t[k][1]` |
| Print.PrintBinary | src/lib/print.ts:85-92 | a binary key prints `t[k][0] + a(t) + t[k][1] + b(t) + t[k][2]` |
| Print.Print | src/lib/print.ts:94-116 | `print(k)` substitutes the printed arguments between the strings of `k`'s template, whatever `k`'s group |
| Print.FoldClosed | src/lib/print.ts:129-133 | the left fold of `print(k)` equals an independent closed form: the opening strings, the accumulator, then each printer after a separator, then the closing strings |
| Print.PrintArrayFew | src/lib/print.ts:129-140 | `printArray(k)([])` is `printNothing`, so `""`, and a single printer prints alone |
| Print.PrintArrayJoin | src/lib/print.ts:129-140 | when `k`'s outer strings are empty, `printArray(k)` joins the printed list with `t[k][1]` |
| Print.PrintArrayExample | src/lib/print.ts:60 | `[a, b, c]` under `formulas` in `basic` prints `"a,b,c"` |
| Print.ExpandOperand | src/lib/print.ts:154-212 | negation, conjunction and disjunction bracket an operand exactly when it is binary, and wrap it in `optional` otherwise unless it is an atom |
| Print.ExpandImplicationOperandIs | src/lib/print.ts:214-233 | an implication brackets an operand exactly when it is an implication |
| Print.PrintedNegation | src/lib/print.ts:154-170 | a negation prints as `t.negation[0]`, its operand (bracketed when binary) and `t.negation[1]` |
| Print.PrintedConjunction | src/lib/print.ts:172-191 | a conjunction prints both operands, each bracketed when binary, between the three strings of `t.conjunction` |
| Print.PrintedDisjunction | src/lib/print.ts:193-212 | a disjunction prints both operands, each bracketed when binary, between the three strings of `t.disjunction` |
| Print.PrintedImplication | src/lib/print.ts:214-233 | an implication prints both operands, each bracketed when it is an implication, between the three strings of `t.implication` |
| Print.PrintedLeaf | src/lib/print.ts:142-152 | an atom prints its name inside `t.atom`, and falsum and verum print their nullary templates |
| Print.FromPropOperands | src/lib/print.ts:142-252 | each kind of formula prints through its own template, with its operands bracketed as above |
| Print.BasicAtoms | src/lib/print.ts:50-62 | under `basic` an atom prints as its name and a negated atom as `"¬" + name` |
| Print.BasicImplication | src/lib/print.ts:214-233 | under `basic` an implication prints as `x→y`, with brackets only around implications |
| Print.BasicOperand | src/lib/print.ts:53-55 | under `basic` an operand is either in brackets or bare, because `optional` is empty |
| Print.FromPropLine | src/lib/print.ts:142-252 | in a single-line theme a formula whose atom names are lines prints as one line |
| Print.FromFormulasBasic | src/lib/print.ts:254-256 | under `basic` formulas print in order, separated by commas |
| Print.FromSequentBasic | src/lib/print.ts:258-265 | a sequent prints as `ant ⊢ suc`, trimmed as a whole |
| Print.FromConclusionBasic | src/lib/print.ts:258-265 | `⊢ A` prints with no leading space |
| Print.FromSequentLine | src/lib/print.ts:258-265 | a sequent of single-line atom names prints as one line |
| Print.Left | src/lib/print.ts:267-270 | `left(n)` is `"L"` followed by `n`, and null and `""` both give `"L"` |
| Print.Right | src/lib/print.ts:271-274 | `right(n)` is `"R"` followed by `n` |
| Print.Glyph | src/lib/print.ts:280 | `t.conjunction.join('')` runs the template's strings together |
| Print.FromRuleFallback | src/lib/print.ts:276-318 | a name outside the table (`I`, `Cut`, `MP`, `A1`, ...) prints as itself in every theme |
| Print.FromRuleConjunction | src/lib/print.ts:279-290 | under `basic`, `cl1`, `cl2` and `cr` print as `∧L₁`, `∧L₂` and `∧R` |
| Print.FromRuleDisjunction | src/lib/print.ts:281-288 | under `basic`, `dr1`, `dr2` and `dl` print as `∨R₁`, `∨R₂` and `∨L` |
| Print.FromRuleImplication | src/lib/print.ts:291-294 | under `basic`, `il` and `ir` print as `→L` and `→R` |
| Print.FromRuleNegation | src/lib/print.ts:295-298 | under `basic`, `nl` and `nr` print as `¬L` and `¬R` |
| Print.FromRuleWeakening | src/lib/print.ts:299-306 | `swl`, `swr`, `scl` and `scr` print as `WL`, `WR`, `CL` and `CR` in every theme |
| Print.FromRulePermutation | src/lib/print.ts:307-314 | `srotl`, `srotr`, `sswpl` and `sswpr` print as `RotL`, `RotR`, `PL` and `PR` in every theme |
| Print.FromRuleLine | src/lib/print.ts:276-318 | in a single-line theme a rule label is a line when the name is |
| Print.FromPremiseLine | src/lib/print.ts:320-322 | a premise is drawn as its sequent on one line |
| Print.FromDerivationText | src/lib/print.ts:332-339 | the drawing is a list of lines without line breaks, so joining it into the string `fromDerivation` returns and splitting that again gives the drawing back |
| Print.DrawingHeight | src/lib/print.ts:324-339 | a drawing of single-line sequents and labels has two lines per level of the tree plus one |
| LK.IShape | src/systems/lk.ts:59-61 | `i(a)` is the introduction of `[a] ⊢ [a]` with rule `I` |
| LK.CutShape | src/systems/lk.ts:65-93 | `cut` of `Γ ⊢ Δ, A` and `B, Σ ⊢ Π` is `Γ, Σ ⊢ Δ, Π` with deps `[s1, s2]`, whatever A and B are |
| LK.Cl1Shape | src/systems/lk.ts:97-119 | `cl1(b)` of `Γ, A ⊢ Δ` is `Γ, A∧B ⊢ Δ` |
| LK.Dr1Shape | src/systems/lk.ts:121-143 | `dr1(b)` of `Γ ⊢ A, Δ` is `Γ ⊢ A∨B, Δ` |
| LK.Cl2Shape | src/systems/lk.ts:145-167 | `cl2(a)` of `Γ, B ⊢ Δ` is `Γ, A∧B ⊢ Δ` |
| LK.Dr2Shape | src/systems/lk.ts:169-191 | `dr2(a)` of `Γ ⊢ B, Δ` is `Γ ⊢ A∨B, Δ` |
| LK.DlShape | src/systems/lk.ts:193-231 | `dl` of `Γ, A ⊢ Δ` and `Σ, B ⊢ Π` is `Γ, Σ, A∨B ⊢ Δ, Π` |
| LK.CrShape | src/systems/lk.ts:233-271 | `cr` of `Γ ⊢ A, Δ` and `Σ ⊢ B, Π` is `Γ, Σ ⊢ A∧B, Δ, Π` |
| LK.IlShape | src/systems/lk.ts:275-313 | `il` of `Γ ⊢ A, Δ` and `Σ, B ⊢ Π` is `Γ, Σ, A→B ⊢ Δ, Π` |
| LK.IrShape | src/systems/lk.ts:315-340 | `ir` of `Γ, A ⊢ B, Δ` is `Γ ⊢ A→B, Δ` |
| LK.NlShape | src/systems/lk.ts:344-360 | `nl` of `Γ ⊢ A, Δ` is `Γ, ¬A ⊢ Δ` |
| LK.NrShape | src/systems/lk.ts:362-378 | `nr` of `Γ, A ⊢ Δ` is `Γ ⊢ ¬A, Δ` |
| LK.WeakeningShape | src/systems/lk.ts:382-412 | `swl(a)` appends `a` to the antecedent and `swr(a)` puts it in front of the succedent |
| LK.SclShape | src/systems/lk.ts:416-439 | `scl` of `Γ, A, A ⊢ Δ` succeeds with `Γ, A ⊢ Δ` |
| LK.ScrShape | src/systems/lk.ts:441-464 | `scr` of `Γ ⊢ A, A, Δ` succeeds with `Γ ⊢ A, Δ` |
| LK.SrotlShape | src/systems/lk.ts:468-484 | `srotl` of `A, Γ ⊢ Δ` is `Γ, A ⊢ Δ` |
| LK.SrotrShape | src/systems/lk.ts:486-502 | `srotr` of `Γ ⊢ A, Δ` is `Γ ⊢ Δ, A` |
| LK.SswplShape | src/systems/lk.ts:504-531 | `sswpl` of `Γ, A, B ⊢ Δ` is `Γ, B, A ⊢ Δ` |
| LK.SswprShape | src/systems/lk.ts:533-560 | `sswpr` of `Γ ⊢ A, B, Δ` is `Γ ⊢ B, A, Δ` |
| LK.SclIff | src/systems/lk.ts:430-439 | `scl` succeeds exactly when the last two antecedent formulas are equal, and then drops the last one; otherwise it fails with "Unexpected value" |
| LK.ScrIff | src/systems/lk.ts:455-464 | `scr` succeeds exactly when the first two succedent formulas are equal, and then drops the first one |
| LK.SclAfterSwl | src/systems/lk.ts:389-439 | contracting after weakening by a copy of the last antecedent formula restores the sequent |
| LK.ScrAfterSwr | src/systems/lk.ts:405-464 | contracting after weakening by a copy of the first succedent formula restores the sequent |
| LK.SrotlPermutes | src/systems/lk.ts:477-484 | `srotl` rotates the antecedent by one, keeping its multiset and the succedent |
| LK.SrotrPermutes | src/systems/lk.ts:495-502 | `srotr` rotates the succedent by one, keeping its multiset and the antecedent |
| LK.SswplPermutes | src/systems/lk.ts:518-531 | `sswpl` keeps the antecedent's length and multiset |
| LK.SswprPermutes | src/systems/lk.ts:547-560 | `sswpr` keeps the succedent's length and multiset |
| LK.SswplInvolution | src/systems/lk.ts:518-531 | swapping twice on the left restores the sequent |
| LK.SswprInvolution | src/systems/lk.ts:547-560 | swapping twice on the right restores the sequent |
| LKSoundness.ISound | src/systems/lk.ts:59-61 | the axiom holds under every valuation |
| LKSoundness.CutSound | src/systems/lk.ts:79-93 | `cut` preserves truth when the two cut formulas are equal |
| LKSoundness.CutUnsound | src/systems/lk.ts:79-93 | as written, `cut(i(p), i(q))` concludes `p ⊢ q`, which is false when p is true and q false |
| LKSoundness.CutCheckedSound | src/systems/lk.ts:79-93 | the checked cut fails exactly on a mismatch, agrees with `cut` otherwise, and preserves truth |
| LKSoundness.Cl1Sound | src/systems/lk.ts:106-119 | `cl1` preserves truth |
| LKSoundness.Cl2Sound | src/systems/lk.ts:154-167 | `cl2` preserves truth |
| LKSoundness.Dr1Sound | src/systems/lk.ts:130-143 | `dr1` preserves truth |
| LKSoundness.Dr2Sound | src/systems/lk.ts:178-191 | `dr2` preserves truth |
| LKSoundness.DlSound | src/systems/lk.ts:209-231 | `dl` preserves truth |
| LKSoundness.CrSound | src/systems/lk.ts:249-271 | `cr` preserves truth |
| LKSoundness.IlSound | src/systems/lk.ts:291-313 | `il` preserves truth |
| LKSoundness.IrSound | src/systems/lk.ts:327-340 | `ir` preserves truth |
| LKSoundness.NlSound | src/systems/lk.ts:353-360 | `nl` preserves truth |
| LKSoundness.NrSound | src/systems/lk.ts:371-378 | `nr` preserves truth |
| LKSoundness.WeakeningSound | src/systems/lk.ts:389-412 | `swl` and `swr` preserve truth |
| LKSoundness.ContractionSound | src/systems/lk.ts:430-464 | a successful `scl` or `scr` preserves truth |
| LKSoundness.PermutationSound | src/systems/lk.ts:477-560 | the four permutation rules preserve truth |
| LA3.Disjunction | src/systems/la3.ts:33-40 | `disjunction(a, b)` is `¬a → b` and stays in the language of atoms, negation and implication |
| LA3.Conjunction | src/systems/la3.ts:42-48 | `conjunction(a, b)` is `¬(a → ¬b)` and stays in the language |
| LA3.AbbreviationsMean | src/systems/la3.ts:33-48 | both abbreviations have the truth values of the real connectives |
| LA3.AxiomShapes | src/systems/la3.ts:52-95 | `a1`, `a2` and `a3` are introductions, with no deps and rules `A1`, `A2` and `A3`, of `⊢ p→(q→p)`, `⊢ (p→(q→r))→((p→q)→(p→r))` and `⊢ (¬p→¬q)→(q→p)` |
| LA3.AxiomsInLanguage | src/systems/la3.ts:52-95 | axioms over formulas of the language are formulas of the language |
| LA3.AxiomsValid | src/systems/la3.ts:52-95 | every axiom instance is true under every valuation |
| LA3.MPIff | src/systems/la3.ts:111-123 | `mp` succeeds exactly when the implication's antecedent equals the second premise's formula; it then concludes `⊢ consequent` with deps `[s1, s2]` and rule `MP`, and otherwise fails with "Unexpected value" |
| LA3.MPSound | src/systems/la3.ts:111-123 | `mp` on two true conclusions gives a true conclusion |
| LA3.DeriveSound | src/systems/la3.ts:52-123 | every derivation built from `a1`, `a2`, `a3` and `mp` concludes a single formula with nothing on the left, true under every valuation |
| LA3.IdentityDerives | src/systems/la3.ts:56-123 | `mp(mp(a2(p, p→p, p), a1(p, p→p)), a1(p, p))` succeeds and concludes `⊢ p→p` |

## Left out

- `log` (`src/lib/block.ts:152-156`) is console output.
- `fromMeta` and the `meta`/`usage`/`alpha`/`omega`/`iota`/`zeta` tables of both calculi are left out: they are demo content typed `any`. The entry points `src/lk.ts` and `src/la3.ts` are left out for the same reason.
- `src/lib/utils.ts` has no member of its own. `assertEqual` is modelled inside `Scl`, `Scr` and `MP`: its `JSON.stringify` comparison is structural equality, and its `throw` is `Err("Unexpected value")`.
- JavaScript string details:
  - `trim`, `trimStart` and `trimEnd` strip only `' '` here, while JavaScript strips every Unicode space.
  - A character is a Dafny `char`, and UTF-16 length is not modelled. The glyphs used are single units.
- `margin`'s third parameter (the fill string) is left out: it is always `' '` at every call site.
- Blocks.Underline: the mark is a `Line`, so a mark that holds a line break is not modelled.
- Blocks.Tree, Blocks.RuleLine: the rule width is a `nat`. A negative width, for which `'―'.repeat` throws a `RangeError` (src/lib/block.ts:87-89, 122), is not modelled. `treeAuto` never passes one.
- Blocks.Spaced, Blocks.Margin: the counts are `nat`s. With two or more blocks, a negative `n` in `spaced` makes `' '.repeat` throw a `RangeError` (src/lib/block.ts:43, 101); this is not modelled. Every call site passes 0, 1, 2 or a `Math.max(0, …)`. `spaced`'s default `n = 1` is written out where `tree` uses it (src/lib/block.ts:122).
- The TypeScript conditional and overloaded types are compile-time only.
  - They appear as the `...Shape` lemmas and as `requires` on lengths.
  - `print`'s arity overloads appear as `requires |args| == Arity(key)`.
  - Template keys are datatypes (`NullaryId`, `UnaryId`, `BinaryId`), not strings.
- The local `expand` helpers are defined once, as `Print.Expand`: the ones in `fromNegation`, `fromConjunction` and `fromDisjunction` are the same function.
- `fromDerivation` returns a string, but it is modelled as the block of that string's lines. `Print.FromDerivationText` shows the two carry the same information.
- `Cut` is total. Where its type's shape is missing it uses `init([]) == []` and `tail([]) == []`, as the code does.
- `LA3.MP` requires the major premise's first succedent formula to be an implication, as its type says.
  - The code reads only index 0 of each succedent. It does not demand the full `Conclusion` shape.
  - `LA3.Derive`, which assembles whole derivations, fails with the same message when that formula is not an implication. JavaScript would compare `undefined` and fail the same way.
- LA3.MPSound: it is stated for premises of the `Conclusion` shape, the shape the TypeScript signature demands, not for arbitrary sequents.
- Print.DrawingHeight: it requires single-line sequents and rule names (`Printable`). A drawing with a line break inside an atom name is not covered.
- The `Prop` types of `lk.ts` and `la3.ts` are narrower than the shared one: LK has no `falsum`/`verum`, and LA3 has only atoms, negation and implication. `LA3.InLanguage` states LA3's restriction. The LK rules are modelled over all formulas.

## Findings

| source | as written | input that shows it | evidently intended | confidence | as-written member | corrected member |
|---|---|---|---|---|---|---|
| src/systems/lk.ts:65-93 | `cut` drops the last succedent formula of `s1` and the first antecedent formula of `s2` without comparing them. The `Cut` type gives both the unrelated type `Prop` | `cut(i(p), i(q))` concludes `p ⊢ q` | the cut formulas must be equal, as in LK and as the demo at src/systems/lk.ts:634-637 uses the same `A` on both sides; a mismatch should fail like `scl` does | not executed; medium | LKSoundness.CutUnsound | LKSoundness.CutCheckedSound |
