/** The text-block layout engine of `src/lib/block.ts`.

    The source passes blocks around as strings whose lines are separated by
    '\n'. Here a block is the list of those lines, `Split(s)`, which is never
    empty and whose lines hold no '\n'; `Strings.SplitJoin` and
    `Strings.JoinSplit` prove that this is the same information as the
    string `Join(b)`. */
module Blocks {
  import opened Strings
  import opened Wrappers

  /** The lines of a string as `split('\n')` gives them. */
  type Block = b: seq<Line> | |b| > 0 witness [""]

  /** `width`: the length of the longest line (0 for the empty string). */
  function Width(b: seq<string>): nat
  {
    if |b| == 0 then 0 else Max(|b[0]|, Width(b[1..]))
  }

  /** The width bounds every line's length and is reached by some line. */
  lemma {:induction false} WidthBounds(b: seq<string>)
    ensures forall i :: 0 <= i < |b| ==> |b[i]| <= Width(b)
    ensures |b| > 0 ==> exists i :: 0 <= i < |b| && |b[i]| == Width(b)
    ensures |b| == 0 ==> Width(b) == 0
  {
    if |b| > 0 {
      WidthBounds(b[1..]);
      forall i | 1 <= i < |b| ensures |b[i]| <= Width(b) {
        assert b[i] == b[1..][i - 1];
      }
      if |b[0]| < Width(b[1..]) {
        var j :| 0 <= j < |b[1..]| && |b[1..][j]| == Width(b[1..]);
        assert b[j + 1] == b[1..][j];
        assert 0 <= j + 1 < |b| && |b[j + 1]| == Width(b);
      } else {
        assert 0 < |b| && |b[0]| == Width(b);
      }
    }
  }

  /** A width bound that some line reaches is the width. */
  lemma WidthIs(b: seq<string>, w: nat)
    requires forall i :: 0 <= i < |b| ==> |b[i]| <= w
    requires exists i :: 0 <= i < |b| && |b[i]| == w
    ensures Width(b) == w
  {
    WidthBounds(b);
    var i :| 0 <= i < |b| && |b[i]| == w;
    assert |b[i]| <= Width(b);
  }

  /** One line with `left` spaces before it and `right` spaces after it. */
  function Framed(left: nat, l: Line, right: nat): Line
  {
    Spaces(left) + l + Spaces(right)
  }

  /** `margin(left, right)`: put `left` spaces before and `right` spaces after
      every line, each line on its own (lines keep their differing lengths). */
  function Margin(left: nat, right: nat, b: Block): (r: Block)
    ensures |r| == |b|
    ensures forall i :: 0 <= i < |b| ==> r[i] == Spaces(left) + b[i] + Spaces(right)
  {
    seq(|b|, i requires 0 <= i < |b| => Framed(left, b[i], right))
  }

  /** A margin widens the block by exactly the spaces it adds. */
  lemma MarginWidth(left: nat, right: nat, b: Block)
    ensures Width(Margin(left, right, b)) == Width(b) + left + right
  {
    var r := Margin(left, right, b);
    WidthBounds(b);
    var i :| 0 <= i < |b| && |b[i]| == Width(b);
    assert |r[i]| == Width(b) + left + right;
    WidthIs(r, Width(b) + left + right);
  }

  /** An empty margin changes nothing. */
  lemma MarginNone(b: Block)
    ensures Margin(0, 0, b) == b
  {
    var r := Margin(0, 0, b);
    forall i | 0 <= i < |b| ensures r[i] == b[i] {
      assert Spaces(0) == "";
    }
  }

  /** `left(wide)`: a right margin that brings the width up to `wide`. */
  function Left(wide: int, b: Block): Block
  {
    Margin(0, Max(0, wide - Width(b)), b)
  }

  /** `left` never truncates: the width becomes `max(wide, width(b))`. */
  lemma LeftWidth(wide: int, b: Block)
    ensures Width(Left(wide, b)) == Max(wide, Width(b))
  {
    MarginWidth(0, Max(0, wide - Width(b)), b);
  }

  /** `left(wide)` on a one-line string pads that line with spaces to `wide`. */
  lemma LeftLine(wide: int, l: Line)
    ensures |Left(wide, [l])| == 1 && Left(wide, [l])[0] == Row(l, wide)
  {
    assert Width([l]) == |l|;
    assert Spaces(0) + l == l;
  }

  /** The padded row: a line followed by spaces up to `width`. */
  function Row(l: Line, width: int): Line
  {
    l + Spaces(Max(0, width - |l|))
  }

  /** Array `reverse()`. */
  function Reverse<T>(s: seq<T>): (r: seq<T>)
    ensures |r| == |s|
  {
    seq(|s|, i requires 0 <= i < |s| => s[|s| - 1 - i])
  }

  /** `lines[i] ?? String()`: the i-th line, or the empty string past the end. */
  function LineAt(lines: seq<Line>, i: nat): Line
  {
    if i < |lines| then lines[i] else ""
  }

  /** The rows of `concat` before they are reversed back: row i joins the
      i-th lines of the reversed blocks, each padded by `left`. */
  function ConcatRowsReversed(lines1: seq<Line>, width1: nat, lines2: seq<Line>, width2: nat, count: nat): (r: seq<Line>)
    ensures |r| == count
  {
    seq(count, i requires 0 <= i < count =>
      Left(width1, [LineAt(lines1, i)])[0] + Left(width2, [LineAt(lines2, i)])[0])
  }

  /** `concat`: horizontal join. Both line lists are reversed, joined row by
      row with each side padded by `left` to its block's width, and the rows
      are reversed back. */
  function Concat(b1: Block, b2: Block): Block
  {
    var lines1 := Reverse(b1);
    var width1 := Width(b1);
    var lines2 := Reverse(b2);
    var width2 := Width(b2);
    var count := Max(|lines1|, |lines2|);
    Reverse(ConcatRowsReversed(lines1, width1, lines2, width2, count))
  }

  /** The k-th line counted from the bottom, or "" above the top line. */
  function FromBottom(b: Block, k: nat): (l: Line)
    ensures |l| <= Width(b)
  {
    WidthBounds(b);
    if k < |b| then b[|b| - 1 - k] else ""
  }

  /** Reading the reversed lines from the top is reading from the bottom. */
  lemma LineAtReverse(b: Block, k: nat)
    ensures LineAt(Reverse(b), k) == FromBottom(b, k)
  {
  }

  /** Row k from the bottom of `concat`. */
  lemma ConcatRow(b1: Block, b2: Block, k: nat)
    requires k < Max(|b1|, |b2|)
    ensures |Concat(b1, b2)| == Max(|b1|, |b2|)
    ensures Concat(b1, b2)[Max(|b1|, |b2|) - 1 - k] ==
      Row(FromBottom(b1, k), Width(b1)) + Row(FromBottom(b2, k), Width(b2))
  {
    var count := Max(|b1|, |b2|);
    var lines1, lines2 := Reverse(b1), Reverse(b2);
    var rows := ConcatRowsReversed(lines1, Width(b1), lines2, Width(b2), count);
    assert Concat(b1, b2) == Reverse(rows);
    assert Reverse(rows)[count - 1 - k] == rows[k];
    var l1, l2 := FromBottom(b1, k), FromBottom(b2, k);
    LineAtReverse(b1, k);
    LineAtReverse(b2, k);
    LeftLine(Width(b1), l1);
    LeftLine(Width(b2), l2);
    assert rows[k] == Left(Width(b1), [l1])[0] + Left(Width(b2), [l2])[0];
  }

  /** `concat` is bottom-aligned: it has as many lines as the taller block,
      and row k from the bottom is b1's k-th line from the bottom (or
      nothing) padded to width(b1), then b2's padded to width(b2). */
  lemma ConcatRows(b1: Block, b2: Block)
    ensures |Concat(b1, b2)| == Max(|b1|, |b2|)
    ensures forall k :: 0 <= k < Max(|b1|, |b2|) ==>
      Concat(b1, b2)[Max(|b1|, |b2|) - 1 - k] ==
        Row(FromBottom(b1, k), Width(b1)) + Row(FromBottom(b2, k), Width(b2))
  {
    ConcatRow(b1, b2, 0);
    forall k | 0 <= k < Max(|b1|, |b2|)
      ensures Concat(b1, b2)[Max(|b1|, |b2|) - 1 - k] ==
        Row(FromBottom(b1, k), Width(b1)) + Row(FromBottom(b2, k), Width(b2))
    {
      ConcatRow(b1, b2, k);
    }
  }

  /** `concat` is a rectangle: every row is width(b1) + width(b2) long. */
  lemma ConcatRect(b1: Block, b2: Block)
    ensures |Concat(b1, b2)| == Max(|b1|, |b2|)
    ensures forall j :: 0 <= j < |Concat(b1, b2)| ==> |Concat(b1, b2)[j]| == Width(b1) + Width(b2)
  {
    ConcatRow(b1, b2, 0);
    forall j | 0 <= j < |Concat(b1, b2)| ensures |Concat(b1, b2)[j]| == Width(b1) + Width(b2) {
      ConcatRowLength(b1, b2, j);
    }
  }

  /** One row of `concat`, counted from the top, has the full width. */
  lemma ConcatRowLength(b1: Block, b2: Block, j: nat)
    requires j < Max(|b1|, |b2|)
    ensures |Concat(b1, b2)[j]| == Width(b1) + Width(b2)
  {
    var k := Max(|b1|, |b2|) - 1 - j;
    ConcatRow(b1, b2, k);
    assert Max(|b1|, |b2|) - 1 - k == j;
    RowPairLength(FromBottom(b1, k), Width(b1), FromBottom(b2, k), Width(b2));
  }

  /** Two padded rows side by side are as long as their two widths. */
  lemma RowPairLength(l1: Line, w1: nat, l2: Line, w2: nat)
    requires |l1| <= w1 && |l2| <= w2
    ensures |Row(l1, w1) + Row(l2, w2)| == w1 + w2
  {
  }

  /** `concat` is as wide as its two blocks together. */
  lemma ConcatWidth(b1: Block, b2: Block)
    ensures Width(Concat(b1, b2)) == Width(b1) + Width(b2)
  {
    ConcatRect(b1, b2);
    var r := Concat(b1, b2);
    assert |r[0]| == Width(b1) + Width(b2);
    WidthIs(r, Width(b1) + Width(b2));
  }

  /** Two one-line blocks concatenate to the two lines run together. */
  lemma ConcatLine(l1: Line, l2: Line)
    ensures Concat([l1], [l2]) == [l1 + l2]
  {
    WidthLine(l1);
    WidthLine(l2);
    ConcatRow([l1], [l2], 0);
    assert FromBottom([l1], 0) == l1 && FromBottom([l2], 0) == l2;
    assert Spaces(0) == "";
    assert Row(l1, |l1|) == l1 && Row(l2, |l2|) == l2;
  }

  /** `center(wide)`: the same left margin max(0, floor((wide - width) / 2))
      and right margin max(0, wide - width - left) on every line. Dafny's `/`
      by 2 rounds down like `Math.floor`, also for negative numerators. */
  function Center(wide: int, b: Block): Block
  {
    var length := Width(b);
    var leftMargin := Max(0, (wide - length) / 2);
    var rightMargin := Max(0, wide - length - leftMargin);
    Margin(leftMargin, rightMargin, b)
  }

  /** Centring never clips: the width becomes `max(wide, width(b))` and the
      line count is kept. */
  lemma CenterWidth(wide: int, b: Block)
    ensures |Center(wide, b)| == |b|
    ensures Width(Center(wide, b)) == Max(wide, Width(b))
  {
    var length := Width(b);
    var leftMargin := Max(0, (wide - length) / 2);
    var rightMargin := Max(0, wide - length - leftMargin);
    MarginWidth(leftMargin, rightMargin, b);
  }

  /** When there is room, centring splits it with the left margin
      floor(d / 2) and the right margin at most one larger. */
  lemma CenterMargins(wide: int, b: Block)
    requires wide >= Width(b)
    ensures var d := wide - Width(b);
      && Center(wide, b) == Margin(d / 2, d - d / 2, b)
      && 0 <= (d - d / 2) - d / 2 <= 1
  {
    var d := wide - Width(b);
    Halves(d);
    assert Center(wide, b) == Margin(Max(0, d / 2), Max(0, d - Max(0, d / 2)), b);
  }

  /** Splitting a non-negative room into two halves, the left rounded down. */
  lemma Halves(d: int)
    requires d >= 0
    ensures Max(0, d / 2) == d / 2 && Max(0, d - d / 2) == d - d / 2
    ensures 0 <= (d - d / 2) - d / 2 <= 1
  {
  }

  /** A block at least as wide as the target is left as it is. */
  lemma CenterNarrow(wide: int, b: Block)
    requires wide <= Width(b)
    ensures Center(wide, b) == b
  {
    MarginNone(b);
  }

  /** The width of a one-line block is the line's length. */
  lemma WidthLine(l: Line)
    ensures Width([l]) == |l|
  {
    assert [l][0] == l;
    WidthIs([l], |l|);
  }

  /** A one-line block centred with room to spare. */
  lemma CenterLine(wide: int, l: Line)
    requires wide >= |l|
    ensures var d := wide - |l|;
      Center(wide, [l]) == [Framed(d / 2, l, d - d / 2)]
  {
    WidthLine(l);
    CenterMargins(wide, [l]);
  }

  /** The unit-test cases of `center`: a target narrower than, equal to
      and wider than the line. */
  lemma CenterExampleNarrow()
    ensures Center(1, ["abc"]) == ["abc"]
  {
    WidthLine("abc");
    assert |"abc"| == 3;
    CenterNarrow(1, ["abc"]);
  }

  lemma CenterExampleExact()
    ensures Center(3, ["abc"]) == ["abc"]
  {
    WidthLine("abc");
    assert |"abc"| == 3;
    CenterNarrow(3, ["abc"]);
  }

  lemma CenterExampleWide()
    ensures Center(5, ["abc"]) == [" abc "]
  {
    CenterLine(5, "abc");
    assert |"abc"| == 3;
    assert (5 - 3) / 2 == 1;
    assert Center(5, ["abc"]) == [Spaces(1) + "abc" + Spaces(1)];
    assert Spaces(1) == " ";
    assert Spaces(1) + "abc" + Spaces(1) == " abc ";
  }

  /** `line(width)`: a horizontal rule of `width` U+2015 characters. */
  function RuleLine(width: nat): (r: Line)
    ensures |r| == width && forall i :: 0 <= i < width ==> r[i] == '―'
  {
    Repeat('―', width)
  }

  /** `padEnd(length, ' ')`: spaces after the line up to `length`. */
  function PadEnd(l: Line, length: int): Line
  {
    l + Spaces(Max(0, length - |l|))
  }

  /** `pad`: every line padded with spaces to the block's width. */
  function Pad(b: Block): Block
  {
    seq(|b|, i requires 0 <= i < |b| => PadEnd(b[i], Width(b)))
  }

  /** `pad` makes the block a rectangle of its own width, keeping the line
      count and only appending spaces. */
  lemma PadRect(b: Block)
    ensures |Pad(b)| == |b|
    ensures forall i :: 0 <= i < |b| ==> |Pad(b)[i]| == Width(b)
    ensures forall i :: 0 <= i < |b| ==> |b[i]| <= Width(b) && Pad(b)[i] == b[i] + Spaces(Width(b) - |b[i]|)
    ensures Width(Pad(b)) == Width(b)
  {
    WidthBounds(b);
    var r := Pad(b);
    var i :| 0 <= i < |b| && |b[i]| == Width(b);
    assert |r[i]| == Width(b);
    WidthIs(r, Width(b));
  }

  /** The lines of all blocks, one block after another. */
  function Flatten(bs: seq<Block>): (r: seq<Line>)
    ensures |r| >= |bs|
  {
    if |bs| == 0 then [] else bs[0] + Flatten(bs[1..])
  }

  /** `leftify(...lines)`: the strings joined with '\n', that is the blocks
      stacked top to bottom (no argument gives the empty string). */
  function Leftify(bs: seq<Block>): Block
  {
    if |bs| == 0 then [""] else Flatten(bs)
  }

  /** Stacking the blocks is joining their texts with line breaks. */
  lemma {:induction false} LeftifyText(bs: seq<Block>)
    ensures Join(Leftify(bs)) == Join(seq(|bs|, i requires 0 <= i < |bs| => Join(bs[i])))
  {
    if |bs| == 1 {
      assert Flatten(bs) == bs[0] + [];
      assert bs[0] + [] == bs[0];
    } else if |bs| > 1 {
      LeftifyText(bs[1..]);
      var texts := seq(|bs|, i requires 0 <= i < |bs| => Join(bs[i]));
      assert texts[1..] == seq(|bs[1..]|, i requires 0 <= i < |bs[1..]| => Join(bs[1..][i]));
      JoinAppend(bs[0], Flatten(bs[1..]));
    }
  }

  /** Stacking three blocks. */
  lemma Leftify3(x: Block, y: Block, z: Block)
    ensures Leftify([x, y, z]) == x + y + z
  {
    assert [x, y, z][1..] == [y, z];
    assert [y, z][1..] == [z];
    assert [z][1..] == [];
    assert Flatten([z]) == z + [] == z;
    assert Flatten([y, z]) == y + z;
    assert Flatten([x, y, z]) == x + (y + z);
  }

  /** The widest of the blocks. */
  function MaxWidth(bs: seq<Block>): nat
  {
    if |bs| == 0 then 0 else Max(Width(bs[0]), MaxWidth(bs[1..]))
  }

  /** The total number of lines of the blocks. */
  function SumHeights(bs: seq<Block>): nat
  {
    if |bs| == 0 then 0 else |bs[0]| + SumHeights(bs[1..])
  }

  /** `lines.map(center(w))`: every block centred to `w`. */
  function CenterAll(w: int, bs: seq<Block>): (r: seq<Block>)
    ensures |r| == |bs| && forall i :: 0 <= i < |bs| ==> r[i] == Center(w, bs[i])
  {
    seq(|bs|, i requires 0 <= i < |bs| => Center(w, bs[i]))
  }

  /** `centerify(...lines)`: every block centred to the widest, then stacked. */
  function Centerify(bs: seq<Block>): Block
  {
    if |bs| == 0 then [""]
    else Flatten(CenterAll(MaxWidth(bs), bs))
  }

  /** Stacked blocks have all their lines and the widest block's width. */
  lemma {:induction false} FlattenShape(bs: seq<Block>)
    ensures |Flatten(bs)| == SumHeights(bs)
    ensures Width(Flatten(bs)) == MaxWidth(bs)
  {
    if |bs| > 0 {
      FlattenShape(bs[1..]);
      WidthBounds(bs[0]);
      WidthBounds(Flatten(bs[1..]));
      var r := Flatten(bs);
      assert r == bs[0] + Flatten(bs[1..]);
      var w := MaxWidth(bs);
      forall i | 0 <= i < |r| ensures |r[i]| <= w {
        if i >= |bs[0]| {
          assert r[i] == Flatten(bs[1..])[i - |bs[0]|];
        }
      }
      if Width(bs[0]) >= MaxWidth(bs[1..]) {
        var j :| 0 <= j < |bs[0]| && |bs[0][j]| == Width(bs[0]);
        assert r[j] == bs[0][j];
      } else {
        var j :| 0 <= j < |Flatten(bs[1..])| && |Flatten(bs[1..])[j]| == MaxWidth(bs[1..]);
        assert r[|bs[0]| + j] == Flatten(bs[1..])[j];
      }
      WidthIs(r, w);
    }
  }

  /** The widest of blocks centred to a width at least theirs is that width. */
  lemma {:induction false} MaxWidthCentered(bs: seq<Block>, w: nat)
    requires MaxWidth(bs) <= w
    ensures var cs := CenterAll(w, bs);
      SumHeights(cs) == SumHeights(bs) && (|bs| > 0 ==> MaxWidth(cs) == w)
  {
    if |bs| > 0 {
      var cs := CenterAll(w, bs);
      MaxWidthCentered(bs[1..], w);
      assert cs[1..] == CenterAll(w, bs[1..]);
      CenterWidth(w, bs[0]);
    }
  }

  /** Line `j` of block `i` is the stacked line after all the lines of the
      blocks before it. */
  lemma {:induction false} FlattenAt(bs: seq<Block>, i: nat, j: nat)
    requires i < |bs| && j < |bs[i]|
    ensures SumHeights(bs[..i]) + j < |Flatten(bs)|
    ensures Flatten(bs)[SumHeights(bs[..i]) + j] == bs[i][j]
  {
    if i == 0 {
      assert bs[..0] == [];
    } else {
      FlattenAt(bs[1..], i - 1, j);
      assert bs[..i][1..] == bs[1..][..i - 1];
      assert bs[..i][0] == bs[0];
    }
  }

  /** Blocks of the same heights, one by one, have the same total height. */
  lemma {:induction false} SameHeights(xs: seq<Block>, ys: seq<Block>)
    requires |xs| == |ys| && forall k :: 0 <= k < |xs| ==> |xs[k]| == |ys[k]|
    ensures SumHeights(xs) == SumHeights(ys)
  {
    if |xs| > 0 {
      SameHeights(xs[1..], ys[1..]);
    }
  }

  /** `centerify` centres every block to the widest one: the result has that
      width and all the lines of the blocks. */
  lemma CenterifyShape(bs: seq<Block>)
    requires |bs| > 0
    ensures Width(Centerify(bs)) == MaxWidth(bs)
    ensures |Centerify(bs)| == SumHeights(bs)
  {
    var cs := CenterAll(MaxWidth(bs), bs);
    MaxWidthCentered(bs, MaxWidth(bs));
    FlattenShape(cs);
  }

  /** Block after block: line `j` of block `i`, centred to the widest
      width, is the line of `centerify` after all the lines of the blocks
      before block `i`. */
  lemma CenterifyAt(bs: seq<Block>, i: nat, j: nat)
    requires i < |bs| && j < |bs[i]|
    ensures SumHeights(bs[..i]) + j < |Centerify(bs)|
    ensures Centerify(bs)[SumHeights(bs[..i]) + j] == Center(MaxWidth(bs), bs[i])[j]
  {
    var cs := CenterAll(MaxWidth(bs), bs);
    assert SumHeights(cs[..i]) == SumHeights(bs[..i]) by {
      forall k | 0 <= k < i ensures |cs[..i][k]| == |bs[..i][k]| {
        assert cs[..i][k] == Center(MaxWidth(bs), bs[k]);
      }
      SameHeights(cs[..i], bs[..i]);
    }
    assert cs[i] == Center(MaxWidth(bs), bs[i]);
    FlattenAt(cs, i, j);
  }

  /** `margin(n, 0)` of every block. */
  function MarginAll(n: nat, bs: seq<Block>): (r: seq<Block>)
    ensures |r| == |bs|
  {
    seq(|bs|, i requires 0 <= i < |bs| => Margin(n, 0, bs[i]))
  }

  /** `reduce(concat, first)`: the left fold of `concat`. */
  function Reduce(acc: Block, rest: seq<Block>): Block
    decreases |rest|
  {
    if |rest| == 0 then acc else Reduce(Concat(acc, rest[0]), rest[1..])
  }

  /** `spaced(blocks, n)`: the blocks side by side, `n` blank columns apart. */
  function Spaced(blocks: seq<Block>, n: nat): Block
  {
    if |blocks| == 0 then [""] else Reduce(blocks[0], MarginAll(n, blocks[1..]))
  }

  /** The total width of the blocks. */
  function SumWidths(bs: seq<Block>): nat
  {
    if |bs| == 0 then 0 else Width(bs[0]) + SumWidths(bs[1..])
  }

  /** The height of the tallest block, and 1 when there is none (the height
      of the empty string). */
  function MaxHeight(bs: seq<Block>): nat
  {
    if |bs| == 0 then 1 else Max(|bs[0]|, MaxHeight(bs[1..]))
  }

  /** The fold adds up the widths and keeps the tallest height. */
  lemma {:induction false} ReduceShape(acc: Block, rest: seq<Block>)
    ensures Width(Reduce(acc, rest)) == Width(acc) + SumWidths(rest)
    ensures |Reduce(acc, rest)| == Max(|acc|, MaxHeight(rest))
    decreases |rest|
  {
    if |rest| > 0 {
      ConcatWidth(acc, rest[0]);
      ConcatRows(acc, rest[0]);
      ReduceShape(Concat(acc, rest[0]), rest[1..]);
    }
  }

  lemma MulSucc(n: nat, k: nat)
    ensures n * (k + 1) == n * k + n
  {
  }

  /** A left margin of n on each block adds n to each width. */
  lemma {:induction false} MarginAllShape(n: nat, bs: seq<Block>)
    ensures SumWidths(MarginAll(n, bs)) == SumWidths(bs) + n * |bs|
    ensures MaxHeight(MarginAll(n, bs)) == MaxHeight(bs)
  {
    if |bs| > 0 {
      var ms := MarginAll(n, bs);
      MarginAllShape(n, bs[1..]);
      assert ms[1..] == MarginAll(n, bs[1..]);
      assert ms[0] == Margin(n, 0, bs[0]);
      MarginWidth(n, 0, bs[0]);
      assert SumWidths(ms) == Width(ms[0]) + SumWidths(ms[1..]);
      assert MaxHeight(ms) == Max(|ms[0]|, MaxHeight(ms[1..]));
      MulSucc(n, |bs[1..]|);
    }
  }

  /** `spaced([], n)` is the empty string and `spaced([b], n)` is `b`. */
  lemma SpacedFew(bs: seq<Block>, n: nat)
    ensures |bs| == 0 ==> Spaced(bs, n) == [""]
    ensures |bs| == 1 ==> Spaced(bs, n) == bs[0]
  {
    if |bs| == 1 {
      assert MarginAll(n, bs[1..]) == [];
    }
  }

  /** The width of `spaced` is the sum of the widths plus n per gap, and the
      height is the tallest block's. */
  lemma SpacedShape(bs: seq<Block>, n: nat)
    ensures |bs| > 0 ==> Width(Spaced(bs, n)) == SumWidths(bs) + n * (|bs| - 1)
    ensures |Spaced(bs, n)| == MaxHeight(bs)
  {
    if |bs| > 0 {
      var first, rest := bs[0], bs[1..];
      var ms := MarginAll(n, rest);
      assert Spaced(bs, n) == Reduce(first, ms);
      ReduceShape(first, ms);
      MarginAllShape(n, rest);
      assert |rest| == |bs| - 1;
      assert SumWidths(bs) == Width(first) + SumWidths(rest);
      assert MaxHeight(bs) == Max(|first|, MaxHeight(rest));
    }
  }

  /** The unit-test case `spaced(["foo", "bar"], 2)`. */
  lemma SpacedExample()
    ensures Spaced([["foo"], ["bar"]], 2) == ["foo  bar"]
  {
    var m := Margin(2, 0, ["bar"]);
    assert m[0] == Spaces(2) + "bar" + Spaces(0);
    assert Spaces(2) == "  " && Spaces(0) == "";
    assert "  " + "bar" + "" == "  bar";
    assert |m| == 1 && m[0] == "  bar";
    assert m == ["  bar"];
    assert [["foo"], ["bar"]][1..] == [["bar"]];
    assert MarginAll(2, [["bar"]]) == [m];
    assert Spaced([["foo"], ["bar"]], 2) == Reduce(["foo"], [m]);
    assert Reduce(["foo"], [m]) == Reduce(Concat(["foo"], m), []);
    ConcatLine("foo", "  bar");
    assert Reduce(Concat(["foo"], m), []) == Concat(["foo"], ["  bar"]);
    assert "foo" + "  bar" == "foo  bar";
  }

  /** `underline(mark)`: a line of `mark` repeated width(b) times added below. */
  function Underline(mark: Line, b: Block): (r: Block)
  {
    b + [RepeatLine(mark, Width(b))]
  }

  /** `underline` keeps the lines and adds one below of length
      width(b) * |mark|, which is width(b) for a one-character mark. */
  lemma UnderlineShape(mark: Line, b: Block)
    ensures Underline(mark, b)[..|b|] == b
    ensures |Underline(mark, b)| == |b| + 1
    ensures |Underline(mark, b)[|b|]| == Width(b) * |mark|
    ensures |mark| == 1 ==> Width(Underline(mark, b)) == Width(b)
  {
    if |mark| == 1 {
      var r := Underline(mark, b);
      WidthBounds(b);
      var i :| 0 <= i < |b| && |b[i]| == Width(b);
      assert r[i] == b[i];
      WidthIs(r, Width(b));
    }
  }

  /** `lastLine`: `rest.at(-1) ?? first`. */
  function LastLine(b: Block): (l: Line)
    ensures l == b[|b| - 1]
  {
    var first := b[0];
    var rest := b[1..];
    if |rest| > 0 then rest[|rest| - 1] else first
  }

  /** `align(a, b)`: fuse `a` above `b` when a's last line and b's first line
      carry the same trimmed text. Both blocks are re-margined so the shared
      text lines up; b's first line is dropped and the rest of b, joined and
      split again, follows a. */
  function Align(a: Block, b: Block): (r: Option<Block>)
    ensures r.None? <==> Trim(LastLine(a)) == "" || Trim(b[0]) != Trim(LastLine(a))
    ensures r.Some? ==> |r.value| >= 2
  {
    var last := LastLine(a);
    if |Trim(last)| < 1 then None
    else
      var first := b[0];
      var rest := b[1..];
      if Trim(first) != Trim(last) then None
      else
        var topLeft := Leading(last);
        var topRight := Trailing(last);
        var bottomLeft := Leading(first);
        var bottomRight := Trailing(first);
        var top := Margin(Max(0, bottomLeft - topLeft), Max(0, bottomRight - topRight), a);
        var bot := Margin(Max(0, topLeft - bottomLeft), Max(0, topRight - bottomRight), Split(Join(rest)));
        Some(top + bot)
  }

  /** The source tests `if (aligned)`: a fused block is never the empty
      string, so that test is exactly "align matched". */
  lemma AlignTruthy(a: Block, b: Block)
    requires Align(a, b).Some?
    ensures Join(Align(a, b).value) != ""
  {
    var r := Align(a, b).value;
    assert Join(r) == r[0] + "\n" + Join(r[1..]);
    assert Join(r)[|r[0]|] == '\n';
  }

  /** Re-joining and re-splitting the rest of b gives it back, except that no
      rest at all becomes one empty line. */
  lemma SplitJoinRest(b: Block)
    ensures Split(Join(b[1..])) == if |b| == 1 then [""] else b[1..]
  {
    if |b| > 1 {
      SplitJoin(b[1..]);
    }
  }

  /** A framed text framed again: the outer margins top the inner ones up
      to the larger of the two counts on each side. */
  lemma Reframe(x: int, t: Line, z: int, y: int, w: int)
    requires 0 <= x && 0 <= z && 0 <= y && 0 <= w
    ensures Spaces(Max(0, y - x)) + (Spaces(x) + t + Spaces(z)) + Spaces(Max(0, w - z))
      == Spaces(Max(x, y)) + t + Spaces(Max(z, w))
  {
    SpacesAdd(Max(0, y - x), x);
    SpacesAdd(z, Max(0, w - z));
    assert Max(0, y - x) + x == Max(x, y);
    assert z + Max(0, w - z) == Max(z, w);
  }

  /** On a match, `align` gives the re-margined lines of `a` followed by the
      re-margined rest of `b` (one blank line when b has no rest). */
  lemma AlignMatched(a: Block, b: Block)
    requires Trim(LastLine(a)) != "" && Trim(b[0]) == Trim(LastLine(a))
    ensures var last, first := LastLine(a), b[0];
      var tL, tR, bL, bR := Leading(last), Trailing(last), Leading(first), Trailing(first);
      var top := Margin(Max(0, bL - tL), Max(0, bR - tR), a);
      var bot := Margin(Max(0, tL - bL), Max(0, tR - bR), if |b| == 1 then [""] else b[1..]);
      && Align(a, b) == Some(top + bot)
      && |Align(a, b).value| == |a| + Max(1, |b| - 1)
  {
    SplitJoinRest(b);
  }

  /** A line framing a text in x and z spaces, framed again by what y and w
      have more, is the text framed in max(x, y) and max(z, w) spaces. */
  lemma Reframed(x: nat, z: nat, y: nat, w: nat, text: Line, l: Line)
    requires l == Spaces(x) + text + Spaces(z)
    ensures Framed(Max(0, y - x), l, Max(0, w - z)) == Spaces(Max(x, y)) + text + Spaces(Max(z, w))
  {
    Reframe(x, text, z, y, w);
  }

  /** Two lines with the same non-blank trimmed text: the upper one
      re-margined by what the lower one has more of on either side is
      max(tL, bL) spaces, the text, max(tR, bR) spaces (and with the roles
      swapped, so is the lower one). */
  lemma SeamTop(last: Line, first: Line)
    requires Trim(last) != "" && Trim(first) == Trim(last)
    ensures var tL, tR, bL, bR := Leading(last), Trailing(last), Leading(first), Trailing(first);
      Framed(Max(0, bL - tL), last, Max(0, bR - tR)) == Spaces(Max(tL, bL)) + Trim(last) + Spaces(Max(tR, bR))
  {
    var tL: int, tR: int, bL: int, bR: int := Leading(last), Trailing(last), Leading(first), Trailing(first);
    var text := Trim(last);
    TrimLine(last);
    Decompose(last);
    Reframed(tL, tR, bL, bR, text, last);
    assert Framed(Max(0, bL - tL), last, Max(0, bR - tR)) == Spaces(Max(tL, bL)) + text + Spaces(Max(tR, bR));
  }

  /** After the fusion a's last line is max(tL, bL) spaces, the shared
      text and max(tR, bR) spaces, where tL, tR and bL, bR count the spaces
      around a's last line and b's first line... */
  lemma AlignTopSeam(a: Block, b: Block)
    requires Trim(LastLine(a)) != "" && Trim(b[0]) == Trim(LastLine(a))
    ensures var last, first := LastLine(a), b[0];
      var tL, tR, bL, bR := Leading(last), Trailing(last), Leading(first), Trailing(first);
      var top := Margin(Max(0, bL - tL), Max(0, bR - tR), a);
      top[|a| - 1] == Spaces(Max(tL, bL)) + Trim(last) + Spaces(Max(tR, bR))
  {
    var last, first := LastLine(a), b[0];
    var tL: int, tR: int, bL: int, bR: int := Leading(last), Trailing(last), Leading(first), Trailing(first);
    var l: nat, r: nat := Max(0, bL - tL), Max(0, bR - tR);
    assert Margin(l, r, a)[|a| - 1] == Framed(l, last, r);
    SeamTop(last, first);
    assert Margin(l, r, a)[|a| - 1] == Spaces(Max(tL, bL)) + Trim(last) + Spaces(Max(tR, bR));
  }

  /** ...which is also b's first line under the margins given to the rest
      of b: the dropped line is the one a's last line has become. */
  lemma AlignBottomSeam(a: Block, b: Block)
    requires Trim(LastLine(a)) != "" && Trim(b[0]) == Trim(LastLine(a))
    ensures var last, first := LastLine(a), b[0];
      var tL, tR, bL, bR := Leading(last), Trailing(last), Leading(first), Trailing(first);
      Margin(Max(0, tL - bL), Max(0, tR - bR), [first])[0] == Spaces(Max(tL, bL)) + Trim(last) + Spaces(Max(tR, bR))
  {
    var last, first := LastLine(a), b[0];
    var tL: int, tR: int, bL: int, bR: int := Leading(last), Trailing(last), Leading(first), Trailing(first);
    assert Max(tL, bL) == Max(bL, tL) && Max(tR, bR) == Max(bR, tR);
    var left: nat, right: nat := Max(0, tL - bL), Max(0, tR - bR);
    assert Margin(left, right, [first])[0] == Framed(left, first, right);
    SeamTop(first, last);
  }

  /** The unit-test cases of `align`: a blank last line of `a` never
      matches, and neither do different texts. */
  lemma AlignBlank()
    ensures Align(["abc", "   "], ["   ", "bcd"]) == None
  {
    assert LastLine(["abc", "   "]) == "   ";
    assert "   " == Spaces(3);
    TrimSpaces(3);
  }

  lemma AlignMismatch()
    ensures Align(["abc", " b "], [" c ", "bcd"]) == None
  {
    assert LastLine(["abc", " b "]) == " b ";
    assert Spaces(1) == " ";
    assert " b " == Spaces(1) + "b" + Spaces(1);
    assert " c " == Spaces(1) + "c" + Spaces(1);
    TrimFramed(1, "b", 1);
    TrimFramed(1, "c", 1);
  }

  /** The rule row `spaced([line(lineWidth), note])`. */
  function RuleRow(lineWidth: nat, note: Block): Block
  {
    Spaced([[RuleLine(lineWidth)], note], 1)
  }

  /** The rule row of a one-line note: the rule, one space, the note. */
  function RuleNote(lineWidth: nat, note: Line): (r: Line)
    ensures |r| == lineWidth + 1 + |note|
  {
    RuleLine(lineWidth) + " " + note
  }

  /** For a one-line note the rule row is `lineWidth` copies of '―', one
      space and the note; for any note it has the note's height. */
  lemma RuleRowShape(lineWidth: nat, note: Block)
    ensures |RuleRow(lineWidth, note)| == |note|
    ensures |note| == 1 ==> RuleRow(lineWidth, note) == [RuleNote(lineWidth, note[0])]
  {
    var rule: Block := [RuleLine(lineWidth)];
    var m := Margin(1, 0, note);
    var bs: seq<Block> := [rule, note];
    assert bs[1..] == [note];
    assert MarginAll(1, [note]) == [m];
    assert RuleRow(lineWidth, note) == Reduce(rule, [m]);
    assert Reduce(rule, [m]) == Reduce(Concat(rule, m), []);
    ConcatRows(rule, m);
    if |note| == 1 {
      assert m[0] == Spaces(1) + note[0] + Spaces(0);
      assert Spaces(1) == " " && Spaces(0) == "";
      assert " " + note[0] + "" == " " + note[0];
      assert |m| == 1 && m[0] == " " + note[0];
      assert m == [" " + note[0]];
      ConcatLine(RuleLine(lineWidth), " " + note[0]);
      assert RuleLine(lineWidth) + (" " + note[0]) == RuleLine(lineWidth) + " " + note[0];
    }
  }

  /** `lastLine(block).trim()`. */
  function TrimmedLast(b: Block): Line
  {
    TrimLine(LastLine(b));
    Trim(LastLine(b))
  }

  /** `tree(root, branches, note, lineWidth)`: the branches side by side and
      centred, a rule with the note, and the centred root. The branch row is
      fused with the rest by `align` when its last line carries the same text
      as the trimmed and re-centred copy of that line; otherwise the three
      rows are stacked and padded to a rectangle. */
  function Tree(root: Block, branches: seq<Block>, note: Block, lineWidth: nat): Block
  {
    var line1 := Center(lineWidth, Spaced(branches, 2));
    var last := Center(lineWidth, [TrimmedLast(line1)]);
    var line2 := RuleRow(lineWidth, note);
    var line3 := Center(lineWidth, root);
    var aligned := Align(line1, Pad(Leftify([last, line2, line3])));
    if aligned.Some? then aligned.value else Pad(Leftify([line1, line2, line3]))
  }

  /** On both the fused and the stacked path the tree has the branch row's,
      the rule row's and the root's lines: the fused path drops the copy of
      the branch row's last line it was matched against. */
  lemma TreeHeight(root: Block, branches: seq<Block>, note: Block, lineWidth: nat)
    ensures |Tree(root, branches, note, lineWidth)| == MaxHeight(branches) + |note| + |root|
  {
    var line1 := Center(lineWidth, Spaced(branches, 2));
    var last := Center(lineWidth, [TrimmedLast(line1)]);
    var line2 := RuleRow(lineWidth, note);
    var line3 := Center(lineWidth, root);
    SpacedShape(branches, 2);
    CenterWidth(lineWidth, Spaced(branches, 2));
    CenterWidth(lineWidth, [TrimmedLast(line1)]);
    CenterWidth(lineWidth, root);
    RuleRowShape(lineWidth, note);
    Leftify3(last, line2, line3);
    Leftify3(line1, line2, line3);
    var stack := Pad(Leftify([last, line2, line3]));
    PadRect(Leftify([last, line2, line3]));
    PadRect(Leftify([line1, line2, line3]));
    if Align(line1, stack).Some? {
      AlignMatched(line1, stack);
    }
  }

  /** With no branches the branch row is one blank line of width
      `lineWidth`, `align` declines, and the stacked rows are padded. */
  lemma TreeNoBranches(root: Block, note: Block, lineWidth: nat)
    ensures Tree(root, [], note, lineWidth) ==
      Pad([Spaces(lineWidth)] + RuleRow(lineWidth, note) + Center(lineWidth, root))
  {
    var line1 := Center(lineWidth, Spaced([], 2));
    assert Spaced([], 2) == [""];
    CenterLine(lineWidth, "");
    SpacesAdd(lineWidth / 2, lineWidth - lineWidth / 2);
    assert Spaces(lineWidth / 2) + "" == Spaces(lineWidth / 2);
    assert line1 == [Spaces(lineWidth)];
    assert LastLine(line1) == Spaces(lineWidth);
    TrimSpaces(lineWidth);
    Leftify3(line1, RuleRow(lineWidth, note), Center(lineWidth, root));
  }

  /** Centring, padding and margins only add spaces around each line, so
      every line trims as before. */
  lemma TrimCenterRow(w: int, b: Block, i: nat)
    requires i < |b|
    ensures |Center(w, b)| == |b| && Trim(Center(w, b)[i]) == Trim(b[i])
  {
    var l := Max(0, (w - Width(b)) / 2);
    var r := Max(0, w - Width(b) - l);
    assert Center(w, b) == Margin(l, r, b);
    TrimAround(l, b[i], r);
  }

  lemma TrimPadRow(b: Block, i: nat)
    requires i < |b|
    ensures |Pad(b)| == |b| && Trim(Pad(b)[i]) == Trim(b[i])
  {
    PadRect(b);
    assert Pad(b)[i] == Spaces(0) + b[i] + Spaces(Width(b) - |b[i]|);
    TrimAround(0, b[i], Width(b) - |b[i]|);
  }

  /** Which of its two results `tree` returns: the fused one when `align`
      matches the branch row with the stacked rows below it, and otherwise
      the padded stack of all three rows. */
  lemma TreeFused(root: Block, branches: seq<Block>, note: Block, lineWidth: nat)
    ensures var line1 := Center(lineWidth, Spaced(branches, 2));
      var line2, line3 := RuleRow(lineWidth, note), Center(lineWidth, root);
      var stack := Pad(Center(lineWidth, [TrimmedLast(line1)]) + line2 + line3);
      && (Align(line1, stack).Some? ==> Tree(root, branches, note, lineWidth) == Align(line1, stack).value)
      && (Align(line1, stack).None? ==> Tree(root, branches, note, lineWidth) == Pad(line1 + line2 + line3))
  {
    var line1 := Center(lineWidth, Spaced(branches, 2));
    var line2, line3 := RuleRow(lineWidth, note), Center(lineWidth, root);
    Leftify3(Center(lineWidth, [TrimmedLast(line1)]), line2, line3);
    Leftify3(line1, line2, line3);
  }

  /** The last line of a padded stack trims like the last line of its
      bottom block. */
  lemma TrimStackLast(x: Block, y: Block, z: Block)
    ensures var s := Pad(x + y + z); Trim(s[|s| - 1]) == Trim(z[|z| - 1])
  {
    var all := x + y + z;
    TrimPadRow(all, |all| - 1);
    assert all[|all| - 1] == z[|z| - 1];
  }

  /** A fused block ends with the re-margined last line of `b`. */
  lemma TrimAlignLast(a: Block, b: Block)
    requires |b| >= 2 && Align(a, b).Some?
    ensures var r := Align(a, b).value; Trim(r[|r| - 1]) == Trim(b[|b| - 1])
  {
    var last, first := LastLine(a), b[0];
    var tL: int, tR: int, bL: int, bR: int := Leading(last), Trailing(last), Leading(first), Trailing(first);
    var l: nat, r: nat := Max(0, tL - bL), Max(0, tR - bR);
    var bot := Margin(l, r, b[1..]);
    var res := Align(a, b).value;
    assert res[|res| - 1] == bot[|bot| - 1] by {
      AlignMatched(a, b);
    }
    assert bot[|bot| - 1] == Spaces(l) + b[|b| - 1] + Spaces(r);
    TrimAround(l, b[|b| - 1], r);
  }

  /** A padded stack whose bottom block is the centred root ends with the
      root's last line, spaces aside. */
  lemma PadEnds(x: Block, y: Block, root: Block, lineWidth: nat)
    ensures Trim(LastLine(Pad(x + y + Center(lineWidth, root)))) == Trim(LastLine(root))
  {
    TrimCenterRow(lineWidth, root, |root| - 1);
    TrimStackLast(x, y, Center(lineWidth, root));
  }

  /** Fusing onto a padded stack over the centred root keeps the root's
      last line, spaces aside. */
  lemma FusedEnds(a: Block, x: Block, y: Block, root: Block, lineWidth: nat)
    ensures var stack := Pad(x + y + Center(lineWidth, root));
      Align(a, stack).Some? ==> Trim(LastLine(Align(a, stack).value)) == Trim(LastLine(root))
  {
    var stack := Pad(x + y + Center(lineWidth, root));
    if Align(a, stack).Some? {
      PadEnds(x, y, root, lineWidth);
      TrimAlignLast(a, stack);
    }
  }

  /** On both paths the last line of a tree is the root's last line with
      spaces around it: the root's text closes the drawing. */
  lemma TreeRootLine(root: Block, branches: seq<Block>, note: Block, lineWidth: nat)
    ensures Trim(LastLine(Tree(root, branches, note, lineWidth))) == Trim(LastLine(root))
  {
    TreeFused(root, branches, note, lineWidth);
    var line1 := Center(lineWidth, Spaced(branches, 2));
    StacksEnd(line1, Center(lineWidth, [TrimmedLast(line1)]), RuleRow(lineWidth, note), root, lineWidth);
  }

  /** Both stacks `tree` may return end with the root's last line, spaces
      aside, whatever the blocks above the root. */
  lemma StacksEnd(line1: Block, last: Block, line2: Block, root: Block, lineWidth: nat)
    ensures var line3 := Center(lineWidth, root);
      var stack := Pad(last + line2 + line3);
      && (Align(line1, stack).Some? ==> Trim(LastLine(Align(line1, stack).value)) == Trim(LastLine(root)))
      && Trim(LastLine(Pad(line1 + line2 + line3))) == Trim(LastLine(root))
  {
    FusedEnds(line1, last, line2, root, lineWidth);
    PadEnds(line1, line2, root, lineWidth);
  }

  /** The stack `pad(leftify(last, line2, line3))` under a one-line note
      `n`, when the centred text `t` and the centred root `r` are framed
      in `x`, `y` and `u`, `v` spaces: the rule row is the widest line, and
      the two centred lines are padded to it. */
  lemma StackRows(t: Line, x: nat, y: nat, r: Line, u: nat, v: nat, n: Line, w: nat)
    requires x + |t| + y == w && u + |r| + v == w
    requires Center(w, [t]) == [Framed(x, t, y)] && Center(w, [r]) == [Framed(u, r, v)]
    ensures Pad(Center(w, [t]) + RuleRow(w, [n]) + Center(w, [r])) ==
      [Framed(x, t, y + 1 + |n|)] + [RuleNote(w, n), Framed(u, r, v + 1 + |n|)]
  {
    RuleRowShape(w, [n]);
    var a, b, c := Framed(x, t, y), RuleNote(w, n), Framed(u, r, v);
    var rows := [a, b, c];
    assert Center(w, [t]) + RuleRow(w, [n]) + Center(w, [r]) == rows;
    assert |a| == w && |b| == w + 1 + |n| && |c| == w;
    assert |rows[1]| == w + 1 + |n|;
    WidthIs(rows, w + 1 + |n|);
    PadRect(rows);
    FramedRight(x, t, y, 1 + |n|);
    FramedRight(u, r, v, 1 + |n|);
    assert Spaces(0) == "";
    assert Pad(rows)[0] == a + Spaces(1 + |n|);
    assert Pad(rows)[1] == b + Spaces(0);
    assert Pad(rows)[2] == c + Spaces(1 + |n|);
    assert b + Spaces(0) == b;
  }

  /** The rows `tree` stacks under a one-line branch row `t`: the centred
      `t`, the rule row of a one-line note `n`, the centred root `r`. */
  lemma CenteredStack(t: Line, x: nat, y: nat, r: Line, u: nat, v: nat, n: Line, w: nat)
    requires |t| <= w && x == (w - |t|) / 2 && y == w - |t| - x
    requires |r| <= w && u == (w - |r|) / 2 && v == w - |r| - u
    ensures Pad(Center(w, [t]) + RuleRow(w, [n]) + Center(w, [r])) ==
      [Framed(x, t, y + 1 + |n|)] + [RuleNote(w, n), Framed(u, r, v + 1 + |n|)]
  {
    CenterLine(w, t);
    CenterLine(w, r);
    StackRows(t, x, y, r, u, v, n, w);
  }

  /** Spaces appended to a framed line widen its right frame. */
  lemma FramedRight(x: nat, s: Line, y: nat, k: nat)
    ensures Framed(x, s, y) + Spaces(k) == Framed(x, s, y + k)
  {
    SpacesAdd(y, k);
    assert Framed(x, s, y) + Spaces(k) == Spaces(x) + s + (Spaces(y) + Spaces(k));
  }

  /** `align` of a block whose last line frames a tight text `t` in `p`
      and `q` spaces with a block whose first line frames `t` in `x` and `y`
      spaces: each side is topped up by what the other has more. */
  lemma AlignFramed(a: Block, p: nat, t: Line, q: nat, x: nat, y: nat, rows: Block, stack: Block, res: Block)
    requires LastLine(a) == Framed(p, t, q)
    requires |t| > 0 && t[0] != ' ' && t[|t| - 1] != ' '
    requires stack == [Framed(x, t, y)] + rows
    requires res == Margin(Max(0, x - p), Max(0, y - q), a) + Margin(Max(0, p - x), Max(0, q - y), rows)
    ensures Align(a, stack) == Some(res)
  {
    TrimFramed(p, t, q);
    TrimFramed(x, t, y);
    assert stack[0] == Framed(x, t, y) && stack[1..] == rows;
    AlignMatched(a, stack);
  }

  /** The stack `tree` builds under a one-line note and root aligns with
      a branch row that ends in a line framing a tight text `t` in `p` and
      `q` spaces, when `t` and the root centre in `x`, `y` and `u`, `v`
      spaces. */
  lemma FusedStack(r: Line, n: Line, w: nat, line1: Block, p: nat, t: Line, q: nat, x: nat, y: nat, u: nat, v: nat)
    requires LastLine(line1) == Framed(p, t, q)
    requires |t| > 0 && t[0] != ' ' && t[|t| - 1] != ' '
    requires |t| <= w && x == (w - |t|) / 2 && y == w - |t| - x
    requires |r| <= w && u == (w - |r|) / 2 && v == w - |r| - u
    ensures Align(line1, Pad(Center(w, [TrimmedLast(line1)]) + RuleRow(w, [n]) + Center(w, [r]))) ==
      Some(Margin(Max(0, x - p), Max(0, y + 1 + |n| - q), line1) +
        Margin(Max(0, p - x), Max(0, q - (y + 1 + |n|)), [RuleNote(w, n), Framed(u, r, v + 1 + |n|)]))
  {
    assert TrimmedLast(line1) == t by {
      TrimFramed(p, t, q);
    }
    CenteredStack(t, x, y, r, u, v, n, w);
    var rows: Block := [RuleNote(w, n), Framed(u, r, v + 1 + |n|)];
    AlignFramed(line1, p, t, q, x, y + 1 + |n|, rows, Pad(Center(w, [t]) + RuleRow(w, [n]) + Center(w, [r])),
      Margin(Max(0, x - p), Max(0, y + 1 + |n| - q), line1) + Margin(Max(0, p - x), Max(0, q - (y + 1 + |n|)), rows));
  }

  /** The fused path of `tree` with a one-line root and note, when the
      centred branch row `line1` ends in a line framing a tight text `t` in
      `p` and `q` spaces, and `t` and the root centre in `x`, `y` and `u`,
      `v` spaces: the branch row is re-margined, and the rule row and the
      root, padded under it, follow. */
  lemma TreeOnStack(r: Line, branches: seq<Block>, n: Line, w: nat, line1: Block, p: nat, t: Line, q: nat,
                    x: nat, y: nat, u: nat, v: nat, fused: Block)
    requires line1 == Center(w, Spaced(branches, 2))
    requires LastLine(line1) == Framed(p, t, q)
    requires |t| > 0 && t[0] != ' ' && t[|t| - 1] != ' '
    requires |t| <= w && x == (w - |t|) / 2 && y == w - |t| - x
    requires |r| <= w && u == (w - |r|) / 2 && v == w - |r| - u
    requires fused == Margin(Max(0, x - p), Max(0, y + 1 + |n| - q), line1) +
      Margin(Max(0, p - x), Max(0, q - (y + 1 + |n|)), [RuleNote(w, n), Framed(u, r, v + 1 + |n|)])
    ensures Tree([r], branches, [n], w) == fused
  {
    FusedStack(r, n, w, line1, p, t, q, x, y, u, v);
    TreeFused([r], branches, [n], w);
  }

  /** Margins around one framed line add to its frame. */
  lemma MarginFramed(x: nat, y: nat, p: nat, s: Line, q: nat)
    ensures Margin(x, y, [Framed(p, s, q)]) == [Framed(x + p, s, q + y)]
  {
    SpacesAdd(x, p);
    SpacesAdd(q, y);
    var m := Margin(x, y, [Framed(p, s, q)]);
    calc {
      m[0];
      Spaces(x) + (Spaces(p) + s + Spaces(q)) + Spaces(y);
      (Spaces(x) + Spaces(p)) + s + (Spaces(q) + Spaces(y));
      Framed(x + p, s, q + y);
    }
  }

  /** The fused rows of `TreeOnStack` when the branch line is framed as
      the stack's first line is: no margin on the left, the note's room on
      the right, and nothing added under it. */
  lemma OneLineFused(f: Line, x: nat, y: nat, rows: Block, k: nat)
    ensures [Framed(x, f, y + k)] + rows ==
      Margin(Max(0, x - x), Max(0, y + k - y), [Framed(x, f, y)]) + Margin(Max(0, x - x), Max(0, y - (y + k)), rows)
  {
    MarginFramed(0, k, x, f, y);
    MarginNone(rows);
  }

  /** The centred one-line branch row `f`, and the rows `TreeOnStack`
      fuses under it, with the frames `x`, `y` of `f` and `u`, `v` of the
      root in the fused drawing. */
  lemma OneLineRows(branches: seq<Block>, f: Line, r: Line, n: Line, w: nat, x: nat, y: nat, u: nat, v: nat)
    requires Spaced(branches, 2) == [f]
    requires |f| <= w && x == (w - |f|) / 2 && y == w - |f| - x + 1 + |n|
    requires |r| <= w && u == (w - |r|) / 2 && v == w - |r| - u + 1 + |n|
    ensures LastLine(Center(w, Spaced(branches, 2))) == Framed(x, f, w - |f| - x)
    ensures [Framed(x, f, y), RuleNote(w, n), Framed(u, r, v)] ==
      Margin(Max(0, x - x), Max(0, w - |f| - x + 1 + |n| - (w - |f| - x)), Center(w, Spaced(branches, 2))) +
      Margin(Max(0, x - x), Max(0, w - |f| - x - (w - |f| - x + 1 + |n|)), [RuleNote(w, n), Framed(u, r, w - |r| - u + 1 + |n|)])
  {
    CenterLine(w, f);
    var rows: Block := [RuleNote(w, n), Framed(u, r, v)];
    OneLineFused(f, x, w - |f| - x, rows, 1 + |n|);
    assert [Framed(x, f, y)] + rows == [Framed(x, f, y), rows[0], rows[1]];
  }

  /** A tree whose branch row is one tight line `f` no wider than the rule:
      the branch line centred, the rule with the note, the root centred,
      all padded on the right to the rule row's width; `f` is framed in `x`
      and `y` spaces and the root in `u` and `v`. */
  lemma TreeOneLine(r: Line, branches: seq<Block>, f: Line, n: Line, w: nat, x: nat, y: nat, u: nat, v: nat)
    requires Spaced(branches, 2) == [f]
    requires |f| > 0 && f[0] != ' ' && f[|f| - 1] != ' '
    requires |f| <= w && x == (w - |f|) / 2 && y == w - |f| - x + 1 + |n|
    requires |r| <= w && u == (w - |r|) / 2 && v == w - |r| - u + 1 + |n|
    ensures Tree([r], branches, [n], w) == [Framed(x, f, y), RuleNote(w, n), Framed(u, r, v)]
  {
    OneLineRows(branches, f, r, n, w, x, y, u, v);
    TreeOnStack(r, branches, n, w, Center(w, Spaced(branches, 2)), x, f, w - |f| - x, x, w - |f| - x, u, w - |r| - u,
      [Framed(x, f, y), RuleNote(w, n), Framed(u, r, v)]);
  }

  /** The rows of `TreeOverDrawing` with its margins named. */
  lemma OverDrawingRows(b: Block, r: Line, n: Line, w: nat, p: nat, t: Line, q: nat,
                        ml: nat, mr: nat, bl: nat, br: nat, u: nat, v: nat)
    requires |t| <= w && |r| <= w
    requires ml == Max(0, (w - |t|) / 2 - p) && mr == Max(0, w - |t| - (w - |t|) / 2 + 1 + |n| - q)
    requires bl == Max(0, p - (w - |t|) / 2) && br == Max(0, q - (w - |t| - (w - |t|) / 2 + 1 + |n|))
    requires u == (w - |r|) / 2 && v == w - |r| - u + 1 + |n|
    ensures Margin(ml, mr, b) + Margin(bl, br, [RuleNote(w, n), Framed(u, r, v)]) ==
      Margin(Max(0, (w - |t|) / 2 - p), Max(0, w - |t| - (w - |t|) / 2 + 1 + |n| - q), b) +
      Margin(Max(0, p - (w - |t|) / 2), Max(0, q - (w - |t| - (w - |t|) / 2 + 1 + |n|)),
        [RuleNote(w, n), Framed((w - |r|) / 2, r, w - |r| - (w - |r|) / 2 + 1 + |n|)])
  {
  }

  /** A tree over one drawing `branches[0]` already as wide as the rule
      whose last line frames a tight text `t` in `p` and `q` spaces: the
      drawing is kept, re-margined by `ml` and `mr` if the root needs room,
      and the rule row and the root (framed in `u` and `v` spaces), centred
      under the drawing's last text and re-margined by `bl` and `br`,
      follow. */
  lemma TreeOverDrawing(r: Line, branches: seq<Block>, n: Line, w: nat, p: nat, t: Line, q: nat,
                        ml: nat, mr: nat, bl: nat, br: nat, u: nat, v: nat)
    requires |branches| == 1 && Width(branches[0]) >= w && LastLine(branches[0]) == Framed(p, t, q)
    requires |t| > 0 && t[0] != ' ' && t[|t| - 1] != ' '
    requires |t| <= w && |r| <= w
    requires ml == Max(0, (w - |t|) / 2 - p) && mr == Max(0, w - |t| - (w - |t|) / 2 + 1 + |n| - q)
    requires bl == Max(0, p - (w - |t|) / 2) && br == Max(0, q - (w - |t| - (w - |t|) / 2 + 1 + |n|))
    requires u == (w - |r|) / 2 && v == w - |r| - u + 1 + |n|
    ensures Tree([r], branches, [n], w) == Margin(ml, mr, branches[0]) + Margin(bl, br, [RuleNote(w, n), Framed(u, r, v)])
  {
    SpacedFew(branches, 2);
    CenterNarrow(w, branches[0]);
    OverDrawingRows(branches[0], r, n, w, p, t, q, ml, mr, bl, br, u, v);
    TreeOnStack(r, branches, n, w, branches[0], p, t, q,
      (w - |t|) / 2, w - |t| - (w - |t|) / 2, (w - |r|) / 2, w - |r| - (w - |r|) / 2,
      Margin(ml, mr, branches[0]) + Margin(bl, br, [RuleNote(w, n), Framed(u, r, v)]));
  }

  /** The width `treeAuto` chooses: two more than the longer of the trimmed
      last line of the branch row and the root. */
  function AutoWidth(root: Block, branches: seq<Block>): nat
  {
    var branchBlock := Spaced(branches, 2);
    Max(|Trim(LastLine(branchBlock))| + 2, Width(root) + 2)
  }

  /** `treeAuto`: `tree` at the automatic width. */
  function TreeAuto(root: Block, branches: seq<Block>, note: Block): Block
  {
    Tree(root, branches, note, AutoWidth(root, branches))
  }

  /** The automatic width leaves at least one space on each side of the
      centred root, and is at least two more than the branch row's trimmed
      last line (not its full width). */
  lemma AutoWidthRoom(root: Block, branches: seq<Block>)
    ensures AutoWidth(root, branches) >= |Trim(LastLine(Spaced(branches, 2)))| + 2
    ensures var w := AutoWidth(root, branches);
      var d := w - Width(root);
      && d / 2 >= 1 && d - d / 2 >= 1
      && Center(w, root) == Margin(d / 2, d - d / 2, root)
  {
    CenterMargins(AutoWidth(root, branches), root);
  }

  /** With one branch the width is measured on the branch's last line
      alone, however wide its upper lines are. */
  lemma AutoWidthOneBranch(root: Block, b: Block)
    ensures AutoWidth(root, [b]) == Max(|Trim(LastLine(b))| + 2, Width(root) + 2)
  {
    SpacedFew([b], 2);
    assert [b][0] == b;
    assert Spaced([b], 2) == b;
  }

  /** A branch row of one tight line `f`: the width is two more than the
      longer of `f` and the one-line root. */
  lemma AutoWidthOneLine(r: Line, branches: seq<Block>, f: Line)
    requires Spaced(branches, 2) == [f]
    requires |f| > 0 && f[0] != ' ' && f[|f| - 1] != ' '
    ensures AutoWidth([r], branches) == Max(|f| + 2, |r| + 2)
  {
    assert LastLine([f]) == f;
    TrimTight(f);
    WidthLine(r);
  }

  /** `treeAuto` over a branch row of one tight line `f`: `f` centred, the
      rule two wider than the longer of `f` and the root, the root centred,
      padded to the rule row's width; `f` is framed in `x` and `y` spaces
      and the root in `u` and `v`. */
  lemma TreeAutoOneLine(r: Line, branches: seq<Block>, f: Line, n: Line, w: nat, x: nat, y: nat, u: nat, v: nat)
    requires Spaced(branches, 2) == [f]
    requires |f| > 0 && f[0] != ' ' && f[|f| - 1] != ' '
    requires w == Max(|f| + 2, |r| + 2)
    requires x == (w - |f|) / 2 && y == w - |f| - x + 1 + |n|
    requires u == (w - |r|) / 2 && v == w - |r| - u + 1 + |n|
    ensures TreeAuto([r], branches, [n]) == [Framed(x, f, y), RuleNote(w, n), Framed(u, r, v)]
  {
    AutoWidthOneLine(r, branches, f);
    TreeOneLine(r, branches, f, n, w, x, y, u, v);
  }

  /** One branch that is a drawing whose last line frames the tight text
      `t`: the width is measured on `t` alone. */
  lemma AutoWidthOverDrawing(root: Block, b: Block, p: nat, t: Line, q: nat)
    requires LastLine(b) == Framed(p, t, q)
    requires |t| > 0 && t[0] != ' ' && t[|t| - 1] != ' '
    ensures AutoWidth(root, [b]) == Max(|t| + 2, Width(root) + 2)
  {
    assert Trim(LastLine(b)) == t by {
      assert LastLine(b) == Spaces(p) + t + Spaces(q);
      TrimFramed(p, t, q);
    }
    var w := AutoWidth(root, [b]);
    AutoWidthOneBranch(root, b);
    assert w == Max(|t| + 2, Width(root) + 2);
  }

  /** A `treeAuto` drawing used as the one branch of another: the outer
      width is measured on the inner root's trimmed last line, not on the
      wider rule above it. */
  lemma AutoWidthNested(root: Block, inner: Block, branches: seq<Block>, note: Block)
    ensures AutoWidth(root, [TreeAuto(inner, branches, note)]) == Max(|Trim(LastLine(inner))| + 2, Width(root) + 2)
  {
    AutoWidthOneBranch(root, TreeAuto(inner, branches, note));
    TreeRootLine(inner, branches, note, AutoWidth(inner, branches));
  }

  /** With no branches and a one-line root and note, `tree` draws a blank
      line of `k` spaces, as wide as the rule row, the rule row, and the
      root centred in `u` and `v` spaces. */
  lemma TreeNoBranchesOneLine(r: Line, n: Line, w: nat, k: nat, u: nat, v: nat)
    requires k == w + 1 + |n|
    requires |r| <= w && u == (w - |r|) / 2 && v == w - |r| - u + 1 + |n|
    ensures Tree([r], [], [n], w) == [Spaces(k), RuleNote(w, n), Framed(u, r, v)]
  {
    TreeNoBranches([r], [n], w);
    NoBranchesRows(r, n, w, k, u, v);
  }

  /** The stack of `TreeNoBranchesOneLine`, padded. */
  lemma NoBranchesRows(r: Line, n: Line, w: nat, k: nat, u: nat, v: nat)
    requires k == w + 1 + |n|
    requires |r| <= w && u == (w - |r|) / 2 && v == w - |r| - u + 1 + |n|
    ensures Pad([Spaces(w)] + RuleRow(w, [n]) + Center(w, [r])) == [Spaces(k), RuleNote(w, n), Framed(u, r, v)]
  {
    RuleRowShape(w, [n]);
    CenterLine(w, r);
    var a, b, c := Spaces(w), RuleNote(w, n), Framed(u, r, w - |r| - u);
    var rows := [a, b, c];
    assert [Spaces(w)] + RuleRow(w, [n]) + Center(w, [r]) == rows;
    assert |a| == w && |b| == w + 1 + |n| && |c| == w;
    assert |rows[1]| == w + 1 + |n|;
    WidthIs(rows, w + 1 + |n|);
    PadRect(rows);
    SpacesAdd(w, 1 + |n|);
    FramedRight(u, r, w - |r| - u, 1 + |n|);
    assert Spaces(0) == "";
    assert Pad(rows)[0] == a + Spaces(1 + |n|);
    assert Pad(rows)[1] == b + Spaces(0);
    assert Pad(rows)[2] == c + Spaces(1 + |n|);
    assert b + Spaces(0) == b;
  }

  /** With no branches the width is two more than the root. */
  lemma AutoWidthNoBranches(r: Line)
    ensures AutoWidth([r], []) == |r| + 2
  {
    assert Spaced([], 2) == [""];
    assert LastLine([""]) == "";
    TrimSpaces(0);
    assert Spaces(0) == "";
    WidthLine(r);
  }

  /** The test cases of `tree` on the fused path. In each, `r`, `f`, `n`
      and `q` stand for the test's strings, and `Tree` receives each of
      them as a one-line block. */

  /** 'equal': a branch as wide as the rule sits flush left above it. */
  lemma TreeExampleEqual(r: Line, f: Line, n: Line)
    requires r == "bar" && f == "foo" && n == "omg"
    ensures Tree([r], [[f]], [n], 3) == ["foo    ", "――― omg", "bar    "]
  {
    SpacedFew([[f]], 2);
    TreeOneLine(r, [[f]], f, n, 3, 0, 4, 0, 4);
    TreeRowsEqual(r, f, n);
  }

  /** The rows of `TreeExampleEqual`, spelt out. */
  lemma TreeRowsEqual(r: Line, f: Line, n: Line)
    requires r == "bar" && f == "foo" && n == "omg"
    ensures [Framed(0, f, 4), RuleNote(3, n), Framed(0, r, 4)] == ["foo    ", "――― omg", "bar    "]
  {
    assert Spaces(0) == "" && Spaces(4) == "    ";
    assert RuleNote(3, n) == "――― omg";
    assert Framed(0, f, 4) == "foo    " && Framed(0, r, 4) == "bar    ";
  }

  /** 'big top': a branch as wide as the rule, over a narrower root that
      is centred under it. */
  lemma TreeExampleBigTop(r: Line, f: Line, n: Line)
    requires r == "bar" && f == "foobs" && n == "omg"
    ensures Tree([r], [[f]], [n], 5) == ["foobs    ", "――――― omg", " bar     "]
  {
    SpacedFew([[f]], 2);
    TreeOneLine(r, [[f]], f, n, 5, 0, 4, 1, 5);
    TreeRowsBigTop(r, f, n);
  }

  /** The rows of `TreeExampleBigTop`, spelt out. */
  lemma TreeRowsBigTop(r: Line, f: Line, n: Line)
    requires r == "bar" && f == "foobs" && n == "omg"
    ensures [Framed(0, f, 4), RuleNote(5, n), Framed(1, r, 5)] == ["foobs    ", "――――― omg", " bar     "]
  {
    assert Spaces(0) == "" && Spaces(1) == " " && Spaces(4) == "    " && Spaces(5) == "     ";
    assert RuleNote(5, n) == "――――― omg";
    assert Framed(0, f, 4) == "foobs    " && Framed(1, r, 5) == " bar     ";
  }

  /** 'big bottom': a narrower branch centred over a root as wide as the
      rule. */
  lemma TreeExampleBigBottom(r: Line, f: Line, n: Line)
    requires r == "barbs" && f == "foo" && n == "omg"
    ensures Tree([r], [[f]], [n], 5) == [" foo     ", "――――― omg", "barbs    "]
  {
    SpacedFew([[f]], 2);
    TreeOneLine(r, [[f]], f, n, 5, 1, 5, 0, 4);
    TreeRowsBigBottom(r, f, n);
  }

  /** The rows of `TreeExampleBigBottom`, spelt out. */
  lemma TreeRowsBigBottom(r: Line, f: Line, n: Line)
    requires r == "barbs" && f == "foo" && n == "omg"
    ensures [Framed(1, f, 5), RuleNote(5, n), Framed(0, r, 4)] == [" foo     ", "――――― omg", "barbs    "]
  {
    assert Spaces(0) == "" && Spaces(1) == " " && Spaces(4) == "    " && Spaces(5) == "     ";
    assert RuleNote(5, n) == "――――― omg";
    assert Framed(1, f, 5) == " foo     " && Framed(0, r, 4) == "barbs    ";
  }

  /** 'double flat': a tree as the one branch of another of the same width;
      the outer rule and root follow flush left. */
  lemma TreeExampleDoubleFlat(q: Line, r: Line, f: Line, n: Line)
    requires q == "qux" && r == "bar" && f == "foo" && n == "omg"
    ensures Tree([q], [Tree([r], [[f]], [n], 3)], [n], 3) ==
      ["foo    ", "――― omg", "bar    ", "――― omg", "qux    "]
  {
    TreeExampleEqual(r, f, n);
    TreeRowsDoubleFlat(Tree([r], [[f]], [n], 3), q, r, n);
    TreeOverDrawing(q, [Tree([r], [[f]], [n], 3)], n, 3, 0, r, 4, 0, 0, 0, 0, 0, 4);
  }

  /** The inner drawing and the rows of `TreeExampleDoubleFlat`. */
  lemma TreeRowsDoubleFlat(e: Block, q: Line, r: Line, n: Line)
    requires e == ["foo    ", "――― omg", "bar    "]
    requires q == "qux" && r == "bar" && n == "omg"
    ensures Width(e) >= 3 && LastLine(e) == Framed(0, r, 4)
    ensures Margin(0, 0, e) + Margin(0, 0, [RuleNote(3, n), Framed(0, q, 4)]) ==
      ["foo    ", "――― omg", "bar    ", "――― omg", "qux    "]
  {
    assert |e[0]| == 7;
    WidthBounds(e);
    assert Spaces(0) == "" && Spaces(4) == "    ";
    assert RuleNote(3, n) == "――― omg";
    assert Framed(0, r, 4) == "bar    " && Framed(0, q, 4) == "qux    ";
    MarginNone(e);
    MarginNone([RuleNote(3, n), Framed(0, q, 4)]);
    assert [RuleNote(3, n), Framed(0, q, 4)] == ["――― omg", "qux    "];
  }

  /** 'double big top': a narrow tree under a wide one; the outer rule
      and root are centred under the inner root and the whole lower part
      gets one space each side. */
  lemma TreeExampleDoubleBigTop(q: Line, r: Line, f: Line, n: Line)
    requires q == "qux" && r == "bar" && f == "foobs" && n == "omg"
    ensures Tree([q], [Tree([r], [[f]], [n], 5)], [n], 3) ==
      ["foobs    ", "――――― omg", " bar     ", " ――― omg ", " qux     "]
  {
    TreeExampleBigTop(r, f, n);
    TreeRowsDoubleBigTop(Tree([r], [[f]], [n], 5), q, r, n);
    TreeOverDrawing(q, [Tree([r], [[f]], [n], 5)], n, 3, 1, r, 5, 0, 0, 1, 1, 0, 4);
  }

  /** The inner drawing and the rows of `TreeExampleDoubleBigTop`. */
  lemma TreeRowsDoubleBigTop(e: Block, q: Line, r: Line, n: Line)
    requires e == ["foobs    ", "――――― omg", " bar     "]
    requires q == "qux" && r == "bar" && n == "omg"
    ensures Width(e) >= 3 && LastLine(e) == Framed(1, r, 5)
    ensures Margin(0, 0, e) + Margin(1, 1, [RuleNote(3, n), Framed(0, q, 4)]) ==
      ["foobs    ", "――――― omg", " bar     ", " ――― omg ", " qux     "]
  {
    assert |e[0]| == 9;
    WidthBounds(e);
    assert Spaces(0) == "" && Spaces(1) == " " && Spaces(4) == "    " && Spaces(5) == "     ";
    assert RuleNote(3, n) == "――― omg";
    MarginNone(e);
    assert Framed(1, r, 5) == " bar     " && Framed(0, q, 4) == "qux    ";
    var m := Margin(1, 1, [RuleNote(3, n), Framed(0, q, 4)]);
    assert m[0] == " " + "――― omg" + " " == " ――― omg ";
    assert m[1] == " " + "qux    " + " " == " qux     ";
    assert m == [" ――― omg ", " qux     "];
  }

  /** The test cases of `treeAuto` on the fused path, with the same
      convention. */

  /** 'equal': the rule is two wider than the branch and the root. */
  lemma TreeAutoExampleEqual(r: Line, f: Line, n: Line)
    requires r == "bar" && f == "foo" && n == "omg"
    ensures TreeAuto([r], [[f]], [n]) == [" foo     ", "――――― omg", " bar     "]
  {
    SpacedFew([[f]], 2);
    TreeAutoOneLine(r, [[f]], f, n, 5, 1, 5, 1, 5);
    TreeAutoRowsEqual(r, f, n);
  }

  /** The rows of `TreeAutoExampleEqual`, spelt out. */
  lemma TreeAutoRowsEqual(r: Line, f: Line, n: Line)
    requires r == "bar" && f == "foo" && n == "omg"
    ensures [Framed(1, f, 5), RuleNote(5, n), Framed(1, r, 5)] == [" foo     ", "――――― omg", " bar     "]
  {
    assert Spaces(1) == " " && Spaces(5) == "     ";
    assert RuleNote(5, n) == "――――― omg";
    assert Framed(1, f, 5) == " foo     " && Framed(1, r, 5) == " bar     ";
  }

  /** 'two': two branches side by side, two spaces apart, over a root
      centred under both. */
  lemma TreeAutoExampleTwo(q: Line, f: Line, g: Line, n: Line)
    requires q == "qux" && f == "foo" && g == "bar" && n == "omg"
    ensures TreeAuto([q], [[f], [g]], [n]) == [" foo  bar     ", "―――――――――― omg", "   qux        "]
  {
    SpacedExample();
    TreeAutoOneLine(q, [[f], [g]], "foo  bar", n, 10, 1, 5, 3, 8);
    TreeAutoRowsTwo(q, n);
  }

  /** The rows of `TreeAutoExampleTwo`, spelt out. */
  lemma TreeAutoRowsTwo(q: Line, n: Line)
    requires q == "qux" && n == "omg"
    ensures [Framed(1, "foo  bar", 5), RuleNote(10, n), Framed(3, q, 8)] ==
      [" foo  bar     ", "―――――――――― omg", "   qux        "]
  {
    assert Framed(1, "foo  bar", 5) == " foo  bar     " by {
      assert Spaces(1) == " " && Spaces(5) == "     ";
    }
    assert Framed(3, q, 8) == "   qux        " by {
      assert Spaces(3) == "   " && Spaces(8) == "        ";
    }
    assert RuleNote(10, n) == "―――――――――― omg" by {
      assert RuleLine(10) == "――――――――――";
    }
  }

  /** 'big top': the wider branch sets the width. */
  lemma TreeAutoExampleBigTop(r: Line, f: Line, n: Line)
    requires r == "bar" && f == "foobs" && n == "omg"
    ensures TreeAuto([r], [[f]], [n]) == [" foobs     ", "――――――― omg", "  bar      "]
  {
    SpacedFew([[f]], 2);
    TreeAutoOneLine(r, [[f]], f, n, 7, 1, 5, 2, 6);
    TreeAutoRowsBigTop(r, f, n);
  }

  /** The rows of `TreeAutoExampleBigTop`, spelt out. */
  lemma TreeAutoRowsBigTop(r: Line, f: Line, n: Line)
    requires r == "bar" && f == "foobs" && n == "omg"
    ensures [Framed(1, f, 5), RuleNote(7, n), Framed(2, r, 6)] == [" foobs     ", "――――――― omg", "  bar      "]
  {
    assert Spaces(1) == " " && Spaces(2) == "  " && Spaces(5) == "     " && Spaces(6) == "      ";
    assert RuleNote(7, n) == "――――――― omg";
    assert Framed(1, f, 5) == " foobs     " && Framed(2, r, 6) == "  bar      ";
  }

  /** 'big bottom': the wider root sets the width. */
  lemma TreeAutoExampleBigBottom(r: Line, f: Line, n: Line)
    requires r == "barbs" && f == "foo" && n == "omg"
    ensures TreeAuto([r], [[f]], [n]) == ["  foo      ", "――――――― omg", " barbs     "]
  {
    SpacedFew([[f]], 2);
    TreeAutoOneLine(r, [[f]], f, n, 7, 2, 6, 1, 5);
    TreeAutoRowsBigBottom(r, f, n);
  }

  /** The rows of `TreeAutoExampleBigBottom`, spelt out. */
  lemma TreeAutoRowsBigBottom(r: Line, f: Line, n: Line)
    requires r == "barbs" && f == "foo" && n == "omg"
    ensures [Framed(2, f, 6), RuleNote(7, n), Framed(1, r, 5)] == ["  foo      ", "――――――― omg", " barbs     "]
  {
    assert Spaces(1) == " " && Spaces(2) == "  " && Spaces(5) == "     " && Spaces(6) == "      ";
    assert RuleNote(7, n) == "――――――― omg";
    assert Framed(2, f, 6) == "  foo      " && Framed(1, r, 5) == " barbs     ";
  }

  /** 'double flat': the outer width is measured on the inner root, so the
      outer rule is as wide as the inner one. */
  lemma TreeAutoExampleDoubleFlat(q: Line, r: Line, f: Line, n: Line)
    requires q == "qux" && r == "bar" && f == "foo" && n == "omg"
    ensures TreeAuto([q], [TreeAuto([r], [[f]], [n])], [n]) ==
      [" foo     ", "――――― omg", " bar     ", "――――― omg", " qux     "]
  {
    TreeAutoExampleEqual(r, f, n);
    TreeAutoRowsDoubleFlat(TreeAuto([r], [[f]], [n]), q, r, n);
    AutoWidthOverDrawing([q], TreeAuto([r], [[f]], [n]), 1, r, 5);
    WidthLine(q);
    TreeOverDrawing(q, [TreeAuto([r], [[f]], [n])], n, 5, 1, r, 5, 0, 0, 0, 0, 1, 5);
  }

  /** The inner drawing and the rows of `TreeAutoExampleDoubleFlat`. */
  lemma TreeAutoRowsDoubleFlat(e: Block, q: Line, r: Line, n: Line)
    requires e == [" foo     ", "――――― omg", " bar     "]
    requires q == "qux" && r == "bar" && n == "omg"
    ensures Width(e) >= 5 && LastLine(e) == Framed(1, r, 5)
    ensures Margin(0, 0, e) + Margin(0, 0, [RuleNote(5, n), Framed(1, q, 5)]) ==
      [" foo     ", "――――― omg", " bar     ", "――――― omg", " qux     "]
  {
    assert |e[0]| == 9;
    WidthBounds(e);
    assert Spaces(1) == " " && Spaces(5) == "     ";
    assert RuleNote(5, n) == "――――― omg";
    assert Framed(1, r, 5) == " bar     " && Framed(1, q, 5) == " qux     ";
    MarginNone(e);
    MarginNone([RuleNote(5, n), Framed(1, q, 5)]);
    assert [RuleNote(5, n), Framed(1, q, 5)] == ["――――― omg", " qux     "];
  }

  /** 'double big top': the outer rule, narrower than the inner one, is
      centred under the inner root and the lower part gets one space each
      side. */
  lemma TreeAutoExampleDoubleBigTop(q: Line, r: Line, f: Line, n: Line)
    requires q == "qux" && r == "bar" && f == "foobs" && n == "omg"
    ensures TreeAuto([q], [TreeAuto([r], [[f]], [n])], [n]) ==
      [" foobs     ", "――――――― omg", "  bar      ", " ――――― omg ", "  qux      "]
  {
    TreeAutoExampleBigTop(r, f, n);
    TreeAutoRowsDoubleBigTop(TreeAuto([r], [[f]], [n]), q, r, n);
    AutoWidthOverDrawing([q], TreeAuto([r], [[f]], [n]), 2, r, 6);
    WidthLine(q);
    TreeOverDrawing(q, [TreeAuto([r], [[f]], [n])], n, 5, 2, r, 6, 0, 0, 1, 1, 1, 5);
  }

  /** The inner drawing and the rows of `TreeAutoExampleDoubleBigTop`. */
  lemma TreeAutoRowsDoubleBigTop(e: Block, q: Line, r: Line, n: Line)
    requires e == [" foobs     ", "――――――― omg", "  bar      "]
    requires q == "qux" && r == "bar" && n == "omg"
    ensures Width(e) >= 5 && LastLine(e) == Framed(2, r, 6)
    ensures Margin(0, 0, e) + Margin(1, 1, [RuleNote(5, n), Framed(1, q, 5)]) ==
      [" foobs     ", "――――――― omg", "  bar      ", " ――――― omg ", "  qux      "]
  {
    assert Width(e) >= 5 by {
      assert |e[0]| == 11;
      WidthBounds(e);
    }
    assert LastLine(e) == Framed(2, r, 6) by {
      assert Spaces(2) == "  " && Spaces(6) == "      ";
    }
    MarginNone(e);
    var m := Margin(1, 1, [RuleNote(5, n), Framed(1, q, 5)]);
    assert m[0] == " ――――― omg " by {
      assert RuleNote(5, n) == "――――― omg";
      assert Spaces(1) == " ";
    }
    assert m[1] == "  qux      " by {
      assert Framed(1, q, 5) == " qux     " by {
        assert Spaces(1) == " " && Spaces(5) == "     ";
      }
      assert Spaces(1) == " ";
    }
    assert m == [" ――――― omg ", "  qux      "];
  }

  /** 'no branches' of `tree`: a blank line, the rule, the root. */
  lemma TreeExampleNoBranches(r: Line, n: Line)
    requires r == "bar" && n == "omg"
    ensures Tree([r], [], [n], 3) == ["       ", "――― omg", "bar    "]
  {
    TreeNoBranchesOneLine(r, n, 3, 7, 0, 4);
    TreeRowsNoBranches(r, n);
  }

  /** The rows of `TreeExampleNoBranches`, spelt out. */
  lemma TreeRowsNoBranches(r: Line, n: Line)
    requires r == "bar" && n == "omg"
    ensures [Spaces(7), RuleNote(3, n), Framed(0, r, 4)] == ["       ", "――― omg", "bar    "]
  {
    assert Spaces(7) == "       ";
    assert Framed(0, r, 4) == "bar    " by {
      assert Spaces(0) == "" && Spaces(4) == "    ";
    }
    assert RuleNote(3, n) == "――― omg";
  }

  /** 'no branches' of `treeAuto`: the root alone sets the width. */
  lemma TreeAutoExampleNoBranches(r: Line, n: Line)
    requires r == "bar" && n == "omg"
    ensures TreeAuto([r], [], [n]) == ["         ", "――――― omg", " bar     "]
  {
    AutoWidthNoBranches(r);
    TreeNoBranchesOneLine(r, n, 5, 9, 1, 5);
    TreeAutoRowsNoBranches(r, n);
  }

  /** The rows of `TreeAutoExampleNoBranches`, spelt out. */
  lemma TreeAutoRowsNoBranches(r: Line, n: Line)
    requires r == "bar" && n == "omg"
    ensures [Spaces(9), RuleNote(5, n), Framed(1, r, 5)] == ["         ", "――――― omg", " bar     "]
  {
    assert Spaces(9) == "         ";
    assert Framed(1, r, 5) == " bar     " by {
      assert Spaces(1) == " " && Spaces(5) == "     ";
    }
    assert RuleNote(5, n) == "――――― omg";
  }

  /** The two seam lines of the offset example, counted. */
  lemma OffsetSeams()
    ensures Trim("  c ") == "c" && Leading("  c ") == 2 && Trailing("  c ") == 1
    ensures Trim(" c  ") == "c" && Leading(" c  ") == 1 && Trailing(" c  ") == 2
  {
    var s1, s2 := Spaces(1), Spaces(2);
    assert s1 == " " by { assert |s1| == 1 && s1[0] == ' '; }
    assert s2 == "  " by { assert |s2| == 2 && s2[0] == ' ' && s2[1] == ' '; }
    assert "  c " == s2 + "c" + s1;
    assert " c  " == s1 + "c" + s2;
    TrimFramed(2, "c", 1);
    TrimFramed(1, "c", 2);
  }

  /** The two halves of the offset example re-margined. */
  lemma OffsetMargins(a: Block, rest: Block)
    requires a == ["abcd", "  c "] && rest == ["bcde"]
    ensures Margin(0, 1, a) == ["abcd ", "  c  "]
    ensures Margin(1, 0, rest) == [" bcde"]
  {
    var s0, s1 := Spaces(0), Spaces(1);
    assert s0 == "";
    assert s1 == " " by { assert |s1| == 1 && s1[0] == ' '; }
    var top := Margin(0, 1, a);
    assert top[0] == "abcd ";
    assert top[1] == "  c  ";
    var bot := Margin(1, 0, rest);
    assert bot[0] == " bcde";
  }

  /** The offset example: the seam line " c " is widened on both sides. */
  lemma AlignOffset(a: Block, b: Block)
    requires a == ["abcd", "  c "] && b == [" c  ", "bcde"]
    ensures Align(a, b) == Some(["abcd ", "  c  ", " bcde"])
  {
    assert LastLine(a) == "  c " && b[0] == " c  ";
    OffsetSeams();
    AlignMatched(a, b);
    assert Max(0, 1 - 2) == 0 && Max(0, 2 - 1) == 1;
    assert b[1..] == ["bcde"];
    OffsetMargins(a, b[1..]);
    assert Align(a, b) == Some(Margin(0, 1, a) + Margin(1, 0, b[1..]));
    assert ["abcd ", "  c  "] + [" bcde"] == ["abcd ", "  c  ", " bcde"];
  }
}
