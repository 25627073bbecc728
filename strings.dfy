/** The JavaScript string operations the layout engine relies on:
    `split('\n')`, `join('\n')`, `repeat`, `trimStart`, `trimEnd` and `trim`.
    Only the space character counts as white space. */
module Strings {

  /** A line of text: a string holding no line break. */
  type Line = s: string | '\n' !in s

  function Max(a: int, b: int): int { if a < b then b else a }

  /** `c.repeat(n)`. */
  function Repeat(c: char, n: nat): (r: string)
    ensures |r| == n
    ensures forall i :: 0 <= i < n ==> r[i] == c
  {
    if n == 0 then "" else [c] + Repeat(c, n - 1)
  }

  /** `' '.repeat(n)`. */
  function Spaces(n: nat): (r: Line)
    ensures |r| == n
    ensures forall i :: 0 <= i < n ==> r[i] == ' '
  {
    Repeat(' ', n)
  }

  /** `mark.repeat(n)` for a mark that may be longer than one character. */
  function RepeatLine(mark: Line, n: nat): (r: Line)
    ensures |r| == n * |mark|
  {
    if n == 0 then "" else mark + RepeatLine(mark, n - 1)
  }

  /** `s.split('\n')`: the pieces between line breaks, never an empty list
      (`"".split('\n')` is `[""]`). */
  function Split(s: string): (r: seq<Line>)
    ensures |r| >= 1
  {
    if |s| == 0 then [""]
    else
      var rest := Split(s[1..]);
      if s[0] == '\n' then [""] + rest
      else [[s[0]] + rest[0]] + rest[1..]
  }

  /** `parts.join(sep)`: the parts with `sep` between neighbours
      (`[].join(sep)` is `""`). */
  function JoinWith(sep: string, parts: seq<string>): string
  {
    if |parts| == 0 then ""
    else if |parts| == 1 then parts[0]
    else parts[0] + sep + JoinWith(sep, parts[1..])
  }

  /** `lines.join('\n')`. */
  function Join(lines: seq<string>): string
  {
    JoinWith("\n", lines)
  }

  /** Joining the pieces of a split gives back the string. */
  lemma {:induction false} JoinSplit(s: string)
    ensures Join(Split(s)) == s
  {
    if |s| > 0 {
      var rest := Split(s[1..]);
      JoinSplit(s[1..]);
      if s[0] == '\n' {
        assert Split(s) == [""] + rest;
        assert ([""] + rest)[1..] == rest;
        assert s == "\n" + s[1..];
      } else {
        assert Split(s) == [[s[0]] + rest[0]] + rest[1..];
        if |rest| == 1 {
          assert s == [s[0]] + s[1..];
        } else {
          assert Join(rest) == rest[0] + "\n" + Join(rest[1..]);
          assert ([[s[0]] + rest[0]] + rest[1..])[1..] == rest[1..];
          assert s == [s[0]] + s[1..];
        }
      }
    }
  }

  /** A character other than a line break opens the first piece. */
  lemma SplitCons(c: char, s: string)
    requires c != '\n'
    ensures Split([c] + s) == [[c] + Split(s)[0]] + Split(s)[1..]
  {
    assert ([c] + s)[0] == c;
    assert ([c] + s)[1..] == s;
  }

  /** Splitting a line followed by more text: the line opens the first piece. */
  lemma {:induction false} SplitPrefix(l: Line, t: string)
    ensures Split(l + t) == [l + Split(t)[0]] + Split(t)[1..]
  {
    if |l| > 0 {
      assert l[0] in l;
      var l' := l[1..];
      assert forall c :: c in l' ==> c in l;
      SplitPrefix(l', t);
      var st := Split(t);
      assert l + t == [l[0]] + (l' + t);
      SplitCons(l[0], l' + t);
      assert [l[0]] + (l' + st[0]) == l + st[0];
    } else {
      assert l + t == t;
      assert l + Split(t)[0] == Split(t)[0];
      assert Split(t) == [Split(t)[0]] + Split(t)[1..];
    }
  }

  /** Splitting the join of a non-empty list of lines gives back the lines. */
  lemma {:induction false} SplitJoin(lines: seq<Line>)
    requires |lines| >= 1
    ensures Split(Join(lines)) == lines
  {
    if |lines| == 1 {
      SplitPrefix(lines[0], "");
      assert lines[0] + "" == lines[0];
    } else {
      var t := Join(lines[1..]);
      SplitJoin(lines[1..]);
      assert Join(lines) == lines[0] + ("\n" + t);
      SplitPrefix(lines[0], "\n" + t);
      assert ("\n" + t)[1..] == t;
      assert Split("\n" + t) == [""] + Split(t);
      assert lines[0] + "" == lines[0];
      assert lines == [lines[0]] + lines[1..];
    }
  }

  /** Joining two non-empty lists of lines puts one line break between them. */
  lemma {:induction false} JoinAppend(a: seq<string>, b: seq<string>)
    requires |a| >= 1 && |b| >= 1
    ensures Join(a + b) == Join(a) + "\n" + Join(b)
  {
    if |a| == 1 {
      assert (a + b)[1..] == b;
    } else {
      JoinAppend(a[1..], b);
      assert (a + b)[1..] == a[1..] + b;
    }
  }

  /** A single line splits into itself. */
  lemma SplitLine(l: Line)
    ensures Split(l) == [l]
  {
    SplitJoin([l]);
  }

  /** `s.trimStart()`. */
  function TrimStart(s: string): (r: string)
    ensures |r| <= |s|
  {
    if |s| > 0 && s[0] == ' ' then TrimStart(s[1..]) else s
  }

  /** `trimStart` keeps a suffix of `s` that does not start with a space,
      and removes only spaces. */
  lemma {:induction false} TrimStartSpec(s: string)
    ensures TrimStart(s) == s[|s| - |TrimStart(s)|..]
    ensures forall i :: 0 <= i < |s| - |TrimStart(s)| ==> s[i] == ' '
    ensures |TrimStart(s)| > 0 ==> TrimStart(s)[0] != ' '
  {
    if |s| > 0 && s[0] == ' ' {
      var t := s[1..];
      TrimStartSpec(t);
      var r := TrimStart(t);
      assert t[|t| - |r|..] == s[|s| - |r|..];
      forall i | 0 <= i < |s| - |r| ensures s[i] == ' ' {
        if i > 0 { assert s[i] == t[i - 1]; }
      }
    }
  }

  /** `s.trimEnd()`. */
  function TrimEnd(s: string): (r: string)
    ensures |r| <= |s|
  {
    if |s| > 0 && s[|s| - 1] == ' ' then TrimEnd(s[..|s| - 1]) else s
  }

  /** `trimEnd` keeps a prefix of `s` that does not end with a space, and
      removes only spaces. */
  lemma {:induction false} TrimEndSpec(s: string)
    ensures TrimEnd(s) == s[..|TrimEnd(s)|]
    ensures forall i :: |TrimEnd(s)| <= i < |s| ==> s[i] == ' '
    ensures |TrimEnd(s)| > 0 ==> TrimEnd(s)[|TrimEnd(s)| - 1] != ' '
  {
    if |s| > 0 && s[|s| - 1] == ' ' {
      var t := s[..|s| - 1];
      TrimEndSpec(t);
      var r := TrimEnd(t);
      assert t[..|r|] == s[..|r|];
      forall i | |r| <= i < |s| ensures s[i] == ' ' {
        if i < |s| - 1 { assert s[i] == t[i]; }
      }
    }
  }

  /** `s.trim()`. */
  function Trim(s: string): string
  {
    TrimEnd(TrimStart(s))
  }

  /** The number of leading spaces; the source writes it as
      `Math.abs(s.trimStart().length - s.length)`. */
  function Leading(s: string): nat
  {
    |s| - |TrimStart(s)|
  }

  /** The number of trailing spaces (`Math.abs(s.trimEnd().length - s.length)`). */
  function Trailing(s: string): nat
  {
    |s| - |TrimEnd(s)|
  }

  /** Trimming keeps a line a line. */
  lemma TrimLine(s: Line)
    ensures '\n' !in Trim(s)
  {
    var t := TrimStart(s);
    TrimStartSpec(s);
    assert forall c :: c in t ==> c in s;
    var u := TrimEnd(t);
    TrimEndSpec(t);
    assert forall c :: c in u ==> c in t;
  }

  /** The trailing spaces are counted from the last non-space character. */
  lemma {:induction false} TrailingAt(s: string, k: nat)
    requires 0 < k <= |s| && s[k - 1] != ' '
    requires forall i :: k <= i < |s| ==> s[i] == ' '
    ensures |TrimEnd(s)| == k
    decreases |s|
  {
    if k < |s| {
      var t := s[..|s| - 1];
      assert t[k - 1] == s[k - 1];
      forall i | k <= i < |t| ensures t[i] == ' ' {
        assert t[i] == s[i];
      }
      TrailingAt(t, k);
    }
  }

  /** A string whose ends outside `lead..k` are spaces is those spaces
      around its middle. */
  lemma Around(s: string, lead: nat, k: nat)
    requires lead <= k <= |s|
    requires forall i :: 0 <= i < lead ==> s[i] == ' '
    requires forall i :: k <= i < |s| ==> s[i] == ' '
    ensures s == Spaces(lead) + s[lead..k] + Spaces(|s| - k)
  {
    assert s == s[..lead] + s[lead..k] + s[k..];
    assert s[..lead] == Spaces(lead);
    assert s[k..] == Spaces(|s| - k);
  }

  /** Trimming the end of a suffix that is not blank removes exactly the
      trailing spaces of the whole string. */
  lemma TrimEndOfSuffix(s: string, lead: nat)
    requires lead <= |s| && TrimEnd(s[lead..]) != ""
    ensures lead + |TrimEnd(s[lead..])| == |TrimEnd(s)|
    ensures TrimEnd(s[lead..]) == s[lead..|TrimEnd(s)|]
  {
    var ts := s[lead..];
    var te := TrimEnd(ts);
    TrimEndSpec(ts);
    var k := lead + |te|;
    forall i | k <= i < |s| ensures s[i] == ' ' {
      assert ts[i - lead] == s[i];
    }
    assert s[k - 1] == te[|te| - 1];
    TrailingAt(s, k);
  }

  /** A string that is not blank is its leading spaces, its trimmed text and
      its trailing spaces, in that order. */
  lemma Decompose(s: string)
    requires Trim(s) != ""
    ensures s == Spaces(Leading(s)) + Trim(s) + Spaces(Trailing(s))
  {
    var lead := Leading(s);
    TrimStartSpec(s);
    TrimEndSpec(s);
    assert TrimStart(s) == s[lead..];
    TrimEndOfSuffix(s, lead);
    Around(s, lead, |TrimEnd(s)|);
  }

  /** A text that neither starts nor ends with a space trims to itself. */
  lemma TrimTight(s: string)
    requires |s| > 0 && s[0] != ' ' && s[|s| - 1] != ' '
    ensures Trim(s) == s
  {
  }

  /** A leading space is removed by `trim`. */
  lemma TrimSpace(s: string)
    ensures Trim(" " + s) == Trim(s)
  {
    assert (" " + s)[1..] == s;
  }

  /** Runs of spaces add up. */
  lemma SpacesAdd(a: nat, b: nat)
    ensures Spaces(a) + Spaces(b) == Spaces(a + b)
  {
    var s := Spaces(a) + Spaces(b);
    forall i | 0 <= i < a + b ensures s[i] == ' ' {
      if i < a { assert s[i] == Spaces(a)[i]; } else { assert s[i] == Spaces(b)[i - a]; }
    }
  }

  /** A blank line trims to nothing. */
  lemma TrimSpaces(n: nat)
    ensures Trim(Spaces(n)) == ""
  {
    TrimStartSpaces(n);
  }

  lemma {:induction false} TrimStartSpaces(n: nat)
    ensures TrimStart(Spaces(n)) == ""
  {
    if n > 0 {
      assert Spaces(n)[1..] == Spaces(n - 1);
      TrimStartSpaces(n - 1);
    }
  }

  /** The leading spaces end at the first non-space character. */
  lemma {:induction false} TrimStartAt(s: string, k: nat)
    requires k < |s| && s[k] != ' '
    requires forall i :: 0 <= i < k ==> s[i] == ' '
    ensures TrimStart(s) == s[k..]
  {
    if k > 0 {
      var t := s[1..];
      assert t[k - 1] == s[k];
      forall i | 0 <= i < k - 1 ensures t[i] == ' ' {
        assert t[i] == s[i + 1];
      }
      TrimStartAt(t, k - 1);
      assert t[k - 1..] == s[k..];
    }
  }

  /** `trim` undoes framing a tight text in spaces, and counts the spaces
      back: the converse of `Decompose`. */
  lemma TrimFramed(a: nat, t: string, b: nat)
    requires |t| > 0 && t[0] != ' ' && t[|t| - 1] != ' '
    ensures var s := Spaces(a) + t + Spaces(b);
      Trim(s) == t && Leading(s) == a && Trailing(s) == b
  {
    var s := Spaces(a) + t + Spaces(b);
    assert s[a] == t[0];
    TrimStartAt(s, a);
    var u := s[a..];
    assert u == t + Spaces(b);
    assert u[|t| - 1] == t[|t| - 1];
    TrailingAt(u, |t|);
    TrimEndSpec(u);
    assert TrimEnd(u) == u[..|t|] == t;
    assert s[a + |t| - 1] == t[|t| - 1];
    forall i | a + |t| <= i < |s| ensures s[i] == ' ' {
      assert s[i] == Spaces(b)[i - a - |t|];
    }
    TrailingAt(s, a + |t|);
  }
  /** A text that trims to something starts and ends with that something's
      non-space characters. */
  lemma TrimTightness(s: string)
    requires Trim(s) != ""
    ensures var t := Trim(s); t[0] != ' ' && t[|t| - 1] != ' '
  {
    var u := TrimStart(s);
    TrimStartSpec(s);
    TrimEndSpec(u);
    assert TrimEnd(u)[0] == u[0];
  }

  /** Spaces around a text do not change what it trims to. */
  lemma TrimAround(a: nat, x: string, b: nat)
    ensures Trim(Spaces(a) + x + Spaces(b)) == Trim(x)
  {
    if Trim(x) == "" {
      var u := TrimStart(x);
      TrimStartSpec(x);
      TrimEndSpec(u);
      assert |u| == 0;
      assert x == Spaces(|x|);
      SpacesAdd(a, |x|);
      SpacesAdd(a + |x|, b);
      TrimSpaces(a + |x| + b);
    } else {
      var t := Trim(x);
      Decompose(x);
      TrimTightness(x);
      SpacesAdd(a, Leading(x));
      SpacesAdd(Trailing(x), b);
      assert Spaces(a) + x + Spaces(b) == Spaces(a + Leading(x)) + t + Spaces(Trailing(x) + b);
      TrimFramed(a + Leading(x), t, Trailing(x) + b);
    }
  }
}
