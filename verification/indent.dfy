/** Indenting and de-indenting a block of values: every pass shifts all lines by the same amount. */
module Indentation {
  import opened Text

  const LAYER := "    "

  predicate IsBlank(line: string) { TrimSpace(line) == "" }

  predicate Indented(line: string) { IsBlank(line) || HasPrefix(line, LAYER) }

  // ---------- the passes ----------

  function TrimLeftBreaks(s: string): string { if s != "" && s[0] == '\n' then TrimLeftBreaks(s[1..]) else s }

  function TrimRightBreaks(s: string): string {
    if s != "" && s[|s| - 1] == '\n' then TrimRightBreaks(s[..|s| - 1]) else s
  }

  /** strings.Trim(s, "\n"). */
  function TrimBreaks(s: string): string { TrimRightBreaks(TrimLeftBreaks(s)) }

  predicate AllIndented(lines: seq<string>) { forall i | 0 <= i < |lines| :: Indented(lines[i]) }

  function ShiftIn(lines: seq<string>): (r: seq<string>)
    ensures |r| == |lines|
  {
    seq(|lines|, i requires 0 <= i < |lines| => if IsBlank(lines[i]) then lines[i] else LAYER + lines[i])
  }

  function ShiftOut(lines: seq<string>): (r: seq<string>)
    ensures |r| == |lines|
  {
    seq(|lines|, i requires 0 <= i < |lines| =>
      if !IsBlank(lines[i]) && HasPrefix(lines[i], LAYER) then lines[i][|LAYER|..] else lines[i])
  }

  predicate IsProperlyIndented(content: string) {
    TrimSpace(content) == "" || AllIndented(Split(TrimRightBreaks(content), '\n'))
  }

  function EnsureIndentation(content: string): string {
    var trimmed := TrimBreaks(content);
    if TrimSpace(trimmed) == "" then ""
    else if IsProperlyIndented(trimmed) then trimmed
    else Join(ShiftIn(Split(trimmed, '\n')), '\n')
  }

  function Deindent(content: string): string {
    var lines := Split(TrimRightBreaks(content), '\n');
    if TrimSpace(content) == "" then ""
    else if !AllIndented(lines) then content
    else Join(ShiftOut(lines), '\n')
  }

  // ---------- the loops ----------

  method CheckIndentation(content: string) returns (r: bool)
    ensures r == IsProperlyIndented(content)
  {
    if TrimSpace(content) == "" {
      return true;
    }
    var lines := Split(TrimRightBreaks(content), '\n');
    for i := 0 to |lines|
      invariant forall j | 0 <= j < i :: Indented(lines[j])
    {
      if TrimSpace(lines[i]) == "" {
        continue;
      }
      if !HasPrefix(lines[i], LAYER) {
        return false;
      }
    }
    return true;
  }

  method IndentLines(was: seq<string>) returns (lines: seq<string>)
    ensures lines == ShiftIn(was)
  {
    lines := was;
    for i := 0 to |lines|
      invariant |lines| == |was| && (forall j | i <= j < |was| :: lines[j] == was[j]) &&
                forall j | 0 <= j < i :: lines[j] == ShiftIn(was)[j]
    {
      if TrimSpace(lines[i]) != "" {
        lines := lines[i := LAYER + lines[i]];
      }
    }
  }

  method DeindentLines(was: seq<string>) returns (lines: seq<string>)
    requires AllIndented(was)
    ensures lines == ShiftOut(was)
  {
    lines := was;
    for i := 0 to |lines|
      invariant |lines| == |was| && (forall j | i <= j < |was| :: lines[j] == was[j]) &&
                forall j | 0 <= j < i :: lines[j] == ShiftOut(was)[j]
    {
      assert Indented(was[i]);
      if TrimSpace(lines[i]) != "" {
        lines := lines[i := lines[i][|LAYER|..]];
      }
    }
  }

  method EnsureProperIndentation(content: string) returns (r: string)
    ensures r == EnsureIndentation(content)
  {
    var trimmed := TrimBreaks(content);
    if TrimSpace(trimmed) == "" {
      return "";
    }
    var indented := CheckIndentation(trimmed);
    if indented {
      return trimmed;
    }
    var lines := IndentLines(Split(trimmed, '\n'));
    return Join(lines, '\n');
  }

  method DeindentValuesContent(content: string) returns (r: string)
    ensures r == Deindent(content)
  {
    if TrimSpace(content) == "" {
      return "";
    }
    var lines := Split(TrimRightBreaks(content), '\n');
    for i := 0 to |lines|
      invariant forall j | 0 <= j < i :: Indented(lines[j])
    {
      if TrimSpace(lines[i]) != "" && !HasPrefix(lines[i], LAYER) {
        return content;
      }
    }
    lines := DeindentLines(lines);
    return Join(lines, '\n');
  }

  // ---------- what a reader of the block sees ----------

  /** The lines that are not blank, in order. */
  function Visible(lines: seq<string>): seq<string> {
    if lines == [] then []
    else Visible(lines[..|lines| - 1]) + if IsBlank(lines[|lines| - 1]) then [] else [lines[|lines| - 1]]
  }

  function VisibleLines(content: string): seq<string> { Visible(Split(content, '\n')) }

  function Spaces(n: nat): string { seq(n, _ => ' ') }

  /** Each line of the first block is n spaces and the line of the second. */
  predicate Prefixed(a: seq<string>, b: seq<string>, n: nat) {
    |a| == |b| && forall i | 0 <= i < |a| :: a[i] == Spaces(n) + b[i]
  }

  /** The same lines in the same order, with the same differences in indentation. */
  ghost predicate SameShape(a: seq<string>, b: seq<string>) {
    exists core: seq<string>, m: nat, n: nat :: Prefixed(a, core, m) && Prefixed(b, core, n)
  }

  lemma SpacesAdd(m: nat, n: nat)
    ensures Spaces(m) + Spaces(n) == Spaces(m + n)
  {
  }

  /** If m spaces and x are n spaces and y, with m at least n, then y is x indented by the difference. */
  lemma SpacesCancel(m: nat, n: nat, x: string, y: string)
    requires m >= n && Spaces(m) + x == Spaces(n) + y
    ensures y == Spaces(m - n) + x
  {
    SpacesAdd(n, m - n);
    assert (Spaces(m) + x)[n..] == Spaces(m - n) + x;
    assert (Spaces(n) + y)[n..] == y;
  }

  lemma SameShapeReflexive(a: seq<string>)
    ensures SameShape(a, a)
  {
    assert Prefixed(a, a, 0);
  }

  lemma SameShapeTransitive(a: seq<string>, b: seq<string>, c: seq<string>)
    requires SameShape(a, b) && SameShape(b, c)
    ensures SameShape(a, c)
  {
    var x: seq<string>, m: nat, n: nat :| Prefixed(a, x, m) && Prefixed(b, x, n);
    var y: seq<string>, p: nat, q: nat :| Prefixed(b, y, p) && Prefixed(c, y, q);
    if n >= p {
      forall i | 0 <= i < |c| ensures c[i] == Spaces(q + (n - p)) + x[i] {
        SpacesCancel(n, p, x[i], y[i]);
        SpacesAdd(q, n - p);
      }
      assert Prefixed(a, x, m) && Prefixed(c, x, q + (n - p));
    } else {
      forall i | 0 <= i < |a| ensures a[i] == Spaces(m + (p - n)) + y[i] {
        SpacesCancel(p, n, y[i], x[i]);
        SpacesAdd(m, p - n);
      }
      assert Prefixed(a, y, m + (p - n)) && Prefixed(c, y, q);
    }
  }

  // ---------- trimming breaks ----------

  lemma {:induction false} PartsHaveNoBreak(s: string)
    ensures forall i | 0 <= i < |Split(s, '\n')| :: '\n' !in Split(s, '\n')[i]
    decreases |s|
  {
    IndexOfIs(s, '\n');
    if '\n' in s {
      var first, rest := AtBreak(s);
      PartsHaveNoBreak(rest);
      SplitOnce(s, first, rest, '\n');
      NoBreakIn(first, Split(rest, '\n'), Split(s, '\n'));
    } else {
      SplitNever(s, '\n');
    }
  }

  /** What is in front of the first line break, and what follows it. */
  lemma AtBreak(s: string) returns (first: string, rest: string)
    requires '\n' in s
    ensures s == first + ['\n'] + rest && '\n' !in first
  {
    IndexOfIs(s, '\n');
    var at := IndexOf(s, '\n');
    first, rest := s[..at], s[at + 1..];
    assert s == first + [s[at]] + rest;
  }

  lemma NoBreakIn(first: string, rest: seq<string>, all: seq<string>)
    requires all == [first] + rest && '\n' !in first && forall i | 0 <= i < |rest| :: '\n' !in rest[i]
    ensures forall i | 0 <= i < |all| :: '\n' !in all[i]
  {
  }

  lemma {:induction false} JoinAppend(parts: seq<string>, last: string)
    requires parts != []
    ensures Join(parts + [last], '\n') == Join(parts, '\n') + "\n" + last
    decreases |parts|
  {
    if |parts| == 1 {
      assert (parts + [last])[1..] == [last];
    } else {
      JoinAppend(parts[1..], last);
      assert (parts + [last])[1..] == parts[1..] + [last];
    }
  }

  lemma BreakAtEnd(s: string)
    ensures Split(s + "\n", '\n') == Split(s, '\n') + [""]
  {
    JoinOfSplit(s, '\n');
    PartsHaveNoBreak(s);
    OneMorePart(s, Split(s, '\n'), s + "\n");
  }

  lemma OneMorePart(s: string, parts: seq<string>, text: string)
    requires parts != [] && s == Join(parts, '\n') && text == s + "\n"
    requires forall i | 0 <= i < |parts| :: '\n' !in parts[i]
    ensures Split(text, '\n') == parts + [""]
  {
    JoinAppend(parts, "");
    assert text == s + "\n" + "";
    SplitOfJoin(parts + [""], '\n');
  }

  lemma BreakAtStart(s: string)
    ensures Split("\n" + s, '\n') == [""] + Split(s, '\n')
  {
    IndexOfConcat("", '\n', s);
    assert "\n" + s == "" + ['\n'] + s;
  }

  lemma {:induction false} VisibleConcat(a: seq<string>, b: seq<string>)
    ensures Visible(a + b) == Visible(a) + Visible(b)
    decreases |b|
  {
    if b == [] {
      assert a + b == a;
    } else {
      VisibleConcat(a, b[..|b| - 1]);
      assert (a + b)[..|a + b| - 1] == a + b[..|b| - 1];
    }
  }

  lemma {:induction false} TrimRightKeepsVisible(s: string)
    ensures VisibleLines(TrimRightBreaks(s)) == VisibleLines(s)
    decreases |s|
  {
    if s != "" && s[|s| - 1] == '\n' {
      var front := s[..|s| - 1];
      TrimRightKeepsVisible(front);
      assert s == front + "\n";
      BreakAtEnd(front);
      VisibleConcat(Split(front, '\n'), [""]);
    }
  }

  lemma {:induction false} TrimLeftKeepsVisible(s: string)
    ensures VisibleLines(TrimLeftBreaks(s)) == VisibleLines(s)
    decreases |s|
  {
    if s != "" && s[0] == '\n' {
      TrimLeftKeepsVisible(s[1..]);
      assert s == "\n" + s[1..];
      BreakAtStart(s[1..]);
      VisibleConcat([""], Split(s[1..], '\n'));
    }
  }

  // ---------- blank text ----------

  lemma {:induction false} TrimLeftSpace(s: string)
    ensures AllSpace(s) ==> TrimLeft(s) == ""
    ensures TrimLeft(s) == "" ==> AllSpace(s)
    ensures TrimLeft(s) != "" ==> !AllSpace(TrimLeft(s)) && !IsSpace(TrimLeft(s)[0])
    ensures !AllSpace(s) ==> !AllSpace(TrimLeft(s))
  {
    if s != "" && IsSpace(s[0]) {
      TrimLeftSpace(s[1..]);
      assert s == [s[0]] + s[1..];
    }
  }

  lemma {:induction false} TrimRightSpace(s: string)
    ensures TrimRight(s) == "" <==> AllSpace(s)
  {
    if s != "" && IsSpace(s[|s| - 1]) {
      TrimRightSpace(s[..|s| - 1]);
      assert s == s[..|s| - 1] + [s[|s| - 1]];
    }
  }

  lemma BlankIsAllSpace(s: string)
    ensures TrimSpace(s) == "" <==> AllSpace(s)
  {
    TrimLeftSpace(s);
    TrimRightSpace(TrimLeft(s));
  }

  lemma LayerKeepsBlank(line: string)
    ensures IsBlank(LAYER + line) <==> IsBlank(line)
  {
    BlankIsAllSpace(line);
    BlankIsAllSpace(LAYER + line);
    assert forall i | 0 <= i < |line| :: (LAYER + line)[i + 4] == line[i];
  }

  lemma {:induction false} PartsOfSpace(s: string)
    requires AllSpace(s)
    ensures forall i | 0 <= i < |Split(s, '\n')| :: IsBlank(Split(s, '\n')[i])
    decreases |s|
  {
    BlankIsAllSpace(s);
    if '\n' in s {
      var first, rest := AtBreak(s);
      SpaceAround(s, first, rest);
      BlankIsAllSpace(first);
      PartsOfSpace(rest);
      SplitOnce(s, first, rest, '\n');
      BlankParts(first, Split(rest, '\n'), Split(s, '\n'));
    } else {
      SplitNever(s, '\n');
    }
  }

  lemma SpaceAround(s: string, first: string, rest: string)
    requires AllSpace(s) && s == first + ['\n'] + rest
    ensures AllSpace(first) && AllSpace(rest)
  {
    assert forall i | 0 <= i < |first| :: first[i] == s[i];
    assert forall i | 0 <= i < |rest| :: rest[i] == s[|first| + 1 + i];
  }

  lemma BlankParts(first: string, rest: seq<string>, all: seq<string>)
    requires all == [first] + rest && IsBlank(first) && forall i | 0 <= i < |rest| :: IsBlank(rest[i])
    ensures forall i | 0 <= i < |all| :: IsBlank(all[i])
  {
  }

  lemma {:induction false} NothingVisible(lines: seq<string>)
    requires forall i | 0 <= i < |lines| :: IsBlank(lines[i])
    ensures Visible(lines) == []
  {
    if lines != [] {
      NothingVisible(lines[..|lines| - 1]);
    }
  }

  lemma BlankShowsNothing(s: string)
    requires TrimSpace(s) == ""
    ensures VisibleLines(s) == []
  {
    BlankIsAllSpace(s);
    PartsOfSpace(s);
    NothingVisible(Split(s, '\n'));
  }

  // ---------- every pass is a uniform shift ----------

  lemma {:induction false} ShiftInVisible(lines: seq<string>)
    ensures Prefixed(Visible(ShiftIn(lines)), Visible(lines), 4)
    decreases |lines|
  {
    if lines != [] {
      var front, last := lines[..|lines| - 1], lines[|lines| - 1];
      ShiftInVisible(front);
      LayerKeepsBlank(last);
      assert ShiftIn(lines)[..|lines| - 1] == ShiftIn(front);
      assert Spaces(4) == LAYER;
    }
  }

  lemma {:induction false} ShiftOutVisible(lines: seq<string>)
    requires AllIndented(lines)
    ensures Prefixed(Visible(lines), Visible(ShiftOut(lines)), 4)
    decreases |lines|
  {
    if lines != [] {
      var front, last := lines[..|lines| - 1], lines[|lines| - 1];
      ShiftOutVisible(front);
      assert ShiftOut(lines)[..|lines| - 1] == ShiftOut(front);
      assert Spaces(4) == LAYER;
      assert Indented(last);
      if !IsBlank(last) {
        assert last == LAYER + last[|LAYER|..];
        LayerKeepsBlank(last[|LAYER|..]);
      }
    }
  }

  lemma PrefixedSameShape(a: seq<string>, b: seq<string>, n: nat)
    requires Prefixed(a, b, n)
    ensures SameShape(a, b) && SameShape(b, a)
  {
    assert Prefixed(b, b, 0);
  }

  lemma EnsureKeepsShape(content: string)
    ensures SameShape(VisibleLines(content), VisibleLines(EnsureIndentation(content)))
  {
    var trimmed := TrimBreaks(content);
    TrimLeftKeepsVisible(content);
    TrimRightKeepsVisible(TrimLeftBreaks(content));
    SameShapeReflexive(VisibleLines(content));
    if TrimSpace(trimmed) == "" {
      BlankShowsNothing(trimmed);
      BlankShowsNothing("");
    } else if !IsProperlyIndented(trimmed) {
      var lines := Split(trimmed, '\n');
      PartsHaveNoBreak(trimmed);
      SplitOfJoin(ShiftIn(lines), '\n');
      ShiftInVisible(lines);
      PrefixedSameShape(Visible(ShiftIn(lines)), Visible(lines), 4);
    }
  }

  lemma DeindentKeepsShape(content: string)
    ensures SameShape(VisibleLines(content), VisibleLines(Deindent(content)))
  {
    var lines := Split(TrimRightBreaks(content), '\n');
    TrimRightKeepsVisible(content);
    SameShapeReflexive(VisibleLines(content));
    if TrimSpace(content) == "" {
      BlankShowsNothing(content);
      BlankShowsNothing("");
    } else if AllIndented(lines) {
      PartsHaveNoBreak(TrimRightBreaks(content));
      SplitOfJoin(ShiftOut(lines), '\n');
      ShiftOutVisible(lines);
      PrefixedSameShape(Visible(lines), Visible(ShiftOut(lines)), 4);
    }
  }

  function DeindentTimes(content: string, n: nat): string {
    if n == 0 then content else Deindent(DeindentTimes(content, n - 1))
  }

  /** Whatever the text, indenting it and de-indenting it any number of times keeps the shape of the block. */
  lemma {:induction false} PassesKeepShape(content: string, n: nat)
    ensures SameShape(VisibleLines(content), VisibleLines(DeindentTimes(EnsureIndentation(content), n)))
    decreases n
  {
    if n == 0 {
      EnsureKeepsShape(content);
    } else {
      PassesKeepShape(content, n - 1);
      DeindentKeepsShape(DeindentTimes(EnsureIndentation(content), n - 1));
      SameShapeTransitive(VisibleLines(content), VisibleLines(DeindentTimes(EnsureIndentation(content), n - 1)),
                          VisibleLines(DeindentTimes(EnsureIndentation(content), n)));
    }
  }

  // ---------- de-indenting undoes indenting ----------

  lemma ShiftOutUndoes(lines: seq<string>)
    ensures AllIndented(ShiftIn(lines)) && ShiftOut(ShiftIn(lines)) == lines
  {
    forall i | 0 <= i < |lines| ensures Indented(ShiftIn(lines)[i]) && ShiftOut(ShiftIn(lines))[i] == lines[i] {
      LayerKeepsBlank(lines[i]);
    }
  }

  lemma {:induction false} JoinEnds(lines: seq<string>)
    requires lines != [] && lines[|lines| - 1] != ""
    ensures Join(lines, '\n') != "" &&
            Join(lines, '\n')[|Join(lines, '\n')| - 1] == lines[|lines| - 1][|lines[|lines| - 1]| - 1]
    decreases |lines|
  {
    if |lines| > 1 {
      JoinEnds(lines[1..]);
    }
  }

  lemma {:induction false} TrimRightEnds(s: string)
    ensures TrimRightBreaks(s) == "" || TrimRightBreaks(s)[|TrimRightBreaks(s)| - 1] != '\n'
  {
    if s != "" && s[|s| - 1] == '\n' {
      TrimRightEnds(s[..|s| - 1]);
    }
  }

  /** The last line of a text without a break at its end is not empty. */
  lemma LastLine(lines: seq<string>, s: string)
    requires lines != [] && s == Join(lines, '\n') && s != "" && s[|s| - 1] != '\n'
    ensures lines[|lines| - 1] != ""
  {
    if |lines| > 1 {
      var front, last := lines[..|lines| - 1], lines[|lines| - 1];
      JoinAppend(front, last);
      assert lines == front + [last];
    }
  }

  /** A block that had to be indented comes back, without its outer line breaks, when it is de-indented. */
  lemma DeindentUndoesEnsure(content: string)
    requires TrimSpace(TrimBreaks(content)) != "" && !IsProperlyIndented(TrimBreaks(content))
    ensures Deindent(EnsureIndentation(content)) == TrimBreaks(content)
  {
    var trimmed := TrimBreaks(content);
    var lines := Split(trimmed, '\n');
    TrimRightEnds(TrimLeftBreaks(content));
    PartsHaveNoBreak(trimmed);
    JoinOfSplit(trimmed, '\n');
    LastLine(lines, trimmed);
    LinesComeBack(lines, Join(ShiftIn(lines), '\n'));
    NotBlankAnyMore(content, Join(ShiftIn(lines), '\n'));
  }

  /** A block is indented when four spaces are in front of each line that is not blank. */
  lemma ProperMeans(content: string)
    ensures IsProperlyIndented(content) <==> forall line | line in VisibleLines(content) :: HasPrefix(line, Spaces(4))
  {
    var lines := Split(TrimRightBreaks(content), '\n');
    TrimRightKeepsVisible(content);
    VisibleIndented(lines);
    if TrimSpace(content) == "" { BlankShowsNothing(content); }
  }

  lemma {:induction false} VisibleIndented(lines: seq<string>)
    ensures AllIndented(lines) <==> forall line | line in Visible(lines) :: HasPrefix(line, Spaces(4))
  {
    assert Spaces(4) == LAYER;
    if lines != [] {
      var front, last := lines[..|lines| - 1], lines[|lines| - 1];
      VisibleIndented(front);
      assert AllIndented(lines) <==> AllIndented(front) && Indented(last) by {
        assert forall i | 0 <= i < |front| :: front[i] == lines[i];
      }
    }
  }

  /** The result is always indented; what was not gets four spaces in front of each visible line, the rest stays. */
  lemma EnsureIndents(content: string)
    ensures IsProperlyIndented(EnsureIndentation(content))
    ensures if IsProperlyIndented(content) then VisibleLines(EnsureIndentation(content)) == VisibleLines(content)
            else Prefixed(VisibleLines(EnsureIndentation(content)), VisibleLines(content), 4)
  {
    var trimmed := TrimBreaks(content);
    TrimLeftKeepsVisible(content);
    TrimRightKeepsVisible(TrimLeftBreaks(content));
    ProperMeans(content);
    ProperMeans(trimmed);
    if TrimSpace(trimmed) == "" {
      BlankShowsNothing(trimmed);
      BlankShowsNothing("");
    } else if !IsProperlyIndented(trimmed) {
      ShiftedBlock(content, trimmed, Split(trimmed, '\n'));
    }
  }

  /** An indented block loses four spaces in front of each visible line, and any other block stays as it is. */
  lemma DeindentTakesALayer(content: string)
    ensures if IsProperlyIndented(content) then Prefixed(VisibleLines(content), VisibleLines(Deindent(content)), 4)
            else Deindent(content) == content
  {
    var lines := Split(TrimRightBreaks(content), '\n');
    TrimRightKeepsVisible(content);
    if TrimSpace(content) == "" {
      BlankShowsNothing(content);
      BlankShowsNothing("");
    } else if AllIndented(lines) {
      PartsHaveNoBreak(TrimRightBreaks(content));
      SplitOfJoin(ShiftOut(lines), '\n');
      ShiftOutVisible(lines);
    }
  }

  lemma ShiftedBlock(content: string, trimmed: string, lines: seq<string>)
    requires trimmed == TrimBreaks(content) && lines == Split(trimmed, '\n')
    requires TrimSpace(trimmed) != "" && !IsProperlyIndented(trimmed)
    ensures IsProperlyIndented(EnsureIndentation(content))
    ensures Prefixed(VisibleLines(EnsureIndentation(content)), VisibleLines(trimmed), 4)
  {
    TrimRightEnds(TrimLeftBreaks(content));
    PartsHaveNoBreak(trimmed);
    JoinOfSplit(trimmed, '\n');
    LastLine(lines, trimmed);
    LinesComeBack(lines, Join(ShiftIn(lines), '\n'));
    ShiftInNoBreaks(lines);
    SplitOfJoin(ShiftIn(lines), '\n');
    ShiftInVisible(lines);
  }

  lemma LinesComeBack(lines: seq<string>, text: string)
    requires lines != [] && lines[|lines| - 1] != "" && forall i | 0 <= i < |lines| :: '\n' !in lines[i]
    requires text == Join(ShiftIn(lines), '\n')
    ensures var out := Split(TrimRightBreaks(text), '\n'); AllIndented(out) && ShiftOut(out) == lines
  {
    NothingToTrim(lines, text);
    ShiftInNoBreaks(lines);
    SplitOfJoin(ShiftIn(lines), '\n');
    ShiftOutUndoes(lines);
  }

  lemma NothingToTrim(lines: seq<string>, text: string)
    requires lines != [] && lines[|lines| - 1] != "" && '\n' !in lines[|lines| - 1]
    requires text == Join(ShiftIn(lines), '\n')
    ensures TrimRightBreaks(text) == text
  {
    ShiftedEnd(lines);
    JoinEnds(ShiftIn(lines));
  }

  lemma ShiftInNoBreaks(lines: seq<string>)
    requires forall i | 0 <= i < |lines| :: '\n' !in lines[i]
    ensures forall i | 0 <= i < |lines| :: '\n' !in ShiftIn(lines)[i]
  {
  }

  lemma ShiftedEnd(lines: seq<string>)
    requires lines != [] && lines[|lines| - 1] != "" && '\n' !in lines[|lines| - 1]
    ensures var last := ShiftIn(lines)[|lines| - 1]; last != "" && last[|last| - 1] != '\n'
  {
  }

  lemma NotBlankAnyMore(content: string, text: string)
    requires TrimSpace(TrimBreaks(content)) != "" && !IsProperlyIndented(TrimBreaks(content)) &&
             text == EnsureIndentation(content)
    ensures TrimSpace(text) != ""
  {
    if TrimSpace(text) == "" {
      BlankShowsNothing(text);
      EnsureKeepsShape(content);
      TrimLeftKeepsVisible(content);
      TrimRightKeepsVisible(TrimLeftBreaks(content));
      NothingIsIndented(TrimBreaks(content));
    }
  }

  /** A text without visible lines counts as indented. */
  lemma NothingIsIndented(s: string)
    requires VisibleLines(s) == []
    ensures IsProperlyIndented(s)
  {
    TrimRightKeepsVisible(s);
    AllBlank(Split(TrimRightBreaks(s), '\n'));
  }

  lemma {:induction false} AllBlank(lines: seq<string>)
    requires Visible(lines) == []
    ensures AllIndented(lines)
  {
    if lines != [] {
      AllBlank(lines[..|lines| - 1]);
      assert forall i | 0 <= i < |lines| - 1 :: lines[i] == lines[..|lines| - 1][i];
    }
  }
}
