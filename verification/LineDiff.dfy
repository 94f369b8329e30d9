/**
 * The line diff a client shows for an edit (ui/neuron-client/src/diff.ts): the
 * method computes it in place, and the lemmas say what the result is worth.
 */
module LineDiff {
  import opened Numbers
  import opened Text
  import opened LineScript
  import opened HunkView

  datatype Diff = Diff(lines: seq<DiffLine>, added: nat, removed: nat, truncated: bool)

  /** The largest product of the two middles' lengths for which a table is filled. */
  const MAX_LCS_CELLS: nat := 4_000_000

  // --------------------------------------------------------------- lines

  function SplitLines(text: string): (lines: seq<Line>) {
    if text == "" then []
    else
      var lines := SplitLf(WithoutCrLf(text));
      if Last(lines) == "" then Init(lines) else lines
  }

  /** Lines written out, each with the same line ending. */
  function Terminated(lines: seq<Line>, end: string): (s: string) {
    if lines == [] then "" else lines[0] + end + Terminated(lines[1..], end)
  }

  predicate IsLine(line: Line, end: string) {
    '\n' !in line && (end == "\n" && line != "" ==> line[|line| - 1] != '\r')
  }

  lemma {:induction false} WithoutCrLfLine(line: Line, end: string, rest: string)
    requires end in {"\n", "\r\n"} && IsLine(line, end)
    ensures WithoutCrLf(line + end + rest) == line + "\n" + WithoutCrLf(rest)
  {
    var s := line + end + rest;
    if line == "" {
      assert s[|end|..] == rest;
    } else {
      assert s[1..] == line[1..] + end + rest;
      assert s[1] == if |line| > 1 then line[1] else end[0];
      WithoutCrLfLine(line[1..], end, rest);
    }
  }

  lemma {:induction false} WithoutCrLfTerminated(lines: seq<Line>, end: string)
    requires end in {"\n", "\r\n"} && forall i :: 0 <= i < |lines| ==> IsLine(lines[i], end)
    ensures WithoutCrLf(Terminated(lines, end)) == Terminated(lines, "\n")
  {
    if lines != [] {
      WithoutCrLfTerminated(lines[1..], end);
      WithoutCrLfLine(lines[0], end, Terminated(lines[1..], end));
    }
  }

  lemma {:induction false} SplitTerminated(lines: seq<Line>)
    requires forall i :: 0 <= i < |lines| ==> '\n' !in lines[i]
    ensures SplitLf(Terminated(lines, "\n")) == lines + [""]
  {
    if lines != [] {
      SplitTerminated(lines[1..]);
      SplitAtFeed(lines[0], Terminated(lines[1..], "\n"));
      assert lines[0] + "\n" + Terminated(lines[1..], "\n") == lines[0] + ("\n" + Terminated(lines[1..], "\n"));
      assert [lines[0]] + (lines[1..] + [""]) == lines + [""];
    }
  }

  /** Splitting undoes writing lines out, with either line ending. */
  lemma SplitLinesInverts(lines: seq<Line>, end: string)
    requires end in {"\n", "\r\n"} && forall i :: 0 <= i < |lines| ==> IsLine(lines[i], end)
    ensures SplitLines(Terminated(lines, end)) == lines
  {
    WithoutCrLfTerminated(lines, end);
    SplitTerminated(lines);
    if lines != [] {
      assert |Terminated(lines, end)| >= |end|;
      assert Init(lines + [""]) == lines;
    }
  }

  /** A text without the line feed it may end with. */
  function WithoutLastFeed(text: string): (r: string) {
    if text != "" && Last(text) == '\n' then Init(text) else text
  }

  /**
   * The lines of any text: none holds a line feed, and joined they are the text
   * without its last line feed and with line feeds for its CR-LF pairs; only
   * the empty text has no lines.
   */
  lemma SplitLinesJoin(text: string)
    ensures JoinLf(SplitLines(text)) == WithoutLastFeed(WithoutCrLf(text))
    ensures forall i :: 0 <= i < |SplitLines(text)| ==> '\n' !in SplitLines(text)[i]
    ensures SplitLines(text) == [] <==> text == ""
  {
    var plain := WithoutCrLf(text);
    if text != "" {
      SplitLfLines(plain);
      JoinUndoesSplit(plain);
      LastLine(plain);
      JoinWithoutLast(SplitLf(plain), plain);
    }
  }

  lemma JoinWithoutLast(lines: seq<string>, plain: string)
    requires lines != [] && JoinLf(lines) == plain != "" && (Last(lines) == "" <==> Last(plain) == '\n')
    requires Last(lines) == "" ==> |lines| > 1
    ensures JoinLf(if Last(lines) == "" then Init(lines) else lines) == WithoutLastFeed(plain)
  {
    var last := Last(lines);
    if last == "" {
      assert lines == Init(lines) + [last];
      JoinWithLast(Init(lines), last);
      assert JoinLf(Init(lines)) + "\n" + last == JoinLf(Init(lines)) + "\n";
    }
  }

  /** The last line is empty exactly when the text ends in a line feed. */
  lemma {:induction false} LastLine(text: string)
    requires text != ""
    ensures Last(SplitLf(text)) == "" <==> Last(text) == '\n'
    ensures Last(SplitLf(text)) == "" ==> |SplitLf(text)| > 1
  {
    if |text| > 1 {
      LastLine(text[1..]);
    }
  }

  // ----------------------------------------------------- the whole script

  /** The end of the common prefix, looking from `i` on. */
  function PrefixEnd(a: seq<Line>, b: seq<Line>, i: nat): (end: nat)
    requires i <= |a| && i <= |b|
    ensures i <= end <= |a| && end <= |b|
    decreases |a| - i
  {
    if i < |a| && i < |b| && a[i] == b[i] then PrefixEnd(a, b, i + 1) else i
  }

  /** The length of the common suffix after `start`, when `n` of its lines are known. */
  function SuffixLength(a: seq<Line>, b: seq<Line>, start: nat, n: nat): (length: nat)
    requires start + n <= |a| && start + n <= |b|
    ensures n <= length && start + length <= |a| && start + length <= |b|
    decreases |a| - n
  {
    if start < |a| - n && start < |b| - n && a[|a| - n - 1] == b[|b| - n - 1] then SuffixLength(a, b, start, n + 1) else n
  }

  lemma {:induction false} PrefixIsCommon(a: seq<Line>, b: seq<Line>, i: nat)
    requires i <= |a| && i <= |b| && a[..i] == b[..i]
    ensures var end := PrefixEnd(a, b, i);
            a[..end] == b[..end] && (end < |a| && end < |b| ==> a[end] != b[end])
    decreases |a| - i
  {
    if i < |a| && i < |b| && a[i] == b[i] {
      assert a[..i + 1] == a[..i] + [a[i]] && b[..i + 1] == b[..i] + [b[i]];
      PrefixIsCommon(a, b, i + 1);
    }
  }

  lemma {:induction false} SuffixIsCommon(a: seq<Line>, b: seq<Line>, start: nat, n: nat)
    requires start + n <= |a| && start + n <= |b| && a[|a| - n..] == b[|b| - n..]
    ensures var k := SuffixLength(a, b, start, n);
            a[|a| - k..] == b[|b| - k..]
            && (start < |a| - k && start < |b| - k ==> a[|a| - k - 1] != b[|b| - k - 1])
    decreases |a| - n
  {
    if start < |a| - n && start < |b| - n && a[|a| - n - 1] == b[|b| - n - 1] {
      assert a[|a| - n - 1..] == [a[|a| - n - 1]] + a[|a| - n..];
      assert b[|b| - n - 1..] == [b[|b| - n - 1]] + b[|b| - n..];
      SuffixIsCommon(a, b, start, n + 1);
    }
  }

  /** The two texts without their common ends, and those ends. */
  datatype Trim = Trim(head: seq<Line>, midA: seq<Line>, midB: seq<Line>, tail: seq<Line>)

  function Cut(a: seq<Line>, b: seq<Line>, start: nat, ends: nat): (t: Trim)
    requires start + ends <= |a| && start + ends <= |b|
  {
    Trim(a[..start], a[start..|a| - ends], b[start..|b| - ends], a[|a| - ends..])
  }

  function Trimmed(a: seq<Line>, b: seq<Line>): (t: Trim) {
    var start := PrefixEnd(a, b, 0);
    Cut(a, b, start, SuffixLength(a, b, start, 0))
  }

  lemma TrimmedParts(a: seq<Line>, b: seq<Line>)
    ensures var t := Trimmed(a, b);
            a == t.head + t.midA + t.tail && b == t.head + t.midB + t.tail
  {
    var start := PrefixEnd(a, b, 0);
    var ends := SuffixLength(a, b, start, 0);
    PrefixIsCommon(a, b, 0);
    SuffixIsCommon(a, b, start, 0);
    ThreeParts(a, start, ends);
    ThreeParts(b, start, ends);
  }

  lemma ThreeParts(a: seq<Line>, start: nat, ends: nat)
    requires start + ends <= |a|
    ensures a == a[..start] + a[start..|a| - ends] + a[|a| - ends..]
  {}

  predicate UsesTable(t: Trim) {
    |t.midA| * |t.midB| <= MAX_LCS_CELLS
  }

  function Middle(midA: seq<Line>, midB: seq<Line>): (ops: seq<Op>) {
    if |midA| * |midB| <= MAX_LCS_CELLS then Walk(midA, midB) else Tagged(Remove, midA) + Tagged(Add, midB)
  }

  /** The context lines around a middle. */
  function Around(t: Trim): (ops: seq<Op>) {
    Tagged(Context, t.head) + Middle(t.midA, t.midB) + Tagged(Context, t.tail)
  }

  function Script(a: seq<Line>, b: seq<Line>): (ops: seq<Op>) {
    Around(Trimmed(a, b))
  }

  lemma MiddleChanges(t: Trim)
    ensures IsScript(Middle(t.midA, t.midB), t.midA, t.midB)
    ensures Changes(Middle(t.midA, t.midB)) == |t.midA| + |t.midB| - if UsesTable(t) then 2 * Lcs(t.midA, t.midB) else 0
  {
    if UsesTable(t) {
      WalkIsShortest(t.midA, t.midB);
    } else {
      TaggedSpells(Remove, t.midA);
      TaggedSpells(Add, t.midB);
      ScriptAppend(Tagged(Remove, t.midA), Tagged(Add, t.midB));
    }
  }

  /** In both branches the script leads from the old lines to the new ones. */
  lemma {:induction false} ScriptSpells(a: seq<Line>, b: seq<Line>)
    ensures IsScript(Script(a, b), a, b)
    ensures Changes(Script(a, b)) == Changes(Middle(Trimmed(a, b).midA, Trimmed(a, b).midB))
  {
    var t := Trimmed(a, b);
    TrimmedParts(a, b);
    MiddleChanges(t);
    AroundSpells(t.head, Middle(t.midA, t.midB), t.tail);
  }

  lemma AroundSpells(head: seq<Line>, middle: seq<Op>, tail: seq<Line>)
    ensures var ops := Tagged(Context, head) + middle + Tagged(Context, tail);
            && Old(ops) == head + Old(middle) + tail
            && New(ops) == head + New(middle) + tail
            && Changes(ops) == Changes(middle)
  {
    TaggedSpells(Context, head);
    TaggedSpells(Context, tail);
    ScriptAppend(Tagged(Context, head), middle);
    ScriptAppend(Tagged(Context, head) + middle, Tagged(Context, tail));
  }

  /** Cutting the common ends takes exactly their lines off the longest common subsequence. */
  lemma LcsOfTrimmed(a: seq<Line>, b: seq<Line>)
    ensures var t := Trimmed(a, b);
            Lcs(a, b) == |t.head| + Lcs(t.midA, t.midB) + |t.tail|
  {
    var t := Trimmed(a, b);
    TrimmedParts(a, b);
    LcsBetween(t.head, t.midA, t.midB, t.tail);
  }

  lemma LcsBetween(head: seq<Line>, midA: seq<Line>, midB: seq<Line>, tail: seq<Line>)
    ensures Lcs(head + midA + tail, head + midB + tail) == |head| + Lcs(midA, midB) + |tail|
  {
    LcsCommonSuffix(head + midA, head + midB, tail);
    LcsCommonPrefix(head, midA, midB);
  }

  predicate ShareALine(a: seq<Line>, b: seq<Line>) {
    exists i, j :: 0 <= i < |a| && 0 <= j < |b| && a[i] == b[j]
  }

  lemma {:induction false} LcsOfSharing(a: seq<Line>, b: seq<Line>)
    ensures Lcs(a, b) > 0 <==> ShareALine(a, b)
    decreases |a| + |b|
  {
    if a != [] && b != [] && a[0] != b[0] {
      LcsOfSharing(a[1..], b);
      LcsOfSharing(a, b[1..]);
      SharingTails(a, b);
    }
  }

  lemma SharingTails(a: seq<Line>, b: seq<Line>)
    requires a != [] && b != [] && a[0] != b[0]
    ensures ShareALine(a, b) <==> ShareALine(a[1..], b) || ShareALine(a, b[1..])
  {
    if ShareALine(a, b) {
      var i, j :| 0 <= i < |a| && 0 <= j < |b| && a[i] == b[j];
      if i > 0 {
        assert a[1..][i - 1] == b[j];
      } else {
        assert a[i] == b[1..][j - 1];
      }
    }
    if ShareALine(a[1..], b) {
      var i, j :| 0 <= i < |a[1..]| && 0 <= j < |b| && a[1..][i] == b[j];
      assert a[i + 1] == b[j];
    }
    if ShareALine(a, b[1..]) {
      var i, j :| 0 <= i < |a| && 0 <= j < |b[1..]| && a[i] == b[1..][j];
      assert a[i] == b[j + 1];
    }
  }

  /**
   * The diff changes the fewest lines exactly when the table is used, or when
   * it is skipped for two middles that have no line in common.
   */
  lemma ScriptIsShortest(a: seq<Line>, b: seq<Line>)
    ensures var t := Trimmed(a, b);
            IsShortestScript(Script(a, b), a, b) <==> UsesTable(t) || !ShareALine(t.midA, t.midB)
  {
    var t := Trimmed(a, b);
    ScriptSpells(a, b);
    MiddleChanges(t);
    LcsOfTrimmed(a, b);
    LcsOfSharing(t.midA, t.midB);
    forall other | IsScript(other, a, b)
      ensures Changes(other) >= |a| + |b| - 2 * Lcs(a, b)
    {
      ChangesAtLeast(other);
    }
    WalkIsShortest(a, b);
    assert Changes(Walk(a, b)) == |t.midA| + |t.midB| - 2 * Lcs(t.midA, t.midB);
  }

  /** Two texts of 2002 lines that share one: the table is skipped, and the shared line is removed and added again. */
  lemma SkippedTableIsNotShortest()
    ensures var a, b := ["x"] + seq(2001, _ => "a"), seq(2001, _ => "b") + ["x"];
            !IsShortestScript(Script(a, b), a, b)
  {
    var a, b := ["x"] + seq(2001, _ => "a"), seq(2001, _ => "b") + ["x"];
    assert a[0] != b[0] && PrefixEnd(a, b, 0) == 0;
    assert a[2001] != b[2001] && SuffixLength(a, b, 0, 0) == 0;
    var t := Trimmed(a, b);
    assert t.midA == a && t.midB == b;
    assert a[0] == b[2001] && ShareALine(a, b);
    ScriptIsShortest(a, b);
  }

  /** Removed lines come before the added ones that follow them, in both branches. */
  lemma ScriptRemovesFirst(a: seq<Line>, b: seq<Line>)
    ensures RemovalsFirst(Script(a, b))
  {
    var t := Trimmed(a, b);
    MiddleRemovesFirst(t);
    BetweenContext(Tagged(Context, t.head), Middle(t.midA, t.midB), Tagged(Context, t.tail));
  }

  lemma MiddleRemovesFirst(t: Trim)
    ensures RemovalsFirst(Middle(t.midA, t.midB))
  {
    if UsesTable(t) {
      WalkRemovesFirst(t.midA, t.midB);
    }
  }

  lemma BetweenContext(head: seq<Op>, middle: seq<Op>, tail: seq<Op>)
    requires RemovalsFirst(middle)
    requires forall i :: 0 <= i < |head| ==> head[i].kind == Context
    requires forall i :: 0 <= i < |tail| ==> tail[i].kind == Context
    ensures RemovalsFirst(head + middle + tail)
  {
    var ops := head + middle + tail;
    forall i {:trigger ops[i]} | 0 < i < |ops| && ops[i].kind == Remove
      ensures ops[i - 1].kind != Add
    {
      var k := i - |head|;
      assert 0 <= k < |middle| && ops[i] == middle[k];
      assert if k > 0 then ops[i - 1] == middle[k - 1] else ops[i - 1] == head[i - 1];
    }
  }

  // ------------------------------------------------------------ the diff

  /** `lines.slice(0, n)`: a negative bound counts from the end. */
  function SliceTo(lines: seq<DiffLine>, n: int): (r: seq<DiffLine>) {
    if 0 <= n <= |lines| then lines[..n]
    else if -|lines| <= n < 0 then lines[..|lines| + n]
    else if n < 0 then []
    else lines
  }

  function Finish(lines: seq<DiffLine>, maxLines: int): (d: Diff) {
    Diff(if |lines| > maxLines then SliceTo(lines, maxLines) else lines,
         ShownCount(lines, |lines|, Add), ShownCount(lines, |lines|, Remove), |lines| > maxLines)
  }

  /**
   * The lines are cut to a prefix: to as many as the bound, or for a negative
   * bound to all but as many as its size. The counts are those of all lines.
   */
  lemma FinishCuts(lines: seq<DiffLine>, maxLines: int)
    ensures var d := Finish(lines, maxLines);
            && d.lines <= lines
            && (d.truncated <==> |lines| > maxLines)
            && |d.lines| == (if maxLines >= 0 then Min(|lines|, maxLines) else Max(0, |lines| + maxLines))
            && d.added == ShownCount(lines, |lines|, Add) && d.removed == ShownCount(lines, |lines|, Remove)
  {}

  ghost function DiffOf(before: string, after: string, context: int, firstLine: int, maxLines: int): (d: Diff) {
    var ops := Script(SplitLines(before), SplitLines(after));
    Finish(Visible(ops, context, firstLine, |ops|), maxLines)
  }

  /**
   * A diff that was not cut determines the new lines from the old ones, for any
   * numbering, exactly when the context is not negative or nothing changed.
   */
  lemma {:induction false} DiffRebuilds(before: string, after: string, context: int, firstLine: int, maxLines: int)
    requires !DiffOf(before, after, context, firstLine, maxLines).truncated
    ensures var d := DiffOf(before, after, context, firstLine, maxLines);
            Rebuild(SplitLines(before), firstLine, d.lines) == SplitLines(after)
            <==> context >= 0 || SplitLines(before) == SplitLines(after)
  {
    ViewRebuilds(SplitLines(before), SplitLines(after), context, firstLine);
  }

  /** With a negative context a new line is lost, whatever it is. */
  lemma {:induction false} NegativeContextLosesLines(line: string, context: int, firstLine: int, maxLines: nat)
    requires line != "" && '\n' !in line && WithoutCrLf(line) == line && context < 0
    ensures var d := DiffOf("", line, context, firstLine, maxLines);
            !d.truncated && Rebuild(SplitLines(""), firstLine, d.lines) != SplitLines(line)
  {
    NotEmpty(line);
    ViewRebuilds(SplitLines(""), SplitLines(line), context, firstLine);
    NothingToFinish(Script(SplitLines(""), SplitLines(line)), context, firstLine, maxLines);
  }

  lemma NotEmpty(text: string)
    requires text != "" && WithoutCrLf(text) == text && '\n' !in text
    ensures SplitLines(text) == [text]
  {
    SplitLfOneLine(text);
  }

  lemma NothingToFinish(ops: seq<Op>, context: int, firstLine: int, maxLines: nat)
    requires context < 0
    ensures var lines := Visible(ops, context, firstLine, |ops|);
            Finish(lines, maxLines).lines == lines && !Finish(lines, maxLines).truncated
  {
    NegativeContextShowsNothing(ops, context, firstLine, |ops|);
  }

  lemma ViewRebuilds(a: seq<Line>, b: seq<Line>, context: int, firstLine: int)
    ensures var ops := Script(a, b);
            Rebuild(a, firstLine, Visible(ops, context, firstLine, |ops|)) == b <==> context >= 0 || a == b
  {
    ScriptSpells(a, b);
    ViewOfScriptRebuilds(Script(a, b), a, b, context, firstLine);
  }

  lemma {:induction false} ViewOfScriptRebuilds(ops: seq<Op>, a: seq<Line>, b: seq<Line>, context: int, firstLine: int)
    requires IsScript(ops, a, b)
    ensures Rebuild(a, firstLine, Visible(ops, context, firstLine, |ops|)) == b <==> context >= 0 || a == b
  {
    if context >= 0 {
      VisibleRebuilds(ops, context, firstLine);
    } else {
      NegativeContextShowsNothing(ops, context, firstLine, |ops|);
      assert Rebuild(a, firstLine, []) == a;
    }
  }

  /** The counts are of the whole diff, cut or not, and as small as can be when the table is used. */
  lemma {:induction false} DiffCounts(before: string, after: string, context: int, firstLine: int, maxLines: int)
    requires context >= 0
    ensures var d := DiffOf(before, after, context, firstLine, maxLines);
            var a, b := SplitLines(before), SplitLines(after);
            && |a| - d.removed == |b| - d.added
            && d.added + d.removed >= |a| + |b| - 2 * Lcs(a, b)
            && (UsesTable(Trimmed(a, b)) ==> d.added + d.removed == |a| + |b| - 2 * Lcs(a, b))
  {
    var a, b := SplitLines(before), SplitLines(after);
    ScriptSpells(a, b);
    MiddleChanges(Trimmed(a, b));
    LcsOfTrimmed(a, b);
    ScriptCounts(Script(a, b), a, b, context, firstLine);
  }

  lemma {:induction false} ScriptCounts(ops: seq<Op>, a: seq<Line>, b: seq<Line>, context: int, firstLine: int)
    requires IsScript(ops, a, b) && context >= 0
    ensures var lines := Visible(ops, context, firstLine, |ops|);
            var added, removed := ShownCount(lines, |lines|, Add), ShownCount(lines, |lines|, Remove);
            && |a| - removed == |b| - added
            && added + removed == Changes(ops) >= |a| + |b| - 2 * Lcs(a, b)
  {
    ScriptLengths(ops);
    ChangesAtLeast(ops);
    WholeSpells(ops);
    AllChangesShown(ops, context, firstLine, |ops|, Add);
    AllChangesShown(ops, context, firstLine, |ops|, Remove);
  }
}
