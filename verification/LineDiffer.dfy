/** The in-place computation of the line diff, proved against `LineDiff.DiffOf`. */
module LineDiffer {
  import opened Wrappers
  import opened Numbers
  import opened LineScript
  import opened HunkView
  import opened LineDiff

  method CommonPrefix(a: seq<Line>, b: seq<Line>) returns (start: nat)
    ensures start == PrefixEnd(a, b, 0)
  {
    start := 0;
    while start < |a| && start < |b| && a[start] == b[start]
      invariant start <= |a| && start <= |b|
      invariant PrefixEnd(a, b, start) == PrefixEnd(a, b, 0)
    {
      start := start + 1;
    }
  }

  method CommonSuffix(a: seq<Line>, b: seq<Line>, start: nat) returns (endA: nat, endB: nat)
    requires start <= |a| && start <= |b|
    ensures start <= endA <= |a| && start <= endB <= |b|
    ensures |a| - endA == |b| - endB == SuffixLength(a, b, start, 0)
  {
    endA, endB := |a|, |b|;
    while endA > start && endB > start && a[endA - 1] == b[endB - 1]
      invariant start <= endA <= |a| && start <= endB <= |b|
      invariant |a| - endA == |b| - endB
      invariant SuffixLength(a, b, start, |a| - endA) == SuffixLength(a, b, start, 0)
    {
      endA, endB := endA - 1, endB - 1;
    }
  }

  /** One table cell from its three neighbours. */
  lemma CellRule(a: seq<Line>, b: seq<Line>, i: nat, j: nat)
    requires i <= |a| && j <= |b|
    ensures i == |a| || j == |b| ==> Lcs(a[i..], b[j..]) == 0
    ensures i < |a| && j < |b| ==>
              Lcs(a[i..], b[j..]) == if a[i] == b[j] then Lcs(a[i + 1..], b[j + 1..]) + 1
                                     else Max(Lcs(a[i + 1..], b[j..]), Lcs(a[i..], b[j + 1..]))
  {
    if i < |a| && j < |b| {
      assert a[i..][1..] == a[i + 1..] && b[j..][1..] == b[j + 1..];
    }
  }

  method FillTable(a: seq<Line>, b: seq<Line>) returns (lcs: array2<nat>)
    ensures fresh(lcs) && lcs.Length0 == |a| + 1 && lcs.Length1 == |b| + 1
    ensures forall i, j {:trigger lcs[i, j]} :: 0 <= i <= |a| && 0 <= j <= |b| ==> lcs[i, j] == Lcs(a[i..], b[j..])
  {
    lcs := new nat[|a| + 1, |b| + 1]((_, _) => 0);
    forall j | 0 <= j <= |b|
      ensures lcs[|a|, j] == Lcs(a[|a|..], b[j..])
    {
      CellRule(a, b, |a|, j);
    }
    for i := |a| downto 0
      invariant forall k, j :: 0 <= k <= |a| && 0 <= j <= |b| ==>
                  lcs[k, j] == if i <= k then Lcs(a[k..], b[j..]) else 0
    {
      CellRule(a, b, i, |b|);
      for j := |b| downto 0
        invariant forall k, m :: 0 <= k <= |a| && 0 <= m <= |b| ==>
                    lcs[k, m] == if i < k || (i == k && j <= m) then Lcs(a[k..], b[m..]) else 0
      {
        CellRule(a, b, i, j);
        lcs[i, j] := if a[i] == b[j] then lcs[i + 1, j + 1] + 1 else Max(lcs[i + 1, j], lcs[i, j + 1]);
      }
    }
  }

  /** One step of the walk. */
  lemma WalkRule(a: seq<Line>, b: seq<Line>, i: nat, j: nat)
    requires i <= |a| && j <= |b| && (i < |a| || j < |b|)
    ensures Walk(a[i..], b[j..]) ==
            if i < |a| && j < |b| && a[i] == b[j] then [Op(Context, a[i])] + Walk(a[i + 1..], b[j + 1..])
            else if i < |a| && (j == |b| || Lcs(a[i + 1..], b[j..]) >= Lcs(a[i..], b[j + 1..]))
            then [Op(Remove, a[i])] + Walk(a[i + 1..], b[j..])
            else [Op(Add, b[j])] + Walk(a[i..], b[j + 1..])
  {
    assert i < |a| ==> a[i..][1..] == a[i + 1..];
    assert j < |b| ==> b[j..][1..] == b[j + 1..];
  }

  /** What the walk has written, and what the rest of the table adds to it. */
  ghost function Walked(a: seq<Line>, b: seq<Line>, ops: seq<Op>, i: nat, j: nat): (all: seq<Op>)
    requires i <= |a| && j <= |b|
  {
    ops + Walk(a[i..], b[j..])
  }

  lemma WalkOn(a: seq<Line>, b: seq<Line>, ops: seq<Op>, i: nat, j: nat)
    requires i <= |a| && j <= |b| && (i < |a| || j < |b|)
    ensures Walked(a, b, ops, i, j) ==
            if i < |a| && j < |b| && a[i] == b[j] then Walked(a, b, ops + [Op(Context, a[i])], i + 1, j + 1)
            else if i < |a| && (j == |b| || Lcs(a[i + 1..], b[j..]) >= Lcs(a[i..], b[j + 1..]))
            then Walked(a, b, ops + [Op(Remove, a[i])], i + 1, j)
            else Walked(a, b, ops + [Op(Add, b[j])], i, j + 1)
  {
    WalkRule(a, b, i, j);
  }

  method WalkTable(a: seq<Line>, b: seq<Line>, lcs: array2<nat>) returns (ops: seq<Op>)
    requires lcs.Length0 == |a| + 1 && lcs.Length1 == |b| + 1
    requires forall i, j {:trigger lcs[i, j]} :: 0 <= i <= |a| && 0 <= j <= |b| ==> lcs[i, j] == Lcs(a[i..], b[j..])
    ensures ops == Walked(a, b, [], 0, 0)
  {
    ops := [];
    var i, j := 0, 0;
    while i < |a| || j < |b|
      invariant i <= |a| && j <= |b|
      invariant Walked(a, b, ops, i, j) == Walked(a, b, [], 0, 0)
      decreases |a| - i + |b| - j
    {
      WalkOn(a, b, ops, i, j);
      if i < |a| && j < |b| && a[i] == b[j] {
        ops := ops + [Op(Context, a[i])];
        i, j := i + 1, j + 1;
      } else if i < |a| && (j == |b| || lcs[i + 1, j] >= lcs[i, j + 1]) {
        ops := ops + [Op(Remove, a[i])];
        i := i + 1;
      } else {
        ops := ops + [Op(Add, b[j])];
        j := j + 1;
      }
    }
  }

  method Numbered(ops: seq<Op>, firstLine: int) returns (lines: seq<DiffLine>)
    ensures |lines| == |ops| && forall k :: 0 <= k < |ops| ==> lines[k] == NumberedLine(ops, firstLine, k)
  {
    lines := [];
    var oldNumber, newNumber := firstLine, firstLine;
    for k := 0 to |ops|
      invariant |lines| == k && forall i :: 0 <= i < k ==> lines[i] == NumberedLine(ops, firstLine, i)
      invariant oldNumber == firstLine + |OldTo(ops, k)| && newNumber == firstLine + |NewTo(ops, k)|
    {
      var old_, new_ := None, None;
      if ops[k].kind != Add {
        old_, oldNumber := Some(oldNumber), oldNumber + 1;
      }
      if ops[k].kind != Remove {
        new_, newNumber := Some(newNumber), newNumber + 1;
      }
      lines := lines + [Shown(ops[k].kind, ops[k].text, old_, new_)];
    }
  }

  /** Some change before `index` has line `k` within its context. */
  ghost predicate MarkedBefore(ops: seq<Op>, context: int, index: int, k: int) {
    exists i :: i < index && IsChange(ops, i) && i - context <= k <= i + context
  }

  method MarkNear(ops: seq<Op>, context: int) returns (keep: array<bool>)
    ensures fresh(keep) && keep.Length == |ops|
    ensures forall k :: 0 <= k < |ops| ==> (keep[k] <==> IsNear(ops, context, k))
  {
    keep := new bool[|ops|](_ => false);
    for index := 0 to |ops|
      invariant forall k :: 0 <= k < |ops| ==> (keep[k] <==> MarkedBefore(ops, context, index, k))
    {
      if ops[index].kind != Context {
        assert IsChange(ops, index);
        var k := if 0 < index - context then index - context else 0;
        var high := if |ops| - 1 < index + context then |ops| - 1 else index + context;
        var low := k;
        while k <= high
          invariant low <= k && k <= (if low <= high then high + 1 else low)
          invariant forall m :: 0 <= m < |ops| ==>
                      (keep[m] <==> MarkedBefore(ops, context, index, m) || low <= m < k)
        {
          keep[k] := true;
          k := k + 1;
        }
        assert forall m {:trigger keep[m]} :: 0 <= m < |ops| ==>
            (low <= m < k <==> index - context <= m <= index + context);
      }
      MarkedNext(ops, context, index);
    }
  }

  lemma MarkedNext(ops: seq<Op>, context: int, index: int)
    ensures forall k :: MarkedBefore(ops, context, index + 1, k) <==>
                          MarkedBefore(ops, context, index, k) || (IsChange(ops, index) && index - context <= k <= index + context)
  {
    forall k | MarkedBefore(ops, context, index, k)
      ensures MarkedBefore(ops, context, index + 1, k)
    {
      var i :| i < index && IsChange(ops, i) && i - context <= k <= i + context;
      assert i < index + 1;
    }
  }

  method Collect(ops: seq<Op>, context: int, firstLine: int, numbered: seq<DiffLine>, keep: array<bool>) returns (lines: seq<DiffLine>)
    requires |numbered| == |ops| == keep.Length
    requires forall k :: 0 <= k < |ops| ==> numbered[k] == NumberedLine(ops, firstLine, k)
    requires forall k :: 0 <= k < |ops| ==> (keep[k] <==> IsNear(ops, context, k))
    ensures lines == Visible(ops, context, firstLine, |ops|)
  {
    lines := [];
    var previous := -2;
    for index := 0 to |ops|
      invariant lines == Visible(ops, context, firstLine, index)
      invariant previous < index && (previous == index - 1 <==> index > 0 && keep[index - 1])
    {
      if keep[index] {
        if index != previous + 1 && |lines| > 0 {
          lines := lines + [HUNK_MARK];
        }
        lines := lines + [numbered[index]];
        previous := index;
      }
    }
  }

  lemma WholeWalk(a: seq<Line>, b: seq<Line>)
    ensures Walked(a, b, [], 0, 0) == Walk(a, b)
  {
    assert a[0..] == a && b[0..] == b;
  }

  method MiddleScript(midA: seq<Line>, midB: seq<Line>) returns (ops: seq<Op>)
    ensures ops == Middle(midA, midB)
  {
    if |midA| * |midB| > MAX_LCS_CELLS {
      ops := Tagged(Remove, midA) + Tagged(Add, midB);
    } else {
      var lcs := FillTable(midA, midB);
      ops := WalkTable(midA, midB, lcs);
      WholeWalk(midA, midB);
    }
  }

  method ScriptOf(a: seq<Line>, b: seq<Line>) returns (ops: seq<Op>)
    ensures ops == Script(a, b)
  {
    var start := CommonPrefix(a, b);
    var endA, endB := CommonSuffix(a, b, start);
    ghost var t := Cut(a, b, start, |a| - endA);
    var middle := MiddleScript(a[start..endA], b[start..endB]);
    ops := Tagged(Context, a[..start]) + middle + Tagged(Context, a[endA..]);
    assert t == Trimmed(a, b);
    assert ops == Around(t);
  }

  method DiffLines(before: string, after: string, context: int := 3, firstLine: int := 1, maxLines: int := 400) returns (d: Diff)
    ensures d == DiffOf(before, after, context, firstLine, maxLines)
  {
    var ops := ScriptOf(SplitLines(before), SplitLines(after));
    var numbered := Numbered(ops, firstLine);
    var keep := MarkNear(ops, context);
    var lines := Collect(ops, context, firstLine, numbered, keep);
    d := Finish(lines, maxLines);
  }

  /** The diff of a file that did not exist: all its lines shown as additions, numbered from 1. */
  function AdditionDiff(content: string, maxLines: int := 400): (d: Diff) {
    var lines := SplitLines(content);
    Finish(seq(|lines|, i requires 0 <= i < |lines| => Shown(Add, lines[i], None, Some(i + 1))), maxLines)
  }

  /** A new file's diff is the ordinary diff against the empty text, and a context makes no difference to it. */
  lemma {:induction false} AdditionDiffIsDiff(before: string, content: string, context: int, maxLines: int)
    requires context >= 0 && before == ""
    ensures AdditionDiff(content, maxLines) == DiffOf(before, content, context, 1, maxLines)
  {
    var lines := SplitLines(content);
    AdditionScript(SplitLines(before), lines);
    AllAddsVisible(lines, context, |lines|);
  }

  lemma {:induction false} AdditionScript(none: seq<Line>, lines: seq<Line>)
    requires none == []
    ensures Script(none, lines) == Tagged(Add, lines)
  {
    var t := Trimmed(none, lines);
    assert t.head == [] && t.tail == [] && t.midA == none && t.midB == lines;
    assert UsesTable(t);
    AddsOnly(none, lines);
    assert Around(t) == Walk(none, lines);
  }

  lemma {:induction false} AddsOnly(none: seq<Line>, lines: seq<Line>)
    requires none == []
    ensures Walk(none, lines) == Tagged(Add, lines)
    decreases lines
  {
    if lines != [] {
      AddsOnly(none, lines[1..]);
    }
  }

  lemma {:induction false} AllAddsVisible(lines: seq<Line>, context: int, n: nat)
    requires n <= |lines| && context >= 0
    ensures Visible(Tagged(Add, lines), context, 1, n)
         == seq(n, i requires 0 <= i < n => Shown(Add, lines[i], None, Some(i + 1)))
  {
    if n > 0 {
      var ops := Tagged(Add, lines);
      AllAddsVisible(lines, context, n - 1);
      assert IsChange(ops, n - 1) && IsNear(ops, context, n - 1);
      assert n >= 2 ==> IsChange(ops, n - 2) && IsNear(ops, context, n - 2);
      AddsSpell(lines, n - 1);
    }
  }

  lemma {:induction false} AddsSpell(lines: seq<Line>, n: nat)
    requires n <= |lines|
    ensures |OldTo(Tagged(Add, lines), n)| == 0 && |NewTo(Tagged(Add, lines), n)| == n
  {
    if n > 0 {
      AddsSpell(lines, n - 1);
    }
  }
}
