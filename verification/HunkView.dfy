/**
 * The numbered lines a diff shows: those near a change, with a mark between
 * runs that are not adjacent, and a reader that applies them to the old text.
 */
module HunkView {
  import opened Wrappers
  import opened Text
  import opened LineScript

  datatype DiffLine =
    | Shown(kind: OpKind, text: Line, oldNumber: Option<int>, newNumber: Option<int>)
    | Hunk(text: Line)

  /** The mark between two runs: a horizontal ellipsis. */
  const HUNK_MARK := Hunk("\U{2026}")

  /** The old text that the first `n` lines of a script spell. */
  function OldTo(ops: seq<Op>, n: nat): (lines: seq<Line>)
    requires n <= |ops|
  {
    if n == 0 then []
    else if ops[n - 1].kind == Add then OldTo(ops, n - 1)
    else OldTo(ops, n - 1) + [ops[n - 1].text]
  }

  /** The new text that the first `n` lines of a script spell. */
  function NewTo(ops: seq<Op>, n: nat): (lines: seq<Line>)
    requires n <= |ops|
  {
    if n == 0 then []
    else if ops[n - 1].kind == Remove then NewTo(ops, n - 1)
    else NewTo(ops, n - 1) + [ops[n - 1].text]
  }

  function CountTo(ops: seq<Op>, n: nat, kind: OpKind): (count: nat)
    requires n <= |ops|
  {
    if n == 0 then 0 else CountTo(ops, n - 1, kind) + (if ops[n - 1].kind == kind then 1 else 0)
  }

  lemma {:induction false} PrefixSpells(ops: seq<Op>, n: nat)
    requires n <= |ops|
    ensures OldTo(ops, n) == Old(ops[..n]) && NewTo(ops, n) == New(ops[..n])
    ensures forall kind :: CountTo(ops, n, kind) == Count(ops[..n], kind)
  {
    if n > 0 {
      PrefixSpells(ops, n - 1);
      OneMore(ops[..n - 1], ops[n - 1]);
      assert ops[..n] == ops[..n - 1] + [ops[n - 1]];
    }
  }

  lemma OneMore(x: seq<Op>, op: Op)
    ensures Old(x + [op]) == Old(x) + (if op.kind == Add then [] else [op.text])
    ensures New(x + [op]) == New(x) + (if op.kind == Remove then [] else [op.text])
    ensures forall kind :: Count(x + [op], kind) == Count(x, kind) + (if op.kind == kind then 1 else 0)
  {
    ScriptAppend(x, [op]);
    forall kind
      ensures Count(x + [op], kind) == Count(x, kind) + (if op.kind == kind then 1 else 0)
    {
      assert Count([op], kind) == (if op.kind == kind then 1 else 0) + Count([], kind);
    }
  }

  lemma WholeSpells(ops: seq<Op>)
    ensures OldTo(ops, |ops|) == Old(ops) && NewTo(ops, |ops|) == New(ops)
    ensures forall kind :: CountTo(ops, |ops|, kind) == Count(ops, kind)
  {
    PrefixSpells(ops, |ops|);
    assert ops[..|ops|] == ops;
  }

  /** Line `k` of the script, numbered from `firstLine` in the texts it belongs to. */
  function NumberedLine(ops: seq<Op>, firstLine: int, k: nat): (line: DiffLine)
    requires k < |ops|
  {
    var oldNumber := if ops[k].kind == Add then None else Some(firstLine + |OldTo(ops, k)|);
    var newNumber := if ops[k].kind == Remove then None else Some(firstLine + |NewTo(ops, k)|);
    Shown(ops[k].kind, ops[k].text, oldNumber, newNumber)
  }

  lemma {:induction false} OldToAt(ops: seq<Op>, n: nat, k: nat)
    requires k < n <= |ops|
    ensures OldTo(ops, k) <= OldTo(ops, n) && NewTo(ops, k) <= NewTo(ops, n)
    ensures ops[k].kind != Add ==> |OldTo(ops, k)| < |OldTo(ops, n)| && OldTo(ops, n)[|OldTo(ops, k)|] == ops[k].text
    ensures ops[k].kind != Remove ==> |NewTo(ops, k)| < |NewTo(ops, n)| && NewTo(ops, n)[|NewTo(ops, k)|] == ops[k].text
  {
    if k < n - 1 {
      OldToAt(ops, n - 1, k);
    }
  }

  /** The numbers of a line are its places in the texts it belongs to, counted from `firstLine`. */
  lemma NumbersPointAtLines(ops: seq<Op>, firstLine: int, k: nat)
    requires k < |ops|
    ensures var line := NumberedLine(ops, firstLine, k);
            && line.Shown? && line.kind == ops[k].kind
            && (line.oldNumber.Some? <==> line.kind != Add)
            && (line.newNumber.Some? <==> line.kind != Remove)
            && (line.oldNumber.Some? ==>
                  0 <= line.oldNumber.value - firstLine < |Old(ops)| && Old(ops)[line.oldNumber.value - firstLine] == line.text)
            && (line.newNumber.Some? ==>
                  0 <= line.newNumber.value - firstLine < |New(ops)| && New(ops)[line.newNumber.value - firstLine] == line.text)
  {
    OldToAt(ops, |ops|, k);
    WholeSpells(ops);
  }

  predicate IsChange(ops: seq<Op>, i: int) {
    0 <= i < |ops| && ops[i].kind != Context
  }

  /** Line `k` is within `context` lines of a change. */
  ghost predicate IsNear(ops: seq<Op>, context: int, k: int) {
    exists i :: IsChange(ops, i) && i - context <= k <= i + context
  }

  /** One more line shown, after a mark when it is not adjacent to the last one. */
  function ShowLine(shown: seq<DiffLine>, adjacent: bool, line: DiffLine): (lines: seq<DiffLine>) {
    if adjacent || shown == [] then shown + [line] else shown + [HUNK_MARK] + [line]
  }

  /** What is shown of the first `n` lines of the script. */
  ghost function Visible(ops: seq<Op>, context: int, firstLine: int, n: nat): (lines: seq<DiffLine>)
    requires n <= |ops|
  {
    if n == 0 then []
    else if !IsNear(ops, context, n - 1) then Visible(ops, context, firstLine, n - 1)
    else ShowLine(Visible(ops, context, firstLine, n - 1), n >= 2 && IsNear(ops, context, n - 2), NumberedLine(ops, firstLine, n - 1))
  }

  // ------------------------------------------------- what is shown, and where

  /** Every entry of `places` that is not a mark is the script line shown there. */
  ghost predicate ShowsLines(lines: seq<DiffLine>, ops: seq<Op>, context: int, firstLine: int, places: seq<int>) {
    && |places| == |lines|
    && forall p :: 0 <= p < |places| && places[p] >= 0 ==>
         places[p] < |ops| && IsNear(ops, context, places[p]) && lines[p] == NumberedLine(ops, firstLine, places[p])
  }

  /** The entry at `q` is a mark between two lines that are not adjacent. */
  ghost predicate MarksGap(lines: seq<DiffLine>, places: seq<int>, q: int) {
    && 0 < q < |places| - 1
    && |places| == |lines|
    && lines[q] == HUNK_MARK
    && 0 <= places[q - 1] && places[q - 1] + 1 < places[q + 1]
  }

  /** Marks stand exactly between lines that are not adjacent. */
  ghost predicate MarksGaps(lines: seq<DiffLine>, places: seq<int>) {
    && |places| == |lines|
    && (forall q {:trigger MarksGap(lines, places, q)} :: 0 <= q < |places| && places[q] < 0 ==> MarksGap(lines, places, q))
    && (forall p, q :: 0 <= p < q < |places| && q == p + 1 && places[p] >= 0 && places[q] >= 0 ==> places[q] == places[p] + 1)
  }

  /** No line near a change is left out. */
  ghost predicate ShowsAllNear(ops: seq<Op>, context: int, n: nat, places: seq<int>) {
    forall k :: 0 <= k < n && IsNear(ops, context, k) ==> k in places
  }

  /** The last place is the last line near a change. */
  ghost predicate EndsAtLastNear(ops: seq<Op>, context: int, n: nat, places: seq<int>) {
    places != [] ==> 0 <= Last(places) < n && forall k :: Last(places) < k < n ==> !IsNear(ops, context, k)
  }

  ghost predicate ShowsExactly(lines: seq<DiffLine>, ops: seq<Op>, context: int, firstLine: int, n: nat, places: seq<int>) {
    && ShowsLines(lines, ops, context, firstLine, places)
    && MarksGaps(lines, places)
    && ShowsAllNear(ops, context, n, places)
    && EndsAtLastNear(ops, context, n, places)
  }

  /**
   * Exactly the lines near a change are shown, in order, with a mark exactly
   * between runs that are not adjacent.
   */
  lemma {:induction false} VisibleShowsExactly(ops: seq<Op>, context: int, firstLine: int, n: nat) returns (places: seq<int>)
    requires n <= |ops|
    ensures ShowsExactly(Visible(ops, context, firstLine, n), ops, context, firstLine, n, places)
  {
    if n == 0 {
      places := [];
    } else {
      var before := VisibleShowsExactly(ops, context, firstLine, n - 1);
      var shown := Visible(ops, context, firstLine, n - 1);
      if !IsNear(ops, context, n - 1) {
        places := before;
      } else if n >= 2 && !IsNear(ops, context, n - 2) && shown != [] {
        places := before + [-1] + [n - 1];
        ShowAfterGap(shown, ops, context, firstLine, n, before);
      } else {
        places := before + [n - 1];
        ShowAdjacent(shown, ops, context, firstLine, n, before);
      }
    }
  }

  lemma ShowAfterGap(shown: seq<DiffLine>, ops: seq<Op>, context: int, firstLine: int, n: nat, before: seq<int>)
    requires 2 <= n <= |ops| && ShowsExactly(shown, ops, context, firstLine, n - 1, before)
    requires IsNear(ops, context, n - 1) && !IsNear(ops, context, n - 2) && shown != []
    ensures ShowsExactly(shown + [HUNK_MARK] + [NumberedLine(ops, firstLine, n - 1)], ops, context, firstLine, n,
                         before + [-1] + [n - 1])
  {
    assert Last(before) in before;
    GapMarked(shown, before, NumberedLine(ops, firstLine, n - 1), n - 1);
    StillShowsLines(shown, before, [HUNK_MARK], [-1], ops, context, firstLine, n - 1);
    StillAllNear(ops, context, n, before, before + [-1] + [n - 1]);
  }

  lemma ShowAdjacent(shown: seq<DiffLine>, ops: seq<Op>, context: int, firstLine: int, n: nat, before: seq<int>)
    requires 1 <= n <= |ops| && ShowsExactly(shown, ops, context, firstLine, n - 1, before)
    requires IsNear(ops, context, n - 1) && (n == 1 || IsNear(ops, context, n - 2) || shown == [])
    ensures ShowsExactly(shown + [NumberedLine(ops, firstLine, n - 1)], ops, context, firstLine, n, before + [n - 1])
  {
    if shown != [] {
      LastNearIsLast(ops, context, n - 1, before);
    }
    NoGap(shown, before, NumberedLine(ops, firstLine, n - 1), n - 1);
    StillShowsLines(shown, before, [], [], ops, context, firstLine, n - 1);
    assert shown + [] == shown && before + [] == before;
    StillAllNear(ops, context, n, before, before + [n - 1]);
  }

  lemma LastNearIsLast(ops: seq<Op>, context: int, n: nat, places: seq<int>)
    requires 0 < n && ShowsAllNear(ops, context, n, places) && EndsAtLastNear(ops, context, n, places)
    requires IsNear(ops, context, n - 1)
    ensures places != [] && Last(places) == n - 1
  {
    assert n - 1 in places;
  }

  lemma StillShowsLines(
    shown: seq<DiffLine>, before: seq<int>, mark: seq<DiffLine>, markPlace: seq<int>,
    ops: seq<Op>, context: int, firstLine: int, k: nat
  )
    requires k < |ops| && IsNear(ops, context, k)
    requires ShowsLines(shown, ops, context, firstLine, before)
    requires (mark == [] && markPlace == []) || (|mark| == 1 && markPlace == [-1])
    ensures ShowsLines(shown + mark + [NumberedLine(ops, firstLine, k)], ops, context, firstLine, before + markPlace + [k])
  {}

  lemma StillAllNear(ops: seq<Op>, context: int, n: nat, before: seq<int>, places: seq<int>)
    requires 0 < n && before <= places && ShowsAllNear(ops, context, n - 1, before)
    requires places != [] && Last(places) == n - 1
    ensures ShowsAllNear(ops, context, n, places)
  {
    assert places[|places| - 1] == n - 1;
  }

  lemma GapMarked(shown: seq<DiffLine>, before: seq<int>, line: DiffLine, k: int)
    requires MarksGaps(shown, before) && before != [] && 0 <= Last(before) && Last(before) + 1 < k
    ensures MarksGaps(shown + [HUNK_MARK] + [line], before + [-1] + [k])
  {
    var lines, places := shown + [HUNK_MARK] + [line], before + [-1] + [k];
    forall q | 0 <= q < |places| && places[q] < 0
      ensures MarksGap(lines, places, q)
    {
      assert q < |before| ==> MarksGap(shown, before, q);
    }
  }

  lemma NoGap(shown: seq<DiffLine>, before: seq<int>, line: DiffLine, k: nat)
    requires MarksGaps(shown, before) && (before != [] ==> Last(before) == k - 1)
    ensures MarksGaps(shown + [line], before + [k])
  {
    var lines, places := shown + [line], before + [k];
    forall q | 0 <= q < |places| && places[q] < 0
      ensures MarksGap(lines, places, q)
    {
      assert q < |before| ==> MarksGap(shown, before, q);
    }
  }

  /** How many of the first `n` shown lines are of one kind. */
  function ShownCount(lines: seq<DiffLine>, n: nat, kind: OpKind): (count: nat)
    requires n <= |lines|
  {
    if n == 0 then 0 else ShownCount(lines, n - 1, kind) + (if lines[n - 1].Shown? && lines[n - 1].kind == kind then 1 else 0)
  }

  lemma {:induction false} ShownCountOfPrefix(lines: seq<DiffLine>, more: seq<DiffLine>, n: nat, kind: OpKind)
    requires n <= |lines| && lines <= more
    ensures ShownCount(more, n, kind) == ShownCount(lines, n, kind)
  {
    if n > 0 {
      ShownCountOfPrefix(lines, more, n - 1, kind);
    }
  }

  lemma ShownCountOfLine(shown: seq<DiffLine>, adjacent: bool, line: DiffLine, kind: OpKind)
    ensures var lines := ShowLine(shown, adjacent, line);
            ShownCount(lines, |lines|, kind)
            == ShownCount(shown, |shown|, kind) + (if line.Shown? && line.kind == kind then 1 else 0)
  {
    var lines := ShowLine(shown, adjacent, line);
    ShownCountOfPrefix(shown, lines, |shown|, kind);
    if |lines| > |shown| + 1 {
      assert ShownCount(lines, |shown| + 1, kind) == ShownCount(lines, |shown|, kind);
    }
  }

  /** Every change is shown, so the counts are those of the whole script. */
  lemma {:induction false} AllChangesShown(ops: seq<Op>, context: int, firstLine: int, n: nat, kind: OpKind)
    requires n <= |ops| && context >= 0 && kind != Context
    ensures var lines := Visible(ops, context, firstLine, n);
            ShownCount(lines, |lines|, kind) == CountTo(ops, n, kind)
  {
    if n > 0 {
      AllChangesShown(ops, context, firstLine, n - 1, kind);
      assert IsChange(ops, n - 1) ==> IsNear(ops, context, n - 1);
      ShownCountOfLine(Visible(ops, context, firstLine, n - 1), n >= 2 && IsNear(ops, context, n - 2),
                       NumberedLine(ops, firstLine, n - 1), kind);
    }
  }

  // ------------------------------------------------------- applying the lines

  /** How far a reader is: the old text up to `cursor` has been dealt with. */
  datatype Reader = Reader(cursor: int, out: seq<Line>)

  function Slice(before: seq<Line>, lo: int, hi: int): (lines: seq<Line>) {
    if 0 <= lo <= hi <= |before| then before[lo..hi] else []
  }

  /** Reads one shown line, after copying the unshown lines before it. */
  function Read(before: seq<Line>, firstLine: int, r: Reader, line: DiffLine): (r': Reader) {
    match line
    case Shown(Context, text, Some(number), _) => Reader(number - firstLine + 1, r.out + Slice(before, r.cursor, number - firstLine) + [text])
    case Shown(Remove, _, Some(number), _) => Reader(number - firstLine + 1, r.out + Slice(before, r.cursor, number - firstLine))
    case Shown(Add, text, _, Some(number)) =>
      var gap := number - firstLine - |r.out|;
      Reader(r.cursor + gap, r.out + Slice(before, r.cursor, r.cursor + gap) + [text])
    case _ => r
  }

  /** Reads the first `n` shown lines. */
  function ReadTo(before: seq<Line>, firstLine: int, lines: seq<DiffLine>, n: nat): (r: Reader)
    requires n <= |lines|
  {
    if n == 0 then Reader(0, []) else Read(before, firstLine, ReadTo(before, firstLine, lines, n - 1), lines[n - 1])
  }

  function ReadAll(before: seq<Line>, firstLine: int, lines: seq<DiffLine>): (r: Reader) {
    ReadTo(before, firstLine, lines, |lines|)
  }

  /**
   * The new text by the shown lines alone: unshown lines of `before` copied,
   * removed lines dropped by old number, added lines placed by new number.
   */
  function Rebuild(before: seq<Line>, firstLine: int, lines: seq<DiffLine>): (after: seq<Line>) {
    var r := ReadAll(before, firstLine, lines);
    r.out + Slice(before, r.cursor, |before|)
  }

  /** One past the last shown line among the first `n`. */
  ghost function ShownEnd(ops: seq<Op>, context: int, n: nat): (m: nat)
    ensures m <= n
  {
    if n == 0 then 0 else if IsNear(ops, context, n - 1) then n else ShownEnd(ops, context, n - 1)
  }

  /** The texts of lines `m` to `n` of a script. */
  function Texts(ops: seq<Op>, m: nat, n: nat): (lines: seq<Line>)
    requires m <= n <= |ops|
  {
    if m == n then [] else Texts(ops, m, n - 1) + [ops[n - 1].text]
  }

  /** Hidden lines are context: they are the same stretch of both texts. */
  lemma {:induction false} HiddenLines(ops: seq<Op>, context: int, n: nat)
    requires n <= |ops| && context >= 0
    ensures var gap := Texts(ops, ShownEnd(ops, context, n), n);
            && OldTo(ops, n) == OldTo(ops, ShownEnd(ops, context, n)) + gap
            && NewTo(ops, n) == NewTo(ops, ShownEnd(ops, context, n)) + gap
  {
    if n > 0 && !IsNear(ops, context, n - 1) {
      HiddenLines(ops, context, n - 1);
      assert !IsChange(ops, n - 1);
    }
  }

  lemma {:induction false} OldToIsPrefix(ops: seq<Op>, n: nat, all: nat)
    requires n <= all <= |ops|
    ensures OldTo(ops, n) <= OldTo(ops, all)
  {
    if n < all {
      OldToIsPrefix(ops, n, all - 1);
    }
  }

  /** The reader that has dealt with the first `m` lines of a script. */
  function ReaderAt(ops: seq<Op>, m: nat): (r: Reader)
    requires m <= |ops|
  {
    Reader(|OldTo(ops, m)|, NewTo(ops, m))
  }

  /** After the lines shown of a prefix, the reader has written the new text up to the last of them. */
  ghost predicate Follows(before: seq<Line>, ops: seq<Op>, context: int, firstLine: int, n: nat) {
    n <= |ops|
    && ReadAll(before, firstLine, Visible(ops, context, firstLine, n)) == ReaderAt(ops, ShownEnd(ops, context, n))
  }

  lemma FollowsNext(before: seq<Line>, ops: seq<Op>, context: int, firstLine: int, k: nat)
    requires k < |ops| && context >= 0 && before == OldTo(ops, |ops|) && Follows(before, ops, context, firstLine, k)
    ensures Follows(before, ops, context, firstLine, k + 1)
  {
    if IsNear(ops, context, k) {
      OldToIsPrefix(ops, k, |ops|);
      HiddenLines(ops, context, k);
      ReadNextShown(before, ops, firstLine, k, ShownEnd(ops, context, k), Texts(ops, ShownEnd(ops, context, k), k));
      VisibleLineRead(before, ops, context, firstLine, k, ReaderAt(ops, ShownEnd(ops, context, k)));
    }
  }

  lemma {:induction false} ReadingFollowsScript(before: seq<Line>, ops: seq<Op>, context: int, firstLine: int, k: nat)
    requires context >= 0 && before == OldTo(ops, |ops|) && Follows(before, ops, context, firstLine, k)
    ensures Follows(before, ops, context, firstLine, |ops|)
    decreases |ops| - k
  {
    if k < |ops| {
      FollowsNext(before, ops, context, firstLine, k);
      ReadingFollowsScript(before, ops, context, firstLine, k + 1);
    }
  }

  lemma VisibleLineRead(before: seq<Line>, ops: seq<Op>, context: int, firstLine: int, k: nat, r: Reader)
    requires k < |ops| && IsNear(ops, context, k)
    requires ReadAll(before, firstLine, Visible(ops, context, firstLine, k)) == r
    ensures ReadAll(before, firstLine, Visible(ops, context, firstLine, k + 1)) == Read(before, firstLine, r, NumberedLine(ops, firstLine, k))
  {
    ReadShownLine(before, firstLine, Visible(ops, context, firstLine, k), k >= 1 && IsNear(ops, context, k - 1),
                  NumberedLine(ops, firstLine, k));
  }

  /** A mark makes no difference to the reader. */
  lemma ReadShownLine(before: seq<Line>, firstLine: int, shown: seq<DiffLine>, adjacent: bool, line: DiffLine)
    ensures ReadAll(before, firstLine, ShowLine(shown, adjacent, line)) == Read(before, firstLine, ReadAll(before, firstLine, shown), line)
  {
    var lines := ShowLine(shown, adjacent, line);
    ReadPrefix(before, firstLine, shown, lines, |shown|);
    if |lines| > |shown| + 1 {
      assert ReadTo(before, firstLine, lines, |shown| + 1) == ReadTo(before, firstLine, lines, |shown|);
    }
  }

  lemma {:induction false} ReadPrefix(before: seq<Line>, firstLine: int, lines: seq<DiffLine>, more: seq<DiffLine>, n: nat)
    requires n <= |lines| && lines <= more
    ensures ReadTo(before, firstLine, more, n) == ReadTo(before, firstLine, lines, n)
  {
    if n > 0 {
      ReadPrefix(before, firstLine, lines, more, n - 1);
    }
  }

  lemma ReadNextShown(before: seq<Line>, ops: seq<Op>, firstLine: int, k: nat, m: nat, gap: seq<Line>)
    requires m <= k < |ops| && OldTo(ops, k) <= before
    requires OldTo(ops, k) == OldTo(ops, m) + gap && NewTo(ops, k) == NewTo(ops, m) + gap
    ensures Read(before, firstLine, ReaderAt(ops, m), NumberedLine(ops, firstLine, k)) == ReaderAt(ops, k + 1)
  {
    ReadOp(before, firstLine, OldTo(ops, m), NewTo(ops, m), gap, ops[k]);
  }

  lemma ReadOp(before: seq<Line>, firstLine: int, oldDone: seq<Line>, newDone: seq<Line>, gap: seq<Line>, op: Op)
    requires oldDone + gap <= before
    ensures var oldNumber := if op.kind == Add then None else Some(firstLine + |oldDone + gap|);
            var newNumber := if op.kind == Remove then None else Some(firstLine + |newDone + gap|);
            Read(before, firstLine, Reader(|oldDone|, newDone), Shown(op.kind, op.text, oldNumber, newNumber))
            == Reader(if op.kind == Add then |oldDone + gap| else |oldDone + gap + [op.text]|,
                      if op.kind == Remove then newDone + gap else newDone + gap + [op.text])
  {
    GapOfPrefix(before, oldDone, gap);
    ReadAfterGap(before, firstLine, |oldDone|, newDone, gap, op.kind, op.text);
  }

  lemma GapOfPrefix(before: seq<Line>, done: seq<Line>, gap: seq<Line>)
    requires done + gap <= before
    ensures before[|done|..|done| + |gap|] == gap
  {}

  /** A line read after a gap copies the gap first. */
  lemma ReadAfterGap(before: seq<Line>, firstLine: int, cursor: nat, out: seq<Line>, gap: seq<Line>, kind: OpKind, text: Line)
    requires cursor + |gap| <= |before| && before[cursor..cursor + |gap|] == gap
    ensures var oldNumber := if kind == Add then None else Some(firstLine + cursor + |gap|);
            var newNumber := if kind == Remove then None else Some(firstLine + |out| + |gap|);
            Read(before, firstLine, Reader(cursor, out), Shown(kind, text, oldNumber, newNumber))
            == Reader(cursor + |gap| + (if kind == Add then 0 else 1), out + gap + (if kind == Remove then [] else [text]))
  {
    assert out + gap + [] == out + gap;
  }

  /** The shown lines alone turn the old text into the new one. */
  lemma VisibleRebuilds(ops: seq<Op>, context: int, firstLine: int)
    requires context >= 0
    ensures Rebuild(Old(ops), firstLine, Visible(ops, context, firstLine, |ops|)) == New(ops)
  {
    WholeSpells(ops);
    ReadingFollowsScript(Old(ops), ops, context, firstLine, 0);
    HiddenLines(ops, context, |ops|);
    GapOfPrefix(Old(ops), OldTo(ops, ShownEnd(ops, context, |ops|)), Texts(ops, ShownEnd(ops, context, |ops|), |ops|));
  }

  /** With a negative `context` nothing is shown at all. */
  lemma {:induction false} NegativeContextShowsNothing(ops: seq<Op>, context: int, firstLine: int, n: nat)
    requires n <= |ops| && context < 0
    ensures Visible(ops, context, firstLine, n) == []
  {
    if n > 0 {
      NegativeContextShowsNothing(ops, context, firstLine, n - 1);
    }
  }
}
