/**
 * The two-row edit distance behind command suggestions
 * (rust/crates/commands/src/lib.rs), and why it is a metric.
 */
module EditDistance {
  import opened Numbers
  import opened Text

  type Word = seq<char>

  /** The recurrence the rows hold, on prefixes of the two words. */
  function Distance(left: Word, right: Word, i: nat, j: nat): (d: nat)
    requires i <= |left| && j <= |right|
    decreases i + j
  {
    if i == 0 then j
    else if j == 0 then i
    else
      var substitution := if left[i - 1] == right[j - 1] then 0 else 1;
      Min(Min(Distance(left, right, i, j - 1) + 1, Distance(left, right, i - 1, j) + 1),
          Distance(left, right, i - 1, j - 1) + substitution)
  }

  function WordDistance(left: Word, right: Word): (d: nat) {
    Distance(left, right, |left|, |right|)
  }

  method LevenshteinDistance(left: Word, right: Word) returns (distance: nat)
    ensures distance == WordDistance(left, right)
  {
    if left == right {
      EqualWordsAreClose(left, |left|);
      return 0;
    }
    if left == [] {
      return |right|;
    }
    if right == [] {
      return |left|;
    }
    var previous := new nat[|right| + 1](j => j);
    var current := new nat[|right| + 1](_ => 0);
    for i := 0 to |left|
      invariant HoldsRow(previous, left, right, i)
    {
      NextRow(left, right, i, previous, current);
      CopyRow(current, previous);
    }
    return previous[|right|];
  }

  ghost predicate HoldsRow(row: array<nat>, left: Word, right: Word, i: nat)
    reads row
  {
    row.Length == |right| + 1 && i <= |left|
    && forall j {:trigger row[j]} :: 0 <= j <= |right| ==> row[j] == Distance(left, right, i, j)
  }

  method CopyRow(source: array<nat>, target: array<nat>)
    requires source.Length == target.Length && source != target
    modifies target
    ensures forall j {:trigger target[j]} :: 0 <= j < target.Length ==> target[j] == source[j]
  {
    forall j | 0 <= j < source.Length {
      target[j] := source[j];
    }
  }

  /** Fills `current` with row `i + 1` from `previous`, row `i`. */
  method NextRow(left: Word, right: Word, i: nat, previous: array<nat>, current: array<nat>)
    requires i < |left| && current.Length == |right| + 1 && previous != current
    requires HoldsRow(previous, left, right, i)
    modifies current
    ensures HoldsRow(current, left, right, i + 1)
  {
    current[0] := i + 1;
    for j := 0 to |right|
      invariant forall k {:trigger current[k]} :: 0 <= k <= j ==> current[k] == Distance(left, right, i + 1, k)
    {
      var substitution := if left[i] != right[j] then 1 else 0;
      DistanceRule(left, right, i, j);
      current[j + 1] := Min(Min(current[j] + 1, previous[j + 1] + 1), previous[j] + substitution);
    }
  }

  lemma DistanceRule(left: Word, right: Word, i: nat, j: nat)
    requires i < |left| && j < |right|
    ensures Distance(left, right, i + 1, j + 1) ==
            Min(Min(Distance(left, right, i + 1, j) + 1, Distance(left, right, i, j + 1) + 1),
                Distance(left, right, i, j) + if left[i] != right[j] then 1 else 0)
  {}

  lemma {:induction false} EqualWordsAreClose(word: Word, i: nat)
    requires i <= |word|
    ensures Distance(word, word, i, i) == 0
  {
    if i > 0 {
      EqualWordsAreClose(word, i - 1);
    }
  }

  // ----------------------------------------------------- single edits

  /** One single-character edit of a word; positions past the end leave it alone. */
  datatype Edit = Insert(at: nat, c: char) | Delete(at: nat) | Substitute(at: nat, c: char)

  function Apply(word: Word, e: Edit): (result: Word) {
    match e
    case Insert(at, c) => if at <= |word| then word[..at] + [c] + word[at..] else word
    case Delete(at) => if at < |word| then word[..at] + word[at + 1..] else word
    case Substitute(at, c) => if at < |word| then word[at := c] else word
  }

  function ApplyAll(word: Word, edits: seq<Edit>): (result: Word)
    decreases |edits|
  {
    if edits == [] then word else ApplyAll(Apply(word, edits[0]), edits[1..])
  }

  // -------------------------------------------------------- alignments

  /** One column of an alignment of two words. */
  datatype Column = Both(l: char, r: char) | OnlyLeft(l: char) | OnlyRight(r: char)

  datatype Alignment = Empty | Then(init: Alignment, last: Column)

  function LeftPart(c: Column): (part: Word) {
    if c.OnlyRight? then [] else [c.l]
  }

  function RightPart(c: Column): (part: Word) {
    if c.OnlyLeft? then [] else [c.r]
  }

  function ColumnCost(c: Column): (cost: nat) {
    if c.Both? && c.l == c.r then 0 else 1
  }

  function LeftWord(x: Alignment): (word: Word) {
    if x.Empty? then [] else LeftWord(x.init) + LeftPart(x.last)
  }

  function RightWord(x: Alignment): (word: Word) {
    if x.Empty? then [] else RightWord(x.init) + RightPart(x.last)
  }

  function Cost(x: Alignment): (cost: nat) {
    if x.Empty? then 0 else Cost(x.init) + ColumnCost(x.last)
  }

  ghost predicate Aligns(x: Alignment, left: Word, right: Word) {
    LeftWord(x) == left && RightWord(x) == right
  }

  /** The column a least cost comes from. */
  lemma LastColumn(left: Word, right: Word, i: nat, j: nat) returns (c: Column)
    requires i <= |left| && j <= |right| && i + j > 0
    ensures !c.OnlyRight? ==> i > 0 && left[i - 1] == c.l
    ensures !c.OnlyLeft? ==> j > 0 && right[j - 1] == c.r
    ensures |LeftPart(c)| + |RightPart(c)| > 0
    ensures Distance(left, right, i, j) == Distance(left, right, i - |LeftPart(c)|, j - |RightPart(c)|) + ColumnCost(c)
  {
    var d := Distance(left, right, i, j);
    if j > 0 && (i == 0 || d == Distance(left, right, i, j - 1) + 1) {
      c := OnlyRight(right[j - 1]);
    } else if i > 0 && (j == 0 || d == Distance(left, right, i - 1, j) + 1) {
      c := OnlyLeft(left[i - 1]);
    } else {
      c := Both(left[i - 1], right[j - 1]);
    }
  }

  lemma PrefixWith(word: Word, i: nat, part: Word)
    requires i <= |word| && |part| <= 1 && (part != [] ==> i > 0 && part[0] == word[i - 1])
    ensures word[..i] == word[..i - |part|] + part
  {}

  lemma AlignsNext(left: Word, right: Word, i: nat, j: nat, x: Alignment, c: Column)
    requires i <= |left| && (!c.OnlyRight? ==> i > 0 && left[i - 1] == c.l)
    requires j <= |right| && (!c.OnlyLeft? ==> j > 0 && right[j - 1] == c.r)
    requires Aligns(x, left[..i - |LeftPart(c)|], right[..j - |RightPart(c)|])
    ensures Aligns(Then(x, c), left[..i], right[..j]) && Cost(Then(x, c)) == Cost(x) + ColumnCost(c)
  {
    PrefixWith(left, i, LeftPart(c));
    PrefixWith(right, j, RightPart(c));
  }

  /** Some alignment costs exactly the distance. */
  lemma {:induction false} DistanceIsAttained(left: Word, right: Word, i: nat, j: nat) returns (x: Alignment)
    requires i <= |left| && j <= |right|
    ensures Aligns(x, left[..i], right[..j]) && Cost(x) == Distance(left, right, i, j)
    decreases i + j
  {
    if i + j == 0 {
      x := Empty;
    } else {
      var c := LastColumn(left, right, i, j);
      var init := DistanceIsAttained(left, right, i - |LeftPart(c)|, j - |RightPart(c)|);
      AlignsNext(left, right, i, j, init, c);
      x := Then(init, c);
    }
  }

  /** No alignment costs less than the distance. */
  lemma {:induction false} DistanceIsLeast(left: Word, right: Word, x: Alignment, i: nat, j: nat)
    requires i <= |left| && j <= |right| && Aligns(x, left[..i], right[..j])
    ensures Distance(left, right, i, j) <= Cost(x)
    decreases x
  {
    if x.Then? {
      PrefixWithout(left, i, LeftWord(x.init), LeftPart(x.last));
      PrefixWithout(right, j, RightWord(x.init), RightPart(x.last));
      DistanceIsLeast(left, right, x.init, i - |LeftPart(x.last)|, j - |RightPart(x.last)|);
      DistanceStep(left, right, i, j, x.last);
    }
  }

  lemma PrefixWithout(word: Word, i: nat, head: Word, part: Word)
    requires i <= |word| && |part| <= 1 && word[..i] == head + part
    ensures |part| <= i && word[..i - |part|] == head
    ensures part != [] ==> part[0] == word[i - 1]
  {
    assert head == word[..i][..|head|];
    assert part != [] ==> part[0] == word[..i][|head|];
  }

  lemma DistanceStep(left: Word, right: Word, i: nat, j: nat, c: Column)
    requires i <= |left| && j <= |right|
    requires !c.OnlyRight? ==> i > 0 && left[i - 1] == c.l
    requires !c.OnlyLeft? ==> j > 0 && right[j - 1] == c.r
    ensures Distance(left, right, i, j) <= Distance(left, right, i - |LeftPart(c)|, j - |RightPart(c)|) + ColumnCost(c)
  {}

  lemma Optimal(left: Word, right: Word) returns (x: Alignment)
    ensures Aligns(x, left, right) && Cost(x) == WordDistance(left, right)
  {
    x := DistanceIsAttained(left, right, |left|, |right|);
    assert left[..|left|] == left && right[..|right|] == right;
  }

  lemma CostsNoLess(x: Alignment)
    ensures WordDistance(LeftWord(x), RightWord(x)) <= Cost(x)
  {
    var left, right := LeftWord(x), RightWord(x);
    assert left[..|left|] == left && right[..|right|] == right;
    DistanceIsLeast(left, right, x, |left|, |right|);
  }

  // -------------------------------------------------------- the metric

  function Mirrored(x: Alignment): (y: Alignment) {
    match x
    case Empty => Empty
    case Then(init, Both(l, r)) => Then(Mirrored(init), Both(r, l))
    case Then(init, OnlyLeft(l)) => Then(Mirrored(init), OnlyRight(l))
    case Then(init, OnlyRight(r)) => Then(Mirrored(init), OnlyLeft(r))
  }

  lemma {:induction false} MirroredAligns(x: Alignment)
    ensures Aligns(Mirrored(x), RightWord(x), LeftWord(x)) && Cost(Mirrored(x)) == Cost(x)
  {
    if x.Then? {
      MirroredAligns(x.init);
    }
  }

  /** Two alignments that share their middle word, as one. */
  lemma {:induction false} Composed(x: Alignment, y: Alignment) returns (z: Alignment)
    requires RightWord(x) == LeftWord(y)
    ensures Aligns(z, LeftWord(x), RightWord(y)) && Cost(z) <= Cost(x) + Cost(y)
    decreases x, y
  {
    if x.Then? && x.last.OnlyLeft? {
      assert RightWord(x) == RightWord(x.init);
      z := Composed(x.init, y);
      z := Then(z, x.last);
    } else if y.Then? && y.last.OnlyRight? {
      assert LeftWord(y) == LeftWord(y.init);
      z := Composed(x, y.init);
      z := Then(z, y.last);
    } else if x.Empty? || y.Empty? {
      assert x.Then? ==> |RightWord(x)| > 0;
      assert y.Then? ==> |LeftWord(y)| > 0;
      z := Empty;
    } else {
      SameInit(RightWord(x.init), x.last.r, LeftWord(y.init), y.last.l);
      z := Composed(x.init, y.init);
      match (x.last, y.last) {
        case (Both(l, _), Both(_, r)) => z := Then(z, Both(l, r));
        case (Both(l, _), OnlyLeft(_)) => z := Then(z, OnlyLeft(l));
        case (OnlyRight(_), Both(_, r)) => z := Then(z, OnlyRight(r));
        case (OnlyRight(_), OnlyLeft(_)) =>
      }
    }
  }

  lemma SameInit(x: Word, c: char, y: Word, d: char)
    requires x + [c] == y + [d]
    ensures x == y && c == d
  {
    assert x == (x + [c])[..|x|] && y == (y + [d])[..|y|];
    assert (x + [c])[|x|] == c && (y + [d])[|y|] == d;
  }

  lemma {:induction false} FreeAlignmentIsEqual(x: Alignment)
    requires Cost(x) == 0
    ensures LeftWord(x) == RightWord(x)
  {
    if x.Then? {
      FreeAlignmentIsEqual(x.init);
    }
  }

  lemma ZeroOnlyWhenEqual(left: Word, right: Word)
    ensures WordDistance(left, right) == 0 <==> left == right
  {
    if WordDistance(left, right) == 0 {
      var x := Optimal(left, right);
      FreeAlignmentIsEqual(x);
    }
    if left == right {
      EqualWordsAreClose(left, |left|);
    }
  }

  lemma Symmetric(left: Word, right: Word)
    ensures WordDistance(left, right) == WordDistance(right, left)
  {
    var there := Optimal(left, right);
    var back := Optimal(right, left);
    MirroredAligns(there);
    MirroredAligns(back);
    CostsNoLess(Mirrored(there));
    CostsNoLess(Mirrored(back));
  }

  lemma TriangleInequality(a: Word, b: Word, c: Word)
    ensures WordDistance(a, c) <= WordDistance(a, b) + WordDistance(b, c)
  {
    var x := Optimal(a, b);
    var y := Optimal(b, c);
    var z := Composed(x, y);
    CostsNoLess(z);
  }

  // ------------------------------------------- least number of edits

  /** An alignment lengthened by a word that both sides share. */
  lemma {:induction false} SharedTail(x: Alignment, tail: Word, k: nat) returns (y: Alignment)
    requires k <= |tail|
    ensures Aligns(y, LeftWord(x) + tail[..k], RightWord(x) + tail[..k]) && Cost(y) == Cost(x)
  {
    if k == 0 {
      y := x;
    } else {
      y := SharedTail(x, tail, k - 1);
      y := Then(y, Both(tail[k - 1], tail[k - 1]));
      assert tail[..k] == tail[..k - 1] + [tail[k - 1]];
    }
  }

  /** Words that differ in one column at most are one apart. */
  lemma OneColumnIsClose(head: Word, c: Column, tail: Word)
    ensures WordDistance(head + LeftPart(c) + tail, head + RightPart(c) + tail) <= 1
  {
    var x := SharedTail(Empty, head, |head|);
    assert [] + head[..|head|] == head;
    var y := SharedTail(Then(x, c), tail, |tail|);
    assert tail[..|tail|] == tail;
    CostsNoLess(y);
  }

  /** What one edit does, as a column between what it leaves alone. */
  lemma ApplyAt(head: Word, c: char, tail: Word, d: char)
    ensures Apply(head + tail, Insert(|head|, c)) == head + [c] + tail
    ensures Apply(head + [c] + tail, Delete(|head|)) == head + tail
    ensures Apply(head + [c] + tail, Substitute(|head|, d)) == head + [d] + tail
  {
    assert (head + tail)[..|head|] == head && (head + tail)[|head|..] == tail;
    var word := head + [c] + tail;
    assert word[..|head|] == head && word[|head| + 1..] == tail;
  }

  lemma InsertIsClose(word: Word, at: nat, c: char)
    requires at <= |word|
    ensures WordDistance(word, word[..at] + [c] + word[at..]) <= 1
  {
    OneColumnIsClose(word[..at], OnlyRight(c), word[at..]);
    assert word == word[..at] + [] + word[at..];
  }

  lemma ChangeIsClose(word: Word, at: nat, c: Column)
    requires at < |word| && !c.OnlyRight? && c.l == word[at]
    ensures WordDistance(word, word[..at] + RightPart(c) + word[at + 1..]) <= 1
  {
    OneColumnIsClose(word[..at], c, word[at + 1..]);
    assert word == word[..at] + [word[at]] + word[at + 1..];
  }

  lemma OneEditIsClose(word: Word, e: Edit)
    ensures WordDistance(word, Apply(word, e)) <= 1
  {
    if e.at > |word| || (e.at == |word| && !e.Insert?) {
      ZeroOnlyWhenEqual(word, word);
    } else if e.Insert? {
      InsertIsClose(word, e.at, e.c);
    } else if e.Delete? {
      ChangeIsClose(word, e.at, OnlyLeft(word[e.at]));
      assert word[..e.at] + [] == word[..e.at];
    } else {
      ChangeIsClose(word, e.at, Both(word[e.at], e.c));
      assert word[e.at := e.c] == word[..e.at] + [e.c] + word[e.at + 1..];
    }
  }

  /** No sequence of single-character edits is shorter than the distance. */
  lemma {:induction false} EditsAtLeast(word: Word, edits: seq<Edit>)
    ensures WordDistance(word, ApplyAll(word, edits)) <= |edits|
    decreases |edits|
  {
    if edits == [] {
      ZeroOnlyWhenEqual(word, word);
    } else {
      var next := Apply(word, edits[0]);
      OneEditIsClose(word, edits[0]);
      EditsAtLeast(next, edits[1..]);
      TriangleInequality(word, next, ApplyAll(next, edits[1..]));
    }
  }

  ghost predicate Reaches(left: Word, edits: seq<Edit>, right: Word) {
    ApplyAll(left, edits) == right
  }

  lemma FirstEdit(word: Word, e: Edit, rest: seq<Edit>, end: Word)
    requires Reaches(Apply(word, e), rest, end)
    ensures Reaches(word, [e] + rest, end)
  {
    assert ([e] + rest)[1..] == rest;
  }

  /** The edits for one column, where `head` is left of it and `tail` right of it. */
  lemma ColumnEdit(head: Word, c: Column, tail: Word, rest: seq<Edit>, end: Word) returns (edits: seq<Edit>)
    requires Reaches(head + RightPart(c) + tail, rest, end)
    ensures Reaches(head + LeftPart(c) + tail, edits, end) && |edits| == |rest| + ColumnCost(c)
  {
    match c {
      case Both(l, r) =>
        if l == r {
          edits := rest;
        } else {
          ApplyAt(head, l, tail, r);
          FirstEdit(head + [l] + tail, Substitute(|head|, r), rest, end);
          edits := [Substitute(|head|, r)] + rest;
        }
      case OnlyLeft(l) =>
        ApplyAt(head, l, tail, l);
        assert head + [] == head;
        FirstEdit(head + [l] + tail, Delete(|head|), rest, end);
        edits := [Delete(|head|)] + rest;
      case OnlyRight(r) =>
        ApplyAt(head, r, tail, r);
        assert head + [] == head;
        FirstEdit(head + tail, Insert(|head|, r), rest, end);
        edits := [Insert(|head|, r)] + rest;
    }
  }

  /** An alignment's edits, made from its last column on: as many as it costs. */
  lemma {:induction false} EditsOfAlignment(x: Alignment, tail: Word) returns (edits: seq<Edit>)
    ensures Reaches(LeftWord(x) + tail, edits, RightWord(x) + tail) && |edits| == Cost(x)
  {
    if x.Empty? {
      edits := [];
    } else {
      var c := x.last;
      var rest := EditsOfAlignment(x.init, RightPart(c) + tail);
      Regroup(LeftWord(x.init), RightPart(c), tail);
      Regroup(RightWord(x.init), RightPart(c), tail);
      edits := ColumnEdit(LeftWord(x.init), c, tail, rest, RightWord(x) + tail);
    }
  }

  /** The distance is the least number of insertions, deletions and substitutions between the words. */
  lemma DistanceIsLeastEdits(left: Word, right: Word) returns (edits: seq<Edit>)
    ensures Reaches(left, edits, right) && |edits| == WordDistance(left, right)
    ensures forall other :: Reaches(left, other, right) ==> |edits| <= |other|
  {
    var x := Optimal(left, right);
    edits := EditsOfAlignment(x, []);
    assert left + [] == left && right + [] == right;
    forall other | Reaches(left, other, right)
      ensures WordDistance(left, right) <= |other|
    {
      EditsAtLeast(left, other);
    }
  }
}
