/**
 * Longest common subsequences of lines, and the edit scripts a line diff is
 * made of. A script is optimal when no other script between the same two texts
 * changes fewer lines.
 */
module LineScript {
  import opened Numbers

  type Line = string

  // ------------------------------------------------- common subsequences

  predicate IsSubsequence(c: seq<Line>, a: seq<Line>) {
    c == [] ||
    (a != [] && ((c[0] == a[0] && IsSubsequence(c[1..], a[1..])) || IsSubsequence(c, a[1..])))
  }

  function Lcs(a: seq<Line>, b: seq<Line>): (n: nat)
    decreases |a| + |b|
  {
    if a == [] || b == [] then 0
    else if a[0] == b[0] then 1 + Lcs(a[1..], b[1..])
    else Max(Lcs(a[1..], b), Lcs(a, b[1..]))
  }

  lemma {:induction false} SubsequenceTail(c: seq<Line>, a: seq<Line>)
    requires c != [] && IsSubsequence(c, a)
    ensures a != [] && IsSubsequence(c[1..], a[1..])
  {
    if !(c[0] == a[0] && IsSubsequence(c[1..], a[1..])) {
      SubsequenceTail(c, a[1..]);
      SubsequenceWider(c[1..], a[1..]);
    }
  }

  lemma SubsequenceWider(c: seq<Line>, a: seq<Line>)
    requires a != [] && IsSubsequence(c, a[1..])
    ensures IsSubsequence(c, a)
  {}

  /** No common subsequence is longer than `Lcs`. */
  lemma {:induction false} LcsIsUpperBound(c: seq<Line>, a: seq<Line>, b: seq<Line>)
    requires IsSubsequence(c, a) && IsSubsequence(c, b)
    ensures |c| <= Lcs(a, b)
    decreases |a| + |b|
  {
    if c != [] {
      if a[0] == b[0] {
        SubsequenceTail(c, a);
        SubsequenceTail(c, b);
        LcsIsUpperBound(c[1..], a[1..], b[1..]);
      } else if c[0] != a[0] {
        LcsIsUpperBound(c, a[1..], b);
      } else {
        LcsIsUpperBound(c, a, b[1..]);
      }
    }
  }

  /** Some common subsequence is as long as `Lcs`. */
  lemma {:induction false} LcsIsAttained(a: seq<Line>, b: seq<Line>) returns (c: seq<Line>)
    ensures IsSubsequence(c, a) && IsSubsequence(c, b) && |c| == Lcs(a, b)
    decreases |a| + |b|
  {
    if a == [] || b == [] {
      c := [];
    } else if a[0] == b[0] {
      c := LcsIsAttained(a[1..], b[1..]);
      var whole := [a[0]] + c;
      assert whole[1..] == c;
      c := whole;
    } else if Lcs(a[1..], b) >= Lcs(a, b[1..]) {
      c := LcsIsAttained(a[1..], b);
      SubsequenceWider(c, a);
    } else {
      c := LcsIsAttained(a, b[1..]);
      SubsequenceWider(c, b);
    }
  }

  /** Dropping one first line loses at most one common line. */
  lemma {:induction false} LcsStep(a: seq<Line>, b: seq<Line>)
    ensures a != [] ==> Lcs(a[1..], b) <= Lcs(a, b) <= Lcs(a[1..], b) + 1
    ensures b != [] ==> Lcs(a, b[1..]) <= Lcs(a, b) <= Lcs(a, b[1..]) + 1
    decreases |a| + |b|
  {
    if a != [] && b != [] {
      LcsStep(a[1..], b);
      LcsStep(a, b[1..]);
    }
  }

  lemma {:induction false} LcsCommonPrefix(p: seq<Line>, a: seq<Line>, b: seq<Line>)
    ensures Lcs(p + a, p + b) == |p| + Lcs(a, b)
  {
    if p == [] {
      assert p + a == a && p + b == b;
    } else {
      assert (p + a)[1..] == p[1..] + a && (p + b)[1..] == p[1..] + b;
      LcsCommonPrefix(p[1..], a, b);
    }
  }

  lemma {:induction false} LcsCommonLastLine(a: seq<Line>, b: seq<Line>, x: Line)
    ensures Lcs(a + [x], b + [x]) == Lcs(a, b) + 1
    decreases |a| + |b|
  {
    if a != [] {
      assert (a + [x])[1..] == a[1..] + [x];
    }
    if b != [] {
      assert (b + [x])[1..] == b[1..] + [x];
    }
    if a != [] && b != [] && a[0] == b[0] {
      LcsCommonLastLine(a[1..], b[1..], x);
    } else {
      if a != [] {
        LcsCommonLastLine(a[1..], b, x);
      }
      if b != [] {
        LcsCommonLastLine(a, b[1..], x);
      }
    }
  }

  lemma {:induction false} LcsCommonSuffix(a: seq<Line>, b: seq<Line>, s: seq<Line>)
    ensures Lcs(a + s, b + s) == Lcs(a, b) + |s|
    decreases |s|
  {
    if s == [] {
      assert a + s == a && b + s == b;
    } else {
      LcsCommonLastLine(a, b, s[0]);
      LcsCommonSuffix(a + [s[0]], b + [s[0]], s[1..]);
      assert a + [s[0]] + s[1..] == a + s && b + [s[0]] + s[1..] == b + s;
    }
  }

  // -------------------------------------------------------- edit scripts

  datatype OpKind = Context | Add | Remove

  datatype Op = Op(kind: OpKind, text: Line)

  /** The text a script starts from: its context and removed lines. */
  function Old(ops: seq<Op>): (lines: seq<Line>) {
    if ops == [] then []
    else if ops[0].kind == Add then Old(ops[1..])
    else [ops[0].text] + Old(ops[1..])
  }

  /** The text a script leads to: its context and added lines. */
  function New(ops: seq<Op>): (lines: seq<Line>) {
    if ops == [] then []
    else if ops[0].kind == Remove then New(ops[1..])
    else [ops[0].text] + New(ops[1..])
  }

  /** The script's number of lines of one kind. */
  function Count(ops: seq<Op>, kind: OpKind): (n: nat) {
    if ops == [] then 0 else (if ops[0].kind == kind then 1 else 0) + Count(ops[1..], kind)
  }

  function Changes(ops: seq<Op>): (n: nat) {
    Count(ops, Add) + Count(ops, Remove)
  }

  ghost predicate IsScript(ops: seq<Op>, a: seq<Line>, b: seq<Line>) {
    Old(ops) == a && New(ops) == b
  }

  ghost predicate IsShortestScript(ops: seq<Op>, a: seq<Line>, b: seq<Line>) {
    IsScript(ops, a, b) && forall other :: IsScript(other, a, b) ==> Changes(ops) <= Changes(other)
  }

  /** No removed line comes right after an added one. */
  ghost predicate RemovalsFirst(ops: seq<Op>) {
    forall i {:trigger ops[i]} :: 0 < i < |ops| && ops[i].kind == Remove ==> ops[i - 1].kind != Add
  }

  function Tagged(kind: OpKind, lines: seq<Line>): (ops: seq<Op>)
    ensures |ops| == |lines|
    ensures forall i :: 0 <= i < |lines| ==> ops[i] == Op(kind, lines[i])
  {
    seq(|lines|, i requires 0 <= i < |lines| => Op(kind, lines[i]))
  }

  lemma {:induction false} TaggedSpells(kind: OpKind, lines: seq<Line>)
    ensures var ops := Tagged(kind, lines);
            && Old(ops) == (if kind == Add then [] else lines)
            && New(ops) == (if kind == Remove then [] else lines)
            && forall k :: Count(ops, k) == if k == kind then |lines| else 0
  {
    if lines != [] {
      assert Tagged(kind, lines)[1..] == Tagged(kind, lines[1..]);
      TaggedSpells(kind, lines[1..]);
    }
  }

  lemma {:induction false} ScriptAppend(x: seq<Op>, y: seq<Op>)
    ensures Old(x + y) == Old(x) + Old(y)
    ensures New(x + y) == New(x) + New(y)
    ensures forall k :: Count(x + y, k) == Count(x, k) + Count(y, k)
  {
    if x == [] {
      assert x + y == y;
    } else {
      assert (x + y)[1..] == x[1..] + y;
      ScriptAppend(x[1..], y);
    }
  }

  lemma {:induction false} ScriptLengths(ops: seq<Op>)
    ensures |Old(ops)| == Count(ops, Context) + Count(ops, Remove)
    ensures |New(ops)| == Count(ops, Context) + Count(ops, Add)
  {
    if ops != [] {
      ScriptLengths(ops[1..]);
    }
  }

  /** No script changes fewer lines than the longest common subsequence leaves over. */
  lemma {:induction false} ChangesAtLeast(ops: seq<Op>)
    ensures Changes(ops) >= |Old(ops)| + |New(ops)| - 2 * Lcs(Old(ops), New(ops))
  {
    if ops != [] {
      ChangesAtLeast(ops[1..]);
      LcsStep(Old(ops), New(ops));
    }
  }

  /** The walk along the LCS table: equal heads are context, and a removal wins a tie. */
  function Walk(a: seq<Line>, b: seq<Line>): (ops: seq<Op>)
    decreases |a| + |b|
  {
    if a == [] && b == [] then []
    else if a != [] && b != [] && a[0] == b[0] then [Op(Context, a[0])] + Walk(a[1..], b[1..])
    else if a != [] && (b == [] || Lcs(a[1..], b) >= Lcs(a, b[1..])) then [Op(Remove, a[0])] + Walk(a[1..], b)
    else [Op(Add, b[0])] + Walk(a, b[1..])
  }

  lemma {:induction false} WalkIsShortest(a: seq<Line>, b: seq<Line>)
    ensures IsScript(Walk(a, b), a, b)
    ensures Changes(Walk(a, b)) == |a| + |b| - 2 * Lcs(a, b)
    decreases |a| + |b|
  {
    if a == [] && b == [] {
    } else if a != [] && b != [] && a[0] == b[0] {
      WalkIsShortest(a[1..], b[1..]);
    } else if a != [] && (b == [] || Lcs(a[1..], b) >= Lcs(a, b[1..])) {
      WalkIsShortest(a[1..], b);
    } else {
      WalkIsShortest(a, b[1..]);
    }
  }

  lemma {:induction false} WalkRemovesFirst(a: seq<Line>, b: seq<Line>)
    ensures RemovalsFirst(Walk(a, b))
    decreases |a| + |b|
  {
    if a == [] && b == [] {
    } else if a != [] && b != [] && a[0] == b[0] {
      WalkRemovesFirst(a[1..], b[1..]);
    } else if a != [] && (b == [] || Lcs(a[1..], b) >= Lcs(a, b[1..])) {
      WalkRemovesFirst(a[1..], b);
    } else {
      var rest := Walk(a, b[1..]);
      WalkRemovesFirst(a, b[1..]);
      if a != [] && rest != [] && rest[0].kind == Remove {
        // A removal here would have been at least as good one step earlier.
        LcsStep(a[1..], b);
        assert false;
      }
    }
  }

  /** The cells of a small enough table fit the 32 bits the code stores them in. */
  lemma {:induction false} LcsFitsTable(a: seq<Line>, b: seq<Line>)
    ensures Lcs(a, b) <= |a| && Lcs(a, b) <= |b|
    decreases |a| + |b|
  {
    if a != [] && b != [] {
      LcsFitsTable(a[1..], b);
      LcsFitsTable(a, b[1..]);
      if a[0] == b[0] {
        LcsFitsTable(a[1..], b[1..]);
      }
    }
  }
}
