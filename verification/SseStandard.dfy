/**
 * The data of a frame as the WHATWG HTML Living Standard reads it, and exactly
 * when the parser, which trims the frame first, reads the same.
 */
module SseStandard {
  import opened Wrappers
  import opened Text
  import opened SseParsing
  import opened SseFields

  // --------------------------------------------------------------- one frame

  /** A text that neither starts nor ends in white space. */
  predicate IsSolid(s: string) {
    s != "" && !IsSpace(s[0]) && !IsSpace(s[|s| - 1])
  }

  lemma {:induction false} TrimStartParts(s: string) returns (lead: string)
    ensures s == lead + TrimStart(IsSpace, s) && IsBlank(lead)
  {
    if s != "" && IsSpace(s[0]) {
      lead := TrimStartParts(s[1..]);
      assert s == [s[0]] + s[1..];
      lead := [s[0]] + lead;
    } else {
      lead := "";
    }
  }

  lemma {:induction false} TrimEndParts(s: string) returns (trail: string)
    ensures s == TrimEnd(IsSpace, s) + trail && IsBlank(trail)
    ensures var r := TrimEnd(IsSpace, s); r == "" || !IsSpace(r[|r| - 1])
  {
    if s != "" && IsSpace(s[|s| - 1]) {
      trail := TrimEndParts(s[..|s| - 1]);
      assert s == s[..|s| - 1] + [s[|s| - 1]];
      trail := trail + [s[|s| - 1]];
    } else {
      trail := "";
    }
  }

  /** A frame is white space, or a solid text between white space. */
  lemma FrameParts(frame: string) returns (lead: string, trail: string)
    ensures frame == lead + Trim(frame) + trail && IsBlank(lead) && IsBlank(trail)
    ensures Trim(frame) == "" || IsSolid(Trim(frame))
  {
    lead := TrimStartParts(frame);
    var rest := TrimStart(IsSpace, frame);
    TrimmedStart(frame);
    trail := TrimEndParts(rest);
    var core := TrimEnd(IsSpace, rest);
    assert frame == lead + core + trail;
    assert core != "" ==> core[0] == rest[0];
  }

  lemma {:induction false} TrimEndBefore(s: string, tail: string)
    requires IsBlank(tail) && (s == "" || !IsSpace(s[|s| - 1]))
    ensures TrimEnd(IsSpace, s + tail) == s
  {
    if tail == "" {
      assert s + tail == s;
    } else {
      var n := |tail| - 1;
      assert (s + tail)[..|s + tail| - 1] == s + tail[..n] && (s + tail)[|s + tail| - 1] == tail[n];
      TrimEndBefore(s, tail[..n]);
    }
  }

  lemma {:induction false} TrimStartAfter(lead: string, s: string)
    requires IsBlank(lead) && (s == "" || !IsSpace(s[0]))
    ensures TrimStart(IsSpace, lead + s) == s
  {
    if lead == "" {
      assert lead + s == s;
    } else {
      assert (lead + s)[1..] == lead[1..] + s;
      TrimStartAfter(lead[1..], s);
    }
  }

  lemma TrimOfParts(lead: string, core: string, trail: string)
    requires IsBlank(lead) && IsBlank(trail) && IsSolid(core)
    ensures Trim(lead + core + trail) == core
  {
    assert lead + core + trail == lead + (core + trail);
    TrimStartAfter(lead, core + trail);
    TrimEndBefore(core, trail);
  }

  lemma {:induction false} BlankLines(s: string)
    requires IsBlank(s)
    ensures forall i :: 0 <= i < |SplitLf(s)| ==> IsBlank(SplitLf(s)[i])
  {
    if s != "" {
      BlankLines(s[1..]);
    }
  }

  /** The lines of a solid text with what stands before the first and behind the last. */
  function Padded(lines: seq<string>, indent: string, tail: string): (r: seq<string>)
    ensures |r| == |lines|
  {
    seq(|lines|, i requires 0 <= i < |lines| =>
      (if i == 0 then indent else "") + lines[i] + (if i == |lines| - 1 then tail else ""))
  }

  lemma PaddedIs(lines: seq<string>, indent: string, tail: string)
    requires lines != []
    ensures Padded(lines, indent, tail)
            == if |lines| == 1 then [indent + lines[0] + tail]
               else [indent + lines[0]] + lines[1..|lines| - 1] + [Last(lines) + tail]
  {
    assert forall i :: 0 < i < |lines| - 1 ==> "" + lines[i] + "" == lines[i];
    assert |lines| > 1 ==> indent + lines[0] + "" == indent + lines[0] && "" + Last(lines) + tail == Last(lines) + tail;
  }

  lemma LinesWithLead(lead: string, core: string)
    ensures SplitLf(lead + core) == Init(SplitLf(lead)) + ([Last(SplitLf(lead)) + SplitLf(core)[0]] + SplitLf(core)[1..])
  {
    SplitLfLines(lead);
    SplitLfAppend(lead, core);
    SplitLfPrefix(Last(SplitLf(lead)), core);
  }

  lemma LinesWithTrail(s: string, trail: string)
    ensures SplitLf(s + trail) == Init(SplitLf(s)) + ([Last(SplitLf(s)) + SplitLf(trail)[0]] + SplitLf(trail)[1..])
  {
    SplitLfLines(s);
    SplitLfAppend(s, trail);
    SplitLfPrefix(Last(SplitLf(s)), trail);
  }

  lemma BothEnds(before: seq<string>, lines: seq<string>, indent: string, tail: string, after: seq<string>)
    requires lines != []
    ensures var first := before + ([indent + lines[0]] + lines[1..]);
            Init(first) + ([Last(first) + tail] + after) == before + Padded(lines, indent, tail) + after
  {
    var first := [indent + lines[0]] + lines[1..];
    PaddedIs(lines, indent, tail);
    assert Init(first) + [Last(first) + tail] == Padded(lines, indent, tail);
    assert Init(before + first) == before + Init(first) && Last(before + first) == Last(first);
  }

  lemma LinesOfFrame(lead: string, core: string, trail: string)
    ensures SplitLf(lead + core + trail)
            == Init(SplitLf(lead)) + Padded(SplitLf(core), Last(SplitLf(lead)), SplitLf(trail)[0]) + SplitLf(trail)[1..]
  {
    LinesWithLead(lead, core);
    LinesWithTrail(lead + core, trail);
    BothEnds(Init(SplitLf(lead)), SplitLf(core), Last(SplitLf(lead)), SplitLf(trail)[0], SplitLf(trail)[1..]);
  }

  lemma {:induction false} SolidLines(core: string)
    requires core != ""
    ensures !IsSpace(core[0]) ==> SplitLf(core)[0] != "" && SplitLf(core)[0][0] == core[0]
    ensures var last := Last(SplitLf(core)); !IsSpace(core[|core| - 1]) ==> last != "" && last[|last| - 1] == core[|core| - 1]
  {
    if |core| > 1 {
      SolidLines(core[1..]);
    }
  }

  /** The parser's lines of a solid text without carriage returns are its lines. */
  lemma LinesOfSolid(core: string)
    requires IsSolid(core) && '\r' !in core
    ensures Lines(core) == SplitLf(core)
  {
    SolidLines(core);
    NoCrInLines(core);
    var parts := SplitLf(core);
    assert WithoutCrs(Init(parts)) == Init(parts);
  }

  lemma {:induction false} NoCrInLines(s: string)
    requires '\r' !in s
    ensures forall i :: 0 <= i < |SplitLf(s)| ==> '\r' !in SplitLf(s)[i]
  {
    if s != "" {
      NoCrInLines(s[1..]);
    }
  }

  // --------------------------------------------------------- the conditions

  /** The first line that is not blank. */
  ghost predicate IsFirstText(lines: seq<string>, i: int) {
    0 <= i < |lines| && !IsBlank(lines[i]) && forall j :: 0 <= j < i ==> IsBlank(lines[j])
  }

  ghost predicate IsLastText(lines: seq<string>, i: int) {
    0 <= i < |lines| && !IsBlank(lines[i]) && forall j :: i < j < |lines| ==> IsBlank(lines[j])
  }

  predicate IsIndentedData(line: string) {
    line != "" && IsSpace(line[0]) && StartsWith(TrimStart(IsSpace, line), "data:")
  }

  /** The first line that is not blank is a data field but for the white space before it. */
  ghost predicate StartsIndented(lines: seq<string>) {
    exists i :: IsFirstText(lines, i) && IsIndentedData(lines[i])
  }

  ghost predicate AllReadAlike(lines: seq<string>) {
    forall i :: 0 <= i < |lines| && FieldName(lines[i]) == "data" ==> IsReadAlike(lines[i])
  }

  predicate LosesItsEnd(line: string) {
    FieldName(line) == "data" && !KeepsItsEnd(FieldValue(line))
  }

  /** The last line that is not blank is a data field whose value ends in white space. */
  ghost predicate EndsInSpace(lines: seq<string>) {
    exists i :: IsLastText(lines, i) && LosesItsEnd(lines[i])
  }

  ghost predicate ReadsAsStandard(lines: seq<string>) {
    !StartsIndented(lines) && AllReadAlike(lines) && !EndsInSpace(lines)
  }

  // ------------------------------------------- the conditions on the lines

  /** What the white space in front of and behind a solid text's lines may be. */
  ghost predicate Surrounds(before: seq<string>, indent: string, lines: seq<string>, tail: string, after: seq<string>) {
    && (forall i :: 0 <= i < |before| ==> IsBlank(before[i]))
    && (forall i :: 0 <= i < |after| ==> IsBlank(after[i]))
    && IsBlank(indent) && IsBlank(tail)
    && lines != []
    && lines[0] != "" && !IsSpace(lines[0][0])
    && Last(lines) != "" && !IsSpace(Last(lines)[|Last(lines)| - 1])
  }

  /** Blank lines hold no data. */
  lemma ValuesBetween(before: seq<string>, middle: seq<string>, after: seq<string>)
    requires forall i :: 0 <= i < |before| ==> IsBlank(before[i])
    requires forall i :: 0 <= i < |after| ==> IsBlank(after[i])
    ensures var all := before + middle + after;
            Values(all, StandardValue, |all|) == Values(middle, StandardValue, |middle|)
  {
    BlankHasNoValues(before, |before|);
    BlankHasNoValues(after, |after|);
    ValuesOfMore(before, middle, StandardValue, |middle|);
    ValuesOfMore(before + middle, after, StandardValue, |after|);
  }

  lemma BlankIsNoField(line: string)
    requires IsBlank(line)
    ensures FieldName(line) != "data"
  {
    if line != "" {
      IndentedIsNoField(line);
    }
  }

  lemma PaddedAt(lines: seq<string>, indent: string, tail: string, i: nat)
    requires i < |lines|
    ensures var line := Padded(lines, indent, tail)[i];
            && (0 < i < |lines| - 1 ==> line == lines[i])
            && (0 < i == |lines| - 1 ==> line == lines[i] + tail)
            && (i == 0 < |lines| - 1 ==> line == indent + lines[i])
            && (i == 0 == |lines| - 1 ==> line == indent + (lines[i] + tail))
  {}

  /** The first and the last line of the solid text are the first and the last that are not blank. */
  lemma TextLines(before: seq<string>, indent: string, lines: seq<string>, tail: string, after: seq<string>)
    requires Surrounds(before, indent, lines, tail, after)
    ensures var all := before + Padded(lines, indent, tail) + after;
            && (forall i :: IsFirstText(all, i) <==> i == |before|)
            && (forall i :: IsLastText(all, i) <==> i == |before| + |lines| - 1)
  {
    var middle := Padded(lines, indent, tail);
    var all := before + middle + after;
    NotBlankAround(lines, indent, tail);
    assert all[|before|] == middle[0] && all[|before| + |lines| - 1] == Last(middle);
    forall i | 0 <= i < |before|
      ensures IsBlank(all[i])
    {
      assert all[i] == before[i];
    }
    forall i | |before| + |lines| <= i < |all|
      ensures IsBlank(all[i])
    {
      assert all[i] == after[i - |before| - |lines|];
    }
  }

  lemma NotBlankAround(lines: seq<string>, indent: string, tail: string)
    requires lines != [] && lines[0] != "" && !IsSpace(lines[0][0])
    requires Last(lines) != "" && !IsSpace(Last(lines)[|Last(lines)| - 1])
    ensures var middle := Padded(lines, indent, tail);
            !IsBlank(middle[0]) && !IsBlank(Last(middle))
  {
    var middle := Padded(lines, indent, tail);
    PaddedAt(lines, indent, tail, 0);
    PaddedAt(lines, indent, tail, |lines| - 1);
    assert middle[0][|indent|] == lines[0][0];
    var last := Last(lines);
    if |lines| > 1 {
      assert Last(middle)[|last| - 1] == last[|last| - 1];
    }
  }

  /** The conditions on all lines are conditions on those of the solid text. */
  lemma ConditionsOnText(before: seq<string>, indent: string, lines: seq<string>, tail: string, after: seq<string>)
    requires Surrounds(before, indent, lines, tail, after)
    ensures var middle := Padded(lines, indent, tail);
            var all := before + middle + after;
            && (StartsIndented(all) <==> IsIndentedData(middle[0]))
            && (EndsInSpace(all) <==> LosesItsEnd(Last(middle)))
            && (AllReadAlike(all) <==> AllReadAlike(middle))
  {
    var middle := Padded(lines, indent, tail);
    var all := before + middle + after;
    TextLines(before, indent, lines, tail, after);
    assert all[|before|] == middle[0] && all[|before| + |lines| - 1] == Last(middle);
    assert IsFirstText(all, |before|) && IsLastText(all, |before| + |lines| - 1);
    AlikeBetween(before, middle, after);
  }

  lemma AlikeBetween(before: seq<string>, middle: seq<string>, after: seq<string>)
    requires forall i :: 0 <= i < |before| ==> IsBlank(before[i])
    requires forall i :: 0 <= i < |after| ==> IsBlank(after[i])
    ensures AllReadAlike(before + middle + after) <==> AllReadAlike(middle)
  {
    var all := before + middle + after;
    assert forall i {:trigger middle[i]} :: 0 <= i < |middle| ==> middle[i] == all[|before| + i];
    forall i | 0 <= i < |all| && FieldName(all[i]) == "data"
      ensures |before| <= i < |before| + |middle| && all[i] == middle[i - |before|]
    {
      if i < |before| {
        BlankIsNoField(before[i]);
      } else if i >= |before| + |middle| {
        BlankIsNoField(after[i - |before| - |middle|]);
      }
    }
  }

  // ------------------------------------------------------------ line by line

  /** A line's place in the text: whether white space stands before it, and what was cut from behind it. */
  lemma IndentedLine(indent: string, line: string)
    requires IsBlank(indent) && line != "" && !IsSpace(line[0])
    ensures IsIndentedData(indent + line) <==> indent != "" && StartsWith(line, "data:")
    ensures indent != "" ==> StandardValue(indent + line).None?
  {
    TrimStartAfter(indent, line);
    if indent != "" {
      assert (indent + line)[0] == indent[0];
      IndentedIsNoField(indent + line);
    } else {
      assert indent + line == line;
    }
  }

  /** The end of a field's value is the end of its line. */
  lemma EndOfValue(line: string)
    requires line != "" && !IsSpace(line[|line| - 1])
    ensures KeepsItsEnd(FieldValue(line))
  {
    var value := FieldValue(line);
    assert value != "" ==> value[|value| - 1] == line[|line| - 1];
  }

  /** Line `i` is read alike by both exactly when the conditions hold of it. */
  ghost predicate HoldsAt(middle: seq<string>, i: nat)
    requires i < |middle|
  {
    && (FieldName(middle[i]) == "data" ==> IsReadAlike(middle[i]))
    && (i == 0 ==> !IsIndentedData(middle[i]))
    && (i == |middle| - 1 ==> !LosesItsEnd(middle[i]))
  }

  lemma LineReadAlike(lines: seq<string>, indent: string, tail: string, i: nat)
    requires Surrounds([], indent, lines, tail, []) && i < |lines|
    ensures var line := Padded(lines, indent, tail)[i];
            && (ParserValue(lines[i]) == StandardValue(line) <==> HoldsAt(Padded(lines, indent, tail), i))
            && (ParserValue(lines[i]).Some? && StandardValue(line).None? ==> IsIndentedData(line) && i == 0)
            && (StandardValue(line).Some? && line != "data" ==> ParserValue(lines[i]).Some?)
            && (IsIndentedData(line) && i == 0 ==> ParserValue(lines[i]).Some? && StandardValue(line).None?)
  {
    var line := Padded(lines, indent, tail)[i];
    var cut := if i == |lines| - 1 then tail else "";
    PaddedAt(lines, indent, tail, i);
    assert lines[i] + "" == lines[i];
    assert i > 0 ==> line == lines[i] + cut;
    ValueOfLine(lines[i], cut);
    if i == 0 {
      assert line == indent + (lines[i] + cut);
      assert (lines[0] + cut)[0] == lines[0][0];
      IndentedLine(indent, lines[0] + cut);
      PrefixIsInLine(lines[0], cut);
      if indent == "" {
        assert line == lines[0] + cut;
      }
    }
    if i == |lines| - 1 && tail == "" {
      EndOfValue(lines[i]);
    }
  }

  // -------------------------------------------------------------- the theorem

  lemma AllHold(middle: seq<string>)
    requires middle != []
    ensures (forall i :: 0 <= i < |middle| ==> HoldsAt(middle, i))
            <==> !IsIndentedData(middle[0]) && AllReadAlike(middle) && !LosesItsEnd(Last(middle))
  {
    if forall i :: 0 <= i < |middle| ==> HoldsAt(middle, i) {
      assert HoldsAt(middle, 0) && HoldsAt(middle, |middle| - 1);
      forall i | 0 <= i < |middle| && FieldName(middle[i]) == "data"
        ensures IsReadAlike(middle[i])
      {
        assert HoldsAt(middle, i);
      }
    }
    if !IsIndentedData(middle[0]) && AllReadAlike(middle) && !LosesItsEnd(Last(middle)) {
      forall i | 0 <= i < |middle|
        ensures HoldsAt(middle, i)
      {
        assert FieldName(middle[i]) == "data" ==> IsReadAlike(middle[i]);
      }
    }
  }

  /** The lines of a solid text and the same lines with white space around them give the same data. */
  lemma LinesReadAlike(lines: seq<string>, indent: string, tail: string)
    requires Surrounds([], indent, lines, tail, [])
    requires var middle := Padded(lines, indent, tail); !IsIndentedData(middle[0]) || "data" !in middle
    ensures var middle := Padded(lines, indent, tail);
            Values(lines, ParserValue, |lines|) == Values(middle, StandardValue, |middle|)
            <==> !IsIndentedData(middle[0]) && AllReadAlike(middle) && !LosesItsEnd(Last(middle))
  {
    var middle := Padded(lines, indent, tail);
    forall i | 0 <= i < |lines|
      ensures ParserValue(lines[i]) == StandardValue(middle[i]) <==> HoldsAt(middle, i)
      ensures ParserValue(lines[i]).Some? && StandardValue(middle[i]).None? ==> IsIndentedData(middle[0]) && i == 0
      ensures StandardValue(middle[i]).Some? && middle[i] != "data" ==> ParserValue(lines[i]).Some?
    {
      LineReadAlike(lines, indent, tail, i);
    }
    LineReadAlike(lines, indent, tail, 0);
    AllHold(middle);
    if IsIndentedData(middle[0]) {
      assert ReadsLess(middle, StandardValue, lines, ParserValue);
      SameValues(middle, StandardValue, lines, ParserValue, |middle|);
      assert StandardValue(middle[0]) != ParserValue(lines[0]);
    } else {
      assert ReadsLess(lines, ParserValue, middle, StandardValue);
      SameValues(lines, ParserValue, middle, StandardValue, |lines|);
    }
  }

  /** So do the lines with blank lines around them. */
  lemma SurroundedReadAlike(before: seq<string>, indent: string, lines: seq<string>, tail: string, after: seq<string>)
    requires Surrounds(before, indent, lines, tail, after)
    requires var all := before + Padded(lines, indent, tail) + after; !StartsIndented(all) || "data" !in all
    ensures var all := before + Padded(lines, indent, tail) + after;
            Values(lines, ParserValue, |lines|) == Values(all, StandardValue, |all|) <==> ReadsAsStandard(all)
  {
    var middle := Padded(lines, indent, tail);
    ConditionsOnText(before, indent, lines, tail, after);
    ValuesBetween(before, middle, after);
    LinesReadAlike(lines, indent, tail);
  }

  lemma {:induction false} LinesAsInStandard(frame: string)
    requires '\r' !in frame
    requires !StartsIndented(SplitLf(frame)) || "data" !in SplitLf(frame)
    ensures ParserData(frame) == Values(SplitLf(frame), StandardValue, |SplitLf(frame)|)
            <==> ReadsAsStandard(SplitLf(frame))
  {
    var lead, trail := FrameParts(frame);
    var core := Trim(frame);
    if core == "" {
      BlankFrame(frame, lead, trail);
    } else {
      LinesOfSolid(core);
      ParserReads(SplitLf(core), |SplitLf(core)|);
      SolidFrame(lead, core, trail);
      SurroundedReadAlike(Init(SplitLf(lead)), Last(SplitLf(lead)), SplitLf(core), SplitLf(trail)[0], SplitLf(trail)[1..]);
    }
  }

  lemma SolidFrame(lead: string, core: string, trail: string)
    requires IsBlank(lead) && IsBlank(trail) && IsSolid(core)
    ensures Surrounds(Init(SplitLf(lead)), Last(SplitLf(lead)), SplitLf(core), SplitLf(trail)[0], SplitLf(trail)[1..])
    ensures SplitLf(lead + core + trail)
            == Init(SplitLf(lead)) + Padded(SplitLf(core), Last(SplitLf(lead)), SplitLf(trail)[0]) + SplitLf(trail)[1..]
  {
    BlankLines(lead);
    BlankLines(trail);
    SolidLines(core);
    LinesOfFrame(lead, core, trail);
  }

  lemma BlankFrame(frame: string, lead: string, trail: string)
    requires frame == lead + "" + trail && IsBlank(lead) && IsBlank(trail) && Trim(frame) == ""
    ensures ParserData(frame) == [] == Values(SplitLf(frame), StandardValue, |SplitLf(frame)|)
    ensures ReadsAsStandard(SplitLf(frame))
  {
    assert IsBlank(frame);
    BlankLines(frame);
    BlankHasNoValues(SplitLf(frame), |SplitLf(frame)|);
    forall i | 0 <= i < |SplitLf(frame)|
      ensures FieldName(SplitLf(frame)[i]) != "data"
    {
      BlankIsNoField(SplitLf(frame)[i]);
    }
    assert Lines("") == [];
  }

  // ------------------------------------------------------- CR-LF line endings

  /** Without lone carriage returns the lines are those between line feeds. */
  lemma {:induction false} StandardIsSplit(text: string)
    requires '\r' !in WithoutCrLf(text)
    ensures StandardLines(text) == SplitLf(WithoutCrLf(text))
  {
    if text != "" {
      if |text| >= 2 && text[0] == '\r' && text[1] == '\n' {
        StandardIsSplit(text[2..]);
        assert WithoutCrLf(text)[1..] == WithoutCrLf(text[2..]);
      } else {
        assert WithoutCrLf(text)[0] == text[0] && WithoutCrLf(text)[1..] == WithoutCrLf(text[1..]);
        StandardIsSplit(text[1..]);
      }
    }
  }

  predicate StartsWithPair(s: string) {
    |s| >= 2 && s[0] == '\r' && s[1] == '\n'
  }

  lemma FirstCharStays(s: string, rest: string)
    requires s != "" && !StartsWithPair(s) && rest == s[1..]
    ensures WithoutCrLf(s) == [s[0]] + WithoutCrLf(rest)
  {}

  lemma {:induction false} WithoutCrLfOfBoth(x: string, y: string)
    requires x != "" && y != "" ==> !(Last(x) == '\r' && y[0] == '\n')
    ensures WithoutCrLf(x + y) == WithoutCrLf(x) + WithoutCrLf(y)
  {
    if x == "" {
      assert x + y == y;
    } else if StartsWithPair(x) {
      assert (x + y)[2..] == x[2..] + y && StartsWithPair(x + y);
      WithoutCrLfOfBoth(x[2..], y);
      Regroup("\n", WithoutCrLf(x[2..]), WithoutCrLf(y));
    } else {
      assert (x + y)[1..] == x[1..] + y && (x + y)[0] == x[0];
      assert !StartsWithPair(x + y) by {
        assert |x| == 1 && y != "" ==> (x + y)[1] == y[0] && Last(x) == x[0];
      }
      FirstCharStays(x, x[1..]);
      FirstCharStays(x + y, x[1..] + y);
      WithoutCrLfOfBoth(x[1..], y);
      Regroup([x[0]], WithoutCrLf(x[1..]), WithoutCrLf(y));
    }
  }

  lemma {:induction false} BlankWithoutCrLf(s: string)
    requires IsBlank(s)
    ensures IsBlank(WithoutCrLf(s))
  {
    if s != "" {
      if |s| >= 2 && s[0] == '\r' && s[1] == '\n' {
        BlankWithoutCrLf(s[2..]);
      } else {
        BlankWithoutCrLf(s[1..]);
      }
    }
  }

  lemma {:induction false} SolidWithoutCrLf(s: string)
    requires s != "" && !IsSpace(s[|s| - 1])
    ensures var r := WithoutCrLf(s); r != "" && r[|r| - 1] == s[|s| - 1]
    ensures !IsSpace(s[0]) ==> WithoutCrLf(s)[0] == s[0]
  {
    if |s| > 2 && s[0] == '\r' && s[1] == '\n' {
      SolidWithoutCrLf(s[2..]);
    } else if |s| > 1 {
      SolidWithoutCrLf(s[1..]);
    }
  }

  /** Cutting the carriage return off each line is cutting it out of each pair. */
  lemma {:induction false} CutFromLines(s: string)
    requires '\r' !in WithoutCrLf(s)
    ensures SplitLf(WithoutCrLf(s)) == CutAll(SplitLf(s))
  {
    if s == "" {
      assert CutAll([""]) == [""];
    } else if StartsWithPair(s) {
      PairLines(s);
      CutFromLines(s[2..]);
      CutFirst("\r", SplitLf(s[2..]));
    } else {
      FirstCharStays(s, s[1..]);
      assert WithoutCrLf(s)[1..] == WithoutCrLf(s[1..]);
      CutFromLines(s[1..]);
      if s[0] == '\n' {
        CutFirst("", SplitLf(s[1..]));
      } else {
        CutWithin(s[0], SplitLf(s[1..]));
      }
    }
  }

  /** The lines as the parser has them: the last is left as it is. */
  function CutAll(lines: seq<string>): (r: seq<string>)
    requires lines != []
  {
    WithoutCrs(Init(lines)) + [Last(lines)]
  }

  lemma PairLines(s: string)
    requires StartsWithPair(s)
    ensures SplitLf(s) == ["\r"] + SplitLf(s[2..])
    ensures SplitLf(WithoutCrLf(s)) == [""] + SplitLf(WithoutCrLf(s[2..]))
  {
    assert WithoutCrLf(s)[1..] == WithoutCrLf(s[2..]);
    assert s[1..][1..] == s[2..] && SplitLf(s[1..]) == [""] + SplitLf(s[2..]);
    assert ([""] + SplitLf(s[2..]))[1..] == SplitLf(s[2..]) && [s[0]] + "" == "\r";
  }

  lemma CutFirst(line: string, rest: seq<string>)
    requires rest != []
    ensures CutAll([line] + rest) == [WithoutCr(line)] + CutAll(rest)
  {
    assert Init([line] + rest) == [line] + Init(rest);
    assert WithoutCrs([line] + Init(rest)) == [WithoutCr(line)] + WithoutCrs(Init(rest));
  }

  lemma CutWithin(c: char, rest: seq<string>)
    requires rest != [] && c != '\r'
    ensures CutAll([[c] + rest[0]] + rest[1..]) == [[c] + CutAll(rest)[0]] + CutAll(rest)[1..]
  {
    var all := [[c] + rest[0]] + rest[1..];
    if |rest| == 1 {
      assert WithoutCrs(Init(all)) == [] && WithoutCrs(Init(rest)) == [];
    } else {
      assert Init(all) == [[c] + rest[0]] + rest[1..|rest| - 1] && Init(rest) == [rest[0]] + rest[1..|rest| - 1];
      assert WithoutCr([c] + rest[0]) == [c] + WithoutCr(rest[0]) by {
        assert rest[0] != "" ==> Last([c] + rest[0]) == Last(rest[0]) && Init([c] + rest[0]) == [c] + Init(rest[0]);
      }
    }
  }

  lemma TrimmedPairs(lead: string, core: string, trail: string)
    requires IsBlank(lead) && IsBlank(trail) && IsSolid(core)
    ensures Trim(WithoutCrLf(lead + core + trail)) == WithoutCrLf(core) && IsSolid(WithoutCrLf(core))
    ensures WithoutCrLf(lead + core + trail) == WithoutCrLf(lead) + WithoutCrLf(core) + WithoutCrLf(trail)
  {
    SolidWithoutCrLf(core);
    WithoutCrLfOfBoth(lead, core);
    WithoutCrLfOfBoth(lead + core, trail);
    BlankWithoutCrLf(lead);
    BlankWithoutCrLf(trail);
    TrimOfParts(WithoutCrLf(lead), WithoutCrLf(core), WithoutCrLf(trail));
  }

  lemma LinesOfPairs(core: string)
    requires IsSolid(core) && IsSolid(WithoutCrLf(core)) && '\r' !in WithoutCrLf(core)
    ensures Lines(WithoutCrLf(core)) == Lines(core)
  {
    CutFromLines(core);
    SolidLines(core);
    LinesOfSolid(WithoutCrLf(core));
  }

  /** CR-LF pairs make no difference to the parser. */
  lemma PairsAreIgnored(frame: string)
    requires '\r' !in WithoutCrLf(frame)
    ensures ParserData(frame) == ParserData(WithoutCrLf(frame))
  {
    var lead, trail := FrameParts(frame);
    if Trim(frame) == "" {
      assert IsBlank(frame);
      BlankWithoutCrLf(frame);
      BlankIsTrimmed(WithoutCrLf(frame));
      assert Trim(WithoutCrLf(frame)) == "";
    } else {
      TrimmedPairs(lead, Trim(frame), trail);
      LinesOfPairs(Trim(frame));
    }
  }

  /**
   * With line feeds or CR-LF pairs for line endings, the parser reads the data
   * of a frame as the standard does if and only if the frame does not start
   * with an indented data field, no data field lacks its colon or has more
   * white space before its value than one space, and the last line is no data
   * field that ends in white space. (A frame that does start with an indented
   * data field must have no data field without a colon, whose empty value could
   * stand in for the one the standard leaves out.)
   */
  lemma FrameAsInStandard(frame: string)
    requires '\r' !in WithoutCrLf(frame)
    requires !StartsIndented(StandardLines(frame)) || "data" !in StandardLines(frame)
    ensures ParserData(frame) == StandardData(frame) <==> ReadsAsStandard(StandardLines(frame))
  {
    StandardIsSplit(frame);
    PairsAreIgnored(frame);
    LinesAsInStandard(WithoutCrLf(frame));
  }

  // ------------------------------------------------------- failing frames

  function IfAny(value: Option<string>): (values: seq<string>) {
    if value.Some? then [value.value] else []
  }

  lemma OneValue(line: string, read: string -> Option<string>)
    ensures Values([line], read, 1) == IfAny(read(line))
  {
    assert Values([line], read, 0) == [];
  }

  lemma ParserOnOneLine(lead: string, line: string, trail: string)
    requires IsBlank(lead) && IsBlank(trail) && IsPlain(line) && '\r' !in line
    ensures ParserData(lead + line + trail) == IfAny(ParserValue(line))
  {
    TrimOfParts(lead, line, trail);
    LinesOfSolid(line);
    SplitLfOneLine(line);
    ParserReads([line], 1);
    OneValue(line, ParserValue);
  }

  lemma StandardOnOneLine(frame: string)
    requires '\n' !in frame && '\r' !in frame
    ensures StandardData(frame) == IfAny(StandardValue(frame))
  {
    NoPairs(frame);
    StandardIsSplit(frame);
    SplitLfOneLine(frame);
    OneValue(frame, StandardValue);
  }

  /** A data field with a colon, as both take it. */
  lemma DataWithColon(line: string, after: string)
    requires line == "data" + ":" + after
    ensures ParserValue(line) == Some(TrimStart(IsSpace, after)) && StandardValue(line) == Some(WithoutSpace(after))
  {
    ColonAfter("data", after);
    FieldValueAfter(line, after);
    assert line[5..] == after && line[..4] == "data" && line[..5] == "data:";
  }

  lemma {:induction false} NoPairs(s: string)
    requires '\r' !in s
    ensures WithoutCrLf(s) == s
  {
    if s != "" {
      NoPairs(s[1..]);
    }
  }

  /** A frame of one data field, with a colon, and a space or nothing behind it. */
  lemma OneField(line: string, after: string, trail: string)
    requires line == "data" + ":" + after && IsPlain(line) && '\r' !in line && trail in {"", " "}
    ensures ParserData(line + trail) == [TrimStart(IsSpace, after)]
    ensures StandardData(line + trail) == [WithoutSpace(after + trail)]
  {
    FieldForParser(line, after, trail);
    FieldForStandard(line + trail, after + trail);
  }

  lemma FieldForParser(line: string, after: string, trail: string)
    requires line == "data" + ":" + after && IsPlain(line) && '\r' !in line && IsBlank(trail)
    ensures ParserData(line + trail) == [TrimStart(IsSpace, after)]
  {
    ParserOnOneLine("", line, trail);
    assert "" + line + trail == line + trail;
    DataWithColon(line, after);
  }

  lemma FieldForStandard(frame: string, after: string)
    requires frame == "data" + ":" + after && '\n' !in frame && '\r' !in frame
    ensures StandardData(frame) == [WithoutSpace(after)]
  {
    StandardOnOneLine(frame);
    DataWithColon(frame, after);
  }

  /** White space behind the last value is cut off with the frame's. */
  lemma LastSpaceIsLost(x: string)
    requires IsPlain(x) && '\r' !in x
    ensures ParserData("data: " + x + " ") == [x] && StandardData("data: " + x + " ") == [x + " "]
  {
    var after := " " + x;
    LabelledIsPlain("data: ", x);
    assert "data: " + x == "data" + ":" + after;
    OneField("data: " + x, after, " ");
    assert (after + " ")[1..] == x + " " && (after + " ")[0] == ' ';
    TrimPlain(x);
  }

  /** An indented first field is read by the parser alone. */
  lemma IndentIsForgiven(x: string)
    requires IsPlain(x) && '\r' !in x
    ensures ParserData(" data: " + x) == [x] && StandardData(" data: " + x) == []
  {
    var line, frame := "data: " + x, " data: " + x;
    LabelledIsPlain("data: ", x);
    ParserOnOneLine(" ", line, "");
    assert " " + line + "" == frame && frame[0] == ' ';
    StandardOnOneLine(frame);
    IndentedIsNoField(frame);
    assert line == "data" + ":" + (" " + x);
    DataWithColon(line, " " + x);
    TrimPlain(x);
  }

  /** A field without its colon is read by the standard alone. */
  lemma BareFieldIsLost()
    ensures ParserData("data") == [] && StandardData("data") == [""]
  {
    BareField("data", "");
  }

  lemma BareField(line: string, none: string)
    requires line == "data" && none == ""
    ensures ParserData(line) == [] && StandardData(line) == [""]
  {
    ParserOnOneLine(none, line, none);
    assert none + line + none == line;
    StandardOnOneLine(line);
    NoColon(line);
    assert line[3] == 'a';
  }

  lemma {:induction false} NoColon(line: string)
    requires ':' !in line
    ensures ColonAt(line) == |line| && FieldName(line) == line
  {
    if line != "" {
      NoColon(line[1..]);
    }
  }

  /** A second space before a value is read as part of it by the standard alone. */
  lemma SecondSpaceIsLost(x: string)
    requires IsPlain(x) && '\r' !in x
    ensures ParserData("data:  " + x) == [x] && StandardData("data:  " + x) == [" " + x]
  {
    var line, after := "data:  " + x, "  " + x;
    assert line == "data" + ":" + after;
    assert line[0] == 'd' && line[|line| - 1] == x[|x| - 1];
    OneField(line, after, "");
    assert line + "" == line && after + "" == after;
    assert after[0] == ' ' && after[1..] == " " + x;
    TrimPlain(x);
  }

  /** Why an indented frame must have no field without a colon: here each reads the empty value the other leaves out. */
  lemma OneStandsInForTheOther(first: string, second: string)
    requires first == "data:" && second == "data"
    ensures var frame := " " + first + "\n" + second;
            && StartsIndented(StandardLines(frame))
            && ParserData(frame) == [""] == StandardData(frame)
  {
    var core := first + "\n" + second;
    var frame := " " + first + "\n" + second;
    assert frame == " " + core + "" && frame == (" " + first) + ("\n" + second);
    TrimOfParts(" ", core, "");
    LinesOfTwo(first, second);
    ParserReads([first, second], 2);
    NoColon(second);
    DataWithColon(first, "");
    DataLines(second);
    NoPairs(frame);
    StandardIsSplit(frame);
    TwoLines(" " + first, second);
    IndentedIsNoField(" " + first);
    TwoValues(first, second, ParserValue);
    TwoValues(" " + first, second, StandardValue);
    IndentedLine(" ", first);
    assert IsFirstText(StandardLines(frame), 0) by {
      assert (" " + first)[1] == 'd';
    }
  }

  lemma TwoValues(first: string, second: string, read: string -> Option<string>)
    ensures Values([first, second], read, 2) == IfAny(read(first)) + IfAny(read(second))
  {
    assert Values([first, second], read, 0) == [];
    assert Values([first, second], read, 1) == IfAny(read(first));
  }
}
