/**
 * The data fields of lines as section 9.2.6 of the WHATWG HTML Living Standard
 * reads them, beside the parser's reading.
 */
module SseFields {
  import opened Wrappers
  import opened Text
  import opened SseParsing

  // ------------------------------------------------------------- one line

  /** Where the first colon stands, or the length of a line that has none. */
  function ColonAt(line: string): (at: nat)
    ensures at <= |line|
  {
    if line == "" || line[0] == ':' then 0 else 1 + ColonAt(line[1..])
  }

  function FieldName(line: string): (name: string) {
    line[..ColonAt(line)]
  }

  /** What follows the colon, without one leading space. */
  function FieldValue(line: string): (value: string) {
    var at := ColonAt(line);
    if at == |line| then ""
    else if at + 1 < |line| && line[at + 1] == ' ' then line[at + 2..]
    else line[at + 1..]
  }

  /** What the standard takes from a line: the value of a data field. */
  function StandardValue(line: string): (value: Option<string>) {
    if FieldName(line) == "data" then Some(FieldValue(line)) else None
  }

  /** What the parser takes from a line. */
  function ParserValue(line: string): (value: Option<string>) {
    if StartsWith(line, "data:") then Some(TrimStart(IsSpace, line[5..])) else None
  }

  /** A data field that is read the same way: with a colon, and no white space left before its value. */
  predicate IsReadAlike(line: string) {
    line != "data" && (FieldValue(line) == "" || !IsSpace(FieldValue(line)[0]))
  }

  predicate IsBlank(s: string) {
    forall i :: 0 <= i < |s| ==> IsSpace(s[i])
  }

  lemma {:induction false} ColonAfter(head: string, rest: string)
    requires ':' !in head
    ensures ColonAt(head + ":" + rest) == |head|
  {
    var line := head + ":" + rest;
    if head != "" {
      assert line[1..] == head[1..] + ":" + rest;
      ColonAfter(head[1..], rest);
    }
  }

  lemma {:induction false} NameHasNoColon(line: string)
    ensures ':' !in FieldName(line)
    ensures ColonAt(line) < |line| ==> line[ColonAt(line)] == ':'
  {
    if line != "" && line[0] != ':' {
      NameHasNoColon(line[1..]);
      assert FieldName(line) == [line[0]] + FieldName(line[1..]);
    }
  }

  /** A line starts a data field with a colon exactly when its name is `data` and the colon is there. */
  lemma DataLines(line: string)
    ensures StartsWith(line, "data:") <==> FieldName(line) == "data" && line != "data"
    ensures StartsWith(line, "data:") ==> !StartsWith(line, ":") && !StartsWith(line, "event:")
  {
    NameHasNoColon(line);
    if StartsWith(line, "data:") {
      assert line == "data" + ":" + line[5..];
      ColonAfter("data", line[5..]);
      assert line[0] == 'd';
    }
  }

  /** A line that starts with white space is no data field. */
  lemma IndentedIsNoField(line: string)
    requires line != "" && IsSpace(line[0])
    ensures StandardValue(line).None? && !StartsWith(line, "data:")
  {
    assert ColonAt(line) > 0 ==> FieldName(line)[0] == line[0];
  }

  lemma {:induction false} TrimmedStart(s: string)
    ensures TrimStart(IsSpace, s) == s <==> s == "" || !IsSpace(s[0])
    ensures |TrimStart(IsSpace, s)| <= |s|
    ensures TrimStart(IsSpace, s) == "" || !IsSpace(TrimStart(IsSpace, s)[0])
  {
    if s != "" && IsSpace(s[0]) {
      TrimmedStart(s[1..]);
    }
  }

  lemma {:induction false} BlankIsTrimmed(s: string)
    requires IsBlank(s)
    ensures TrimStart(IsSpace, s) == ""
  {
    if s != "" {
      BlankIsTrimmed(s[1..]);
    }
  }

  /** White space is cut from the start of a text whatever stands behind the text. */
  lemma {:induction false} TrimStartBefore(s: string, tail: string)
    requires !IsBlank(s)
    ensures TrimStart(IsSpace, s + tail) == TrimStart(IsSpace, s) + tail
  {
    if IsSpace(s[0]) {
      assert (s + tail)[1..] == s[1..] + tail;
      assert !IsBlank(s[1..]);
      TrimStartBefore(s[1..], tail);
    }
  }

  /**
   * One line as the parser has it and, with the white space the parser has cut
   * from its end, as the standard has it: the same data is read exactly when
   * the line is no data field, or has its colon, no white space left before its
   * value and none cut from behind it.
   */
  lemma {:induction false} ValueOfLine(line: string, tail: string)
    requires IsBlank(tail) && (tail == "" || (line != "" && !IsSpace(line[|line| - 1])))
    ensures ParserValue(line).Some? ==> StandardValue(line + tail).Some?
    ensures StandardValue(line + tail).Some? && line + tail != "data" ==> ParserValue(line).Some?
    ensures ParserValue(line) == StandardValue(line + tail)
            <==> (FieldName(line + tail) == "data" ==>
                    IsReadAlike(line + tail) && (tail == "" || KeepsItsEnd(FieldValue(line + tail))))
  {
    DataLines(line);
    DataLines(line + tail);
    PrefixIsInLine(line, tail);
    if StartsWith(line, "data:") {
      ValueOfData(line[5..], tail);
      assert line == "data" + ":" + line[5..] && line + tail == "data" + ":" + (line[5..] + tail);
      ColonAfter("data", line[5..] + tail);
      FieldValueAfter(line + tail, line[5..] + tail);
    }
  }

  /** The end of the value is not white space. */
  predicate KeepsItsEnd(value: string) {
    value == "" || !IsSpace(value[|value| - 1])
  }

  /** A value as the standard has it, from what follows the colon. */
  function WithoutSpace(after: string): (value: string) {
    if after != "" && after[0] == ' ' then after[1..] else after
  }

  lemma FieldValueAfter(line: string, after: string)
    requires line == "data" + ":" + after && ColonAt(line) == 4
    ensures FieldValue(line) == WithoutSpace(after)
  {
    assert line[5..] == after;
    if after != "" && after[0] == ' ' {
      assert line[5] == ' ' && line[6..] == after[1..];
    }
  }

  lemma PrefixIsInLine(line: string, tail: string)
    requires IsBlank(tail)
    ensures StartsWith(line + tail, "data:") <==> StartsWith(line, "data:")
  {
    if |line| >= 5 {
      assert (line + tail)[..5] == line[..5];
    } else if |line + tail| >= 5 {
      assert (line + tail)[4] == tail[4 - |line|] && "data:"[4] == ':';
    }
  }

  /** What follows the colon, read by the parser without the white space behind it and by the standard with it. */
  lemma {:induction false} ValueOfData(after: string, tail: string)
    requires IsBlank(tail) && (tail == "" || after == "" || !IsSpace(after[|after| - 1]))
    ensures var value := WithoutSpace(after + tail);
            TrimStart(IsSpace, after) == value
            <==> (value == "" || !IsSpace(value[0])) && (tail == "" || KeepsItsEnd(value))
  {
    var value := WithoutSpace(after + tail);
    assert TrimStart(IsSpace, after + tail) == TrimStart(IsSpace, value);
    TrimmedStart(value);
    TrimmedStart(after);
    if tail == "" {
      assert after + tail == after;
    } else if IsBlank(after) {
      assert after == "";
      assert IsBlank(value) && TrimStart(IsSpace, after) == "";
    } else {
      TrimStartBefore(after, tail);
      assert |TrimStart(IsSpace, after + tail)| > |TrimStart(IsSpace, after)|;
      assert (after + tail)[|after + tail| - 1] == tail[|tail| - 1];
      assert value != "" && value[|value| - 1] == tail[|tail| - 1];
    }
  }

  // -------------------------------------------------------------- many lines

  /** The values read from the first `n` lines. */
  function Values(lines: seq<string>, read: string -> Option<string>, n: nat): (values: seq<string>)
    requires n <= |lines|
  {
    if n == 0 then []
    else if read(lines[n - 1]).Some? then Values(lines, read, n - 1) + [read(lines[n - 1]).value]
    else Values(lines, read, n - 1)
  }

  /** The lines of a text, each ended by a CR-LF pair, a line feed or a carriage return. */
  function StandardLines(text: string): (lines: seq<string>)
    ensures lines != []
  {
    if text == "" then [""]
    else if |text| >= 2 && text[0] == '\r' && text[1] == '\n' then [""] + StandardLines(text[2..])
    else if text[0] == '\r' || text[0] == '\n' then [""] + StandardLines(text[1..])
    else
      var rest := StandardLines(text[1..]);
      [[text[0]] + rest[0]] + rest[1..]
  }

  /** The data of a text: the values of the data fields of all its lines. */
  function StandardData(text: string): (data: seq<string>) {
    Values(StandardLines(text), StandardValue, |StandardLines(text)|)
  }

  /** The data of a frame, as the parser puts it together. */
  function ParserData(frame: string): (data: seq<string>) {
    var lines := Lines(Trim(frame));
    FieldsOf(lines, |lines|).data
  }

  lemma {:induction false} ParserReads(lines: seq<string>, n: nat)
    requires n <= |lines|
    ensures FieldsOf(lines, n).data == Values(lines, ParserValue, n)
  {
    if n > 0 {
      ParserReads(lines, n - 1);
      DataLines(lines[n - 1]);
    }
  }

  lemma {:induction false} ValuesOfMore(lines: seq<string>, more: seq<string>, read: string -> Option<string>, n: nat)
    requires n <= |more|
    ensures Values(lines + more, read, |lines| + n) == Values(lines, read, |lines|) + Values(more, read, n)
  {
    if n == 0 {
      ValuesOfPrefix(lines, more, read, |lines|);
    } else {
      ValuesOfMore(lines, more, read, n - 1);
      assert (lines + more)[|lines| + n - 1] == more[n - 1];
    }
  }

  lemma {:induction false} ValuesOfPrefix(lines: seq<string>, more: seq<string>, read: string -> Option<string>, n: nat)
    requires n <= |lines|
    ensures Values(lines + more, read, n) == Values(lines, read, n)
  {
    if n > 0 {
      ValuesOfPrefix(lines, more, read, n - 1);
    }
  }

  lemma {:induction false} BlankHasNoValues(lines: seq<string>, n: nat)
    requires n <= |lines| && forall i :: 0 <= i < |lines| ==> IsBlank(lines[i])
    ensures Values(lines, StandardValue, n) == []
  {
    if n > 0 {
      BlankHasNoValues(lines, n - 1);
      if lines[n - 1] != "" {
        IndentedIsNoField(lines[n - 1]);
      }
    }
  }

  /** Two ways to read, line by line, of which one reads wherever the other does. */
  ghost predicate ReadsLess(x: seq<string>, p: string -> Option<string>, y: seq<string>, q: string -> Option<string>) {
    |x| == |y| && forall i :: 0 <= i < |x| ==> p(x[i]).Some? ==> q(y[i]).Some?
  }

  ghost predicate ReadsSame(x: seq<string>, p: string -> Option<string>, y: seq<string>, q: string -> Option<string>, n: nat)
    requires n <= |x| && n <= |y|
  {
    forall i :: 0 <= i < n ==> p(x[i]) == q(y[i])
  }

  /** Then the values are the same exactly when each line's is. */
  lemma {:induction false} SameValues(
    x: seq<string>, p: string -> Option<string>, y: seq<string>, q: string -> Option<string>, n: nat
  )
    requires ReadsLess(x, p, y, q) && n <= |x|
    ensures |Values(x, p, n)| <= |Values(y, q, n)|
    ensures Values(x, p, n) == Values(y, q, n) <==> ReadsSame(x, p, y, q, n)
  {
    if n > 0 {
      SameValues(x, p, y, q, n - 1);
      assert p(x[n - 1]).Some? ==> q(y[n - 1]).Some?;
      assert ReadsSame(x, p, y, q, n) <==> ReadsSame(x, p, y, q, n - 1) && p(x[n - 1]) == q(y[n - 1]);
      if p(x[n - 1]).Some? {
        LastOfBoth(Values(x, p, n - 1), p(x[n - 1]).value, Values(y, q, n - 1), q(y[n - 1]).value);
      }
    }
  }

  lemma LastOfBoth(x: seq<string>, a: string, y: seq<string>, b: string)
    ensures x + [a] == y + [b] <==> x == y && a == b
  {
    if x + [a] == y + [b] {
      assert x == (x + [a])[..|x|] && y == (y + [b])[..|y|];
      assert (x + [a])[|x|] == a && (y + [b])[|y|] == b;
    }
  }
}
