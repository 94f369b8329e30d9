/**
 * Frames as a server writes them, line by line, and what the parser reads from
 * them (rust/crates/api/src/sse.rs).
 */
module SseWriting {
  import opened Wrappers
  import opened Text
  import opened SseFraming
  import opened SseParsing

  /** A line of a frame: a comment, the event's name, a line of its data, each with white space around it, or a field of no interest. */
  datatype Line =
    | Comment(text: string)
    | Name(before: string, name: string, after: string)
    | Data(before: string, value: string)
    | Other(text: string)

  function Written(line: Line): (s: string) {
    match line
    case Comment(text) => ":" + text
    case Name(before, name, after) => "event:" + (before + (name + after))
    case Data(before, value) => "data:" + (before + value)
    case Other(text) => text
  }

  function AllWritten(lines: seq<Line>): (r: seq<string>)
    ensures |r| == |lines| && forall i :: 0 <= i < |lines| ==> r[i] == Written(lines[i])
  {
    seq(|lines|, i requires 0 <= i < |lines| => Written(lines[i]))
  }

  /** What a line of data may be: it starts with no white space, and does not end as a line does. */
  predicate IsValue(s: string) {
    '\n' !in s && (s != "" ==> !IsSpace(s[0]) && s[|s| - 1] != '\r')
  }

  predicate IsPadding(s: string) {
    (forall i :: 0 <= i < |s| ==> IsSpace(s[i]) && s[i] != '\n') && (s != "" ==> s[|s| - 1] != '\r')
  }

  predicate CanBeWritten(line: Line) {
    match line
    case Comment(text) => '\n' !in text && (text != "" ==> text[|text| - 1] != '\r')
    case Name(before, name, after) => IsPlain(name) && IsPadding(before) && IsPadding(after)
    case Data(before, value) => IsValue(value) && IsPadding(before)
    case Other(text) => IsPlain(text) && text[0] != ':' && !("event:" <= text) && !("data:" <= text)
  }

  /** The frame ends with something that trimming leaves. */
  predicate EndsSolid(s: string) {
    s != "" && !IsSpace(s[|s| - 1])
  }

  /** The last name among the first `n` lines. */
  function NameIn(lines: seq<Line>, n: nat): (name: Option<string>)
    requires n <= |lines|
  {
    if n == 0 then None else if lines[n - 1].Name? then Some(lines[n - 1].name) else NameIn(lines, n - 1)
  }

  /** The lines of data among the first `n` lines, in order. */
  function ValuesIn(lines: seq<Line>, n: nat): (values: seq<string>)
    requires n <= |lines|
  {
    if n == 0 then [] else ValuesIn(lines, n - 1) + (if lines[n - 1].Data? then [lines[n - 1].value] else [])
  }

  lemma NameIsRead(f: Fields, before: string, name: string, after: string)
    requires IsPlain(name) && IsPadding(before) && IsPadding(after)
    ensures AddLine(f, "event:" + (before + (name + after))) == f.(name := Some(name))
  {
    var line := "event:" + (before + (name + after));
    assert line[6..] == before + (name + after) && line[0] == 'e' && line[..6] == "event:";
    TrimmedBefore(IsSpace, before, name + after);
    TrimmedAfter(IsSpace, name, after);
  }

  lemma ValueIsRead(f: Fields, before: string, value: string)
    requires IsValue(value) && IsPadding(before)
    ensures AddLine(f, "data:" + (before + value)) == f.(data := f.data + [value])
  {
    var line := "data:" + (before + value);
    assert line[5..] == before + value && line[0] == 'd' && line[..5] == "data:";
    TrimmedBefore(IsSpace, before, value);
  }

  /** What a line adds to what the frame says. */
  function WithLine(f: Fields, line: Line): (r: Fields) {
    if line.Name? then f.(name := Some(line.name)) else if line.Data? then f.(data := f.data + [line.value]) else f
  }

  lemma LineIsRead(f: Fields, line: Line, text: string)
    requires CanBeWritten(line) && text == Written(line)
    ensures AddLine(f, text) == WithLine(f, line)
  {
    if line.Name? {
      NameIsRead(f, line.before, line.name, line.after);
    } else if line.Data? {
      ValueIsRead(f, line.before, line.value);
    } else if line.Comment? {
      assert text[..1] == ":";
    }
  }

  lemma FieldsGrow(lines: seq<Line>, n: nat)
    requires 0 < n <= |lines|
    ensures WithLine(Fields(NameIn(lines, n - 1), ValuesIn(lines, n - 1)), lines[n - 1]) == Fields(NameIn(lines, n), ValuesIn(lines, n))
  {}

  lemma FieldsNext(texts: seq<string>, n: nat, line: Line, before: Fields)
    requires n < |texts| && CanBeWritten(line) && texts[n] == Written(line) && FieldsOf(texts, n) == before
    ensures FieldsOf(texts, n + 1) == WithLine(before, line)
  {
    LineIsRead(before, line, texts[n]);
  }

  lemma {:induction false} FieldsAreRead(lines: seq<Line>, n: nat)
    requires n <= |lines| && forall i :: 0 <= i < |lines| ==> CanBeWritten(lines[i])
    ensures FieldsOf(AllWritten(lines), n) == Fields(NameIn(lines, n), ValuesIn(lines, n))
  {
    if n > 0 {
      FieldsAreRead(lines, n - 1);
      FieldsNext(AllWritten(lines), n - 1, lines[n - 1], Fields(NameIn(lines, n - 1), ValuesIn(lines, n - 1)));
      FieldsGrow(lines, n);
    }
  }

  predicate IsALine(s: string) {
    s != "" && '\n' !in s && !IsSpace(s[0]) && s[|s| - 1] != '\r'
  }

  lemma WrittenIsALine(line: Line)
    requires CanBeWritten(line)
    ensures IsALine(Written(line))
  {
    var s := Written(line);
    if line.Data? {
      PaddedEnds(line.before, line.value);
      assert s[|s| - 1] == if line.before + line.value == "" then ':' else (line.before + line.value)[|line.before + line.value| - 1];
    } else if line.Comment? {
      assert s[|s| - 1] == if line.text == "" then ':' else line.text[|line.text| - 1];
    } else if line.Name? {
      var padded := line.before + (line.name + line.after);
      assert padded[|padded| - 1] == if line.after == "" then line.name[|line.name| - 1] else line.after[|line.after| - 1];
      assert s[|s| - 1] == padded[|padded| - 1];
    }
  }

  lemma PaddedEnds(before: string, value: string)
    requires IsPadding(before) && IsValue(value)
    ensures '\n' !in before + value && (before + value != "" ==> (before + value)[|before + value| - 1] != '\r')
  {
    assert before + value != "" ==>
        (before + value)[|before + value| - 1] == if value == "" then before[|before| - 1] else value[|value| - 1];
  }

  lemma {:induction false} JoinEnds(lines: seq<string>)
    requires lines != [] && lines[0] != "" && Last(lines) != ""
    ensures var s := JoinLf(lines);
            s != "" && s[0] == lines[0][0] && s[|s| - 1] == Last(lines)[|Last(lines)| - 1]
  {
    if |lines| > 1 {
      JoinEndsWith(lines[1..]);
      assert JoinLf(lines) == lines[0] + "\n" + JoinLf(lines[1..]);
    }
  }

  lemma {:induction false} JoinEndsWith(lines: seq<string>)
    requires lines != [] && Last(lines) != ""
    ensures var s := JoinLf(lines);
            s != "" && s[|s| - 1] == Last(lines)[|Last(lines)| - 1]
  {
    if |lines| > 1 {
      JoinEndsWith(lines[1..]);
      assert JoinLf(lines) == lines[0] + "\n" + JoinLf(lines[1..]);
    }
  }

  lemma KeepsItsCr(texts: seq<string>)
    requires forall i :: 0 <= i < |texts| ==> IsALine(texts[i])
    ensures WithoutCrs(texts) == texts
  {
    assert forall i :: 0 <= i < |texts| ==> IsALine(texts[i]) && WithoutCrs(texts)[i] == texts[i];
  }

  lemma LinesOfSplit(frame: string, texts: seq<string>)
    requires SplitLf(frame) == texts && forall i :: 0 <= i < |texts| ==> IsALine(texts[i])
    ensures Lines(frame) == texts
  {
    KeepsItsCr(Init(texts));
    assert IsALine(Last(texts));
    assert Init(texts) + [Last(texts)] == texts;
  }

  lemma LinesOfJoined(texts: seq<string>)
    requires texts != [] && forall i :: 0 <= i < |texts| ==> IsALine(texts[i])
    ensures Lines(JoinLf(texts)) == texts
  {
    assert forall i :: 0 <= i < |texts| ==> IsALine(texts[i]) && '\n' !in texts[i];
    SplitUndoesJoin(texts);
    LinesOfSplit(JoinLf(texts), texts);
  }

  lemma NothingTrimmedOfJoined(texts: seq<string>)
    requires texts != [] && (forall i :: 0 <= i < |texts| ==> IsALine(texts[i])) && EndsSolid(Last(texts))
    ensures Trim(JoinLf(texts)) == JoinLf(texts) != ""
  {
    JoinEnds(texts);
    NothingToTrim(JoinLf(texts));
  }

  /** The lines of a written frame are the lines written. */
  lemma LinesAreRead(lines: seq<Line>)
    requires lines != [] && (forall i :: 0 <= i < |lines| ==> CanBeWritten(lines[i])) && EndsSolid(Written(Last(lines)))
    ensures var frame := JoinLf(AllWritten(lines));
            Trim(frame) == frame && frame != "" && Lines(frame) == AllWritten(lines)
  {
    var texts := AllWritten(lines);
    forall i | 0 <= i < |texts|
      ensures IsALine(texts[i])
    {
      WrittenIsALine(lines[i]);
    }
    LinesOfJoined(texts);
    NothingTrimmedOfJoined(texts);
  }

  /**
   * A frame of any lines is read as the event its data lines spell together, joined by
   * line feeds; it is none when its last name is "ping", or its data is missing or "[DONE]".
   */
  lemma WrittenLinesAreRead<E(!new)>(d: Decoder<E>, lines: seq<Line>)
    requires lines != [] && (forall i :: 0 <= i < |lines| ==> CanBeWritten(lines[i])) && EndsSolid(Written(Last(lines)))
    ensures var p := FrameEvent(d, JoinLf(AllWritten(lines)));
            var values := ValuesIn(lines, |lines|);
            var payload := JoinLf(values);
            && (p.NoEvent? <==> NameIn(lines, |lines|) == Some("ping") || values == [] || payload == "[DONE]")
            && (p.Event? ==> d.json(payload) == Some(p.event))
            && (p.Bad? ==> d.json(payload).None? && p.payload == payload)
  {
    LinesAreRead(lines);
    FieldsAreRead(lines, |lines|);
  }

  /** A payload of several lines, one `data: ` line for each. */
  function DataLines(values: seq<string>): (lines: seq<Line>)
    ensures |lines| == |values| && forall i :: 0 <= i < |values| ==> lines[i] == Data(" ", values[i])
  {
    seq(|values|, i requires 0 <= i < |values| => Data(" ", values[i]))
  }

  lemma {:induction false} NamedData(name: string, values: seq<string>, n: nat)
    requires n <= |values|
    ensures var lines := [Name(" ", name, "")] + DataLines(values);
            NameIn(lines, n + 1) == Some(name) && ValuesIn(lines, n + 1) == values[..n]
  {
    var lines := [Name(" ", name, "")] + DataLines(values);
    if n == 0 {
      assert lines[0] == Name(" ", name, "") && ValuesIn(lines, 0) == [];
    } else {
      NamedData(name, values, n - 1);
      assert lines[n] == Data(" ", values[n - 1]);
      assert values[..n] == values[..n - 1] + [values[n - 1]];
    }
  }

  lemma NamedDataCanBeWritten(name: string, values: seq<string>)
    requires IsPlain(name) && values != [] && EndsSolid(Last(values)) && forall i :: 0 <= i < |values| ==> IsValue(values[i])
    ensures var lines := [Name(" ", name, "")] + DataLines(values);
            (forall i :: 0 <= i < |lines| ==> CanBeWritten(lines[i])) && EndsSolid(Written(Last(lines)))
  {
    var end := Last(values);
    assert Last([Name(" ", name, "")] + DataLines(values)) == Data(" ", end);
    assert Written(Data(" ", end))[|end| + 5] == end[|end| - 1];
  }

  /** Any payload whose lines keep their ends, written under a name, is read whole. */
  lemma WrittenPayloadIsRead<E(!new)>(d: Decoder<E>, name: string, payload: string)
    requires IsPlain(name) && EndsSolid(Last(SplitLf(payload)))
    requires forall i :: 0 <= i < |SplitLf(payload)| ==> IsValue(SplitLf(payload)[i])
    ensures var p := FrameEvent(d, JoinLf(AllWritten([Name(" ", name, "")] + DataLines(SplitLf(payload)))));
            && (p.NoEvent? <==> name == "ping" || payload == "[DONE]")
            && (p.Event? ==> d.json(payload) == Some(p.event))
            && (p.Bad? ==> d.json(payload).None? && p.payload == payload)
  {
    JoinUndoesSplit(payload);
    NamedValuesAreRead(d, name, SplitLf(payload));
  }

  lemma NamedDataInAll(name: string, values: seq<string>)
    ensures var lines := [Name(" ", name, "")] + DataLines(values);
            NameIn(lines, |lines|) == Some(name) && ValuesIn(lines, |lines|) == values
  {
    NamedData(name, values, |values|);
    assert values[..|values|] == values;
  }

  lemma NamedValuesAreRead<E(!new)>(d: Decoder<E>, name: string, values: seq<string>)
    requires IsPlain(name) && values != [] && EndsSolid(Last(values)) && forall i :: 0 <= i < |values| ==> IsValue(values[i])
    ensures var p := FrameEvent(d, JoinLf(AllWritten([Name(" ", name, "")] + DataLines(values))));
            var payload := JoinLf(values);
            && (p.NoEvent? <==> name == "ping" || payload == "[DONE]")
            && (p.Event? ==> d.json(payload) == Some(p.event))
            && (p.Bad? ==> d.json(payload).None? && p.payload == payload)
  {
    NamedDataCanBeWritten(name, values);
    NamedDataInAll(name, values);
    WrittenLinesAreRead(d, [Name(" ", name, "")] + DataLines(values));
  }

  /** A stream that ends without its last separator ends with the same event: `finish` reads what is left as a frame. */
  lemma LastSeparatorMayBeMissing<E(!new)>(d: Decoder<E>, f: Frame)
    requires IsFrame(f) && f.text != []
    ensures Pushed(d, f.text + f.separator) == (Finished(d, f.text), [])
  {
    PushedLast(d, f);
  }
}
