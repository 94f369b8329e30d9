/**
 * One JSON text per line (ui/neuron-client/src/protocol.ts): the splitter that
 * reads lines from chunks, and the encoder it has to undo.
 */
module JsonLines {
  import opened Wrappers
  import opened Text

  // ------------------------------------------------------------ splitting

  /** Lines without their carriage returns, empty ones left out. */
  function Clean(lines: seq<string>): (r: seq<string>) {
    if lines == [] then []
    else if WithoutCr(lines[0]) == "" then Clean(lines[1..])
    else [WithoutCr(lines[0])] + Clean(lines[1..])
  }

  /** The lines one chunk completes, and the tail it leaves. */
  function Fed(buffer: string, chunk: string): (r: (seq<string>, string)) {
    var parts := SplitLf(buffer + chunk);
    (Clean(Init(parts)), Last(parts))
  }

  /** The lines a series of chunks completes, and the tail it leaves. */
  function FedAll(buffer: string, chunks: seq<string>): (r: (seq<string>, string))
    decreases |chunks|
  {
    if chunks == [] then ([], buffer)
    else
      var (lines, tail) := Fed(buffer, chunks[0]);
      var (more, end) := FedAll(tail, chunks[1..]);
      (lines + more, end)
  }

  function Flushed(buffer: string): (rest: Option<string>) {
    var rest := WithoutCr(buffer);
    if rest == "" then None else Some(rest)
  }

  class JsonLineSplitter {
    var buffer: string

    constructor ()
      ensures buffer == ""
    {
      buffer := "";
    }

    method Push(chunk: string) returns (lines: seq<string>)
      modifies this
      ensures (lines, buffer) == Fed(old(buffer), chunk)
      ensures '\n' !in buffer
    {
      buffer := buffer + chunk;
      var parts := SplitLf(buffer);
      SplitLfLines(buffer);
      buffer := Last(parts);
      lines := Clean(Init(parts));
    }

    method Flush() returns (rest: Option<string>)
      modifies this
      ensures rest == Flushed(old(buffer)) && buffer == ""
    {
      rest := Flushed(buffer);
      buffer := "";
    }
  }

  lemma {:induction false} CleanAppend(x: seq<string>, y: seq<string>)
    ensures Clean(x + y) == Clean(x) + Clean(y)
  {
    if x == [] {
      assert x + y == y;
    } else {
      assert (x + y)[1..] == x[1..] + y;
      CleanAppend(x[1..], y);
    }
  }

  /** Two chunks are worth their concatenation, wherever the cut is. */
  lemma FedTwice(buffer: string, x: string, y: string)
    ensures var (lines, tail) := Fed(buffer, x);
            Fed(buffer, x + y) == (lines + Fed(tail, y).0, Fed(tail, y).1)
  {
    var first := SplitLf(buffer + x);
    var second := SplitLf(Last(first) + y);
    SplitLfAppend(buffer + x, y);
    assert buffer + (x + y) == buffer + x + y;
    assert Init(Init(first) + second) == Init(first) + Init(second);
    CleanAppend(Init(first), Init(second));
  }

  /** The lines do not depend on how the text is cut into chunks. */
  lemma {:induction false} ChunkingDoesNotMatter(buffer: string, chunks: seq<string>)
    requires '\n' !in buffer
    ensures FedAll(buffer, chunks) == Fed(buffer, Concat(chunks))
    decreases |chunks|
  {
    if chunks == [] {
      assert buffer + "" == buffer;
      SplitLfOneLine(buffer);
    } else {
      FedTwice(buffer, chunks[0], Concat(chunks[1..]));
      SplitLfLines(buffer + chunks[0]);
      ChunkingDoesNotMatter(Fed(buffer, chunks[0]).1, chunks[1..]);
    }
  }

  /** The lines one after the other, each with its own ending. */
  function Ended(lines: seq<string>, ends: seq<string>): (s: string)
    requires |lines| == |ends|
  {
    if lines == [] then "" else lines[0] + ends[0] + Ended(lines[1..], ends[1..])
  }

  function NonEmpty(lines: seq<string>): (r: seq<string>) {
    if lines == [] then [] else (if lines[0] == "" then [] else [lines[0]]) + NonEmpty(lines[1..])
  }

  predicate IsBare(line: string) {
    '\n' !in line && (line != "" ==> line[|line| - 1] != '\r')
  }

  /** Lines that end in a line feed or a CR-LF pair, in any mixture, come back bare and in order, but for the empty ones. */
  lemma {:induction false} EitherEndingIsRead(lines: seq<string>, ends: seq<string>, tail: string)
    requires |lines| == |ends| && '\n' !in tail
    requires forall i :: 0 <= i < |lines| ==> IsBare(lines[i]) && ends[i] in {"\n", "\r\n"}
    ensures Fed("", Ended(lines, ends) + tail) == (NonEmpty(lines), tail)
  {
    SplitEnded(lines, ends, tail);
    assert "" + (Ended(lines, ends) + tail) == Ended(lines, ends) + tail;
    CleanEnded(lines, ends);
    assert Init(WithCrs(lines, ends) + [tail]) == WithCrs(lines, ends);
  }

  function WithCrs(lines: seq<string>, ends: seq<string>): (r: seq<string>)
    requires |lines| == |ends|
  {
    if lines == [] then [] else [if ends[0] == "\n" then lines[0] else lines[0] + "\r"] + WithCrs(lines[1..], ends[1..])
  }

  lemma SplitEndedNext(line: string, end: string, rest: string, lines: seq<string>)
    requires IsBare(line) && end in {"\n", "\r\n"} && SplitLf(rest) == lines
    ensures SplitLf(line + end + rest) == [if end == "\n" then line else line + "\r"] + lines
  {
    var first := if end == "\n" then line else line + "\r";
    SplitAtFeed(first, rest);
    assert line + end + rest == first + ("\n" + rest);
  }

  lemma {:induction false} SplitEnded(lines: seq<string>, ends: seq<string>, tail: string)
    requires |lines| == |ends| && '\n' !in tail
    requires forall i :: 0 <= i < |lines| ==> IsBare(lines[i]) && ends[i] in {"\n", "\r\n"}
    ensures SplitLf(Ended(lines, ends) + tail) == WithCrs(lines, ends) + [tail]
  {
    if lines == [] {
      assert "" + tail == tail;
      SplitLfOneLine(tail);
    } else {
      var rest := Ended(lines[1..], ends[1..]);
      SplitEnded(lines[1..], ends[1..], tail);
      SplitEndedNext(lines[0], ends[0], rest + tail, WithCrs(lines[1..], ends[1..]) + [tail]);
      Regroup(lines[0] + ends[0], rest, tail);
      Regroup([WithCrs(lines, ends)[0]], WithCrs(lines[1..], ends[1..]), [tail]);
    }
  }

  lemma {:induction false} CleanEnded(lines: seq<string>, ends: seq<string>)
    requires |lines| == |ends| && forall i :: 0 <= i < |lines| ==> IsBare(lines[i])
    ensures Clean(WithCrs(lines, ends)) == NonEmpty(lines)
  {
    if lines != [] {
      CleanEnded(lines[1..], ends[1..]);
      var first := if ends[0] == "\n" then lines[0] else lines[0] + "\r";
      assert IsBare(lines[0]);
      BareLine(lines[0]);
      assert WithCrs(lines, ends)[0] == first && WithCrs(lines, ends)[1..] == WithCrs(lines[1..], ends[1..]);
    }
  }

  lemma BareLine(line: string)
    requires IsBare(line)
    ensures WithoutCr(line) == line && WithoutCr(line + "\r") == line
  {
    assert Init(line + "\r") == line;
  }

  /** What is left at the end is a line too, with a carriage return or without, unless it is empty. */
  lemma FlushGivesTheRest(rest: string)
    requires IsBare(rest)
    ensures Flushed(rest) == Flushed(rest + "\r") == if rest == "" then None else Some(rest)
  {
    BareLine(rest);
  }

  // ------------------------------------------------------------- encoding

  /** The JSON values client messages are made of. */
  datatype Json =
    | Null
    | Bool(b: bool)
    | Number(n: int)
    | String(s: string)
    | Array(items: seq<Json>)
    | Object(members: seq<Member>)

  datatype Member = Member(key: string, value: Json)

  function Digit(d: nat): (c: char)
    requires d < 16
  {
    "0123456789abcdef"[d]
  }

  function Digits(n: nat): (s: string) {
    if n < 10 then [Digit(n)] else Digits(n / 10) + [Digit(n % 10)]
  }

  /** A character as it stands in a JSON string: quotes, backslashes and control characters are escaped. */
  function Escaped(c: char): (s: string) {
    if c == '"' then "\\\""
    else if c == '\\' then "\\\\"
    else if c as int == 8 then "\\b"
    else if c == '\t' then "\\t"
    else if c == '\n' then "\\n"
    else if c as int == 12 then "\\f"
    else if c == '\r' then "\\r"
    else if c < ' ' then "\\u00" + [Digit(c as int / 16), Digit(c as int % 16)]
    else [c]
  }

  function EscapedAll(s: string): (r: string) {
    if s == "" then "" else Escaped(s[0]) + EscapedAll(s[1..])
  }

  function Quoted(s: string): (r: string) {
    "\"" + EscapedAll(s) + "\""
  }

  /** `JSON.stringify` */
  function Stringify(v: Json): (s: string)
    decreases v, 1
  {
    match v
    case Null => "null"
    case Bool(b) => if b then "true" else "false"
    case Number(n) => if n < 0 then "-" + Digits(-n) else Digits(n)
    case String(s) => Quoted(s)
    case Array(items) => "[" + StringifyItems(items) + "]"
    case Object(members) => "{" + StringifyMembers(members) + "}"
  }

  function StringifyItems(items: seq<Json>): (s: string)
    decreases items, 0
  {
    if items == [] then ""
    else Stringify(items[0]) + (if |items| > 1 then "," else "") + StringifyItems(items[1..])
  }

  function StringifyMembers(members: seq<Member>): (s: string)
    decreases members, 0
  {
    if members == [] then ""
    else
      Quoted(members[0].key) + ":" + Stringify(members[0].value) + (if |members| > 1 then "," else "") + StringifyMembers(members[1..])
  }

  /** A message as the splitter is to find it: its JSON text, ended by a line feed. */
  function Encode(message: Json): (line: string) {
    Stringify(message) + "\n"
  }

  /** No control character: in particular no line feed and no carriage return. */
  ghost predicate IsPrintable(s: string) {
    forall i :: 0 <= i < |s| ==> ' ' <= s[i]
  }

  lemma {:induction false} DigitsArePrintable(n: nat)
    ensures IsPrintable(Digits(n)) && Digits(n) != ""
  {
    if n >= 10 {
      DigitsArePrintable(n / 10);
    }
  }

  lemma {:induction false} QuotedIsPrintable(s: string)
    ensures IsPrintable(EscapedAll(s))
  {
    if s != "" {
      QuotedIsPrintable(s[1..]);
      assert IsPrintable(Escaped(s[0]));
    }
  }

  lemma Bracketed(open_: string, s: string, close: string)
    requires IsPrintable(open_) && IsPrintable(s) && IsPrintable(close) && open_ != ""
    ensures IsPrintable(open_ + s + close) && open_ + s + close != ""
  {}

  lemma NumberIsPrintable(n: int)
    ensures var s := Stringify(Number(n));
            IsPrintable(s) && s != ""
  {
    DigitsArePrintable(if n < 0 then -n else n);
  }

  lemma {:induction false} StringifyIsPrintable(v: Json)
    ensures IsPrintable(Stringify(v)) && Stringify(v) != ""
    decreases v, 1
  {
    match v {
      case Null =>
      case Bool(_) =>
      case Number(n) => NumberIsPrintable(n);
      case String(s) =>
        QuotedIsPrintable(s);
        Bracketed("\"", EscapedAll(s), "\"");
      case Array(items) =>
        ItemsArePrintable(items);
        Bracketed("[", StringifyItems(items), "]");
      case Object(members) =>
        MembersArePrintable(members);
        Bracketed("{", StringifyMembers(members), "}");
    }
  }

  lemma {:induction false} ItemsArePrintable(items: seq<Json>)
    ensures IsPrintable(StringifyItems(items))
    decreases items, 0
  {
    if items != [] {
      StringifyIsPrintable(items[0]);
      ItemsArePrintable(items[1..]);
    }
  }

  lemma {:induction false} MembersArePrintable(members: seq<Member>)
    ensures IsPrintable(StringifyMembers(members))
    decreases members, 0
  {
    if members != [] {
      QuotedIsPrintable(members[0].key);
      StringifyIsPrintable(members[0].value);
      MembersArePrintable(members[1..]);
    }
  }

  // ----------------------------------------------------------- round trip

  function EncodeAll(messages: seq<Json>): (s: string) {
    if messages == [] then "" else Encode(messages[0]) + EncodeAll(messages[1..])
  }

  function StringifyAll(messages: seq<Json>): (texts: seq<string>) {
    if messages == [] then [] else [Stringify(messages[0])] + StringifyAll(messages[1..])
  }

  lemma SplitEncodedNext(message: Json, rest: string, lines: seq<string>)
    requires SplitLf(rest) == lines
    ensures SplitLf(Encode(message) + rest) == [Stringify(message)] + lines
  {
    var text := Stringify(message);
    StringifyIsPrintable(message);
    SplitAtFeed(text, rest);
    assert text + "\n" + rest == text + ("\n" + rest);
  }

  lemma {:induction false} SplitEncoded(messages: seq<Json>)
    ensures SplitLf(EncodeAll(messages)) == StringifyAll(messages) + [""]
  {
    if messages != [] {
      SplitEncoded(messages[1..]);
      SplitEncodedNext(messages[0], EncodeAll(messages[1..]), StringifyAll(messages[1..]) + [""]);
      Regroup([Stringify(messages[0])], StringifyAll(messages[1..]), [""]);
    }
  }

  lemma {:induction false} TextsAreClean(messages: seq<Json>)
    ensures Clean(StringifyAll(messages)) == StringifyAll(messages)
  {
    if messages != [] {
      StringifyIsPrintable(messages[0]);
      TextsAreClean(messages[1..]);
    }
  }

  /** Encoded messages, cut anywhere, come back as the same texts in order with nothing left. */
  lemma SplitterUndoesEncoder(messages: seq<Json>, chunks: seq<string>)
    requires Concat(chunks) == EncodeAll(messages)
    ensures FedAll("", chunks) == (StringifyAll(messages), "")
    ensures Flushed(FedAll("", chunks).1) == None
  {
    ChunkingDoesNotMatter("", chunks);
    assert "" + Concat(chunks) == Concat(chunks);
    SplitEncoded(messages);
    TextsAreClean(messages);
    assert Init(StringifyAll(messages) + [""]) == StringifyAll(messages);
  }
}
