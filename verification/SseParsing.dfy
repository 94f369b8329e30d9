/**
 * The incremental parser of an event stream (rust/crates/api/src/sse.rs): frames
 * as `SseFraming` cuts them, and one event for each frame that carries data.
 */
module SseParsing {
  import opened Wrappers
  import opened Text
  import opened SseFraming

  /** The decoding the parser calls: lossy UTF-8, and JSON to an event. */
  datatype Decoder<!E(!new)> = Decoder(utf8: seq<Byte> -> string, json: string -> Option<E>)

  /** An event, a frame that carries none, or a payload that is not an event. */
  datatype Parsed<+E> = Event(event: E) | NoEvent | Bad(payload: string)

  // ------------------------------------------------------------ one frame

  /** The characters `str::trim` removes. */
  predicate IsSpace(c: char) {
    var n := c as int;
    9 <= n <= 13 || n == 32 || n == 0x85 || n == 0xA0 || n == 0x1680 || 0x2000 <= n <= 0x200A
    || n == 0x2028 || n == 0x2029 || n == 0x202F || n == 0x205F || n == 0x3000
  }

  function Trim(s: string): (r: string) {
    TrimEnd(IsSpace, TrimStart(IsSpace, s))
  }

  function WithoutCrs(lines: seq<string>): (r: seq<string>)
    ensures |r| == |lines|
  {
    seq(|lines|, i requires 0 <= i < |lines| => WithoutCr(lines[i]))
  }

  /** `str::lines` */
  function Lines(s: string): (lines: seq<string>) {
    var parts := SplitLf(s);
    WithoutCrs(Init(parts)) + (if Last(parts) == "" then [] else [Last(parts)])
  }

  predicate StartsWith(s: string, prefix: string) {
    prefix <= s
  }

  /** What the lines of a frame say so far. */
  datatype Fields = Fields(name: Option<string>, data: seq<string>)

  function AddLine(f: Fields, line: string): (r: Fields) {
    if StartsWith(line, ":") then f
    else if StartsWith(line, "event:") then f.(name := Some(Trim(line[6..])))
    else if StartsWith(line, "data:") then f.(data := f.data + [TrimStart(IsSpace, line[5..])])
    else f
  }

  function FieldsOf(lines: seq<string>, n: nat): (f: Fields)
    requires n <= |lines|
  {
    if n == 0 then Fields(None, []) else AddLine(FieldsOf(lines, n - 1), lines[n - 1])
  }

  function EventOf<E(!new)>(d: Decoder<E>, f: Fields): (p: Parsed<E>) {
    if f.name == Some("ping") || f.data == [] then NoEvent
    else
      var payload := JoinLf(f.data);
      if payload == "[DONE]" then NoEvent
      else match d.json(payload)
        case Some(e) => Event(e)
        case None => Bad(payload)
  }

  function FrameEvent<E(!new)>(d: Decoder<E>, frame: string): (p: Parsed<E>) {
    var trimmed := Trim(frame);
    if trimmed == "" then NoEvent
    else
      var lines := Lines(trimmed);
      EventOf(d, FieldsOf(lines, |lines|))
  }

  method ParseFrame<E(!new)>(d: Decoder<E>, frame: string) returns (p: Parsed<E>)
    ensures p == FrameEvent(d, frame)
  {
    var trimmed := Trim(frame);
    if trimmed == "" {
      return NoEvent;
    }
    var lines := Lines(trimmed);
    var dataLines: seq<string> := [];
    var eventName: Option<string> := None;
    for i := 0 to |lines|
      invariant Fields(eventName, dataLines) == FieldsOf(lines, i)
    {
      var line := lines[i];
      if StartsWith(line, ":") {
        continue;
      }
      if StartsWith(line, "event:") {
        eventName := Some(Trim(line[6..]));
        continue;
      }
      if StartsWith(line, "data:") {
        dataLines := dataLines + [TrimStart(IsSpace, line[5..])];
      }
    }
    if eventName == Some("ping") || dataLines == [] {
      return NoEvent;
    }
    var payload := JoinLf(dataLines);
    if payload == "[DONE]" {
      return NoEvent;
    }
    var event := d.json(payload);
    return if event.Some? then Event(event.value) else Bad(payload);
  }

  /** A payload on one line that no trimming can touch. */
  predicate IsPlain(s: string) {
    s != "" && '\n' !in s && !IsSpace(s[0]) && !IsSpace(s[|s| - 1])
  }

  /** A named event written on two lines comes back as its payload's event. */
  lemma WrittenEventIsRead<E(!new)>(d: Decoder<E>, name: string, payload: string)
    requires IsPlain(name) && IsPlain(payload)
    ensures FrameEvent(d, "event: " + name + "\n" + ("data: " + payload))
         == if name == "ping" || payload == "[DONE]" then NoEvent
            else if d.json(payload).Some? then Event(d.json(payload).value)
            else Bad(payload)
  {
    var first, second := "event: " + name, "data: " + payload;
    var frame := first + "\n" + second;
    assert frame == "event: " + name + "\n" + ("data: " + payload);
    LinesOfWritten(name, payload);
    NamedLine(name);
    DataLine(payload);
    var lines := [first, second];
    assert FieldsOf(lines, 0) == Fields(None, []);
    assert FieldsOf(lines, 1) == Fields(Some(name), []);
    assert FieldsOf(lines, 2) == Fields(Some(name), [payload]);
  }

  lemma LinesOfWritten(name: string, payload: string)
    requires IsPlain(name) && IsPlain(payload)
    ensures var frame := "event: " + name + "\n" + ("data: " + payload);
            Trim(frame) == frame && Lines(frame) == ["event: " + name, "data: " + payload]
  {
    LabelledIsPlain("event: ", name);
    LabelledIsPlain("data: ", payload);
    LinesOfTwo("event: " + name, "data: " + payload);
  }

  lemma LabelledIsPlain(label_: string, s: string)
    requires IsPlain(s) && label_ in {"event: ", "data: "}
    ensures IsPlain(label_ + s)
  {
    var all := label_ + s;
    assert all[0] == label_[0] && all[|all| - 1] == s[|s| - 1];
  }

  lemma LinesOfTwo(first: string, second: string)
    requires IsPlain(first) && IsPlain(second)
    ensures Trim(first + "\n" + second) == first + "\n" + second
    ensures Lines(first + "\n" + second) == [first, second]
  {
    var frame := first + "\n" + second;
    TwoLines(first, second);
    assert frame == first + ("\n" + second);
    assert frame[0] == first[0] && frame[|frame| - 1] == second[|second| - 1];
    NothingToTrim(frame);
    assert WithoutCr(first) == first;
  }

  lemma NothingToTrim(s: string)
    requires s != "" && !IsSpace(s[0]) && !IsSpace(s[|s| - 1])
    ensures Trim(s) == s
  {}

  lemma TrimPlain(s: string)
    requires IsPlain(s)
    ensures TrimStart(IsSpace, " " + s) == s && Trim(" " + s) == s && Trim(s) == s
  {
    assert TrimStart(IsSpace, s) == s && TrimEnd(IsSpace, s) == s;
    assert (" " + s)[0] == ' ' && (" " + s)[1..] == s;
  }

  lemma TwoLines(first: string, second: string)
    requires '\n' !in first && '\n' !in second
    ensures SplitLf(first + ("\n" + second)) == [first, second]
  {
    SplitAtFeed(first, second);
    SplitLfOneLine(second);
  }

  lemma NamedLine(name: string)
    requires IsPlain(name)
    ensures AddLine(Fields(None, []), "event: " + name) == Fields(Some(name), [])
  {
    var line := "event: " + name;
    assert line[6..] == " " + name && (" " + name)[1..] == name;
    assert line[0] == 'e' && line[..6] == "event:";
    TrimPlain(name);
  }

  lemma DataLine(payload: string)
    requires IsPlain(payload)
    ensures forall f :: AddLine(f, "data: " + payload) == Fields(f.name, f.data + [payload])
  {
    var line := "data: " + payload;
    assert line[5..] == " " + payload && (" " + payload)[1..] == payload;
    assert line[0] == 'd' && line[..5] == "data:";
    TrimPlain(payload);
  }

  // ----------------------------------------------------------- the stream

  /** The events of one push: an unreadable frame ends it, and what came before is dropped with it. */
  function Pushed<E(!new)>(d: Decoder<E>, buffer: seq<Byte>): (r: (Result<seq<E>, string>, seq<Byte>))
    decreases |buffer|
  {
    match NextCut(buffer)
    case None => (Ok([]), buffer)
    case Some(cut) =>
      NextCutStands(buffer);
      var more := buffer[cut.at + |cut.separator|..];
      var p := FrameEvent(d, d.utf8(buffer[..cut.at]));
      if p.Bad? then (Err(p.payload), more)
      else if p.Event? then Preceded([p.event], Pushed(d, more))
      else Pushed(d, more)
  }

  function Preceded<E>(events: seq<E>, r: (Result<seq<E>, string>, seq<Byte>)): (p: (Result<seq<E>, string>, seq<Byte>)) {
    (match r.0 case Ok(more) => Ok(events + more) case Err(e) => Err(e), r.1)
  }

  function Finished<E(!new)>(d: Decoder<E>, buffer: seq<Byte>): (r: Result<seq<E>, string>) {
    if buffer == [] then Ok([])
    else match FrameEvent(d, d.utf8(buffer))
      case Event(e) => Ok([e])
      case NoEvent => Ok([])
      case Bad(payload) => Err(payload)
  }

  class SseParser<E(!new)> {
    const decoder: Decoder<E>
    var buffer: seq<Byte>

    constructor (decoder: Decoder<E>)
      ensures buffer == [] && this.decoder == decoder
    {
      this.decoder := decoder;
      buffer := [];
    }

    /** The first frame of the buffer, which it leaves with its separator. */
    method NextFrame() returns (frame: Option<string>)
      modifies this
      ensures NextCut(old(buffer)).None? ==> frame.None? && buffer == old(buffer)
      ensures NextCut(old(buffer)).Some? ==>
                var cut := NextCut(old(buffer)).value;
                && cut.at + |cut.separator| <= |old(buffer)|
                && buffer == old(buffer)[cut.at + |cut.separator|..]
                && frame == Some(decoder.utf8(old(buffer)[..cut.at]))
    {
      var separator := NextCut(buffer);
      if separator.None? {
        return None;
      }
      var Cut(position, bytes) := separator.value;
      NextCutStands(buffer);
      var frameBytes := buffer[..position + |bytes|];
      assert frameBytes[..position] == buffer[..position];
      buffer := buffer[position + |bytes|..];
      frame := Some(decoder.utf8(frameBytes[..|frameBytes| - |bytes|]));
    }

    method Push(chunk: seq<Byte>) returns (events: Result<seq<E>, string>)
      modifies this
      ensures (events, buffer) == Pushed(decoder, old(buffer) + chunk)
    {
      buffer := buffer + chunk;
      ghost var whole := buffer;
      var found: seq<E> := [];
      PrecededByNone(Pushed(decoder, whole));
      while true
        invariant Preceded(found, Pushed(decoder, buffer)) == Pushed(decoder, whole)
        decreases |buffer|
      {
        ghost var before := buffer;
        NextCutStands(buffer);
        var frame := NextFrame();
        if frame.None? {
          assert found + [] == found;
          break;
        }
        var parsed := ParseFrame(decoder, frame.value);
        if parsed.Bad? {
          return Err(parsed.payload);
        }
        if parsed.Event? {
          PrecededTwice(found, [parsed.event], Pushed(decoder, buffer));
          found := found + [parsed.event];
        }
      }
      events := Ok(found);
    }

    method Finish() returns (events: Result<seq<E>, string>)
      modifies this
      ensures events == Finished(decoder, old(buffer)) && buffer == []
    {
      if buffer == [] {
        return Ok([]);
      }
      var trailing := buffer;
      buffer := [];
      var parsed := ParseFrame(decoder, decoder.utf8(trailing));
      if parsed.Event? {
        return Ok([parsed.event]);
      }
      return if parsed.Bad? then Err(parsed.payload) else Ok([]);
    }
  }

  lemma PrecededByNone<E>(r: (Result<seq<E>, string>, seq<Byte>))
    ensures Preceded([], r) == r
  {
    if r.0.Ok? {
      assert [] + r.0.value == r.0.value;
    }
  }

  lemma PrecededTwice<E>(x: seq<E>, y: seq<E>, r: (Result<seq<E>, string>, seq<Byte>))
    ensures Preceded(x, Preceded(y, r)) == Preceded(x + y, r)
  {
    if r.0.Ok? {
      assert x + (y + r.0.value) == x + y + r.0.value;
    }
  }

  // --------------------------------------------------------------- chunks

  function EventOfFrame<E(!new)>(d: Decoder<E>, frame: Frame): (p: Parsed<E>) {
    FrameEvent(d, d.utf8(frame.text))
  }

  ghost predicate AllParse<E(!new)>(d: Decoder<E>, frames: seq<Frame>) {
    forall i :: 0 <= i < |frames| ==> !EventOfFrame(d, frames[i]).Bad?
  }

  function EventsOf<E(!new)>(d: Decoder<E>, frames: seq<Frame>): (events: seq<E>) {
    if frames == [] then []
    else
      var p := EventOfFrame(d, frames[0]);
      (if p.Event? then [p.event] else []) + EventsOf(d, frames[1..])
  }

  /** When every frame parses, a push gives the events of all frames it completes. */
  lemma {:induction false} PushedGivesAll<E(!new)>(d: Decoder<E>, buffer: seq<Byte>)
    requires AllParse(d, Drain(buffer).frames)
    ensures Pushed(d, buffer) == (Ok(EventsOf(d, Drain(buffer).frames)), Drain(buffer).rest)
    decreases |buffer|
  {
    if SeparatorFree(buffer) {
      NothingDrained(buffer);
      NextCutIsFirst(buffer);
    } else {
      var frame, more := FirstFrameOf(buffer);
      DrainRule(buffer, frame, more);
      var frames := Drain(buffer).frames;
      assert frames[0] == frame && frames[1..] == Drain(more).frames;
      assert forall i {:trigger frames[1..][i]} :: 0 <= i < |frames[1..]| ==> frames[1..][i] == frames[i + 1];
      PushedGivesAll(d, more);
      PushedRule(d, buffer, frame, more);
      PrecededByNone(Pushed(d, more));
    }
  }

  lemma PushedRule<E(!new)>(d: Decoder<E>, buffer: seq<Byte>, frame: Frame, more: seq<Byte>)
    requires buffer == frame.text + frame.separator + more && IsFirstCut(buffer, Cut(|frame.text|, frame.separator))
    ensures var p := EventOfFrame(d, frame);
            Pushed(d, buffer) == if p.Bad? then (Err(p.payload), more)
                                 else if p.Event? then Preceded([p.event], Pushed(d, more))
                                 else Pushed(d, more)
  {
    NextCutIsFirst(buffer);
    assert buffer[..|frame.text|] == frame.text && buffer[|frame.text| + |frame.separator|..] == more;
  }

  /** All pushes of a stream; the first error ends it. */
  function PushAll<E(!new)>(d: Decoder<E>, buffer: seq<Byte>, chunks: seq<seq<Byte>>): (r: (Result<seq<E>, string>, seq<Byte>))
    decreases |chunks|
  {
    if chunks == [] then (Ok([]), buffer)
    else
      var first := Pushed(d, buffer + chunks[0]);
      if first.0.Err? then first else Preceded(first.0.value, PushAll(d, first.1, chunks[1..]))
  }

  lemma {:induction false} EventsOfBoth<E(!new)>(d: Decoder<E>, x: seq<Frame>, y: seq<Frame>)
    ensures EventsOf(d, x + y) == EventsOf(d, x) + EventsOf(d, y)
  {
    if x == [] {
      assert x + y == y;
    } else {
      assert (x + y)[1..] == x[1..] + y;
      EventsOfBoth(d, x[1..], y);
      var p := EventOfFrame(d, x[0]);
      Regroup(if p.Event? then [p.event] else [], EventsOf(d, x[1..]), EventsOf(d, y));
    }
  }

  lemma AllParseBoth<E(!new)>(d: Decoder<E>, x: seq<Frame>, y: seq<Frame>)
    requires AllParse(d, x + y)
    ensures AllParse(d, x) && AllParse(d, y)
  {
    assert forall i :: 0 <= i < |x| ==> (x + y)[i] == x[i];
    assert forall i :: 0 <= i < |y| ==> (x + y)[|x| + i] == y[i];
  }

  /** The events of a stream whose frames all parse, and what is left for `finish`, do not depend on the chunks. */
  lemma {:induction false} EventsDoNotDependOnChunks<E(!new)>(d: Decoder<E>, buffer: seq<Byte>, chunks: seq<seq<Byte>>)
    requires SeparatorFree(buffer) && AllParse(d, Drain(buffer + Joined(chunks)).frames)
    ensures var whole := Drain(buffer + Joined(chunks));
            PushAll(d, buffer, chunks) == (Ok(EventsOf(d, whole.frames)), whole.rest)
    decreases |chunks|
  {
    if chunks == [] {
      NothingDrained(buffer);
      assert buffer + [] == buffer;
    } else {
      var here := buffer + chunks[0];
      var first, next := Drain(here), Drain(Drain(here).rest + Joined(chunks[1..]));
      Regrouped(buffer, chunks);
      DrainAppend(here, Joined(chunks[1..]));
      AllParseBoth(d, first.frames, next.frames);
      PushedGivesAll(d, here);
      RestIsSeparatorFree(here);
      EventsDoNotDependOnChunks(d, first.rest, chunks[1..]);
      EventsOfBoth(d, first.frames, next.frames);
    }
  }

  /** Two ways to cut the same stream give the same events, pushes and `finish` together. */
  lemma SameStreamSameEvents<E(!new)>(d: Decoder<E>, chunks: seq<seq<Byte>>, others: seq<seq<Byte>>)
    requires Joined(chunks) == Joined(others) && AllParse(d, Drain(Joined(chunks)).frames)
    ensures PushAll(d, [], chunks) == PushAll(d, [], others)
    ensures Finished(d, PushAll(d, [], chunks).1) == Finished(d, PushAll(d, [], others).1)
  {
    assert [] + Joined(chunks) == Joined(chunks);
    EventsDoNotDependOnChunks(d, [], chunks);
    EventsDoNotDependOnChunks(d, [], others);
  }

  lemma PushedLast<E(!new)>(d: Decoder<E>, f: Frame)
    requires IsFrame(f)
    ensures var p := EventOfFrame(d, f);
            Pushed(d, f.text + f.separator) == (if p.Bad? then Err(p.payload) else Ok(if p.Event? then [p.event] else []), [])
  {
    PushedFrame(d, f, []);
    PushedNothing(d);
    assert f.text + f.separator + [] == f.text + f.separator;
    var p := EventOfFrame(d, f);
    assert p.Event? ==> [p.event] + [] == [p.event];
  }

  lemma PushedNothing<E(!new)>(d: Decoder<E>)
    ensures Pushed(d, []) == (Ok([]), [])
  {
    assert SeparatorFree([]);
    NextCutIsFirst([]);
  }

  lemma PushedFrame<E(!new)>(d: Decoder<E>, f: Frame, more: seq<Byte>)
    requires IsFrame(f)
    ensures var p := EventOfFrame(d, f);
            Pushed(d, f.text + f.separator + more) == if p.Bad? then (Err(p.payload), more)
                                                      else if p.Event? then Preceded([p.event], Pushed(d, more))
                                                      else Pushed(d, more)
  {
    FrameIsFirstCut(f, more);
    PushedRule(d, f.text + f.separator + more, f, more);
  }
}
