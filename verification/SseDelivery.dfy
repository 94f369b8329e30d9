/**
 * What the caller of the stream parser is handed, push by push, when a frame
 * may not parse: exactly when that depends on how the stream was cut.
 */
module SseDelivery {
  import opened Wrappers
  import opened Text
  import opened SseFraming
  import opened SseParsing

  /** The events handed out: those of each push up to the first that fails, which hands out none. */
  function Delivered<E(!new)>(d: Decoder<E>, buffer: seq<Byte>, chunks: seq<seq<Byte>>): (events: seq<E>)
    decreases |chunks|
  {
    if chunks == [] then []
    else
      var first := Pushed(d, buffer + chunks[0]);
      if first.0.Err? then [] else first.0.value + Delivered(d, first.1, chunks[1..])
  }

  /** The events of the frames before the first one that does not parse. */
  function Before<E(!new)>(d: Decoder<E>, frames: seq<Frame>): (events: seq<E>) {
    if frames == [] then []
    else
      var p := EventOfFrame(d, frames[0]);
      if p.Bad? then [] else (if p.Event? then [p.event] else []) + Before(d, frames[1..])
  }

  /** The payload of the first frame that does not parse. */
  function FirstBad<E(!new)>(d: Decoder<E>, frames: seq<Frame>): (payload: Option<string>) {
    if frames == [] then None
    else
      var p := EventOfFrame(d, frames[0]);
      if p.Bad? then Some(p.payload) else FirstBad(d, frames[1..])
  }

  lemma {:induction false} NoBadMeansAllParse<E(!new)>(d: Decoder<E>, frames: seq<Frame>)
    ensures FirstBad(d, frames).None? <==> AllParse(d, frames)
  {
    if frames != [] {
      NoBadMeansAllParse(d, frames[1..]);
      AllParseFirst(d, frames);
    }
  }

  lemma AllParseFirst<E(!new)>(d: Decoder<E>, frames: seq<Frame>)
    requires frames != []
    ensures AllParse(d, frames) <==> !EventOfFrame(d, frames[0]).Bad? && AllParse(d, frames[1..])
  {
    var rest := frames[1..];
    assert forall i {:trigger rest[i]} :: 0 <= i < |rest| ==> rest[i] == frames[i + 1];
    assert forall i {:trigger frames[i]} :: 0 < i < |frames| ==> frames[i] == rest[i - 1];
  }

  /** Frames that all parse come before whatever follows them. */
  lemma {:induction false} BeforeAppend<E(!new)>(d: Decoder<E>, x: seq<Frame>, y: seq<Frame>)
    requires FirstBad(d, x).None?
    ensures Before(d, x + y) == EventsOf(d, x) + Before(d, y)
    ensures FirstBad(d, x + y) == FirstBad(d, y)
  {
    if x == [] {
      assert x + y == y;
    } else {
      assert (x + y)[1..] == x[1..] + y;
      BeforeAppend(d, x[1..], y);
      var p := EventOfFrame(d, x[0]);
      Regroup(if p.Event? then [p.event] else [], EventsOf(d, x[1..]), Before(d, y));
    }
  }

  lemma {:induction false} BadStaysFirst<E(!new)>(d: Decoder<E>, x: seq<Frame>, y: seq<Frame>)
    requires FirstBad(d, x).Some?
    ensures FirstBad(d, x + y) == FirstBad(d, x)
  {
    assert (x + y)[1..] == x[1..] + y;
    if !EventOfFrame(d, x[0]).Bad? {
      BadStaysFirst(d, x[1..], y);
    }
  }

  /** One push: all events when every frame it completes parses, and the first bad payload otherwise. */
  lemma {:induction false} PushedGives<E(!new)>(d: Decoder<E>, buffer: seq<Byte>)
    ensures var frames := Drain(buffer).frames;
            if FirstBad(d, frames).None?
            then Pushed(d, buffer) == (Ok(EventsOf(d, frames)), Drain(buffer).rest)
            else Pushed(d, buffer).0 == Err(FirstBad(d, frames).value)
    decreases |buffer|
  {
    NoBadMeansAllParse(d, Drain(buffer).frames);
    if FirstBad(d, Drain(buffer).frames).None? {
      PushedGivesAll(d, buffer);
    } else if SeparatorFree(buffer) {
      NothingDrained(buffer);
    } else {
      var frame, more := FirstFrameOf(buffer);
      DrainRule(buffer, frame, more);
      PushedRule(d, buffer, frame, more);
      assert Drain(buffer).frames[0] == frame && Drain(buffer).frames[1..] == Drain(more).frames;
      if !EventOfFrame(d, frame).Bad? {
        PushedGives(d, more);
      }
    }
  }

  /** What the first chunk completes, and what is left to the others. */
  lemma FirstChunk(buffer: seq<Byte>, chunks: seq<seq<Byte>>)
    requires chunks != []
    ensures var here := Drain(buffer + chunks[0]);
            Drain(buffer + Joined(chunks)).frames == here.frames + Drain(here.rest + Joined(chunks[1..])).frames
  {
    Regrouped(buffer, chunks);
    DrainAppend(buffer + chunks[0], Joined(chunks[1..]));
  }

  /** The events handed out are all those before the first bad frame, if there is no bad frame or nothing before it. */
  lemma {:induction false} DeliveredIsBefore<E(!new)>(d: Decoder<E>, buffer: seq<Byte>, chunks: seq<seq<Byte>>)
    requires SeparatorFree(buffer)
    requires var frames := Drain(buffer + Joined(chunks)).frames;
             FirstBad(d, frames).None? || Before(d, frames) == []
    ensures Delivered(d, buffer, chunks) == Before(d, Drain(buffer + Joined(chunks)).frames)
    decreases |chunks|
  {
    if chunks == [] {
      assert buffer + [] == buffer;
      NothingDrained(buffer);
    } else {
      var here := Drain(buffer + chunks[0]);
      var others := Drain(here.rest + Joined(chunks[1..])).frames;
      FirstChunk(buffer, chunks);
      PushedGives(d, buffer + chunks[0]);
      if FirstBad(d, here.frames).None? {
        BeforeAppend(d, here.frames, others);
        RestIsSeparatorFree(buffer + chunks[0]);
        DeliveredIsBefore(d, here.rest, chunks[1..]);
      } else {
        BadStaysFirst(d, here.frames, others);
      }
    }
  }

  /** However the stream is cut, the error is the first bad frame's. */
  lemma {:induction false} ErrorDoesNotDependOnChunks<E(!new)>(d: Decoder<E>, buffer: seq<Byte>, chunks: seq<seq<Byte>>)
    requires SeparatorFree(buffer)
    ensures var bad := FirstBad(d, Drain(buffer + Joined(chunks)).frames);
            var all := PushAll(d, buffer, chunks).0;
            if bad.None? then all.Ok? else all == Err(bad.value)
    decreases |chunks|
  {
    if chunks == [] {
      assert buffer + [] == buffer;
      NothingDrained(buffer);
    } else {
      var here := Drain(buffer + chunks[0]);
      var others := Drain(here.rest + Joined(chunks[1..])).frames;
      FirstChunk(buffer, chunks);
      PushedGives(d, buffer + chunks[0]);
      if FirstBad(d, here.frames).None? {
        BeforeAppend(d, here.frames, others);
        RestIsSeparatorFree(buffer + chunks[0]);
        ErrorDoesNotDependOnChunks(d, here.rest, chunks[1..]);
      } else {
        BadStaysFirst(d, here.frames, others);
      }
    }
  }

  /** A chunk that is one frame: its event is handed out, and without one the rest of the chunks are. */
  lemma DeliversFrame<E(!new)>(d: Decoder<E>, nothing: seq<Byte>, frame: Frame, rest: seq<seq<Byte>>)
    requires IsFrame(frame) && nothing == [] && !EventOfFrame(d, frame).Bad?
    ensures var all := Delivered(d, nothing, [frame.text + frame.separator] + rest);
            if EventOfFrame(d, frame).Event? then all != [] else all == Delivered(d, nothing, rest)
  {
    var chunks := [frame.text + frame.separator] + rest;
    PushedLast(d, frame);
    assert chunks[0] == frame.text + frame.separator && chunks[1..] == rest && nothing + chunks[0] == chunks[0];
  }

  lemma JoinedFirst(chunk: seq<Byte>, rest: seq<seq<Byte>>)
    ensures Joined([chunk] + rest) == chunk + Joined(rest)
  {
    assert ([chunk] + rest)[1..] == rest;
  }

  /** A way to cut the stream so that some event is handed out: one chunk for each frame. */
  lemma {:induction false} SomeCutDelivers<E(!new)>(d: Decoder<E>, stream: seq<Byte>, nothing: seq<Byte>) returns (chunks: seq<seq<Byte>>)
    requires Before(d, Drain(stream).frames) != [] && nothing == []
    ensures Joined(chunks) == stream && Delivered(d, nothing, chunks) != []
    decreases |stream|
  {
    if SeparatorFree(stream) {
      NothingDrained(stream);
      chunks := [];
    } else {
      var frame, more := FirstFrameOf(stream);
      DrainRule(stream, frame, more);
      BeforeFirst(d, Drain(stream).frames, frame, Drain(more).frames);
      FirstIsFrame(stream, frame, more);
      var rest := [more];
      if EventOfFrame(d, frame).NoEvent? {
        rest := SomeCutDelivers(d, more, nothing);
      } else {
        JoinedOne(more);
      }
      JoinedFirst(frame.text + frame.separator, rest);
      DeliversFrame(d, nothing, frame, rest);
      chunks := [frame.text + frame.separator] + rest;
    }
  }

  lemma BeforeFirst<E(!new)>(d: Decoder<E>, frames: seq<Frame>, frame: Frame, rest: seq<Frame>)
    requires frames == [frame] + rest && Before(d, frames) != []
    ensures !EventOfFrame(d, frame).Bad? && (EventOfFrame(d, frame).NoEvent? ==> Before(d, rest) != [])
  {
    assert frames[0] == frame && frames[1..] == rest;
  }

  lemma JoinedOne(chunk: seq<Byte>)
    ensures Joined([chunk]) == chunk
  {
    assert Joined([chunk][1..]) == [];
  }

  lemma FirstIsFrame(stream: seq<Byte>, frame: Frame, more: seq<Byte>)
    requires stream == frame.text + frame.separator + more && IsFirstCut(stream, Cut(|frame.text|, frame.separator))
    ensures IsFrame(frame)
  {
    FirstFrame(stream, Cut(|frame.text|, frame.separator));
    assert stream[..|frame.text|] == frame.text;
  }

  ghost predicate DeliversTheSame<E(!new)>(d: Decoder<E>, stream: seq<Byte>) {
    forall chunks :: Joined(chunks) == stream ==> Delivered(d, [], chunks) == Delivered(d, [], [stream])
  }

  /**
   * What the caller is handed does not depend on the chunks exactly when every
   * frame parses, or no event comes before the first one that does not.
   */
  lemma DeliveryDoesNotDependOnChunks<E(!new)>(d: Decoder<E>, stream: seq<Byte>)
    ensures DeliversTheSame(d, stream)
            <==> AllParse(d, Drain(stream).frames) || Before(d, Drain(stream).frames) == []
  {
    var frames := Drain(stream).frames;
    NoBadMeansAllParse(d, frames);
    assert SeparatorFree([]) && [] + stream == stream;
    JoinedOne(stream);
    if FirstBad(d, frames).None? || Before(d, frames) == [] {
      forall chunks | Joined(chunks) == stream
        ensures Delivered(d, [], chunks) == Delivered(d, [], [stream])
      {
        DeliveredIsBefore(d, [], chunks);
        DeliveredIsBefore(d, [], [stream]);
      }
    } else {
      var chunks := SomeCutDelivers(d, stream, []);
      PushedGives(d, stream);
      assert Delivered(d, [], [stream]) == [];
      assert Delivered(d, [], chunks) != Delivered(d, [], [stream]);
    }
  }

  /** An event and a bad frame after it: cut between them the event is handed out, and in one push it is lost. */
  lemma EventsLostWithError<E(!new)>(d: Decoder<E>, good: Frame, bad: Frame)
    requires IsFrame(good) && IsFrame(bad)
    requires EventOfFrame(d, good).Event? && EventOfFrame(d, bad).Bad?
    ensures var x, y := good.text + good.separator, bad.text + bad.separator;
            && Delivered(d, [], [x, y]) == [EventOfFrame(d, good).event]
            && Delivered(d, [], [x + y]) == []
            && !DeliversTheSame(d, x + y)
  {
    var x, y := good.text + good.separator, bad.text + bad.separator;
    TwoPushes(d, good, bad);
    OnePush(d, good, bad);
    JoinedOne(y);
    assert Joined([x, y]) == x + y by {
      assert [x, y][1..] == [y];
    }
  }

  lemma TwoPushes<E(!new)>(d: Decoder<E>, good: Frame, bad: Frame)
    requires IsFrame(good) && IsFrame(bad)
    requires EventOfFrame(d, good).Event? && EventOfFrame(d, bad).Bad?
    ensures Delivered(d, [], [good.text + good.separator, bad.text + bad.separator]) == [EventOfFrame(d, good).event]
  {
    var x, y := good.text + good.separator, bad.text + bad.separator;
    PushedLast(d, good);
    PushedLast(d, bad);
    assert [] + x == x && [] + y == y && [x, y][1..] == [y];
    assert Delivered(d, [], [y]) == [];
  }

  lemma OnePush<E(!new)>(d: Decoder<E>, good: Frame, bad: Frame)
    requires IsFrame(good) && IsFrame(bad)
    requires EventOfFrame(d, good).Event? && EventOfFrame(d, bad).Bad?
    ensures Delivered(d, [], [good.text + good.separator + (bad.text + bad.separator)]) == []
  {
    var y := bad.text + bad.separator;
    PushedLast(d, bad);
    PushedFrame(d, good, y);
    assert [] + (good.text + good.separator + y) == good.text + good.separator + y;
  }
}
