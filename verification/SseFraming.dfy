/**
 * Where an event stream is cut into frames (rust/crates/api/src/sse.rs): at the
 * first blank line, which may be two line feeds or two CR-LF pairs.
 */
module SseFraming {
  import opened Wrappers
  import opened Text

  type Byte = b: int | 0 <= b < 256

  const LF: Byte := 10
  const CR: Byte := 13

  const LF_LF: seq<Byte> := [LF, LF]
  const CRLF_CRLF: seq<Byte> := [CR, LF, CR, LF]

  predicate StandsAt(buffer: seq<Byte>, pattern: seq<Byte>, p: int) {
    0 <= p && p + |pattern| <= |buffer| && buffer[p..p + |pattern|] == pattern
  }

  /** `buffer.windows(n).position(..)`, looking from `p` on. */
  function Position(buffer: seq<Byte>, pattern: seq<Byte>, p: nat): (found: Option<nat>)
    ensures found.Some? ==> p <= found.value && StandsAt(buffer, pattern, found.value)
    decreases |buffer| - p
  {
    if p + |pattern| > |buffer| || p >= |buffer| then None
    else if StandsAt(buffer, pattern, p) then Some(p)
    else Position(buffer, pattern, p + 1)
  }

  lemma {:induction false} PositionIsFirst(buffer: seq<Byte>, pattern: seq<Byte>, p: nat, q: nat)
    requires pattern != [] && p <= q && StandsAt(buffer, pattern, q)
    ensures Position(buffer, pattern, p).Some? && Position(buffer, pattern, p).value <= q
    decreases |buffer| - p
  {
    if !StandsAt(buffer, pattern, p) {
      PositionIsFirst(buffer, pattern, p + 1, q);
    }
  }

  /** A separator that starts at `at`. */
  datatype Cut = Cut(at: nat, separator: seq<Byte>)

  /** The separator that starts first, as the parser picks it. */
  function NextCut(buffer: seq<Byte>): (cut: Option<Cut>) {
    match (Position(buffer, LF_LF, 0), Position(buffer, CRLF_CRLF, 0))
    case (None, None) => None
    case (Some(p), None) => Some(Cut(p, LF_LF))
    case (None, Some(q)) => Some(Cut(q, CRLF_CRLF))
    case (Some(p), Some(q)) => if p <= q then Some(Cut(p, LF_LF)) else Some(Cut(q, CRLF_CRLF))
  }

  ghost predicate SeparatorAt(buffer: seq<Byte>, p: int) {
    StandsAt(buffer, LF_LF, p) || StandsAt(buffer, CRLF_CRLF, p)
  }

  ghost predicate SeparatorFree(buffer: seq<Byte>) {
    forall p :: !SeparatorAt(buffer, p)
  }

  ghost predicate IsFirstCut(buffer: seq<Byte>, cut: Cut) {
    && cut.separator in {LF_LF, CRLF_CRLF}
    && StandsAt(buffer, cut.separator, cut.at)
    && forall p :: p < cut.at ==> !SeparatorAt(buffer, p)
  }

  lemma ReadsAt(buffer: seq<Byte>, pattern: seq<Byte>, p: int, k: nat)
    requires StandsAt(buffer, pattern, p) && k < |pattern|
    ensures buffer[p + k] == pattern[k]
  {
    assert buffer[p..p + |pattern|][k] == buffer[p + k];
  }

  lemma NotBoth(buffer: seq<Byte>, p: int)
    ensures !StandsAt(buffer, LF_LF, p) || !StandsAt(buffer, CRLF_CRLF, p)
  {
    if StandsAt(buffer, LF_LF, p) && StandsAt(buffer, CRLF_CRLF, p) {
      ReadsAt(buffer, LF_LF, p, 0);
      ReadsAt(buffer, CRLF_CRLF, p, 0);
      assert false;
    }
  }

  /** The two separators never start at the same place, so the first one is unique. */
  lemma NextCutIsFirst(buffer: seq<Byte>)
    ensures NextCut(buffer).None? <==> SeparatorFree(buffer)
    ensures forall cut :: IsFirstCut(buffer, cut) <==> NextCut(buffer) == Some(cut)
  {
    forall p | SeparatorAt(buffer, p)
      ensures NextCut(buffer).Some? && NextCut(buffer).value.at <= p
    {
      if StandsAt(buffer, LF_LF, p) {
        PositionIsFirst(buffer, LF_LF, 0, p);
      } else {
        PositionIsFirst(buffer, CRLF_CRLF, 0, p);
      }
    }
    if NextCut(buffer).Some? {
      var first := NextCut(buffer).value;
      assert SeparatorAt(buffer, first.at);
      forall cut | IsFirstCut(buffer, cut)
        ensures cut == first
      {
        assert SeparatorAt(buffer, cut.at);
        NotBoth(buffer, first.at);
      }
    }
    forall cut | IsFirstCut(buffer, cut)
      ensures NextCut(buffer).Some?
    {
      assert SeparatorAt(buffer, cut.at);
    }
  }

  lemma StandsInPrefix(x: seq<Byte>, y: seq<Byte>, pattern: seq<Byte>, p: int)
    ensures StandsAt(x, pattern, p) ==> StandsAt(x + y, pattern, p)
    ensures StandsAt(x + y, pattern, p) && p + |pattern| <= |x| ==> StandsAt(x, pattern, p)
  {
    if 0 <= p && p + |pattern| <= |x| {
      assert x[p..p + |pattern|] == (x + y)[p..p + |pattern|];
    }
  }

  /** A separator that starts before another one also ends before it. */
  lemma EarlierEndsEarlier(buffer: seq<Byte>, p: int, pattern: seq<Byte>, q: int, other: seq<Byte>)
    requires pattern in {LF_LF, CRLF_CRLF} && other in {LF_LF, CRLF_CRLF}
    requires StandsAt(buffer, pattern, p) && StandsAt(buffer, other, q) && p < q
    ensures p + |pattern| < q + |other|
  {
    if pattern == CRLF_CRLF && other == LF_LF && q <= p + 2 {
      // The third byte of the one would be a line feed of the other.
      ReadsAt(buffer, pattern, p, 2);
      ReadsAt(buffer, other, q, p + 2 - q);
      assert false;
    }
  }

  /** More bytes never change the first cut. */
  lemma CutSurvives(x: seq<Byte>, y: seq<Byte>, cut: Cut)
    requires IsFirstCut(x, cut)
    ensures IsFirstCut(x + y, cut)
  {
    StandsInPrefix(x, y, cut.separator, cut.at);
    forall p | p < cut.at
      ensures !SeparatorAt(x + y, p)
    {
      if StandsAt(x + y, LF_LF, p) {
        EarlierEndsEarlier(x + y, p, LF_LF, cut.at, cut.separator);
        StandsInPrefix(x, y, LF_LF, p);
        assert SeparatorAt(x, p);
      }
      if StandsAt(x + y, CRLF_CRLF, p) {
        EarlierEndsEarlier(x + y, p, CRLF_CRLF, cut.at, cut.separator);
        StandsInPrefix(x, y, CRLF_CRLF, p);
        assert SeparatorAt(x, p);
      }
    }
  }

  // -------------------------------------------------------------- frames

  /** A frame and the separator that ended it. */
  datatype Frame = Frame(text: seq<Byte>, separator: seq<Byte>)

  datatype Framing = Framing(frames: seq<Frame>, rest: seq<Byte>) {
    function After(frame: Frame): (f: Framing) {
      Framing([frame] + frames, rest)
    }

    /** These frames, then those of what became of the leftover. */
    function Then(next: Framing): (f: Framing) {
      Framing(frames + next.frames, next.rest)
    }
  }

  /** Every frame a buffer holds, and what is left. */
  function Drain(buffer: seq<Byte>): (f: Framing)
    decreases |buffer|
  {
    match NextCut(buffer)
    case None => Framing([], buffer)
    case Some(cut) =>
      NextCutStands(buffer);
      Drain(buffer[cut.at + |cut.separator|..]).After(Frame(buffer[..cut.at], cut.separator))
  }

  lemma NextCutStands(buffer: seq<Byte>)
    ensures NextCut(buffer).Some? ==>
              var cut := NextCut(buffer).value;
              0 < |cut.separator| && StandsAt(buffer, cut.separator, cut.at)
  {}

  lemma DrainRule(buffer: seq<Byte>, frame: Frame, more: seq<Byte>)
    requires buffer == frame.text + frame.separator + more && IsFirstCut(buffer, Cut(|frame.text|, frame.separator))
    ensures Drain(buffer) == Drain(more).After(frame)
  {
    NextCutIsFirst(buffer);
    assert buffer[..|frame.text|] == frame.text && buffer[|frame.text| + |frame.separator|..] == more;
  }

  lemma FirstFrameOf(buffer: seq<Byte>) returns (frame: Frame, more: seq<Byte>)
    requires !SeparatorFree(buffer)
    ensures buffer == frame.text + frame.separator + more && IsFirstCut(buffer, Cut(|frame.text|, frame.separator))
    ensures |more| < |buffer|
  {
    NextCutIsFirst(buffer);
    frame, more := FrameAt(buffer, NextCut(buffer).value);
  }

  lemma FrameAt(buffer: seq<Byte>, cut: Cut) returns (frame: Frame, more: seq<Byte>)
    requires IsFirstCut(buffer, cut)
    ensures frame.separator == cut.separator && |frame.text| == cut.at
    ensures buffer == frame.text + frame.separator + more && |more| < |buffer|
  {
    frame, more := Frame(buffer[..cut.at], cut.separator), buffer[cut.at + |cut.separator|..];
    assert buffer[cut.at..cut.at + |cut.separator|] == cut.separator;
  }

  function Bytes(frames: seq<Frame>): (bytes: seq<Byte>) {
    if frames == [] then [] else frames[0].text + frames[0].separator + Bytes(frames[1..])
  }

  lemma ThenAfter(f: Framing, frame: Frame, next: Framing)
    ensures f.After(frame).Then(next) == f.Then(next).After(frame)
  {}

  /** What is drained from a longer stream: the same frames, then those of the leftover with the new bytes. */
  lemma {:induction false} DrainAppend(x: seq<Byte>, y: seq<Byte>)
    ensures Drain(x + y) == Drain(x).Then(Drain(Drain(x).rest + y))
    decreases |x|
  {
    if SeparatorFree(x) {
      NothingDrained(x);
      ThenNothing(x, Drain(x + y));
    } else {
      var frame, more := FirstFrameOf(x);
      DrainAppend(more, y);
      DrainRule(x, frame, more);
      LongerDrainRule(x, y, frame, more);
      ThenAfter(Drain(more), frame, Drain(Drain(more).rest + y));
    }
  }

  lemma NothingDrained(x: seq<Byte>)
    requires SeparatorFree(x)
    ensures Drain(x) == Framing([], x)
  {
    NextCutIsFirst(x);
  }

  lemma ThenNothing(x: seq<Byte>, f: Framing)
    ensures Framing([], x).Then(f) == f
  {
    assert [] + f.frames == f.frames;
  }

  lemma LongerDrainRule(x: seq<Byte>, y: seq<Byte>, frame: Frame, more: seq<Byte>)
    requires x == frame.text + frame.separator + more && IsFirstCut(x, Cut(|frame.text|, frame.separator))
    ensures Drain(x + y) == Drain(more + y).After(frame)
  {
    CutSurvives(x, y, Cut(|frame.text|, frame.separator));
    assert x + y == frame.text + frame.separator + (more + y);
    DrainRule(x + y, frame, more + y);
  }

  /** Draining chunk by chunk, with the leftover carried over. */
  function DrainAll(buffer: seq<Byte>, chunks: seq<seq<Byte>>): (f: Framing)
    decreases |chunks|
  {
    if chunks == [] then Framing([], buffer)
    else
      var first := Drain(buffer + chunks[0]);
      first.Then(DrainAll(first.rest, chunks[1..]))
  }

  function Joined(chunks: seq<seq<Byte>>): (bytes: seq<Byte>) {
    if chunks == [] then [] else chunks[0] + Joined(chunks[1..])
  }

  lemma {:induction false} RestIsSeparatorFree(buffer: seq<Byte>)
    ensures SeparatorFree(Drain(buffer).rest)
    decreases |buffer|
  {
    if SeparatorFree(buffer) {
      NextCutIsFirst(buffer);
    } else {
      var frame, more := FirstFrameOf(buffer);
      DrainRule(buffer, frame, more);
      RestIsSeparatorFree(more);
    }
  }

  /** Frames and leftover do not depend on how the stream is cut into chunks. */
  lemma {:induction false} ChunkingDoesNotMatter(buffer: seq<Byte>, chunks: seq<seq<Byte>>)
    requires SeparatorFree(buffer)
    ensures DrainAll(buffer, chunks) == Drain(buffer + Joined(chunks))
    decreases |chunks|
  {
    if chunks == [] {
      NothingDrained(buffer);
      assert buffer + [] == buffer;
    } else {
      var whole := buffer + chunks[0];
      RestIsSeparatorFree(whole);
      ChunkingDoesNotMatter(Drain(whole).rest, chunks[1..]);
      DrainAppend(whole, Joined(chunks[1..]));
      Regrouped(buffer, chunks);
    }
  }

  lemma Regrouped(buffer: seq<Byte>, chunks: seq<seq<Byte>>)
    requires chunks != []
    ensures buffer + chunks[0] + Joined(chunks[1..]) == buffer + Joined(chunks)
  {}

  // ------------------------------------------------- reference definition

  /** A frame ends at its separator's last byte, and no separator ends before. */
  ghost predicate IsFrame(f: Frame) {
    f.separator in {LF_LF, CRLF_CRLF} && SeparatorFree(f.text + Init(f.separator))
  }

  ghost predicate IsFramingOf(f: Framing, stream: seq<Byte>) {
    && stream == Bytes(f.frames) + f.rest
    && (forall i :: 0 <= i < |f.frames| ==> IsFrame(f.frames[i]))
    && SeparatorFree(f.rest)
  }

  /** The frame before a first cut. */
  lemma FirstFrame(buffer: seq<Byte>, cut: Cut)
    requires IsFirstCut(buffer, cut)
    ensures IsFrame(Frame(buffer[..cut.at], cut.separator))
  {
    var text := buffer[..cut.at] + Init(cut.separator);
    assert text == buffer[..|text|] by {
      assert buffer[cut.at..cut.at + |cut.separator|] == cut.separator;
    }
    forall p
      ensures !SeparatorAt(text, p)
    {
      if SeparatorAt(text, p) {
        StandsInPrefix(text, buffer[|text|..], LF_LF, p);
        StandsInPrefix(text, buffer[|text|..], CRLF_CRLF, p);
        assert text + buffer[|text|..] == buffer;
        assert SeparatorAt(buffer, p) && p >= cut.at;
        InsideSeparator(text, cut, p);
      }
    }
  }

  /** No separator starts inside an unfinished one and ends there. */
  lemma InsideSeparator(text: seq<Byte>, cut: Cut, p: int)
    requires cut.separator in {LF_LF, CRLF_CRLF} && cut.at <= p
    requires |text| == cut.at + |cut.separator| - 1 && text[cut.at..] == Init(cut.separator)
    ensures !SeparatorAt(text, p)
  {
    if StandsAt(text, LF_LF, p) {
      assert text[cut.at..][p - cut.at] == text[p];
      ReadsAt(text, LF_LF, p, 0);
      ReadsAt(text, LF_LF, p, 1);
      assert false;
    }
  }

  lemma FramingAfter(frame: Frame, f: Framing, more: seq<Byte>)
    requires IsFramingOf(f, more) && IsFrame(frame)
    ensures IsFramingOf(f.After(frame), frame.text + frame.separator + more)
  {
    assert f.After(frame).frames[1..] == f.frames;
    assert frame.text + frame.separator + (Bytes(f.frames) + f.rest) == frame.text + frame.separator + Bytes(f.frames) + f.rest;
  }

  /** Draining loses no byte, and cuts exactly at first separators. */
  lemma {:induction false} DrainIsFraming(buffer: seq<Byte>)
    ensures IsFramingOf(Drain(buffer), buffer)
    decreases |buffer|
  {
    if SeparatorFree(buffer) {
      NextCutIsFirst(buffer);
      assert [] + buffer == buffer;
    } else {
      var frame, more := FirstFrameOf(buffer);
      DrainRule(buffer, frame, more);
      FirstFrame(buffer, Cut(|frame.text|, frame.separator));
      assert buffer[..|frame.text|] == frame.text;
      DrainIsFraming(more);
      FramingAfter(frame, Drain(more), more);
    }
  }

  /** A frame at the head of a stream is where the first cut is. */
  lemma FrameIsFirstCut(f: Frame, more: seq<Byte>)
    requires IsFrame(f)
    ensures IsFirstCut(f.text + f.separator + more, Cut(|f.text|, f.separator))
  {
    var stream := f.text + f.separator + more;
    var head := f.text + Init(f.separator);
    assert stream[|f.text|..|f.text| + |f.separator|] == f.separator;
    assert stream == head + stream[|head|..];
    forall p | p < |f.text|
      ensures !SeparatorAt(stream, p)
    {
      assert !SeparatorAt(head, p);
      if StandsAt(stream, LF_LF, p) {
        EarlierEndsEarlier(stream, p, LF_LF, |f.text|, f.separator);
        StandsInPrefix(head, stream[|head|..], LF_LF, p);
        assert false;
      }
      if StandsAt(stream, CRLF_CRLF, p) {
        EarlierEndsEarlier(stream, p, CRLF_CRLF, |f.text|, f.separator);
        StandsInPrefix(head, stream[|head|..], CRLF_CRLF, p);
        assert false;
      }
    }
  }

  /** There is only one way to cut a stream into frames: the one that is drained. */
  lemma {:induction false} FramingIsUnique(stream: seq<Byte>, f: Framing)
    requires IsFramingOf(f, stream)
    ensures f == Drain(stream)
    decreases |f.frames|
  {
    if f.frames == [] {
      assert [] + f.rest == f.rest;
      NextCutIsFirst(stream);
    } else {
      var frame, tail := f.frames[0], Framing(f.frames[1..], f.rest);
      var more := Bytes(tail.frames) + tail.rest;
      assert stream == frame.text + frame.separator + more;
      FrameIsFirstCut(frame, more);
      DrainRule(stream, frame, more);
      FramingIsUnique(more, tail);
      assert f == tail.After(frame);
    }
  }
}
