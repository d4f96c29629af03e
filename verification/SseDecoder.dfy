/** The stream decoder's state as it changes in place, and the loops over lines and frames. */
module SseDecoder {
  import opened Bytes
  import opened Text
  import opened Sse
  import opened SseProofs
  import opened SseStreams

  class StreamDecoder {
    var events: seq<Event>
    var terminal: Option<Event>
    var failed: bool
    var code: string
    var done: bool
    var payloadBytes: nat

    function Value(): Decoder
      reads this
    {
      Decoder(events, terminal, failed, code, done, payloadBytes)
    }

    /** The decoder after a step that ended with `error`. */
    function Outcome(error: Option<Error>): Step<Decoder>
      reads this
    {
      match error
      case None => Go(Value())
      case Some(e) => Stop(Value(), e)
    }

    constructor ()
      ensures Value() == NEW_DECODER
    {
      events, terminal, failed, code, done, payloadBytes := [], None, false, "", false, 0;
    }

    method ReservePayload(size: nat) returns (error: Option<Error>)
      modifies this`payloadBytes
      ensures Outcome(error) == Reserve(old(Value()), size)
    {
      if payloadBytes > MAX_PAYLOAD_BYTES - size {
        return Some(Malformed);
      }
      payloadBytes := payloadBytes + size;
      error := None;
    }

    method AddEvent(event: Event) returns (error: Option<Error>)
      modifies this
      ensures Outcome(error) == Add(old(Value()), event)
    {
      if event.kind.Blank? {
        return Some(Malformed);
      }
      if terminal.Some? {
        return Some(DuplicateTerminal);
      }
      if |events| >= MAX_EVENTS {
        return Some(Malformed);
      }
      if ResponseTerminal(event.kind) && event.response.None? {
        return Some(Malformed);
      }
      events := events + [event];
      failed := failed || event.error.Some? || (event.response.Some? && event.response.value.error.Some?);
      if Terminal(event.kind) {
        if event.code != "" {
          code := event.code;
        } else if event.error.Some? {
          code := event.error.value;
        } else if event.response.Some? && event.response.value.error.Some? {
          code := event.response.value.error.value;
        }
      }
      error := None;
      if !Terminal(event.kind) {
        return;
      }
      terminal := Some(event);
      failed := failed || event.kind.ResponseFailed? || event.kind.ErrorEvent?
                || (event.response.Some? && event.response.value.status == "failed");
    }

    /** Take one complete payload. */
    method AcceptPayload(x: Context, payload: Bytes) returns (error: Option<Error>)
      modifies this
      ensures Outcome(error) == Accept(x, old(Value()), payload)
    {
      if payload == DONE_MARK {
        if done {
          return Some(DuplicateTerminal);
        }
        if terminal.None? {
          return Some(Malformed);
        }
        done := true;
        return None;
      }
      if done {
        return Some(DuplicateTerminal);
      }
      var event := x.decode(payload);
      if event.None? {
        return Some(Malformed);
      }
      error := ReservePayload(|payload|);
      if error.Some? {
        return;
      }
      error := AddEvent(event.value.(raw := payload));
      if error.Some? {
        return;
      }
      if !x.takes(events) {
        error := Some(CallbackFailed);
      }
    }

    /** Take the joined data lines, if there are any, and start over. */
    method Flush(x: Context, data: Bytes) returns (left: Bytes, error: Option<Error>)
      modifies this
      ensures Parsed(left, error) == FlushData(x, Parser(old(Value()), data))
    {
      if |data| == 0 {
        return data, None;
      }
      error := AcceptPayload(x, TrimSpace(data));
      left := [];
    }

    function Parsed(data: Bytes, error: Option<Error>): Step<Parser>
      reads this
    {
      match error
      case None => Go(Parser(Value(), data))
      case Some(e) => Stop(Value(), e)
    }

    method TakeLine(x: Context, data: Bytes, line: Bytes) returns (left: Bytes, error: Option<Error>)
      modifies this
      ensures Parsed(left, error) == ConsumeLine(x, Parser(old(Value()), data), line)
    {
      left, error := data, None;
      if done && |line| > 0 && line[0] != COLON {
        return data, Some(DuplicateTerminal);
      }
      if |line| == 0 {
        left, error := Flush(x, data);
      } else if DATA_FIELD <= line {
        var value := line[|DATA_FIELD|..];
        if |value| > 0 && value[0] == SPACE {
          value := value[1..];
        }
        var additional := |value|;
        if |data| > 0 {
          additional := additional + 1;
        }
        if additional > MAX_LINE_BYTES || |data| > MAX_LINE_BYTES - additional {
          return data, Some(Malformed);
        }
        if |data| > 0 {
          left := left + [NEWLINE];
        }
        left := left + value;
        assert left == Joined(data, FieldValue(line));
      }
    }

    method TakeFrame(x: Context, frame: Bytes) returns (error: Option<Error>)
      modifies this
      ensures Outcome(error) == AcceptFrame(x, old(Value()), frame)
    {
      if |frame| == 0 || |frame| > MAX_LINE_BYTES {
        return Some(Malformed);
      }
      error := ReservePayload(|frame|);
      if error.Some? {
        return;
      }
      var event := x.decode(frame);
      if event.None? {
        return Some(Malformed);
      }
      error := AddEvent(event.value.(raw := frame));
    }
  }

  /** The line at an offset and where the next one starts. A line that does not fit the buffer is refused. */
  method ReadLine(s: Bytes, offset: nat) returns (line: Bytes, next: nat, tooLong: bool)
    requires offset < |s|
    ensures tooLong <==> LineLength(s[offset..]) > MAX_LINE_BYTES
    ensures !tooLong ==> offset < next <= |s| && line == LineText(s[offset..]) && s[next..] == AfterLine(s[offset..])
  {
    var end := offset;
    ghost var rest := s[offset..];
    ghost var left := rest;
    while end < |s| && s[end] != NEWLINE
      invariant offset <= end <= |s| && left == s[end..]
      invariant LineLength(rest) == end - offset + LineLength(left)
    {
      end := end + 1;
      left := left[1..];
    }
    tooLong := end - offset > MAX_LINE_BYTES;
    line := s[offset..end];
    assert rest[..end - offset] == line;
    if end < |s| {
      next := end + 1;
      if |line| > 0 && line[|line| - 1] == RETURN {
        line := line[..|line| - 1];
      }
      assert rest[end - offset + 1..] == s[next..];
    } else {
      next := end;
    }
  }

  /** Parse a body that ends after `s`, by its end or by a read error. */
  method ParseResponsesSse(x: Context, s: Bytes, broken: bool) returns (decoder: StreamDecoder, error: Option<Error>)
    ensures fresh(decoder) && Sse.Outcome.Outcome(decoder.Value(), error) == Parse(x, s, broken)
  {
    decoder := new StreamDecoder();
    var data: Bytes := [];
    var offset := 0;
    error := None;
    ghost var all := ConsumeText(x, Parser(NEW_DECODER, []), s);
    ghost var left := s;
    while offset < |s|
      invariant fresh(decoder) && 0 <= offset <= |s| && left == s[offset..]
      invariant all == ConsumeText(x, Parser(decoder.Value(), data), left)
    {
      var line, next, tooLong := ReadLine(s, offset);
      if tooLong {
        return decoder, Some(Malformed);
      }
      data, error := decoder.TakeLine(x, data, line);
      if error.Some? {
        return;
      }
      left := AfterLine(left);
      offset := next;
    }
    if broken {
      return decoder, Some(ReadFailed);
    }
    data, error := decoder.Flush(x, data);
    if error.Some? {
      return;
    }
    error := Finish(decoder.Value());
  }

  // ----- Frames -----

  function AcceptFrame(x: Context, d: Decoder, frame: Bytes): Step<Decoder> {
    if frame == [] || |frame| > MAX_LINE_BYTES then Stop(d, Malformed)
    else match Reserve(d, |frame|)
      case Stop(e, error) => Stop(e, error)
      case Go(reserved) =>
        match x.decode(frame)
        case None => Stop(reserved, Malformed)
        case Some(event) => Add(reserved, event.(raw := frame))
  }

  function FeedFrames(x: Context, d: Decoder, frames: seq<Bytes>): Step<Decoder>
    decreases |frames|
  {
    if frames == [] then Go(d)
    else match AcceptFrame(x, d, frames[0])
      case Stop(e, error) => Stop(e, error)
      case Go(next) => FeedFrames(x, next, frames[1..])
  }

  predicate FramesFit(frames: seq<Bytes>) {
    forall i :: 0 <= i < |frames| ==> 0 < |frames[i]| <= MAX_LINE_BYTES
  }

  lemma {:induction false} FramesFollowPayloads(x: Context, d: Decoder, frames: seq<Bytes>)
    requires (forall events :: x.takes(events)) && x.decode(DONE_MARK).None? && !d.done
    ensures FeedFrames(x, d, frames).Go? ==> FramesFit(frames) && Feed(x, d, frames) == FeedFrames(x, d, frames)
    ensures FramesFit(frames) && DONE_MARK !in frames && Feed(x, d, frames).Go? ==> FeedFrames(x, d, frames).Go?
    decreases |frames|
  {
    if frames != [] {
      var first := AcceptFrame(x, d, frames[0]);
      if first.Go? {
        FramesFollowPayloads(x, first.value, frames[1..]);
        assert FramesFit(frames) <==> 0 < |frames[0]| <= MAX_LINE_BYTES && FramesFit(frames[1..]) by {
          assert forall i :: 0 < i < |frames| ==> frames[i] == frames[1..][i - 1];
        }
      }
    }
  }

  /** WebSocket frames and server-sent events carry the same streams: frames of the permitted size are
      taken to the end exactly when they are, as payloads, one complete stream. */
  lemma FramesAcceptedExactly(x: Context, frames: seq<Bytes>)
    requires (forall events :: x.takes(events)) && x.decode(DONE_MARK).None?
    ensures FeedFrames(x, NEW_DECODER, frames).Go? && FeedFrames(x, NEW_DECODER, frames).value.terminal.Some?
            <==> FramesFit(frames) && Complete(x, frames)
  {
    FramesFollowPayloads(x, NEW_DECODER, frames);
    FeedExactly(x, frames);
    if Complete(x, frames) {
      assert Body(frames) == frames;
      assert forall i :: 0 <= i < |frames| ==> frames[i] != DONE_MARK;
    }
    if FeedFrames(x, NEW_DECODER, frames).Go? {
      FramesAreNotDone(x, NEW_DECODER, frames);
      assert Body(frames) == frames;
    }
  }

  lemma {:induction false} FramesAreNotDone(x: Context, d: Decoder, frames: seq<Bytes>)
    requires x.decode(DONE_MARK).None? && FeedFrames(x, d, frames).Go?
    ensures DONE_MARK !in frames
    decreases |frames|
  {
    if frames != [] {
      FramesAreNotDone(x, AcceptFrame(x, d, frames[0]).value, frames[1..]);
      assert frames == [frames[0]] + frames[1..];
    }
  }

  method ParseWebSocketFrames(x: Context, frames: seq<Bytes>) returns (decoder: StreamDecoder, error: Option<Error>)
    ensures fresh(decoder)
    ensures match FeedFrames(x, NEW_DECODER, frames)
            case Stop(d, e) => decoder.Value() == d && error == Some(e)
            case Go(d) => decoder.Value() == d && error == Finish(d)
  {
    decoder := new StreamDecoder();
    ghost var all := FeedFrames(x, NEW_DECODER, frames);
    ghost var left := frames;
    assert frames[0..] == frames;
    for index := 0 to |frames|
      invariant fresh(decoder) && left == frames[index..]
      invariant all == FeedFrames(x, decoder.Value(), left)
    {
      error := decoder.TakeFrame(x, frames[index]);
      if error.Some? {
        return;
      }
      left := left[1..];
    }
    error := Finish(decoder.Value());
  }
}
