/** Which streams the decoder accepts, and what it makes of them. */
module SseStreams {
  import opened Bytes
  import opened Text
  import opened Sse
  import opened SseProofs

  // ----- Complete streams -----

  /** The event of a payload that decodes. */
  function EventOf(x: Context, payload: Bytes): Event
    requires x.decode(payload).Some?
  {
    x.decode(payload).value.(raw := payload)
  }

  predicate Decodes(x: Context, body: seq<Bytes>) {
    forall i :: 0 <= i < |body| ==> x.decode(body[i]).Some?
  }

  function Events(x: Context, body: seq<Bytes>): (events: seq<Event>)
    requires Decodes(x, body)
    ensures |events| == |body|
  {
    seq(|body|, i requires 0 <= i < |body| => EventOf(x, body[i]))
  }

  function TotalBytes(body: seq<Bytes>): nat {
    if body == [] then 0 else TotalBytes(body[..|body| - 1]) + |body[|body| - 1]|
  }

  /** Every payload is a valid event that the caller takes, only the last may be terminal, and count and
      bytes are within the limits. */
  predicate InOrder(x: Context, body: seq<Bytes>) {
    && Decodes(x, body)
    && |body| <= MAX_EVENTS && TotalBytes(body) <= MAX_PAYLOAD_BYTES
    && forall i :: 0 <= i < |body| ==>
         && body[i] != DONE_MARK && ValidEvent(EventOf(x, body[i])) && x.takes(Events(x, body[..i + 1]))
         && (i < |body| - 1 ==> !Terminal(EventOf(x, body[i]).kind))
  }

  predicate Ended(x: Context, body: seq<Bytes>)
    requires Decodes(x, body)
  {
    body != [] && Terminal(EventOf(x, body[|body| - 1]).kind)
  }

  /** The stream: a body that ends in its one terminal event. */
  predicate Complete(x: Context, body: seq<Bytes>) {
    InOrder(x, body) && Ended(x, body)
  }

  /** The payloads without an optional final [DONE]. */
  function Body(payloads: seq<Bytes>): seq<Bytes> {
    if payloads != [] && payloads[|payloads| - 1] == DONE_MARK then payloads[..|payloads| - 1] else payloads
  }

  predicate SomeError(events: seq<Event>) {
    exists i :: 0 <= i < |events| && CarriesError(events[i])
  }

  /** The decoder after a body and perhaps [DONE]. */
  function DecoderOf(x: Context, body: seq<Bytes>, done: bool): Decoder
    requires Decodes(x, body)
  {
    var events := Events(x, body);
    if Ended(x, body) then
      var last := events[|events| - 1];
      Decoder(events, Some(last), SomeError(events) || FailedTerminal(last), TerminalCode("", last), done,
              TotalBytes(body))
    else Decoder(events, None, SomeError(events), "", done, TotalBytes(body))
  }

  /** What the decoder has taken after these payloads, if it has not stopped. */
  predicate Taken(x: Context, payloads: seq<Bytes>) {
    if Body(payloads) == payloads then InOrder(x, payloads) else Complete(x, Body(payloads))
  }

  // ----- One more payload -----

  lemma EventsAppend(x: Context, body: seq<Bytes>, payload: Bytes)
    requires Decodes(x, body) && x.decode(payload).Some?
    ensures Decodes(x, body + [payload])
    ensures Events(x, body + [payload]) == Events(x, body) + [EventOf(x, payload)]
  {
  }

  lemma TotalAppend(body: seq<Bytes>, payload: Bytes)
    ensures TotalBytes(body + [payload]) == TotalBytes(body) + |payload|
  {
    assert (body + [payload])[..|body|] == body;
  }

  lemma SomeErrorAppend(events: seq<Event>, e: Event)
    ensures SomeError(events + [e]) == (SomeError(events) || CarriesError(e))
  {
    if SomeError(events) {
      var i :| 0 <= i < |events| && CarriesError(events[i]);
      assert (events + [e])[i] == events[i];
    }
    if CarriesError(e) {
      assert (events + [e])[|events|] == e;
    }
  }

  /** Whether one more payload may follow an unfinished body. */
  predicate MayFollow(x: Context, body: seq<Bytes>, payload: Bytes)
    requires Decodes(x, body)
  {
    && x.decode(payload).Some? && ValidEvent(EventOf(x, payload))
    && |body| < MAX_EVENTS && TotalBytes(body) + |payload| <= MAX_PAYLOAD_BYTES
    && !Ended(x, body) && x.takes(Events(x, body) + [EventOf(x, payload)])
  }

  lemma InOrderAppend(x: Context, body: seq<Bytes>, payload: Bytes)
    requires payload != DONE_MARK
    ensures InOrder(x, body + [payload]) <==> InOrder(x, body) && MayFollow(x, body, payload)
  {
    var longer := body + [payload];
    TotalAppend(body, payload);
    assert longer[..|body| + 1] == longer;
    assert forall i :: 0 <= i < |body| ==> longer[i] == body[i] && longer[..i + 1] == body[..i + 1];
    assert longer[|body|] == payload;
    if Decodes(x, longer) {
      assert Decodes(x, body);
      EventsAppend(x, body, payload);
    }
    if InOrder(x, body) && MayFollow(x, body, payload) {
      EventsAppend(x, body, payload);
      FollowsInOrder(x, body, payload);
    }
    if InOrder(x, longer) {
      PrefixInOrder(x, body, payload);
    }
  }

  lemma FollowsInOrder(x: Context, body: seq<Bytes>, payload: Bytes)
    requires payload != DONE_MARK && InOrder(x, body) && MayFollow(x, body, payload)
    ensures InOrder(x, body + [payload])
  {
    var longer := body + [payload];
    EventsAppend(x, body, payload);
    TotalAppend(body, payload);
    forall i | 0 <= i < |longer|
      ensures longer[i] != DONE_MARK && ValidEvent(EventOf(x, longer[i])) && x.takes(Events(x, longer[..i + 1]))
      ensures i < |longer| - 1 ==> !Terminal(EventOf(x, longer[i]).kind)
    {
      if i < |body| {
        assert longer[..i + 1] == body[..i + 1] && longer[i] == body[i];
      } else {
        assert longer[..i + 1] == longer;
      }
    }
  }

  lemma PrefixInOrder(x: Context, body: seq<Bytes>, payload: Bytes)
    requires InOrder(x, body + [payload])
    ensures InOrder(x, body) && MayFollow(x, body, payload)
  {
    var longer := body + [payload];
    TotalAppend(body, payload);
    assert longer[|body|] == payload && longer[..|body| + 1] == longer;
    assert forall i :: 0 <= i < |body| ==> longer[i] == body[i];
    EventsAppend(x, body, payload);
    forall i | 0 <= i < |body|
      ensures body[i] != DONE_MARK && ValidEvent(EventOf(x, body[i])) && x.takes(Events(x, body[..i + 1]))
      ensures !Terminal(EventOf(x, body[i]).kind)
    {
      assert longer[i] == body[i] && longer[..i + 1] == body[..i + 1];
    }
  }

  /** An open decoder with one more event. */
  function Added(d: Decoder, e: Event, size: nat): Decoder {
    Decoder(d.events + [e], if Terminal(e.kind) then Some(e) else None,
            d.failed || CarriesError(e) || (Terminal(e.kind) && FailedTerminal(e)),
            if Terminal(e.kind) then TerminalCode("", e) else "", false, d.payloadBytes + size)
  }

  lemma AcceptAdds(x: Context, d: Decoder, payload: Bytes, e: Event)
    requires payload != DONE_MARK && !d.done && d.terminal.None? && d.code == ""
    requires x.decode(payload).Some? && e == EventOf(x, payload)
    ensures Accept(x, d, payload).Go? <==>
              && ValidEvent(e) && |d.events| < MAX_EVENTS && d.payloadBytes + |payload| <= MAX_PAYLOAD_BYTES
              && x.takes(d.events + [e])
    ensures Accept(x, d, payload).Go? ==> Accept(x, d, payload).value == Added(d, e, |payload|)
  {
  }

  lemma DecoderOfLonger(x: Context, body: seq<Bytes>, payload: Bytes, longer: seq<Bytes>)
    requires Decodes(x, body) && !Ended(x, body) && x.decode(payload).Some? && longer == body + [payload]
    ensures Decodes(x, longer)
    ensures DecoderOf(x, longer, false) == Added(DecoderOf(x, body, false), EventOf(x, payload), |payload|)
  {
    var e := EventOf(x, payload);
    EventsAppend(x, body, payload);
    TotalAppend(body, payload);
    SomeErrorAppend(Events(x, body), e);
    assert longer[|longer| - 1] == payload && Events(x, longer)[|longer| - 1] == e;
  }

  /** Accepting a payload after a body that is in order. */
  lemma AcceptStep(x: Context, body: seq<Bytes>, payload: Bytes)
    requires InOrder(x, body) && payload != DONE_MARK
    ensures Accept(x, DecoderOf(x, body, false), payload).Go? <==> MayFollow(x, body, payload)
    ensures MayFollow(x, body, payload) ==>
              Accept(x, DecoderOf(x, body, false), payload) == Go(DecoderOf(x, body + [payload], false))
  {
    if x.decode(payload).Some? && !Ended(x, body) {
      AcceptAdds(x, DecoderOf(x, body, false), payload, EventOf(x, payload));
      DecoderOfLonger(x, body, payload, body + [payload]);
    }
  }

  /** The decoder goes on exactly as long as the payloads are in order, with a [DONE] only after the
      terminal event; its state is then a function of the events alone. */
  lemma {:induction false} FeedExactly(x: Context, payloads: seq<Bytes>)
    ensures Feed(x, NEW_DECODER, payloads).Go? <==> Taken(x, payloads)
    ensures Taken(x, payloads) ==>
              Feed(x, NEW_DECODER, payloads) == Go(DecoderOf(x, Body(payloads), Body(payloads) != payloads))
    decreases |payloads|
  {
    if payloads == [] {
      assert Events(x, payloads) == [];
    } else {
      var shorter, payload := payloads[..|payloads| - 1], payloads[|payloads| - 1];
      assert payloads == shorter + [payload];
      FeedExactly(x, shorter);
      FeedAppend(x, NEW_DECODER, shorter, [payload]);
      FeedOne(x, shorter, payload);
      TakenStep(x, shorter, payload);
    }
  }

  lemma FeedOne(x: Context, shorter: seq<Bytes>, payload: Bytes)
    ensures ThenFeed(x, Feed(x, NEW_DECODER, shorter), [payload])
            == if Feed(x, NEW_DECODER, shorter).Stop? then Feed(x, NEW_DECODER, shorter)
               else Accept(x, Feed(x, NEW_DECODER, shorter).value, payload)
  {
    var one := [payload];
    var fed := Feed(x, NEW_DECODER, shorter);
    assert one[0] == payload && one[1..] == [];
    if fed.Go? && Accept(x, fed.value, payload).Go? {
      assert Feed(x, Accept(x, fed.value, payload).value, one[1..]) == Accept(x, fed.value, payload);
    }
  }

  lemma TakenStep(x: Context, shorter: seq<Bytes>, payload: Bytes)
    ensures var longer := shorter + [payload];
            Taken(x, longer) <==>
              && Taken(x, shorter)
              && Accept(x, DecoderOf(x, Body(shorter), Body(shorter) != shorter), payload).Go?
    ensures var longer := shorter + [payload];
            Taken(x, longer) ==>
              Accept(x, DecoderOf(x, Body(shorter), Body(shorter) != shorter), payload)
              == Go(DecoderOf(x, Body(longer), Body(longer) != longer))
  {
    var longer := shorter + [payload];
    assert longer[|longer| - 1] == payload && longer[..|longer| - 1] == shorter;
    if payload == DONE_MARK {
      assert Body(longer) == shorter != longer;
      if Body(shorter) != shorter {
        EndsInDone(x, shorter);
      }
    } else {
      assert Body(longer) == longer;
      InOrderAppend(x, shorter, payload);
      if Body(shorter) != shorter {
        EndsInDone(x, shorter);
      } else if InOrder(x, shorter) {
        AcceptStep(x, shorter, payload);
      }
    }
  }

  lemma EndsInDone(x: Context, payloads: seq<Bytes>)
    requires Body(payloads) != payloads
    ensures !InOrder(x, payloads)
  {
    assert payloads[|payloads| - 1] == DONE_MARK;
  }

  /** The error of a stream that is over: none, or the failure that its events report. */
  predicate Orderly(error: Option<Error>) {
    error.None? || error.value.StreamFailed?
  }

  /** A stream is accepted exactly when it has one terminal event, last (but for an optional [DONE]), and
      every payload is valid and within the limits; then its events are kept in order, and it counts as
      failed exactly when some event carries an error or the terminal event is a failure. */
  lemma AcceptedExactly(x: Context, payloads: seq<Bytes>)
    ensures Orderly(FeedAll(x, payloads).error) <==> Complete(x, Body(payloads))
    ensures Complete(x, Body(payloads)) ==>
              var d, body := FeedAll(x, payloads).decoder, Body(payloads);
              && d.events == Events(x, body) && d.terminal == Some(EventOf(x, body[|body| - 1]))
              && (FeedAll(x, payloads).error.Some? <==>
                    SomeError(d.events) || FailedTerminal(EventOf(x, body[|body| - 1])))
  {
    FeedExactly(x, payloads);
    FeedErrors(x, NEW_DECODER, payloads);
  }

  lemma {:induction false} FeedErrors(x: Context, d: Decoder, payloads: seq<Bytes>)
    ensures Feed(x, d, payloads).Stop? ==> !Feed(x, d, payloads).error.StreamFailed?
    decreases |payloads|
  {
    if payloads != [] && Accept(x, d, payloads[0]).Go? {
      FeedErrors(x, Accept(x, d, payloads[0]).value, payloads[1..]);
    }
  }

  // ----- Every text -----

  /** The payload of a finished group of lines, if it has data. */
  function PayloadOf(data: Bytes): seq<Bytes> {
    if data == [] then [] else [TrimSpace(data)]
  }

  /** The data after one more line that is not blank. */
  function Gathered(data: Bytes, line: Bytes): Bytes {
    if DATA_FIELD <= line then Joined(data, FieldValue(line)) else data
  }

  /** The payloads of a text, read off its lines alone: blank lines and the end close a group. */
  function TextPayloads(data: Bytes, s: Bytes): seq<Bytes>
    decreases |s|
  {
    if s == [] then PayloadOf(data)
    else if LineText(s) == [] then PayloadOf(data) + TextPayloads([], AfterLine(s))
    else TextPayloads(Gathered(data, LineText(s)), AfterLine(s))
  }

  /** Lines and data keep their limits, and after a [DONE] there are only comments and blank lines. */
  predicate Regular(done: bool, data: Bytes, s: Bytes)
    decreases |s|
  {
    s == []
    || (LineLength(s) <= MAX_LINE_BYTES
        && if LineText(s) == [] then Regular(done || PayloadOf(data) == [DONE_MARK], [], AfterLine(s))
           else
             && (done ==> LineText(s)[0] == COLON)
             && (DATA_FIELD <= LineText(s) ==> |Gathered(data, LineText(s))| <= MAX_LINE_BYTES)
             && Regular(done, Gathered(data, LineText(s)), AfterLine(s)))
  }

  /** The decoder once the data left at the end was taken as a last payload. */
  function Flushed(x: Context, p: Step<Parser>): Step<Decoder> {
    match p
    case Stop(d, e) => Stop(d, e)
    case Go(last) =>
      match FlushData(x, last)
      case Stop(d, e) => Stop(d, e)
      case Go(end) => Go(end.decoder)
  }

  lemma FlushFeeds(x: Context, p: Parser)
    ensures Flushed(x, Go(p)) == Feed(x, p.decoder, PayloadOf(p.data))
    ensures FlushData(x, p).Go? ==>
              FlushData(x, p).value == Parser(FlushData(x, p).value.decoder, [])
              && (FlushData(x, p).value.decoder.done <==> p.decoder.done || PayloadOf(p.data) == [DONE_MARK])
  {
    if p.data != [] {
      var payload := TrimSpace(p.data);
      var one: seq<Bytes> := [payload];
      assert one[1..] == [];
      if Accept(x, p.decoder, payload).Go? {
        AcceptDone(x, p.decoder, payload);
      }
    }
  }

  /** Reading a regular text is feeding its payloads. */
  lemma {:induction false} TextFeeds(x: Context, p: Parser, s: Bytes)
    requires Regular(p.decoder.done, p.data, s)
    ensures Flushed(x, ConsumeText(x, p, s)) == Feed(x, p.decoder, TextPayloads(p.data, s))
    decreases |s|
  {
    FlushFeeds(x, p);
    if s != [] {
      var line := LineText(s);
      if line != [] {
        TextFeeds(x, p.(data := Gathered(p.data, line)), AfterLine(s));
      } else {
        FeedAppend(x, p.decoder, PayloadOf(p.data), TextPayloads([], AfterLine(s)));
        if FlushData(x, p).Go? {
          TextFeeds(x, FlushData(x, p).value, AfterLine(s));
        }
      }
    }
  }

  /** A text that is not regular stops the decoder, at the latest where it stops being regular. */
  lemma {:induction false} IrregularStops(x: Context, p: Parser, s: Bytes)
    requires !Regular(p.decoder.done, p.data, s)
    ensures ConsumeText(x, p, s).Stop?
    decreases |s|
  {
    FlushFeeds(x, p);
    var line := LineText(s);
    if LineLength(s) <= MAX_LINE_BYTES && ConsumeLine(x, p, line).Go? {
      IrregularStops(x, ConsumeLine(x, p, line).value, AfterLine(s));
    }
  }

  lemma AcceptStops(x: Context, d: Decoder, payload: Bytes)
    ensures Accept(x, d, payload).Stop? ==> !Accept(x, d, payload).error.StreamFailed?
  {
  }

  lemma LineStops(x: Context, p: Parser, line: Bytes)
    ensures ConsumeLine(x, p, line).Stop? ==> !ConsumeLine(x, p, line).error.StreamFailed?
  {
    AcceptStops(x, p.decoder, TrimSpace(p.data));
  }

  /** Reading stops only for reasons that are no failure of the stream itself. */
  lemma {:induction false} TextStops(x: Context, p: Parser, s: Bytes)
    ensures ConsumeText(x, p, s).Stop? ==> !ConsumeText(x, p, s).error.StreamFailed?
    decreases |s|
  {
    if s != [] {
      var line, rest := LineText(s), AfterLine(s);
      LineStops(x, p, line);
      if ConsumeLine(x, p, line).Go? {
        TextStops(x, ConsumeLine(x, p, line).value, rest);
      }
    }
  }

  lemma RegularParse(x: Context, s: Bytes)
    requires Regular(false, [], s)
    ensures Parse(x, s, false) == FeedAll(x, TextPayloads([], s))
  {
    TextFeeds(x, Parser(NEW_DECODER, []), s);
  }

  lemma BrokenParse(x: Context, s: Bytes)
    ensures !Orderly(Parse(x, s, true).error)
  {
    TextStops(x, Parser(NEW_DECODER, []), s);
  }

  /** Whatever bytes arrive: they are accepted if and only if the body ended without a read error, its lines
      are regular and the payloads read off its lines are one complete stream, whose events are then the
      result. */
  lemma AcceptedTextIsComplete(x: Context, s: Bytes, broken: bool)
    ensures Orderly(Parse(x, s, broken).error)
            <==> !broken && Regular(false, [], s) && Complete(x, Body(TextPayloads([], s)))
    ensures Orderly(Parse(x, s, broken).error) ==> Parse(x, s, broken) == FeedAll(x, TextPayloads([], s))
  {
    var p := Parser(NEW_DECODER, []);
    if broken {
      BrokenParse(x, s);
    } else if Regular(false, [], s) {
      RegularParse(x, s);
      AcceptedExactly(x, TextPayloads([], s));
    } else {
      IrregularStops(x, p, s);
      TextStops(x, p, s);
    }
  }
}
