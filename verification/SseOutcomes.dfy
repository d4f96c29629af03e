/** What the decoder reports about a stream, told on the fields of its events. */
module SseOutcomes {
  import opened Bytes
  import opened Text
  import opened Sse
  import opened SseProofs
  import opened SseStreams

  // ----- On the fields of an event -----

  /** Neither the event nor its response reports an error. */
  predicate Errorless(e: Event) {
    e.error == None && match e.response case None => true case Some(r) => r.error == None
  }

  /** The event ends a stream. */
  predicate Closing(e: Event) {
    !e.kind.Plain? && !e.kind.Blank?
  }

  /** Named, and with its response when it ends the stream as a response. */
  predicate Proper(e: Event) {
    match e.kind
    case Blank => false
    case Plain(_) => true
    case ErrorEvent => true
    case _ => e.response != None
  }

  /** The end of a stream that went well. */
  predicate EndsWell(e: Event) {
    e.kind in {Completed, Done, Incomplete} && match e.response case None => true case Some(r) => r.status != "failed"
  }

  /** The status of the last response, when it is one of the four that responses have. */
  predicate StatusTold(e: Event, status: string) {
    match e.response
    case None => status == ""
    case Some(r) =>
      if r.status == "completed" || r.status == "failed" || r.status == "incomplete" || r.status == "in_progress"
      then status == r.status else status == ""
  }

  /** The event's own code, else that of its error, else that of its response's error. */
  predicate CodeTold(e: Event, code: string) {
    if e.code != "" then code == e.code
    else match (e.error, e.response)
      case (Some(own), _) => code == own
      case (None, Some(Response(_, Some(inner)))) => code == inner
      case _ => code == ""
  }

  lemma FieldsTell(e: Event, before: string)
    ensures CarriesError(e) <==> !Errorless(e)
    ensures Terminal(e.kind) <==> Closing(e)
    ensures ValidEvent(e) <==> Proper(e)
    ensures Closing(e) ==> (FailedTerminal(e) <==> !EndsWell(e))
    ensures StatusTold(e, KnownStatus(e))
    ensures before == "" ==> CodeTold(e, TerminalCode(before, e))
  {
  }

  // ----- Whole streams -----

  /** Decodable payloads within the limits, each a proper event that the caller takes, and just the last one
      closing. */
  ghost predicate Whole(x: Context, body: seq<Bytes>) {
    && body != [] && |body| <= MAX_EVENTS && TotalBytes(body) <= MAX_PAYLOAD_BYTES && Decodes(x, body)
    && forall i :: 0 <= i < |body| ==>
         && body[i] != DONE_MARK && Proper(EventOf(x, body[i])) && x.takes(Events(x, body[..i + 1]))
         && (Closing(EventOf(x, body[i])) <==> i == |body| - 1)
  }

  ghost predicate WentWell(x: Context, body: seq<Bytes>)
    requires body != [] && Decodes(x, body)
  {
    && (forall i :: 0 <= i < |body| ==> Errorless(EventOf(x, body[i])))
    && EndsWell(EventOf(x, body[|body| - 1]))
  }

  lemma WholeIsComplete(x: Context, body: seq<Bytes>)
    ensures Complete(x, body) <==> Whole(x, body)
  {
    forall i | 0 <= i < |body| && x.decode(body[i]).Some?
      ensures Terminal(EventOf(x, body[i]).kind) <==> Closing(EventOf(x, body[i]))
      ensures ValidEvent(EventOf(x, body[i])) <==> Proper(EventOf(x, body[i]))
    {
      FieldsTell(EventOf(x, body[i]), "");
    }
    if Whole(x, body) {
      assert InOrder(x, body) && Ended(x, body);
    }
    if Complete(x, body) {
      forall i | 0 <= i < |body|
        ensures body[i] != DONE_MARK && Proper(EventOf(x, body[i])) && x.takes(Events(x, body[..i + 1]))
        ensures Closing(EventOf(x, body[i])) <==> i == |body| - 1
      {
        assert x.decode(body[i]).Some?;
      }
    }
  }

  lemma ErrorsAreTold(x: Context, body: seq<Bytes>)
    requires body != [] && Decodes(x, body) && Terminal(EventOf(x, body[|body| - 1]).kind)
    ensures SomeError(Events(x, body)) || FailedTerminal(EventOf(x, body[|body| - 1])) <==> !WentWell(x, body)
  {
    var events := Events(x, body);
    FieldsTell(EventOf(x, body[|body| - 1]), "");
    SomeErrorIsTold(events);
    assert forall i :: 0 <= i < |body| ==> events[i] == EventOf(x, body[i]);
  }

  lemma SomeErrorIsTold(events: seq<Event>)
    ensures SomeError(events) <==> !(forall i :: 0 <= i < |events| ==> Errorless(events[i]))
  {
    forall i | 0 <= i < |events|
      ensures CarriesError(events[i]) <==> !Errorless(events[i])
    {
      FieldsTell(events[i], "");
    }
  }

  /** A stream succeeds exactly when it is whole and went well. It fails as a stream exactly when it is whole but
      did not, and then reports its last event's kind, status and code. */
  lemma OutcomeIsTold(x: Context, payloads: seq<Bytes>, body: seq<Bytes>)
    requires payloads == body + [DONE_MARK] || (payloads == body && (body == [] || body[|body| - 1] != DONE_MARK))
    ensures var error := FeedAll(x, payloads).error;
            && (error == None <==> Whole(x, body) && WentWell(x, body))
            && (Orderly(error) <==> Whole(x, body))
            && (Whole(x, body) && !WentWell(x, body) ==>
                  var last := EventOf(x, body[|body| - 1]);
                  && error.Some? && error.value.StreamFailed? && error.value.kind == last.kind
                  && StatusTold(last, error.value.status) && CodeTold(last, error.value.code))
  {
    assert Body(payloads) == body;
    FeedExactly(x, payloads);
    AcceptedExactly(x, payloads);
    WholeIsComplete(x, body);
    if Complete(x, body) {
      ErrorsAreTold(x, body);
      FieldsTell(EventOf(x, body[|body| - 1]), "");
    }
  }

  // ----- Streams that break off -----

  /** Why one more payload is refused after those accepted so far. */
  ghost predicate RefusedAs(x: Context, taken: seq<Bytes>, payload: Bytes, error: Error) {
    if taken != [] && taken[|taken| - 1] == DONE_MARK then error == DuplicateTerminal
    else if payload == DONE_MARK || x.decode(payload).None? then error == Malformed
    else
      var e := EventOf(x, payload);
      if TotalBytes(taken) + |payload| > MAX_PAYLOAD_BYTES || e.kind.Blank? then error == Malformed
      else if taken != [] && x.decode(taken[|taken| - 1]).Some? && Closing(EventOf(x, taken[|taken| - 1])) then
        error == DuplicateTerminal
      else if |taken| == MAX_EVENTS || !Proper(e) then error == Malformed
      else error == CallbackFailed
  }

  lemma AcceptRefuses(x: Context, taken: seq<Bytes>, payload: Bytes)
    requires Taken(x, taken)
    requires var a := Accept(x, DecoderOf(x, Body(taken), Body(taken) != taken), payload); a.Stop?
    ensures var a := Accept(x, DecoderOf(x, Body(taken), Body(taken) != taken), payload);
            RefusedAs(x, taken, payload, a.error)
  {
    if x.decode(payload).Some? {
      FieldsTell(EventOf(x, payload), "");
    }
    if Body(taken) == taken && taken != [] {
      FieldsTell(EventOf(x, taken[|taken| - 1]), "");
    }
  }

  /** One payload that cannot be taken after those that were. */
  lemma NextIsRefused(x: Context, taken: seq<Bytes>, payload: Bytes)
    requires Taken(x, taken) && !Taken(x, taken + [payload])
    ensures var fed := Feed(x, NEW_DECODER, taken + [payload]); fed.Stop? && RefusedAs(x, taken, payload, fed.error)
  {
    FeedExactly(x, taken);
    TakenStep(x, taken, payload);
    AcceptRefuses(x, taken, payload);
    FeedOne(x, taken, payload);
    FeedAppend(x, NEW_DECODER, taken, [payload]);
  }

  /** The first payload that cannot be taken decides the error; a stream that is cut off is reported as such. */
  lemma BrokenStreamIsTold(x: Context, payloads: seq<Bytes>, n: nat)
    requires n < |payloads| && Taken(x, payloads[..n]) && !Taken(x, payloads[..n + 1])
    ensures FeedAll(x, payloads).error.Some?
            && RefusedAs(x, payloads[..n], payloads[n], FeedAll(x, payloads).error.value)
  {
    var shorter, rest := payloads[..n + 1], payloads[n + 1..];
    assert shorter == payloads[..n] + [payloads[n]] && payloads == shorter + rest;
    NextIsRefused(x, payloads[..n], payloads[n]);
    StoppedStays(x, shorter, rest);
  }

  lemma StoppedStays(x: Context, shorter: seq<Bytes>, rest: seq<Bytes>)
    requires Feed(x, NEW_DECODER, shorter).Stop?
    ensures FeedAll(x, shorter + rest).error == Some(Feed(x, NEW_DECODER, shorter).error)
  {
    FeedAppend(x, NEW_DECODER, shorter, rest);
  }

  lemma CutStreamIsTold(x: Context, payloads: seq<Bytes>)
    requires Taken(x, payloads)
    ensures FeedAll(x, payloads).error == Some(AbruptClose)
            <==> payloads == [] || (x.decode(payloads[|payloads| - 1]).Some?
                                    && payloads[|payloads| - 1] != DONE_MARK
                                    && !Closing(EventOf(x, payloads[|payloads| - 1])))
  {
    FeedExactly(x, payloads);
    if payloads != [] && x.decode(payloads[|payloads| - 1]).Some? {
      FieldsTell(EventOf(x, payloads[|payloads| - 1]), "");
    }
  }

  // ----- Lines and data -----

  /** The lines of a text put together again are the text: every line but perhaps the last ends in a newline, which
      takes one return before it along. */
  lemma LinesPartition(s: Bytes)
    requires s != []
    ensures NEWLINE !in LineText(s)
    ensures NEWLINE !in s ==> LineText(s) == s && AfterLine(s) == []
    ensures NEWLINE in s ==>
              || s == LineText(s) + [RETURN, NEWLINE] + AfterLine(s)
              || (s == LineText(s) + [NEWLINE] + AfterLine(s)
                  && (LineText(s) == [] || LineText(s)[|LineText(s)| - 1] != RETURN))
  {
    var n := LineLength(s);
    NoNewlineBefore(s);
    if n < |s| {
      assert s == s[..n] + [NEWLINE] + AfterLine(s);
      if n > 0 && s[n - 1] == RETURN {
        assert s[..n] == LineText(s) + [RETURN];
        assert s == LineText(s) + [RETURN, NEWLINE] + AfterLine(s);
      }
    } else {
      assert s[..n] == s;
    }
  }

  function Values(m: Message): seq<Bytes> {
    if m == [] then [] else (if m[0].0.Data? then [m[0].0.value] else []) + Values(m[1..])
  }

  /** Texts with a newline between each two. */
  function Join(values: seq<Bytes>): Bytes {
    if values == [] then [] else if |values| == 1 then values[0]
    else Join(values[..|values| - 1]) + [NEWLINE] + values[|values| - 1]
  }

  /** Without the empty ones at the front. */
  function FromText(values: seq<Bytes>): seq<Bytes> {
    if values == [] || values[0] != [] then values else FromText(values[1..])
  }

  lemma {:induction false} JoinedIsJoin(values: seq<Bytes>, m: Message)
    requires values == [] || values[0] != []
    ensures DataOf(Join(values), m) == Join(if values == [] then FromText(Values(m)) else values + Values(m))
    decreases |m|
  {
    if m == [] {
      assert values + Values(m) == values;
    } else if m[0].0.Data? {
      var v := m[0].0.value;
      assert [v] + Values(m[1..]) == Values(m);
      if values == [] && v == [] {
        assert Values(m)[1..] == Values(m[1..]);
        JoinedIsJoin([], m[1..]);
      } else {
        assert (values + [v])[..|values|] == values;
        JoinNotEmpty(values);
        JoinedIsJoin(values + [v], m[1..]);
        assert values + [v] + Values(m[1..]) == values + Values(m);
      }
    } else {
      assert Values(m) == Values(m[1..]);
      JoinedIsJoin(values, m[1..]);
    }
  }

  lemma JoinNotEmpty(values: seq<Bytes>)
    requires values == [] || values[0] != []
    ensures Join(values) == [] <==> values == []
  {
  }

  /** The payload of a message is its data values, from the first that is not empty, joined by newlines. */
  lemma DataIsJoined(m: Message)
    ensures DataOf([], m) == Join(FromText(Values(m)))
  {
    JoinedIsJoin([], m);
  }
}
