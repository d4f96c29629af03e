/** How each attempt of a streamed request ends, told on its messages, and which attempts a call opens. */
module TransportAttempts {
  import opened Bytes
  import S = Sse
  import O = SseOutcomes
  import opened Transport

  // ----- Events that tell nothing -----

  /** A status event: one of five kinds, without any content, and for three of them without headers and metadata. */
  predicate OnlyStatus(e: Event) {
    && (|| e.base.kind == S.Plain("response.metadata") || e.base.kind == S.Plain("response.rate_limits.updated")
        || (e.headers == 0 && !e.metadata
            && (e.base.kind == S.Plain("response.created") || e.base.kind == S.Plain("response.queued")
                || e.base.kind == S.Plain("response.in_progress"))))
    && e == Event(S.Event(e.base.kind, e.base.response, None, "", e.base.raw), e.headers, e.metadata, false, false, "",
                  "", "", 0, "", "", "", 0, e.outputText, e.outputs)
    && match e.base.response
       case None => true
       case Some(r) => e.outputText == "" && e.outputs == 0 && r.error == None
  }

  predicate AllStatus(events: seq<Event>) {
    forall i :: 0 <= i < |events| ==> OnlyStatus(events[i])
  }

  lemma SafeIsStatus(e: Event)
    ensures ReplaySafe(e) <==> OnlyStatus(e)
  {
  }

  lemma StatusAppend(events: seq<Event>, e: Event)
    ensures AllStatus(events + [e]) <==> AllStatus(events) && OnlyStatus(e)
  {
    assert (events + [e])[|events|] == e;
    assert forall i :: 0 <= i < |events| ==> (events + [e])[i] == events[i];
  }

  // ----- What is handed over -----

  /** The caller was handed the events in order, all of them or up to the first it refused. */
  ghost predicate HandedInOrder(takes: Callback, events: seq<Event>, delivered: seq<Event>) {
    && delivered <= events && (forall k :: 0 < k < |delivered| ==> takes(delivered[..k]))
    && (delivered != events ==> delivered != [] && !takes(delivered))
  }

  ghost predicate Refused(takes: Callback, delivered: seq<Event>) {
    delivered != [] && !takes(delivered)
  }

  // ----- What is decoded -----

  /** A message of either transport. */
  datatype Part = Part(event: Event, size: nat)

  function Size(parts: seq<Part>): nat {
    if parts == [] then 0 else Size(parts[..|parts| - 1]) + parts[|parts| - 1].size
  }

  function EventsOf(parts: seq<Part>): (events: seq<Event>)
    ensures |events| == |parts|
  {
    seq(|parts|, i requires 0 <= i < |parts| => parts[i].event)
  }

  /** Proper events within the limits, only the last perhaps closing. */
  predicate Decodable(parts: seq<Part>) {
    && |parts| <= S.MAX_EVENTS && Size(parts) <= S.MAX_PAYLOAD_BYTES
    && forall i :: 0 <= i < |parts| ==>
         O.Proper(parts[i].event.base) && (i < |parts| - 1 ==> !O.Closing(parts[i].event.base))
  }

  predicate Closed(parts: seq<Part>) {
    parts != [] && O.Closing(parts[|parts| - 1].event.base)
  }

  /** The error of a stream that was read to its end. */
  predicate Concluded(parts: seq<Part>, error: Option<Failure>)
    requires Closed(parts)
  {
    var last := parts[|parts| - 1].event.base;
    if (forall i :: 0 <= i < |parts| ==> O.Errorless(parts[i].event.base)) && O.EndsWell(last) then error == None
    else
      && error.Some? && error.value.Stream? && error.value.error.StreamFailed?
      && error.value.error.kind == last.kind && O.StatusTold(last, error.value.error.status)
      && O.CodeTold(last, error.value.error.code)
  }

  // ----- The decoder underneath -----

  /** The decoder has taken the parts. */
  predicate Holds(d: S.Decoder, parts: seq<Part>) {
    && |d.events| == |parts| && d.payloadBytes == Size(parts) && Decodable(parts)
    && (if Closed(parts) then d.terminal == Some(parts[|parts| - 1].event.base) else d.terminal == None && d.code == "")
    && (d.failed <==> (exists i :: 0 <= i < |parts| && !O.Errorless(parts[i].event.base))
                      || (Closed(parts) && !O.EndsWell(parts[|parts| - 1].event.base)))
    && (Closed(parts) ==> O.CodeTold(parts[|parts| - 1].event.base, d.code))
  }

  /** Whether one more part is taken. */
  predicate Enters(parts: seq<Part>, part: Part) {
    Size(parts) + part.size <= S.MAX_PAYLOAD_BYTES && |parts| < S.MAX_EVENTS && O.Proper(part.event.base)
    && !Closed(parts)
  }

  predicate RefusedAs(parts: seq<Part>, part: Part, error: S.Error) {
    if Size(parts) + part.size <= S.MAX_PAYLOAD_BYTES && !part.event.base.kind.Blank? && Closed(parts) then
      error == S.DuplicateTerminal
    else error == S.Malformed
  }

  function Added(d: S.Decoder, part: Part): S.Step<S.Decoder> {
    match S.Reserve(d, part.size)
    case Stop(e, error) => S.Stop(e, error)
    case Go(reserved) => S.Add(reserved, part.event.base)
  }

  lemma SizeAppend(parts: seq<Part>, part: Part)
    ensures Size(parts + [part]) == Size(parts) + part.size
  {
    assert (parts + [part])[..|parts|] == parts;
  }

  lemma ErrorsAppend(parts: seq<Part>, part: Part)
    ensures (exists i :: 0 <= i < |parts + [part]| && !O.Errorless((parts + [part])[i].event.base))
            <==> (exists i :: 0 <= i < |parts| && !O.Errorless(parts[i].event.base)) || !O.Errorless(part.event.base)
  {
    var longer := parts + [part];
    if i :| 0 <= i < |parts| && !O.Errorless(parts[i].event.base) {
      assert longer[i] == parts[i];
    }
    assert longer[|parts|] == part;
  }

  lemma OnePart(d: S.Decoder, parts: seq<Part>, part: Part)
    requires Holds(d, parts)
    ensures Added(d, part).Go? <==> Enters(parts, part)
    ensures Added(d, part).Go? ==> Holds(Added(d, part).value, parts + [part]) && Added(d, part).value.done == d.done
    ensures Added(d, part).Stop? ==> RefusedAs(parts, part, Added(d, part).error)
  {
    var e := part.event.base;
    O.FieldsTell(e, "");
    if Enters(parts, part) {
      SizeAppend(parts, part);
      ErrorsAppend(parts, part);
      assert (parts + [part])[|parts|] == part;
    }
  }

  lemma FinishTells(d: S.Decoder, parts: seq<Part>)
    requires Holds(d, parts)
    ensures Closed(parts) ==> Concluded(parts, FinishWith(d))
    ensures !Closed(parts) ==> FinishWith(d) == Some(Stream(S.AbruptClose))
  {
    if Closed(parts) {
      O.FieldsTell(parts[|parts| - 1].event.base, "");
    }
  }

  // ----- Handing over -----

  /** Every one of the events was taken. */
  ghost predicate AllTaken(takes: Callback, events: seq<Event>) {
    forall k :: 0 < k <= |events| ==> takes(events[..k])
  }

  lemma {:induction false} HandOverTells(takes: Callback, delivered: seq<Event>, events: seq<Event>, all: seq<Event>)
    requires all == delivered + events && AllTaken(takes, delivered)
    ensures var h := HandOver(takes, delivered, events);
            && HandedInOrder(takes, all, h.delivered) && (h.ok <==> AllTaken(takes, all))
            && (h.ok ==> h.delivered == all)
            && (h.ok <==> !Refused(takes, h.delivered) && h.delivered == all)
    decreases |events|
  {
    if events == [] {
      assert all == delivered && delivered[..|delivered|] == delivered;
    } else {
      var next := delivered + [events[0]];
      assert all[..|next|] == next;
      assert forall k :: 0 < k <= |delivered| ==> next[..k] == delivered[..k];
      assert next[..|next|] == next;
      if takes(next) {
        HandOverTells(takes, next, events[1..], all);
      }
    }
  }

  /** The buffer after these events, none of which was refused. */
  ghost predicate Buffered(takes: Callback, b: Buffer, events: seq<Event>) {
    if AllStatus(events) then b == Buffer(events, false, [])
    else b == Buffer([], true, events) && AllTaken(takes, events)
  }

  /** What the caller has of these events when the attempt is over. */
  ghost predicate Has(takes: Callback, b: Buffer, events: seq<Event>) {
    if AllStatus(events) then b.delivered == [] && !b.emitted
    else b.emitted && HandedInOrder(takes, events, b.delivered)
  }

  lemma EmitTells(takes: Callback, b: Buffer, events: seq<Event>, e: Event)
    requires Buffered(takes, b, events)
    ensures var r := Emit(takes, b, e);
            && Has(takes, r.buffer, events + [e])
            && (r.ok ==> Buffered(takes, r.buffer, events + [e]))
            && (r.ok <==> !Refused(takes, r.buffer.delivered))
  {
    SafeIsStatus(e);
    StatusAppend(events, e);
    if !AllStatus(events + [e]) {
      assert AllTaken(takes, b.delivered);
      assert b.delivered + (b.pending + [e]) == events + [e];
      HandOverTells(takes, b.delivered, b.pending + [e], events + [e]);
    }
  }

  lemma BufferedHas(takes: Callback, b: Buffer, events: seq<Event>)
    requires Buffered(takes, b, events)
    ensures Has(takes, b, events) && !Refused(takes, b.delivered)
  {
    if !AllStatus(events) {
      assert events[..|events|] == events;
    }
  }

  // ----- A WebSocket attempt -----

  predicate Messages(frames: seq<Frame>) {
    forall i :: 0 <= i < |frames| ==> frames[i].Message?
  }

  function FrameParts(frames: seq<Frame>): (parts: seq<Part>)
    requires Messages(frames)
    ensures |parts| == |frames|
  {
    seq(|frames|, i requires 0 <= i < |frames| => Part(frames[i].event, frames[i].size))
  }

  predicate FailsAs(a: Attempt, failure: Failure, fallback: bool) {
    a.error == Some(failure) && a.reply == None && a.fallback == fallback
  }

  predicate RepliesAs(a: Attempt, status: nat) {
    a.error == None && a.reply == Some(status) && !a.fallback
  }

  /** How reading ends after these parts: refused by the caller, at the end of the stream or of the connection, or
      at the first message that is no event or does not enter. */
  ghost predicate ReadEnds(takes: Callback, w: WebSocket, parts: seq<Part>, a: Attempt)
    requires w.Open? && |parts| <= |w.frames|
  {
    if Refused(takes, a.buffer.delivered) then FailsAs(a, Stream(S.CallbackFailed), false)
    else if Closed(parts) then a.reply == None && !a.fallback && Concluded(parts, a.error)
    else if |parts| == |w.frames| then FailsAs(a, w.end, w.fallback && AllStatus(a.events))
    else match w.frames[|parts|]
      case BadFrame(error) => FailsAs(a, Stream(error), false)
      case ErrorReply(status, code, size) =>
        if Size(parts) + size > S.MAX_PAYLOAD_BYTES then FailsAs(a, Stream(S.Malformed), false)
        else if status == 401 && AllStatus(a.events) then RepliesAs(a, 401)
        else FailsAs(a, Upstream(status, code), false)
      case Message(event, size) => !Enters(parts, Part(event, size)) && FailsAs(a, Stream(S.Malformed), false)
  }

  ghost predicate FramesEnd(takes: Callback, w: WebSocket, a: Attempt)
    requires w.Open?
  {
    var n := |a.events|;
    && n <= |w.frames| && Messages(w.frames[..n]) && Decodable(FrameParts(w.frames[..n]))
    && a.events == EventsOf(FrameParts(w.frames[..n])) && Has(takes, a.buffer, a.events)
    && ReadEnds(takes, w, FrameParts(w.frames[..n]), a)
  }

  /** How an attempt ends. One that is not connected fails, and allows SSE as the failure says or for these statuses;
      a handshake answered with 401 is reported. */
  ghost predicate SocketEnds(takes: Callback, w: WebSocket, a: Attempt) {
    match w
    case DialFailed(failure, fallback) => a.events == [] && a.buffer == EMPTY && FailsAs(a, failure, fallback)
    case Handshake(status, code, unsupported) =>
      && a.events == [] && a.buffer == EMPTY
      && (if status == 401 then RepliesAs(a, 401)
          else
            var elsewhere := status in {404, 405, 408, 426} || 500 <= status <= 504;
            FailsAs(a, Upstream(status, code), unsupported || elsewhere))
    case Open(_, _, _) => FramesEnd(takes, w, a)
  }

  /** The reader after `i` messages, all of them events that were taken, none closing. */
  ghost predicate Reading(takes: Callback, w: WebSocket, i: nat, d: S.Decoder, unsafe: bool, b: Buffer,
                          events: seq<Event>)
    requires w.Open?
  {
    && i <= |w.frames| && Messages(w.frames[..i]) && events == EventsOf(FrameParts(w.frames[..i]))
    && Holds(d, FrameParts(w.frames[..i])) && !Closed(FrameParts(w.frames[..i]))
    && Buffered(takes, b, events) && (unsafe <==> !AllStatus(events))
  }

  lemma PartsGrow(w: WebSocket, i: nat, parts: seq<Part>, longer: seq<Part>, part: Part)
    requires w.Open? && i < |w.frames| && Messages(w.frames[..i + 1])
             && part == Part(w.frames[i].event, w.frames[i].size)
    requires parts == FrameParts(w.frames[..i]) && longer == FrameParts(w.frames[..i + 1])
    ensures longer == parts + [part] && EventsOf(longer) == EventsOf(parts) + [part.event]
  {
  }

  /** The end of an attempt that read `i` messages as events. */
  lemma EndsHere(takes: Callback, w: WebSocket, i: nat, parts: seq<Part>, a: Attempt)
    requires w.Open? && i <= |w.frames| && Messages(w.frames[..i]) && parts == FrameParts(w.frames[..i])
    requires Decodable(parts) && a.events == EventsOf(parts) && Has(takes, a.buffer, a.events)
             && ReadEnds(takes, w, parts, a)
    ensures FramesEnd(takes, w, a)
  {
  }

  lemma MessageEnds(takes: Callback, w: WebSocket, i: nat, d: S.Decoder, unsafe: bool, b: Buffer, events: seq<Event>,
                    part: Part, d': S.Decoder, r: Emitted, parts: seq<Part>)
    requires w.Open? && i < |w.frames| && w.frames[i] == Message(part.event, part.size)
    requires Reading(takes, w, i, d, unsafe, b, events) && Added(d, part) == S.Go(d') && r == Emit(takes, b, part.event)
    requires Messages(w.frames[..i + 1]) && parts == FrameParts(w.frames[..i + 1])
    ensures EventsOf(parts) == events + [part.event]
    ensures !r.ok ==> FramesEnd(takes, w, Failed(r.buffer, Stream(S.CallbackFailed), false, events + [part.event]))
    ensures r.ok && Closed(parts) ==>
              FramesEnd(takes, w, Attempt(r.buffer, FinishWith(d'), None, false, events + [part.event]))
    ensures r.ok && !Closed(parts) ==>
              Reading(takes, w, i + 1, d', unsafe || !ReplaySafe(part.event), r.buffer, events + [part.event])
    ensures Closed(parts) <==> S.Terminal(part.event.base.kind)
  {
    PartsGrow(w, i, FrameParts(w.frames[..i]), parts, part);
    OnePart(d, FrameParts(w.frames[..i]), part);
    EmitTells(takes, b, events, part.event);
    SafeIsStatus(part.event);
    StatusAppend(events, part.event);
    O.FieldsTell(part.event.base, "");
    FinishTells(d', parts);
  }

  lemma MessageRead(takes: Callback, w: WebSocket, i: nat, d: S.Decoder, unsafe: bool, b: Buffer, events: seq<Event>,
                    part: Part)
    requires w.Open? && i < |w.frames| && w.frames[i] == Message(part.event, part.size)
    ensures var a, added := ReadFrames(takes, d, unsafe, b, w, i, events), Added(d, part);
            var r, longer := Emit(takes, b, part.event), events + [part.event];
            && (added.Stop? ==> a == Failed(b, Stream(added.error), false, events))
            && (added.Go? && !r.ok ==> a == Failed(r.buffer, Stream(S.CallbackFailed), false, longer))
            && (added.Go? && r.ok && S.Terminal(part.event.base.kind) ==>
                  a == Attempt(r.buffer, FinishWith(added.value), None, false, longer))
            && (added.Go? && r.ok && !S.Terminal(part.event.base.kind) ==>
                  a == ReadFrames(takes, added.value, unsafe || !ReplaySafe(part.event), r.buffer, w, i + 1, longer))
  {
  }

  lemma NoEventEnds(takes: Callback, w: WebSocket, i: nat, d: S.Decoder, unsafe: bool, b: Buffer, events: seq<Event>)
    requires w.Open? && Reading(takes, w, i, d, unsafe, b, events) && (i < |w.frames| ==> !w.frames[i].Message?)
    ensures FramesEnd(takes, w, ReadFrames(takes, d, unsafe, b, w, i, events))
  {
    BufferedHas(takes, b, events);
    EndsHere(takes, w, i, FrameParts(w.frames[..i]), ReadFrames(takes, d, unsafe, b, w, i, events));
  }

  lemma RefusedEventEnds(takes: Callback, w: WebSocket, i: nat, d: S.Decoder, unsafe: bool, b: Buffer,
                         events: seq<Event>, part: Part)
    requires w.Open? && i < |w.frames| && w.frames[i] == Message(part.event, part.size)
    requires Reading(takes, w, i, d, unsafe, b, events) && Added(d, part).Stop?
    ensures FramesEnd(takes, w, Failed(b, Stream(Added(d, part).error), false, events))
  {
    OnePart(d, FrameParts(w.frames[..i]), part);
    BufferedHas(takes, b, events);
    EndsHere(takes, w, i, FrameParts(w.frames[..i]), Failed(b, Stream(Added(d, part).error), false, events));
  }

  lemma {:induction false} ReadFramesEnds(takes: Callback, w: WebSocket, i: nat, d: S.Decoder, unsafe: bool, b: Buffer,
                                          events: seq<Event>)
    requires w.Open? && Reading(takes, w, i, d, unsafe, b, events)
    ensures FramesEnd(takes, w, ReadFrames(takes, d, unsafe, b, w, i, events))
    decreases |w.frames| - i
  {
    if i < |w.frames| && w.frames[i].Message? {
      var part := Part(w.frames[i].event, w.frames[i].size);
      MessageRead(takes, w, i, d, unsafe, b, events, part);
      if Added(d, part).Go? {
        assert Messages(w.frames[..i + 1]);
        var d', r := Added(d, part).value, Emit(takes, b, part.event);
        MessageEnds(takes, w, i, d, unsafe, b, events, part, d', r, FrameParts(w.frames[..i + 1]));
        if r.ok && !S.Terminal(part.event.base.kind) {
          ReadFramesEnds(takes, w, i + 1, d', unsafe || !ReplaySafe(part.event), r.buffer, events + [part.event]);
        }
      } else {
        RefusedEventEnds(takes, w, i, d, unsafe, b, events, part);
      }
    } else {
      NoEventEnds(takes, w, i, d, unsafe, b, events);
    }
  }

  /** Every WebSocket attempt that starts with nothing held ends as its messages say. */
  lemma SocketIsTold(takes: Callback, w: WebSocket)
    ensures SocketEnds(takes, w, TryWebSocket(takes, EMPTY, w))
  {
    if w.Open? {
      assert w.frames[..0] == [] && FrameParts([]) == [] && EventsOf([]) == [];
      ReadFramesEnds(takes, w, 0, S.NEW_DECODER, false, EMPTY, []);
    }
  }

  // ----- An SSE attempt -----

  predicate Payloads(items: seq<Item>) {
    forall i :: 0 <= i < |items| ==> items[i].Payload?
  }

  function ItemParts(items: seq<Item>): (parts: seq<Part>)
    requires Payloads(items)
    ensures |parts| == |items|
  {
    seq(|items|, i requires 0 <= i < |items| => Part(items[i].event, items[i].size))
  }

  /** The body is over after these parts, by its end or by a read error. */
  predicate BodyOver(broken: bool, parts: seq<Part>, a: Attempt) {
    if broken then FailsAs(a, Stream(S.ReadFailed), false)
    else if !Closed(parts) then FailsAs(a, Stream(S.AbruptClose), false)
    else a.reply == None && !a.fallback && Concluded(parts, a.error)
  }

  /** How a body ends after these parts; a [DONE] may follow the closing event, and nothing may follow it. */
  ghost predicate ItemsStop(takes: Callback, r: SseReply, parts: seq<Part>, a: Attempt)
    requires r.Body? && |parts| <= |r.items|
  {
    var n := |parts|;
    if Refused(takes, a.buffer.delivered) then FailsAs(a, Stream(S.CallbackFailed), false)
    else if n == |r.items| then BodyOver(r.broken, parts, a)
    else match r.items[n]
      case BadItem(error) => FailsAs(a, Stream(error), false)
      case Payload(event, size) =>
        !Enters(parts, Part(event, size)) && exists error :: RefusedAs(parts, Part(event, size), error)
                                                             && FailsAs(a, Stream(error), false)
      case DoneItem =>
        if !Closed(parts) then FailsAs(a, Stream(S.Malformed), false)
        else if n + 1 == |r.items| then BodyOver(r.broken, parts, a)
        else if r.items[n + 1].BadItem? then FailsAs(a, Stream(r.items[n + 1].error), false)
        else FailsAs(a, Stream(S.DuplicateTerminal), false)
  }

  ghost predicate ItemsEnd(takes: Callback, r: SseReply, a: Attempt)
    requires r.Body?
  {
    var n := |a.events|;
    && n <= |r.items| && Payloads(r.items[..n]) && Decodable(ItemParts(r.items[..n]))
    && a.events == EventsOf(ItemParts(r.items[..n]))
    && a.buffer == Buffer([], true, a.events) && HandedInOrder(takes, a.events, a.events)
    && ItemsStop(takes, r, ItemParts(r.items[..n]), a)
  }

  ghost predicate SseEnds(takes: Callback, r: SseReply, a: Attempt) {
    match r
    case Unauthorized => a.events == [] && a.buffer.delivered == [] && RepliesAs(a, 401)
    case SseFailed(failure) => a.events == [] && a.buffer.delivered == [] && FailsAs(a, failure, false)
    case Body(_, _) => ItemsEnd(takes, r, a)
  }

  /** The reader after `i` payloads, all of them taken. */
  ghost predicate ReadingItems(takes: Callback, r: SseReply, i: nat, d: S.Decoder, events: seq<Event>)
    requires r.Body?
  {
    && i <= |r.items| && Payloads(r.items[..i]) && events == EventsOf(ItemParts(r.items[..i]))
    && Holds(d, ItemParts(r.items[..i])) && !d.done && AllTaken(takes, events)
  }

  lemma ItemsGrow(r: SseReply, i: nat, part: Part)
    requires r.Body? && i < |r.items| && Payloads(r.items[..i]) && r.items[i] == Payload(part.event, part.size)
    ensures Payloads(r.items[..i + 1]) && ItemParts(r.items[..i + 1]) == ItemParts(r.items[..i]) + [part]
    ensures EventsOf(ItemParts(r.items[..i + 1])) == EventsOf(ItemParts(r.items[..i])) + [part.event]
  {
  }

  lemma TakenIsHanded(takes: Callback, events: seq<Event>)
    requires AllTaken(takes, events)
    ensures HandedInOrder(takes, events, events) && !Refused(takes, events)
  {
    assert events[..|events|] == events;
  }

  lemma StopsHere(takes: Callback, r: SseReply, i: nat, parts: seq<Part>, a: Attempt)
    requires r.Body? && i <= |r.items| && Payloads(r.items[..i]) && parts == ItemParts(r.items[..i])
    requires Decodable(parts) && a.events == EventsOf(parts) && a.buffer == Buffer([], true, a.events)
    requires HandedInOrder(takes, a.events, a.events) && ItemsStop(takes, r, parts, a)
    ensures ItemsEnd(takes, r, a)
  {
  }

  lemma PayloadRead(takes: Callback, r: SseReply, i: nat, d: S.Decoder, events: seq<Event>, part: Part)
    requires r.Body? && i < |r.items| && r.items[i] == Payload(part.event, part.size) && !d.done
    ensures var a, added := ReadItems(takes, d, events, r, i, events), Added(d, part);
            var longer := events + [part.event];
            && (added.Stop? ==> a == Failed(Buffer([], true, events), Stream(added.error), false, events))
            && (added.Go? && !takes(longer) ==>
                  a == Failed(Buffer([], true, longer), Stream(S.CallbackFailed), false, longer))
            && (added.Go? && takes(longer) ==> a == ReadItems(takes, added.value, longer, r, i + 1, longer))
  {
  }

  lemma PayloadStops(takes: Callback, r: SseReply, i: nat, d: S.Decoder, events: seq<Event>, part: Part)
    requires r.Body? && i < |r.items| && r.items[i] == Payload(part.event, part.size)
    requires ReadingItems(takes, r, i, d, events) && Added(d, part).Stop?
    ensures ItemsEnd(takes, r, Failed(Buffer([], true, events), Stream(Added(d, part).error), false, events))
  {
    OnePart(d, ItemParts(r.items[..i]), part);
    TakenIsHanded(takes, events);
    StopsHere(takes, r, i, ItemParts(r.items[..i]),
              Failed(Buffer([], true, events), Stream(Added(d, part).error), false, events));
  }

  lemma PayloadEnters(takes: Callback, r: SseReply, i: nat, d: S.Decoder, events: seq<Event>, part: Part, d': S.Decoder)
    requires r.Body? && i < |r.items| && r.items[i] == Payload(part.event, part.size)
    requires ReadingItems(takes, r, i, d, events) && Added(d, part) == S.Go(d')
    ensures var longer := events + [part.event];
            if takes(longer) then ReadingItems(takes, r, i + 1, d', longer)
            else ItemsEnd(takes, r, Failed(Buffer([], true, longer), Stream(S.CallbackFailed), false, longer))
  {
    var longer := events + [part.event];
    OnePart(d, ItemParts(r.items[..i]), part);
    ItemsGrow(r, i, part);
    assert longer[..|longer|] == longer;
    assert forall k :: 0 < k <= |events| ==> longer[..k] == events[..k];
    if !takes(longer) {
      StopsHere(takes, r, i + 1, ItemParts(r.items[..i + 1]),
                Failed(Buffer([], true, longer), Stream(S.CallbackFailed), false, longer));
    }
  }

  /** At the end of the body, at something that is no payload, or at the [DONE]. */
  lemma OthersEnd(takes: Callback, r: SseReply, i: nat, d: S.Decoder, events: seq<Event>)
    requires r.Body? && ReadingItems(takes, r, i, d, events) && (i < |r.items| ==> !r.items[i].Payload?)
    ensures ItemsEnd(takes, r, ReadItems(takes, d, events, r, i, events))
  {
    var a := ReadItems(takes, d, events, r, i, events);
    TakenIsHanded(takes, events);
    FinishTells(d, ItemParts(r.items[..i]));
    if i < |r.items| && r.items[i].DoneItem? && d.terminal.Some? {
      assert a == ReadItems(takes, d.(done := true), events, r, i + 1, events);
      FinishTells(d.(done := true), ItemParts(r.items[..i]));
    }
    StopsHere(takes, r, i, ItemParts(r.items[..i]), a);
  }

  lemma {:induction false} ReadItemsEnd(takes: Callback, r: SseReply, i: nat, d: S.Decoder, events: seq<Event>)
    requires r.Body? && ReadingItems(takes, r, i, d, events)
    ensures ItemsEnd(takes, r, ReadItems(takes, d, events, r, i, events))
    decreases |r.items| - i
  {
    if i < |r.items| && r.items[i].Payload? {
      var part := Part(r.items[i].event, r.items[i].size);
      PayloadRead(takes, r, i, d, events, part);
      if Added(d, part).Go? {
        PayloadEnters(takes, r, i, d, events, part, Added(d, part).value);
        if takes(events + [part.event]) {
          ReadItemsEnd(takes, r, i + 1, Added(d, part).value, events + [part.event]);
        }
      } else {
        PayloadStops(takes, r, i, d, events, part);
      }
    } else {
      OthersEnd(takes, r, i, d, events);
    }
  }

  /** Every SSE attempt hands every event over, and ends as its items say. */
  lemma SseIsTold(takes: Callback, r: SseReply)
    ensures SseEnds(takes, r, TrySse(takes, [], r))
  {
    if r.Body? {
      assert r.items[..0] == [] && ItemParts([]) == [] && EventsOf([]) == [];
      ReadItemsEnd(takes, r, 0, S.NEW_DECODER, []);
    }
  }
}
