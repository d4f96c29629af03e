/** One streamed request: WebSocket, one WebSocket retry, the SSE fallback and the one replay after a 401.
    What the caller is handed always comes from a single attempt. */
module Transport {
  import opened Bytes
  import S = Sse

  const CONNECTION_LIMIT := "websocket_connection_limit_reached"
  const UNAUTHORIZED := 401

  /** A stream event with the fields that decide whether it may be replayed. */
  datatype Event = Event(base: S.Event, headers: nat, metadata: bool, item: bool, part: bool, delta: string,
                         arguments: string, text: string, logprobs: nat, message: string, itemId: string,
                         image: string, imageIndex: int, outputText: string, outputs: nat)

  predicate NoContent(e: Event) {
    && !e.item && !e.part && e.base.error.None? && e.delta == "" && e.arguments == "" && e.text == ""
    && e.logprobs == 0 && e.base.code == "" && e.message == "" && e.itemId == "" && e.image == "" && e.imageIndex == 0
    && (e.base.response.Some? ==> e.outputText == "" && e.outputs == 0 && e.base.response.value.error.None?)
  }

  /** The event tells the caller nothing that a second attempt could contradict. */
  predicate ReplaySafe(e: Event) {
    && (e.base.kind in {S.Plain("response.created"), S.Plain("response.queued"), S.Plain("response.in_progress")} ==>
          e.headers == 0 && !e.metadata)
    && e.base.kind in {S.Plain("response.created"), S.Plain("response.queued"), S.Plain("response.in_progress"),
                       S.Plain("response.metadata"), S.Plain("response.rate_limits.updated")}
    && NoContent(e)
  }

  datatype Failure = Stream(error: S.Error) | Upstream(status: nat, code: string) | Local(tag: nat)

  predicate LimitReached(f: Failure) {
    match f
    case Stream(e) => e.StreamFailed? && e.code == CONNECTION_LIMIT
    case Upstream(_, code) => code == CONNECTION_LIMIT
    case Local(_) => false
  }

  /** One WebSocket message: refused before it is an event, an error reply with an HTTP status, or an event. */
  datatype Frame =
    | BadFrame(error: S.Error)
    | ErrorReply(status: nat, code: string, size: nat)
    | Message(event: Event, size: nat)

  /** What a WebSocket attempt meets. `fallback` says whether such a failure allows the SSE transport. */
  datatype WebSocket =
    | DialFailed(failure: Failure, fallback: bool)
    | Handshake(status: nat, code: string, unsupported: bool)
    | Open(frames: seq<Frame>, end: Failure, fallback: bool)

  /** What an SSE attempt meets. */
  datatype Item = BadItem(error: S.Error) | Payload(event: Event, size: nat) | DoneItem

  datatype SseReply = Unauthorized | SseFailed(failure: Failure) | Body(items: seq<Item>, broken: bool)

  /** Everything one send may meet, and whether the caller gave up after the WebSocket attempts. */
  datatype Script = Script(sseOnly: bool, first: WebSocket, second: WebSocket, sse: SseReply, cancelled: bool)

  /** The caller's callback: whether it takes the last of the events it was handed. */
  type Callback = seq<Event> -> bool

  // ----- The replay buffer -----

  datatype Buffer = Buffer(pending: seq<Event>, emitted: bool, delivered: seq<Event>)

  datatype Handed = Handed(delivered: seq<Event>, ok: bool)

  function HandOver(takes: Callback, delivered: seq<Event>, events: seq<Event>): Handed
    decreases |events|
  {
    if events == [] then Handed(delivered, true)
    else
      var next := delivered + [events[0]];
      if !takes(next) then Handed(next, false) else HandOver(takes, next, events[1..])
  }

  datatype Emitted = Emitted(buffer: Buffer, ok: bool)

  function Emit(takes: Callback, b: Buffer, e: Event): Emitted {
    if !b.emitted && ReplaySafe(e) then Emitted(b.(pending := b.pending + [e]), true)
    else
      var h := HandOver(takes, b.delivered, b.pending + [e]);
      Emitted(Buffer([], true, h.delivered), h.ok)
  }

  // ----- One WebSocket attempt -----

  /** How an attempt ended: with an error, an HTTP reply, or neither; and whether SSE may follow. `events`
      are those the attempt decoded, in order. */
  datatype Attempt = Attempt(buffer: Buffer, error: Option<Failure>, reply: Option<nat>, fallback: bool,
                             events: seq<Event>)

  function FinishWith(d: S.Decoder): Option<Failure> {
    match S.Finish(d)
    case None => None
    case Some(e) => Some(Stream(e))
  }

  function Failed(b: Buffer, f: Failure, fallback: bool, events: seq<Event>): Attempt {
    Attempt(b, Some(f), None, fallback, events)
  }

  /** An error reply goes to the caller of the attempt only while nothing unsafe was seen. */
  function OnReply(b: Buffer, unsafe: bool, status: nat, code: string, events: seq<Event>): Attempt {
    if unsafe then Failed(b, Upstream(status, code), false, events)
    else if status == UNAUTHORIZED then Attempt(b, None, Some(status), false, events)
    else Failed(b, Upstream(status, code), false, events)
  }

  function ReadFrames(takes: Callback, d: S.Decoder, unsafe: bool, b: Buffer, w: WebSocket, i: nat,
                      events: seq<Event>): Attempt
    requires w.Open? && i <= |w.frames|
    decreases |w.frames| - i
  {
    if i == |w.frames| then Failed(b, w.end, !unsafe && w.fallback, events)
    else match w.frames[i]
      case BadFrame(error) => Failed(b, Stream(error), false, events)
      case ErrorReply(status, code, size) =>
        if S.Reserve(d, size).Stop? then Failed(b, Stream(S.Malformed), false, events)
        else OnReply(b, unsafe, status, code, events)
      case Message(event, size) => OnMessage(takes, d, unsafe, b, w, i, events, event, size)
  }

  function OnMessage(takes: Callback, d: S.Decoder, unsafe: bool, b: Buffer, w: WebSocket, i: nat, events: seq<Event>,
                     event: Event, size: nat): Attempt
    requires w.Open? && i < |w.frames|
    decreases |w.frames| - i, 0
  {
    match S.Reserve(d, size)
    case Stop(_, error) => Failed(b, Stream(error), false, events)
    case Go(reserved) =>
      match S.Add(reserved, event.base)
      case Stop(_, error) => Failed(b, Stream(error), false, events)
      case Go(added) =>
        var e := Emit(takes, b, event);
        if !e.ok then Failed(e.buffer, Stream(S.CallbackFailed), false, events + [event])
        else if S.Terminal(event.base.kind) then Attempt(e.buffer, FinishWith(added), None, false, events + [event])
        else ReadFrames(takes, added, unsafe || !ReplaySafe(event), e.buffer, w, i + 1, events + [event])
  }

  predicate FallbackStatus(status: nat) {
    status in {404, 405, 426, 501, 408, 500, 502, 503, 504}
  }

  function TryWebSocket(takes: Callback, b: Buffer, w: WebSocket): Attempt {
    match w
    case DialFailed(failure, fallback) => Failed(b, failure, fallback, [])
    case Handshake(status, code, unsupported) =>
      if status == UNAUTHORIZED then Attempt(b, None, Some(status), false, [])
      else Failed(b, Upstream(status, code), FallbackStatus(status) || unsupported, [])
    case Open(_, _, _) => ReadFrames(takes, S.NEW_DECODER, false, b, w, 0, [])
  }

  // ----- One SSE attempt -----

  function ReadItems(takes: Callback, d: S.Decoder, delivered: seq<Event>, r: SseReply, i: nat,
                     events: seq<Event>): Attempt
    requires r.Body? && i <= |r.items|
    decreases |r.items| - i
  {
    var b := Buffer([], true, delivered);
    if i == |r.items| then
      if r.broken then Failed(b, Stream(S.ReadFailed), false, events)
      else Attempt(b, FinishWith(d), None, false, events)
    else match r.items[i]
      case BadItem(error) => Failed(b, Stream(error), false, events)
      case DoneItem =>
        if d.done then Failed(b, Stream(S.DuplicateTerminal), false, events)
        else if d.terminal.None? then Failed(b, Stream(S.Malformed), false, events)
        else ReadItems(takes, d.(done := true), delivered, r, i + 1, events)
      case Payload(event, size) =>
        if d.done then Failed(b, Stream(S.DuplicateTerminal), false, events)
        else OnPayload(takes, d, delivered, r, i, events, event, size)
  }

  function OnPayload(takes: Callback, d: S.Decoder, delivered: seq<Event>, r: SseReply, i: nat, events: seq<Event>,
                     event: Event, size: nat): Attempt
    requires r.Body? && i < |r.items|
    decreases |r.items| - i, 0
  {
    var b := Buffer([], true, delivered);
    match S.Reserve(d, size)
    case Stop(_, error) => Failed(b, Stream(error), false, events)
    case Go(reserved) =>
      match S.Add(reserved, event.base)
      case Stop(_, error) => Failed(b, Stream(error), false, events)
      case Go(added) =>
        var next := delivered + [event];
        if !takes(next) then Failed(Buffer([], true, next), Stream(S.CallbackFailed), false, events + [event])
        else ReadItems(takes, added, next, r, i + 1, events + [event])
  }

  function TrySse(takes: Callback, delivered: seq<Event>, r: SseReply): Attempt {
    match r
    case Unauthorized => Attempt(Buffer([], true, delivered), None, Some(UNAUTHORIZED), false, [])
    case SseFailed(failure) => Failed(Buffer([], true, delivered), failure, false, [])
    case Body(_, _) => ReadItems(takes, S.NEW_DECODER, delivered, r, 0, [])
  }

  // ----- One send -----

  /** The outcome of a send, and the events of every attempt it opened. */
  datatype Sent = Sent(delivered: seq<Event>, error: Option<Failure>, reply: Option<nat>, attempts: seq<seq<Event>>)

  function AsSent(a: Attempt, attempts: seq<seq<Event>>): Sent {
    Sent(a.buffer.delivered, a.error, a.reply, attempts + [a.events])
  }

  const EMPTY := Buffer([], false, [])

  /** The WebSocket attempt, and the retry when the connection limit was hit before anything was handed over. */
  function WebSocketAttempts(takes: Callback, s: Script): (Attempt, seq<seq<Event>>) {
    var one := TryWebSocket(takes, EMPTY, s.first);
    if one.error.Some? && !one.buffer.emitted && LimitReached(one.error.value) then
      var two := TryWebSocket(takes, one.buffer.(pending := []), s.second);
      (two, [one.events, two.events])
    else (one, [one.events])
  }

  function StreamAttempt(takes: Callback, s: Script): Sent {
    if s.sseOnly then AsSent(TrySse(takes, [], s.sse), [])
    else
      var (w, attempts) := WebSocketAttempts(takes, s);
      if w.error.None? then Sent(w.buffer.delivered, None, w.reply, attempts)
      else if s.cancelled then Sent(w.buffer.delivered, Some(Local(0)), None, attempts)
      else if !w.fallback || w.buffer.emitted then Sent(w.buffer.delivered, w.error, None, attempts)
      else AsSent(TrySse(takes, w.buffer.delivered, s.sse), attempts)
  }

  // ----- One call -----

  /** A call with its two possible sends; a missing one stands for a credential that cannot be had. */
  datatype Call = Call(first: Option<Script>, replay: Option<Script>)

  datatype Result = Result(delivered: seq<Event>, ok: bool, attempts: seq<seq<Event>>)

  function StreamCall(takes: Callback, c: Call): Result {
    if c.first.None? then Result([], false, [])
    else
      var one := StreamAttempt(takes, c.first.value);
      if one.reply.None? then Result(one.delivered, one.error.None?, one.attempts)
      else if c.replay.None? then Result(one.delivered, false, one.attempts)
      else
        var two := StreamAttempt(takes, c.replay.value);
        Result(one.delivered + two.delivered, two.reply.None? && two.error.None?, one.attempts + two.attempts)
  }

  // ----- What an attempt hands over -----

  predicate AllSafe(events: seq<Event>) {
    forall i :: 0 <= i < |events| ==> ReplaySafe(events[i])
  }

  /** Between two events: everything is held back while it is safe, and handed over from then on. */
  predicate Holding(b: Buffer, unsafe: bool, events: seq<Event>) {
    if unsafe then b == Buffer([], true, events)
    else b == Buffer(events, false, []) && AllSafe(events)
  }

  /** After an attempt: nothing was handed over, or a first part of the attempt's events. */
  predicate OneAttempt(a: Attempt) {
    && a.buffer.delivered <= a.events
    && (!a.buffer.emitted ==> a.buffer.delivered == [])
    && (a.reply.Some? || a.fallback ==> !a.buffer.emitted && AllSafe(a.events))
    && (a.reply.Some? ==> a.error.None?)
    && (a.error.None? && a.reply.None? ==> a.buffer.delivered == a.events && EndsOnce(a.events))
  }

  /** A whole stream: its last event is terminal and no other. */
  predicate EndsOnce(events: seq<Event>) {
    events != [] && forall i :: 0 <= i < |events| ==> (S.Terminal(events[i].base.kind) <==> i == |events| - 1)
  }

  predicate NoTerminal(events: seq<Event>) {
    forall i :: 0 <= i < |events| ==> !S.Terminal(events[i].base.kind)
  }

  lemma {:induction false} HandOverAll(takes: Callback, delivered: seq<Event>, events: seq<Event>)
    ensures var h := HandOver(takes, delivered, events);
            h.delivered <= delivered + events && (h.ok ==> h.delivered == delivered + events)
    decreases |events|
  {
    if events != [] {
      HandOverAll(takes, delivered + [events[0]], events[1..]);
      assert delivered + [events[0]] + events[1..] == delivered + events;
    } else {
      assert delivered + events == delivered;
    }
  }

  lemma HeldBack(takes: Callback, b: Buffer, events: seq<Event>, e: Event)
    requires Holding(b, false, events) && ReplaySafe(e)
    ensures Emit(takes, b, e).ok && Holding(Emit(takes, b, e).buffer, false, events + [e])
  {
  }

  lemma HandedOver(takes: Callback, b: Buffer, unsafe: bool, events: seq<Event>, e: Event, r: Emitted)
    requires Holding(b, unsafe, events) && (unsafe || !ReplaySafe(e)) && r == Emit(takes, b, e)
    ensures r.buffer.emitted && r.buffer.delivered <= events + [e]
    ensures r.ok ==> r.buffer == Buffer([], true, events + [e])
  {
    HandOverAll(takes, b.delivered, b.pending + [e]);
    assert b.delivered + (b.pending + [e]) == events + [e];
  }

  lemma EmitHolds(takes: Callback, b: Buffer, unsafe: bool, events: seq<Event>, e: Event)
    requires Holding(b, unsafe, events)
    ensures var r := Emit(takes, b, e);
            && (r.ok ==> Holding(r.buffer, unsafe || !ReplaySafe(e), events + [e]))
            && r.buffer.delivered <= events + [e] && (!r.ok ==> r.buffer.emitted)
  {
    if !unsafe && ReplaySafe(e) {
      HeldBack(takes, b, events, e);
    } else {
      HandedOver(takes, b, unsafe, events, e, Emit(takes, b, e));
    }
  }

  lemma TerminalIsUnsafe(e: Event)
    requires S.Terminal(e.base.kind)
    ensures !ReplaySafe(e)
  {
  }

  predicate Unfinished(d: S.Decoder, events: seq<Event>) {
    d.terminal.None? && NoTerminal(events)
  }

  lemma {:induction false} ReadFramesIsOneAttempt(takes: Callback, d: S.Decoder, unsafe: bool, b: Buffer, w: WebSocket,
                                                  i: nat, events: seq<Event>)
    requires w.Open? && i <= |w.frames| && Holding(b, unsafe, events) && Unfinished(d, events)
    ensures OneAttempt(ReadFrames(takes, d, unsafe, b, w, i, events))
    decreases |w.frames| - i
  {
    if i < |w.frames| && w.frames[i].Message? {
      var event, size := w.frames[i].event, w.frames[i].size;
      EmitHolds(takes, b, unsafe, events, event);
      if S.Reserve(d, size).Go? && S.Add(S.Reserve(d, size).value, event.base).Go? {
        var added := S.Add(S.Reserve(d, size).value, event.base).value;
        if S.Terminal(event.base.kind) {
          TerminalIsUnsafe(event);
        } else if Emit(takes, b, event).ok {
          ReadFramesIsOneAttempt(takes, added, unsafe || !ReplaySafe(event), Emit(takes, b, event).buffer, w, i + 1,
                                 events + [event]);
        }
      }
    }
  }

  lemma WebSocketIsOneAttempt(takes: Callback, w: WebSocket)
    ensures OneAttempt(TryWebSocket(takes, EMPTY, w))
  {
    if w.Open? {
      ReadFramesIsOneAttempt(takes, S.NEW_DECODER, false, EMPTY, w, 0, []);
    }
  }

  /** The decoder's terminal event is the last of the events. */
  predicate InStep(d: S.Decoder, events: seq<Event>) {
    if d.terminal.None? then NoTerminal(events) else EndsOnce(events)
  }

  lemma {:induction false} ReadItemsIsOneAttempt(takes: Callback, d: S.Decoder, delivered: seq<Event>, r: SseReply,
                                                 i: nat)
    requires r.Body? && i <= |r.items| && InStep(d, delivered)
    ensures var a := ReadItems(takes, d, delivered, r, i, delivered);
            && a.buffer.delivered == a.events && a.reply.None? && !a.fallback
            && (a.error.None? ==> EndsOnce(a.events))
    decreases |r.items| - i
  {
    if i < |r.items| && r.items[i].DoneItem? {
      ReadItemsIsOneAttempt(takes, d.(done := true), delivered, r, i + 1);
    } else if i < |r.items| && r.items[i].Payload? && !d.done {
      var event, size := r.items[i].event, r.items[i].size;
      if S.Reserve(d, size).Go? && S.Add(S.Reserve(d, size).value, event.base).Go? && takes(delivered + [event]) {
        ReadItemsIsOneAttempt(takes, S.Add(S.Reserve(d, size).value, event.base).value, delivered + [event], r, i + 1);
      }
    }
  }

  lemma SseIsOneAttempt(takes: Callback, r: SseReply)
    ensures var a := TrySse(takes, [], r);
            && a.buffer.delivered == a.events && !a.fallback
            && (a.reply.Some? ==> a.events == [] && a.error.None?)
            && (a.error.None? && a.reply.None? ==> EndsOnce(a.events))
  {
    if r.Body? {
      ReadItemsIsOneAttempt(takes, S.NEW_DECODER, [], r, 0);
    }
  }

  // ----- What a call hands over -----

  predicate FromLast(delivered: seq<Event>, attempts: seq<seq<Event>>) {
    if attempts == [] then delivered == [] else delivered <= attempts[|attempts| - 1]
  }

  predicate WholeLast(delivered: seq<Event>, attempts: seq<seq<Event>>) {
    attempts != [] && delivered == attempts[|attempts| - 1] && EndsOnce(delivered)
  }

  lemma SendIsSingle(takes: Callback, s: Script)
    ensures var r := StreamAttempt(takes, s);
            && 1 <= |r.attempts| <= 3 && FromLast(r.delivered, r.attempts)
            && (r.reply.Some? ==> r.delivered == [])
            && (r.error.None? && r.reply.None? ==> WholeLast(r.delivered, r.attempts))
  {
    SseIsOneAttempt(takes, s.sse);
    WebSocketIsOneAttempt(takes, s.first);
    WebSocketIsOneAttempt(takes, s.second);
  }

  /** Across the WebSocket retry, the fallback and the replay after a 401: the events handed to the caller
      are a first part of the events of the last attempt opened, in order, so no event comes from an
      attempt that was given up; on success they are that whole stream, which ends in its one terminal
      event. At most three attempts are opened for each of the two sends. */
  lemma DeliveryIsSingleAttempt(takes: Callback, c: Call)
    ensures var r := StreamCall(takes, c);
            && |r.attempts| <= 6 && FromLast(r.delivered, r.attempts)
            && (r.ok ==> WholeLast(r.delivered, r.attempts))
  {
    if c.first.Some? {
      SendIsSingle(takes, c.first.value);
      if StreamAttempt(takes, c.first.value).reply.Some? && c.replay.Some? {
        SendIsSingle(takes, c.replay.value);
        var one, two := StreamAttempt(takes, c.first.value), StreamAttempt(takes, c.replay.value);
        assert one.delivered + two.delivered == two.delivered;
        assert (one.attempts + two.attempts)[|one.attempts| + |two.attempts| - 1] == two.attempts[|two.attempts| - 1];
      }
    }
  }

  lemma SendGivesUpSafely(takes: Callback, s: Script, i: nat)
    requires i + 1 < |StreamAttempt(takes, s).attempts|
    ensures AllSafe(StreamAttempt(takes, s).attempts[i])
  {
    WebSocketIsOneAttempt(takes, s.first);
    WebSocketIsOneAttempt(takes, s.second);
    GivenUpIsSafe(takes, s.first);
    GivenUpIsSafe(takes, s.second);
  }

  /** The attempt that ends in a 401 can be replayed. */
  lemma RepliedIsSafe(takes: Callback, s: Script)
    requires StreamAttempt(takes, s).reply.Some?
    ensures var attempts := StreamAttempt(takes, s).attempts;
            attempts != [] && AllSafe(attempts[|attempts| - 1])
  {
    SseIsOneAttempt(takes, s.sse);
    WebSocketIsOneAttempt(takes, s.first);
    WebSocketIsOneAttempt(takes, s.second);
  }

  /** Over the whole call, an attempt is given up (for the WebSocket retry, for the fallback or for the replay
      after a 401) only while every one of its events could be replayed. */
  lemma GivenUpAttemptsWereSafe(takes: Callback, c: Call, i: nat)
    requires i + 1 < |StreamCall(takes, c).attempts|
    ensures AllSafe(StreamCall(takes, c).attempts[i])
  {
    var one := StreamAttempt(takes, c.first.value);
    if i + 1 < |one.attempts| {
      SendGivesUpSafely(takes, c.first.value, i);
    } else if i + 1 == |one.attempts| {
      RepliedIsSafe(takes, c.first.value);
    } else {
      SendGivesUpSafely(takes, c.replay.value, i - |one.attempts|);
    }
  }

  lemma GivenUpIsSafe(takes: Callback, w: WebSocket)
    ensures var a := TryWebSocket(takes, EMPTY, w);
            !a.buffer.emitted ==> AllSafe(a.events)
  {
    if w.Open? {
      UnemittedIsSafe(takes, S.NEW_DECODER, false, EMPTY, w, 0, []);
    }
  }

  lemma {:induction false} UnemittedIsSafe(takes: Callback, d: S.Decoder, unsafe: bool, b: Buffer, w: WebSocket,
                                           i: nat, events: seq<Event>)
    requires w.Open? && i <= |w.frames| && Holding(b, unsafe, events)
    ensures var a := ReadFrames(takes, d, unsafe, b, w, i, events);
            !a.buffer.emitted ==> AllSafe(a.events)
    decreases |w.frames| - i
  {
    if i < |w.frames| && w.frames[i].Message? {
      var event, size := w.frames[i].event, w.frames[i].size;
      EmitHolds(takes, b, unsafe, events, event);
      if S.Reserve(d, size).Go? && S.Add(S.Reserve(d, size).value, event.base).Go? && Emit(takes, b, event).ok
         && !S.Terminal(event.base.kind) {
        UnemittedIsSafe(takes, S.Add(S.Reserve(d, size).value, event.base).value, unsafe || !ReplaySafe(event),
                        Emit(takes, b, event).buffer, w, i + 1, events + [event]);
      }
    }
  }
}
