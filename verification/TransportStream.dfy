/** The streaming call as it runs: the replay buffer in place, and the loops that read an attempt. */
module TransportStream {
  import opened Bytes
  import S = Sse
  import opened Transport

  /** The caller's side of the stream, and what it was handed. */
  class Receiver {
    const takes: Callback
    var delivered: seq<Event>

    constructor (takes: Callback)
      ensures delivered == [] && this.takes == takes
    {
      this.takes := takes;
      delivered := [];
    }

    method OnEvent(event: Event) returns (ok: bool)
      modifies this
      ensures delivered == old(delivered) + [event] && ok == takes(delivered)
    {
      delivered := delivered + [event];
      ok := takes(delivered);
    }
  }

  /** Holds events back while the attempt could still be replayed. */
  class ReplayBuffer {
    const receiver: Receiver
    var pending: seq<Event>
    var emitted: bool

    function Value(): Buffer
      reads this, receiver
    {
      Buffer(pending, emitted, receiver.delivered)
    }

    constructor (receiver: Receiver)
      ensures this.receiver == receiver && pending == [] && !emitted
    {
      this.receiver := receiver;
      pending, emitted := [], false;
    }

    method EmitEvent(event: Event) returns (ok: bool)
      modifies this, receiver
      ensures Emitted(Value(), ok) == Emit(receiver.takes, old(Value()), event)
    {
      if !emitted && ReplaySafe(event) {
        pending := pending + [event];
        return true;
      }
      ghost var left := pending + [event];
      ghost var all := HandOver(receiver.takes, receiver.delivered, left);
      var i := 0;
      while i < |pending|
        invariant 0 <= i <= |pending| && left == pending[i..] + [event]
        invariant pending == old(pending)
        invariant all == HandOver(receiver.takes, receiver.delivered, left)
      {
        emitted := true;
        ok := receiver.OnEvent(pending[i]);
        if !ok {
          pending := [];
          return;
        }
        left := left[1..];
        i := i + 1;
      }
      assert left == [event];
      pending := [];
      emitted := true;
      ok := receiver.OnEvent(event);
      assert left[1..] == [];
    }

    method Discard()
      modifies this`pending
      ensures pending == []
    {
      pending := [];
    }
  }

  method ReadCodexWebSocketStream(w: WebSocket, buffer: ReplayBuffer)
    returns (error: Option<Failure>, reply: Option<nat>, fallback: bool, ghost events: seq<Event>)
    requires w.Open?
    modifies buffer, buffer.receiver
    ensures Attempt(buffer.Value(), error, reply, fallback, events)
            == ReadFrames(buffer.receiver.takes, S.NEW_DECODER, false, old(buffer.Value()), w, 0, [])
  {
    var decoder := S.NEW_DECODER;
    var replayUnsafe := false;
    events := [];
    ghost var all := ReadFrames(buffer.receiver.takes, decoder, false, buffer.Value(), w, 0, []);
    var i := 0;
    while i < |w.frames|
      invariant 0 <= i <= |w.frames|
      invariant all == ReadFrames(buffer.receiver.takes, decoder, replayUnsafe, buffer.Value(), w, i, events)
    {
      var frame := w.frames[i];
      match frame
      case BadFrame(e) =>
        return Some(Stream(e)), None, false, events;
      case ErrorReply(status, code, size) =>
        if S.Reserve(decoder, size).Stop? {
          return Some(Stream(S.Malformed)), None, false, events;
        }
        if status == UNAUTHORIZED && !replayUnsafe {
          return None, Some(status), false, events;
        }
        return Some(Upstream(status, code)), None, false, events;
      case Message(event, size) =>
        var reserved := S.Reserve(decoder, size);
        if reserved.Stop? {
          return Some(Stream(reserved.error)), None, false, events;
        }
        if !ReplaySafe(event) {
          replayUnsafe := true;
        }
        var added := S.Add(reserved.value, event.base);
        if added.Stop? {
          return Some(Stream(added.error)), None, false, events;
        }
        decoder := added.value;
        events := events + [event];
        var ok := buffer.EmitEvent(event);
        if !ok {
          return Some(Stream(S.CallbackFailed)), None, false, events;
        }
        if S.Terminal(event.base.kind) {
          return FinishWith(decoder), None, false, events;
        }
        i := i + 1;
    }
    return Some(w.end), None, !replayUnsafe && w.fallback, events;
  }

  method TryWebSocketAttempt(w: WebSocket, buffer: ReplayBuffer)
    returns (error: Option<Failure>, reply: Option<nat>, fallback: bool, ghost events: seq<Event>)
    modifies buffer, buffer.receiver
    ensures Attempt(buffer.Value(), error, reply, fallback, events)
            == TryWebSocket(buffer.receiver.takes, old(buffer.Value()), w)
  {
    match w
    case DialFailed(failure, retry) =>
      return Some(failure), None, retry, [];
    case Handshake(status, code, unsupported) =>
      if status == UNAUTHORIZED {
        return None, Some(status), false, [];
      }
      return Some(Upstream(status, code)), None, FallbackStatus(status) || unsupported, [];
    case Open(_, _, _) =>
      error, reply, fallback, events := ReadCodexWebSocketStream(w, buffer);
  }

  method TrySseAttempt(r: SseReply, receiver: Receiver)
    returns (error: Option<Failure>, reply: Option<nat>, ghost events: seq<Event>)
    modifies receiver
    ensures Attempt(Buffer([], true, receiver.delivered), error, reply, false, events)
            == TrySse(receiver.takes, old(receiver.delivered), r)
  {
    match r
    case Unauthorized =>
      return None, Some(UNAUTHORIZED), [];
    case SseFailed(failure) =>
      return Some(failure), None, [];
    case Body(items, broken) =>
      var decoder := S.NEW_DECODER;
      events := [];
      ghost var all := ReadItems(receiver.takes, decoder, receiver.delivered, r, 0, []);
      var i := 0;
      while i < |items|
        invariant 0 <= i <= |items|
        invariant all == ReadItems(receiver.takes, decoder, receiver.delivered, r, i, events)
      {
        match items[i] {
          case BadItem(e) =>
            return Some(Stream(e)), None, events;
          case DoneItem =>
            if decoder.done {
              return Some(Stream(S.DuplicateTerminal)), None, events;
            }
            if decoder.terminal.None? {
              return Some(Stream(S.Malformed)), None, events;
            }
            decoder := decoder.(done := true);
          case Payload(event, size) =>
            if decoder.done {
              return Some(Stream(S.DuplicateTerminal)), None, events;
            }
            var reserved := S.Reserve(decoder, size);
            if reserved.Stop? {
              return Some(Stream(reserved.error)), None, events;
            }
            var added := S.Add(reserved.value, event.base);
            if added.Stop? {
              return Some(Stream(added.error)), None, events;
            }
            decoder := added.value;
            events := events + [event];
            var ok := receiver.OnEvent(event);
            if !ok {
              return Some(Stream(S.CallbackFailed)), None, events;
            }
        }
        i := i + 1;
      }
      if broken {
        return Some(Stream(S.ReadFailed)), None, events;
      }
      return FinishWith(decoder), None, events;
  }

  method StreamOnce(s: Script, receiver: Receiver)
    returns (error: Option<Failure>, reply: Option<nat>, ghost attempts: seq<seq<Event>>)
    requires receiver.delivered == []
    modifies receiver
    ensures Sent(receiver.delivered, error, reply, attempts) == StreamAttempt(receiver.takes, s)
  {
    if s.sseOnly {
      ghost var events;
      error, reply, events := TrySseAttempt(s.sse, receiver);
      attempts := [] + [events];
      return;
    }
    var buffer := new ReplayBuffer(receiver);
    assert buffer.Value() == EMPTY;
    var fallback;
    ghost var first;
    error, reply, fallback, first := TryWebSocketAttempt(s.first, buffer);
    attempts := [first];
    if error.Some? && !buffer.emitted && LimitReached(error.value) {
      buffer.Discard();
      ghost var second;
      error, reply, fallback, second := TryWebSocketAttempt(s.second, buffer);
      attempts := [first, second];
    }
    if error.None? {
      return;
    }
    reply := None;
    if s.cancelled {
      error := Some(Local(0));
      return;
    }
    if !fallback || buffer.emitted {
      return;
    }
    buffer.Discard();
    ghost var events;
    error, reply, events := TrySseAttempt(s.sse, receiver);
    attempts := attempts + [events];
  }

  /** Two sends at most; the second only after a 401 that nothing was handed over before. */
  method StreamWithHeaders(c: Call, receiver: Receiver) returns (ok: bool, ghost attempts: seq<seq<Event>>)
    requires receiver.delivered == []
    modifies receiver
    ensures Result(receiver.delivered, ok, attempts) == StreamCall(receiver.takes, c)
    ensures FromLast(receiver.delivered, attempts) && (ok ==> WholeLast(receiver.delivered, attempts))
  {
    DeliveryIsSingleAttempt(receiver.takes, c);
    if c.first.None? {
      return false, [];
    }
    SendIsSingle(receiver.takes, c.first.value);
    var error, reply;
    error, reply, attempts := StreamOnce(c.first.value, receiver);
    if reply.None? {
      return error.None?, attempts;
    }
    if c.replay.None? {
      return false, attempts;
    }
    ghost var more;
    error, reply, more := StreamOnce(c.replay.value, receiver);
    assert [] + receiver.delivered == receiver.delivered;
    attempts := attempts + more;
    ok := reply.None? && error.None?;
  }
}
