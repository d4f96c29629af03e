/** Which attempts a call opens, and what the caller has in the end, told on the attempts' events. */
module TransportRoutes {
  import opened Bytes
  import S = Sse
  import opened Transport
  import opened TransportAttempts

  // ----- One send -----

  /** The attempt ran into the limit of connections. */
  predicate AtLimit(a: Attempt) {
    match a.error
    case Some(Upstream(_, code)) => code == "websocket_connection_limit_reached"
    case Some(Stream(StreamFailed(_, _, code))) => code == "websocket_connection_limit_reached"
    case _ => false
  }

  /** A WebSocket attempt is made again when it ran into the limit after nothing but status events. SSE follows when
      the last of them failed in a way that allows it and the caller has not given up. */
  predicate Routed(s: Script, r: Sent, one: Attempt, two: Attempt, sse: Attempt) {
    if s.sseOnly then r == Sent(sse.buffer.delivered, sse.error, sse.reply, [sse.events])
    else
      var again := AtLimit(one) && AllStatus(one.events);
      var last, sent := if again then two else one, if again then [one.events, two.events] else [one.events];
      if last.error == None then r == Sent(last.buffer.delivered, None, last.reply, sent)
      else if s.cancelled then r == Sent(last.buffer.delivered, Some(Local(0)), None, sent)
      else if last.fallback then r == Sent(sse.buffer.delivered, sse.error, sse.reply, sent + [sse.events])
      else r == Sent(last.buffer.delivered, last.error, None, sent)
  }

  /** The send goes as its attempts end. */
  ghost predicate SendEnds(takes: Callback, s: Script, r: Sent) {
    exists one, two, sse ::
      SocketEnds(takes, s.first, one) && SocketEnds(takes, s.second, two) && SseEnds(takes, s.sse, sse)
      && Routed(s, r, one, two, sse)
  }

  lemma LimitIsTold(takes: Callback, w: WebSocket, a: Attempt)
    requires SocketEnds(takes, w, a)
    ensures a.error.Some? && !a.buffer.emitted && LimitReached(a.error.value) <==> AtLimit(a) && AllStatus(a.events)
    ensures !a.buffer.emitted ==> a.buffer.delivered == [] && AllStatus(a.events)
    ensures a.fallback ==> !a.buffer.emitted && a.error.Some?
    ensures a.error == None ==> a.reply.Some? || a.buffer.delivered == a.events
  {
    if w.Open? && Closed(FrameParts(w.frames[..|a.events|])) {
      assert !OnlyStatus(a.events[|a.events| - 1]);
    }
  }

  lemma SendIsTold(takes: Callback, s: Script)
    ensures SendEnds(takes, s, StreamAttempt(takes, s))
  {
    var one, two := TryWebSocket(takes, EMPTY, s.first), TryWebSocket(takes, EMPTY, s.second);
    SocketIsTold(takes, s.first);
    SocketIsTold(takes, s.second);
    SseIsTold(takes, s.sse);
    LimitIsTold(takes, s.first, one);
    LimitIsTold(takes, s.second, two);
    WebSocketIsOneAttempt(takes, s.first);
    assert Routed(s, StreamAttempt(takes, s), one, two, TrySse(takes, [], s.sse));
  }

  // ----- One call -----

  /** What the call makes of its first send: it is the call's, unless it was answered with a 401. */
  ghost predicate Answers(takes: Callback, c: Call, one: Sent, r: Result) {
    if one.reply == None then r == Result(one.delivered, one.error == None, one.attempts)
    else match c.replay
      case None => r == Result([], false, one.attempts)
      case Some(s) =>
        exists two :: SendEnds(takes, s, two)
                      && r == Result(two.delivered, two.error == None && two.reply == None, one.attempts + two.attempts)
  }

  /** A call is sent again exactly when the first send was answered with a 401 and another credential can be had. */
  lemma CallIsTold(takes: Callback, c: Call)
    ensures var r := StreamCall(takes, c);
            if c.first == None then r == Result([], false, [])
            else exists one :: SendEnds(takes, c.first.value, one) && Answers(takes, c, one, r)
  {
    if c.first.Some? {
      SendIsTold(takes, c.first.value);
      var one := StreamAttempt(takes, c.first.value);
      FirstSendAnswers(takes, c, one);
      assert SendEnds(takes, c.first.value, one);
    }
  }

  lemma FirstSendAnswers(takes: Callback, c: Call, one: Sent)
    requires c.first.Some? && one == StreamAttempt(takes, c.first.value)
    ensures Answers(takes, c, one, StreamCall(takes, c))
  {
    SendIsSingle(takes, c.first.value);
    if one.reply.Some? && c.replay.Some? {
      var two := StreamAttempt(takes, c.replay.value);
      SendIsTold(takes, c.replay.value);
      assert one.delivered + two.delivered == two.delivered;
    }
  }

  // ----- What is given up, and what is kept -----

  lemma SafeIsAllStatus(events: seq<Event>)
    ensures AllSafe(events) <==> AllStatus(events)
  {
    forall i | 0 <= i < |events|
      ensures ReplaySafe(events[i]) <==> OnlyStatus(events[i])
    {
      SafeIsStatus(events[i]);
    }
  }

  /** Every attempt but the last had nothing but status events. */
  lemma GivenUpSaidNothing(takes: Callback, c: Call, i: nat)
    requires i + 1 < |StreamCall(takes, c).attempts|
    ensures AllStatus(StreamCall(takes, c).attempts[i])
  {
    GivenUpAttemptsWereSafe(takes, c, i);
    SafeIsAllStatus(StreamCall(takes, c).attempts[i]);
  }

  /** The events went to the caller, or were nothing but status and were kept back. */
  ghost predicate Kept(takes: Callback, attempts: seq<seq<Event>>, delivered: seq<Event>) {
    attempts != []
    && (HandedInOrder(takes, attempts[|attempts| - 1], delivered)
        || (AllStatus(attempts[|attempts| - 1]) && delivered == []))
  }

  lemma SendKeeps(takes: Callback, s: Script)
    ensures var r := StreamAttempt(takes, s); Kept(takes, r.attempts, r.delivered)
  {
    var one, two := TryWebSocket(takes, EMPTY, s.first), TryWebSocket(takes, EMPTY, s.second);
    SocketIsTold(takes, s.first);
    SocketIsTold(takes, s.second);
    SseIsTold(takes, s.sse);
    LimitIsTold(takes, s.first, one);
    LimitIsTold(takes, s.second, two);
  }

  /** Once an attempt has had an event that tells something, it is the last, and everything it decoded was handed over
      in order, up to the first event that the caller refused. */
  lemma TellingAttemptIsLast(takes: Callback, c: Call, i: nat)
    requires i < |StreamCall(takes, c).attempts| && !AllStatus(StreamCall(takes, c).attempts[i])
    ensures i == |StreamCall(takes, c).attempts| - 1
    ensures HandedInOrder(takes, StreamCall(takes, c).attempts[i], StreamCall(takes, c).delivered)
  {
    if i + 1 < |StreamCall(takes, c).attempts| {
      GivenUpSaidNothing(takes, c, i);
    } else {
      SendKeeps(takes, c.first.value);
      SendIsSingle(takes, c.first.value);
      var one := StreamAttempt(takes, c.first.value);
      if one.reply.Some? && c.replay.Some? {
        SendKeeps(takes, c.replay.value);
        var two := StreamAttempt(takes, c.replay.value);
        assert one.delivered + two.delivered == two.delivered;
        assert (one.attempts + two.attempts)[i] == two.attempts[|two.attempts| - 1];
      }
    }
  }
}
