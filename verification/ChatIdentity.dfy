/** Under which identity the chunks go out: the latest that the responses named before the first chunk. */
module ChatIdentity {
  import opened Bytes
  import opened Chat
  import opened ChatPlaces
  import opened ChatProofs
  import opened ChatEvents

  /** The identities of the responses that the events carry, in order. */
  function NamedBy(events: seq<Event>): seq<Identity> {
    if events == [] then []
    else
      NamedBy(events[..|events| - 1])
      + match events[|events| - 1].response case None => [] case Some(r) => [r.identity]
  }

  /** The last that is not empty. */
  function LatestId(named: seq<Identity>, initial: string): string {
    if named == [] then initial
    else if |named[|named| - 1].id| > 0 then named[|named| - 1].id
    else LatestId(named[..|named| - 1], initial)
  }

  function LatestModel(named: seq<Identity>, initial: string): string {
    if named == [] then initial
    else if |named[|named| - 1].model| > 0 then named[|named| - 1].model
    else LatestModel(named[..|named| - 1], initial)
  }

  /** The last that is positive. */
  function LatestTime(named: seq<Identity>, initial: int): int {
    if named == [] then initial
    else if named[|named| - 1].created > 0 then named[|named| - 1].created
    else LatestTime(named[..|named| - 1], initial)
  }

  function LatestIdentity(events: seq<Event>, initial: Identity): Identity {
    var named := NamedBy(events);
    Identity(LatestId(named, initial.id), LatestModel(named, initial.model), LatestTime(named, initial.created))
  }

  lemma NamedByOneMore(events: seq<Event>, e: Event)
    ensures NamedBy(events + [e])
            == if e.response.Some? then NamedBy(events) + [e.response.value.identity] else NamedBy(events)
  {
    assert (events + [e])[..|events|] == events;
    assert NamedBy(events) + [] == NamedBy(events);
  }

  lemma LatestOfOneMore(named: seq<Identity>, last: Identity, initial: Identity)
    ensures LatestId(named + [last], initial.id) == if last.id != "" then last.id else LatestId(named, initial.id)
    ensures LatestModel(named + [last], initial.model)
            == if last.model != "" then last.model else LatestModel(named, initial.model)
    ensures LatestTime(named + [last], initial.created)
            == if last.created > 0 then last.created else LatestTime(named, initial.created)
  {
    var longer := named + [last];
    assert longer[..|named|] == named && longer[|named|] == last;
  }

  lemma LatestAfterOne(events: seq<Event>, e: Event, initial: Identity, s: State)
    requires !s.roleSent && s.identity == LatestIdentity(events, initial)
    ensures Identified(s, e.response).identity == LatestIdentity(events + [e], initial)
  {
    NamedByOneMore(events, e);
    if e.response.Some? {
      LatestOfOneMore(NamedBy(events), e.response.value.identity, initial);
    }
  }

  lemma EventIdentifies(x: Context, s: State, e: Event)
    requires !s.failed
    ensures OnEvent(x, s, e).state.identity == Identified(s, e.response).identity
  {
    KindStays(x, Identified(s, e.response), e);
  }

  /** Until something is sent, the identity follows the responses. */
  lemma {:induction false} IdentityFollows(x: Context, initial: Identity, events: seq<Event>)
    requires OnEvents(x, NewState(initial), events).ok && OnEvents(x, NewState(initial), events).state.output == []
    ensures OnEvents(x, NewState(initial), events).state.identity == LatestIdentity(events, initial)
    decreases |events|
  {
    if events != [] {
      var front, last := events[..|events| - 1], events[|events| - 1];
      assert events == front + [last];
      NewIsSynced(initial);
      EventsAppend(x, NewState(initial), front, last);
      EveryRunIsFaithful(x, NewState(initial), front);
      var s := OnEvents(x, NewState(initial), front).state;
      EventIsGood(x, s, last);
      OutputStays(x, s, last);
      IdentityFollows(x, initial, front);
      EventIdentifies(x, s, last);
      LatestAfterOne(front, last, initial, s);
    }
  }

  /** What was sent stays sent. */
  lemma OutputStays(x: Context, s: State, e: Event)
    requires Synced(s) && OnEvent(x, s, e).ok
    ensures OnEvent(x, s, e).state.output == [] ==> s.output == []
  {
    EventIsGood(x, s, e);
  }

  /** The first chunk goes out with the event before `k`. */
  predicate FirstSentBy(x: Context, initial: Identity, events: seq<Event>, k: int) {
    && 0 < k <= |events| && OnEvents(x, NewState(initial), events[..k - 1]).state.output == []
    && OnEvents(x, NewState(initial), events[..k]).state.output != []
  }

  /** The identity that the responses had named last when the first chunk went out. */
  predicate SentUnder(x: Context, initial: Identity, events: seq<Event>, k: int) {
    FirstSentBy(x, initial, events, k)
    && OneIdentity(OnEvents(x, NewState(initial), events).state.output, LatestIdentity(events[..k], initial))
  }

  lemma FirstSentNow(x: Context, initial: Identity, events: seq<Event>, front: seq<Event>, last: Event)
    requires events == front + [last] && OnEvents(x, NewState(initial), events).state.output != []
    requires OnEvents(x, NewState(initial), front).state.output == []
    ensures SentUnder(x, initial, events, |events|)
  {
    var before := OnEvents(x, NewState(initial), front);
    NewIsSynced(initial);
    EventsAppend(x, NewState(initial), front, last);
    EveryRunIsFaithful(x, NewState(initial), front);
    EveryRunIsFaithful(x, NewState(initial), events);
    IdentityFollows(x, initial, front);
    EventIdentifies(x, before.state, last);
    LatestAfterOne(front, last, initial, before.state);
    assert events[..|events|] == events && events[..|events| - 1] == front;
  }

  lemma FirstSentEarlier(x: Context, initial: Identity, events: seq<Event>, front: seq<Event>, last: Event, k: int)
    requires events == front + [last] && SentUnder(x, initial, front, k)
    requires OnEvents(x, NewState(initial), front).state.output != []
    ensures OnEvents(x, NewState(initial), events).state.output != [] ==> SentUnder(x, initial, events, k)
  {
    var before := OnEvents(x, NewState(initial), front);
    NewIsSynced(initial);
    EventsAppend(x, NewState(initial), front, last);
    EveryRunIsFaithful(x, NewState(initial), front);
    EveryRunIsFaithful(x, NewState(initial), events);
    assert front[..k] == events[..k] && front[..k - 1] == events[..k - 1];
    if before.ok && !before.state.failed {
      EventIdentifies(x, before.state, last);
    }
    assert before.state.output[0].identity == before.state.identity;
  }

  /** Over any run the chunks all bear the identity that the responses had named last when the first chunk went out. */
  lemma {:induction false} IdentityIsTold(x: Context, initial: Identity, events: seq<Event>)
    requires OnEvents(x, NewState(initial), events).state.output != []
    ensures exists k :: SentUnder(x, initial, events, k)
    decreases |events|
  {
    var front, last := events[..|events| - 1], events[|events| - 1];
    assert events == front + [last];
    if OnEvents(x, NewState(initial), front).state.output == [] {
      FirstSentNow(x, initial, events, front, last);
    } else {
      IdentityIsTold(x, initial, front);
      var k :| SentUnder(x, initial, front, k);
      FirstSentEarlier(x, initial, events, front, last, k);
    }
  }
}
