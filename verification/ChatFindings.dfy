/** Calls of the terminal response that do not reach the client as they are, although the stream finishes. */
module ChatFindings {
  import opened Bytes
  import opened Chat
  import opened ChatPlaces
  import opened ChatProofs
  import opened ChatCalls

  /** Every write is accepted, and the arguments are valid. */
  ghost predicate Accepts(x: Context, arguments: Bytes) {
    && (forall output, chunk :: x.writes(output, chunk)) && x.validText([])
    && CompleteJson(x, arguments) && |arguments| <= MAX_ARGUMENT_BYTES
  }

  function CallItem(call: Call): Item {
    FunctionCall("", call.id, call.name, call.arguments)
  }

  /** An item event that announces a call without its arguments. */
  function Announcement(id: string, name: string): Event {
    Event(OutputItem(Some(CallItem(Call(id, name, [])))), None, false)
  }

  function Ending(identity: Identity, items: seq<Item>): Event {
    Event(Terminal(false), Some(Response(identity, false, items, [], None, true)), false)
  }

  function Announced(identity: Identity, id: string, name: string): State {
    State(identity, true, false, [], [Tool(id, name, [], 0, true, false)], map[id := 0], false,
          [Chunk(identity, Role), Chunk(identity, ToolMeta(0, id, name))])
  }

  /** The announced tool with its arguments. */
  function Answering(identity: Identity, id: string, name: string, arguments: Bytes): State {
    var s := Announced(identity, id, name);
    s.(tools := [Tool(id, name, arguments, |arguments|, true, true)],
       output := s.output + [Chunk(identity, ToolArgs(0, arguments))])
  }

  lemma AnnouncementIsTaken(x: Context, identity: Identity, id: string, name: string, arguments: Bytes)
    requires Accepts(x, arguments) && id != "" && ValidName(name)
    ensures OnEvent(x, NewState(identity), Announcement(id, name)) == Outcome(Announced(identity, id, name), true)
  {
    var role := WriteRole(x, NewState(identity)).state;
    var f := FindTool(role, "", id, name);
    assert f.state.tools == [Tool(id, name, [], 0, false, false)];
    assert f.state.aliases == map[id := 0];
    var w := WriteMetadata(x, f.state, 0);
    assert w.state.output == [Chunk(identity, Role), Chunk(identity, ToolMeta(0, id, name))];
    assert w.state.tools == [Tool(id, name, [], 0, true, false)];
    assert w == Outcome(Announced(identity, id, name), true);
  }

  /** A call that picks the announced tool sends its arguments and nothing else. */
  lemma AnnouncedIsAnswered(x: Context, identity: Identity, id: string, name: string, call: Call)
    requires Accepts(x, call.arguments) && (call.id == id != "" || (call.name == name != "" && call.id != id))
    ensures ReconcileCall(x, Announced(identity, id, name), call)
            == Outcome(Answering(identity, id, name, call.arguments), true)
  {
    var s := Announced(identity, id, name);
    if call.id != id {
      assert ById(s.tools, call.id, 0).None?;
    }
    assert OutputTool(s, call.id, call.name) == Found(s, 0);
    assert call.arguments[0..] == call.arguments;
    var grown := SetTool(s, 0, s.tools[0].(arguments := call.arguments));
    var sent := WriteSuffix(x, grown, 0);
    assert sent.state.tools == [Tool(id, name, call.arguments, |call.arguments|, true, false)];
    assert Settle(x, grown, 0, true).state.tools == [Tool(id, name, call.arguments, |call.arguments|, true, true)];
  }

  /** The same arguments again for the identifier of the announced tool change nothing. */
  lemma AnsweredTwice(x: Context, identity: Identity, id: string, name: string, call: Call)
    requires call.id == id != ""
    ensures var s := Answering(identity, id, name, call.arguments); ReconcileCall(x, s, call) == Outcome(s, true)
  {
    var s := Answering(identity, id, name, call.arguments);
    assert OutputTool(s, call.id, call.name) == Found(s, 0);
  }

  lemma AnsweringFinishes(x: Context, identity: Identity, id: string, name: string, arguments: Bytes, r: Response)
    requires Accepts(x, arguments) && id != "" && name != ""
    ensures var s := Answering(identity, id, name, arguments);
            && FinishStream(x, s, r).ok && FinishStream(x, s, r).state.tools == s.tools
            && !FinishStream(x, s, r).state.failed
            && FinishStream(x, s, r).state.output == s.output + [Chunk(identity, Finish(FinishReason(r, 1)))]
  {
    var s := Answering(identity, id, name, arguments);
    assert WriteMetadata(x, s, 0) == Outcome(s, true);
    assert FinishTools(x, s, 1) == Outcome(s, true);
  }

  lemma OneCallOutput(x: Context, identity: Identity, call: Call)
    requires Accepts(x, call.arguments) && call.id != "" && ValidName(call.name)
    ensures ResponseOutput(x, Ending(identity, [CallItem(call)]).response.value) == Output([], [call])
  {
    var items := [CallItem(call)];
    assert CallOf(x, items[0]) == Some(call);
    assert ItemsOutput(x, items[1..], [], [] + [call]) == Output([], [call]);
  }

  lemma TwoCallsOutput(x: Context, identity: Identity, first: Call, second: Call)
    requires Accepts(x, first.arguments) && first.id != "" && ValidName(first.name)
    requires Accepts(x, second.arguments) && second.id != "" && ValidName(second.name)
    ensures ResponseOutput(x, Ending(identity, [CallItem(first), CallItem(second)]).response.value)
            == Output([], [first, second])
  {
    var items, rest := [CallItem(first), CallItem(second)], [CallItem(second)];
    assert CallOf(x, items[0]) == Some(first) && CallOf(x, rest[0]) == Some(second);
    assert items[1..] == rest && rest[1..] == [];
    assert [] + [first] == [first] && [first] + [second] == [first, second];
    assert ItemsOutput(x, rest, [], [first]) == ItemsOutput(x, [], [], [first, second]);
    assert ItemsOutput(x, items, [], []) == ItemsOutput(x, rest, [], [first]);
  }

  lemma TerminalTaken(x: Context, s: State, r: Response, calls: seq<Call>, m: State, n: State)
    requires s.roleSent && s.text == [] && r.usageOk && ResponseOutput(x, r) == Output([], calls)
    requires ReconcileCalls(x, s, calls) == Outcome(m, true) && FinishStream(x, m, r) == Outcome(n, true)
    ensures OnTerminal(x, s, Some(r)) == Outcome(n, true)
  {
    assert ReconcileText(x, s, []) == Outcome(s, true);
    assert ReconcileResponse(x, s, r) == Outcome(m, true);
  }

  lemma TerminalEventTaken(x: Context, s: State, e: Event, n: State)
    requires e.kind.Terminal? && !ReportsFailure(e) && s.roleSent && !s.failed
             && OnTerminal(x, s, e.response) == Outcome(n, true)
    ensures OnEvent(x, s, e) == Outcome(n, true)
  {
  }

  /** After an announcement, the ending is taken if its calls leave the announced tool answered. */
  lemma EndingIsTaken(x: Context, identity: Identity, id: string, name: string, arguments: Bytes, items: seq<Item>,
                      calls: seq<Call>)
    requires Accepts(x, arguments) && id != "" && ValidName(name)
    requires ResponseOutput(x, Ending(identity, items).response.value) == Output([], calls)
    requires ReconcileCalls(x, Announced(identity, id, name), calls)
             == Outcome(Answering(identity, id, name, arguments), true)
    ensures var events, e := [Announcement(id, name)], Ending(identity, items);
            && OnEvents(x, NewState(identity), events) == Outcome(Announced(identity, id, name), true)
            && Finished(x, identity, events, e)
            && OnEvents(x, NewState(identity), events + [e]).state.tools
               == [Tool(id, name, arguments, |arguments|, true, true)]
  {
    var s, e, r := Announced(identity, id, name), Ending(identity, items), Ending(identity, items).response.value;
    AnnouncementIsTaken(x, identity, id, name, arguments);
    AnsweringFinishes(x, identity, id, name, arguments, r);
    var m := Answering(identity, id, name, arguments);
    var n := FinishStream(x, m, r).state;
    TerminalTaken(x, s, r, calls, m, n);
    TerminalEventTaken(x, s, e, n);
    TwoEvents(x, NewState(identity), Announcement(id, name), s, e, n);
  }

  lemma TwoEvents(x: Context, s: State, first: Event, m: State, second: Event, n: State)
    requires OnEvent(x, s, first) == Outcome(m, true) && OnEvent(x, m, second) == Outcome(n, true)
    ensures OnEvents(x, s, [first]) == Outcome(m, true) && OnEvents(x, s, [first] + [second]) == Outcome(n, true)
  {
    assert [first][1..] == [];
    assert OnEvents(x, m, []) == Outcome(m, true);
    EventsAppend(x, s, [first], second);
  }

  /** Two calls of one name and the same arguments, where the second is the announced one: the first takes
      its tool by name, the second finds it answered, and the client gets one call instead of two. */
  lemma CallIsLost(x: Context, identity: Identity, id: string, other: string, name: string, arguments: Bytes)
    requires Accepts(x, arguments) && ValidName(name) && id != "" && other != "" && other != id
    ensures var first, second := Call(other, name, arguments), Call(id, name, arguments);
            var events, e := [Announcement(id, name)], Ending(identity, [CallItem(first), CallItem(second)]);
            var before := OnEvents(x, NewState(identity), events).state;
            var s := OnEvents(x, NewState(identity), events + [e]).state;
            && Finished(x, identity, events, e) && CallsOf(x, e.response.value) == [first, second]
            && PlacesOf(x, before, e.response.value) == [0, 0] && |s.tools| == 1
            && !Separate(before.tools, before.aliases, BLANK, [first, second])
  {
    var first, second := Call(other, name, arguments), Call(id, name, arguments);
    var s, answering := Announced(identity, id, name), Answering(identity, id, name, arguments);
    TwoCallsOutput(x, identity, first, second);
    AnnouncedIsAnswered(x, identity, id, name, first);
    AnsweredTwice(x, identity, id, name, second);
    var calls := [first, second];
    assert calls[1..] == [second] && [second][1..] == [];
    assert ReconcileCalls(x, answering, [second]) == Outcome(answering, true);
    EndingIsTaken(x, identity, id, name, arguments, [CallItem(first), CallItem(second)], calls);
    SecondFindsFirst(s, first, second);
  }

  lemma SecondFindsFirst(s: State, first: Call, second: Call)
    requires |s.tools| == 1 && s.tools[0].id == second.id != "" && s.tools[0].name == first.name && !s.tools[0].final
    requires first.id != second.id
    ensures Places(s.tools, s.aliases, BLANK, [first, second]) == [0, 0]
    ensures !Separate(s.tools, s.aliases, BLANK, [first, second])
  {
    var calls := [first, second];
    assert calls[1..] == [second] && [second][1..] == [];
    assert ById(s.tools, first.id, 0).None? && FirstFree(s.tools, {}, first.name, 0) == Some(0);
    var c := Booked(s.tools, s.aliases, BLANK, first);
    assert c.given == {0};
    assert ById(s.tools, second.id, 0) == Some(0);
    assert Places(s.tools, s.aliases, c, [second]) == [0];
  }

  /** A call whose identifier was announced under another name: the client was told the announced name. */
  lemma CallIsMisnamed(x: Context, identity: Identity, id: string, name: string, call: Call)
    requires Accepts(x, call.arguments) && ValidName(name) && ValidName(call.name) && call.id == id != ""
             && call.name != name
    ensures var events, e := [Announcement(id, name)], Ending(identity, [CallItem(call)]);
            var s := OnEvents(x, NewState(identity), events + [e]).state;
            && Finished(x, identity, events, e) && CallsOf(x, e.response.value) == [call]
            && s.tools == [Tool(id, name, call.arguments, |call.arguments|, true, true)]
            && ToolDeltas(s.output, 0) != [] && ToolDeltas(s.output, 0)[0] == ToolMeta(0, id, name)
  {
    var s := Announced(identity, id, name);
    OneCallOutput(x, identity, call);
    AnnouncedIsAnswered(x, identity, id, name, call);
    assert [call][1..] == [];
    assert ReconcileCalls(x, s, [call]) == Outcome(Answering(identity, id, name, call.arguments), true);
    EndingIsTaken(x, identity, id, name, call.arguments, [CallItem(call)], [call]);
    var events, e := [Announcement(id, name)], Ending(identity, [CallItem(call)]);
    FinishedStreamTells(x, identity, events, e);
    OwnCallIsSeparate(s, call);
    DeltasOfAnnouncement(identity, id, name);
  }

  lemma OwnCallIsSeparate(s: State, call: Call)
    requires |s.tools| == 1 && s.tools[0].id == call.id != ""
    ensures Separate(s.tools, s.aliases, BLANK, [call]) && Places(s.tools, s.aliases, BLANK, [call]) == [0]
  {
    assert [call][1..] == [];
    assert ById(s.tools, call.id, 0) == Some(0);
  }

  lemma DeltasOfAnnouncement(identity: Identity, id: string, name: string)
    ensures ToolDeltas(Announced(identity, id, name).output, 0) == [ToolMeta(0, id, name)]
  {
    var role, meta := Chunk(identity, Role), Chunk(identity, ToolMeta(0, id, name));
    DeltasAppend([role], meta, 0);
    DeltasAppend([], role, 0);
    assert [role] + [meta] == [role, meta] && [] + [role] == [role];
  }
}
