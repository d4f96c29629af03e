/** When the terminal event is taken: the exact condition, told from the response and from the tools before it. */
module ChatEndings {
  import opened Bytes
  import opened Chat
  import opened ChatPlaces
  import opened ChatProofs
  import opened ChatCalls
  import opened ChatResponses
  import opened ChatEvents
  import opened ChatTools

  // ----- The calls of the response -----

  /** The book of the calls so far, the arguments that they gave to their tools, and the tools that they named. */
  datatype Log = Log(book: Book, said: map<nat, Bytes>, named: set<nat>)

  const NO_CALLS := Log(BLANK, map[], {})

  function Logged(tools: seq<Tool>, aliases: map<string, nat>, l: Log, call: Call): Log {
    var i := Place(tools, aliases, l.book, call);
    Log(Booked(tools, aliases, l.book, call), l.said[i := call.arguments],
        if i < |tools| && tools[i].id != call.id then l.named + {i} else l.named)
  }

  function LogOf(tools: seq<Tool>, aliases: map<string, nat>, l: Log, calls: seq<Call>): Log
    decreases |calls|
  {
    if calls == [] then l else LogOf(tools, aliases, Logged(tools, aliases, l, calls[0]), calls[1..])
  }

  /** A call whose tool was given to an earlier call must repeat its arguments; on another tool from before it must fit,
      and a name that the tool has by itself must be plain; a new tool takes every call. */
  predicate CallFits(x: Context, tools: seq<Tool>, said: map<nat, Bytes>, call: Call, i: nat) {
    if i in said then call.arguments == said[i]
    else i < |tools| ==>
      FitsOn(x, tools[i], call.arguments, true) && (tools[i].id == call.id ==> Describable(tools[i]))
  }

  predicate CallsFit(x: Context, tools: seq<Tool>, aliases: map<string, nat>, l: Log, calls: seq<Call>)
    decreases |calls|
  {
    calls == [] || (CallFits(x, tools, l.said, calls[0], Place(tools, aliases, l.book, calls[0]))
                    && CallsFit(x, tools, aliases, Logged(tools, aliases, l, calls[0]), calls[1..]))
  }

  /** What is known of the tools given to calls. */
  predicate GivenTool(tools: seq<Tool>, l: Log, s: State, i: nat)
    requires i < |s.tools| && i in l.said
  {
    && s.tools[i].final && s.tools[i].arguments == l.said[i]
    && Described(s.tools[i]) == s.tools[i]
    && (i < |tools| ==> (s.tools[i].name != "" <==> tools[i].name != "" || i in l.named))
    && (i >= |tools| ==> s.tools[i].name != "")
  }

  /** The state after the calls in the log. */
  ghost predicate Follows(tools: seq<Tool>, aliases: map<string, nat>, l: Log, s: State) {
    && Tracks(tools, aliases, l.book, s) && l.said.Keys == l.book.given && l.named <= l.book.given
    && forall i :: i in l.said ==> GivenTool(tools, l, s, i)
  }

  /** A call that the response may hold. */
  predicate Sayable(x: Context, call: Call) {
    call.id != "" && PlainName(call.name) && 1 <= |call.arguments| <= 1024 * 1024 && x.validJson(call.arguments)
  }

  lemma NothingFollows(s: State)
    requires AliasesHold(s.tools, s.aliases)
    ensures Follows(s.tools, s.aliases, NO_CALLS, s)
  {
    BlankTracks(s);
  }

  // ----- One call -----

  /** The tool that is picked, before its arguments: which it was, and its name and state. */
  lemma PickIsKnown(x: Context, tools: seq<Tool>, aliases: map<string, nat>, l: Log, s: State, call: Call, i: nat,
                    t: Tool)
    requires Follows(tools, aliases, l, s) && Sayable(x, call) && i == Place(tools, aliases, l.book, call)
    requires OutputTool(s, call.id, call.name).index == i && t == OutputTool(s, call.id, call.name).state.tools[i]
    ensures if i in l.said then
              && i < |s.tools| && t.final && t.arguments == l.said[i] && Describable(t)
              && (t.name != "" <==> s.tools[i].name != "" || t.id != call.id)
            else if i < |tools| then
              && i < |s.tools| && s.tools[i] == tools[i]
              && (t == tools[i] || (t == tools[i].(name := call.name) && t.id != call.id))
              && (t.id != call.id ==> t.name == call.name)
            else t == Tool(call.id, call.name, [], 0, false, false)
  {
    TrackedAliasesHold(tools, aliases, l.book, s);
    PickLabels(s, call);
    UngivenIfUnsaid(tools, aliases, l, s, i);
    if i in l.said {
      assert GivenTool(tools, l, s, i);
    }
  }

  lemma UngivenIfUnsaid(tools: seq<Tool>, aliases: map<string, nat>, l: Log, s: State, i: nat)
    requires Follows(tools, aliases, l, s)
    ensures i !in l.said ==> if i < |tools| then i < |s.tools| && s.tools[i] == tools[i] else i >= |s.tools|
    ensures i in l.said ==> i < |s.tools|
  {
    if i !in l.said {
      UngivenTool(tools, aliases, l.book, s, i);
    }
  }

  /** Describing a tool and giving it final arguments. */
  lemma PickedIsTaken(x: Context, m: State, i: nat, t: Tool, arguments: Bytes, d: Outcome, w: Outcome)
    requires Writable(x) && i < |m.tools| && t == m.tools[i] && SentWhole(t) && d == WriteMetadata(x, m, i)
    requires w == if d.ok then AddArguments(x, d.state, i, arguments, true) else d
    ensures w.ok <==> Describable(t) && FitsOn(x, t, arguments, true)
    ensures w.ok ==> w.state.tools == m.tools[i := WithArguments(Described(t), arguments, true)]
  {
    MetadataIsTold(x, m, i);
    if d.ok {
      AddIsTold(x, d.state, i, arguments, true);
      assert FitsOn(x, Described(t), arguments, true) <==> FitsOn(x, t, arguments, true);
    }
  }

  lemma PickedIsWhole(s: State, call: Call)
    requires Synced(s)
    ensures var f := OutputTool(s, call.id, call.name); SentWhole(f.state.tools[f.index])
  {
    OutputToolIsSilent(s, call.id, call.name);
    var f := OutputTool(s, call.id, call.name);
    assert ToolLoose(f.state, f.index);
  }

  lemma FitsByCase(x: Context, tools: seq<Tool>, said: map<nat, Bytes>, call: Call, i: nat, t: Tool)
    requires Sayable(x, call)
    requires if i in said then t.final && t.arguments == said[i] && Describable(t)
             else if i < |tools| then
               && (t == tools[i] || (t == tools[i].(name := call.name) && t.id != call.id))
               && (t.id != call.id ==> t.name == call.name)
             else t == Tool(call.id, call.name, [], 0, false, false)
    ensures CallFits(x, tools, said, call, i) <==> Describable(t) && FitsOn(x, t, call.arguments, true)
  {
  }

  lemma FitsAsPicked(x: Context, tools: seq<Tool>, aliases: map<string, nat>, l: Log, s: State, call: Call, i: nat,
                     t: Tool)
    requires Follows(tools, aliases, l, s) && Sayable(x, call) && i == Place(tools, aliases, l.book, call)
    requires OutputTool(s, call.id, call.name).index == i && t == OutputTool(s, call.id, call.name).state.tools[i]
    ensures CallFits(x, tools, l.said, call, i) <==> Describable(t) && FitsOn(x, t, call.arguments, true)
  {
    PickIsKnown(x, tools, aliases, l, s, call, i, t);
    FitsByCase(x, tools, l.said, call, i, t);
  }

  /** Reconciling one call succeeds exactly when it fits, and the log goes on. */
  lemma OneCallIsTaken(x: Context, tools: seq<Tool>, aliases: map<string, nat>, l: Log, s: State, call: Call)
    requires Writable(x) && Synced(s) && s.roleSent && Follows(tools, aliases, l, s) && Sayable(x, call)
    ensures ReconcileCall(x, s, call).ok <==> CallFits(x, tools, l.said, call, Place(tools, aliases, l.book, call))
    ensures ReconcileCall(x, s, call).ok ==>
              var n := ReconcileCall(x, s, call).state;
              Synced(n) && n.roleSent && Follows(tools, aliases, Logged(tools, aliases, l, call), n)
  {
    var i, f := Place(tools, aliases, l.book, call), OutputTool(s, call.id, call.name);
    PickIsPlace(tools, aliases, l.book, s, call);
    var t := f.state.tools[i];
    FitsAsPicked(x, tools, aliases, l, s, call, i, t);
    PickedIsWhole(s, call);
    var w := ReconcileCall(x, s, call);
    PickedIsTaken(x, f.state, i, t, call.arguments, WriteMetadata(x, f.state, i), w);
    if w.ok {
      CallIsGood(x, s, call);
      OthersStay(x, tools, aliases, l, s, call, i, w.state);
      TracksAfter(x, tools, aliases, l.book, s, call, w.state);
      CallIsNewlyGiven(x, tools, aliases, l, s, call, i, t, w.state);
      GivenOf(tools, aliases, l, s);
      LogGrows(tools, aliases, l, s, call, i, w.state);
    }
  }

  lemma OthersStay(x: Context, tools: seq<Tool>, aliases: map<string, nat>, l: Log, s: State, call: Call, i: nat,
                   n: State)
    requires Follows(tools, aliases, l, s) && Sayable(x, call) && OutputTool(s, call.id, call.name).index == i
    requires ReconcileCall(x, s, call) == Outcome(n, true)
    ensures |s.tools| <= |n.tools| && i < |n.tools| && (i >= |s.tools| ==> i == |s.tools|)
    ensures forall j :: 0 <= j < |s.tools| && j != i ==> n.tools[j] == s.tools[j]
    ensures i < |s.tools| ==> OutputTool(s, call.id, call.name).state.tools[i].id == s.tools[i].id
  {
    CallFinishes(x, s, call);
    TrackedAliasesHold(tools, aliases, l.book, s);
    PickCases(s, call);
  }

  /** A tool that was given to an earlier call stays so. */
  lemma StaysGiven(tools: seq<Tool>, aliases: map<string, nat>, l: Log, s: State, call: Call, i: nat, n: State, j: nat)
    requires i == Place(tools, aliases, l.book, call) && j in l.said && j != i && j < |s.tools|
    requires j < |n.tools| && n.tools[j] == s.tools[j] && GivenTool(tools, l, s, j)
    ensures GivenTool(tools, Logged(tools, aliases, l, call), n, j)
  {
  }

  lemma IdOfOld(tools: seq<Tool>, aliases: map<string, nat>, l: Log, s: State, i: nat)
    requires Follows(tools, aliases, l, s) && i < |tools|
    ensures i < |s.tools| && s.tools[i].id == tools[i].id
  {
    assert OldTool(tools[i], s.tools[i], i in l.book.given);
  }

  lemma AllGiven(tools: seq<Tool>, aliases: map<string, nat>, l: Log, s: State, call: Call, i: nat, n: State)
    requires i == Place(tools, aliases, l.book, call) && i < |n.tools| && |s.tools| <= |n.tools|
    requires GivenTool(tools, Logged(tools, aliases, l, call), n, i)
    requires forall j :: j in l.said ==> j < |s.tools| && GivenTool(tools, l, s, j)
    requires forall j :: 0 <= j < |s.tools| && j != i ==> n.tools[j] == s.tools[j]
    ensures var m := Logged(tools, aliases, l, call);
            forall j :: j in m.said ==> j < |n.tools| && GivenTool(tools, m, n, j)
  {
    var m := Logged(tools, aliases, l, call);
    forall j | j in m.said
      ensures j < |n.tools| && GivenTool(tools, m, n, j)
    {
      if j != i {
        StaysGiven(tools, aliases, l, s, call, i, n, j);
      }
    }
  }

  lemma CallIsNewlyGiven(x: Context, tools: seq<Tool>, aliases: map<string, nat>, l: Log, s: State, call: Call, i: nat,
                         t: Tool, n: State)
    requires Follows(tools, aliases, l, s) && Sayable(x, call) && i == Place(tools, aliases, l.book, call)
    requires OutputTool(s, call.id, call.name).index == i && t == OutputTool(s, call.id, call.name).state.tools[i]
    requires CallFits(x, tools, l.said, call, i) && SentWhole(t)
    requires i < |n.tools| && n.tools[i] == WithArguments(Described(t), call.arguments, true)
    requires i < |s.tools| ==> t.id == s.tools[i].id
    ensures GivenTool(tools, Logged(tools, aliases, l, call), n, i)
  {
    PickIsKnown(x, tools, aliases, l, s, call, i, t);
    if i < |tools| {
      IdOfOld(tools, aliases, l, s, i);
    }
    NewlyGiven(x, tools, aliases, l, s, call, i, t, n);
  }

  lemma TracksAfter(x: Context, tools: seq<Tool>, aliases: map<string, nat>, b: Book, s: State, call: Call, n: State)
    requires Tracks(tools, aliases, b, s) && call.id != "" && call.name != ""
    requires ReconcileCall(x, s, call) == Outcome(n, true)
    ensures Tracks(tools, aliases, Booked(tools, aliases, b, call), n)
  {
    CallFinishes(x, s, call);
    StepTracks(tools, aliases, b, s, call, n);
  }

  lemma Assembled(tools: seq<Tool>, aliases: map<string, nat>, l: Log, s: State)
    requires Tracks(tools, aliases, l.book, s) && l.said.Keys == l.book.given && l.named <= l.book.given
    requires forall i :: i in l.said ==> i < |s.tools| && GivenTool(tools, l, s, i)
    ensures Follows(tools, aliases, l, s)
  {
  }

  lemma GivenOf(tools: seq<Tool>, aliases: map<string, nat>, l: Log, s: State)
    requires Follows(tools, aliases, l, s)
    ensures forall j :: j in l.said ==> j < |s.tools| && GivenTool(tools, l, s, j)
  {
  }

  lemma LoggedKeys(tools: seq<Tool>, aliases: map<string, nat>, l: Log, call: Call)
    requires l.said.Keys == l.book.given && l.named <= l.book.given
    ensures var m := Logged(tools, aliases, l, call); m.said.Keys == m.book.given && m.named <= m.book.given
  {
  }

  lemma LogGrows(tools: seq<Tool>, aliases: map<string, nat>, l: Log, s: State, call: Call, i: nat, n: State)
    requires i == Place(tools, aliases, l.book, call) && i < |n.tools| && |s.tools| <= |n.tools|
    requires l.said.Keys == l.book.given && l.named <= l.book.given
    requires forall j :: j in l.said ==> j < |s.tools| && GivenTool(tools, l, s, j)
    requires forall j :: 0 <= j < |s.tools| && j != i ==> n.tools[j] == s.tools[j]
    requires GivenTool(tools, Logged(tools, aliases, l, call), n, i)
    requires Tracks(tools, aliases, Booked(tools, aliases, l.book, call), n)
    ensures Follows(tools, aliases, Logged(tools, aliases, l, call), n)
  {
    LoggedKeys(tools, aliases, l, call);
    AllGiven(tools, aliases, l, s, call, i, n);
    Assembled(tools, aliases, Logged(tools, aliases, l, call), n);
  }

  lemma NewlyGiven(x: Context, tools: seq<Tool>, aliases: map<string, nat>, l: Log, s: State, call: Call, i: nat,
                   t: Tool,
                   n: State)
    requires i < |n.tools| && n.tools[i] == WithArguments(Described(t), call.arguments, true)
    requires i == Place(tools, aliases, l.book, call) && Sayable(x, call) && SentWhole(t)
    requires l.named <= l.said.Keys && CallFits(x, tools, l.said, call, i)
    requires if i in l.said then
               && i < |s.tools| && GivenTool(tools, l, s, i) && t.final && t.arguments == l.said[i]
               && (t.name != "" <==> s.tools[i].name != "" || t.id != call.id)
             else if i < |tools| then
               && (t == tools[i] || t == tools[i].(name := call.name)) && (t.id != call.id ==> t.name == call.name)
             else t == Tool(call.id, call.name, [], 0, false, false)
    requires i < |tools| ==> t.id == tools[i].id
    requires i !in l.said && i < |tools| && t.id == call.id ==> t == tools[i]
    ensures GivenTool(tools, Logged(tools, aliases, l, call), n, i)
  {
  }

  // ----- All calls -----

  predicate AllSayable(x: Context, calls: seq<Call>) {
    forall k :: 0 <= k < |calls| ==> Sayable(x, calls[k])
  }

  lemma {:induction false} CallsAreTaken(x: Context, tools: seq<Tool>, aliases: map<string, nat>, l: Log, s: State,
                                         calls: seq<Call>)
    requires Writable(x) && Synced(s) && s.roleSent && Follows(tools, aliases, l, s) && AllSayable(x, calls)
    ensures ReconcileCalls(x, s, calls).ok <==> CallsFit(x, tools, aliases, l, calls)
    ensures ReconcileCalls(x, s, calls).ok ==>
              var n := ReconcileCalls(x, s, calls).state;
              Synced(n) && n.roleSent && Follows(tools, aliases, LogOf(tools, aliases, l, calls), n)
    decreases |calls|
  {
    if calls != [] {
      OneCallIsTaken(x, tools, aliases, l, s, calls[0]);
      if ReconcileCall(x, s, calls[0]).ok {
        CallsAreTaken(x, tools, aliases, Logged(tools, aliases, l, calls[0]), ReconcileCall(x, s, calls[0]).state,
                      calls[1..]);
      }
    }
  }

  /** The arguments in the log are JSON. */
  predicate SaysJson(x: Context, l: Log) {
    forall i :: i in l.said ==> l.said[i] != [] && x.validJson(l.said[i])
  }

  lemma {:induction false} LogSaysJson(x: Context, tools: seq<Tool>, aliases: map<string, nat>, l: Log,
                                       calls: seq<Call>)
    requires SaysJson(x, l) && AllSayable(x, calls)
    ensures SaysJson(x, LogOf(tools, aliases, l, calls))
    decreases |calls|
  {
    if calls != [] {
      LogSaysJson(x, tools, aliases, Logged(tools, aliases, l, calls[0]), calls[1..]);
    }
  }

  // ----- The end -----

  /** An identified, named tool with JSON for arguments, which is or can be described. */
  predicate Finishable(x: Context, t: Tool) {
    t.id != "" && t.name != "" && t.arguments != [] && x.validJson(t.arguments) && Describable(t)
  }

  lemma {:induction false} ToolsFinish(x: Context, s: State, i: nat)
    requires Writable(x) && Synced(s) && s.roleSent && i <= |s.tools|
    ensures FinishTools(x, s, i).ok <==> forall j :: i <= j < |s.tools| ==> Finishable(x, s.tools[j])
    decreases |s.tools| - i
  {
    if i < |s.tools| {
      assert ToolLoose(s, i);
      MetadataIsTold(x, s, i);
      MetadataIsGood(x, s, i);
      if Finishable(x, s.tools[i]) {
        ToolsFinish(x, WriteMetadata(x, s, i).state, i + 1);
      }
    }
  }

  /** Every tool is finishable after the calls of the log: one that a call was given to has a name of its own or from a
      call, any other one was finishable before. */
  predicate AllFinishable(x: Context, tools: seq<Tool>, l: Log) {
    forall i :: 0 <= i < |tools| ==>
      if i in l.said then tools[i].id != "" && (tools[i].name != "" || i in l.named) else Finishable(x, tools[i])
  }

  lemma FinishableIsTold(x: Context, tools: seq<Tool>, aliases: map<string, nat>, l: Log, s: State)
    requires Follows(tools, aliases, l, s) && SaysJson(x, l)
    ensures (forall j :: 0 <= j < |s.tools| ==> Finishable(x, s.tools[j])) <==> AllFinishable(x, tools, l)
  {
    forall j: nat | j < |s.tools|
      ensures Finishable(x, s.tools[j])
              <==> (j < |tools| ==> if j in l.said then tools[j].id != "" && (tools[j].name != "" || j in l.named)
                                    else Finishable(x, tools[j]))
    {
      ToolIsTold(x, tools, aliases, l, s, j);
    }
    GivenOf(tools, aliases, l, s);
    OldAreThere(tools, aliases, l, s);
  }

  lemma OldAreThere(tools: seq<Tool>, aliases: map<string, nat>, l: Log, s: State)
    requires Follows(tools, aliases, l, s)
    ensures |tools| <= |s.tools|
  {
  }

  lemma ToolIsTold(x: Context, tools: seq<Tool>, aliases: map<string, nat>, l: Log, s: State, j: nat)
    requires Follows(tools, aliases, l, s) && SaysJson(x, l) && j < |s.tools|
    ensures Finishable(x, s.tools[j])
            <==> (j < |tools| ==> if j in l.said then tools[j].id != "" && (tools[j].name != "" || j in l.named)
                                  else Finishable(x, tools[j]))
  {
    if j < |tools| {
      IdOfOld(tools, aliases, l, s, j);
    }
    UngivenIfUnsaid(tools, aliases, l, s, j);
    if j in l.said {
      assert GivenTool(tools, l, s, j);
    }
  }

  // ----- The terminal event -----

  lemma CallsAreSayable(x: Context, items: seq<Item>)
    requires AllPlain(x, items)
    ensures AllSayable(x, ItemCalls(items))
  {
    if items != [] {
      PlainFirst(x, items);
      CallsAreSayable(x, items[1..]);
    }
  }

  /** The response can be said, its text goes on from what the client has, its usage was accepted, its calls fit on the
      tools, and with them every tool is finishable. */
  ghost predicate EndsAll(x: Context, s: State, r: Response) {
    var calls := ItemCalls(r.output);
    && Representable(x, r) && ContentOf(s.output) <= SaidText(r) && r.usageOk && !s.finishSent
    && CallsFit(x, s.tools, s.aliases, NO_CALLS, calls)
    && AllFinishable(x, s.tools, LogOf(s.tools, s.aliases, NO_CALLS, calls))
  }

  lemma CallsAndFinish(x: Context, s: State, calls: seq<Call>, r: Response)
    requires Writable(x) && Synced(s) && s.roleSent && AllSayable(x, calls)
    ensures var c := ReconcileCalls(x, s, calls);
            (c.ok && FinishStream(x, c.state, r).ok)
            <==> CallsFit(x, s.tools, s.aliases, NO_CALLS, calls) && !c.state.finishSent
                 && AllFinishable(x, s.tools, LogOf(s.tools, s.aliases, NO_CALLS, calls))
  {
    NothingFollows(s);
    CallsAreTaken(x, s.tools, s.aliases, NO_CALLS, s, calls);
    LogSaysJson(x, s.tools, s.aliases, NO_CALLS, calls);
    var c := ReconcileCalls(x, s, calls);
    if c.ok {
      FinishableIsTold(x, s.tools, s.aliases, LogOf(s.tools, s.aliases, NO_CALLS, calls), c.state);
      ToolsFinish(x, c.state, 0);
    }
  }

  lemma ResponseAndFinish(x: Context, s: State, r: Response)
    requires Writable(x) && Synced(s) && s.roleSent
    ensures var c := ReconcileResponse(x, s, r);
            (ResponseOutput(x, r).Output? && s.text <= ResponseOutput(x, r).text && r.usageOk && c.ok
             && FinishStream(x, c.state, r).ok)
            <==> EndsAll(x, s, r)
  {
    ResponseIsRead(x, r);
    LooseIsFaithful(s);
    ContentIsText(s);
    if Representable(x, r) {
      var calls, text := ItemCalls(r.output), SaidText(r);
      CallsAreSayable(x, r.output);
      RestIsSent(x, s, text);
      ReconcileTextIsGood(x, s, text);
      var t := ReconcileText(x, s, text);
      if t.ok {
        CallsStay(x, t.state, calls);
        CallsAndFinish(x, t.state, calls, r);
      }
    }
  }

  lemma SameEnding(x: Context, s: State, r: State, response: Response)
    requires SameTools(s, r) && Synced(s) && Synced(r)
    ensures EndsAll(x, s, response) <==> EndsAll(x, r, response)
  {
    LooseIsFaithful(s);
    LooseIsFaithful(r);
    ContentIsText(s);
    ContentIsText(r);
  }

  /** Whether the response in hand is taken to the end. */
  predicate Concludes(x: Context, role: State, r: Response) {
    var o, c := ResponseOutput(x, r), ReconcileResponse(x, role, r);
    o.Output? && role.text <= o.text && r.usageOk && c.ok && FinishStream(x, c.state, r).ok
  }

  lemma TerminalEventIs(x: Context, s: State, e: Event, r: Response, role: State)
    requires !s.failed && !Failing(e) && e.kind.Terminal? && e.response == Some(r)
    requires WriteRole(x, Identified(s, e.response)) == Outcome(role, true) && role.text == s.text
    ensures OnEvent(x, s, e).ok <==> Concludes(x, role, r)
    ensures !OnEvent(x, s, e).ok ==> OnEvent(x, s, e).state.failed
  {
  }

  lemma ConcludesExactly(x: Context, s: State, role: State, r: Response)
    requires Writable(x) && Synced(s) && Synced(role) && role.roleSent && SameTools(s, role)
    ensures Concludes(x, role, r) <==> EndsAll(x, s, r)
  {
    ResponseAndFinish(x, role, r);
    SameEnding(x, s, role, r);
  }

  lemma EmptyTerminalIsRefused(x: Context, s: State, e: Event)
    requires !s.failed && !Failing(e) && e.kind.Terminal? && e.response == None
    ensures !OnEvent(x, s, e).ok && OnEvent(x, s, e).state.failed
  {
  }

  /** A terminal event that reports no failure is taken if and only if its response can be said and ends everything that
      was begun: the text goes on from what the client has, every call fits on its tool, and no tool stays
      incomplete. */
  lemma TerminalIsTakenExactly(x: Context, s: State, e: Event)
    requires Writable(x) && Synced(s) && !s.failed && !Failing(e) && e.kind.Terminal?
    ensures OnEvent(x, s, e).ok <==> e.response.Some? && EndsAll(x, s, e.response.value)
    ensures !OnEvent(x, s, e).ok ==> OnEvent(x, s, e).state.failed
  {
    match e.response
    case None => EmptyTerminalIsRefused(x, s, e);
    case Some(r) =>
      RoleGoesFirst(x, s, e);
      var role := WriteRole(x, Identified(s, e.response)).state;
      TerminalEventIs(x, s, e, r, role);
      ConcludesExactly(x, s, role, r);
  }
}
