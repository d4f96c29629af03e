/** What each event does, told on its fields: when it is taken, and what the client has afterwards. The writes are
    taken to succeed here; that a failed write leaves the chunks faithful is part of `EveryRunIsFaithful`. */
module ChatEvents {
  import opened Bytes
  import T = Text
  import opened Chat
  import opened ChatPlaces
  import opened ChatProofs
  import opened ChatResponses

  /** Every chunk can be written. */
  ghost predicate Writable(x: Context) {
    forall output, chunk :: x.writes(output, chunk)
  }

  // ----- What sending leaves alone -----

  /** Under the same identity, failed or finished as before. */
  predicate SameStream(s: State, n: State) {
    n.identity == s.identity && n.failed == s.failed && n.finishSent == s.finishSent
  }

  /** Under the same identity, and not failed by what went well. */
  predicate Stays(s: State, o: Outcome) {
    o.state.identity == s.identity && (o.ok ==> o.state.failed == s.failed)
  }

  lemma AddingStays(x: Context, s: State, i: nat, fragment: Bytes, final: bool)
    requires i < |s.tools|
    ensures SameStream(s, AddArguments(x, s, i, fragment, final).state)
  {
  }

  lemma LookupStays(s: State, itemId: string, callId: string, name: string)
    ensures SameStream(s, FindTool(s, itemId, callId, name).state)
  {
  }

  /** Describing a tool and giving it its arguments. */
  lemma DescribingStays(x: Context, s: State, i: nat, arguments: Bytes, d: Outcome)
    requires i < |s.tools| && d == WriteMetadata(x, s, i)
    ensures SameStream(s, d.state) && i < |d.state.tools|
    ensures SameStream(s, AddArguments(x, d.state, i, arguments, true).state)
  {
    AddingStays(x, d.state, i, arguments, true);
  }

  lemma TextStays(x: Context, s: State, text: Bytes)
    ensures Stays(s, OnText(x, s, text))
  {
  }

  lemma CallStays(x: Context, s: State, id: string, callId: string, name: string, arguments: Bytes)
    ensures Stays(s, OnCall(x, s, id, callId, name, arguments))
  {
    var r := WriteRole(x, s);
    LookupStays(r.state, id, callId, name);
    var f := FindTool(r.state, id, callId, name);
    DescribingStays(x, f.state, f.index, arguments, WriteMetadata(x, f.state, f.index));
  }

  lemma ArgumentsStay(x: Context, s: State, itemId: string, fragment: Bytes, final: bool)
    ensures Stays(s, OnArguments(x, s, itemId, fragment, final))
  {
    var r := WriteRole(x, s);
    LookupStays(r.state, itemId, "", "");
    var f := FindTool(r.state, itemId, "", "");
    AddingStays(x, f.state, f.index, fragment, final);
  }

  lemma ReconcilingStays(x: Context, s: State, call: Call)
    ensures SameStream(s, ReconcileCall(x, s, call).state)
  {
    var f := OutputTool(s, call.id, call.name);
    LookupStays(s, call.id, call.id, call.name);
    DescribingStays(x, f.state, f.index, call.arguments, WriteMetadata(x, f.state, f.index));
  }

  lemma {:induction false} CallsStay(x: Context, s: State, calls: seq<Call>)
    ensures SameStream(s, ReconcileCalls(x, s, calls).state)
    decreases |calls|
  {
    if calls != [] {
      ReconcilingStays(x, s, calls[0]);
      CallsStay(x, ReconcileCall(x, s, calls[0]).state, calls[1..]);
    }
  }

  lemma {:induction false} ToolsStay(x: Context, s: State, i: nat)
    requires i <= |s.tools|
    ensures SameStream(s, FinishTools(x, s, i).state)
    decreases |s.tools| - i
  {
    if i < |s.tools| && ToolComplete(x, s.tools[i]) && WriteMetadata(x, s, i).ok {
      ToolsStay(x, WriteMetadata(x, s, i).state, i + 1);
    }
  }

  lemma FinishStays(x: Context, s: State, r: Response)
    ensures Stays(s, FinishStream(x, s, r))
  {
    ToolsStay(x, s, 0);
  }

  lemma ResponseStays(x: Context, s: State, r: Response)
    ensures SameStream(s, ReconcileResponse(x, s, r).state)
  {
    var o := ResponseOutput(x, r);
    if o.Output? {
      CallsStay(x, ReconcileText(x, s, o.text).state, o.calls);
    }
  }

  lemma TerminalStays(x: Context, s: State, response: Option<Response>)
    ensures Stays(s, OnTerminal(x, s, response))
  {
    if response.Some? {
      var role := WriteRole(x, s).state;
      ResponseStays(x, role, response.value);
      FinishStays(x, ReconcileResponse(x, role, response.value).state, response.value);
    }
  }

  lemma ItemStays(x: Context, s: State, item: Option<Item>)
    ensures Stays(s, OnItem(x, s, item))
  {
    if item.Some? && item.value.FunctionCall? {
      CallStays(x, s, item.value.id, item.value.callId, item.value.name, item.value.arguments);
    } else if item.Some? && item.value.Message? && MessageText(x, item.value.parts, []).Some? {
      TextStays(x, s, MessageText(x, item.value.parts, []).value);
    }
  }

  lemma KindStays(x: Context, s: State, e: Event)
    ensures Stays(s, OnKind(x, s, e))
  {
    match e.kind
    case TextDone(text, _) => TextStays(x, s, text);
    case ContentPart(Some(part)) => TextStays(x, s, part.text);
    case OutputItem(item) => ItemStays(x, s, item);
    case ArgsDelta(itemId, delta, arguments) =>
      ArgumentsStay(x, s, itemId, if delta != [] then delta else arguments, false);
    case ArgsDone(itemId, arguments) => ArgumentsStay(x, s, itemId, arguments, true);
    case Terminal(_) => TerminalStays(x, s, e.response);
    case _ =>
  }

  // ----- Failures -----

  /** The event reports that upstream failed. */
  predicate Failing(e: Event) {
    e.error || e.kind == Terminal(true) || match e.response case None => false case Some(r) => r.failed
  }

  /** A reported failure is taken, sends nothing and ends the stream: nothing is taken any more. Any other event that is
      taken leaves the stream going. */
  lemma FailureIsTold(x: Context, s: State, e: Event, next: Event)
    requires !s.failed
    ensures var w := OnEvent(x, s, e);
            && (Failing(e) ==> w.ok && w.state.failed && w.state.output == s.output)
            && (w.ok && !Failing(e) ==> !w.state.failed)
            && (w.state.failed ==> OnEvent(x, w.state, next) == Outcome(w.state, false))
  {
    if !Failing(e) {
      KindStays(x, Identified(s, e.response), e);
    }
  }

  // ----- Text -----

  /** What an event says of the text: nothing, how it goes on, all of it so far, or what no completion can hold. */
  datatype News = NoNews | More(text: Bytes) | All(text: Bytes) | Unfit

  predicate Shown(x: Context, p: Part) {
    p.isText && !p.annotated && |p.text| <= 1024 * 1024 && x.validText(p.text)
  }

  /** An event that is about no tool and does not end the stream. */
  predicate AboutText(e: Event) {
    match e.kind
    case ArgsDelta(_, _, _) => false
    case ArgsDone(_, _) => false
    case OutputItem(Some(FunctionCall(_, _, _, _))) => false
    case Terminal(_) => false
    case _ => true
  }

  function TextNews(x: Context, e: Event): News
    requires AboutText(e)
  {
    match e.kind
    case Quiet => NoNews
    case TextDelta(delta, annotated, part) =>
      if !annotated && (part == None || Shown(x, part.value)) then More(delta) else Unfit
    case TextDone(text, annotated) => if annotated then Unfit else All(text)
    case ContentPart(Some(part)) => if Shown(x, part) then All(part.text) else Unfit
    case OutputItem(Some(Reasoning)) => NoNews
    case OutputItem(Some(Message(role, parts))) =>
      var all := T.Concat(PartTexts(parts));
      if (role == "" || role == "assistant") && |all| <= 1024 * 1024
         && forall i :: 0 <= i < |parts| ==> Shown(x, parts[i])
      then All(all) else Unfit
    case _ => Unfit
  }

  lemma {:induction false} MessageIsShown(x: Context, parts: seq<Part>, text: Bytes)
    requires |text| <= MAX_STRING_BYTES
    ensures var all := text + T.Concat(PartTexts(parts));
            MessageText(x, parts, text)
            == if (forall i :: 0 <= i < |parts| ==> Shown(x, parts[i])) && |all| <= MAX_STRING_BYTES then Some(all)
              else None
    decreases |parts|
  {
    if parts == [] {
      assert text + [] == text;
    } else {
      var rest, first := parts[1..], parts[0].text;
      assert PartTexts(parts)[1..] == PartTexts(rest);
      Associative(text, first, T.Concat(PartTexts(rest)));
      assert forall i :: 0 < i < |parts| ==> parts[i] == rest[i - 1];
      if Shown(x, parts[0]) && |text| + |first| <= MAX_STRING_BYTES {
        MessageIsShown(x, rest, text + first);
      }
    }
  }

  /** What the client has after the news. */
  ghost predicate Continues(s: State, w: Outcome, news: News) {
    var content := ContentOf(s.output);
    && w.state.tools == s.tools && w.state.aliases == s.aliases && w.state.finishSent == s.finishSent
    && match news
       case NoNews => w.ok && w.state.output == s.output
       case More(text) =>
         && (w.ok <==> text == [] || |content| + |text| <= 1024 * 1024)
         && !w.state.failed && (w.ok ==> w.state.roleSent && ContentOf(w.state.output) == content + text)
       case All(text) =>
         && (w.ok <==> text == [] || (|text| <= 1024 * 1024 && content <= text))
         && (!w.ok ==> w.state.failed)
         && (w.ok ==> w.state.roleSent && ContentOf(w.state.output) == if text == [] then content else text)
       case Unfit => !w.ok && w.state.failed && w.state.output == s.output
  }

  lemma ContentIsText(s: State)
    requires Faithful(s)
    ensures ContentOf(s.output) == s.text
  {
  }

  lemma RoleSaysNothing(x: Context, s: State)
    requires Writable(x) && Synced(s)
    ensures var r := WriteRole(x, s);
            && r.ok && Synced(r.state) && r.state.roleSent && r.state.text == s.text && r.state.tools == s.tools
            && r.state.aliases == s.aliases && r.state.failed == s.failed && r.state.finishSent == s.finishSent
  {
    RoleIsGood(x, s);
  }

  lemma SyncedContent(s: State)
    requires Synced(s)
    ensures ContentOf(s.output) == s.text
  {
    LooseIsFaithful(s);
    ContentIsText(s);
  }

  /** What writing text does to the state, and that the client then has the state's text. */
  lemma TextIsSent(x: Context, r: State, text: Bytes)
    requires Writable(x) && Synced(r) && r.roleSent
    ensures var w := WriteText(x, r, text);
            && (w.ok <==> text == [] || |r.text| + |text| <= 1024 * 1024)
            && w.state == r.(text := if w.ok then r.text + text else r.text, output := w.state.output)
            && ContentOf(w.state.output) == w.state.text
  {
    TextIsGood(x, r, text);
    ContentIsText(WriteText(x, r, text).state);
    assert r.text + [] == r.text;
  }

  /** The rest of the text is sent when it extends what the client has. */
  lemma RestIsSent(x: Context, r: State, text: Bytes)
    requires Writable(x) && Synced(r) && r.roleSent
    ensures var w := ReconcileText(x, r, text);
            && (w.ok <==> |text| <= 1024 * 1024 && r.text <= text)
            && w.state == r.(text := if w.ok then text else r.text, output := w.state.output)
            && ContentOf(w.state.output) == w.state.text
  {
    SyncedContent(r);
    if |text| <= MAX_STRING_BYTES && r.text <= text {
      TextIsSent(x, r, text[|r.text|..]);
      assert r.text + text[|r.text|..] == text;
    }
  }

  /** The state differs at most by the role that was sent. */
  predicate RoleSent(s: State, r: State) {
    && r.roleSent && r.text == s.text && r.tools == s.tools && r.aliases == s.aliases && r.failed == s.failed
    && r.finishSent == s.finishSent
  }

  lemma DeltaFits(s: State, r: State, text: Bytes, w: Outcome)
    requires RoleSent(s, r) && !s.failed && ContentOf(s.output) == s.text && ContentOf(w.state.output) == w.state.text
    requires w.ok <==> text == [] || |r.text| + |text| <= 1024 * 1024
    requires w.state == r.(text := if w.ok then r.text + text else r.text, output := w.state.output)
    ensures Continues(s, w, More(text))
  {
  }

  lemma DeltaContinues(x: Context, s: State, text: Bytes)
    requires Writable(x) && Synced(s) && !s.failed
    ensures var r := WriteRole(x, s); r.ok && Continues(s, WriteText(x, r.state, text), More(text))
  {
    RoleSaysNothing(x, s);
    SyncedContent(s);
    var r := WriteRole(x, s).state;
    TextIsSent(x, r, text);
    DeltaFits(s, r, text, WriteText(x, r, text));
  }

  lemma WholeFits(s: State, r: State, text: Bytes, w: Outcome)
    requires RoleSent(s, r) && !s.failed && ContentOf(s.output) == s.text && ContentOf(r.output) == r.text
    requires text != [] ==> ContentOf(w.state.output) == w.state.text
    requires text != [] ==> (w.ok <==> |text| <= 1024 * 1024 && r.text <= text)
    requires text != [] ==> w.state == r.(text := if w.ok then text else r.text, output := w.state.output)
    ensures Continues(s, if text == [] then Outcome(r, true) else Guarded(w), All(text))
  {
  }

  lemma WholeContinues(x: Context, s: State, text: Bytes)
    requires Writable(x) && Synced(s) && !s.failed
    ensures Continues(s, OnText(x, s, text), All(text))
  {
    RoleSaysNothing(x, s);
    SyncedContent(s);
    var r := WriteRole(x, s).state;
    SyncedContent(r);
    RestIsSent(x, r, text);
    WholeFits(s, r, text, ReconcileText(x, r, text));
  }

  lemma PlainEventContinues(x: Context, s: State, e: Event)
    requires !s.failed && AboutText(e) && (TextNews(x, e).NoNews? || TextNews(x, e).Unfit?)
    ensures Continues(s, OnKind(x, s, e), TextNews(x, e))
  {
    if e.kind.OutputItem? && e.kind.item.Some? && e.kind.item.value.Message? {
      var parts := e.kind.item.value.parts;
      MessageIsShown(x, parts, []);
      assert [] + T.Concat(PartTexts(parts)) == T.Concat(PartTexts(parts));
    }
  }

  lemma NewsIsRead(x: Context, s: State, e: Event)
    requires AboutText(e)
    ensures TextNews(x, e).All? ==> OnKind(x, s, e) == OnText(x, s, TextNews(x, e).text)
    ensures TextNews(x, e).More? ==>
              OnKind(x, s, e) == if WriteRole(x, s).ok then WriteText(x, WriteRole(x, s).state, TextNews(x, e).text)
                                 else WriteRole(x, s)
  {
    if e.kind.OutputItem? && e.kind.item.Some? && e.kind.item.value.Message? {
      var parts := e.kind.item.value.parts;
      MessageIsShown(x, parts, []);
      assert [] + T.Concat(PartTexts(parts)) == T.Concat(PartTexts(parts));
    }
  }

  /** Every event about the text is taken exactly when what it says can be said and agrees with what the client has;
      then the client has just that. */
  lemma TextEventIsTold(x: Context, s: State, e: Event)
    requires Writable(x) && Synced(s) && !s.failed && !Failing(e) && AboutText(e)
    ensures Continues(s, OnEvent(x, s, e), TextNews(x, e))
  {
    var seen, news := Identified(s, e.response), TextNews(x, e);
    IdentifiedIsSynced(s, e.response);
    NewsIsRead(x, seen, e);
    if news.More? {
      DeltaContinues(x, seen, news.text);
    } else if news.All? {
      WholeContinues(x, seen, news.text);
    } else {
      PlainEventContinues(x, seen, e);
    }
  }
}
