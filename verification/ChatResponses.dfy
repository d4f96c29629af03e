/** What a terminal response says, told on its items, and that a finished stream delivers just that. */
module ChatResponses {
  import opened Bytes
  import T = Text
  import opened Chat
  import opened ChatPlaces
  import opened ChatProofs

  // ----- What the items say -----

  function PartTexts(parts: seq<Part>): (texts: seq<Bytes>)
    ensures |texts| == |parts|
  {
    seq(|parts|, i requires 0 <= i < |parts| => parts[i].text)
  }

  /** The texts of all parts of all messages, in order. */
  function ItemTexts(items: seq<Item>): seq<Bytes> {
    if items == [] then []
    else (if items[0].Message? then PartTexts(items[0].parts) else []) + ItemTexts(items[1..])
  }

  /** A call for every function-call item, in order, under the call's identifier or else the item's own. */
  function ItemCalls(items: seq<Item>): seq<Call> {
    if items == [] then []
    else
      (match items[0]
       case FunctionCall(id, callId, name, arguments) => [Call(if |callId| > 0 then callId else id, name, arguments)]
       case _ => [])
      + ItemCalls(items[1..])
  }

  /** The joined texts, or the response's own when they are empty. */
  function SaidText(r: Response): Bytes {
    if T.Concat(ItemTexts(r.output)) == [] then r.outputText else T.Concat(ItemTexts(r.output))
  }

  // ----- What can be said as a chat completion -----

  predicate PlainPart(p: Part) {
    p.isText && !p.annotated
  }

  /** One to 64 letters, digits, underscores and dashes. */
  predicate PlainName(name: string) {
    && 1 <= |name| <= 64
    && forall i :: 0 <= i < |name| ==>
         var c := name[i] as int; c == 45 || 48 <= c <= 57 || 65 <= c <= 90 || c == 95 || 97 <= c <= 122
  }

  /** An identified, plainly named call with one JSON value for arguments. */
  predicate PlainCall(x: Context, id: string, callId: string, name: string, arguments: Bytes) {
    && (id != "" || callId != "") && PlainName(name)
    && 1 <= |arguments| <= 1024 * 1024 && x.validJson(arguments)
  }

  predicate PlainItem(x: Context, item: Item) {
    match item
    case Message(role, parts) =>
      (role == "" || role == "assistant") && forall i :: 0 <= i < |parts| ==> PlainPart(parts[i])
    case Reasoning => true
    case FunctionCall(id, callId, name, arguments) => PlainCall(x, id, callId, name, arguments)
    case OtherItem => false
  }

  predicate AllPlain(x: Context, items: seq<Item>) {
    forall i :: 0 <= i < |items| ==> PlainItem(x, items[i])
  }

  /** Plain items whose texts together are within the limit, and a valid text within the limit. */
  predicate Representable(x: Context, r: Response) {
    && AllPlain(x, r.output) && |T.Concat(ItemTexts(r.output))| <= 1024 * 1024
    && |SaidText(r)| <= 1024 * 1024 && x.validText(SaidText(r))
  }

  // ----- Reading is exact -----

  lemma NameIsPlain(name: string)
    ensures ValidName(name) <==> PlainName(name)
  {
  }

  lemma CallIsPlain(x: Context, item: Item)
    requires item.FunctionCall?
    ensures CallOf(x, item) == if PlainItem(x, item) then Some(ItemCalls([item])[0]) else None
  {
    NameIsPlain(item.name);
  }

  lemma {:induction false} PartsAreRead(parts: seq<Part>, text: Bytes)
    requires |text| <= MAX_STRING_BYTES
    ensures var all := text + T.Concat(PartTexts(parts));
            PartsText(parts, text)
            == if (forall i :: 0 <= i < |parts| ==> PlainPart(parts[i])) && |all| <= MAX_STRING_BYTES then Some(all)
              else None
    decreases |parts|
  {
    if parts == [] {
      assert text + [] == text;
    } else {
      var rest, first := parts[1..], parts[0].text;
      assert PartTexts(parts)[1..] == PartTexts(rest);
      Associative(text, first, T.Concat(PartTexts(rest)));
      assert forall i :: 0 < i < |parts| ==> parts[i] == rest[i - 1];
      if PlainPart(parts[0]) && |text| + |first| <= MAX_STRING_BYTES {
        PartsAreRead(rest, text + first);
      }
    }
  }

  lemma MessageIsRead(x: Context, items: seq<Item>, text: Bytes, calls: seq<Call>)
    requires items != [] && items[0].Message? && |text| <= MAX_STRING_BYTES
    ensures var longer, o := text + T.Concat(PartTexts(items[0].parts)), ItemsOutput(x, items, text, calls);
            o == if PlainItem(x, items[0]) && |longer| <= MAX_STRING_BYTES
                 then ItemsOutput(x, items[1..], longer, calls) else Invalid
  {
    PartsAreRead(items[0].parts, text);
  }

  lemma TextsOfFirst(items: seq<Item>, text: Bytes)
    requires items != []
    ensures var own := if items[0].Message? then T.Concat(PartTexts(items[0].parts)) else [];
            text + T.Concat(ItemTexts(items)) == text + own + T.Concat(ItemTexts(items[1..]))
  {
    var own := if items[0].Message? then PartTexts(items[0].parts) else [];
    T.ConcatAppend(own, ItemTexts(items[1..]));
    Associative(text, T.Concat(own), T.Concat(ItemTexts(items[1..])));
  }

  lemma PlainFirst(x: Context, items: seq<Item>)
    requires items != []
    ensures AllPlain(x, items) <==> PlainItem(x, items[0]) && AllPlain(x, items[1..])
  {
    assert forall i :: 0 < i < |items| ==> items[i] == items[1..][i - 1];
  }

  /** Reading these items after what was read so far gives their texts and calls, when all can be said. */
  predicate ReadsAs(x: Context, items: seq<Item>, text: Bytes, calls: seq<Call>) {
    var all := text + T.Concat(ItemTexts(items));
    ItemsOutput(x, items, text, calls)
    == if AllPlain(x, items) && |all| <= MAX_STRING_BYTES then Output(all, calls + ItemCalls(items)) else Invalid
  }

  lemma MessageThenRest(x: Context, items: seq<Item>, text: Bytes, calls: seq<Call>, longer: Bytes)
    requires items != [] && items[0].Message? && |text| <= MAX_STRING_BYTES
    requires longer == text + T.Concat(PartTexts(items[0].parts))
    requires |longer| <= MAX_STRING_BYTES ==> ReadsAs(x, items[1..], longer, calls)
    ensures ReadsAs(x, items, text, calls)
  {
    var all := text + T.Concat(ItemTexts(items));
    TextsOfFirst(items, text);
    assert all == longer + T.Concat(ItemTexts(items[1..])) && |all| >= |longer|;
    assert ItemCalls(items) == ItemCalls(items[1..]);
    PlainFirst(x, items);
    MessageIsRead(x, items, text, calls);
  }

  lemma CallThenRest(x: Context, items: seq<Item>, text: Bytes, calls: seq<Call>, call: Call)
    requires items != [] && items[0].FunctionCall? && ItemCalls([items[0]]) == [call]
    requires PlainItem(x, items[0]) ==> ReadsAs(x, items[1..], text, calls + [call])
    ensures ReadsAs(x, items, text, calls)
  {
    TextsOfFirst(items, text);
    assert text + [] == text;
    PlainFirst(x, items);
    CallIsPlain(x, items[0]);
    assert ItemCalls(items) == [call] + ItemCalls(items[1..]);
    Associative(calls, [call], ItemCalls(items[1..]));
  }

  lemma SilentThenRest(x: Context, items: seq<Item>, text: Bytes, calls: seq<Call>)
    requires items != [] && !items[0].Message? && !items[0].FunctionCall?
    requires PlainItem(x, items[0]) ==> ReadsAs(x, items[1..], text, calls)
    ensures ReadsAs(x, items, text, calls)
  {
    TextsOfFirst(items, text);
    assert text + [] == text;
    PlainFirst(x, items);
    assert ItemCalls(items) == ItemCalls(items[1..]);
  }

  lemma {:induction false} ItemsAreRead(x: Context, items: seq<Item>, text: Bytes, calls: seq<Call>)
    requires |text| <= MAX_STRING_BYTES
    ensures ReadsAs(x, items, text, calls)
    decreases |items|
  {
    if items == [] {
      assert text + [] == text && calls + [] == calls;
    } else if items[0].Message? {
      var longer := text + T.Concat(PartTexts(items[0].parts));
      if |longer| <= MAX_STRING_BYTES {
        ItemsAreRead(x, items[1..], longer, calls);
      }
      MessageThenRest(x, items, text, calls, longer);
    } else if items[0].FunctionCall? {
      var one := [items[0]];
      assert one[1..] == [] && |ItemCalls(one)| == 1;
      ItemsAreRead(x, items[1..], text, calls + [ItemCalls(one)[0]]);
      CallThenRest(x, items, text, calls, ItemCalls(one)[0]);
    } else {
      ItemsAreRead(x, items[1..], text, calls);
      SilentThenRest(x, items, text, calls);
    }
  }

  /** A response is read exactly when it is representable, and then as what its items say. */
  lemma ResponseIsRead(x: Context, r: Response)
    ensures ResponseOutput(x, r) == if Representable(x, r) then Output(SaidText(r), ItemCalls(r.output)) else Invalid
  {
    ItemsAreRead(x, r.output, [], []);
    assert [] + T.Concat(ItemTexts(r.output)) == T.Concat(ItemTexts(r.output));
  }

  // ----- Finished streams -----

  /** Why the stream ended: cut short at the token limit or by the filter, else by its tool calls or on its own. */
  predicate ReasonTold(incomplete: Option<string>, tools: nat, reason: string) {
    match incomplete
    case Some(why) =>
      if why == "max_output_tokens" then reason == "length"
      else if why == "content_filter" then reason == "content_filter"
      else reason == (if tools > 0 then "tool_calls" else "stop")
    case None => reason == if tools == 0 then "stop" else "tool_calls"
  }

  lemma ReasonIsTold(r: Response, tools: nat)
    ensures ReasonTold(r.incomplete, tools, FinishReason(r, tools))
  {
  }

  /** A stream taken to its terminal event without a reported failure delivers the terminal response: the content is
      its items' texts, each of its items' calls is answered by the tool at its place with the item's arguments, and
      the last chunk tells why it ended. Its usage was accepted. */
  lemma FinishedStreamDelivers(x: Context, identity: Identity, events: seq<Event>, e: Event)
    requires e.kind.Terminal? && OnEvents(x, NewState(identity), events + [e]).ok
    requires !OnEvents(x, NewState(identity), events + [e]).state.failed
    ensures e.response.Some? && Representable(x, e.response.value) && e.response.value.usageOk
    ensures var before := OnEvents(x, NewState(identity), events).state;
            var s := OnEvents(x, NewState(identity), events + [e]).state;
            var r, calls := e.response.value, ItemCalls(e.response.value.output);
            && ContentOf(s.output) == SaidText(r)
            && AllAnswered(s, calls, Places(before.tools, before.aliases, BLANK, calls))
            && s.output != [] && s.output[|s.output| - 1].delta.Finish?
            && ReasonTold(r.incomplete, |s.tools|, s.output[|s.output| - 1].delta.reason)
  {
    FinishedStreamReproduces(x, identity, events, e);
    ResponseIsRead(x, e.response.value);
    EventsAppend(x, NewState(identity), events, e);
    ReasonIsTold(e.response.value, |OnEvents(x, NewState(identity), events + [e]).state.tools|);
    UsageWasAccepted(x, OnEvents(x, NewState(identity), events).state, e);
  }

  lemma UsageWasAccepted(x: Context, s: State, e: Event)
    requires e.kind.Terminal? && OnEvent(x, s, e).ok && !OnEvent(x, s, e).state.failed
    ensures e.response.Some? && e.response.value.usageOk
  {
  }
}
