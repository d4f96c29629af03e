/** The chat translator's state as its methods change it, with its loops over tools, parts and items. */
module ChatStream {
  import opened Bytes
  import opened Chat
  import opened ChatProofs

  class StreamState {
    const context: Context
    var identity: Identity
    var roleSent: bool
    var finishSent: bool
    var text: Bytes
    var tools: seq<Tool>
    var aliases: map<string, nat>
    var failed: bool
    var output: seq<Chunk>

    function Value(): State
      reads this
    {
      State(identity, roleSent, finishSent, text, tools, aliases, failed, output)
    }

    constructor (context: Context, identity: Identity)
      ensures Value() == NewState(identity) && this.context == context
    {
      this.context, this.identity := context, identity;
      roleSent, finishSent, text, tools, aliases, failed, output := false, false, [], [], map[], false, [];
    }

    method FailStream() returns (ok: bool)
      modifies this`failed
      ensures failed && !ok
    {
      failed := true;
      ok := false;
    }

    method WriteChunk(delta: Delta) returns (ok: bool)
      modifies this`output
      ensures Outcome(Value(), ok) == Write(context, old(Value()), delta)
    {
      var chunk := Chunk(identity, delta);
      ok := context.writes(output, chunk);
      if ok {
        output := output + [chunk];
      }
    }

    method SendRole() returns (ok: bool)
      modifies this
      ensures Outcome(Value(), ok) == WriteRole(context, old(Value()))
    {
      if roleSent {
        return true;
      }
      roleSent := true;
      ok := WriteChunk(Role);
    }

    method SendText(fragment: Bytes) returns (ok: bool)
      modifies this
      ensures Outcome(Value(), ok) == WriteText(context, old(Value()), fragment)
    {
      if fragment == [] {
        return true;
      }
      if |fragment| > MAX_STRING_BYTES || |text| > MAX_STRING_BYTES - |fragment| {
        return false;
      }
      ok := WriteChunk(Content(fragment));
      if ok {
        text := text + fragment;
      }
    }

    method SendTextUpTo(whole: Bytes) returns (ok: bool)
      modifies this
      ensures Outcome(Value(), ok) == ReconcileText(context, old(Value()), whole)
    {
      if |whole| > MAX_STRING_BYTES || !(text <= whole) {
        return false;
      }
      ok := SendText(whole[|text|..]);
    }

    // ----- Tools -----

    method LookUpTool(itemId: string, callId: string, name: string) returns (index: nat)
      modifies this
      ensures Found(Value(), index) == FindTool(old(Value()), itemId, callId, name)
    {
      if itemId != "" && itemId in aliases && aliases[itemId] < |tools| {
        index := aliases[itemId];
        if callId != "" {
          aliases := aliases[callId := index];
        }
        if name != "" {
          tools := tools[index := tools[index].(name := name)];
        }
        if tools[index].id == "" {
          tools := tools[index := tools[index].(id := if callId != "" then callId else itemId)];
        }
        return;
      }
      if callId != "" && callId in aliases && aliases[callId] < |tools| {
        index := aliases[callId];
        if itemId != "" {
          aliases := aliases[itemId := index];
        }
        if name != "" {
          tools := tools[index := tools[index].(name := name)];
        }
        return;
      }
      if itemId == "" && callId == "" && |tools| == 1 {
        if name != "" {
          tools := tools[0 := tools[0].(name := name)];
        }
        return 0;
      }
      index := |tools|;
      tools := tools + [Tool(if callId != "" then callId else itemId, name, [], 0, false, false)];
      if itemId != "" {
        aliases := aliases[itemId := index];
      }
      if callId != "" {
        aliases := aliases[callId := index];
      }
    }

    method LookUpOutputTool(id: string, name: string) returns (index: nat)
      modifies this
      ensures Found(Value(), index) == OutputTool(old(Value()), id, name)
    {
      var i := 0;
      while i < |tools|
        invariant 0 <= i <= |tools| && ById(tools, id, 0) == ById(tools, id, i)
      {
        if id != "" && tools[i].id == id {
          return i;
        }
        i := i + 1;
      }
      if name != "" {
        i := 0;
        while i < |tools|
          invariant 0 <= i <= |tools| && ByName(tools, name, 0) == ByName(tools, name, i)
        {
          if tools[i].name == name && !tools[i].final {
            return i;
          }
          i := i + 1;
        }
      }
      index := LookUpTool(id, id, name);
    }

    method SendSuffix(i: nat) returns (ok: bool)
      requires i < |tools|
      modifies this
      ensures Outcome(Value(), ok) == WriteSuffix(context, old(Value()), i)
    {
      var arguments := tools[i].arguments;
      if |arguments| <= tools[i].emitted {
        return true;
      }
      var fragment := arguments[tools[i].emitted..];
      tools := tools[i := tools[i].(emitted := |arguments|)];
      ok := WriteChunk(ToolArgs(i, fragment));
    }

    method SendMetadata(i: nat) returns (ok: bool)
      requires i < |tools|
      modifies this
      ensures Outcome(Value(), ok) == WriteMetadata(context, old(Value()), i)
    {
      if tools[i].metadataSent || tools[i].id == "" || tools[i].name == "" {
        return true;
      }
      if !ValidName(tools[i].name) {
        return false;
      }
      tools := tools[i := tools[i].(metadataSent := true)];
      ok := WriteChunk(ToolMeta(i, tools[i].id, tools[i].name));
      if ok {
        ok := SendSuffix(i);
      }
    }

    method AddToolArguments(i: nat, fragment: Bytes, final: bool) returns (ok: bool)
      requires i < |tools|
      modifies this
      ensures Outcome(Value(), ok) == AddArguments(context, old(Value()), i, fragment, final)
    {
      if tools[i].final {
        return fragment == [] || tools[i].arguments == fragment;
      }
      if |fragment| > MAX_ARGUMENT_BYTES || |tools[i].arguments| > MAX_ARGUMENT_BYTES - |fragment| {
        return false;
      }
      var arguments := tools[i].arguments;
      if final && fragment != [] {
        if !(arguments <= fragment) {
          return false;
        }
        arguments := arguments + fragment[|arguments|..];
        assert arguments == fragment;
      } else if fragment != [] {
        arguments := arguments + fragment;
      }
      tools := tools[i := tools[i].(arguments := arguments)];
      if tools[i].metadataSent {
        ok := SendSuffix(i);
        if !ok {
          return;
        }
      }
      ok := true;
      if final {
        tools := tools[i := tools[i].(final := true)];
        ok := CompleteJson(context, tools[i].arguments);
      }
    }

    // ----- The terminal response -----

    method SendOutput(response: Response) returns (ok: bool)
      modifies this
      ensures Outcome(Value(), ok) == ReconcileResponse(context, old(Value()), response)
    {
      var o := ReadResponseOutput(context, response);
      if o.Invalid? {
        return false;
      }
      ok := SendTextUpTo(o.text);
      if !ok {
        return;
      }
      ghost var all := ReconcileCalls(context, Value(), o.calls);
      ghost var left := o.calls;
      var i := 0;
      while i < |o.calls|
        invariant 0 <= i <= |o.calls| && left == o.calls[i..]
        invariant all == ReconcileCalls(context, Value(), left)
      {
        var index := LookUpOutputTool(o.calls[i].id, o.calls[i].name);
        ok := SendMetadata(index);
        if !ok {
          return;
        }
        ok := AddToolArguments(index, o.calls[i].arguments, true);
        if !ok {
          return;
        }
        left := left[1..];
        i := i + 1;
      }
      ok := true;
    }

    method FinishWith(response: Response) returns (ok: bool)
      modifies this
      ensures Outcome(Value(), ok) == FinishStream(context, old(Value()), response)
    {
      if finishSent {
        return false;
      }
      ghost var all := FinishTools(context, Value(), 0);
      var i := 0;
      while i < |tools|
        invariant 0 <= i <= |tools| && !finishSent
        invariant all == FinishTools(context, Value(), i)
        decreases |tools| - i
      {
        if !ToolComplete(context, tools[i]) {
          return false;
        }
        ok := SendMetadata(i);
        if !ok {
          return;
        }
        i := i + 1;
      }
      ok := WriteChunk(Finish(FinishReason(response, |tools|)));
      if ok {
        finishSent := true;
      }
    }

    // ----- Events -----

    method TakeText(whole: Bytes) returns (ok: bool)
      modifies this
      ensures Outcome(Value(), ok) == OnText(context, old(Value()), whole)
    {
      ok := SendRole();
      if !ok || whole == [] {
        return;
      }
      ok := SendTextUpTo(whole);
      if !ok {
        ok := FailStream();
      }
    }

    method TakeItem(item: Option<Item>) returns (ok: bool)
      modifies this
      ensures Outcome(Value(), ok) == OnItem(context, old(Value()), item)
    {
      if item.None? || item.value.OtherItem? {
        ok := FailStream();
        return;
      }
      match item.value
      case Reasoning =>
        ok := true;
      case Message(role, parts) =>
        var t := ReadMessageText(context, parts);
        if (role != "" && role != "assistant") || t.None? {
          ok := FailStream();
        } else {
          ok := TakeText(t.value);
        }
      case FunctionCall(id, callId, name, arguments) =>
        ok := SendRole();
        if !ok {
          return;
        }
        var index := LookUpTool(id, callId, name);
        ok := SendMetadata(index);
        if !ok || arguments == [] {
          return;
        }
        ok := AddToolArguments(index, arguments, true);
        if !ok {
          ok := FailStream();
        }
      case OtherItem =>
    }

    method TakeArguments(itemId: string, fragment: Bytes, final: bool) returns (ok: bool)
      modifies this
      ensures Outcome(Value(), ok) == OnArguments(context, old(Value()), itemId, fragment, final)
    {
      ok := SendRole();
      if !ok {
        return;
      }
      var index := LookUpTool(itemId, "", "");
      ok := AddToolArguments(index, fragment, final);
      if !ok {
        ok := FailStream();
      }
    }

    method TakeTerminal(response: Option<Response>) returns (ok: bool)
      modifies this
      ensures Outcome(Value(), ok) == OnTerminal(context, old(Value()), response)
    {
      if response.None? {
        ok := FailStream();
        return;
      }
      var o := ReadResponseOutput(context, response.value);
      if o.Invalid? || !(text <= o.text) || !response.value.usageOk {
        ok := FailStream();
        return;
      }
      ok := SendRole();
      if !ok {
        return;
      }
      ok := SendOutput(response.value);
      if ok {
        ok := FinishWith(response.value);
      }
      if !ok {
        ok := FailStream();
      }
    }

    method TakeKind(e: Event) returns (ok: bool)
      modifies this
      ensures Outcome(Value(), ok) == OnKind(context, old(Value()), e)
    {
      match e.kind
      case Quiet =>
        ok := true;
      case TextDelta(delta, annotated, part) =>
        if annotated || (part.Some? && !ReadablePart(context, part)) {
          ok := FailStream();
          return;
        }
        ok := SendRole();
        if ok {
          ok := SendText(delta);
        }
      case TextDone(whole, annotated) =>
        if annotated {
          ok := FailStream();
        } else {
          ok := TakeText(whole);
        }
      case ContentPart(part) =>
        if !ReadablePart(context, part) {
          ok := FailStream();
        } else {
          ok := TakeText(part.value.text);
        }
      case OutputItem(item) =>
        ok := TakeItem(item);
      case ArgsDelta(itemId, delta, arguments) =>
        ok := TakeArguments(itemId, if delta != [] then delta else arguments, false);
      case ArgsDone(itemId, arguments) =>
        ok := TakeArguments(itemId, arguments, true);
      case Terminal(_) =>
        ok := TakeTerminal(e.response);
      case Unknown =>
        ok := FailStream();
    }

    /** One upstream event. */
    method TakeEvent(e: Event) returns (ok: bool)
      modifies this
      ensures Outcome(Value(), ok) == OnEvent(context, old(Value()), e)
      ensures old(Synced(Value())) ==> Good(old(Value()), Outcome(Value(), ok))
    {
      if Synced(Value()) {
        EventIsGood(context, Value(), e);
      }
      if failed {
        return false;
      }
      if e.response.Some? && !roleSent {
        var seen := e.response.value.identity;
        identity := Identity(if seen.id != "" then seen.id else identity.id,
                             if seen.model != "" then seen.model else identity.model,
                             if seen.created > 0 then seen.created else identity.created);
      }
      if ReportsFailure(e) {
        failed := true;
        return true;
      }
      ok := TakeKind(e);
    }
  }

  // ----- Reading a response -----

  method ReadParts(parts: seq<Part>, before: Bytes) returns (text: Option<Bytes>)
    ensures text == PartsText(parts, before)
  {
    var all := before;
    ghost var left := parts;
    for i := 0 to |parts|
      invariant left == parts[i..] && PartsText(parts, before) == PartsText(left, all)
    {
      if !parts[i].isText || parts[i].annotated {
        return None;
      }
      if |parts[i].text| > MAX_STRING_BYTES || |all| > MAX_STRING_BYTES - |parts[i].text| {
        return None;
      }
      all := all + parts[i].text;
      left := left[1..];
    }
    text := Some(all);
  }

  method ReadMessageText(x: Context, parts: seq<Part>) returns (text: Option<Bytes>)
    ensures text == MessageText(x, parts, [])
  {
    var all: Bytes := [];
    ghost var left := parts;
    for i := 0 to |parts|
      invariant left == parts[i..] && MessageText(x, parts, []) == MessageText(x, left, all)
    {
      if !ReadablePart(x, Some(parts[i])) {
        return None;
      }
      if |parts[i].text| > MAX_STRING_BYTES || |all| > MAX_STRING_BYTES - |parts[i].text| {
        return None;
      }
      all := all + parts[i].text;
      left := left[1..];
    }
    text := Some(all);
  }

  /** The text and the calls of a response, or nothing when it cannot be represented. */
  method ReadResponseOutput(x: Context, r: Response) returns (o: Output)
    ensures o == ResponseOutput(x, r)
  {
    var text: Bytes := [];
    var calls: seq<Call> := [];
    ghost var left := r.output;
    for i := 0 to |r.output|
      invariant left == r.output[i..] && ItemsOutput(x, r.output, [], []) == ItemsOutput(x, left, text, calls)
    {
      var item := r.output[i];
      match item {
        case Message(role, parts) =>
          var longer := ReadParts(parts, text);
          if (role != "" && role != "assistant") || longer.None? {
            return Invalid;
          }
          text := longer.value;
        case Reasoning =>
        case FunctionCall(_, _, _, _) =>
          var call := CallOf(x, item);
          if call.None? {
            return Invalid;
          }
          calls := calls + [call.value];
        case OtherItem =>
          return Invalid;
      }
      left := left[1..];
    }
    if text == [] && r.outputText != [] {
      text := r.outputText;
    }
    o := if BoundedText(x, text) then Output(text, calls) else Invalid;
  }
}
