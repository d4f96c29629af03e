/** The translator from upstream response events to chat completion chunks. */
module Chat {
  import opened Bytes

  const MAX_STRING_BYTES := 1024 * 1024
  const MAX_ARGUMENT_BYTES := 1024 * 1024
  const MAX_NAME_BYTES := 64

  datatype Identity = Identity(id: string, model: string, created: int)

  datatype Delta =
    | Role
    | Content(text: Bytes)
    | ToolMeta(index: nat, id: string, name: string)
    | ToolArgs(index: nat, fragment: Bytes)
    | Finish(reason: string)

  datatype Chunk = Chunk(identity: Identity, delta: Delta)

  datatype Tool = Tool(id: string, name: string, arguments: Bytes, emitted: nat, metadataSent: bool, final: bool)

  /** The translator's state. `aliases` maps item and call identifiers to positions in `tools`. */
  datatype State = State(identity: Identity, roleSent: bool, finishSent: bool, text: Bytes, tools: seq<Tool>,
                         aliases: map<string, nat>, failed: bool, output: seq<Chunk>)

  /** Whether the next chunk can be written, and what the validators for JSON and UTF-8 say. */
  datatype Context = Context(writes: (seq<Chunk>, Chunk) -> bool, validJson: Bytes -> bool, validText: Bytes -> bool)

  // ----- Upstream events -----

  datatype Part = Part(isText: bool, annotated: bool, text: Bytes)

  datatype Item =
    | Message(role: string, parts: seq<Part>)
    | Reasoning
    | FunctionCall(id: string, callId: string, name: string, arguments: Bytes)
    | OtherItem

  /** `usageOk` is the verdict of the usage and quota checks, which are not part of this model. */
  datatype Response = Response(identity: Identity, failed: bool, output: seq<Item>, outputText: Bytes,
                               incomplete: Option<string>, usageOk: bool)

  datatype Kind =
    | Quiet
    | TextDelta(delta: Bytes, annotated: bool, part: Option<Part>)
    | TextDone(text: Bytes, annotated: bool)
    | ContentPart(part: Option<Part>)
    | OutputItem(item: Option<Item>)
    | ArgsDelta(itemId: string, delta: Bytes, arguments: Bytes)
    | ArgsDone(itemId: string, arguments: Bytes)
    | Terminal(failure: bool)
    | Unknown

  datatype Event = Event(kind: Kind, response: Option<Response>, error: bool)

  /** The state after an operation, and whether it went well. */
  datatype Outcome = Outcome(state: State, ok: bool)

  // ----- Writing chunks -----

  function Write(x: Context, s: State, delta: Delta): (w: Outcome)
    ensures w.state == s.(output := w.state.output)
  {
    var chunk := Chunk(s.identity, delta);
    if x.writes(s.output, chunk) then Outcome(s.(output := s.output + [chunk]), true) else Outcome(s, false)
  }

  function WriteRole(x: Context, s: State): Outcome {
    if s.roleSent then Outcome(s, true) else Write(x, s.(roleSent := true), Role)
  }

  function WriteText(x: Context, s: State, text: Bytes): Outcome {
    if text == [] then Outcome(s, true)
    else if |text| > MAX_STRING_BYTES || |s.text| > MAX_STRING_BYTES - |text| then Outcome(s, false)
    else
      var w := Write(x, s, Content(text));
      if w.ok then Outcome(w.state.(text := s.text + text), true) else w
  }

  /** Send what `text` has beyond what was sent. */
  function ReconcileText(x: Context, s: State, text: Bytes): Outcome {
    if |text| > MAX_STRING_BYTES || !(s.text <= text) then Outcome(s, false)
    else WriteText(x, s, text[|s.text|..])
  }

  // ----- Tools -----

  function SetTool(s: State, i: nat, tool: Tool): State
    requires i < |s.tools|
  {
    s.(tools := s.tools[i := tool])
  }

  function Named(tool: Tool, name: string): Tool {
    if name != "" then tool.(name := name) else tool
  }

  function Alias(s: State, id: string, i: nat): State {
    if id != "" then s.(aliases := s.aliases[id := i]) else s
  }

  predicate Aliased(s: State, id: string) {
    id != "" && id in s.aliases && s.aliases[id] < |s.tools|
  }

  datatype Found = Found(state: State, index: nat)

  /** The tool known under the item or call identifier, or a new one. */
  function FindTool(s: State, itemId: string, callId: string, name: string): (f: Found)
    ensures f.index < |f.state.tools|
  {
    if Aliased(s, itemId) then
      var i := s.aliases[itemId];
      var tool := Named(s.tools[i], name);
      var named := if tool.id == "" then tool.(id := if callId != "" then callId else itemId) else tool;
      Found(SetTool(Alias(s, callId, i), i, named), i)
    else if Aliased(s, callId) then
      var i := s.aliases[callId];
      Found(SetTool(Alias(s, itemId, i), i, Named(s.tools[i], name)), i)
    else if itemId == "" && callId == "" && |s.tools| == 1 then
      Found(SetTool(s, 0, Named(s.tools[0], name)), 0)
    else
      var i := |s.tools|;
      var tool := Tool(if callId != "" then callId else itemId, name, [], 0, false, false);
      Found(Alias(Alias(s.(tools := s.tools + [tool]), itemId, i), callId, i), i)
  }

  /** The first tool from `i` on with this identifier. */
  function ById(tools: seq<Tool>, id: string, i: nat): (k: Option<nat>)
    requires i <= |tools|
    ensures k.Some? ==> i <= k.value < |tools| && tools[k.value].id == id != ""
    ensures forall j :: i <= j < (if k.Some? then k.value else |tools|) ==> id == "" || tools[j].id != id
    decreases |tools| - i
  {
    if i == |tools| then None else if id != "" && tools[i].id == id then Some(i) else ById(tools, id, i + 1)
  }

  /** The first unfinished tool from `i` on with this name. */
  function ByName(tools: seq<Tool>, name: string, i: nat): (k: Option<nat>)
    requires i <= |tools|
    ensures k.Some? ==> i <= k.value < |tools| && tools[k.value].name == name != "" && !tools[k.value].final
    ensures forall j :: i <= j < (if k.Some? then k.value else |tools|) ==>
              name == "" || tools[j].name != name || tools[j].final
    decreases |tools| - i
  {
    if i == |tools| then None
    else if name != "" && tools[i].name == name && !tools[i].final then Some(i)
    else ByName(tools, name, i + 1)
  }

  function OutputTool(s: State, id: string, name: string): (f: Found)
    ensures f.index < |f.state.tools|
  {
    if ById(s.tools, id, 0).Some? then Found(s, ById(s.tools, id, 0).value)
    else if ByName(s.tools, name, 0).Some? then Found(s, ByName(s.tools, name, 0).value)
    else FindTool(s, id, id, name)
  }

  predicate ValidName(name: string) {
    0 < |name| <= MAX_NAME_BYTES
    && forall i :: 0 <= i < |name| ==>
         'a' <= name[i] <= 'z' || 'A' <= name[i] <= 'Z' || '0' <= name[i] <= '9' || name[i] == '_' || name[i] == '-'
  }

  /** Send the arguments that were not yet sent. */
  function WriteSuffix(x: Context, s: State, i: nat): (w: Outcome)
    requires i < |s.tools|
    ensures |w.state.tools| == |s.tools| && w.state == s.(tools := w.state.tools, output := w.state.output)
  {
    if |s.tools[i].arguments| <= s.tools[i].emitted then Outcome(s, true)
    else
      var tool := s.tools[i];
      Write(x, SetTool(s, i, tool.(emitted := |tool.arguments|)), ToolArgs(i, tool.arguments[tool.emitted..]))
  }

  function WriteMetadata(x: Context, s: State, i: nat): (w: Outcome)
    requires i < |s.tools|
    ensures |w.state.tools| == |s.tools| && w.state == s.(tools := w.state.tools, output := w.state.output)
  {
    if s.tools[i].metadataSent || s.tools[i].id == "" || s.tools[i].name == "" then Outcome(s, true)
    else if !ValidName(s.tools[i].name) then Outcome(s, false)
    else
      var tool := s.tools[i];
      var w := Write(x, SetTool(s, i, tool.(metadataSent := true)), ToolMeta(i, tool.id, tool.name));
      if w.ok then WriteSuffix(x, w.state, i) else w
  }

  /** The arguments after a fragment; a final fragment is the whole and must extend what is there. */
  function Extended(current: Bytes, fragment: Bytes, final: bool): Option<Bytes> {
    if fragment == [] then Some(current)
    else if !final then Some(current + fragment)
    else if current <= fragment then Some(fragment)
    else None
  }

  predicate CompleteJson(x: Context, arguments: Bytes) {
    arguments != [] && x.validJson(arguments)
  }

  function AddArguments(x: Context, s: State, i: nat, fragment: Bytes, final: bool): (w: Outcome)
    requires i < |s.tools|
    ensures |w.state.tools| == |s.tools|
  {
    var tool := s.tools[i];
    if tool.final then Outcome(s, fragment == [] || tool.arguments == fragment)
    else if |fragment| > MAX_ARGUMENT_BYTES || |tool.arguments| > MAX_ARGUMENT_BYTES - |fragment| then Outcome(s, false)
    else match Extended(tool.arguments, fragment, final)
      case None => Outcome(s, false)
      case Some(arguments) => Settle(x, SetTool(s, i, tool.(arguments := arguments)), i, final)
  }

  /** Send what was added and, for final arguments, check them. */
  function Settle(x: Context, s: State, i: nat, final: bool): (w: Outcome)
    requires i < |s.tools|
    ensures |w.state.tools| == |s.tools|
  {
    var sent := if s.tools[i].metadataSent then WriteSuffix(x, s, i) else Outcome(s, true);
    if !sent.ok || !final then sent
    else
      var tool := sent.state.tools[i];
      Outcome(SetTool(sent.state, i, tool.(final := true)), CompleteJson(x, tool.arguments))
  }

  // ----- The terminal response -----

  datatype Call = Call(id: string, name: string, arguments: Bytes)

  datatype Output = Invalid | Output(text: Bytes, calls: seq<Call>)

  function CallOf(x: Context, item: Item): Option<Call>
    requires item.FunctionCall?
  {
    var id := if item.callId != "" then item.callId else item.id;
    if id == "" || !ValidName(item.name) || |item.arguments| > MAX_ARGUMENT_BYTES
       || !CompleteJson(x, item.arguments) then None
    else Some(Call(id, item.name, item.arguments))
  }

  function Appended(target: Bytes, value: Bytes): Option<Bytes> {
    if |value| > MAX_STRING_BYTES || |target| > MAX_STRING_BYTES - |value| then None else Some(target + value)
  }

  function PartsText(parts: seq<Part>, text: Bytes): Option<Bytes>
    decreases |parts|
  {
    if parts == [] then Some(text)
    else if !parts[0].isText || parts[0].annotated || Appended(text, parts[0].text).None? then None
    else PartsText(parts[1..], Appended(text, parts[0].text).value)
  }

  function ItemsOutput(x: Context, items: seq<Item>, text: Bytes, calls: seq<Call>): Output
    decreases |items|
  {
    if items == [] then Output(text, calls)
    else match items[0]
      case Message(role, parts) =>
        if (role != "" && role != "assistant") || PartsText(parts, text).None? then Invalid
        else ItemsOutput(x, items[1..], PartsText(parts, text).value, calls)
      case Reasoning => ItemsOutput(x, items[1..], text, calls)
      case FunctionCall(_, _, _, _) =>
        if CallOf(x, items[0]).None? then Invalid
        else ItemsOutput(x, items[1..], text, calls + [CallOf(x, items[0]).value])
      case OtherItem => Invalid
  }

  predicate BoundedText(x: Context, text: Bytes) {
    |text| <= MAX_STRING_BYTES && x.validText(text)
  }

  function ResponseOutput(x: Context, r: Response): Output {
    match ItemsOutput(x, r.output, [], [])
    case Invalid => Invalid
    case Output(text, calls) =>
      var all := if text == [] && r.outputText != [] then r.outputText else text;
      if BoundedText(x, all) then Output(all, calls) else Invalid
  }

  function ReconcileCall(x: Context, s: State, call: Call): Outcome {
    var found := OutputTool(s, call.id, call.name);
    var w := WriteMetadata(x, found.state, found.index);
    if !w.ok then w else AddArguments(x, w.state, found.index, call.arguments, true)
  }

  function ReconcileCalls(x: Context, s: State, calls: seq<Call>): Outcome
    decreases |calls|
  {
    if calls == [] then Outcome(s, true)
    else
      var first := ReconcileCall(x, s, calls[0]);
      if first.ok then ReconcileCalls(x, first.state, calls[1..]) else first
  }

  function ReconcileResponse(x: Context, s: State, r: Response): Outcome {
    match ResponseOutput(x, r)
    case Invalid => Outcome(s, false)
    case Output(text, calls) =>
      var t := ReconcileText(x, s, text);
      if t.ok then ReconcileCalls(x, t.state, calls) else t
  }

  predicate ToolComplete(x: Context, tool: Tool) {
    tool.id != "" && tool.name != "" && CompleteJson(x, tool.arguments)
  }

  /** Every tool from `i` on must be complete; metadata held back so far goes out. */
  function FinishTools(x: Context, s: State, i: nat): Outcome
    requires i <= |s.tools|
    decreases |s.tools| - i
  {
    if i == |s.tools| then Outcome(s, true)
    else if !ToolComplete(x, s.tools[i]) then Outcome(s, false)
    else
      var w := WriteMetadata(x, s, i);
      if !w.ok then w else FinishTools(x, w.state, i + 1)
  }

  function FinishReason(r: Response, tools: nat): string {
    if r.incomplete == Some("max_output_tokens") then "length"
    else if r.incomplete == Some("content_filter") then "content_filter"
    else if tools > 0 then "tool_calls"
    else "stop"
  }

  function FinishStream(x: Context, s: State, r: Response): Outcome {
    if s.finishSent then Outcome(s, false)
    else
      var t := FinishTools(x, s, 0);
      if !t.ok then t
      else
        var w := Write(x, t.state, Finish(FinishReason(r, |t.state.tools|)));
        if w.ok then Outcome(w.state.(finishSent := true), true) else w
  }

  // ----- Events -----

  /** An operation that failed for the stream's sake marks it as failed. */
  function Guarded(o: Outcome): Outcome {
    if o.ok then o else Outcome(o.state.(failed := true), false)
  }

  function OnText(x: Context, s: State, text: Bytes): Outcome {
    var r := WriteRole(x, s);
    if !r.ok || text == [] then r else Guarded(ReconcileText(x, r.state, text))
  }

  predicate ReadablePart(x: Context, p: Option<Part>) {
    p.Some? && p.value.isText && !p.value.annotated && BoundedText(x, p.value.text)
  }

  function MessageText(x: Context, parts: seq<Part>, text: Bytes): Option<Bytes>
    decreases |parts|
  {
    if parts == [] then Some(text)
    else if !ReadablePart(x, Some(parts[0])) || Appended(text, parts[0].text).None? then None
    else MessageText(x, parts[1..], Appended(text, parts[0].text).value)
  }

  function OnCall(x: Context, s: State, id: string, callId: string, name: string, arguments: Bytes): Outcome {
    var r := WriteRole(x, s);
    if !r.ok then r
    else
      var found := FindTool(r.state, id, callId, name);
      var w := WriteMetadata(x, found.state, found.index);
      if !w.ok || arguments == [] then w
      else Guarded(AddArguments(x, w.state, found.index, arguments, true))
  }

  function OnArguments(x: Context, s: State, itemId: string, fragment: Bytes, final: bool): Outcome {
    var r := WriteRole(x, s);
    if !r.ok then r
    else
      var found := FindTool(r.state, itemId, "", "");
      Guarded(AddArguments(x, found.state, found.index, fragment, final))
  }

  function OnItem(x: Context, s: State, item: Option<Item>): Outcome {
    match item
    case None => Guarded(Outcome(s, false))
    case Some(Message(role, parts)) =>
      if (role != "" && role != "assistant") || MessageText(x, parts, []).None? then Guarded(Outcome(s, false))
      else OnText(x, s, MessageText(x, parts, []).value)
    case Some(Reasoning) => Outcome(s, true)
    case Some(FunctionCall(id, callId, name, arguments)) => OnCall(x, s, id, callId, name, arguments)
    case Some(OtherItem) => Guarded(Outcome(s, false))
  }

  function OnTerminal(x: Context, s: State, response: Option<Response>): Outcome {
    if response.None? then Guarded(Outcome(s, false))
    else
      var r := response.value;
      var output := ResponseOutput(x, r);
      if output.Invalid? || !(s.text <= output.text) || !r.usageOk then Guarded(Outcome(s, false))
      else
        var role := WriteRole(x, s);
        if !role.ok then role
        else
          var t := ReconcileResponse(x, role.state, r);
          if t.ok then Guarded(FinishStream(x, t.state, r)) else Guarded(t)
  }

  function OnKind(x: Context, s: State, e: Event): Outcome {
    match e.kind
    case Quiet => Outcome(s, true)
    case TextDelta(delta, annotated, part) =>
      if annotated || (part.Some? && !ReadablePart(x, part)) then Guarded(Outcome(s, false))
      else
        var r := WriteRole(x, s);
        if !r.ok then r else WriteText(x, r.state, delta)
    case TextDone(text, annotated) => if annotated then Guarded(Outcome(s, false)) else OnText(x, s, text)
    case ContentPart(part) =>
      if !ReadablePart(x, part) then Guarded(Outcome(s, false)) else OnText(x, s, part.value.text)
    case OutputItem(item) => OnItem(x, s, item)
    case ArgsDelta(itemId, delta, arguments) =>
      OnArguments(x, s, itemId, if delta != [] then delta else arguments, false)
    case ArgsDone(itemId, arguments) => OnArguments(x, s, itemId, arguments, true)
    case Terminal(_) => OnTerminal(x, s, e.response)
    case Unknown => Guarded(Outcome(s, false))
  }

  /** The identity is taken from the responses seen before the role goes out. */
  function Identified(s: State, response: Option<Response>): State {
    if response.None? || s.roleSent then s
    else
      var r := response.value.identity;
      s.(identity := Identity(if r.id != "" then r.id else s.identity.id,
                              if r.model != "" then r.model else s.identity.model,
                              if r.created > 0 then r.created else s.identity.created))
  }

  predicate ReportsFailure(e: Event) {
    e.error || (e.kind.Terminal? && e.kind.failure) || (e.response.Some? && e.response.value.failed)
  }

  function OnEvent(x: Context, s: State, e: Event): Outcome {
    if s.failed then Outcome(s, false)
    else
      var seen := Identified(s, e.response);
      if ReportsFailure(e) then Outcome(seen.(failed := true), true) else OnKind(x, seen, e)
  }

  /** The events one after another, up to the first that is not taken. */
  function OnEvents(x: Context, s: State, events: seq<Event>): Outcome
    decreases |events|
  {
    if events == [] then Outcome(s, true)
    else
      var first := OnEvent(x, s, events[0]);
      if first.ok then OnEvents(x, first.state, events[1..]) else first
  }

  function NewState(identity: Identity): State {
    State(identity, false, false, [], [], map[], false, [])
  }
}
