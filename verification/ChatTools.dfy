/** What the events about a tool do to it: which tool they find, when they are taken, and what is there afterwards. */
module ChatTools {
  import opened Bytes
  import opened Chat
  import opened ChatPlaces
  import opened ChatProofs
  import opened ChatResponses
  import opened ChatEvents

  // ----- Finding a tool -----

  /** The place of the tool: known under the item's identifier, else under the call's, else the only one when neither
      is given, else a new one behind all others. */
  function Target(s: State, itemId: string, callId: string): nat {
    if Known(s, itemId, callId) then KnownAt(s, itemId, callId) else |s.tools|
  }

  /** The tool with the labels of this event: a name is taken over, an identifier only when there is none yet. */
  function LabelledTool(s: State, itemId: string, callId: string, name: string): Tool {
    if Known(s, itemId, callId) then
      var t := s.tools[KnownAt(s, itemId, callId)];
      t.(name := if name == "" then t.name else name,
         id := if t.id == "" && Aliased(s, itemId) then (if callId == "" then itemId else callId) else t.id)
    else Tool(if callId == "" then itemId else callId, name, [], 0, false, false)
  }

  /** Both identifiers lead to the tool from now on, every other one where it led before. */
  ghost predicate LeadsTo(s: State, n: State, itemId: string, callId: string, i: nat) {
    forall id: string :: id != "" ==>
      if id == itemId || id == callId then id in n.aliases && n.aliases[id] == i
      else (id in n.aliases <==> id in s.aliases) && (id in s.aliases ==> n.aliases[id] == s.aliases[id])
  }

  /** Only the tool at this place changed, or was added. */
  predicate OnlyAt(s: State, n: State, i: nat, t: Tool) {
    i <= |s.tools| && n.tools == if i < |s.tools| then s.tools[i := t] else s.tools + [t]
  }

  lemma KnownIsFound(s: State, itemId: string, callId: string, name: string)
    requires Known(s, itemId, callId)
    ensures var f, i := FindTool(s, itemId, callId, name), KnownAt(s, itemId, callId);
            && i < |s.tools| && f.index == i && f.state.tools == s.tools[i := LabelledTool(s, itemId, callId, name)]
            && LeadsTo(s, f.state, itemId, callId, i)
  {
  }

  lemma NewIsFound(s: State, itemId: string, callId: string, name: string)
    requires !Known(s, itemId, callId)
    ensures var f := FindTool(s, itemId, callId, name);
            && f.index == |s.tools| && f.state.tools == s.tools + [LabelledTool(s, itemId, callId, name)]
            && LeadsTo(s, f.state, itemId, callId, |s.tools|)
  {
  }

  lemma LookupIsTold(s: State, itemId: string, callId: string, name: string)
    ensures var f, i := FindTool(s, itemId, callId, name), Target(s, itemId, callId);
            && f.index == i && OnlyAt(s, f.state, i, LabelledTool(s, itemId, callId, name))
            && LeadsTo(s, f.state, itemId, callId, i)
            && f.state == s.(tools := f.state.tools, aliases := f.state.aliases)
  {
    if Known(s, itemId, callId) {
      KnownIsFound(s, itemId, callId, name);
    } else {
      NewIsFound(s, itemId, callId, name);
    }
  }

  // ----- Arguments -----

  /** Whether the arguments may be added: to a finished tool only the same again; else within the limit, and final ones
      must extend what is there to a JSON value. */
  predicate FitsOn(x: Context, t: Tool, fragment: Bytes, final: bool) {
    if t.final then fragment == [] || fragment == t.arguments
    else
      var all := if fragment == [] then t.arguments else fragment;
      && |t.arguments| + |fragment| <= 1024 * 1024
      && (final ==> (fragment == [] || t.arguments <= fragment) && all != [] && x.validJson(all))
  }

  /** The tool with the arguments, all of them sent when it was described to the client. */
  function WithArguments(t: Tool, fragment: Bytes, final: bool): Tool {
    var arguments :=
      if t.final || fragment == [] then t.arguments else if final then fragment else t.arguments + fragment;
    t.(arguments := arguments, final := t.final || final, emitted := if t.metadataSent then |arguments| else 0)
  }

  lemma RestOfArguments(x: Context, s: State, i: nat, all: Bytes)
    requires Writable(x) && i < |s.tools| && s.tools[i].emitted <= |all|
    requires s.tools[i].metadataSent || s.tools[i].emitted == 0
    ensures var t := s.tools[i].(arguments := all);
            var grown := s.(tools := s.tools[i := t]);
            var w := if t.metadataSent then WriteSuffix(x, grown, i) else Outcome(grown, true);
            && w.ok
            && w.state == s.(tools := s.tools[i := t.(emitted := if t.metadataSent then |all| else 0)],
                             output := w.state.output)
  {
  }

  lemma AddIsTold(x: Context, s: State, i: nat, fragment: Bytes, final: bool)
    requires Writable(x) && i < |s.tools| && (s.tools[i].metadataSent ==> s.tools[i].emitted == |s.tools[i].arguments|)
    requires !s.tools[i].metadataSent ==> s.tools[i].emitted == 0
    ensures var w := AddArguments(x, s, i, fragment, final);
            && (w.ok <==> FitsOn(x, s.tools[i], fragment, final))
            && (w.ok ==> w.state == s.(tools := s.tools[i := WithArguments(s.tools[i], fragment, final)],
                                       output := w.state.output))
  {
    var t := s.tools[i];
    var extended := Extended(t.arguments, fragment, final);
    if t.final {
      assert s.tools[i := t] == s.tools && WithArguments(t, fragment, final) == t;
    } else if extended.Some? {
      RestOfArguments(x, s, i, extended.value);
    }
  }

  // ----- Events -----

  /** The only tool that changed is the one found, which is now like this. */
  ghost predicate Becomes(s: State, n: State, itemId: string, callId: string, t: Tool) {
    && OnlyAt(s, n, Target(s, itemId, callId), t) && LeadsTo(s, n, itemId, callId, Target(s, itemId, callId))
    && n.text == s.text && n.finishSent == s.finishSent && n.roleSent && n.failed == s.failed
  }

  lemma TargetIsSynced(s: State, itemId: string, callId: string, name: string)
    requires Synced(s)
    ensures SentWhole(LabelledTool(s, itemId, callId, name))
  {
    FindToolIsSilent(s, itemId, callId, name);
    LookupIsTold(s, itemId, callId, name);
    var f := FindTool(s, itemId, callId, name);
    assert ToolLoose(f.state, f.index);
  }

  /** Nothing that may be sent of the tool is held back. */
  predicate SentWhole(t: Tool) {
    t.emitted == if t.metadataSent then |t.arguments| else 0
  }

  /** The states differ at most in what a lookup does not see. */
  predicate SameTools(s: State, r: State) {
    r.tools == s.tools && r.aliases == s.aliases && r.text == s.text && r.finishSent == s.finishSent
    && r.failed == s.failed
  }

  lemma SameLookups(s: State, r: State, n: State, itemId: string, callId: string, name: string, t: Tool)
    requires SameTools(s, r)
    ensures LabelledTool(r, itemId, callId, name) == LabelledTool(s, itemId, callId, name)
    ensures Becomes(r, n, itemId, callId, t) ==> Becomes(s, n, itemId, callId, t)
  {
  }

  /** The state in which the tool was looked up. */
  predicate LookedUp(r: State, m: State, itemId: string, callId: string, i: nat, t: Tool) {
    && r.roleSent && i == Target(r, itemId, callId) && OnlyAt(r, m, i, t)
    && m == r.(tools := m.tools, aliases := m.aliases, output := m.output)
  }

  lemma FoundThenAdded(x: Context, r: State, m: State, itemId: string, callId: string, i: nat, t: Tool, fragment: Bytes,
                       final: bool, w: Outcome)
    requires Writable(x) && LookedUp(r, m, itemId, callId, i, t) && LeadsTo(r, m, itemId, callId, i) && SentWhole(t)
    requires i < |m.tools| && w == AddArguments(x, m, i, fragment, final)
    ensures w.ok <==> FitsOn(x, t, fragment, final)
    ensures w.ok ==> Becomes(r, w.state, itemId, callId, WithArguments(t, fragment, final))
  {
    AddIsTold(x, m, i, fragment, final);
  }

  lemma ArgumentsAreTold(x: Context, s: State, r: State, itemId: string, fragment: Bytes, final: bool)
    requires Writable(x) && SameTools(s, r) && Synced(r) && r.roleSent
    ensures var f, t := FindTool(r, itemId, "", ""), LabelledTool(s, itemId, "", "");
            var w := AddArguments(x, f.state, f.index, fragment, final);
            && (w.ok <==> FitsOn(x, t, fragment, final))
            && (w.ok ==> Becomes(s, w.state, itemId, "", WithArguments(t, fragment, final)))
  {
    LookupIsTold(r, itemId, "", "");
    TargetIsSynced(r, itemId, "", "");
    var f, t := FindTool(r, itemId, "", ""), LabelledTool(r, itemId, "", "");
    var w := AddArguments(x, f.state, f.index, fragment, final);
    FoundThenAdded(x, r, f.state, itemId, "", f.index, t, fragment, final, w);
    SameLookups(s, r, w.state, itemId, "", "", WithArguments(t, fragment, final));
  }

  lemma RoleGoesFirst(x: Context, s: State, e: Event)
    requires Writable(x) && Synced(s)
    ensures var w := WriteRole(x, Identified(s, e.response));
            w.ok && SameTools(s, w.state) && Synced(w.state) && w.state.roleSent
  {
    IdentifiedIsSynced(s, e.response);
    RoleSaysNothing(x, Identified(s, e.response));
  }

  lemma ArgumentsEventIs(x: Context, s: State, e: Event, itemId: string, fragment: Bytes, r: State)
    requires !s.failed && !Failing(e) && (e.kind.ArgsDelta? || e.kind.ArgsDone?) && itemId == e.kind.itemId
    requires fragment == if e.kind.ArgsDelta? && |e.kind.delta| > 0 then e.kind.delta else e.kind.arguments
    requires WriteRole(x, Identified(s, e.response)) == Outcome(r, true)
    ensures var f := FindTool(r, itemId, "", "");
            OnEvent(x, s, e) == Guarded(AddArguments(x, f.state, f.index, fragment, e.kind.ArgsDone?))
  {
  }

  /** A part of a tool's arguments, or all of them, is taken exactly when it fits on the tool that its item identifier
      leads to; then that tool has just these arguments and nothing else changed. */
  lemma ArgumentsEventIsTold(x: Context, s: State, e: Event, itemId: string, fragment: Bytes)
    requires Writable(x) && Synced(s) && !s.failed && !Failing(e) && (e.kind.ArgsDelta? || e.kind.ArgsDone?)
    requires itemId == e.kind.itemId
    requires fragment == if e.kind.ArgsDelta? && |e.kind.delta| > 0 then e.kind.delta else e.kind.arguments
    ensures var w, t := OnEvent(x, s, e), LabelledTool(s, itemId, "", "");
            && (w.ok <==> FitsOn(x, t, fragment, e.kind.ArgsDone?)) && (!w.ok ==> w.state.failed)
            && (w.ok ==> Becomes(s, w.state, itemId, "", WithArguments(t, fragment, e.kind.ArgsDone?)))
  {
    var r := WriteRole(x, Identified(s, e.response)).state;
    RoleGoesFirst(x, s, e);
    ArgumentsEventIs(x, s, e, itemId, fragment, r);
    ArgumentsAreTold(x, s, r, itemId, fragment, e.kind.ArgsDone?);
  }

  /** The tool after its metadata went out, which needs an identifier and a name. */
  function Described(t: Tool): Tool {
    if t.metadataSent || t.id == "" || t.name == "" then t else t.(metadataSent := true, emitted := |t.arguments|)
  }

  predicate Describable(t: Tool) {
    t.metadataSent || t.id == "" || t.name == "" || PlainName(t.name)
  }

  lemma MetadataIsTold(x: Context, s: State, i: nat)
    requires Writable(x) && i < |s.tools| && (!s.tools[i].metadataSent ==> s.tools[i].emitted == 0)
    ensures var w := WriteMetadata(x, s, i);
            && (w.ok <==> Describable(s.tools[i])) && w.state.failed == s.failed
            && (w.ok ==> w.state == s.(tools := s.tools[i := Described(s.tools[i])], output := w.state.output))
  {
    NameIsPlain(s.tools[i].name);
    if Described(s.tools[i]) == s.tools[i] {
      assert s.tools[i := s.tools[i]] == s.tools;
    }
  }

  /** The tool after a call item: described when it can be, with the item's arguments when it has any. */
  function Called(t: Tool, arguments: Bytes): Tool {
    if arguments == [] then Described(t) else WithArguments(Described(t), arguments, true)
  }

  lemma FoundThenCalled(x: Context, r: State, m: State, id: string, callId: string, i: nat, t: Tool, arguments: Bytes,
                        d: Outcome, w: Outcome)
    requires Writable(x) && LookedUp(r, m, id, callId, i, t) && LeadsTo(r, m, id, callId, i) && SentWhole(t)
    requires i < |m.tools| && d == WriteMetadata(x, m, i)
    requires d.ok ==> i < |d.state.tools| && w == AddArguments(x, d.state, i, arguments, true)
    ensures d.ok <==> Describable(t)
    ensures d.ok ==> Becomes(r, d.state, id, callId, Described(t))
    ensures d.ok ==> (w.ok <==> FitsOn(x, t, arguments, true))
    ensures d.ok && w.ok ==> Becomes(r, w.state, id, callId, WithArguments(Described(t), arguments, true))
  {
    MetadataIsTold(x, m, i);
    if d.ok {
      var after := Described(t);
      StillLookedUp(r, m, d.state, id, callId, i, t, after);
      FoundThenAdded(x, r, d.state, id, callId, i, after, arguments, true, w);
    }
  }

  lemma StillLookedUp(r: State, m: State, d: State, id: string, callId: string, i: nat, t: Tool, after: Tool)
    requires LookedUp(r, m, id, callId, i, t) && LeadsTo(r, m, id, callId, i) && i < |m.tools|
    requires d == m.(tools := m.tools[i := after], output := d.output)
    ensures LookedUp(r, d, id, callId, i, after) && LeadsTo(r, d, id, callId, i)
    ensures Becomes(r, d, id, callId, after)
  {
  }

  lemma CallIsTold(x: Context, s: State, r: State, id: string, callId: string, name: string, arguments: Bytes)
    requires Writable(x) && SameTools(s, r) && Synced(r) && r.roleSent && !s.failed
    ensures var f, t := FindTool(r, id, callId, name), LabelledTool(s, id, callId, name);
            var d := WriteMetadata(x, f.state, f.index);
            var w := if !d.ok || arguments == [] then d
                     else Guarded(AddArguments(x, d.state, f.index, arguments, true));
            && (w.ok <==> Describable(t) && (arguments == [] || FitsOn(x, t, arguments, true)))
            && (!w.ok ==> (w.state.failed <==> Describable(t)))
            && (w.ok ==> Becomes(s, w.state, id, callId, Called(t, arguments)))
  {
    LookupIsTold(r, id, callId, name);
    TargetIsSynced(r, id, callId, name);
    var f, t := FindTool(r, id, callId, name), LabelledTool(r, id, callId, name);
    var d := WriteMetadata(x, f.state, f.index);
    MetadataIsTold(x, f.state, f.index);
    var w := if d.ok then AddArguments(x, d.state, f.index, arguments, true) else d;
    FoundThenCalled(x, r, f.state, id, callId, f.index, t, arguments, d, w);
    SameLookups(s, r, d.state, id, callId, name, Described(t));
    SameLookups(s, r, w.state, id, callId, name, WithArguments(Described(t), arguments, true));
  }

  lemma CallEventIs(x: Context, s: State, e: Event, id: string, callId: string, name: string, arguments: Bytes,
                    r: State)
    requires !s.failed && !Failing(e) && e.kind == OutputItem(Some(FunctionCall(id, callId, name, arguments)))
    requires WriteRole(x, Identified(s, e.response)) == Outcome(r, true)
    ensures var f := FindTool(r, id, callId, name);
            var d := WriteMetadata(x, f.state, f.index);
            OnEvent(x, s, e) == if !d.ok || arguments == [] then d
                                else Guarded(AddArguments(x, d.state, f.index, arguments, true))
  {
  }

  /** A call item is taken exactly when its tool can be described and its arguments, if any, fit; then the tool that
      its identifiers lead to is described and has these arguments, and nothing else changed. */
  lemma CallEventIsTold(x: Context, s: State, e: Event, id: string, callId: string, name: string, arguments: Bytes)
    requires Writable(x) && Synced(s) && !s.failed && !Failing(e)
    requires e.kind == OutputItem(Some(FunctionCall(id, callId, name, arguments)))
    ensures var w, t := OnEvent(x, s, e), LabelledTool(s, id, callId, name);
            && (w.ok <==> Describable(t) && (arguments == [] || FitsOn(x, t, arguments, true)))
            && (!w.ok ==> (w.state.failed <==> Describable(t)))
            && (w.ok ==> Becomes(s, w.state, id, callId, Called(t, arguments)))
  {
    var r := WriteRole(x, Identified(s, e.response)).state;
    RoleGoesFirst(x, s, e);
    CallEventIs(x, s, e, id, callId, name, arguments, r);
    CallIsTold(x, s, r, id, callId, name, arguments);
  }
}
