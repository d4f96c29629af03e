/** What the chat chunks say is what upstream said: invariants of the translator over every event sequence. */
module ChatProofs {
  import opened Bytes
  import opened Chat
  import opened ChatPlaces

  // ----- What the chunks carry -----

  /** The content deltas joined. */
  function ContentOf(output: seq<Chunk>): Bytes {
    if output == [] then []
    else
      var last := output[|output| - 1].delta;
      ContentOf(output[..|output| - 1]) + (if last.Content? then last.text else [])
  }

  predicate Concerns(d: Delta, i: nat) {
    (d.ToolMeta? || d.ToolArgs?) && d.index == i
  }

  /** The deltas about one tool, in order. */
  function ToolDeltas(output: seq<Chunk>, i: nat): seq<Delta> {
    if output == [] then []
    else
      var last := output[|output| - 1].delta;
      ToolDeltas(output[..|output| - 1], i) + (if Concerns(last, i) then [last] else [])
  }

  function FragmentsOf(deltas: seq<Delta>): Bytes {
    if deltas == [] then []
    else
      var last := deltas[|deltas| - 1];
      FragmentsOf(deltas[..|deltas| - 1]) + (if last.ToolArgs? then last.fragment else [])
  }

  /** The metadata comes once, before every fragment, with an identifier and a valid name. */
  predicate MetadataFirst(deltas: seq<Delta>) {
    deltas == [] || (deltas[0].ToolMeta? && deltas[0].id != "" && ValidName(deltas[0].name)
                     && forall j :: 0 < j < |deltas| ==> deltas[j].ToolArgs?)
  }

  /** The name in the metadata chunk of tool `i`, if it was sent. */
  function NameSent(output: seq<Chunk>, i: nat): string {
    var deltas := ToolDeltas(output, i);
    if deltas != [] && deltas[0].ToolMeta? then deltas[0].name else ""
  }

  /** The role comes first and once. */
  predicate RoleFirst(output: seq<Chunk>) {
    output == [] || (output[0].delta.Role? && forall j :: 0 < j < |output| ==> !output[j].delta.Role?)
  }

  predicate OneIdentity(output: seq<Chunk>, identity: Identity) {
    forall j :: 0 <= j < |output| ==> output[j].identity == identity
  }

  predicate FinishOnce(output: seq<Chunk>, sent: bool) {
    forall j :: 0 <= j < |output| && output[j].delta.Finish? ==>
      sent && forall k :: 0 <= k < |output| && output[k].delta.Finish? ==> k == j
  }

  predicate Base(s: State) {
    RoleFirst(s.output) && OneIdentity(s.output, s.identity) && FinishOnce(s.output, s.finishSent)
    && ContentOf(s.output) == s.text
  }

  /** What always holds of one tool: metadata first, and the fragments are a first part of its arguments. */
  predicate ToolOut(s: State, i: nat) {
    var deltas := ToolDeltas(s.output, i);
    if i < |s.tools| then MetadataFirst(deltas) && FragmentsOf(deltas) <= s.tools[i].arguments else deltas == []
  }

  /** What holds of the output after any events, failed ones included. */
  ghost predicate Faithful(s: State) {
    Base(s) && forall i: nat :: ToolOut(s, i)
  }

  /** The bookkeeping of a tool agrees with what was sent for it. */
  predicate ToolKept(deltas: seq<Delta>, t: Tool) {
    if t.metadataSent then
      && MetadataFirst(deltas) && deltas != [] && deltas[0].id == t.id && t.emitted <= |t.arguments|
      && FragmentsOf(deltas) == t.arguments[..t.emitted]
    else deltas == [] && t.emitted == 0
  }

  predicate ToolLoose(s: State, i: nat) {
    var deltas := ToolDeltas(s.output, i);
    if i >= |s.tools| then deltas == [] else ToolKept(deltas, s.tools[i])
  }

  predicate AliasesKept(s: State) {
    AliasesHold(s.tools, s.aliases)
  }

  ghost predicate Loose(s: State) {
    Base(s) && AliasesKept(s) && (s.roleSent <==> s.output != []) && forall i: nat :: ToolLoose(s, i)
  }

  predicate AllSent(s: State) {
    forall i :: 0 <= i < |s.tools| && s.tools[i].metadataSent ==> s.tools[i].emitted == |s.tools[i].arguments|
  }

  /** What holds after every event that was taken: nothing that may be sent is held back. */
  ghost predicate Synced(s: State) {
    Loose(s) && AllSent(s)
  }

  /** Finished arguments never change. */
  predicate FinalKept(s: State, n: State) {
    && |s.tools| <= |n.tools|
    && forall i :: 0 <= i < |s.tools| && s.tools[i].final ==>
         n.tools[i].final && n.tools[i].arguments == s.tools[i].arguments
  }

  /** The result of an operation: faithful in any case, in step when it went well. */
  ghost predicate Good(s: State, o: Outcome) {
    Faithful(o.state) && FinalKept(s, o.state) && (s.roleSent ==> o.state.roleSent) && (o.ok ==> Synced(o.state))
  }

  lemma LooseIsFaithful(s: State)
    requires Loose(s)
    ensures Faithful(s)
  {
    forall i: nat
      ensures ToolOut(s, i)
    {
      assert ToolLoose(s, i);
      assert FragmentsOf([]) == [];
    }
  }

  // ----- One more chunk -----

  lemma ContentAppend(output: seq<Chunk>, c: Chunk)
    ensures ContentOf(output + [c]) == ContentOf(output) + (if c.delta.Content? then c.delta.text else [])
  {
    assert (output + [c])[..|output|] == output;
  }

  lemma DeltasAppend(output: seq<Chunk>, c: Chunk, i: nat)
    ensures ToolDeltas(output + [c], i) == ToolDeltas(output, i) + (if Concerns(c.delta, i) then [c.delta] else [])
  {
    assert (output + [c])[..|output|] == output;
  }

  lemma {:induction false} DeltasConcern(output: seq<Chunk>, i: nat, k: nat)
    requires k < |ToolDeltas(output, i)|
    ensures Concerns(ToolDeltas(output, i)[k], i)
    decreases |output|
  {
    if k < |ToolDeltas(output[..|output| - 1], i)| {
      DeltasConcern(output[..|output| - 1], i, k);
    }
  }

  lemma FragmentsAppend(deltas: seq<Delta>, d: Delta)
    ensures FragmentsOf(deltas + [d]) == FragmentsOf(deltas) + (if d.ToolArgs? then d.fragment else [])
  {
    assert (deltas + [d])[..|deltas|] == deltas;
  }

  lemma MetadataFirstAppend(deltas: seq<Delta>, i: nat, fragment: Bytes)
    requires MetadataFirst(deltas) && deltas != []
    ensures MetadataFirst(deltas + [ToolArgs(i, fragment)])
  {
  }

  /** A chunk that is about no tool, after the role or as the role. */
  lemma PlainChunk(s: State, delta: Delta)
    requires Loose(s) && (if delta.Role? then !s.roleSent else s.roleSent)
    requires delta.Role? || delta.Content? || (delta.Finish? && !s.finishSent)
    ensures Loose(s.(output := s.output + [Chunk(s.identity, delta)], roleSent := true,
                     text := if delta.Content? then s.text + delta.text else s.text,
                     finishSent := s.finishSent || delta.Finish?))
  {
    var chunk := Chunk(s.identity, delta);
    ContentAppend(s.output, chunk);
    forall i: nat
      ensures ToolDeltas(s.output + [chunk], i) == ToolDeltas(s.output, i)
    {
      DeltasAppend(s.output, chunk, i);
    }
    assert s.text + [] == s.text;
    var n := s.(output := s.output + [chunk], roleSent := true,
                text := if delta.Content? then s.text + delta.text else s.text,
                finishSent := s.finishSent || delta.Finish?);
    forall i: nat
      ensures ToolLoose(n, i)
    {
      assert ToolLoose(s, i);
    }
  }

  lemma BaseOfToolChunk(s: State, delta: Delta)
    requires Base(s) && s.output != [] && (delta.ToolMeta? || delta.ToolArgs?)
    ensures Base(s.(output := s.output + [Chunk(s.identity, delta)]))
  {
    ContentAppend(s.output, Chunk(s.identity, delta));
    assert s.text + [] == s.text;
  }

  // ----- Role and text -----

  lemma RoleIsGood(x: Context, s: State)
    requires Synced(s)
    ensures Good(s, WriteRole(x, s)) && WriteRole(x, s).state.roleSent && WriteRole(x, s).state.text == s.text
  {
    LooseIsFaithful(s);
    if !s.roleSent {
      PlainChunk(s, Role);
      var w := WriteRole(x, s);
      if w.ok {
        LooseIsFaithful(w.state);
      } else {
        assert forall i: nat :: ToolOut(s, i) ==> ToolOut(w.state, i);
      }
    }
  }

  lemma TextIsGood(x: Context, s: State, text: Bytes)
    requires Synced(s) && s.roleSent
    ensures Good(s, WriteText(x, s, text))
    ensures WriteText(x, s, text).ok ==> WriteText(x, s, text).state.text == s.text + text
  {
    LooseIsFaithful(s);
    assert s.text + [] == s.text;
    var w := WriteText(x, s, text);
    if w.ok && text != [] {
      PlainChunk(s, Content(text));
      LooseIsFaithful(w.state);
    }
  }

  lemma ReconcileTextIsGood(x: Context, s: State, text: Bytes)
    requires Synced(s) && s.roleSent
    ensures Good(s, ReconcileText(x, s, text))
    ensures ReconcileText(x, s, text).ok ==> ReconcileText(x, s, text).state.text == text
  {
    LooseIsFaithful(s);
    if s.text <= text {
      TextIsGood(x, s, text[|s.text|..]);
      assert s.text + text[|s.text|..] == text;
    }
  }

  // ----- Tools -----

  /** A change that sends nothing: bookkeeping and identifiers of what was sent stay, arguments only grow. */
  ghost predicate Silent(s: State, n: State) {
    && n == s.(tools := n.tools, aliases := n.aliases)
    && |s.tools| <= |n.tools|
    && (forall i :: 0 <= i < |s.tools| ==>
          && n.tools[i].emitted == s.tools[i].emitted && n.tools[i].metadataSent == s.tools[i].metadataSent
          && (s.tools[i].metadataSent ==> n.tools[i].id == s.tools[i].id)
          && s.tools[i].arguments <= n.tools[i].arguments)
    && (forall i :: |s.tools| <= i < |n.tools| ==> n.tools[i].emitted == 0 && !n.tools[i].metadataSent)
  }

  lemma SilentIsLoose(s: State, n: State)
    requires Loose(s) && Silent(s, n) && AliasesKept(n)
    ensures Loose(n)
  {
    forall i: nat
      ensures ToolLoose(n, i)
    {
      assert ToolLoose(s, i);
    }
  }

  /** Between two operations, what was not sent yet may change in silence. */
  lemma SilentIsSynced(s: State, n: State)
    requires Synced(s) && Silent(s, n) && AliasesKept(n) && FinalKept(s, n)
    requires forall i :: 0 <= i < |s.tools| && s.tools[i].metadataSent ==> n.tools[i].arguments == s.tools[i].arguments
    ensures Synced(n)
  {
    SilentIsLoose(s, n);
  }

  lemma SentHasId(s: State, i: nat)
    requires Loose(s) && i < |s.tools| && s.tools[i].metadataSent
    ensures s.tools[i].id != ""
  {
    assert ToolLoose(s, i);
  }

  /** The tool but for its name, and for its identifier while it has none. */
  predicate Relabelled(t: Tool, n: Tool) {
    n == t.(name := n.name, id := n.id) && (t.id != "" ==> n.id == t.id)
  }

  lemma RelabelIsSilent(s: State, n: State, i: nat)
    requires Synced(s) && i < |s.tools| && |n.tools| == |s.tools| && AliasesKept(n)
    requires Relabelled(s.tools[i], n.tools[i]) && n == s.(tools := s.tools[i := n.tools[i]], aliases := n.aliases)
    ensures Silent(s, n) && Synced(n) && FinalKept(s, n)
  {
    if s.tools[i].metadataSent {
      SentHasId(s, i);
    }
    SilentIsSynced(s, n);
  }

  lemma NewToolIsSilent(s: State, n: State, id: string, name: string)
    requires Synced(s) && AliasesKept(n)
    requires n == s.(tools := s.tools + [Tool(id, name, [], 0, false, false)], aliases := n.aliases)
    ensures Silent(s, n) && Synced(n) && FinalKept(s, n)
  {
    SilentIsSynced(s, n);
  }

  predicate Known(s: State, itemId: string, callId: string) {
    Aliased(s, itemId) || Aliased(s, callId) || (itemId == "" && callId == "" && |s.tools| == 1)
  }

  /** Where a known tool is found. */
  function KnownAt(s: State, itemId: string, callId: string): nat
    requires Known(s, itemId, callId)
  {
    if Aliased(s, itemId) then s.aliases[itemId] else if Aliased(s, callId) then s.aliases[callId] else 0
  }

  lemma FindKnown(s: State, itemId: string, callId: string, name: string)
    requires AliasesKept(s) && Known(s, itemId, callId)
    ensures var f, i := FindTool(s, itemId, callId, name), KnownAt(s, itemId, callId);
            && f.index == i < |s.tools| == |f.state.tools| && AliasesKept(f.state)
            && Relabelled(s.tools[i], f.state.tools[i])
            && f.state == s.(tools := s.tools[i := f.state.tools[i]], aliases := f.state.aliases)
  {
    var i := KnownAt(s, itemId, callId);
    var tool := FindTool(s, itemId, callId, name).state.tools[i];
    assert s.tools[i := tool][i] == tool;
  }

  lemma FindNew(s: State, itemId: string, callId: string, name: string)
    requires AliasesKept(s) && !Known(s, itemId, callId)
    ensures var f := FindTool(s, itemId, callId, name);
            && AliasesKept(f.state)
            && f.state == s.(tools := s.tools
                                      + [Tool(if callId != "" then callId else itemId, name, [], 0, false, false)],
                             aliases := f.state.aliases)
  {
  }

  lemma FindToolIsSilent(s: State, itemId: string, callId: string, name: string)
    requires Synced(s)
    ensures var f := FindTool(s, itemId, callId, name);
            && Silent(s, f.state) && Synced(f.state) && FinalKept(s, f.state)
  {
    var f := FindTool(s, itemId, callId, name);
    if Known(s, itemId, callId) {
      FindKnown(s, itemId, callId, name);
      RelabelIsSilent(s, f.state, f.index);
    } else {
      FindNew(s, itemId, callId, name);
      NewToolIsSilent(s, f.state, if callId != "" then callId else itemId, name);
    }
  }

  lemma OutputToolIsSilent(s: State, id: string, name: string)
    requires Synced(s)
    ensures var f := OutputTool(s, id, name);
            && Silent(s, f.state) && Synced(f.state) && FinalKept(s, f.state)
  {
    FindToolIsSilent(s, id, id, name);
  }

  /** Only tool `i` may have arguments that were not sent. */
  predicate SentBut(s: State, i: nat) {
    forall j :: 0 <= j < |s.tools| && s.tools[j].metadataSent && j != i ==> s.tools[j].emitted == |s.tools[j].arguments|
  }

  lemma UnsentSuffix(s: State, i: nat)
    requires i < |s.tools| && Loose(s) && SentBut(s, i) && s.tools[i].emitted >= |s.tools[i].arguments|
    ensures Synced(s)
  {
    assert ToolLoose(s, i);
  }

  lemma SentSuffix(x: Context, s: State, i: nat)
    requires i < |s.tools| && Loose(s) && SentBut(s, i) && s.tools[i].metadataSent
    requires s.tools[i].emitted < |s.tools[i].arguments| && WriteSuffix(x, s, i).ok
    ensures Synced(WriteSuffix(x, s, i).state)
  {
    var t := s.tools[i];
    var fragment := t.arguments[t.emitted..];
    assert ToolLoose(s, i);
    assert t.arguments[..t.emitted] + fragment == t.arguments;
    BaseOfToolChunk(s, ToolArgs(i, fragment));
    ToolsAfterArgs(s, WriteSuffix(x, s, i).state, i, t, fragment);
  }

  lemma RefusedSuffix(x: Context, s: State, i: nat)
    requires i < |s.tools| && Faithful(s) && !WriteSuffix(x, s, i).ok
    ensures Faithful(WriteSuffix(x, s, i).state)
  {
    assert forall j: nat :: ToolOut(s, j) ==> ToolOut(WriteSuffix(x, s, i).state, j);
  }

  lemma SuffixIsGood(x: Context, s: State, i: nat)
    requires i < |s.tools| && Loose(s) && SentBut(s, i) && s.tools[i].metadataSent
    ensures Good(s, WriteSuffix(x, s, i)) && AllSameBut(s, WriteSuffix(x, s, i).state)
  {
    SuffixCases(x, s, i, WriteSuffix(x, s, i));
  }

  lemma SuffixCases(x: Context, s: State, i: nat, w: Outcome)
    requires i < |s.tools| && Loose(s) && SentBut(s, i) && s.tools[i].metadataSent && w == WriteSuffix(x, s, i)
    ensures Good(s, w)
  {
    LooseIsFaithful(s);
    if s.tools[i].emitted >= |s.tools[i].arguments| {
      UnsentSuffix(s, i);
    } else if w.ok {
      SentSuffix(x, s, i);
      LooseIsFaithful(w.state);
    } else {
      RefusedSuffix(x, s, i);
    }
  }

  /** What writing never touches. */
  predicate SameBut(t: Tool, n: Tool) {
    n.id == t.id && n.name == t.name && n.arguments == t.arguments && n.final == t.final
    && (t.metadataSent ==> n.metadataSent)
  }

  predicate AllSameBut(s: State, n: State) {
    |n.tools| == |s.tools| && forall j :: 0 <= j < |s.tools| ==> SameBut(s.tools[j], n.tools[j])
  }

  /** A chunk about tool `i` leaves every other tool's record as it was. */
  lemma OtherTool(s: State, n: State, delta: Delta, i: nat, j: nat)
    requires n.output == s.output + [Chunk(s.identity, delta)] && !Concerns(delta, j)
    requires |n.tools| == |s.tools| && (j < |s.tools| ==> n.tools[j] == s.tools[j])
    requires ToolLoose(s, j)
    ensures ToolLoose(n, j)
  {
    DeltasAppend(s.output, Chunk(s.identity, delta), j);
    assert ToolDeltas(s.output, j) + [] == ToolDeltas(s.output, j);
  }

  lemma ArgsKept(deltas: seq<Delta>, t: Tool, i: nat, fragment: Bytes)
    requires ToolKept(deltas, t) && t.metadataSent
    requires t.arguments[..t.emitted] + fragment == t.arguments
    ensures ToolKept(deltas + [ToolArgs(i, fragment)], t.(emitted := |t.arguments|))
  {
    FragmentsAppend(deltas, ToolArgs(i, fragment));
    MetadataFirstAppend(deltas, i, fragment);
    assert t.arguments[..|t.arguments|] == t.arguments;
  }

  lemma MetaKept(t: Tool, i: nat)
    requires !t.metadataSent && t.emitted == 0 && t.id != "" && ValidName(t.name)
    ensures ToolKept([ToolMeta(i, t.id, t.name)], t.(metadataSent := true))
  {
    var meta := ToolMeta(i, t.id, t.name);
    FragmentsAppend([], meta);
    assert [] + [meta] == [meta];
  }

  /** The record of every tool after a chunk about tool `i` whose own record is kept. */
  lemma ToolsAfter(s: State, n: State, delta: Delta, i: nat, t: Tool)
    requires i < |s.tools| && Loose(s) && (delta.ToolMeta? || delta.ToolArgs?) && delta.index == i
    requires n.tools == s.tools[i := t] && n.output == s.output + [Chunk(s.identity, delta)]
    requires ToolKept(ToolDeltas(s.output, i) + [delta], t)
    ensures forall j: nat :: ToolLoose(n, j)
  {
    forall j: nat
      ensures ToolLoose(n, j)
    {
      assert ToolLoose(s, j);
      if j == i {
        DeltasAppend(s.output, Chunk(s.identity, delta), i);
      } else {
        OtherTool(s, n, delta, i, j);
      }
    }
  }

  lemma ToolsAfterArgs(s: State, n: State, i: nat, t: Tool, fragment: Bytes)
    requires i < |s.tools| && t == s.tools[i] && Loose(s) && t.metadataSent && t.emitted <= |t.arguments|
    requires t.arguments[..t.emitted] + fragment == t.arguments
    requires n == s.(tools := s.tools[i := t.(emitted := |t.arguments|)],
                     output := s.output + [Chunk(s.identity, ToolArgs(i, fragment))])
    ensures forall j: nat :: ToolLoose(n, j)
  {
    assert ToolLoose(s, i);
    ArgsKept(ToolDeltas(s.output, i), t, i, fragment);
    ToolsAfter(s, n, ToolArgs(i, fragment), i, t.(emitted := |t.arguments|));
  }

  lemma ToolsAfterMeta(s: State, n: State, i: nat, t: Tool)
    requires i < |s.tools| && t == s.tools[i] && Loose(s) && !t.metadataSent && t.id != "" && ValidName(t.name)
    requires n == s.(tools := s.tools[i := t.(metadataSent := true)],
                     output := s.output + [Chunk(s.identity, ToolMeta(i, t.id, t.name))])
    ensures forall j: nat :: ToolLoose(n, j)
  {
    assert ToolLoose(s, i);
    var meta := ToolMeta(i, t.id, t.name);
    MetaKept(t, i);
    assert ToolDeltas(s.output, i) + [meta] == [meta];
    ToolsAfter(s, n, meta, i, t.(metadataSent := true));
  }

  lemma MetaIsLoose(x: Context, s: State, i: nat)
    requires i < |s.tools| && Synced(s) && s.roleSent
    requires !s.tools[i].metadataSent && s.tools[i].id != "" && ValidName(s.tools[i].name)
    ensures var t := s.tools[i];
            var w := Write(x, SetTool(s, i, t.(metadataSent := true)), ToolMeta(i, t.id, t.name));
            Faithful(w.state) && (w.ok ==> Loose(w.state) && SentBut(w.state, i))
  {
    LooseIsFaithful(s);
    var t := s.tools[i];
    var w := Write(x, SetTool(s, i, t.(metadataSent := true)), ToolMeta(i, t.id, t.name));
    if w.ok {
      BaseOfToolChunk(s, ToolMeta(i, t.id, t.name));
      ToolsAfterMeta(s, w.state, i, t);
      LooseIsFaithful(w.state);
    } else {
      assert forall j: nat :: ToolOut(s, j) ==> ToolOut(w.state, j);
    }
  }

  lemma MetaThenSuffix(x: Context, s: State, i: nat)
    requires i < |s.tools| && Synced(s) && s.roleSent
    requires !s.tools[i].metadataSent && s.tools[i].id != "" && ValidName(s.tools[i].name)
    ensures var w := WriteMetadata(x, s, i);
            Good(s, w) && AllSameBut(s, w.state) && (w.ok ==> w.state.tools[i].metadataSent) && w.state.text == s.text
  {
    MetaIsLoose(x, s, i);
    var t := s.tools[i];
    var w := Write(x, SetTool(s, i, t.(metadataSent := true)), ToolMeta(i, t.id, t.name));
    if w.ok {
      SuffixIsGood(x, w.state, i);
    }
  }

  lemma MetadataIsGood(x: Context, s: State, i: nat)
    requires i < |s.tools| && Synced(s) && s.roleSent
    ensures var w := WriteMetadata(x, s, i);
            && Good(s, w) && AllSameBut(s, w.state) && w.state.text == s.text
            && (w.ok && s.tools[i].id != "" && s.tools[i].name != "" ==> w.state.tools[i].metadataSent)
  {
    LooseIsFaithful(s);
    var t := s.tools[i];
    if !t.metadataSent && t.id != "" && t.name != "" && ValidName(t.name) {
      MetaThenSuffix(x, s, i);
    }
  }

  /** Final arguments that were taken are there in full, valid and finished. */
  lemma ArgumentsAreGood(x: Context, s: State, i: nat, fragment: Bytes, final: bool)
    requires i < |s.tools| && Synced(s) && s.roleSent
    ensures var w := AddArguments(x, s, i, fragment, final);
            && Good(s, w) && w.state.text == s.text
            && (w.ok && final && fragment != [] ==> w.state.tools[i].final && w.state.tools[i].arguments == fragment)
  {
    LooseIsFaithful(s);
    var t := s.tools[i];
    var extended := Extended(t.arguments, fragment, final);
    if !t.final && extended.Some? {
      var grown := SetTool(s, i, t.(arguments := extended.value));
      assert Silent(s, grown);
      SilentIsLoose(s, grown);
      SettleIsGood(x, grown, i, final);
    }
  }

  lemma SettleIsGood(x: Context, s: State, i: nat, final: bool)
    requires i < |s.tools| && Loose(s) && SentBut(s, i) && !s.tools[i].final && s.roleSent
    ensures var w := Settle(x, s, i, final);
            && Good(s, w) && w.state.text == s.text && w.state.tools[i].arguments == s.tools[i].arguments
            && (w.ok && final ==> w.state.tools[i].final)
  {
    LooseIsFaithful(s);
    if s.tools[i].metadataSent {
      SuffixIsGood(x, s, i);
    }
    var sent := if s.tools[i].metadataSent then WriteSuffix(x, s, i) else Outcome(s, true);
    if sent.ok && final {
      var n := SetTool(sent.state, i, sent.state.tools[i].(final := true));
      assert Silent(sent.state, n);
      SilentIsLoose(sent.state, n);
      LooseIsFaithful(n);
    }
  }

  // ----- The terminal response -----

  /** Tool `i` is finished with exactly the call's arguments. */
  predicate Answered(s: State, call: Call, i: nat) {
    i < |s.tools| && s.tools[i].final && s.tools[i].arguments == call.arguments
  }

  /** Every call is answered by the tool at its place. */
  predicate AllAnswered(s: State, calls: seq<Call>, places: seq<nat>) {
    |places| == |calls| && forall i :: 0 <= i < |calls| ==> Answered(s, calls[i], places[i])
  }

  lemma CallIsGood(x: Context, s: State, call: Call)
    requires Synced(s) && s.roleSent && call.arguments != []
    ensures var w := ReconcileCall(x, s, call);
            && Good(s, w) && w.state.text == s.text
            && (w.ok ==> Answered(w.state, call, OutputTool(s, call.id, call.name).index))
  {
    var f := OutputTool(s, call.id, call.name);
    OutputToolIsSilent(s, call.id, call.name);
    MetadataIsGood(x, f.state, f.index);
    var m := WriteMetadata(x, f.state, f.index);
    if m.ok {
      ArgumentsAreGood(x, m.state, f.index, call.arguments, true);
      var w := AddArguments(x, m.state, f.index, call.arguments, true);
      if w.ok {
        assert w.state.tools[f.index].final;
      }
    }
  }

  /** What reading the response guarantees of its calls. */
  predicate Proper(calls: seq<Call>) {
    forall i :: 0 <= i < |calls| ==> calls[i].id != "" && calls[i].name != "" && calls[i].arguments != []
  }

  /** The calls, from a state that the book tells from earlier tools and aliases. */
  lemma {:induction false} CallsAreGood(x: Context, s: State, calls: seq<Call>, tools: seq<Tool>,
                                        aliases: map<string, nat>, b: Book)
    requires Synced(s) && s.roleSent && Proper(calls) && Tracks(tools, aliases, b, s)
    ensures var w := ReconcileCalls(x, s, calls);
            && Good(s, w) && w.state.text == s.text
            && (w.ok ==> AllAnswered(w.state, calls, Places(tools, aliases, b, calls)))
    decreases |calls|
  {
    LooseIsFaithful(s);
    if calls != [] {
      var call, rest := calls[0], calls[1..];
      CallIsGood(x, s, call);
      var first := ReconcileCall(x, s, call);
      if first.ok {
        CallFinishes(x, s, call);
        StepTracks(tools, aliases, b, s, call, first.state);
        var c := Booked(tools, aliases, b, call);
        CallsAreGood(x, first.state, rest, tools, aliases, c);
        FirstAnswered(s, first.state, ReconcileCalls(x, first.state, rest), calls, rest, Place(tools, aliases, b, call),
                      Places(tools, aliases, c, rest));
      }
    }
  }

  lemma FirstAnswered(s: State, m: State, w: Outcome, calls: seq<Call>, rest: seq<Call>, i: nat, places: seq<nat>)
    requires calls != [] && rest == calls[1..] && Answered(m, calls[0], i) && FinalKept(s, m)
             && (s.roleSent ==> m.roleSent)
    requires Good(m, w) && (w.ok ==> AllAnswered(w.state, rest, places))
    ensures Good(s, w) && (w.ok ==> AllAnswered(w.state, calls, [i] + places))
  {
    assert forall k :: 0 < k < |calls| ==> calls[k] == rest[k - 1];
  }

  /** Every tool before `i` is complete and its metadata is out. */
  predicate CompleteTo(x: Context, s: State, i: nat) {
    forall j :: 0 <= j < i && j < |s.tools| ==> ToolComplete(x, s.tools[j]) && s.tools[j].metadataSent
  }

  lemma CompleteNext(x: Context, s: State, n: State, i: nat)
    requires i < |s.tools| && CompleteTo(x, s, i) && ToolComplete(x, s.tools[i])
    requires AllSameBut(s, n) && n.tools[i].metadataSent
    ensures CompleteTo(x, n, i + 1)
  {
  }

  lemma FinishStep(x: Context, s: State, i: nat)
    requires i < |s.tools| && Synced(s) && s.roleSent && CompleteTo(x, s, i) && ToolComplete(x, s.tools[i])
    ensures var w := WriteMetadata(x, s, i);
            Good(s, w) && w.state.roleSent && (w.ok ==> CompleteTo(x, w.state, i + 1))
  {
    MetadataIsGood(x, s, i);
    var w := WriteMetadata(x, s, i);
    if w.ok {
      CompleteNext(x, s, w.state, i);
    }
  }

  lemma {:induction false} FinishToolsIsGood(x: Context, s: State, i: nat)
    requires i <= |s.tools| && Synced(s) && s.roleSent && CompleteTo(x, s, i)
    ensures var w := FinishTools(x, s, i);
            && Good(s, w) && w.state.text == s.text && w.state.finishSent == s.finishSent
            && (w.ok ==> CompleteTo(x, w.state, |w.state.tools|))
    decreases |s.tools| - i
  {
    if i < |s.tools| && ToolComplete(x, s.tools[i]) {
      FinishStep(x, s, i);
      var m := WriteMetadata(x, s, i);
      if m.ok {
        FinishToolsIsGood(x, m.state, i + 1);
        GoodAfter(s, m.state, FinishTools(x, m.state, i + 1));
      }
    } else {
      LooseIsFaithful(s);
    }
  }

  /** The stream is over: the finish reason was sent last, and every tool is complete and sent in full. */
  ghost predicate Over(x: Context, s: State, r: Response) {
    && Synced(s) && s.finishSent && CompleteTo(x, s, |s.tools|)
    && s.output != [] && s.output[|s.output| - 1].delta == Finish(FinishReason(r, |s.tools|))
  }

  lemma FinishIsGood(x: Context, s: State, r: Response)
    requires Synced(s) && s.roleSent
    ensures var w := FinishStream(x, s, r);
            Good(s, w) && w.state.text == s.text && (w.ok ==> Over(x, w.state, r))
  {
    LooseIsFaithful(s);
    if !s.finishSent {
      FinishToolsIsGood(x, s, 0);
      var t := FinishTools(x, s, 0);
      if t.ok {
        PlainChunk(t.state, Finish(FinishReason(r, |t.state.tools|)));
        var w := FinishStream(x, s, r);
        if w.ok {
          LooseIsFaithful(w.state);
        }
      }
    }
  }

  lemma {:induction false} CallsAreProper(x: Context, items: seq<Item>, text: Bytes, calls: seq<Call>)
    requires Proper(calls)
    ensures ItemsOutput(x, items, text, calls).Output? ==> Proper(ItemsOutput(x, items, text, calls).calls)
    decreases |items|
  {
    if items != [] {
      match items[0]
      case Message(_, parts) =>
        if PartsText(parts, text).Some? {
          CallsAreProper(x, items[1..], PartsText(parts, text).value, calls);
        }
      case Reasoning =>
        CallsAreProper(x, items[1..], text, calls);
      case FunctionCall(_, _, _, _) =>
        if CallOf(x, items[0]).Some? {
          var longer := calls + [CallOf(x, items[0]).value];
          assert Proper(longer);
          CallsAreProper(x, items[1..], text, longer);
          assert ItemsOutput(x, items, text, calls) == ItemsOutput(x, items[1..], text, longer);
        } else {
          assert ItemsOutput(x, items, text, calls) == Invalid;
        }
      case OtherItem =>
    }
  }

  /** The calls of the response, none when it was rejected. */
  function CallsOf(x: Context, r: Response): seq<Call> {
    var o := ResponseOutput(x, r);
    if o.Output? then o.calls else []
  }

  lemma ResponseIsGood(x: Context, s: State, r: Response)
    requires Synced(s) && s.roleSent
    ensures var w := ReconcileResponse(x, s, r);
            && Good(s, w)
            && (w.ok ==> ResponseOutput(x, r).Output? && w.state.text == ResponseOutput(x, r).text
                         && AllAnswered(w.state, CallsOf(x, r), Places(s.tools, s.aliases, BLANK, CallsOf(x, r))))
  {
    LooseIsFaithful(s);
    CallsAreProper(x, r.output, [], []);
    var o := ResponseOutput(x, r);
    if o.Output? {
      ReconcileTextIsGood(x, s, o.text);
      var t := ReconcileText(x, s, o.text);
      if t.ok {
        BlankTracks(t.state);
        CallsAreGood(x, t.state, o.calls, s.tools, s.aliases, BLANK);
      }
    }
  }

  // ----- Events -----

  lemma FailedIsGood(s: State, o: Outcome)
    requires Good(s, o)
    ensures Good(s, Guarded(o))
  {
    if !o.ok {
      assert forall i: nat :: ToolOut(o.state, i) ==> ToolOut(Guarded(o).state, i);
    }
  }

  lemma GoodAfter(s: State, m: State, o: Outcome)
    requires FinalKept(s, m) && (s.roleSent ==> m.roleSent) && Good(m, o)
    ensures Good(s, o)
  {
  }

  lemma RefusedIsGood(s: State)
    requires Synced(s)
    ensures Good(s, Guarded(Outcome(s, false))) && Good(s, Outcome(s, true))
  {
    LooseIsFaithful(s);
    FailedIsGood(s, Outcome(s, false));
  }

  lemma OnTextIsGood(x: Context, s: State, text: Bytes)
    requires Synced(s)
    ensures Good(s, OnText(x, s, text))
  {
    RoleIsGood(x, s);
    var r := WriteRole(x, s);
    if r.ok {
      ReconcileTextIsGood(x, r.state, text);
      FailedIsGood(r.state, ReconcileText(x, r.state, text));
    }
  }

  /** The metadata of a tool that was found, and then its final arguments if there are any. */
  lemma FoundCallIsGood(x: Context, s: State, i: nat, arguments: Bytes, m: Outcome, a: Outcome)
    requires i < |s.tools| && Synced(s) && s.roleSent && m == WriteMetadata(x, s, i)
    requires m.ok ==> i < |m.state.tools| && a == AddArguments(x, m.state, i, arguments, true)
    ensures Good(s, if !m.ok || arguments == [] then m else Guarded(a))
  {
    MetadataIsGood(x, s, i);
    if m.ok && arguments != [] {
      ArgumentsAreGood(x, m.state, i, arguments, true);
      FailedIsGood(m.state, a);
      GoodAfter(s, m.state, Guarded(a));
    }
  }

  lemma OnCallIsGood(x: Context, s: State, id: string, callId: string, name: string, arguments: Bytes)
    requires Synced(s)
    ensures Good(s, OnCall(x, s, id, callId, name, arguments))
  {
    RoleIsGood(x, s);
    var r := WriteRole(x, s);
    if r.ok {
      var f := FindTool(r.state, id, callId, name);
      FindToolIsSilent(r.state, id, callId, name);
      var m := WriteMetadata(x, f.state, f.index);
      var a := if m.ok then AddArguments(x, m.state, f.index, arguments, true) else m;
      FoundCallIsGood(x, f.state, f.index, arguments, m, a);
      GoodAfter(r.state, f.state, OnCall(x, s, id, callId, name, arguments));
      GoodAfter(s, r.state, OnCall(x, s, id, callId, name, arguments));
    }
  }

  lemma OnArgumentsIsGood(x: Context, s: State, itemId: string, fragment: Bytes, final: bool)
    requires Synced(s)
    ensures Good(s, OnArguments(x, s, itemId, fragment, final))
  {
    RoleIsGood(x, s);
    var r := WriteRole(x, s);
    if r.ok {
      var f := FindTool(r.state, itemId, "", "");
      FindToolIsSilent(r.state, itemId, "", "");
      ArgumentsAreGood(x, f.state, f.index, fragment, final);
      FailedIsGood(f.state, AddArguments(x, f.state, f.index, fragment, final));
    }
  }

  lemma OnItemIsGood(x: Context, s: State, item: Option<Item>)
    requires Synced(s)
    ensures Good(s, OnItem(x, s, item))
  {
    RefusedIsGood(s);
    if item.Some? && item.value.Message? && MessageText(x, item.value.parts, []).Some? {
      OnTextIsGood(x, s, MessageText(x, item.value.parts, []).value);
    } else if item.Some? && item.value.FunctionCall? {
      OnCallIsGood(x, s, item.value.id, item.value.callId, item.value.name, item.value.arguments);
    }
  }

  /** The places of the response's calls among the tools known before the terminal event. */
  function PlacesOf(x: Context, before: State, r: Response): seq<nat> {
    Places(before.tools, before.aliases, BLANK, CallsOf(x, r))
  }

  /** A terminal event that is taken ends the stream: the text is the response's text, the finish reason
      is sent last, every tool's fragments join to its complete, valid arguments, and the tool at the place
      of each call of the response is finished with that call's arguments. */
  ghost predicate Reproduces(x: Context, before: State, s: State, r: Response) {
    && Over(x, s, r)
    && ResponseOutput(x, r).Output? && s.text == ResponseOutput(x, r).text
    && AllAnswered(s, CallsOf(x, r), PlacesOf(x, before, r))
  }

  lemma OnTerminalIsGood(x: Context, s: State, response: Option<Response>)
    requires Synced(s)
    ensures Good(s, OnTerminal(x, s, response))
    ensures OnTerminal(x, s, response).ok ==>
              response.Some? && Reproduces(x, s, OnTerminal(x, s, response).state, response.value)
  {
    RefusedIsGood(s);
    if response.Some? {
      RoleIsGood(x, s);
      var r := WriteRole(x, s);
      if r.ok {
        ResponseIsGood(x, r.state, response.value);
        var t := ReconcileResponse(x, r.state, response.value);
        FailedIsGood(r.state, t);
        if t.ok {
          FinishAnswered(x, t.state, response.value, CallsOf(x, response.value), PlacesOf(x, s, response.value));
          FailedIsGood(t.state, FinishStream(x, t.state, response.value));
        }
      }
    }
  }

  lemma FinishAnswered(x: Context, s: State, r: Response, calls: seq<Call>, places: seq<nat>)
    requires Synced(s) && s.roleSent && AllAnswered(s, calls, places)
    ensures Good(s, FinishStream(x, s, r)) && FinishStream(x, s, r).state.text == s.text
    ensures FinishStream(x, s, r).ok ==> Over(x, FinishStream(x, s, r).state, r)
    ensures AllAnswered(FinishStream(x, s, r).state, calls, places)
  {
    FinishIsGood(x, s, r);
  }

  lemma OnDeltaIsGood(x: Context, s: State, e: Event)
    requires Synced(s) && e.kind.TextDelta?
    ensures Good(s, OnKind(x, s, e))
  {
    RefusedIsGood(s);
    RoleIsGood(x, s);
    if WriteRole(x, s).ok {
      TextIsGood(x, WriteRole(x, s).state, e.kind.delta);
    }
  }

  lemma OnTextEventIsGood(x: Context, s: State, e: Event)
    requires Synced(s) && (e.kind.TextDone? || e.kind.ContentPart?)
    ensures Good(s, OnKind(x, s, e))
  {
    RefusedIsGood(s);
    if e.kind.TextDone? {
      OnTextIsGood(x, s, e.kind.text);
    } else if e.kind.part.Some? {
      OnTextIsGood(x, s, e.kind.part.value.text);
    }
  }

  lemma OnKindIsGood(x: Context, s: State, e: Event)
    requires Synced(s)
    ensures Good(s, OnKind(x, s, e))
  {
    match e.kind
    case TextDelta(_, _, _) => OnDeltaIsGood(x, s, e);
    case TextDone(_, _) => OnTextEventIsGood(x, s, e);
    case ContentPart(_) => OnTextEventIsGood(x, s, e);
    case OutputItem(item) => OnItemIsGood(x, s, item);
    case ArgsDelta(itemId, delta, arguments) =>
      OnArgumentsIsGood(x, s, itemId, if delta != [] then delta else arguments, false);
    case ArgsDone(itemId, arguments) => OnArgumentsIsGood(x, s, itemId, arguments, true);
    case Terminal(_) => OnTerminalIsGood(x, s, e.response);
    case _ => RefusedIsGood(s);
  }

  lemma IdentifiedIsSynced(s: State, response: Option<Response>)
    requires Synced(s)
    ensures Synced(Identified(s, response)) && FinalKept(s, Identified(s, response))
  {
    var n := Identified(s, response);
    assert forall i: nat :: ToolLoose(s, i) ==> ToolLoose(n, i);
  }

  lemma EventIsGood(x: Context, s: State, e: Event)
    requires Synced(s)
    ensures Good(s, OnEvent(x, s, e))
  {
    LooseIsFaithful(s);
    var seen := Identified(s, e.response);
    IdentifiedIsSynced(s, e.response);
    if !s.failed && ReportsFailure(e) {
      var n := seen.(failed := true);
      assert forall i: nat :: ToolLoose(seen, i) ==> ToolLoose(n, i);
      LooseIsFaithful(n);
    } else if !s.failed {
      OnKindIsGood(x, seen, e);
    }
  }

  /** On every event sequence, up to and including an event that is not taken: the role comes first and
      once, all chunks have one identity, the content deltas make up the tracked text, and each tool's
      metadata comes once and before its fragments, which are a first part of its arguments. */
  lemma {:induction false} EveryRunIsFaithful(x: Context, s: State, events: seq<Event>)
    requires Synced(s)
    ensures Good(s, OnEvents(x, s, events))
    decreases |events|
  {
    LooseIsFaithful(s);
    if events != [] {
      EventIsGood(x, s, events[0]);
      var first := OnEvent(x, s, events[0]);
      if first.ok {
        EveryRunIsFaithful(x, first.state, events[1..]);
      }
    }
  }

  lemma NewIsSynced(identity: Identity)
    ensures Synced(NewState(identity))
  {
  }

  lemma {:induction false} EventsAppend(x: Context, s: State, events: seq<Event>, e: Event)
    ensures var first := OnEvents(x, s, events);
            OnEvents(x, s, events + [e]) == if first.ok then OnEvent(x, first.state, e) else first
    decreases |events|
  {
    if events == [] {
      assert events + [e] == [e] && [e][1..] == [];
    } else {
      assert (events + [e])[1..] == events[1..] + [e];
      var first := OnEvent(x, s, events[0]);
      if first.ok {
        EventsAppend(x, first.state, events[1..], e);
      }
    }
  }

  lemma TerminalEventReproduces(x: Context, before: State, e: Event, n: State)
    requires Synced(before) && e.kind.Terminal? && OnEvent(x, before, e) == Outcome(n, true) && !n.failed
    ensures e.response.Some? && Reproduces(x, before, n, e.response.value)
  {
    IdentifiedIsSynced(before, e.response);
    OnTerminalIsGood(x, Identified(before, e.response), e.response);
  }

  /** A stream that ends in its terminal event, all taken and no failure reported, ends with the terminal
      response's text, and with its calls' arguments in the tools at their places. */
  lemma FinishedStreamReproduces(x: Context, identity: Identity, events: seq<Event>, e: Event)
    requires e.kind.Terminal? && OnEvents(x, NewState(identity), events + [e]).ok
    requires !OnEvents(x, NewState(identity), events + [e]).state.failed
    ensures OnEvents(x, NewState(identity), events).ok && e.response.Some?
    ensures Reproduces(x, OnEvents(x, NewState(identity), events).state,
                       OnEvents(x, NewState(identity), events + [e]).state, e.response.value)
  {
    var s := NewState(identity);
    NewIsSynced(identity);
    EventsAppend(x, s, events, e);
    EveryRunIsFaithful(x, s, events);
    TerminalEventReproduces(x, OnEvents(x, s, events).state, e, OnEvents(x, s, events + [e]).state);
  }

  /** What `Reproduces` says of the chunks: the content is the response's text, and the chunks of every
      tool are its metadata and then fragments that join to its complete arguments. */
  lemma ChunksOfFinishedStream(x: Context, before: State, s: State, r: Response, i: nat)
    requires Reproduces(x, before, s, r) && i < |s.tools|
    ensures ContentOf(s.output) == ResponseOutput(x, r).text
    ensures var deltas := ToolDeltas(s.output, i);
            && deltas != [] && MetadataFirst(deltas)
            && deltas[0] == ToolMeta(i, s.tools[i].id, NameSent(s.output, i)) && ValidName(NameSent(s.output, i))
            && FragmentsOf(deltas) == s.tools[i].arguments && CompleteJson(x, s.tools[i].arguments)
  {
    assert ToolLoose(s, i);
    DeltasConcern(s.output, i, 0);
    assert s.tools[i].arguments[..|s.tools[i].arguments|] == s.tools[i].arguments;
  }
}
