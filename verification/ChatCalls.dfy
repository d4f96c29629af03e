/** Which calls of the terminal response reach the client as they are: the exact conditions, told from the
    calls and from what was known before the terminal event. */
module ChatCalls {
  import opened Bytes
  import opened Chat
  import opened ChatPlaces
  import opened ChatProofs

  // ----- A tool of its own for every call -----

  predicate NoRepeats(places: seq<nat>) {
    forall j, k :: 0 <= j < k < |places| ==> places[j] != places[k]
  }

  predicate Avoids(places: seq<nat>, given: set<nat>) {
    forall k :: 0 <= k < |places| ==> places[k] !in given
  }

  /** The tool that a call's identifier leads to was not given to an earlier call, nor made for one. */
  predicate Unclaimed(tools: seq<Tool>, aliases: map<string, nat>, b: Book, call: Call) {
    var known := ById(tools, call.id, 0);
    if known.Some? then known.value !in b.given
    else
      && call.id !in b.made
      && (FirstFree(tools, b.given, call.name, 0).Some? || call.id !in aliases || aliases[call.id] !in b.given)
  }

  predicate Separate(tools: seq<Tool>, aliases: map<string, nat>, b: Book, calls: seq<Call>)
    decreases |calls|
  {
    calls == [] || (Unclaimed(tools, aliases, b, calls[0])
                    && Separate(tools, aliases, Booked(tools, aliases, b, calls[0]), calls[1..]))
  }

  predicate BookHolds(tools: seq<Tool>, b: Book) {
    && (forall id :: id in b.made ==> |tools| <= b.made[id] && b.made[id] in b.given)
    && (forall i :: i in b.given ==> i < |tools| + |b.made|)
  }

  lemma UnclaimedIsUngiven(tools: seq<Tool>, aliases: map<string, nat>, b: Book, call: Call)
    requires AliasesHold(tools, aliases) && BookHolds(tools, b)
    ensures Unclaimed(tools, aliases, b, call) <==> Place(tools, aliases, b, call) !in b.given
    ensures BookHolds(tools, Booked(tools, aliases, b, call))
  {
    var i := Place(tools, aliases, b, call);
    if i == |tools| + |b.made| {
      assert call.id !in b.made;
      assert |b.made[call.id := i]| == |b.made| + 1;
    }
  }

  /** No two calls get one tool if and only if no call's tool was claimed before. */
  lemma {:induction false} SeparateIsExact(tools: seq<Tool>, aliases: map<string, nat>, b: Book, calls: seq<Call>)
    requires AliasesHold(tools, aliases) && BookHolds(tools, b)
    ensures var places := Places(tools, aliases, b, calls);
            Separate(tools, aliases, b, calls) <==> NoRepeats(places) && Avoids(places, b.given)
    decreases |calls|
  {
    if calls != [] {
      var i := Place(tools, aliases, b, calls[0]);
      var c := Booked(tools, aliases, b, calls[0]);
      UnclaimedIsUngiven(tools, aliases, b, calls[0]);
      SeparateIsExact(tools, aliases, c, calls[1..]);
      FirstOfDistinct(i, Places(tools, aliases, c, calls[1..]), b.given);
    }
  }

  lemma FirstOfDistinct(i: nat, rest: seq<nat>, given: set<nat>)
    ensures NoRepeats([i] + rest) && Avoids([i] + rest, given)
            <==> i !in given && NoRepeats(rest) && Avoids(rest, given + {i})
  {
    var all := [i] + rest;
    assert all[0] == i && forall k :: 0 <= k < |rest| ==> rest[k] == all[k + 1];
    if NoRepeats(all) && Avoids(all, given) {
      assert forall k :: 0 <= k < |rest| ==> rest[k] == all[k + 1] && all[k + 1] != all[0];
    }
  }

  // ----- What the client is told about a call -----

  /** The name that the client was told or will be told for tool `i` if nothing renames it. */
  function NameKnown(before: State, i: nat): string
    requires i < |before.tools|
  {
    if before.tools[i].metadataSent then NameSent(before.output, i) else before.tools[i].name
  }

  /** The metadata that the client gets for the tool at the call's place: what was sent before stays; a tool
      found by its identifier keeps its name; any other tool is called what the call says. */
  function Metadata(before: State, i: nat, call: Call): Delta {
    if i >= |before.tools| then ToolMeta(i, call.id, call.name)
    else
      var t := before.tools[i];
      ToolMeta(i, t.id, if t.metadataSent || t.id == call.id then NameKnown(before, i) else call.name)
  }

  /** Tool `i` was described as `d` says; or its metadata waits for an identifier or a name. */
  predicate Told(s: State, i: nat, d: Delta) {
    var deltas := ToolDeltas(s.output, i);
    && i < |s.tools|
    && if s.tools[i].metadataSent then deltas != [] && deltas[0] == d
       else s.tools[i].id == "" || s.tools[i].name == ""
  }

  predicate Untouched(before: State, b: Book, s: State) {
    forall i: nat :: i < |before.tools| && i !in b.given ==> ToolDeltas(s.output, i) == ToolDeltas(before.output, i)
  }

  /** The chunks added concern tool `i` only. */
  ghost predicate Adds(s: State, n: State, i: nat) {
    && (forall j: nat :: j != i ==> ToolDeltas(n.output, j) == ToolDeltas(s.output, j))
    && ToolDeltas(s.output, i) <= ToolDeltas(n.output, i)
  }

  lemma WriteAdds(x: Context, s: State, delta: Delta, i: nat)
    requires (delta.ToolMeta? || delta.ToolArgs?) && delta.index == i
    ensures var w := Write(x, s, delta);
            Adds(s, w.state, i) && (w.ok ==> ToolDeltas(w.state.output, i) == ToolDeltas(s.output, i) + [delta])
  {
    var chunk := Chunk(s.identity, delta);
    forall j: nat
      ensures ToolDeltas(s.output + [chunk], j) == ToolDeltas(s.output, j) + (if j == i then [delta] else [])
    {
      DeltasAppend(s.output, chunk, j);
    }
  }

  lemma SuffixAdds(x: Context, s: State, i: nat)
    requires i < |s.tools|
    ensures Adds(s, WriteSuffix(x, s, i).state, i)
  {
    var t := s.tools[i];
    if |t.arguments| > t.emitted {
      WriteAdds(x, SetTool(s, i, t.(emitted := |t.arguments|)), ToolArgs(i, t.arguments[t.emitted..]), i);
    }
  }

  lemma MetadataAdds(x: Context, s: State, i: nat)
    requires i < |s.tools|
    ensures var w, t := WriteMetadata(x, s, i), s.tools[i];
            && Adds(s, w.state, i)
            && (w.ok && !t.metadataSent && t.id != "" && t.name != "" ==>
                  w.state.tools[i].metadataSent
                  && ToolDeltas(s.output, i) + [ToolMeta(i, t.id, t.name)] <= ToolDeltas(w.state.output, i))
  {
    var t := s.tools[i];
    if !t.metadataSent && t.id != "" && t.name != "" && ValidName(t.name) {
      var n := SetTool(s, i, t.(metadataSent := true));
      var meta := ToolMeta(i, t.id, t.name);
      WriteAdds(x, n, meta, i);
      var w := Write(x, n, meta);
      if w.ok {
        SuffixAdds(x, w.state, i);
      }
    }
  }

  lemma ArgumentsAdd(x: Context, s: State, i: nat, fragment: Bytes)
    requires i < |s.tools|
    ensures var w := AddArguments(x, s, i, fragment, true);
            Adds(s, w.state, i) && w.state.tools[i].metadataSent == s.tools[i].metadataSent
  {
    var t := s.tools[i];
    var extended := Extended(t.arguments, fragment, true);
    if !t.final && extended.Some? {
      var grown := SetTool(s, i, t.(arguments := extended.value));
      SuffixAdds(x, grown, i);
    }
  }

  lemma PickSendsNothing(s: State, id: string, name: string)
    ensures OutputTool(s, id, name).state.output == s.output
  {
  }

  /** What picking a tool does to it: found by alias it is renamed, found otherwise it stays, and a new one is named. */
  predicate Labelled(s: State, f: Found, call: Call) {
    && f.index < |f.state.tools|
    && var n := f.state.tools[f.index];
       if f.index < |s.tools| then
         var t := s.tools[f.index];
         n == t || (t.id != call.id && t.id != "" && n == t.(name := call.name))
       else n == Tool(call.id, call.name, [], 0, false, false)
  }

  lemma PickLabels(s: State, call: Call)
    requires call.id != "" && call.name != "" && AliasesHold(s.tools, s.aliases)
    ensures var f := OutputTool(s, call.id, call.name);
            && Labelled(s, f, call)
            && (f.index < |s.tools| && f.state.tools[f.index] == s.tools[f.index] ==>
                  s.tools[f.index].id == call.id || s.tools[f.index].name == call.name)
  {
    if ById(s.tools, call.id, 0).None? && ByName(s.tools, call.name, 0).None? && Aliased(s, call.id) {
      var i := s.aliases[call.id];
      assert s.tools[i].id != call.id;
    }
  }

  /** The tool picked for an unclaimed call bears the labels that the client was or will be told. */
  lemma PickedLabels(before: State, b: Book, s: State, call: Call, i: nat)
    requires Tracks(before.tools, before.aliases, b, s) && call.id != "" && call.name != ""
    requires i == Place(before.tools, before.aliases, b, call) && i !in b.given
    ensures var f := OutputTool(s, call.id, call.name);
            && f.index == i && f.state.output == s.output
            && f.state.tools[i].metadataSent == (i < |before.tools| && before.tools[i].metadataSent)
            && (if f.state.tools[i].metadataSent then i < |s.tools| && s.tools[i] == before.tools[i]
                else ToolMeta(i, f.state.tools[i].id, f.state.tools[i].name) == Metadata(before, i, call))
  {
    PickIsPlace(before.tools, before.aliases, b, s, call);
    TrackedAliasesHold(before.tools, before.aliases, b, s);
    PickLabels(s, call);
    PickSendsNothing(s, call.id, call.name);
    UngivenTool(before.tools, before.aliases, b, s, i);
  }

  lemma UngivenTool(tools: seq<Tool>, aliases: map<string, nat>, b: Book, s: State, i: nat)
    requires Tracks(tools, aliases, b, s) && i !in b.given
    ensures if i < |tools| then i < |s.tools| && s.tools[i] == tools[i] else i >= |s.tools|
  {
    if i < |tools| {
      assert OldTool(tools[i], s.tools[i], false);
    }
  }

  /** The first chunk about a tool whose metadata was sent before. */
  lemma SentBefore(before: State, s: State, i: nat, call: Call)
    requires Loose(s) && i < |before.tools| && i < |s.tools| && s.tools[i] == before.tools[i] && s.tools[i].metadataSent
    requires ToolDeltas(s.output, i) == ToolDeltas(before.output, i)
    ensures ToolDeltas(s.output, i) != [] && ToolDeltas(s.output, i)[0] == Metadata(before, i, call)
  {
    assert ToolLoose(s, i);
    DeltasConcern(s.output, i, 0);
  }

  lemma NotSentBefore(s: State, n: State, i: nat, d: Delta)
    requires Loose(s) && (i < |s.tools| ==> !s.tools[i].metadataSent)
    requires ToolDeltas(s.output, i) + [d] <= ToolDeltas(n.output, i)
    ensures ToolDeltas(n.output, i) != [] && ToolDeltas(n.output, i)[0] == d
  {
    assert ToolLoose(s, i);
    assert (ToolDeltas(s.output, i) + [d])[0] == d;
  }

  lemma CallIsTold(x: Context, before: State, s: State, b: Book, call: Call, i: nat)
    requires Loose(s) && Tracks(before.tools, before.aliases, b, s) && Untouched(before, b, s)
    requires call.id != "" && call.name != "" && ReconcileCall(x, s, call).ok
    requires i == Place(before.tools, before.aliases, b, call) && i !in b.given
    ensures Told(ReconcileCall(x, s, call).state, i, Metadata(before, i, call))
  {
    PickedLabels(before, b, s, call, i);
    var f := OutputTool(s, call.id, call.name);
    var m := WriteMetadata(x, f.state, i);
    MetadataAdds(x, f.state, i);
    MetadataTouches(x, f.state, i);
    ArgumentsAdd(x, m.state, i, call.arguments);
    ArgumentsTouch(x, m.state, i, call.arguments);
    if f.state.tools[i].metadataSent {
      SentBefore(before, s, i, call);
    } else if m.state.tools[i].metadataSent {
      UngivenTool(before.tools, before.aliases, b, s, i);
      NotSentBefore(s, m.state, i, Metadata(before, i, call));
    }
  }

  lemma AddsTogether(s: State, m: State, n: State, i: nat)
    requires Adds(s, m, i) && Adds(m, n, i)
    ensures Adds(s, n, i)
  {
  }

  lemma CallAdds(x: Context, s: State, call: Call)
    requires ReconcileCall(x, s, call).ok
    ensures Adds(s, ReconcileCall(x, s, call).state, OutputTool(s, call.id, call.name).index)
  {
    var f := OutputTool(s, call.id, call.name);
    PickSendsNothing(s, call.id, call.name);
    MetadataAdds(x, f.state, f.index);
    var m := WriteMetadata(x, f.state, f.index);
    ArgumentsAdd(x, m.state, f.index, call.arguments);
    AddsTogether(s, m.state, ReconcileCall(x, s, call).state, f.index);
  }

  /** A call for another tool changes nothing about what was told. */
  lemma OthersStayTold(x: Context, tools: seq<Tool>, aliases: map<string, nat>, b: Book, s: State, call: Call, i: nat,
                       d: Delta)
    requires Tracks(tools, aliases, b, s) && call.id != "" && call.name != "" && ReconcileCall(x, s, call).ok
    requires Told(s, i, d) && i != Place(tools, aliases, b, call)
    ensures Told(ReconcileCall(x, s, call).state, i, d)
  {
    PickIsPlace(tools, aliases, b, s, call);
    CallFinishes(x, s, call);
    CallAdds(x, s, call);
    TrackedAliasesHold(tools, aliases, b, s);
    PickCases(s, call);
  }

  lemma UntouchedStep(x: Context, before: State, b: Book, s: State, call: Call)
    requires Tracks(before.tools, before.aliases, b, s) && call.id != "" && call.name != ""
             && ReconcileCall(x, s, call).ok
    requires Untouched(before, b, s)
    ensures Untouched(before, Booked(before.tools, before.aliases, b, call), ReconcileCall(x, s, call).state)
  {
    PickIsPlace(before.tools, before.aliases, b, s, call);
    CallAdds(x, s, call);
  }

  /** Whatever was told about a tool that was given away stays while the other calls find their own tools. */
  lemma {:induction false} GivenStaysTold(x: Context, tools: seq<Tool>, aliases: map<string, nat>, b: Book, s: State,
                                          calls: seq<Call>, i: nat, d: Delta)
    requires Tracks(tools, aliases, b, s) && BookHolds(tools, b) && Proper(calls) && ReconcileCalls(x, s, calls).ok
    requires Separate(tools, aliases, b, calls) && i in b.given && Told(s, i, d)
    ensures Told(ReconcileCalls(x, s, calls).state, i, d)
    decreases |calls|
  {
    if calls != [] {
      var call, n := calls[0], ReconcileCall(x, s, calls[0]).state;
      UnclaimedIsUngiven(tools, aliases, b, call);
      OthersStayTold(x, tools, aliases, b, s, call, i, d);
      CallFinishes(x, s, call);
      StepTracks(tools, aliases, b, s, call, n);
      GivenStaysTold(x, tools, aliases, Booked(tools, aliases, b, call), n, calls[1..], i, d);
    }
  }

  predicate ToldOf(before: State, s: State, call: Call, i: nat) {
    Told(s, i, Metadata(before, i, call))
  }

  predicate AllTold(before: State, s: State, calls: seq<Call>, places: seq<nat>) {
    |places| == |calls| && forall k :: 0 <= k < |calls| ==> ToldOf(before, s, calls[k], places[k])
  }

  lemma FirstTold(before: State, s: State, calls: seq<Call>, rest: seq<Call>, i: nat, places: seq<nat>)
    requires calls != [] && rest == calls[1..] && ToldOf(before, s, calls[0], i) && AllTold(before, s, rest, places)
    ensures AllTold(before, s, calls, [i] + places)
  {
    var all := [i] + places;
    forall k | 0 <= k < |calls|
      ensures ToldOf(before, s, calls[k], all[k])
    {
      if k > 0 {
        assert calls[k] == rest[k - 1] && all[k] == places[k - 1];
        assert ToldOf(before, s, rest[k - 1], places[k - 1]);
      }
    }
  }

  /** The state from which the remaining calls are reconciled. */
  ghost predicate Ready(before: State, b: Book, s: State) {
    && Synced(s) && s.roleSent && Tracks(before.tools, before.aliases, b, s) && Untouched(before, b, s)
    && BookHolds(before.tools, b)
  }

  lemma FirstCallTold(x: Context, before: State, b: Book, s: State, call: Call, n: State)
    requires Ready(before, b, s) && Unclaimed(before.tools, before.aliases, b, call)
    requires call.id != "" && call.name != "" && call.arguments != [] && ReconcileCall(x, s, call) == Outcome(n, true)
    ensures Ready(before, Booked(before.tools, before.aliases, b, call), n)
    ensures ToldOf(before, n, call, Place(before.tools, before.aliases, b, call))
  {
    var i := Place(before.tools, before.aliases, b, call);
    UnclaimedIsUngiven(before.tools, before.aliases, b, call);
    CallIsTold(x, before, s, b, call, i);
    CallIsGood(x, s, call);
    UntouchedStep(x, before, b, s, call);
    CallFinishes(x, s, call);
    StepTracks(before.tools, before.aliases, b, s, call, n);
  }

  /** The first call, and the others from the state after it. */
  lemma FirstAndRest(x: Context, s: State, calls: seq<Call>)
    requires calls != [] && Proper(calls) && ReconcileCalls(x, s, calls).ok
    ensures var first := ReconcileCall(x, s, calls[0]);
            first.ok && Proper(calls[1..]) && ReconcileCalls(x, s, calls) == ReconcileCalls(x, first.state, calls[1..])
    ensures calls[0].id != "" && calls[0].name != "" && calls[0].arguments != []
  {
  }

  lemma {:induction false} CallsAreTold(x: Context, before: State, b: Book, s: State, calls: seq<Call>)
    requires Ready(before, b, s) && Proper(calls) && ReconcileCalls(x, s, calls).ok
    requires Separate(before.tools, before.aliases, b, calls)
    ensures AllTold(before, ReconcileCalls(x, s, calls).state, calls, Places(before.tools, before.aliases, b, calls))
    decreases |calls|
  {
    if calls != [] {
      var call, rest, n := calls[0], calls[1..], ReconcileCall(x, s, calls[0]).state;
      var i, c := Place(before.tools, before.aliases, b, call), Booked(before.tools, before.aliases, b, call);
      FirstAndRest(x, s, calls);
      FirstCallTold(x, before, b, s, call, n);
      CallsAreTold(x, before, c, n, rest);
      GivenStaysTold(x, before.tools, before.aliases, c, n, rest, i, Metadata(before, i, call));
      FirstTold(before, ReconcileCalls(x, n, rest).state, calls, rest, i,
                Places(before.tools, before.aliases, c, rest));
    }
  }

  /** Tools beyond those known before are all given to calls. */
  predicate NewAreGiven(known: nat, s: State, given: set<nat>, places: seq<nat>) {
    forall i: nat :: known <= i < |s.tools| ==> i in given || i in places
  }

  lemma {:induction false} NewToolsAreCalled(x: Context, tools: seq<Tool>, aliases: map<string, nat>, b: Book,
                                             s: State, calls: seq<Call>)
    requires Tracks(tools, aliases, b, s) && Proper(calls) && ReconcileCalls(x, s, calls).ok
    ensures NewAreGiven(|tools|, ReconcileCalls(x, s, calls).state, b.given, Places(tools, aliases, b, calls))
    decreases |calls|
  {
    if calls != [] {
      var call, n := calls[0], ReconcileCall(x, s, calls[0]).state;
      var c := Booked(tools, aliases, b, call);
      CallFinishes(x, s, call);
      StepTracks(tools, aliases, b, s, call, n);
      NewToolsAreCalled(x, tools, aliases, c, n, calls[1..]);
      var i, rest := Place(tools, aliases, b, call), Places(tools, aliases, c, calls[1..]);
      assert ([i] + rest)[0] == i;
      assert forall k: nat :: k in rest ==> k in [i] + rest;
    }
  }

  // ----- Until the finish -----

  /** Nothing that the client was told about a tool is taken back. */
  ghost predicate Grows(s: State, n: State) {
    forall i: nat :: ToolDeltas(s.output, i) <= ToolDeltas(n.output, i)
  }

  lemma GrowsTogether(s: State, m: State, n: State)
    requires Grows(s, m) && Grows(m, n)
    ensures Grows(s, n)
  {
  }

  lemma AddsGrows(s: State, n: State, i: nat)
    requires Adds(s, n, i)
    ensures Grows(s, n)
  {
    assert forall j: nat :: j == i || ToolDeltas(n.output, j) == ToolDeltas(s.output, j);
  }

  lemma {:induction false} CallsGrow(x: Context, s: State, calls: seq<Call>)
    requires ReconcileCalls(x, s, calls).ok
    ensures Grows(s, ReconcileCalls(x, s, calls).state)
    decreases |calls|
  {
    if calls != [] {
      var n := ReconcileCall(x, s, calls[0]).state;
      CallAdds(x, s, calls[0]);
      AddsGrows(s, n, OutputTool(s, calls[0].id, calls[0].name).index);
      CallsGrow(x, n, calls[1..]);
      GrowsTogether(s, n, ReconcileCalls(x, n, calls[1..]).state);
    }
  }

  lemma {:induction false} FinishToolsGrow(x: Context, s: State, i: nat)
    requires i <= |s.tools| && FinishTools(x, s, i).ok
    ensures Grows(s, FinishTools(x, s, i).state)
    decreases |s.tools| - i
  {
    if i < |s.tools| {
      var m := WriteMetadata(x, s, i).state;
      MetadataAdds(x, s, i);
      AddsGrows(s, m, i);
      FinishToolsGrow(x, m, i + 1);
      GrowsTogether(s, m, FinishTools(x, m, i + 1).state);
    }
  }

  lemma FinishGrows(x: Context, s: State, r: Response)
    requires FinishStream(x, s, r).ok
    ensures Grows(s, FinishStream(x, s, r).state)
  {
    FinishToolsGrow(x, s, 0);
    var t := FinishTools(x, s, 0).state;
    var n := FinishStream(x, s, r).state;
    forall i: nat
      ensures ToolDeltas(n.output, i) == ToolDeltas(t.output, i)
    {
      PlainKeepsDeltas(x, t, Finish(FinishReason(r, |t.tools|)), i);
    }
    assert Grows(t, n);
    GrowsTogether(s, t, n);
  }

  lemma {:induction false} FinishToolsKeep(x: Context, s: State, i: nat, j: nat)
    requires i <= |s.tools| && j < |s.tools| && FinishTools(x, s, i).ok
    ensures var n := FinishTools(x, s, i).state;
            && |n.tools| == |s.tools|
            && (s.tools[j].metadataSent ==> ToolDeltas(n.output, j) == ToolDeltas(s.output, j))
            && (i <= j ==> s.tools[j].id != "" && s.tools[j].name != "")
    decreases |s.tools| - i
  {
    if i < |s.tools| {
      var m := WriteMetadata(x, s, i).state;
      MetadataTouches(x, s, i);
      MetadataAdds(x, s, i);
      FinishToolsKeep(x, m, i + 1, j);
    }
  }

  /** A stream that finishes did tell about every such tool. */
  lemma FinishTells(x: Context, s: State, r: Response, i: nat, d: Delta)
    requires Told(s, i, d) && FinishStream(x, s, r).ok
    ensures var n := FinishStream(x, s, r).state;
            |n.tools| == |s.tools| && ToolDeltas(n.output, i) != [] && ToolDeltas(n.output, i)[0] == d
  {
    FinishToolsKeep(x, s, 0, i);
    var t := FinishTools(x, s, 0).state;
    DeltasAppend(t.output, Chunk(t.identity, Finish(FinishReason(r, |t.tools|))), i);
    assert ToolDeltas(t.output, i) + [] == ToolDeltas(t.output, i);
  }

  lemma PlainKeepsDeltas(x: Context, s: State, delta: Delta, i: nat)
    requires !delta.ToolMeta? && !delta.ToolArgs?
    ensures ToolDeltas(Write(x, s, delta).state.output, i) == ToolDeltas(s.output, i)
  {
    DeltasAppend(s.output, Chunk(s.identity, delta), i);
    assert ToolDeltas(s.output, i) + [] == ToolDeltas(s.output, i);
  }

  /** Role and text leave what is known of the tools. */
  lemma TextKeepsTools(x: Context, s: State, text: Bytes)
    ensures var n := ReconcileText(x, WriteRole(x, s).state, text).state;
            n.tools == s.tools && n.aliases == s.aliases && Untouched(s, BLANK, n) && Grows(s, n)
  {
    var role := WriteRole(x, s).state;
    forall i: nat
      ensures ToolDeltas(ReconcileText(x, role, text).state.output, i) == ToolDeltas(s.output, i)
    {
      PlainKeepsDeltas(x, s.(roleSent := true), Role, i);
      if |role.text| <= |text| {
        PlainKeepsDeltas(x, role, Content(text[|role.text|..]), i);
      }
    }
  }

  /** What the client was told first about the tool at each call's place. */
  predicate Heard(before: State, s: State, calls: seq<Call>, places: seq<nat>) {
    && |places| == |calls|
    && forall k :: 0 <= k < |calls| ==>
         ToolDeltas(s.output, places[k]) != []
         && ToolDeltas(s.output, places[k])[0] == Metadata(before, places[k], calls[k])
  }

  lemma TerminalTells(x: Context, s: State, r: Response)
    requires Synced(s) && OnTerminal(x, s, Some(r)).ok
    ensures var n, calls, places := OnTerminal(x, s, Some(r)).state, CallsOf(x, r), PlacesOf(x, s, r);
            && (Separate(s.tools, s.aliases, BLANK, calls) ==> Heard(s, n, calls, places))
            && NewAreGiven(|s.tools|, n, {}, places) && Grows(s, n)
  {
    var role := WriteRole(x, s);
    RoleIsGood(x, s);
    CallsAreProper(x, r.output, [], []);
    var output := ResponseOutput(x, r);
    TextKeepsTools(x, s, output.text);
    ReconcileTextIsGood(x, role.state, output.text);
    var t := ReconcileText(x, role.state, output.text).state;
    BlankTracks(t);
    CallsThenFinish(x, s, t, output.calls, r);
  }

  lemma CallsThenFinish(x: Context, before: State, s: State, calls: seq<Call>, r: Response)
    requires Synced(s) && s.roleSent && Proper(calls) && Untouched(before, BLANK, s) && Grows(before, s)
    requires Tracks(before.tools, before.aliases, BLANK, s)
    requires ReconcileCalls(x, s, calls).ok && FinishStream(x, ReconcileCalls(x, s, calls).state, r).ok
    ensures var n := FinishStream(x, ReconcileCalls(x, s, calls).state, r).state;
            var places := Places(before.tools, before.aliases, BLANK, calls);
            && (Separate(before.tools, before.aliases, BLANK, calls) ==> Heard(before, n, calls, places))
            && NewAreGiven(|before.tools|, n, {}, places) && Grows(before, n)
  {
    var m := ReconcileCalls(x, s, calls).state;
    CallsGrow(x, s, calls);
    FinishGrows(x, m, r);
    GrowsTogether(before, s, m);
    GrowsTogether(before, m, FinishStream(x, m, r).state);
    var places := Places(before.tools, before.aliases, BLANK, calls);
    NewToolsAreCalled(x, before.tools, before.aliases, BLANK, s, calls);
    FinishKeepsCount(x, m, r);
    if Separate(before.tools, before.aliases, BLANK, calls) {
      CallsAreTold(x, before, BLANK, s, calls);
      forall k | 0 <= k < |calls|
        ensures var deltas := ToolDeltas(FinishStream(x, m, r).state.output, places[k]);
                deltas != [] && deltas[0] == Metadata(before, places[k], calls[k])
      {
        assert ToldOf(before, m, calls[k], places[k]);
        FinishTells(x, m, r, places[k], Metadata(before, places[k], calls[k]));
      }
    }
  }

  lemma {:induction false} FinishToolsCount(x: Context, s: State, i: nat)
    requires i <= |s.tools|
    ensures |FinishTools(x, s, i).state.tools| == |s.tools|
    decreases |s.tools| - i
  {
    if i < |s.tools| {
      MetadataTouches(x, s, i);
      FinishToolsCount(x, WriteMetadata(x, s, i).state, i + 1);
    }
  }

  lemma FinishKeepsCount(x: Context, s: State, r: Response)
    ensures |FinishStream(x, s, r).state.tools| == |s.tools|
  {
    FinishToolsCount(x, s, 0);
  }

  // ----- The main results -----

  /** The client was told every call's name, each for a tool of its own. */
  predicate NamesTold(s: State, calls: seq<Call>, places: seq<nat>) {
    && |places| == |calls| && NoRepeats(places)
    && forall k :: 0 <= k < |calls| ==> NameSent(s.output, places[k]) == calls[k].name
  }

  /** Going through the calls in order, each finds its tool unclaimed, and no other name was told for it. */
  predicate NamesFit(before: State, calls: seq<Call>, places: seq<nat>) {
    && |places| == |calls| && Separate(before.tools, before.aliases, BLANK, calls)
    && forall k :: 0 <= k < |calls| ==> Metadata(before, places[k], calls[k]).name == calls[k].name
  }

  /** The chunks about tool `i` are the call: its identifier and name, then its arguments. */
  predicate Carries(s: State, i: nat, call: Call) {
    var deltas := ToolDeltas(s.output, i);
    MetadataFirst(deltas) && deltas != [] && deltas[0] == ToolMeta(i, call.id, call.name)
    && FragmentsOf(deltas) == call.arguments
  }

  /** Every call of the response reached the client as it is, in chunks of its own. */
  predicate AllCarried(s: State, calls: seq<Call>, places: seq<nat>) {
    |places| == |calls| && NoRepeats(places) && forall k :: 0 <= k < |calls| ==> Carries(s, places[k], calls[k])
  }

  /** A call whose identifier no earlier call has, and which either has a tool with that identifier and name,
      or is new: no alias leads to it and every unfinished tool of its name is an earlier call's own. */
  predicate ClearAfter(before: State, earlier: seq<Call>, call: Call) {
    var known := ById(before.tools, call.id, 0);
    && !HasId(earlier, call.id)
    && if known.Some? then NameKnown(before, known.value) == call.name
       else
         && call.id !in before.aliases
         && forall i :: 0 <= i < |before.tools| && before.tools[i].name == call.name && !before.tools[i].final ==>
              Owned(before.tools, earlier, i)
  }

  predicate HasId(calls: seq<Call>, id: string) {
    exists j :: 0 <= j < |calls| && calls[j].id == id
  }

  /** Tool `i` is the one with the identifier of one of the calls. */
  predicate Owned(tools: seq<Tool>, earlier: seq<Call>, i: nat) {
    exists j :: 0 <= j < |earlier| && ById(tools, earlier[j].id, 0) == Some(i)
  }

  predicate Clear(before: State, calls: seq<Call>) {
    forall k :: 0 <= k < |calls| ==> ClearAfter(before, calls[..k], calls[k])
  }

  // ----- The clear calls are the ones with exact metadata -----

  /** The book after earlier calls that were all clear. */
  ghost predicate ClearBook(tools: seq<Tool>, earlier: seq<Call>, b: Book) {
    && BookHolds(tools, b)
    && (forall id :: id in b.made <==> ById(tools, id, 0).None? && HasId(earlier, id))
    && (forall i: nat :: i < |tools| ==> (i in b.given <==> Owned(tools, earlier, i)))
  }

  predicate Exact(before: State, b: Book, call: Call) {
    var i := Place(before.tools, before.aliases, b, call);
    Unclaimed(before.tools, before.aliases, b, call) && Metadata(before, i, call) == ToolMeta(i, call.id, call.name)
  }

  lemma ClearIsExactForKnown(before: State, earlier: seq<Call>, b: Book, call: Call)
    requires ClearBook(before.tools, earlier, b) && ById(before.tools, call.id, 0).Some?
    ensures ClearAfter(before, earlier, call) <==> Exact(before, b, call)
  {
    var i := ById(before.tools, call.id, 0).value;
    assert i in b.given <==> Owned(before.tools, earlier, i);
    if j :| 0 <= j < |earlier| && earlier[j].id == call.id {
      assert ById(before.tools, earlier[j].id, 0) == Some(i);
      assert Owned(before.tools, earlier, i);
    }
  }

  lemma ClearIsExactForOthers(before: State, earlier: seq<Call>, b: Book, call: Call)
    requires ClearBook(before.tools, earlier, b) && ById(before.tools, call.id, 0).None?
    requires call.id != "" && AliasesHold(before.tools, before.aliases)
    ensures ClearAfter(before, earlier, call) <==> Exact(before, b, call)
    ensures Exact(before, b, call) ==>
              call.id !in b.made && Place(before.tools, before.aliases, b, call) == |before.tools| + |b.made|
  {
    var free := FirstFree(before.tools, b.given, call.name, 0);
    if free.Some? {
      assert !Owned(before.tools, earlier, free.value);
      assert before.tools[free.value].id != call.id;
    } else {
      assert forall i: nat :: i < |before.tools| && before.tools[i].name == call.name && !before.tools[i].final ==>
               i in b.given;
    }
  }

  lemma ClearStep(before: State, earlier: seq<Call>, b: Book, call: Call)
    requires ClearBook(before.tools, earlier, b) && call.id != "" && AliasesHold(before.tools, before.aliases)
    requires Exact(before, b, call)
    ensures ClearBook(before.tools, earlier + [call], Booked(before.tools, before.aliases, b, call))
  {
    var tools, longer := before.tools, earlier + [call];
    var i, c := Place(tools, before.aliases, b, call), Booked(tools, before.aliases, b, call);
    UnclaimedIsUngiven(tools, before.aliases, b, call);
    assert longer[|earlier|] == call && forall j :: 0 <= j < |earlier| ==> longer[j] == earlier[j];
    if ById(tools, call.id, 0).None? {
      ClearIsExactForOthers(before, earlier, b, call);
    }
    forall k: nat | k < |tools|
      ensures k in c.given <==> Owned(tools, longer, k)
    {
      OwnedByOneMore(tools, earlier, call, k);
    }
    forall id: string
      ensures HasId(longer, id) <==> id == call.id || HasId(earlier, id)
    {
      HasOneMore(earlier, call, id);
    }
  }

  lemma HasOneMore(earlier: seq<Call>, call: Call, id: string)
    ensures HasId(earlier + [call], id) <==> id == call.id || HasId(earlier, id)
  {
    var longer := earlier + [call];
    assert longer[|earlier|] == call;
    if j :| 0 <= j < |earlier| && earlier[j].id == id {
      assert longer[j].id == id;
    }
  }

  lemma OwnedByOneMore(tools: seq<Tool>, earlier: seq<Call>, call: Call, i: nat)
    ensures Owned(tools, earlier + [call], i) <==> Owned(tools, earlier, i) || ById(tools, call.id, 0) == Some(i)
  {
    var longer := earlier + [call];
    assert longer[|earlier|] == call;
    if j :| 0 <= j < |earlier| && ById(tools, earlier[j].id, 0) == Some(i) {
      assert longer[j] == earlier[j];
    }
  }

  predicate ClearFrom(before: State, earlier: seq<Call>, calls: seq<Call>) {
    forall k :: 0 <= k < |calls| ==> ClearAfter(before, earlier + calls[..k], calls[k])
  }

  predicate AllExact(before: State, b: Book, calls: seq<Call>)
    decreases |calls|
  {
    calls == [] || (Exact(before, b, calls[0])
                    && AllExact(before, Booked(before.tools, before.aliases, b, calls[0]), calls[1..]))
  }

  lemma ClearShift(before: State, earlier: seq<Call>, calls: seq<Call>)
    requires calls != []
    ensures ClearFrom(before, earlier, calls)
            <==> ClearAfter(before, earlier, calls[0]) && ClearFrom(before, earlier + [calls[0]], calls[1..])
  {
    var rest := calls[1..];
    assert earlier + calls[..0] == earlier;
    forall k | 0 < k < |calls|
      ensures calls[k] == rest[k - 1] && earlier + calls[..k] == earlier + [calls[0]] + rest[..k - 1]
    {
    }
    if ClearFrom(before, earlier, calls) {
      forall k | 0 <= k < |rest|
        ensures ClearAfter(before, earlier + [calls[0]] + rest[..k], rest[k])
      {
        assert ClearAfter(before, earlier + calls[..k + 1], calls[k + 1]);
      }
    }
  }

  lemma {:induction false} ClearIsAllExact(before: State, earlier: seq<Call>, b: Book, calls: seq<Call>)
    requires ClearBook(before.tools, earlier, b) && AliasesHold(before.tools, before.aliases) && Proper(calls)
    ensures ClearFrom(before, earlier, calls) <==> AllExact(before, b, calls)
    decreases |calls|
  {
    if calls != [] {
      var call := calls[0];
      ClearShift(before, earlier, calls);
      if ById(before.tools, call.id, 0).Some? {
        ClearIsExactForKnown(before, earlier, b, call);
      } else {
        ClearIsExactForOthers(before, earlier, b, call);
      }
      if Exact(before, b, call) {
        ClearStep(before, earlier, b, call);
        ClearIsAllExact(before, earlier + [call], Booked(before.tools, before.aliases, b, call), calls[1..]);
      }
    }
  }

  /** The metadata at every place is the call's identifier and name. */
  predicate MetadataFits(before: State, calls: seq<Call>, places: seq<nat>) {
    && |places| == |calls|
    && forall k :: 0 <= k < |calls| ==>
         Metadata(before, places[k], calls[k]) == ToolMeta(places[k], calls[k].id, calls[k].name)
  }

  lemma FirstFits(before: State, calls: seq<Call>, rest: seq<Call>, i: nat, places: seq<nat>)
    requires calls != [] && rest == calls[1..] && |places| == |rest|
    ensures MetadataFits(before, calls, [i] + places)
            <==> Metadata(before, i, calls[0]) == ToolMeta(i, calls[0].id, calls[0].name)
                 && MetadataFits(before, rest, places)
  {
    var all := [i] + places;
    assert forall k :: 0 <= k < |rest| ==> rest[k] == calls[k + 1] && places[k] == all[k + 1];
  }

  lemma {:induction false} AllExactFits(before: State, b: Book, calls: seq<Call>)
    ensures AllExact(before, b, calls)
            <==> Separate(before.tools, before.aliases, b, calls)
                 && MetadataFits(before, calls, Places(before.tools, before.aliases, b, calls))
    decreases |calls|
  {
    if calls != [] {
      var i, c := Place(before.tools, before.aliases, b, calls[0]), Booked(before.tools, before.aliases, b, calls[0]);
      AllExactFits(before, c, calls[1..]);
      FirstFits(before, calls, calls[1..], i, Places(before.tools, before.aliases, c, calls[1..]));
    }
  }

  lemma ClearFits(before: State, calls: seq<Call>)
    requires AliasesHold(before.tools, before.aliases) && Proper(calls)
    ensures Clear(before, calls)
            <==> Separate(before.tools, before.aliases, BLANK, calls)
                 && MetadataFits(before, calls, Places(before.tools, before.aliases, BLANK, calls))
  {
    assert forall k :: 0 <= k < |calls| ==> [] + calls[..k] == calls[..k];
    ClearIsAllExact(before, [], BLANK, calls);
    AllExactFits(before, BLANK, calls);
  }

  // ----- Over finished streams -----

  /** The stream was taken to its terminal event, and no failure was reported. */
  predicate Finished(x: Context, identity: Identity, events: seq<Event>, e: Event) {
    e.kind.Terminal? && OnEvents(x, NewState(identity), events + [e]).ok
    && !OnEvents(x, NewState(identity), events + [e]).state.failed
  }

  lemma SameHeard(before: State, seen: State, s: State, calls: seq<Call>, places: seq<nat>)
    requires seen.tools == before.tools && seen.output == before.output
    ensures Heard(seen, s, calls, places) <==> Heard(before, s, calls, places)
  {
    assert forall i: nat, call :: Metadata(seen, i, call) == Metadata(before, i, call);
  }

  lemma TerminalEventTells(x: Context, before: State, e: Event, n: State)
    requires Synced(before) && e.kind.Terminal? && OnEvent(x, before, e) == Outcome(n, true) && !n.failed
    requires e.response.Some?
    ensures var calls, places := CallsOf(x, e.response.value), PlacesOf(x, before, e.response.value);
            && (Separate(before.tools, before.aliases, BLANK, calls) ==> Heard(before, n, calls, places))
            && NewAreGiven(|before.tools|, n, {}, places) && Grows(before, n)
  {
    var seen, r := Identified(before, e.response), e.response.value;
    IdentifiedIsSynced(before, e.response);
    TerminalTells(x, seen, r);
    SameHeard(before, seen, n, CallsOf(x, r), PlacesOf(x, before, r));
  }

  /** In a finished stream the first chunk about the tool at each call's place is the metadata known before
      the terminal event, if the calls find their tools unclaimed. Whatever was told before about any tool
      stays, and every tool made at the end is some call's. */
  lemma FinishedStreamTells(x: Context, identity: Identity, events: seq<Event>, e: Event)
    requires Finished(x, identity, events, e)
    ensures e.response.Some?
    ensures var before := OnEvents(x, NewState(identity), events).state;
            var s := OnEvents(x, NewState(identity), events + [e]).state;
            var calls, places := CallsOf(x, e.response.value), PlacesOf(x, before, e.response.value);
            && AliasesHold(before.tools, before.aliases) && Proper(calls)
            && Reproduces(x, before, s, e.response.value)
            && (Separate(before.tools, before.aliases, BLANK, calls) ==> Heard(before, s, calls, places))
            && NewAreGiven(|before.tools|, s, {}, places) && Grows(before, s)
  {
    var n := NewState(identity);
    FinishedStreamReproduces(x, identity, events, e);
    NewIsSynced(identity);
    EventsAppend(x, n, events, e);
    EveryRunIsFaithful(x, n, events);
    CallsAreProper(x, e.response.value.output, [], []);
    TerminalEventTells(x, OnEvents(x, n, events).state, e, OnEvents(x, n, events + [e]).state);
  }

  /** Every call gets a tool of its own under the name the client is told, if and only if going through the
      calls in order each finds its tool unclaimed and no other name was told for it before. */
  lemma NamesArriveExactly(x: Context, identity: Identity, events: seq<Event>, e: Event)
    requires Finished(x, identity, events, e)
    ensures e.response.Some?
    ensures var before := OnEvents(x, NewState(identity), events).state;
            var s := OnEvents(x, NewState(identity), events + [e]).state;
            var calls, places := CallsOf(x, e.response.value), PlacesOf(x, before, e.response.value);
            NamesTold(s, calls, places) <==> NamesFit(before, calls, places)
  {
    FinishedStreamTells(x, identity, events, e);
    var before := OnEvents(x, NewState(identity), events).state;
    SeparateIsExact(before.tools, before.aliases, BLANK, CallsOf(x, e.response.value));
  }

  /** Every call reaches the client as it is, in chunks of its own that are its identifier, its name and its
      arguments, if and only if it was clear before the terminal event. */
  lemma CallsArriveExactly(x: Context, identity: Identity, events: seq<Event>, e: Event)
    requires Finished(x, identity, events, e)
    ensures e.response.Some?
    ensures var before := OnEvents(x, NewState(identity), events).state;
            var s := OnEvents(x, NewState(identity), events + [e]).state;
            var calls, places := CallsOf(x, e.response.value), PlacesOf(x, before, e.response.value);
            AllCarried(s, calls, places) <==> Clear(before, calls)
  {
    FinishedStreamTells(x, identity, events, e);
    var before, s := OnEvents(x, NewState(identity), events).state, OnEvents(x, NewState(identity), events + [e]).state;
    var r := e.response.value;
    var calls, places := CallsOf(x, r), PlacesOf(x, before, r);
    SeparateIsExact(before.tools, before.aliases, BLANK, calls);
    ClearFits(before, calls);
    forall k | 0 <= k < |calls|
      ensures var deltas := ToolDeltas(s.output, places[k]);
              MetadataFirst(deltas) && deltas != [] && FragmentsOf(deltas) == calls[k].arguments
    {
      ChunksOfFinishedStream(x, before, s, r, places[k]);
    }
  }
}
