/** Which tool a call of the terminal response goes to, told from the tools before any call was reconciled. */
module ChatPlaces {
  import opened Bytes
  import opened Chat

  /** The tools given to earlier calls, and the tools that earlier calls had made, under their identifiers. */
  datatype Book = Book(given: set<nat>, made: map<string, nat>)

  const BLANK := Book({}, map[])

  /** The first tool from `i` on that has this name, is unfinished and was not given away. */
  function FirstFree(tools: seq<Tool>, given: set<nat>, name: string, i: nat): (k: Option<nat>)
    requires i <= |tools|
    ensures k.Some? ==>
              && i <= k.value < |tools| && tools[k.value].name == name
              && !tools[k.value].final && k.value !in given
    ensures forall j :: i <= j < (if k.Some? then k.value else |tools|) ==>
              tools[j].name != name || tools[j].final || j in given
    decreases |tools| - i
  {
    if i == |tools| then None
    else if tools[i].name == name && !tools[i].final && i !in given then Some(i)
    else FirstFree(tools, given, name, i + 1)
  }

  /** By identifier, by what an earlier call made, by name, by alias, or a new tool behind all others. */
  function Place(tools: seq<Tool>, aliases: map<string, nat>, b: Book, call: Call): nat {
    if ById(tools, call.id, 0).Some? then ById(tools, call.id, 0).value
    else if call.id in b.made then b.made[call.id]
    else if FirstFree(tools, b.given, call.name, 0).Some? then FirstFree(tools, b.given, call.name, 0).value
    else if call.id in aliases then aliases[call.id]
    else |tools| + |b.made|
  }

  function Booked(tools: seq<Tool>, aliases: map<string, nat>, b: Book, call: Call): Book {
    var i := Place(tools, aliases, b, call);
    Book(b.given + {i}, if i == |tools| + |b.made| then b.made[call.id := i] else b.made)
  }

  /** The places of the calls, one after another. */
  function Places(tools: seq<Tool>, aliases: map<string, nat>, b: Book, calls: seq<Call>): (p: seq<nat>)
    ensures |p| == |calls|
    decreases |calls|
  {
    if calls == [] then []
    else [Place(tools, aliases, b, calls[0])] + Places(tools, aliases, Booked(tools, aliases, b, calls[0]), calls[1..])
  }

  // ----- The translator keeps to these places -----

  /** Identifiers under which a tool is known lead to tools that have an identifier. */
  predicate AliasesHold(tools: seq<Tool>, aliases: map<string, nat>) {
    forall id :: id in aliases ==> aliases[id] < |tools| && tools[aliases[id]].id != ""
  }

  /** A tool from before: given away it is finished under the same identifier, else it is as it was. */
  predicate OldTool(t: Tool, n: Tool, given: bool) {
    if given then n.final && n.id == t.id else n == t
  }

  predicate OldTools(tools: seq<Tool>, b: Book, s: State) {
    |tools| <= |s.tools| && forall i: nat :: i < |tools| ==> OldTool(tools[i], s.tools[i], i in b.given)
  }

  predicate NewTools(tools: seq<Tool>, b: Book, s: State) {
    && |s.tools| == |tools| + |b.made|
    && (forall i: nat :: |tools| <= i < |s.tools| ==>
          s.tools[i].final && i in b.given && s.tools[i].id in b.made && b.made[s.tools[i].id] == i)
    && (forall id :: id in b.made ==> id != "" && |tools| <= b.made[id] < |s.tools| && s.tools[b.made[id]].id == id)
  }

  predicate AliasesGrew(aliases: map<string, nat>, b: Book, s: State) {
    && s.aliases.Keys == aliases.Keys + b.made.Keys
    && (forall id :: id in s.aliases ==> s.aliases[id] == if id in b.made then b.made[id] else aliases[id])
  }

  /** The state after the calls in the book, told from the tools and aliases before them. */
  predicate Tracks(tools: seq<Tool>, aliases: map<string, nat>, b: Book, s: State) {
    && AliasesHold(tools, aliases) && OldTools(tools, b, s) && NewTools(tools, b, s) && AliasesGrew(aliases, b, s)
    && forall i :: i in b.given ==> i < |s.tools|
  }

  lemma BlankTracks(s: State)
    requires AliasesHold(s.tools, s.aliases)
    ensures Tracks(s.tools, s.aliases, BLANK, s)
  {
  }

  lemma KnownById(tools: seq<Tool>, aliases: map<string, nat>, b: Book, s: State, id: string)
    requires Tracks(tools, aliases, b, s) && id != ""
    ensures ById(s.tools, id, 0) ==
            if ById(tools, id, 0).Some? then ById(tools, id, 0) else if id in b.made then Some(b.made[id]) else None
  {
    assert forall i: nat :: i < |tools| && OldTool(tools[i], s.tools[i], i in b.given) ==>
                              s.tools[i].id == tools[i].id;
  }

  lemma KnownByName(tools: seq<Tool>, aliases: map<string, nat>, b: Book, s: State, name: string)
    requires Tracks(tools, aliases, b, s) && name != ""
    ensures ByName(s.tools, name, 0) == FirstFree(tools, b.given, name, 0)
  {
    var k, f := ByName(s.tools, name, 0), FirstFree(tools, b.given, name, 0);
    if k.Some? {
      assert k.value < |tools|;
      assert OldTool(tools[k.value], s.tools[k.value], k.value in b.given);
    }
    if f.Some? {
      assert OldTool(tools[f.value], s.tools[f.value], false);
    }
    assert forall i: nat :: i < |tools| ==> OldTool(tools[i], s.tools[i], i in b.given);
  }

  /** Where the search finds a tool, or puts a new one. */
  function PickAt(s: State, id: string, name: string): nat {
    var known, named := ById(s.tools, id, 0), ByName(s.tools, name, 0);
    if known.Some? then known.value
    else if named.Some? then named.value
    else if id in s.aliases then s.aliases[id]
    else |s.tools|
  }

  lemma PickIndex(s: State, id: string, name: string)
    requires AliasesHold(s.tools, s.aliases) && id != ""
    ensures OutputTool(s, id, name).index == PickAt(s, id, name)
  {
  }

  lemma PlaceIsPickAt(tools: seq<Tool>, aliases: map<string, nat>, b: Book, s: State, call: Call)
    requires Tracks(tools, aliases, b, s) && call.id != "" && call.name != ""
    ensures PickAt(s, call.id, call.name) == Place(tools, aliases, b, call)
  {
    KnownById(tools, aliases, b, s, call.id);
    KnownByName(tools, aliases, b, s, call.name);
  }

  /** The tool that the search picks for a call is the one at its place. */
  lemma PickIsPlace(tools: seq<Tool>, aliases: map<string, nat>, b: Book, s: State, call: Call)
    requires Tracks(tools, aliases, b, s) && call.id != "" && call.name != ""
    ensures OutputTool(s, call.id, call.name).index == Place(tools, aliases, b, call)
  {
    TrackedAliasesHold(tools, aliases, b, s);
    PickIndex(s, call.id, call.name);
    PlaceIsPickAt(tools, aliases, b, s, call);
  }

  /** What reconciling a call may do to the tool that was picked, and to nothing else. */
  predicate Finishes(f: Found, n: State) {
    && f.index < |f.state.tools| == |n.tools| && n.aliases == f.state.aliases
    && (forall j :: 0 <= j < |n.tools| && j != f.index ==> n.tools[j] == f.state.tools[j])
    && n.tools[f.index].final && n.tools[f.index].id == f.state.tools[f.index].id
  }

  /** Picking a known tool may give it another name; neither its identifier nor the aliases change. */
  predicate PicksOld(s: State, f: Found) {
    && f.index < |s.tools| == |f.state.tools| && f.state.aliases == s.aliases
    && f.state.tools[f.index].id == s.tools[f.index].id
    && forall j :: 0 <= j < |s.tools| && j != f.index ==> f.state.tools[j] == s.tools[j]
  }

  predicate PicksNew(s: State, f: Found, call: Call) {
    && f.index == |s.tools| && f.state.aliases == s.aliases[call.id := f.index]
    && f.state.tools == s.tools + [Tool(call.id, call.name, [], 0, false, false)]
  }

  lemma PickCases(s: State, call: Call)
    requires call.id != "" && AliasesHold(s.tools, s.aliases)
    ensures var f := OutputTool(s, call.id, call.name);
            if ById(s.tools, call.id, 0).Some? || ByName(s.tools, call.name, 0).Some? || call.id in s.aliases
            then PicksOld(s, f)
            else PicksNew(s, f, call)
  {
    if ById(s.tools, call.id, 0).None? && ByName(s.tools, call.name, 0).None? && call.id in s.aliases {
      var i := s.aliases[call.id];
      assert Aliased(s, call.id);
      assert s.aliases[call.id := i] == s.aliases;
    }
  }

  lemma TrackedAliasesHold(tools: seq<Tool>, aliases: map<string, nat>, b: Book, s: State)
    requires Tracks(tools, aliases, b, s)
    ensures AliasesHold(s.tools, s.aliases)
  {
    forall id | id in s.aliases
      ensures s.aliases[id] < |s.tools| && s.tools[s.aliases[id]].id != ""
    {
      if id !in b.made {
        var i := aliases[id];
        assert OldTool(tools[i], s.tools[i], i in b.given);
      }
    }
  }

  lemma OldToolsStep(tools: seq<Tool>, b: Book, s: State, n: State, i: nat, c: Book)
    requires OldTools(tools, b, s) && c.given == b.given + {i}
    requires i < |n.tools| && |s.tools| <= |n.tools| && n.tools[i].final
    requires forall j :: 0 <= j < |s.tools| && j != i ==> n.tools[j] == s.tools[j]
    requires i < |s.tools| ==> n.tools[i].id == s.tools[i].id
    ensures OldTools(tools, c, n)
  {
    forall j: nat | j < |tools|
      ensures OldTool(tools[j], n.tools[j], j in c.given)
    {
      assert OldTool(tools[j], s.tools[j], j in b.given);
    }
  }

  lemma NewToolsKept(tools: seq<Tool>, b: Book, s: State, n: State, i: nat, c: Book)
    requires NewTools(tools, b, s) && c == Book(b.given + {i}, b.made)
    requires i < |s.tools| == |n.tools| && n.tools[i].final && n.tools[i].id == s.tools[i].id
    requires forall j :: 0 <= j < |s.tools| && j != i ==> n.tools[j] == s.tools[j]
    ensures NewTools(tools, c, n)
  {
    assert forall j: nat :: j < |s.tools| ==> n.tools[j].id == s.tools[j].id && (s.tools[j].final ==> n.tools[j].final);
  }

  lemma NewToolsGrow(tools: seq<Tool>, b: Book, s: State, n: State, i: nat, id: string, c: Book)
    requires NewTools(tools, b, s) && c == Book(b.given + {i}, b.made[id := i]) && id !in b.made && id != ""
    requires i == |s.tools| && |n.tools| == i + 1 && n.tools[i].final && n.tools[i].id == id
    requires forall j :: 0 <= j < |s.tools| ==> n.tools[j] == s.tools[j]
    ensures NewTools(tools, c, n)
  {
    assert |c.made| == |b.made| + 1;
    forall j: nat | |tools| <= j < |n.tools|
      ensures n.tools[j].final && j in c.given && n.tools[j].id in c.made && c.made[n.tools[j].id] == j
    {
      if j < i {
        assert n.tools[j] == s.tools[j];
        assert n.tools[j].id in b.made && n.tools[j].id != id;
      }
    }
    forall key | key in c.made
      ensures key != "" && |tools| <= c.made[key] < |n.tools| && n.tools[c.made[key]].id == key
    {
      if key != id {
        assert key in b.made && c.made[key] == b.made[key];
      }
    }
  }

  lemma OldStep(tools: seq<Tool>, aliases: map<string, nat>, b: Book, s: State, n: State, f: Found, c: Book)
    requires Tracks(tools, aliases, b, s) && PicksOld(s, f) && Finishes(f, n)
    requires c == Book(b.given + {f.index}, b.made)
    ensures Tracks(tools, aliases, c, n)
  {
    var i := f.index;
    OldToolsStep(tools, b, s, n, i, c);
    NewToolsKept(tools, b, s, n, i, c);
  }

  lemma NewStep(tools: seq<Tool>, aliases: map<string, nat>, b: Book, s: State, n: State, f: Found, call: Call, c: Book)
    requires Tracks(tools, aliases, b, s) && PicksNew(s, f, call) && Finishes(f, n) && call.id !in s.aliases
             && call.id != ""
    requires c == Book(b.given + {f.index}, b.made[call.id := f.index])
    ensures Tracks(tools, aliases, c, n)
  {
    var i := f.index;
    OldToolsStep(tools, b, s, n, i, c);
    NewToolsGrow(tools, b, s, n, i, call.id, c);
    AliasesGrow(aliases, b, s, n, i, call.id, c);
  }

  lemma AliasesGrow(aliases: map<string, nat>, b: Book, s: State, n: State, i: nat, id: string, c: Book)
    requires AliasesGrew(aliases, b, s) && c.made == b.made[id := i] && n.aliases == s.aliases[id := i]
    ensures AliasesGrew(aliases, c, n)
  {
  }

  /** Reconciling a call picks the tool at its place, and leaves the state as the book after it tells. */
  lemma StepTracks(tools: seq<Tool>, aliases: map<string, nat>, b: Book, s: State, call: Call, n: State)
    requires Tracks(tools, aliases, b, s) && call.id != "" && call.name != ""
    requires Finishes(OutputTool(s, call.id, call.name), n)
    ensures OutputTool(s, call.id, call.name).index == Place(tools, aliases, b, call)
    ensures Tracks(tools, aliases, Booked(tools, aliases, b, call), n)
  {
    var f, c := OutputTool(s, call.id, call.name), Booked(tools, aliases, b, call);
    KnownById(tools, aliases, b, s, call.id);
    KnownByName(tools, aliases, b, s, call.name);
    PickIsPlace(tools, aliases, b, s, call);
    TrackedAliasesHold(tools, aliases, b, s);
    PickCases(s, call);
    if f.index < |s.tools| {
      OldStep(tools, aliases, b, s, n, f, c);
    } else {
      NewStep(tools, aliases, b, s, n, f, call, c);
    }
  }

  /** Only tool `i` and the output changed, and not the tool's identifier or name. */
  predicate OnlyTool(s: State, n: State, i: nat) {
    && i < |s.tools| == |n.tools| && n == s.(tools := s.tools[i := n.tools[i]], output := n.output)
    && n.tools[i].id == s.tools[i].id && n.tools[i].name == s.tools[i].name
  }

  lemma MetadataTouches(x: Context, s: State, i: nat)
    requires i < |s.tools|
    ensures OnlyTool(s, WriteMetadata(x, s, i).state, i)
  {
  }

  lemma SettleTouches(x: Context, s: State, i: nat)
    requires i < |s.tools|
    ensures var w := Settle(x, s, i, true);
            OnlyTool(s, w.state, i) && (w.ok ==> w.state.tools[i].final)
  {
    var sent := if s.tools[i].metadataSent then WriteSuffix(x, s, i) else Outcome(s, true);
    assert OnlyTool(s, sent.state, i);
  }

  lemma ArgumentsTouch(x: Context, s: State, i: nat, fragment: Bytes)
    requires i < |s.tools|
    ensures var w := AddArguments(x, s, i, fragment, true);
            OnlyTool(s, w.state, i) && (w.ok ==> w.state.tools[i].final)
  {
    var t := s.tools[i];
    var extended := Extended(t.arguments, fragment, true);
    if !t.final && extended.Some? {
      SettleTouches(x, SetTool(s, i, t.(arguments := extended.value)), i);
    }
  }

  lemma CallFinishes(x: Context, s: State, call: Call)
    requires ReconcileCall(x, s, call).ok
    ensures var f, n := OutputTool(s, call.id, call.name), ReconcileCall(x, s, call).state;
            Finishes(f, n) && OnlyTool(f.state, n, f.index)
  {
    var f := OutputTool(s, call.id, call.name);
    MetadataTouches(x, f.state, f.index);
    ArgumentsTouch(x, WriteMetadata(x, f.state, f.index).state, f.index, call.arguments);
  }
}
