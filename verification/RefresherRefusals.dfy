/** A token that the endpoint refused for good is not tried again: what holds after the refusal, over every run,
    told from the versions of the path and the results of the calls. */
module RefresherRefusals {
  import opened Bytes
  import opened Refresher
  import opened RefresherProofs

  // ----- Views -----

  predicate ViewOf(at: CallerAt, view: Guarded) {
    (at.Reading? || at.Deciding?) && at.view == view
  }

  /** What a caller has seen of the mutex is from now or before, and from now only if nothing changed since. */
  ghost predicate ViewsHold(s: State) {
    forall t, view :: t in s.callers && ViewOf(s.callers[t].at, view) ==>
      view.generation <= s.guarded.generation && (view.generation == s.guarded.generation ==> view == s.guarded)
  }

  lemma ChangesAreCounted(s: State, t: Step)
    requires Enabled(s, t)
    ensures var n := Next(s, t); n.guarded == s.guarded || n.guarded.generation > s.guarded.generation
  {
  }

  /** The views that were there stay current as long as nothing changes. */
  lemma OldViewsHold(s: State, n: State)
    requires ViewsHold(s) && (n.guarded == s.guarded || n.guarded.generation > s.guarded.generation)
    requires n.callers == s.callers
    ensures ViewsHold(n)
  {
  }

  /** A caller that moves has the view it had, or one of the state as it is. */
  lemma CallerViews(s: State, u: Thread, i: CallerInput, view: Guarded)
    requires CallerMay(s, u, i)
    ensures var n := CallerStep(s, u, i);
            && u in n.callers && n.callers == s.callers[u := n.callers[u]]
            && (ViewOf(n.callers[u].at, view) ==>
                  (u in s.callers && ViewOf(s.callers[u].at, view)) || (view == s.guarded && n.guarded == s.guarded))
  {
  }

  lemma CallerKeepsViews(s: State, u: Thread, i: CallerInput)
    requires ViewsHold(s) && CallerMay(s, u, i)
    ensures ViewsHold(CallerStep(s, u, i))
  {
    var n := CallerStep(s, u, i);
    ChangesAreCounted(s, CallerMoves(u, i));
    forall v, view | v in n.callers && ViewOf(n.callers[v].at, view)
      ensures view.generation <= n.guarded.generation
      ensures view.generation == n.guarded.generation ==> view == n.guarded
    {
      CallerViews(s, u, i, view);
      if v != u {
        assert v in s.callers && ViewOf(s.callers[v].at, view);
      }
    }
  }

  lemma StepKeepsViews(s: State, t: Step)
    requires ViewsHold(s) && Enabled(s, t)
    ensures ViewsHold(Next(s, t))
  {
    match t
    case WorkerMoves(c, i) =>
      ChangesAreCounted(s, t);
      OldViewsHold(s, WorkerStep(s, c, i));
    case SaverMoves(u, i) => OldViewsHold(s, SaverStep(s, u, i));
    case CallerMoves(u, i) => CallerKeepsViews(s, u, i);
  }

  lemma {:induction false} RunKeepsViews(s: State, steps: seq<Step>)
    requires Inv(s) && ViewsHold(s) && CanRun(s, steps)
    ensures Inv(Run(s, steps)) && ViewsHold(Run(s, steps))
    decreases |steps|
  {
    if steps != [] {
      StepKeepsInv(s, steps[0]);
      StepKeepsViews(s, steps[0]);
      RunKeepsViews(Next(s, steps[0]), steps[1..]);
    }
  }

  // ----- After a refusal -----

  /** The path holds nothing but this token, or nothing at all unless `strict`. */
  predicate OnlyToken(f: File, token: nat, strict: bool) {
    match f
    case Missing => !strict
    case Stored(c, _) => c.token == token
  }

  /** Since version `from` the path held nothing else. */
  predicate PathKeeps(versions: seq<File>, from: nat, token: nat, strict: bool) {
    forall v :: from <= v < |versions| ==> OnlyToken(versions[v], token, strict)
  }

  /** A caller that loaded another token before, and will compare the recorded failures with it. */
  predicate StaleReader(at: CallerAt, token: nat) {
    (at.AuthClearing? && at.loaded.token != token) || (at.Forgetting? && at.token != token)
  }

  /** The errors that remain: a new login is required, or, unless `strict`, nothing could be loaded. */
  predicate Expected(e: Error, strict: bool) {
    e == RequiresLogin || (!strict && e == Temporary)
  }

  /** The steps of the refreshes after the refusal. */
  predicate RefreshShut(at: WorkerAt, token: nat, strict: bool) {
    match at
    case Loading => true
    case Clearing(source, _) => source.token == token
    case Checking(source, _) => source.token == token
    case Finishing(result, tried, _) =>
      || (result == Refused(RequiresLogin) && tried == Some(token))
      || (!strict && result == Refused(Temporary) && tried == None)
    case Exited => true
    case _ => false
  }

  /** No caller decides on what was known before the refusal, nor forgets the refusal. */
  predicate CallerShut(at: CallerAt, since: nat, token: nat, strict: bool) {
    match at
    case Reading(view) => view.generation < since || (view.permanent == Some(token) && view.transient == None)
    case Deciding(view, content, _) =>
      view.generation < since
      || (view.permanent == Some(token) && view.transient == None && OnlyToken(content, token, strict))
    case AuthClearing(_, loaded, _) => loaded.token == token
    case Forgetting(known) => known == token
    case _ => true
  }

  /** A caller that began after the refusal only ever learns that a new login is required. */
  predicate NewcomerShut(at: CallerAt, since: nat, oldCalls: nat, token: nat, strict: bool) {
    match at
    case Observing => true
    case Reading(view) => view.generation >= since
    case Deciding(view, _, _) => view.generation >= since
    case Waiting(call, _) => call >= oldCalls
    case AuthReading(_) => true
    case AuthClearing(_, loaded, _) => true
    case AuthChecking(_, loaded, _) => loaded.token == token
    case Returned(result, _, _) => result.Refused? && (result.error == Cancelled || Expected(result.error, strict))
    case _ => false
  }

  predicate CallShut(call: Call, strict: bool) {
    call.result.Some? ==> call.result.value.Refused? && Expected(call.result.value.error, strict)
  }

  /** The mutex and the path after the refusal that led to `n`. */
  ghost predicate RecordShut(n: State, s: State, token: nat, strict: bool) {
    && n.versions != [] && n.versions <= s.versions && |n.calls| <= |s.calls| && n.callers.Keys <= s.callers.Keys
    && s.guarded.permanent == Some(token) && s.guarded.transient == None
    && s.guarded.generation >= n.guarded.generation
    && (s.guarded.inFlight.Some? ==> s.guarded.inFlight.value >= |n.calls|)
    && PathKeeps(s.versions, Now(n), token, strict)
  }

  ghost predicate CallsShut(n: State, s: State, token: nat, strict: bool) {
    && (forall c :: 0 <= c < |s.workers| ==> RefreshShut(s.workers[c].at, token, strict))
    && (forall c :: |n.calls| <= c < |s.calls| ==> CallShut(s.calls[c], strict))
  }

  predicate ThreadShut(n: State, s: State, u: Thread, token: nat, strict: bool)
    requires u in s.callers
  {
    && CallerShut(s.callers[u].at, n.guarded.generation, token, strict)
    && (u !in n.callers ==> NewcomerShut(s.callers[u].at, n.guarded.generation, |n.calls|, token, strict))
  }

  /** What holds in every state `s` after the refusal that led to `n`. */
  ghost predicate Shut(n: State, s: State, token: nat, strict: bool) {
    && Inv(s) && ViewsHold(s) && RecordShut(n, s, token, strict) && CallsShut(n, s, token, strict)
    && forall u :: u in s.callers ==> ThreadShut(n, s, u, token, strict)
  }

  lemma WorkerGoesShut(n: State, s: State, c: CallId, i: WorkerInput, token: nat, strict: bool)
    requires Shut(n, s, token, strict) && WorkerMay(s, c, i) && (strict ==> !i.Fails?)
    ensures var m := WorkerStep(s, c, i);
            && RecordShut(n, m, token, strict) && RefreshShut(m.workers[c].at, token, strict)
            && (m.calls == s.calls || (m.calls == s.calls[c := m.calls[c]] && CallShut(m.calls[c], strict)))
            && m.workers == s.workers[c := m.workers[c]] && m.callers == s.callers
  {
    assert RefreshShut(s.workers[c].at, token, strict);
    assert OnlyToken(Current(s), token, strict);
  }

  lemma WorkerStaysShut(n: State, s: State, c: CallId, i: WorkerInput, token: nat, strict: bool)
    requires Shut(n, s, token, strict) && WorkerMay(s, c, i) && (strict ==> !i.Fails?)
    ensures Shut(n, WorkerStep(s, c, i), token, strict)
  {
    StepKeepsInv(s, WorkerMoves(c, i));
    StepKeepsViews(s, WorkerMoves(c, i));
    WorkerGoesShut(n, s, c, i, token, strict);
  }

  lemma SaverStaysShut(n: State, s: State, u: Thread, i: SaverInput, token: nat, strict: bool)
    requires Shut(n, s, token, strict) && SaverMay(s, u, i)
    requires PathKeeps(SaverStep(s, u, i).versions, Now(n), token, strict)
    ensures Shut(n, SaverStep(s, u, i), token, strict)
  {
    StepKeepsInv(s, SaverMoves(u, i));
    StepKeepsViews(s, SaverMoves(u, i));
    SaverFrame(s, u, i);
  }

  lemma CallerKeepsRecord(n: State, s: State, u: Thread, i: CallerInput, token: nat, strict: bool)
    requires Shut(n, s, token, strict) && CallerMay(s, u, i)
    ensures RecordShut(n, CallerStep(s, u, i), token, strict)
  {
    assert u in s.callers ==> ThreadShut(n, s, u, token, strict);
  }

  lemma CallerGoesShut(n: State, s: State, u: Thread, i: CallerInput, token: nat, strict: bool)
    requires Shut(n, s, token, strict) && CallerMay(s, u, i)
    ensures var m := CallerStep(s, u, i); u in m.callers && ThreadShut(n, m, u, token, strict)
  {
    assert OnlyToken(Current(s), token, strict);
    assert u in s.callers ==> ThreadShut(n, s, u, token, strict) && CallerSound(s, u);
  }

  lemma CallerBeginsShut(n: State, s: State, u: Thread, i: CallerInput, token: nat, strict: bool)
    requires Shut(n, s, token, strict) && CallerMay(s, u, i)
    ensures CallsShut(n, CallerStep(s, u, i), token, strict)
  {
    CallerFrame(s, u, i);
    NewCallIsLoading(s, u, i);
  }

  lemma NewCallIsLoading(s: State, u: Thread, i: CallerInput)
    requires Inv(s) && CallerMay(s, u, i)
    ensures var m := CallerStep(s, u, i);
            && |m.workers| == |m.calls|
            && forall c :: |s.calls| <= c < |m.calls| ==> m.calls[c].result == None && m.workers[c].at == Loading
  {
  }

  lemma CallerStaysShut(n: State, s: State, u: Thread, i: CallerInput, token: nat, strict: bool)
    requires Shut(n, s, token, strict) && CallerMay(s, u, i)
    ensures Shut(n, CallerStep(s, u, i), token, strict)
  {
    StepKeepsInv(s, CallerMoves(u, i));
    StepKeepsViews(s, CallerMoves(u, i));
    CallerKeepsRecord(n, s, u, i, token, strict);
    CallerGoesShut(n, s, u, i, token, strict);
    CallerBeginsShut(n, s, u, i, token, strict);
    CallerFrame(s, u, i);
  }

  // ----- Over runs -----

  /** The call is about to end with a permanent refusal of this token. */
  predicate EndsRefused(s: State, c: CallId, token: nat) {
    && c < |s.workers| && c < |s.calls| && s.versions != [] && s.workers[c].at.Finishing?
    && s.workers[c].at.result == Refused(RequiresLogin) && s.workers[c].at.token == Some(token)
  }

  ghost predicate NoStaleReader(n: State, token: nat) {
    forall u :: u in n.callers ==> !StaleReader(n.callers[u].at, token)
  }

  lemma RefusalShuts(s: State, c: CallId, token: nat, strict: bool)
    requires Inv(s) && ViewsHold(s) && EndsRefused(s, c, token)
    requires NoStaleReader(s, token) && OnlyToken(Current(s), token, strict)
    ensures var n := Next(s, WorkerMoves(c, Proceed)); Shut(n, n, token, strict)
  {
    var t := WorkerMoves(c, Proceed);
    StepKeepsInv(s, t);
    StepKeepsViews(s, t);
    assert CallSound(s, c);
    var n := Next(s, t);
    forall d | 0 <= d < |n.workers|
      ensures n.workers[d].at.Exited?
    {
      assert CallSound(n, d);
    }
  }

  /** A refresh fails for reasons of its own. */
  predicate BreaksOff(t: Step) {
    t.WorkerMoves? && t.w.Fails?
  }

  ghost predicate NoneBreaksOff(steps: seq<Step>) {
    forall i :: 0 <= i < |steps| ==> !BreaksOff(steps[i])
  }

  lemma {:induction false} VersionsGrow(s: State, steps: seq<Step>)
    requires Inv(s) && CanRun(s, steps)
    ensures s.versions <= Run(s, steps).versions
    decreases |steps|
  {
    if steps != [] {
      StepKeepsInv(s, steps[0]);
      StepGrows(s, steps[0]);
      VersionsGrow(Next(s, steps[0]), steps[1..]);
    }
  }

  lemma StepGrows(s: State, t: Step)
    requires Inv(s) && Enabled(s, t)
    ensures s.versions <= Next(s, t).versions
  {
    match t
    case WorkerMoves(c, i) => WorkerFrame(s, c, i);
    case SaverMoves(u, i) => SaverFrame(s, u, i);
    case CallerMoves(u, i) => CallerFrame(s, u, i);
  }

  lemma StepStaysShut(n: State, s: State, t: Step, token: nat, strict: bool)
    requires Shut(n, s, token, strict) && Enabled(s, t) && (strict ==> !BreaksOff(t))
    requires PathKeeps(Next(s, t).versions, Now(n), token, strict)
    ensures Shut(n, Next(s, t), token, strict)
  {
    match t
    case WorkerMoves(c, i) => WorkerStaysShut(n, s, c, i, token, strict);
    case SaverMoves(u, i) => SaverStaysShut(n, s, u, i, token, strict);
    case CallerMoves(u, i) => CallerStaysShut(n, s, u, i, token, strict);
  }

  lemma {:induction false} RunStaysShut(n: State, s: State, steps: seq<Step>, token: nat, strict: bool)
    requires Shut(n, s, token, strict) && CanRun(s, steps) && (strict ==> NoneBreaksOff(steps))
    requires PathKeeps(Run(s, steps).versions, Now(n), token, strict)
    ensures Shut(n, Run(s, steps), token, strict)
    decreases |steps|
  {
    if steps != [] {
      var m := Next(s, steps[0]);
      StepKeepsInv(s, steps[0]);
      VersionsGrow(m, steps[1..]);
      StepStaysShut(n, s, steps[0], token, strict);
      RunStaysShut(n, m, steps[1..], token, strict);
    }
  }

  predicate GotCancelled(s: State, u: Thread) {
    u in s.callers && s.callers[u].at.Returned? && s.callers[u].at.result == Refused(Cancelled)
  }

  lemma OwnStepCancels(n: State, s: State, u: Thread, i: CallerInput, token: nat, strict: bool)
    requires Shut(n, s, token, strict) && CallerMay(s, u, i) && u !in n.callers
    requires !GotCancelled(s, u) && GotCancelled(CallerStep(s, u, i), u)
    ensures i == Cancel
  {
    assert u in s.callers ==> ThreadShut(n, s, u, token, strict);
  }

  lemma OnlyCancelCancels(n: State, s: State, t: Step, u: Thread, token: nat, strict: bool)
    requires Shut(n, s, token, strict) && Enabled(s, t) && u !in n.callers
    requires !GotCancelled(s, u) && GotCancelled(Next(s, t), u)
    ensures t == CallerMoves(u, Cancel)
  {
    match t
    case WorkerMoves(c, i) => WorkerFrame(s, c, i);
    case SaverMoves(v, i) => SaverFrame(s, v, i);
    case CallerMoves(v, i) =>
      CallerFrame(s, v, i);
      if v == u {
        OwnStepCancels(n, s, u, i, token, strict);
      }
  }

  lemma {:induction false} CancelledByCancel(n: State, s: State, steps: seq<Step>, u: Thread, token: nat, strict: bool)
    requires Shut(n, s, token, strict) && CanRun(s, steps) && (strict ==> NoneBreaksOff(steps))
    requires PathKeeps(Run(s, steps).versions, Now(n), token, strict)
    requires u !in n.callers && !GotCancelled(s, u) && GotCancelled(Run(s, steps), u)
    ensures CallerMoves(u, Cancel) in steps
    decreases |steps|
  {
    var m := Next(s, steps[0]);
    StepKeepsInv(s, steps[0]);
    VersionsGrow(m, steps[1..]);
    StepStaysShut(n, s, steps[0], token, strict);
    if GotCancelled(m, u) {
      OnlyCancelCancels(n, s, steps[0], u, token, strict);
    } else {
      CancelledByCancel(n, m, steps[1..], u, token, strict);
    }
  }

  /** No refresh posts, calls only fail, and who asks anew is told that a new login is required. */
  ghost predicate TokenIsBarred(n: State, m: State, more: seq<Step>, strict: bool) {
    && (forall d :: 0 <= d < |m.workers| ==> !m.workers[d].at.Posting?)
    && (forall d :: |n.calls| <= d < |m.calls| && m.calls[d].result.Some? ==>
          m.calls[d].result.value == Refused(RequiresLogin)
          || (!strict && m.calls[d].result.value == Refused(Temporary)))
    && forall u :: u in m.callers && u !in n.callers && m.callers[u].at.Returned? && CallerMoves(u, Cancel) !in more ==>
         m.callers[u].at.result == Refused(RequiresLogin)
         || (!strict && m.callers[u].at.result == Refused(Temporary))
  }

  /** After a call that tried a token ended with a permanent refusal: as long as the path holds nothing but that token,
      no refresh posts at all, and every caller that begins afterwards and is not cancelled gets that a new login is
      required; or that nothing could be loaded, when the path was missing or a refresh broke off in between. This
      holds in every run in which no caller had loaded another token before and not yet compared it. */
  lemma RefusedTokenStaysRefused(start: State, before: seq<Step>, c: CallId, token: nat, more: seq<Step>, strict: bool)
    requires Start(start) && CanRun(start, before)
    requires var s := Run(start, before); EndsRefused(s, c, token) && NoStaleReader(s, token)
    requires Enabled(Run(start, before), WorkerMoves(c, Proceed))
    requires CanRun(Next(Run(start, before), WorkerMoves(c, Proceed)), more)
    requires var n := Next(Run(start, before), WorkerMoves(c, Proceed));
             PathKeeps(Run(n, more).versions, Now(n), token, strict) && (strict ==> NoneBreaksOff(more))
    ensures var n := Next(Run(start, before), WorkerMoves(c, Proceed)); TokenIsBarred(n, Run(n, more), more, strict)
  {
    StartIsSound(start);
    RunKeepsViews(start, before);
    BarredAfterRefusal(Run(start, before), c, token, more, strict);
  }

  lemma BarredAfterRefusal(s: State, c: CallId, token: nat, more: seq<Step>, strict: bool)
    requires Inv(s) && ViewsHold(s) && EndsRefused(s, c, token) && NoStaleReader(s, token)
    requires CanRun(Next(s, WorkerMoves(c, Proceed)), more) && (strict ==> NoneBreaksOff(more))
    requires var n := Next(s, WorkerMoves(c, Proceed)); PathKeeps(Run(n, more).versions, Now(n), token, strict)
    ensures var n := Next(s, WorkerMoves(c, Proceed)); TokenIsBarred(n, Run(n, more), more, strict)
  {
    var n := Next(s, WorkerMoves(c, Proceed));
    StepKeepsInv(s, WorkerMoves(c, Proceed));
    VersionsGrow(n, more);
    RefusalShuts(s, c, token, strict);
    RunStaysShut(n, n, more, token, strict);
    var m := Run(n, more);
    forall u | u in m.callers && u !in n.callers && m.callers[u].at.Returned? && CallerMoves(u, Cancel) !in more
      ensures m.callers[u].at.result == Refused(RequiresLogin)
              || (!strict && m.callers[u].at.result == Refused(Temporary))
    {
      assert ThreadShut(n, m, u, token, strict);
      if GotCancelled(m, u) {
        CancelledByCancel(n, n, more, u, token, strict);
      }
    }
  }
}
