/** What callers, refreshes and rollbacks come to: every decision told from the state as it is, and the runs of a
    refresh and of a rollback that nobody disturbs. */
module RefresherOutcomes {
  import opened Bytes
  import opened Refresher
  import opened RefresherProofs
  import opened RefresherRefusals
  import opened RefresherFindings

  // ----- Callers -----

  /** The recorded failures are about this token, if there are any. */
  predicate OnlyAbout(g: Guarded, token: nat) {
    g.permanent in {None, Some(token)} && g.transient in {None, Some(token)}
  }

  /** What becomes of a caller that has read the path: it starts over or waits when anything changed since it looked;
      else it decides on the record as it is. A credential is given only when no refresh is under way. */
  predicate Decides(s: State, view: Guarded, content: File, seen: nat, needsRefresh: bool, at: CallerAt) {
    if view != s.guarded then
      match s.guarded.inFlight
      case None => at == Observing
      case Some(call) => at == Waiting(call, true)
    else match content
      case Missing => at == Returned(Refused(Temporary), None, 0)
      case Stored(c, _) =>
        if !OnlyAbout(s.guarded, c.token) then at == Forgetting(c.token)
        else if s.guarded.permanent == Some(c.token) then at == Returned(Refused(RequiresLogin), None, 0)
        else match s.guarded.inFlight
          case Some(call) => at == Waiting(call, true)
          case None => at == if needsRefresh then Joining(false, c) else Returned(Obtained(c), None, seen)
  }

  /** What becomes of a caller after a 401: another stored credential is handed out, the same one is renewed. */
  predicate Retries(s: State, previous: Credential, loaded: Credential, seen: nat, at: CallerAt) {
    if s.guarded.permanent == Some(loaded.token) then at == Returned(Refused(RequiresLogin), None, 0)
    else at == if loaded == previous then Joining(true, previous) else Returned(Obtained(loaded), None, seen)
  }

  /** The caller of a call gets its result; one that waited for another's refresh looks again when that went well. */
  predicate Hears(s: State, call: CallId, again: bool, at: CallerAt) {
    && call < |s.calls|
    && match s.calls[call].result
       case None => false
       case Some(Refused(e)) => at == Returned(Refused(e), Some(call), s.calls[call].at)
       case Some(Obtained(c)) =>
         at == if again then Observing else Returned(Obtained(c), Some(call), s.calls[call].at)
  }

  /** A call is begun exactly when none is in flight. */
  predicate Joins(s: State, n: State, force: bool, observed: Credential, at: CallerAt) {
    match s.guarded.inFlight
    case Some(call) =>
      && at == Waiting(call, false) && n.calls == s.calls && n.workers == s.workers && n.guarded == s.guarded
    case None =>
      && at == Waiting(|s.calls|, false) && n.guarded.inFlight == Some(|s.calls|)
      && n.calls == s.calls + [Call(Now(s), None, 0)] && n.workers == s.workers + [Worker(force, observed, Loading)]
      && n.guarded.permanent == s.guarded.permanent && n.guarded.transient == s.guarded.transient
  }

  ghost predicate CallerGoes(s: State, n: State, u: Thread, i: CallerInput)
    requires u in s.callers && u in n.callers && s.versions != []
  {
    var at := n.callers[u].at;
    if i == Cancel then at == Returned(Refused(Cancelled), None, 0)
    else match s.callers[u].at
      case Observing => at == Reading(s.guarded)
      case Reading(view) => at == Deciding(view, Current(s), Now(s))
      case Deciding(view, content, seen) => i.Expired? && Decides(s, view, content, seen, i.needsRefresh, at)
      case Joining(force, observed) => Joins(s, n, force, observed, at)
      case Waiting(call, again) => Hears(s, call, again, at)
      case AuthReading(previous) =>
        at == (match Current(s)
               case Missing => Returned(Refused(Temporary), None, 0)
               case Stored(c, _) => AuthClearing(previous, c, Now(s)))
      case AuthClearing(previous, loaded, seen) =>
        at == AuthChecking(previous, loaded, seen) && OnlyAbout(n.guarded, loaded.token)
      case AuthChecking(previous, loaded, seen) => Retries(s, previous, loaded, seen, at)
      case Forgetting(token) => at == Observing && OnlyAbout(n.guarded, token)
      case Returned(_, _, _) => false
  }

  /** In every state of every run, each caller's next step is what the state asks for. */
  lemma CallersAreTold(start: State, before: seq<Step>, u: Thread, i: CallerInput)
    requires Start(start) && CanRun(start, before) && Enabled(Run(start, before), CallerMoves(u, i))
    requires u in Run(start, before).callers
    ensures var s := Run(start, before);
            s.versions != [] && u in CallerStep(s, u, i).callers && CallerGoes(s, CallerStep(s, u, i), u, i)
  {
    StartIsSound(start);
    RunKeepsViews(start, before);
    var s := Run(start, before);
    if s.callers[u].at.Deciding? {
      assert ViewOf(s.callers[u].at, s.callers[u].at.view);
    }
    CallerStepIsTold(s, u, i);
  }

  lemma CallerStepIsTold(s: State, u: Thread, i: CallerInput)
    requires CallerMay(s, u, i) && u in s.callers
    requires s.callers[u].at.Deciding? ==>
               (s.callers[u].at.view == s.guarded <==> s.callers[u].at.view.generation == s.guarded.generation)
    ensures u in CallerStep(s, u, i).callers && CallerGoes(s, CallerStep(s, u, i), u, i)
  {
  }

  // ----- Refreshes -----

  /** The token is posted exactly when it is not refused and has to be renewed: for a forced refresh when the path
      still holds the credential that was rejected, else when it expires. */
  predicate Checks(s: State, w: Worker, source: Credential, seen: nat, needsRefresh: bool, at: WorkerAt) {
    if s.guarded.permanent == Some(source.token) then at == Finishing(Refused(RequiresLogin), Some(source.token), seen)
    else if (w.force && source == w.observed) || (!w.force && needsRefresh) then at == Posting(source, seen)
    else at == Finishing(Obtained(source), Some(source.token), seen)
  }

  /** Under the lock: the renewed credential is written if the path still holds the one whose token was posted; what
      else it holds by now is the result. */
  predicate Compares(s: State, source: Credential, seen: nat, renewed: Credential, at: WorkerAt)
    requires s.versions != []
  {
    match Current(s)
    case Missing => at == Finishing(Refused(Temporary), Some(source.token), seen)
    case Stored(c, _) =>
      at == if c == source then Replacing(source, seen, renewed) else Finishing(Obtained(c), Some(source.token), Now(s))
  }

  predicate RefreshGoes(s: State, n: State, c: CallId, i: WorkerInput)
    requires c < |s.workers| && c < |n.workers| && s.versions != []
  {
    var w, at := s.workers[c], n.workers[c].at;
    match w.at
    case Loading =>
      if i.Fails? || Current(s) == Missing then at == Finishing(Refused(Temporary), None, Now(s))
      else at == Clearing(Current(s).credential, Now(s))
    case Clearing(source, seen) => at == Checking(source, seen) && OnlyAbout(n.guarded, source.token)
    case Checking(source, seen) => i.Stale? && Checks(s, w, source, seen, i.needsRefresh, at)
    case Posting(source, seen) =>
      i.TokenReply? && at == (match i.reply
                              case Obtained(c) => AwaitingLock(source, seen, c)
                              case Refused(e) => Finishing(Refused(e), Some(source.token), seen))
    case AwaitingLock(source, seen, renewed) => at == Comparing(source, seen, renewed) && n.lock == HeldByWorker(c)
    case Comparing(source, seen, renewed) =>
      && (at.Replacing? || n.lock == NoOne)
      && if i.Fails? then at == Finishing(Refused(i.error), Some(source.token), seen)
         else Compares(s, source, seen, renewed, at)
    case Replacing(source, seen, renewed) =>
      && n.lock == NoOne
      && if i.Fails? then at == Finishing(Refused(i.error), Some(source.token), seen) && n.versions == s.versions
         else
           && n.versions == s.versions + [Stored(renewed, s.nonces)]
           && at == Finishing(Obtained(renewed), Some(source.token), |s.versions|)
    case Finishing(result, _, v) =>
      at == Exited && c < |n.calls| && n.calls[c].result == Some(result) && n.calls[c].at == v
    case Exited => false
  }

  lemma RefreshStepIsTold(s: State, c: CallId, i: WorkerInput)
    requires WorkerMay(s, c, i)
    ensures c < |WorkerStep(s, c, i).workers| && RefreshGoes(s, WorkerStep(s, c, i), c, i)
  {
  }

  /** What is posted was on the path since the call began, and is not refused. */
  predicate PostsStored(s: State, c: CallId) {
    c < |s.workers| && s.workers[c].at.Posting? ==>
      var at := s.workers[c].at;
      && c < |s.calls| && s.calls[c].start <= at.seen && Held(s, at.seen, at.source)
      && s.guarded.permanent != Some(at.source.token)
  }

  /** In every state of every run, each refresh's next step is what the state asks for, and it posts only the token of
      a credential that was on the path since its call began. */
  lemma RefreshesAreTold(start: State, before: seq<Step>, c: CallId, i: WorkerInput)
    requires Start(start) && CanRun(start, before) && Enabled(Run(start, before), WorkerMoves(c, i))
    ensures var s := Run(start, before);
            && c < |s.workers| && s.versions != [] && c < |WorkerStep(s, c, i).workers|
            && RefreshGoes(s, WorkerStep(s, c, i), c, i) && PostsStored(WorkerStep(s, c, i), c)
  {
    StartIsSound(start);
    RunKeepsViews(start, before);
    var s := Run(start, before);
    RefreshStepIsTold(s, c, i);
    StepKeepsInv(s, WorkerMoves(c, i));
    var n := WorkerStep(s, c, i);
    if c < |n.calls| {
      assert WorkerSound(n, c);
    }
  }

  // ----- A refresh that nobody disturbs -----

  /** The steps from the token reply to the end of the call. */
  function Renewing(call: CallId, r: Credential): seq<Step> {
    [WorkerMoves(call, TokenReply(Obtained(r)))] + [WorkerMoves(call, Proceed)] + [WorkerMoves(call, Proceed)]
    + [WorkerMoves(call, Proceed)] + [WorkerMoves(call, Proceed)]
  }

  /** The renewed credential is stored, the call is over with it and no failure is recorded. */
  function Renewed(s: State, call: CallId, r: Credential): State
    requires call < |s.workers| && call < |s.calls|
  {
    var v := |s.versions|;
    SetWorker(s, call, Exited).(
      versions := s.versions + [Stored(r, s.nonces)], nonces := s.nonces + 1,
      calls := s.calls[call := Call(s.calls[call].start, Some(Obtained(r)), v)],
      guarded := Guarded(None, s.guarded.generation + 1, None, None))
  }

  lemma RenewingRenews(s: State, call: CallId, c: Credential, r: Credential, seen: nat)
    requires s.versions != [] && Current(s).Stored? && Current(s).credential == c && s.lock == NoOne
    requires call < |s.workers| && call < |s.calls| && s.workers[call].at == Posting(c, seen)
    requires s.guarded.inFlight == Some(call)
    ensures Reaches(s, Renewing(call, r), Renewed(s, call, r))
  {
    var go, held := WorkerMoves(call, Proceed), s.(lock := HeldByWorker(call));
    var s1, s2 := SetWorker(s, call, AwaitingLock(c, seen, r)), SetWorker(held, call, Comparing(c, seen, r));
    var s3, done := SetWorker(held, call, Replacing(c, seen, r)), Finishing(Obtained(r), Some(c.token), |s.versions|);
    var s4 := SetWorker(s, call, done).(versions := s.versions + [Stored(r, s.nonces)], nonces := s.nonces + 1);
    assert WorkerStep(s1, call, Proceed) == s2;
    assert WorkerStep(s2, call, Proceed) == s3;
    assert WorkerStep(s3, call, Proceed) == s4;
    assert WorkerStep(s4, call, Proceed) == Renewed(s, call, r);
    var p := [WorkerMoves(call, TokenReply(Obtained(r)))];
    OneMore(s, [], s, p[0], s1);
    assert [] + p == p && [] + [p[0]] == p;
    OneMore(s, p, s1, go, s2);
    OneMore(s, p + [go], s2, go, s3);
    OneMore(s, p + [go] + [go], s3, go, s4);
    OneMore(s, p + [go] + [go] + [go], s4, go, Renewed(s, call, r));
  }

  /** A caller whose credential was rejected with a 401, with nothing in its way: the token is posted once, the reply
      is stored on the path, and the caller gets it. */
  lemma RejectedCredentialIsRenewed(s: State, u: Thread, c: Credential, r: Credential)
    requires Quiet(s, c) && u !in s.callers && s.lock == NoOne
    ensures var steps := Asking(u, c) + Posts(|s.calls|) + Renewing(|s.calls|, r) + [CallerMoves(u, Continue)];
            && CanRun(s, steps)
            && var n := Run(s, steps);
               && n.versions == s.versions + [Stored(r, s.nonces)] && n.lock == NoOne
               && n.guarded.inFlight == None && n.guarded.permanent == None && n.guarded.transient == None
               && u in n.callers && n.callers[u].at == Returned(Obtained(r), Some(|s.calls|), |s.versions|)
  {
    var call, go := |s.calls|, CallerMoves(u, Continue);
    var posting := SetWorker(Asked(s, u, c), call, Posting(c, Now(s)));
    QuietPosts(s, u, c);
    RenewingRenews(posting, call, c, r, Now(s));
    var done := Renewed(posting, call, r);
    Together(s, Asking(u, c) + Posts(call), posting, Renewing(call, r), done);
    OneMore(s, Asking(u, c) + Posts(call) + Renewing(call, r), done, go, Next(done, go));
  }

  // ----- Rollbacks -----

  /** A rollback that nobody disturbs restores what its save replaced if the path still holds what the save wrote, and
      otherwise leaves the path alone. */
  lemma UndoRestoresExactly(s: State, u: Thread, rollback: Rollback)
    requires s.versions != [] && s.lock == NoOne && u in s.savers && s.savers[u] == SaveDone(rollback)
    ensures var steps := [SaverMoves(u, Undo)] + [SaverMoves(u, Go)] + [SaverMoves(u, Go)];
            if Current(s) == rollback.expected then
              Reaches(s, steps + [SaverMoves(u, Go)],
                      s.(versions := s.versions + [rollback.previous], savers := s.savers[u := SaverExited]))
            else Reaches(s, steps, s.(savers := s.savers[u := SaverExited]))
  {
    var go, held := SaverMoves(u, Go), s.(lock := HeldBySaver(u));
    var s1, s2 := SetSaver(s, u, RestoreWaiting(rollback)), SetSaver(held, u, RestoreComparing(rollback));
    assert SaverStep(s1, u, Go) == s2;
    var p := [SaverMoves(u, Undo)];
    OneMore(s, [], s, SaverMoves(u, Undo), s1);
    assert [] + p == p;
    OneMore(s, p, s1, go, s2);
    if Current(s) == rollback.expected {
      var s3 := SetSaver(held, u, RestoreWriting(rollback));
      var s4 := s.(versions := s.versions + [rollback.previous], savers := s.savers[u := SaverExited]);
      assert SaverStep(s2, u, Go) == s3;
      assert SaverStep(s3, u, Go) == s4;
      OneMore(s, p + [go], s2, go, s3);
      OneMore(s, p + [go] + [go], s3, go, s4);
    } else {
      var s3 := s.(savers := s.savers[u := SaverExited]);
      assert SaverStep(s2, u, Go) == s3;
      OneMore(s, p + [go], s2, go, s3);
    }
  }
}
