/** The refresher's protocol over every interleaving of callers, refreshes, savers and rollbacks. */
module RefresherProofs {
  import opened Bytes
  import opened Refresher

  // ----- The invariant -----

  /** The version of the path held this credential. */
  predicate Held(s: State, v: nat, c: Credential) {
    v < |s.versions| && s.versions[v].Stored? && s.versions[v].credential == c
  }

  predicate Unfinished(s: State, c: CallId) {
    c < |s.calls| && s.calls[c].result.None?
  }

  /** A call has one worker, which ends with it; an unfinished call is the one in flight. */
  predicate CallSound(s: State, c: CallId)
    requires |s.workers| == |s.calls| && c < |s.calls|
  {
    var call := s.calls[c];
    && call.start < |s.versions|
    && (call.result.Some? <==> s.workers[c].at.Exited?)
    && (call.result.None? <==> s.guarded.inFlight == Some(c))
    && (call.result.Some? && call.result.value.Obtained? ==>
          call.start <= call.at && Held(s, call.at, call.result.value.credential))
  }

  predicate InLock(at: WorkerAt) {
    at.Comparing? || at.Replacing?
  }

  /** Past its check, a refresh works with a token that is not refused, loaded while the call ran. */
  predicate WorkerSound(s: State, c: CallId)
    requires |s.workers| == |s.calls| && c < |s.calls|
  {
    var start := s.calls[c].start;
    (InLock(s.workers[c].at) <==> s.lock == HeldByWorker(c))
    && match s.workers[c].at
       case Clearing(source, seen) => start <= seen && Held(s, seen, source)
       case Checking(source, seen) => start <= seen && Held(s, seen, source)
       case Posting(source, seen) =>
         start <= seen && Held(s, seen, source) && !KnownPermanent(s.guarded, source.token)
       case AwaitingLock(source, seen, _) =>
         start <= seen && Held(s, seen, source) && !KnownPermanent(s.guarded, source.token)
       case Comparing(source, seen, _) =>
         start <= seen && Held(s, seen, source) && !KnownPermanent(s.guarded, source.token)
       case Replacing(source, seen, _) =>
         start <= seen && Held(s, Now(s), source) && !KnownPermanent(s.guarded, source.token)
       case Finishing(result, _, at) => result.Obtained? ==> start <= at && Held(s, at, result.credential)
       case _ => true
  }

  predicate SaverInLock(at: SaverAt) {
    at.SaveReading? || at.SaveWriting? || at.RestoreComparing? || at.RestoreWriting?
  }

  predicate SaverSound(s: State, t: Thread)
    requires s.versions != [] && t in s.savers
  {
    (SaverInLock(s.savers[t]) <==> s.lock == HeldBySaver(t))
    && (s.savers[t].SaveWriting? ==> s.savers[t].previous == Current(s))
    && (s.savers[t].RestoreWriting? ==> s.savers[t].rollback.expected == Current(s))
  }

  predicate ViewSound(s: State, view: Guarded) {
    view.inFlight.Some? ==> view.inFlight.value < |s.calls|
  }

  predicate CallerSound(s: State, t: Thread)
    requires t in s.callers
  {
    var since := s.callers[t].since;
    match s.callers[t].at
    case Reading(view) => since < |s.versions| && ViewSound(s, view)
    case Deciding(view, content, seen) =>
      since <= seen < |s.versions| && s.versions[seen] == content && ViewSound(s, view)
    case Waiting(call, _) => since < |s.versions| && call < |s.calls|
    case AuthClearing(_, loaded, seen) => since <= seen && Held(s, seen, loaded)
    case AuthChecking(_, loaded, seen) => since <= seen && Held(s, seen, loaded)
    case Returned(result, from, seen) =>
      result.Obtained? ==>
        if from.None? then since <= seen && Held(s, seen, result.credential)
        else from.value < |s.calls| && s.calls[from.value].result == Some(result) && seen == s.calls[from.value].at
    case _ => since < |s.versions|
  }

  predicate LockSound(s: State) {
    match s.lock
    case NoOne => true
    case HeldByWorker(c) => c < |s.workers|
    case HeldBySaver(t) => t in s.savers
  }

  ghost predicate Inv(s: State) {
    && s.versions != [] && |s.workers| == |s.calls| && LockSound(s)
    && (s.guarded.inFlight.Some? ==> s.guarded.inFlight.value < |s.calls|)
    && (forall c :: 0 <= c < |s.calls| ==> CallSound(s, c) && WorkerSound(s, c))
    && (forall t :: t in s.savers ==> SaverSound(s, t))
    && (forall t :: t in s.callers ==> CallerSound(s, t))
  }

  // ----- What a step leaves alone -----

  /** The path's history and the calls only grow, and results stay. */
  ghost predicate Grows(s: State, n: State) {
    && s.versions != [] && s.versions <= n.versions
    && |s.workers| == |s.calls| <= |n.calls| == |n.workers|
    && (forall c :: 0 <= c < |s.calls| && s.calls[c].result.Some? ==> n.calls[c] == s.calls[c])
  }

  /** A step of `who`: only it takes or frees the lock, and only the lock's holder writes. */
  predicate LockStep(s: State, n: State, who: Holder) {
    && (n.lock == s.lock || ((s.lock == NoOne || s.lock == who) && (n.lock == NoOne || n.lock == who)))
    && (n.versions == s.versions || s.lock == who)
  }

  /** A step of the refresh `mover` (or of none): others' places in the mutex stay, and a refused token is
      recorded only by the refresh in flight. */
  predicate GuardStep(s: State, n: State, mover: int) {
    && (n.guarded.inFlight == s.guarded.inFlight
        || (s.guarded.inFlight.Some? && s.guarded.inFlight.value == mover && n.guarded.inFlight.None?)
        || (s.guarded.inFlight.None? && n.guarded.inFlight == Some(|s.calls|)))
    && (n.guarded.permanent == s.guarded.permanent || n.guarded.permanent.None?
        || (s.guarded.inFlight.Some? && s.guarded.inFlight.value == mover))
  }

  lemma CallKept(s: State, n: State, who: Holder, mover: int, d: CallId)
    requires Inv(s) && Grows(s, n) && LockStep(s, n, who) && GuardStep(s, n, mover)
    requires d < |s.calls| && d != mover && who != HeldByWorker(d)
    requires n.calls[d] == s.calls[d] && n.workers[d] == s.workers[d]
    ensures CallSound(n, d) && WorkerSound(n, d)
  {
    assert CallSound(s, d) && WorkerSound(s, d);
  }

  lemma SaverKept(s: State, n: State, who: Holder, t: Thread)
    requires Inv(s) && Grows(s, n) && LockStep(s, n, who)
    requires t in s.savers && t in n.savers && n.savers[t] == s.savers[t] && who != HeldBySaver(t)
    ensures SaverSound(n, t)
  {
    assert SaverSound(s, t);
  }

  lemma CallerKept(s: State, n: State, t: Thread)
    requires Inv(s) && Grows(s, n)
    requires t in s.callers && t in n.callers && n.callers[t] == s.callers[t]
    ensures CallerSound(n, t)
  {
    assert CallerSound(s, t);
  }

  lemma OthersKept(s: State, n: State, who: Holder, mover: int)
    requires Inv(s) && Grows(s, n) && LockStep(s, n, who) && GuardStep(s, n, mover)
    requires who == if mover >= 0 then HeldByWorker(mover) else NoOne
    requires n.savers == s.savers && n.callers == s.callers
    requires forall d :: 0 <= d < |s.calls| && d != mover ==> n.calls[d] == s.calls[d] && n.workers[d] == s.workers[d]
    ensures forall d :: 0 <= d < |s.calls| && d != mover ==> CallSound(n, d) && WorkerSound(n, d)
    ensures forall t :: t in n.savers ==> SaverSound(n, t)
    ensures forall t :: t in n.callers ==> CallerSound(n, t)
  {
    forall d | 0 <= d < |s.calls| && d != mover
      ensures CallSound(n, d) && WorkerSound(n, d)
    {
      CallKept(s, n, who, mover, d);
    }
    forall t | t in n.savers
      ensures SaverSound(n, t)
    {
      SaverKept(s, n, who, t);
    }
    forall t | t in n.callers
      ensures CallerSound(n, t)
    {
      CallerKept(s, n, t);
    }
  }

  // ----- Steps keep it -----

  lemma WorkerFrame(s: State, c: CallId, i: WorkerInput)
    requires Inv(s) && WorkerMay(s, c, i)
    ensures var n := WorkerStep(s, c, i);
            && Grows(s, n) && LockStep(s, n, HeldByWorker(c)) && GuardStep(s, n, c) && |n.calls| == |s.calls|
            && n.savers == s.savers && n.callers == s.callers
            && forall d :: 0 <= d < |s.calls| && d != c ==> n.calls[d] == s.calls[d] && n.workers[d] == s.workers[d]
  {
    assert CallSound(s, c) && WorkerSound(s, c);
  }

  /** The mover's own part of the invariant, and the mutex's. */
  predicate MoverSound(s: State, n: State, c: CallId)
    requires s.versions != []
  {
    && |n.workers| == |n.calls| == |s.calls| && c < |n.calls| && n.versions != []
    && CallSound(n, c) && WorkerSound(n, c) && LockSound(n)
    && (n.guarded.inFlight.Some? ==> n.guarded.inFlight.value < |n.calls|)
  }

  lemma WorkerBeforeLock(s: State, c: CallId, i: WorkerInput)
    requires Inv(s) && WorkerMay(s, c, i)
    requires var at := s.workers[c].at; at.Loading? || at.Clearing? || at.Checking? || at.Posting?
    ensures MoverSound(s, WorkerStep(s, c, i), c)
  {
    assert CallSound(s, c) && WorkerSound(s, c);
  }

  lemma WorkerAtLock(s: State, c: CallId, i: WorkerInput)
    requires Inv(s) && WorkerMay(s, c, i) && (s.workers[c].at.AwaitingLock? || InLock(s.workers[c].at))
    ensures MoverSound(s, WorkerStep(s, c, i), c)
  {
    assert CallSound(s, c) && WorkerSound(s, c);
  }

  lemma WorkerItself(s: State, c: CallId, i: WorkerInput)
    requires Inv(s) && WorkerMay(s, c, i)
    ensures MoverSound(s, WorkerStep(s, c, i), c)
  {
    if s.workers[c].at.AwaitingLock? || InLock(s.workers[c].at) {
      WorkerAtLock(s, c, i);
    } else if s.workers[c].at.Finishing? {
      assert CallSound(s, c) && WorkerSound(s, c);
    } else {
      WorkerBeforeLock(s, c, i);
    }
  }

  lemma WorkerKeepsInv(s: State, c: CallId, i: WorkerInput)
    requires Inv(s) && WorkerMay(s, c, i)
    ensures Inv(WorkerStep(s, c, i))
  {
    WorkerFrame(s, c, i);
    WorkerItself(s, c, i);
    OthersKept(s, WorkerStep(s, c, i), HeldByWorker(c), c);
  }

  lemma SaverFrame(s: State, t: Thread, i: SaverInput)
    requires Inv(s) && SaverMay(s, t, i)
    ensures var n := SaverStep(s, t, i);
            && Grows(s, n) && LockStep(s, n, HeldBySaver(t)) && n.guarded == s.guarded
            && n.calls == s.calls && n.workers == s.workers && n.callers == s.callers
            && t in n.savers && n.savers == s.savers[t := n.savers[t]]
            && SaverSound(n, t) && LockSound(n)
  {
    assert t in s.savers ==> SaverSound(s, t);
  }

  lemma SaverKeepsInv(s: State, t: Thread, i: SaverInput)
    requires Inv(s) && SaverMay(s, t, i)
    ensures Inv(SaverStep(s, t, i))
  {
    SaverFrame(s, t, i);
    var n := SaverStep(s, t, i);
    forall d | 0 <= d < |n.calls|
      ensures CallSound(n, d) && WorkerSound(n, d)
    {
      CallKept(s, n, HeldBySaver(t), -1, d);
    }
    forall u | u in n.savers
      ensures SaverSound(n, u)
    {
      if u != t {
        SaverKept(s, n, HeldBySaver(t), u);
      }
    }
    forall u | u in n.callers
      ensures CallerSound(n, u)
    {
      CallerKept(s, n, u);
    }
  }

  lemma CallerFrame(s: State, t: Thread, i: CallerInput)
    requires Inv(s) && CallerMay(s, t, i)
    ensures var n := CallerStep(s, t, i);
            && Grows(s, n) && LockStep(s, n, NoOne) && GuardStep(s, n, -1)
            && n.savers == s.savers && t in n.callers && n.callers == s.callers[t := n.callers[t]]
            && n.versions == s.versions && n.lock == s.lock
            && (forall d :: 0 <= d < |s.calls| ==> n.calls[d] == s.calls[d] && n.workers[d] == s.workers[d])
  {
    assert t in s.callers ==> CallerSound(s, t);
  }

  lemma CallerItself(s: State, t: Thread, i: CallerInput)
    requires Inv(s) && CallerMay(s, t, i)
    ensures var n := CallerStep(s, t, i);
            t in n.callers && CallerSound(n, t)
  {
    assert t in s.callers ==> CallerSound(s, t);
    if t in s.callers && s.callers[t].at.Waiting? {
      assert CallSound(s, s.callers[t].at.call);
    }
  }

  lemma NewCallIsSound(s: State, t: Thread, i: CallerInput)
    requires Inv(s) && CallerMay(s, t, i)
    ensures var n := CallerStep(s, t, i);
            && |n.workers| == |n.calls| && LockSound(n)
            && (n.guarded.inFlight.Some? ==> n.guarded.inFlight.value < |n.calls|)
            && forall d :: |s.calls| <= d < |n.calls| ==> CallSound(n, d) && WorkerSound(n, d)
  {
  }

  lemma CallerKeepsInv(s: State, t: Thread, i: CallerInput)
    requires Inv(s) && CallerMay(s, t, i)
    ensures Inv(CallerStep(s, t, i))
  {
    CallerFrame(s, t, i);
    CallerItself(s, t, i);
    NewCallIsSound(s, t, i);
    var n := CallerStep(s, t, i);
    forall d | 0 <= d < |s.calls|
      ensures CallSound(n, d) && WorkerSound(n, d)
    {
      CallKept(s, n, NoOne, -1, d);
    }
    forall u | u in n.savers
      ensures SaverSound(n, u)
    {
      SaverKept(s, n, NoOne, u);
    }
    forall u | u in n.callers
      ensures CallerSound(n, u)
    {
      if u != t {
        CallerKept(s, n, u);
      }
    }
  }

  /** Every step of every thread keeps the invariant. */
  lemma StepKeepsInv(s: State, t: Step)
    requires Inv(s) && Enabled(s, t)
    ensures Inv(Next(s, t))
  {
    match t
    case WorkerMoves(c, i) => WorkerKeepsInv(s, c, i);
    case SaverMoves(u, i) => SaverKeepsInv(s, u, i);
    case CallerMoves(u, i) => CallerKeepsInv(s, u, i);
  }

  ghost predicate CanRun(s: State, steps: seq<Step>)
    decreases |steps|
  {
    steps == [] || (Enabled(s, steps[0]) && CanRun(Next(s, steps[0]), steps[1..]))
  }

  ghost function Run(s: State, steps: seq<Step>): State
    requires CanRun(s, steps)
    decreases |steps|
  {
    if steps == [] then s else Run(Next(s, steps[0]), steps[1..])
  }

  lemma StartIsSound(s: State)
    requires Start(s)
    ensures Inv(s)
    ensures |s.versions| == 1 && (s.versions[0].Stored? ==> s.versions[0].nonce < s.nonces)
  {
  }

  // ----- What follows -----

  /** At most one refresh is unfinished, and it is the one in flight. */
  lemma OneRefreshAtATime(s: State, c: CallId, d: CallId)
    requires Inv(s) && Unfinished(s, c) && Unfinished(s, d)
    ensures c == d && s.guarded.inFlight == Some(c)
  {
    assert CallSound(s, c) && CallSound(s, d);
  }

  /** The step ends call `c` only if it has no result, and leaves a result that it has. */
  ghost predicate EndsOnce(s: State, t: Step, c: CallId)
    requires Enabled(s, t)
  {
    && c < |s.calls| && |s.workers| == |s.calls| && c < |Next(s, t).calls|
    && (t.WorkerMoves? && t.call == c && s.workers[c].at.Finishing? ==>
          s.calls[c].result.None? && Next(s, t).calls[c].result.Some?)
    && (s.calls[c].result.Some? ==> Next(s, t).calls[c] == s.calls[c])
  }

  /** A call ends once: its end comes while it has no result, and its result never changes afterwards. */
  lemma CallsEndOnce(s: State, t: Step, c: CallId)
    requires Inv(s) && Enabled(s, t) && c < |s.calls|
    ensures EndsOnce(s, t, c)
  {
    assert CallSound(s, c);
    match t
    case WorkerMoves(d, i) => WorkerFrame(s, d, i);
    case SaverMoves(u, i) => SaverFrame(s, u, i);
    case CallerMoves(u, i) => CallerFrame(s, u, i);
  }

  /** No token request carries the token that is recorded as refused. */
  lemma NoPostWithRefusedToken(s: State, c: CallId)
    requires Inv(s) && c < |s.workers| && s.workers[c].at.Posting?
    ensures !KnownPermanent(s.guarded, s.workers[c].at.source.token)
  {
    assert WorkerSound(s, c);
  }

  predicate HasReturned(s: State, t: Thread) {
    t in s.callers && s.callers[t].at.Returned? && s.callers[t].at.result.Obtained?
  }

  /** The credential was the file's content at an instant since the caller began, or since the call began
      that gave it. */
  predicate WasStored(s: State, t: Thread)
    requires HasReturned(s, t)
  {
    var r := s.callers[t].at;
    && Held(s, r.seen, r.result.credential)
    && if r.from.None? then s.callers[t].since <= r.seen
       else r.from.value < |s.calls| && s.calls[r.from.value].start <= r.seen
            && s.calls[r.from.value].result == Some(r.result)
  }

  /** A credential that a call hands to its waiters was the file's content at some instant of that call; one
      that a caller read itself was the content at some instant since the caller began. */
  lemma CredentialsWereStored(s: State, t: Thread)
    requires Inv(s) && HasReturned(s, t)
    ensures WasStored(s, t)
  {
    assert CallerSound(s, t);
    var r := s.callers[t].at;
    if r.from.Some? {
      assert CallSound(s, r.from.value);
    }
  }

  /** What a step may do to the file. A refresh replaces only the very credential whose token it renewed. A
      rollback replaces only the bytes that its own save wrote, by the bytes that the save had replaced. A
      save remembers exactly what it replaced. Every other step leaves the file alone. */
  ghost predicate RespectsOthers(s: State, t: Step)
    requires Enabled(s, t)
  {
    var n := Next(s, t);
    n.versions != s.versions ==>
      s.versions != []
      && if t.WorkerMoves? then
           && t.call < |s.workers| && s.workers[t.call].at.Replacing? && Held(s, Now(s), s.workers[t.call].at.source)
           && n.versions == s.versions + [Stored(s.workers[t.call].at.renewed, s.nonces)]
         else
           && t.SaverMoves? && t.saver in s.savers && t.saver in n.savers
           && if s.savers[t.saver].RestoreWriting? then
                && Current(s) == s.savers[t.saver].rollback.expected
                && n.versions == s.versions + [s.savers[t.saver].rollback.previous]
              else
                && s.savers[t.saver].SaveWriting? && n.savers[t.saver].SaveDone?
                && n.versions == s.versions + [n.savers[t.saver].rollback.expected]
                && n.savers[t.saver].rollback.previous == Current(s)
  }

  lemma WritesRespectOthers(s: State, t: Step)
    requires Inv(s) && Enabled(s, t)
    ensures RespectsOthers(s, t)
  {
    match t
    case WorkerMoves(c, i) =>
      assert CallSound(s, c) && WorkerSound(s, c);
    case SaverMoves(u, i) =>
      assert u in s.savers ==> SaverSound(s, u);
    case CallerMoves(u, i) => CallerFrame(s, u, i);
  }

  predicate SameBytes(f: File, g: File) {
    f.Stored? && g.Stored? && f.nonce == g.nonce ==> f == g
  }

  /** Every save writes bytes that the path never held before, so equal bytes are the same save's. */
  ghost predicate NoncesUnique(s: State) {
    && (forall v :: 0 <= v < |s.versions| && s.versions[v].Stored? ==> s.versions[v].nonce < s.nonces)
    && (forall v, w :: 0 <= v < |s.versions| && 0 <= w < |s.versions| ==> SameBytes(s.versions[v], s.versions[w]))
  }

  /** A rollback knows only contents that the path did hold. */
  ghost predicate RollbacksKnown(s: State) {
    forall t :: t in s.savers && (s.savers[t].SaveDone? || s.savers[t].RestoreWaiting? || s.savers[t].RestoreComparing?
                                  || s.savers[t].RestoreWriting?) ==>
      s.savers[t].rollback.previous in s.versions && s.savers[t].rollback.expected in s.versions
  }

  lemma NewBytes(s: State, c: Credential)
    requires s.versions != [] && NoncesUnique(s)
    ensures Stored(c, s.nonces) !in s.versions
    ensures NoncesUnique(WriteFile(s, Stored(c, s.nonces)).(nonces := s.nonces + 1))
  {
  }

  lemma OldBytes(s: State, f: File)
    requires NoncesUnique(s) && f in s.versions
    ensures NoncesUnique(WriteFile(s, f))
  {
  }

  lemma WorkerKeepsBytes(s: State, c: CallId, i: WorkerInput)
    requires NoncesUnique(s) && WorkerMay(s, c, i)
    ensures NoncesUnique(WorkerStep(s, c, i)) && WorkerStep(s, c, i).savers == s.savers
    ensures s.versions <= WorkerStep(s, c, i).versions
  {
    if s.workers[c].at.Replacing? {
      NewBytes(s, s.workers[c].at.renewed);
    }
  }

  lemma RollbacksStay(s: State, n: State)
    requires RollbacksKnown(s) && n.savers == s.savers && s.versions <= n.versions
    ensures RollbacksKnown(n)
  {
    assert forall f :: f in s.versions ==> f in n.versions;
  }

  lemma StepKeepsBytes(s: State, t: Step)
    requires Inv(s) && NoncesUnique(s) && RollbacksKnown(s) && Enabled(s, t)
    ensures NoncesUnique(Next(s, t)) && RollbacksKnown(Next(s, t))
  {
    match t
    case WorkerMoves(c, i) =>
      WorkerKeepsBytes(s, c, i);
      RollbacksStay(s, WorkerStep(s, c, i));
    case SaverMoves(u, i) =>
      SaverKeepsBytes(s, u, i);
    case CallerMoves(u, i) =>
      CallerKeepsBytes(s, u, i);
      RollbacksStay(s, CallerStep(s, u, i));
  }

  lemma CallerKeepsBytes(s: State, t: Thread, i: CallerInput)
    requires CallerMay(s, t, i)
    ensures var n := CallerStep(s, t, i);
            n.versions == s.versions && n.nonces == s.nonces && n.savers == s.savers
  {
  }

  lemma SaverKeepsBytes(s: State, t: Thread, i: SaverInput)
    requires Inv(s) && NoncesUnique(s) && RollbacksKnown(s) && SaverMay(s, t, i)
    ensures NoncesUnique(SaverStep(s, t, i)) && RollbacksKnown(SaverStep(s, t, i))
  {
    var n := SaverStep(s, t, i);
    SaverFrame(s, t, i);
    if t in s.savers && i.Go? && s.savers[t].SaveWriting? {
      assert SaverSound(s, t);
      NewBytes(s, s.savers[t].credential);
      assert n.savers[t].rollback.previous == Current(s) && Current(s) in s.versions;
    } else if t in s.savers && i.Go? && s.savers[t].RestoreWriting? {
      OldBytes(s, s.savers[t].rollback.previous);
    }
    assert forall f :: f in s.versions ==> f in n.versions;
  }

  /** In every state that any interleaving reaches, the protocol's invariants hold and saved bytes are unique. */
  lemma {:induction false} RunsAreSound(s: State, steps: seq<Step>)
    requires Inv(s) && NoncesUnique(s) && RollbacksKnown(s) && CanRun(s, steps)
    ensures Inv(Run(s, steps)) && NoncesUnique(Run(s, steps)) && RollbacksKnown(Run(s, steps))
    decreases |steps|
  {
    if steps != [] {
      StepKeepsInv(s, steps[0]);
      StepKeepsBytes(s, steps[0]);
      RunsAreSound(Next(s, steps[0]), steps[1..]);
    }
  }

  ghost predicate ResultsStay(s: State, n: State) {
    |s.calls| <= |n.calls| && forall c :: 0 <= c < |s.calls| && s.calls[c].result.Some? ==> n.calls[c] == s.calls[c]
  }

  /** The result of a call never changes over any run. */
  lemma {:induction false} ResultsAreFixed(s: State, steps: seq<Step>)
    requires Inv(s) && CanRun(s, steps)
    ensures ResultsStay(s, Run(s, steps))
    decreases |steps|
  {
    if steps != [] {
      var n := Next(s, steps[0]);
      StepKeepsInv(s, steps[0]);
      forall c | 0 <= c < |s.calls|
        ensures c < |n.calls| && (s.calls[c].result.Some? ==> n.calls[c] == s.calls[c])
      {
        CallsEndOnce(s, steps[0], c);
      }
      CallsNeverGo(s, steps[0]);
      ResultsAreFixed(n, steps[1..]);
    }
  }

  lemma CallsNeverGo(s: State, t: Step)
    requires Inv(s) && Enabled(s, t)
    ensures |s.calls| <= |Next(s, t).calls|
  {
    match t
    case WorkerMoves(d, i) => WorkerFrame(s, d, i);
    case SaverMoves(u, i) => SaverFrame(s, u, i);
    case CallerMoves(u, i) => CallerFrame(s, u, i);
  }

  /** What holds in one state: one refresh at a time, no request with a refused token, and every credential
      returned was stored when it may have been. */
  ghost predicate Guarantees(s: State) {
    && (forall c, d :: Unfinished(s, c) && Unfinished(s, d) ==> c == d)
    && (forall c :: 0 <= c < |s.workers| && s.workers[c].at.Posting? ==>
          !KnownPermanent(s.guarded, s.workers[c].at.source.token))
    && (forall t :: HasReturned(s, t) ==> WasStored(s, t))
    && NoncesUnique(s) && RollbacksKnown(s)
  }

  /** What holds of one step: it ends no call twice and writes over nobody. */
  ghost predicate StepGuarantees(s: State, t: Step)
    requires Enabled(s, t)
  {
    RespectsOthers(s, t) && forall c :: 0 <= c < |s.calls| ==> EndsOnce(s, t, c)
  }

  lemma SoundStatesGuarantee(s: State)
    requires Inv(s) && NoncesUnique(s) && RollbacksKnown(s)
    ensures Guarantees(s)
  {
    forall c, d | Unfinished(s, c) && Unfinished(s, d)
      ensures c == d
    {
      OneRefreshAtATime(s, c, d);
    }
    forall c | 0 <= c < |s.workers| && s.workers[c].at.Posting?
      ensures !KnownPermanent(s.guarded, s.workers[c].at.source.token)
    {
      NoPostWithRefusedToken(s, c);
    }
    forall t | HasReturned(s, t)
      ensures WasStored(s, t)
    {
      CredentialsWereStored(s, t);
    }
  }

  /** The guarantees, from any start and for any interleaving: in every state that is reached, of every step
      that is taken from there, and for the results of calls over whatever follows. */
  lemma ProtocolHolds(s: State, steps: seq<Step>, more: seq<Step>)
    requires Start(s) && CanRun(s, steps) && CanRun(Run(s, steps), more)
    ensures Guarantees(Run(s, steps))
    ensures more != [] ==> StepGuarantees(Run(s, steps), more[0])
    ensures ResultsStay(Run(s, steps), Run(Run(s, steps), more))
  {
    StartIsSound(s);
    RunsAreSound(s, steps);
    var n := Run(s, steps);
    SoundStatesGuarantee(n);
    ResultsAreFixed(n, more);
    if more != [] {
      WritesRespectOthers(n, more[0]);
      forall c | 0 <= c < |n.calls|
        ensures EndsOnce(n, more[0], c)
      {
        CallsEndOnce(n, more[0], c);
      }
    }
  }
}
