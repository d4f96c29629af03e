/** The credential refresher: callers, the one refresh in flight, savers and rollbacks, interleaved step by
    step over a mutex, a save lock and the credential file. */
module Refresher {
  import opened Bytes

  type Thread = nat
  type CallId = nat

  /** A credential: its refresh token and everything else. */
  datatype Credential = Credential(token: nat, rest: nat)

  /** What the credential path holds. Every encryption draws a nonce, so no two saves write the same bytes. */
  datatype File = Missing | Stored(credential: Credential, nonce: nat)

  datatype Error = RequiresLogin | Temporary | Cancelled

  datatype Result = Obtained(credential: Credential) | Refused(error: Error)

  // ----- What the mutex guards -----

  datatype Guarded = Guarded(inFlight: Option<CallId>, generation: nat, permanent: Option<nat>, transient: Option<nat>)

  /** A failure recorded for another token than the stored one is forgotten. */
  function Cleared(g: Guarded, token: nat): Guarded {
    var p := if g.permanent.Some? && g.permanent.value != token then None else g.permanent;
    var t := if g.transient.Some? && g.transient.value != token then None else g.transient;
    g.(permanent := p, transient := t,
       generation := if p != g.permanent || t != g.transient then g.generation + 1 else g.generation)
  }

  function Begun(g: Guarded, call: CallId): Guarded {
    g.(inFlight := Some(call), generation := g.generation + 1)
  }

  /** A call ends: its failure is recorded for the token that it tried. */
  function Ended(g: Guarded, call: CallId, result: Result, token: Option<nat>): Guarded {
    var next :=
      match result
      case Obtained(_) => g.(permanent := None, transient := None)
      case Refused(RequiresLogin) => g.(permanent := token, transient := None)
      case Refused(Temporary) => g.(transient := token)
      case Refused(Cancelled) => g;
    next.(inFlight := if g.inFlight == Some(call) then None else g.inFlight, generation := g.generation + 1)
  }

  predicate KnownPermanent(g: Guarded, token: nat) {
    g.permanent == Some(token)
  }

  // ----- Threads -----

  /** A refresh call: the version of the file at which it began, its result, and the version that held it. */
  datatype Call = Call(start: nat, result: Option<Result>, at: nat)

  /** Where a refresh stands. `seen` is the version from which it loaded `source`. */
  datatype WorkerAt =
    | Loading
    | Clearing(source: Credential, seen: nat)
    | Checking(source: Credential, seen: nat)
    | Posting(source: Credential, seen: nat)
    | AwaitingLock(source: Credential, seen: nat, renewed: Credential)
    | Comparing(source: Credential, seen: nat, renewed: Credential)
    | Replacing(source: Credential, seen: nat, renewed: Credential)
    | Finishing(result: Result, token: Option<nat>, at: nat)
    | Exited

  datatype Worker = Worker(force: bool, observed: Credential, at: WorkerAt)

  /** A guarded undo: what the save replaced, and what it wrote. */
  datatype Rollback = Rollback(previous: File, expected: File)

  datatype SaverAt =
    | SaveWaiting(credential: Credential)
    | SaveReading(credential: Credential)
    | SaveWriting(credential: Credential, previous: File)
    | SaveDone(rollback: Rollback)
    | RestoreWaiting(rollback: Rollback)
    | RestoreComparing(rollback: Rollback)
    | RestoreWriting(rollback: Rollback)
    | SaverExited

  /** Where a caller stands in Credential or in the retry after a 401. `since` is the version at its start. */
  datatype CallerAt =
    | Observing
    | Reading(view: Guarded)
    | Deciding(view: Guarded, content: File, seen: nat)
    | Joining(force: bool, observed: Credential)
    | Waiting(call: CallId, again: bool)
    | AuthReading(previous: Credential)
    | AuthClearing(previous: Credential, loaded: Credential, seen: nat)
    | AuthChecking(previous: Credential, loaded: Credential, seen: nat)
    | Forgetting(token: nat)
    | Returned(result: Result, from: Option<CallId>, seen: nat)

  datatype Caller = Caller(since: nat, at: CallerAt)

  datatype Holder = NoOne | HeldByWorker(call: CallId) | HeldBySaver(thread: Thread)

  /** `versions` are the contents the path ever had; the last is the current one. */
  datatype State = State(versions: seq<File>, lock: Holder, nonces: nat, guarded: Guarded, calls: seq<Call>,
                         workers: seq<Worker>, savers: map<Thread, SaverAt>, callers: map<Thread, Caller>)

  function Now(s: State): nat {
    if s.versions == [] then 0 else |s.versions| - 1
  }

  function Current(s: State): File
    requires s.versions != []
  {
    s.versions[|s.versions| - 1]
  }

  function WriteFile(s: State, f: File): State {
    s.(versions := s.versions + [f])
  }

  function SetWorker(s: State, c: CallId, at: WorkerAt): State
    requires c < |s.workers|
  {
    s.(workers := s.workers[c := s.workers[c].(at := at)])
  }

  function SetSaver(s: State, t: Thread, at: SaverAt): State {
    s.(savers := s.savers[t := at])
  }

  function SetCaller(s: State, t: Thread, at: CallerAt): State
    requires t in s.callers
  {
    s.(callers := s.callers[t := s.callers[t].(at := at)])
  }

  // ----- The refresh -----

  /** What the world contributes to a step of the refresh. */
  datatype WorkerInput =
    | Proceed
    | Stale(needsRefresh: bool)
    | TokenReply(reply: Result)
    | Fails(error: Error)

  predicate WorkerMay(s: State, c: CallId, i: WorkerInput) {
    && c < |s.workers| && s.versions != []
    && match s.workers[c].at
       case Loading => i.Proceed? || (i.Fails? && i.error == Temporary)
       case Clearing(_, _) => i.Proceed?
       case Checking(_, _) => i.Stale?
       case Posting(_, _) => i.TokenReply?
       case AwaitingLock(_, _, _) => s.lock == NoOne && i.Proceed?
       case Comparing(_, _, _) => i.Proceed? || (i.Fails? && i.error != RequiresLogin)
       case Replacing(_, _, _) => i.Proceed? || (i.Fails? && i.error != RequiresLogin)
       case Finishing(_, _, _) => c < |s.calls| && i.Proceed?
       case Exited => false
  }

  function CheckSource(s: State, c: CallId, source: Credential, seen: nat, needsRefresh: bool): WorkerAt
    requires c < |s.workers|
  {
    var w := s.workers[c];
    if KnownPermanent(s.guarded, source.token) then Finishing(Refused(RequiresLogin), Some(source.token), seen)
    else if (w.force && source != w.observed) || (!w.force && !needsRefresh) then
      Finishing(Obtained(source), Some(source.token), seen)
    else Posting(source, seen)
  }

  function WorkerStep(s: State, c: CallId, i: WorkerInput): State
    requires WorkerMay(s, c, i)
  {
    match s.workers[c].at
    case Loading =>
      if i.Fails? || Current(s).Missing? then SetWorker(s, c, Finishing(Refused(Temporary), None, Now(s)))
      else SetWorker(s, c, Clearing(Current(s).credential, Now(s)))
    case Clearing(source, seen) =>
      SetWorker(s.(guarded := Cleared(s.guarded, source.token)), c, Checking(source, seen))
    case Checking(source, seen) => SetWorker(s, c, CheckSource(s, c, source, seen, i.needsRefresh))
    case Posting(source, seen) =>
      if i.reply.Obtained? then SetWorker(s, c, AwaitingLock(source, seen, i.reply.credential))
      else SetWorker(s, c, Finishing(i.reply, Some(source.token), seen))
    case AwaitingLock(source, seen, renewed) =>
      SetWorker(s.(lock := HeldByWorker(c)), c, Comparing(source, seen, renewed))
    case Comparing(source, seen, renewed) =>
      if i.Fails? then SetWorker(s.(lock := NoOne), c, Finishing(Refused(i.error), Some(source.token), seen))
      else if Current(s).Missing? then
        SetWorker(s.(lock := NoOne), c, Finishing(Refused(Temporary), Some(source.token), seen))
      else if Current(s).credential != source then
        SetWorker(s.(lock := NoOne), c, Finishing(Obtained(Current(s).credential), Some(source.token), Now(s)))
      else SetWorker(s, c, Replacing(source, seen, renewed))
    case Replacing(source, seen, renewed) =>
      if i.Fails? then SetWorker(s.(lock := NoOne), c, Finishing(Refused(i.error), Some(source.token), seen))
      else
        var written := WriteFile(s, Stored(renewed, s.nonces)).(nonces := s.nonces + 1, lock := NoOne);
        SetWorker(written, c, Finishing(Obtained(renewed), Some(source.token), Now(written)))
    case Finishing(result, token, at) =>
      var ended := s.(guarded := Ended(s.guarded, c, result, token),
                      calls := s.calls[c := s.calls[c].(result := Some(result), at := at)]);
      SetWorker(ended, c, Exited)
  }

  // ----- Savers and rollbacks -----

  datatype SaverInput = Go | Stop | NewSave(credential: Credential) | Undo

  predicate SaverMay(s: State, t: Thread, i: SaverInput) {
    && s.versions != []
    && if t !in s.savers then i.NewSave?
       else match s.savers[t]
         case SaveWaiting(_) => i.Go? && s.lock == NoOne
         case SaveReading(_) => i.Go? || i.Stop?
         case SaveWriting(_, _) => i.Go? || i.Stop?
         case SaveDone(_) => i.Undo?
         case RestoreWaiting(_) => i.Go? && s.lock == NoOne
         case RestoreComparing(_) => i.Go? || i.Stop?
         case RestoreWriting(_) => i.Go? || i.Stop?
         case SaverExited => false
  }

  function SaverStep(s: State, t: Thread, i: SaverInput): State
    requires SaverMay(s, t, i)
  {
    if t !in s.savers then SetSaver(s, t, SaveWaiting(i.credential))
    else if i.Stop? then SetSaver(s.(lock := NoOne), t, SaverExited)
    else match s.savers[t]
      case SaveWaiting(credential) => SetSaver(s.(lock := HeldBySaver(t)), t, SaveReading(credential))
      case SaveReading(credential) => SetSaver(s, t, SaveWriting(credential, Current(s)))
      case SaveWriting(credential, previous) =>
        var saved := Stored(credential, s.nonces);
        SetSaver(WriteFile(s, saved).(nonces := s.nonces + 1, lock := NoOne), t, SaveDone(Rollback(previous, saved)))
      case SaveDone(rollback) => SetSaver(s, t, RestoreWaiting(rollback))
      case RestoreWaiting(rollback) => SetSaver(s.(lock := HeldBySaver(t)), t, RestoreComparing(rollback))
      case RestoreComparing(rollback) =>
        if Current(s) != rollback.expected then SetSaver(s.(lock := NoOne), t, SaverExited)
        else SetSaver(s, t, RestoreWriting(rollback))
      case RestoreWriting(rollback) => SetSaver(WriteFile(s, rollback.previous).(lock := NoOne), t, SaverExited)
      case SaverExited => s
  }

  // ----- Callers -----

  datatype CallerInput = Ask | AskAfter401(previous: Credential) | Continue | Expired(needsRefresh: bool) | Cancel

  predicate CallerMay(s: State, t: Thread, i: CallerInput) {
    && s.versions != []
    && if t !in s.callers then i.Ask? || i.AskAfter401?
       else match s.callers[t].at
         case Deciding(_, _, _) => i.Expired? || i.Cancel?
         case Waiting(call, _) => i.Cancel? || (i.Continue? && call < |s.calls| && s.calls[call].result.Some?)
         case Returned(_, _, _) => false
         case _ => i.Continue? || i.Cancel?
  }

  /** A recorded failure that is not about the stored token. */
  predicate OtherFailure(view: Guarded, token: nat) {
    (view.permanent.Some? && view.permanent.value != token) || (view.transient.Some? && view.transient.value != token)
  }

  function Decide(s: State, t: Thread, view: Guarded, loaded: File, seen: nat, needsRefresh: bool): State
    requires t in s.callers
  {
    if view.generation != s.guarded.generation then
      SetCaller(s, t, if s.guarded.inFlight.Some? then Waiting(s.guarded.inFlight.value, true) else Observing)
    else if loaded.Missing? then SetCaller(s, t, Returned(Refused(Temporary), None, 0))
    else if OtherFailure(view, loaded.credential.token) then
      SetCaller(s, t, Forgetting(loaded.credential.token))
    else if KnownPermanent(view, loaded.credential.token) then
      SetCaller(s, t, Returned(Refused(RequiresLogin), None, 0))
    else if view.inFlight.Some? then SetCaller(s, t, Waiting(view.inFlight.value, true))
    else if !needsRefresh then SetCaller(s, t, Returned(Obtained(loaded.credential), None, seen))
    else SetCaller(s, t, Joining(false, loaded.credential))
  }

  /** Join the refresh in flight, or begin one. */
  function Join(s: State, t: Thread, force: bool, observed: Credential): State
    requires t in s.callers
  {
    if s.guarded.inFlight.Some? then SetCaller(s, t, Waiting(s.guarded.inFlight.value, false))
    else
      var call := |s.calls|;
      var begun := s.(guarded := Begun(s.guarded, call), calls := s.calls + [Call(Now(s), None, 0)],
                      workers := s.workers + [Worker(force, observed, Loading)]);
      SetCaller(begun, t, Waiting(call, false))
  }

  function AfterWait(s: State, t: Thread, call: CallId, again: bool): State
    requires t in s.callers && call < |s.calls| && s.calls[call].result.Some?
  {
    var result := s.calls[call].result.value;
    if again && result.Obtained? then SetCaller(s, t, Observing)
    else SetCaller(s, t, Returned(result, Some(call), s.calls[call].at))
  }

  function CallerStep(s: State, t: Thread, i: CallerInput): State
    requires CallerMay(s, t, i)
  {
    if t !in s.callers then
      s.(callers := s.callers[t := Caller(Now(s), if i.Ask? then Observing else AuthReading(i.previous))])
    else if i.Cancel? then SetCaller(s, t, Returned(Refused(Cancelled), None, 0))
    else match s.callers[t].at
      case Observing => SetCaller(s, t, Reading(s.guarded))
      case Reading(view) => SetCaller(s, t, Deciding(view, Current(s), Now(s)))
      case Deciding(view, loaded, seen) => Decide(s, t, view, loaded, seen, i.needsRefresh)
      case Forgetting(token) => SetCaller(s.(guarded := Cleared(s.guarded, token)), t, Observing)
      case Joining(force, observed) => Join(s, t, force, observed)
      case Waiting(call, again) => AfterWait(s, t, call, again)
      case AuthReading(previous) =>
        if Current(s).Missing? then SetCaller(s, t, Returned(Refused(Temporary), None, 0))
        else SetCaller(s, t, AuthClearing(previous, Current(s).credential, Now(s)))
      case AuthClearing(previous, loaded, seen) =>
        SetCaller(s.(guarded := Cleared(s.guarded, loaded.token)), t, AuthChecking(previous, loaded, seen))
      case AuthChecking(previous, loaded, seen) =>
        if KnownPermanent(s.guarded, loaded.token) then SetCaller(s, t, Returned(Refused(RequiresLogin), None, 0))
        else if loaded != previous then SetCaller(s, t, Returned(Obtained(loaded), None, seen))
        else SetCaller(s, t, Joining(true, previous))
      case Returned(_, _, _) => s
  }

  // ----- Steps of all threads -----

  datatype Step =
    | WorkerMoves(call: CallId, w: WorkerInput)
    | SaverMoves(saver: Thread, v: SaverInput)
    | CallerMoves(caller: Thread, c: CallerInput)

  predicate Enabled(s: State, t: Step) {
    match t
    case WorkerMoves(call, i) => WorkerMay(s, call, i)
    case SaverMoves(thread, i) => SaverMay(s, thread, i)
    case CallerMoves(thread, i) => CallerMay(s, thread, i)
  }

  function Next(s: State, t: Step): State
    requires Enabled(s, t)
  {
    match t
    case WorkerMoves(call, i) => WorkerStep(s, call, i)
    case SaverMoves(thread, i) => SaverStep(s, thread, i)
    case CallerMoves(thread, i) => CallerStep(s, thread, i)
  }

  ghost predicate Start(s: State) {
    exists f: File :: s == State([f], NoOne, s.nonces, Guarded(None, 0, None, None), [], [], map[], map[])
                      && (f.Stored? ==> f.nonce < s.nonces)
  }
}
