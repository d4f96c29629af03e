/** The sections of the refresher that run under its mutex, and of the credential file under the save lock. */
module RefresherState {
  import opened Bytes
  import opened Refresher
  import opened RefresherProofs

  /** The fields behind the mutex. Each method is one critical section. */
  class Mutexed {
    var inFlight: Option<CallId>
    var generation: nat
    var permanentToken: Option<nat>
    var transientToken: Option<nat>

    function Value(): Guarded
      reads this
    {
      Guarded(inFlight, generation, permanentToken, transientToken)
    }

    constructor ()
      ensures Value() == Guarded(None, 0, None, None)
    {
      inFlight, generation, permanentToken, transientToken := None, 0, None, None;
    }

    method ClearChangedFailures(token: nat)
      modifies this
      ensures Value() == Cleared(old(Value()), token)
    {
      var changed := false;
      if permanentToken.Some? && permanentToken.value != token {
        permanentToken := None;
        changed := true;
      }
      if transientToken.Some? && transientToken.value != token {
        transientToken := None;
        changed := true;
      }
      if changed {
        generation := generation + 1;
      }
    }

    /** Join the refresh in flight, or put this one in flight. */
    method JoinOrBegin(call: CallId) returns (joined: Option<CallId>)
      modifies this
      ensures joined == old(inFlight)
      ensures Value() == if joined.Some? then old(Value()) else Begun(old(Value()), call)
    {
      joined := inFlight;
      if joined.Some? {
        return;
      }
      inFlight := Some(call);
      generation := generation + 1;
    }

    method FinishRefresh(call: CallId, result: Result, token: Option<nat>)
      modifies this
      ensures Value() == Ended(old(Value()), call, result, token)
    {
      match result {
        case Obtained(_) =>
          permanentToken := None;
          transientToken := None;
        case Refused(RequiresLogin) =>
          permanentToken := token;
          transientToken := None;
        case Refused(Temporary) =>
          transientToken := token;
        case Refused(Cancelled) =>
      }
      if inFlight == Some(call) {
        inFlight := None;
      }
      generation := generation + 1;
    }
  }

  lemma RunOne(s: State, t: Step)
    requires Enabled(s, t)
    ensures CanRun(s, [t]) && Run(s, [t]) == Next(s, t)
  {
    assert [t][1..] == [];
  }

  lemma RunTwo(s: State, t: Step, u: Step)
    requires Enabled(s, t) && Enabled(Next(s, t), u)
    ensures CanRun(s, [t, u]) && Run(s, [t, u]) == Next(Next(s, t), u)
  {
    RunOne(Next(s, t), u);
    assert [t, u][1..] == [u];
  }

  predicate OfWorker(steps: seq<Step>, c: CallId) {
    forall i :: 0 <= i < |steps| ==> steps[i].WorkerMoves? && steps[i].call == c
  }

  predicate OfSaver(steps: seq<Step>, t: Thread) {
    forall i :: 0 <= i < |steps| ==> steps[i].SaverMoves? && steps[i].saver == t
  }

  /** The credential path under the save lock. A write takes effect as a whole or fails. Each method is a run
      of its own thread's steps in the protocol: from a state `s` that the path backs, `steps` lead to one that
      it backs again, and in which the thread is where the method's results say. */
  class CredentialFile {
    var content: File
    var nonces: nat

    ghost predicate Valid()
      reads this
    {
      content.Stored? ==> content.nonce < nonces
    }

    /** The path is what the protocol's state says. */
    ghost predicate Backs(s: State)
      reads this
    {
      s.versions != [] && content == Current(s) && nonces == s.nonces
    }

    constructor ()
      ensures Valid() && content == Missing
    {
      content, nonces := Missing, 0;
    }

    method WriteCredential(credential: Credential) returns (ok: bool)
      requires Valid()
      modifies this
      ensures Valid()
      ensures ok ==> content == Stored(credential, old(nonces)) && nonces == old(nonces) + 1
      ensures !ok ==> content == old(content) && nonces == old(nonces)
    {
      if * {
        return false;
      }
      content := Stored(credential, nonces);
      nonces := nonces + 1;
      ok := true;
    }

    /** Write `replacement` only over `expected`; otherwise give back what is stored. This is what a refresh
        does from its comparison on, and what is given back is its result. */
    method SaveIfUnchanged(ghost s: State, ghost c: CallId, expected: Credential, replacement: Credential)
      returns (stored: Option<Credential>, saved: bool, ghost steps: seq<Step>)
      requires Valid() && Backs(s) && c < |s.workers|
      requires s.workers[c].at.Comparing? && s.workers[c].at.source == expected
               && s.workers[c].at.renewed == replacement
      modifies this
      ensures Valid()
      ensures OfWorker(steps, c) && CanRun(s, steps) && Backs(Run(s, steps)) && Run(s, steps).lock == NoOne
      ensures var n := Run(s, steps);
              && c < |n.workers| && n.workers[c].at.Finishing?
              && n.workers[c].at.result == (if stored.Some? then Obtained(stored.value) else Refused(Temporary))
      ensures saved ==> old(content).Stored? && old(content).credential == expected
                        && content == Stored(replacement, old(nonces)) && stored == Some(replacement)
      ensures !saved ==> content == old(content)
      ensures !saved && stored.Some? ==> content.Stored? && content.credential == stored.value != expected
      ensures old(content).Missing? ==> stored.None?
    {
      saved := false;
      ghost var compare := WorkerMoves(c, Proceed);
      RunOne(s, compare);
      steps := [compare];
      if content.Missing? {
        return None, false, steps;
      }
      if content.credential != expected {
        return Some(content.credential), false, steps;
      }
      saved := WriteCredential(replacement);
      stored := if saved then Some(replacement) else None;
      ghost var replace := WorkerMoves(c, if saved then Proceed else Fails(Temporary));
      RunTwo(s, compare, replace);
      steps := [compare, replace];
    }

    /** Save, and remember what to put back: what a saver does once it holds the lock. */
    method SaveWithRollback(ghost s: State, ghost t: Thread, credential: Credential)
      returns (rollback: Option<Rollback>, ghost steps: seq<Step>)
      requires Valid() && Backs(s) && t in s.savers && s.savers[t] == SaveReading(credential)
      modifies this
      ensures Valid()
      ensures OfSaver(steps, t) && CanRun(s, steps) && Backs(Run(s, steps)) && Run(s, steps).lock == NoOne
      ensures t in Run(s, steps).savers
              && Run(s, steps).savers[t] == (if rollback.Some? then SaveDone(rollback.value) else SaverExited)
      ensures rollback.Some? ==> rollback.value.previous == old(content) && rollback.value.expected == content
                                 && content == Stored(credential, old(nonces)) && content != old(content)
      ensures rollback.None? ==> content == old(content)
    {
      var previous := content;
      var ok := WriteCredential(credential);
      rollback := if ok then Some(Rollback(previous, content)) else None;
      ghost var read, write := SaverMoves(t, Go), SaverMoves(t, if ok then Go else Stop);
      RunTwo(s, read, write);
      steps := [read, write];
    }

    /** Put back what a save replaced, unless the path was written since: what a rollback does once it holds
        the lock. */
    method Restore(ghost s: State, ghost t: Thread, rollback: Rollback) returns (restored: bool, ghost steps: seq<Step>)
      requires Valid() && Backs(s) && t in s.savers && s.savers[t] == RestoreComparing(rollback)
      requires rollback.previous.Stored? ==> rollback.previous.nonce < nonces
      modifies this`content
      ensures Valid()
      ensures OfSaver(steps, t) && CanRun(s, steps) && Backs(Run(s, steps)) && Run(s, steps).lock == NoOne
      ensures t in Run(s, steps).savers && Run(s, steps).savers[t] == SaverExited
      ensures restored ==> old(content) == rollback.expected && content == rollback.previous
      ensures !restored ==> content == old(content)
    {
      ghost var compare := SaverMoves(t, Go);
      RunOne(s, compare);
      steps := [compare];
      if content != rollback.expected {
        return false, steps;
      }
      restored := *;
      if restored {
        content := rollback.previous;
      }
      ghost var write := SaverMoves(t, if restored then Go else Stop);
      RunTwo(s, compare, write);
      steps := [compare, write];
    }
  }
}
