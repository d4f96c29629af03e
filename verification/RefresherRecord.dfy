/** What the refresher remembers of failures, told from the steps of the run: the last failure for a token counts
    until a call ends otherwise or somebody has loaded another token. */
module RefresherRecord {
  import opened Bytes
  import opened Refresher
  import opened RefresherProofs

  // ----- Steps that matter -----

  /** A refresh ends with this result for this token. */
  predicate EndsWith(s: State, t: Step, result: Result, tried: Option<nat>) {
    t.WorkerMoves? && t.call < |s.workers| && s.workers[t.call].at.Finishing?
    && s.workers[t.call].at.result == result && s.workers[t.call].at.token == tried
  }

  /** Somebody compares the record with another token that was loaded. */
  predicate ComparesOther(s: State, t: Step, token: nat) {
    || (t.WorkerMoves? && t.call < |s.workers| && s.workers[t.call].at.Clearing?
        && s.workers[t.call].at.source.token != token)
    || (t.CallerMoves? && t.c == Continue && t.caller in s.callers
        && match s.callers[t.caller].at
           case AuthClearing(_, loaded, _) => loaded.token != token
           case Forgetting(known) => known != token
           case _ => false)
  }

  /** A call ended well, or in a failure of the same or a graver kind that is not the one in question. */
  ghost predicate EndsOtherwise(s: State, t: Step, token: nat, error: Error) {
    exists result, tried :: EndsWith(s, t, result, tried)
      && match result
         case Obtained(_) => true
         case Refused(RequiresLogin) => error == Temporary || tried != Some(token)
         case Refused(Temporary) => error == Temporary && tried != Some(token)
         case Refused(Cancelled) => false
  }

  ghost predicate Lifts(s: State, t: Step, token: nat, error: Error) {
    EndsOtherwise(s, t, token, error) || ComparesOther(s, t, token)
  }

  predicate Remembered(g: Guarded, token: nat, error: Error) {
    if error == RequiresLogin then g.permanent == Some(token) else g.transient == Some(token)
  }

  lemma CallerRecords(s: State, u: Thread, i: CallerInput, token: nat, error: Error)
    requires CallerMay(s, u, i) && error != Cancelled
    ensures Remembered(CallerStep(s, u, i).guarded, token, error)
            <==> Remembered(s.guarded, token, error) && !ComparesOther(s, CallerMoves(u, i), token)
  {
  }

  lemma WorkerRecords(s: State, c: CallId, i: WorkerInput, token: nat, error: Error)
    requires WorkerMay(s, c, i) && error != Cancelled
    ensures var t := WorkerMoves(c, i);
            Remembered(WorkerStep(s, c, i).guarded, token, error)
            <==> EndsWith(s, t, Refused(error), Some(token))
                 || (Remembered(s.guarded, token, error) && !Lifts(s, t, token, error))
  {
    var at, t := s.workers[c].at, WorkerMoves(c, i);
    if at.Finishing? {
      assert EndsWith(s, t, at.result, at.token);
    }
  }

  /** One step records the failure, keeps it or lifts it. */
  lemma StepRecords(s: State, t: Step, token: nat, error: Error)
    requires Enabled(s, t) && error != Cancelled
    ensures Remembered(Next(s, t).guarded, token, error)
            <==> EndsWith(s, t, Refused(error), Some(token))
                 || (Remembered(s.guarded, token, error) && !Lifts(s, t, token, error))
  {
    match t
    case WorkerMoves(c, i) => WorkerRecords(s, c, i, token, error);
    case SaverMoves(u, i) =>
    case CallerMoves(u, i) => CallerRecords(s, u, i, token, error);
  }

  // ----- Over runs -----

  ghost predicate FailsAt(start: State, steps: seq<Step>, token: nat, error: Error, k: nat) {
    k < |steps| && CanRun(start, steps[..k]) && EndsWith(Run(start, steps[..k]), steps[k], Refused(error), Some(token))
  }

  ghost predicate LiftsAt(start: State, steps: seq<Step>, token: nat, error: Error, k: nat) {
    k < |steps| && CanRun(start, steps[..k]) && Lifts(Run(start, steps[..k]), steps[k], token, error)
  }

  /** After `k` the failure was not lifted any more. */
  ghost predicate LastAt(start: State, steps: seq<Step>, token: nat, error: Error, k: nat) {
    FailsAt(start, steps, token, error, k) && forall j :: k < j < |steps| ==> !LiftsAt(start, steps, token, error, j)
  }

  lemma {:induction false} RunSplits(s: State, steps: seq<Step>, front: seq<Step>, last: Step)
    requires CanRun(s, steps) && steps == front + [last]
    ensures CanRun(s, front) && Enabled(Run(s, front), last) && Run(s, steps) == Next(Run(s, front), last)
    decreases |steps|
  {
    if front == [] {
      assert steps == [last] && [last][1..] == [];
    } else {
      assert steps[1..] == front[1..] + [last];
      RunSplits(Next(s, steps[0]), steps[1..], front[1..], last);
    }
  }

  lemma LaterSteps(start: State, steps: seq<Step>, front: seq<Step>, last: Step, token: nat, error: Error, k: nat)
    requires steps == front + [last] && k < |front|
    ensures FailsAt(start, steps, token, error, k) <==> FailsAt(start, front, token, error, k)
    ensures LiftsAt(start, steps, token, error, k) <==> LiftsAt(start, front, token, error, k)
  {
    assert steps[..k] == front[..k] && steps[k] == front[k];
  }

  lemma EarlierIsLast(start: State, steps: seq<Step>, front: seq<Step>, last: Step, token: nat, error: Error, k: nat)
    requires steps == front + [last] && k < |front|
    ensures LastAt(start, steps, token, error, k)
            <==> LastAt(start, front, token, error, k) && !LiftsAt(start, steps, token, error, |front|)
  {
    LaterSteps(start, steps, front, last, token, error, k);
    forall j: nat | j < |front|
      ensures LiftsAt(start, steps, token, error, j) <==> LiftsAt(start, front, token, error, j)
    {
      LaterSteps(start, steps, front, last, token, error, j);
    }
  }

  lemma LastOfLonger(start: State, steps: seq<Step>, front: seq<Step>, last: Step, token: nat, error: Error)
    requires steps == front + [last] && CanRun(start, front)
    ensures (exists k :: LastAt(start, steps, token, error, k))
            <==> EndsWith(Run(start, front), last, Refused(error), Some(token))
                 || ((exists k :: LastAt(start, front, token, error, k))
                     && !Lifts(Run(start, front), last, token, error))
  {
    var n := |front|;
    assert steps[..n] == front && steps[n] == last;
    forall k: nat | k < n
      ensures LastAt(start, steps, token, error, k)
              <==> LastAt(start, front, token, error, k) && !LiftsAt(start, steps, token, error, n)
    {
      EarlierIsLast(start, steps, front, last, token, error, k);
    }
    if EndsWith(Run(start, front), last, Refused(error), Some(token)) {
      assert LastAt(start, steps, token, error, n);
    }
  }

  /** Over every run from a start: a failure is remembered for a token if and only if a call ended with it for that
      token, and since then no call ended otherwise and nobody compared another token. */
  lemma {:induction false} RecordIsTold(start: State, steps: seq<Step>, token: nat, error: Error)
    requires Start(start) && CanRun(start, steps) && error != Cancelled
    ensures Remembered(Run(start, steps).guarded, token, error) <==> exists k :: LastAt(start, steps, token, error, k)
    decreases |steps|
  {
    if steps != [] {
      var front, last := steps[..|steps| - 1], steps[|steps| - 1];
      assert steps == front + [last];
      RunSplits(start, steps, front, last);
      RecordIsTold(start, front, token, error);
      StepRecords(Run(start, front), last, token, error);
      LastOfLonger(start, steps, front, last, token, error);
    }
  }
}
