/** A refused token that is tried again although the path held nothing else since the refusal: a caller that had
    loaded another token before makes the refresher forget the refusal. */
module RefresherFindings {
  import opened Bytes
  import opened Refresher
  import opened RefresherProofs
  import opened RefresherRefusals

  ghost predicate Reaches(s: State, steps: seq<Step>, m: State) {
    CanRun(s, steps) && Run(s, steps) == m
  }

  lemma {:induction false} OneMore(s: State, steps: seq<Step>, m: State, t: Step, n: State)
    requires Reaches(s, steps, m) && Enabled(m, t) && Next(m, t) == n
    ensures Reaches(s, steps + [t], n)
    decreases |steps|
  {
    if steps == [] {
      assert steps + [t] == [t] && [t][1..] == [];
    } else {
      assert (steps + [t])[1..] == steps[1..] + [t];
      OneMore(Next(s, steps[0]), steps[1..], m, t, n);
    }
  }

  lemma {:induction false} Together(s: State, a: seq<Step>, m: State, b: seq<Step>, n: State)
    requires Reaches(s, a, m) && Reaches(m, b, n)
    ensures Reaches(s, a + b, n)
    decreases |a|
  {
    if a == [] {
      assert a + b == b;
    } else {
      assert (a + b)[1..] == a[1..] + b;
      Together(Next(s, a[0]), a[1..], m, b, n);
    }
  }

  // ----- A forced refresh with nothing in its way -----

  /** Nothing is in flight, no failure is recorded, and the path holds this credential. */
  predicate Quiet(s: State, c: Credential) {
    && s.versions != [] && Current(s).Stored? && Current(s).credential == c && |s.workers| == |s.calls|
    && s.guarded.inFlight == None && s.guarded.permanent == None && s.guarded.transient == None
  }

  function At(s: State, u: Thread, at: CallerAt): State {
    s.(callers := s.callers[u := Caller(Now(s), at)])
  }

  lemma Moved(s: State, u: Thread, was: CallerAt, at: CallerAt)
    ensures SetCaller(At(s, u, was), u, at) == At(s, u, at)
  {
  }

  /** A caller asks for a refresh after a 401 for the stored credential. */
  function Asking(u: Thread, c: Credential): seq<Step> {
    [CallerMoves(u, AskAfter401(c))] + [CallerMoves(u, Continue)] + [CallerMoves(u, Continue)]
    + [CallerMoves(u, Continue)] + [CallerMoves(u, Continue)]
  }

  /** The state in which a forced refresh was begun for it. */
  function Asked(s: State, u: Thread, c: Credential): State {
    At(s, u, Waiting(|s.calls|, false)).(guarded := Begun(s.guarded, |s.calls|),
                                         calls := s.calls + [Call(Now(s), None, 0)],
                                         workers := s.workers + [Worker(true, c, Loading)])
  }

  lemma AskingBegins(s: State, u: Thread, c: Credential)
    requires Quiet(s, c) && u !in s.callers
    ensures Reaches(s, Asking(u, c), Asked(s, u, c))
  {
    var go := CallerMoves(u, Continue);
    var a1, a2, a3, a4 := AuthReading(c), AuthClearing(c, c, Now(s)), AuthChecking(c, c, Now(s)), Joining(true, c);
    Moved(s, u, a1, a2);
    Moved(s, u, a2, a3);
    Moved(s, u, a3, a4);
    Moved(s, u, a4, Waiting(|s.calls|, false));
    var p1 := [CallerMoves(u, AskAfter401(c))];
    OneMore(s, [], s, CallerMoves(u, AskAfter401(c)), At(s, u, a1));
    assert [] + p1 == p1;
    OneMore(s, p1, At(s, u, a1), go, At(s, u, a2));
    OneMore(s, p1 + [go], At(s, u, a2), go, At(s, u, a3));
    OneMore(s, p1 + [go] + [go], At(s, u, a3), go, At(s, u, a4));
    OneMore(s, p1 + [go] + [go] + [go], At(s, u, a4), go, Asked(s, u, c));
  }

  lemma WorkerMoved(s: State, c: CallId, was: WorkerAt, at: WorkerAt)
    requires c < |s.workers|
    ensures SetWorker(SetWorker(s, c, was), c, at) == SetWorker(s, c, at)
  {
  }

  /** The refresh loads the credential and posts its token, although it is not expired. */
  function Posts(call: CallId): seq<Step> {
    [WorkerMoves(call, Proceed)] + [WorkerMoves(call, Proceed)] + [WorkerMoves(call, Stale(false))]
  }

  lemma ForcedRefreshPosts(s: State, call: CallId, c: Credential)
    requires s.versions != [] && Current(s).Stored? && Current(s).credential == c
    requires s.guarded.permanent == None && s.guarded.transient == None
    requires call < |s.workers| && s.workers[call] == Worker(true, c, Loading)
    ensures Reaches(s, Posts(call), SetWorker(s, call, Posting(c, Now(s))))
  {
    var p, v := WorkerMoves(call, Proceed), Now(s);
    var w1, w2 := Clearing(c, v), Checking(c, v);
    WorkerMoved(s, call, w1, w2);
    WorkerMoved(s, call, w2, Posting(c, v));
    assert s.guarded == Cleared(s.guarded, c.token);
    OneMore(s, [], s, p, SetWorker(s, call, w1));
    assert [] + [p] == [p];
    OneMore(s, [p], SetWorker(s, call, w1), p, SetWorker(s, call, w2));
    OneMore(s, [p] + [p], SetWorker(s, call, w2), WorkerMoves(call, Stale(false)), SetWorker(s, call, Posting(c, v)));
  }

  lemma QuietPosts(s: State, u: Thread, c: Credential)
    requires Quiet(s, c) && u !in s.callers
    ensures Reaches(s, Asking(u, c) + Posts(|s.calls|), SetWorker(Asked(s, u, c), |s.calls|, Posting(c, Now(s))))
  {
    AskingBegins(s, u, c);
    ForcedRefreshPosts(Asked(s, u, c), |s.calls|, c);
    Together(s, Asking(u, c), Asked(s, u, c), Posts(|s.calls|),
             SetWorker(Asked(s, u, c), |s.calls|, Posting(c, Now(s))));
  }

  // ----- The stale reader -----

  /** A run that posts the token again while the path kept it, or nothing, all along. */
  ghost predicate TriedAgain(n: State, more: seq<Step>, token: nat) {
    && n.versions != [] && CanRun(n, more) && PathKeeps(Run(n, more).versions, Now(n), token, false)
    && exists d :: 0 <= d < |Run(n, more).workers| && Run(n, more).workers[d].at.Posting?
                   && Run(n, more).workers[d].at.source.token == token
  }

  /** The state after the stale reader's step. */
  function Forgot(n: State, reader: Thread): State
    requires CallerMay(n, reader, Continue)
  {
    CallerStep(n, reader, Continue)
  }

  lemma StaleReaderForgets(n: State, reader: Thread, c: Credential)
    requires n.versions != [] && Current(n).Stored? && Current(n).credential == c && |n.workers| == |n.calls|
    requires n.guarded.inFlight == None && n.guarded.permanent == Some(c.token) && n.guarded.transient == None
    requires reader in n.callers && StaleReader(n.callers[reader].at, c.token)
    ensures CallerMay(n, reader, Continue)
    ensures var m := Forgot(n, reader); Quiet(m, c) && m.versions == n.versions && m.callers.Keys == n.callers.Keys
  {
  }

  lemma StaleReaderTriesAgain(n: State, reader: Thread, other: Thread, c: Credential) returns (more: seq<Step>)
    requires n.versions != [] && Current(n).Stored? && Current(n).credential == c && |n.workers| == |n.calls|
    requires n.guarded.inFlight == None && n.guarded.permanent == Some(c.token) && n.guarded.transient == None
    requires reader in n.callers && StaleReader(n.callers[reader].at, c.token) && other !in n.callers
    ensures TriedAgain(n, more, c.token)
  {
    StaleReaderForgets(n, reader, c);
    var m, t := Forgot(n, reader), CallerMoves(reader, Continue);
    QuietPosts(m, other, c);
    var end := SetWorker(Asked(m, other, c), |m.calls|, Posting(c, Now(m)));
    OneMore(n, [], n, t, m);
    assert [] + [t] == [t];
    Together(n, [t], m, Asking(other, c) + Posts(|m.calls|), end);
    more := [t] + (Asking(other, c) + Posts(|m.calls|));
    assert end.workers[|m.calls|].at == Posting(c, Now(m)) && end.versions == n.versions;
  }

  /** Some thread has not asked yet. */
  lemma FreshThread(callers: map<Thread, Caller>) returns (u: Thread)
    ensures u !in callers
  {
    var bound := BoundOf(callers.Keys);
    u := bound;
  }

  lemma {:induction false} BoundOf(threads: set<Thread>) returns (bound: nat)
    ensures forall u :: u in threads ==> u < bound
  {
    if threads == {} {
      bound := 0;
    } else {
      var u :| u in threads;
      var rest := BoundOf(threads - {u});
      bound := rest + u + 1;
      assert forall v :: v in threads ==> v == u || v in threads - {u};
    }
  }

  /** A refused token that stays on the path can be tried again if and only if, at the refusal, some caller had loaded
      another token before and not yet compared it. */
  lemma TriedAgainExactly(start: State, before: seq<Step>, c: CallId, token: nat)
    requires Start(start) && CanRun(start, before) && EndsRefused(Run(start, before), c, token)
    requires Enabled(Run(start, before), WorkerMoves(c, Proceed)) && OnlyToken(Current(Run(start, before)), token, true)
    ensures (exists more :: TriedAgain(Next(Run(start, before), WorkerMoves(c, Proceed)), more, token))
            <==> !NoStaleReader(Run(start, before), token)
  {
    StartIsSound(start);
    RunKeepsViews(start, before);
    var s := Run(start, before);
    var n := Next(s, WorkerMoves(c, Proceed));
    if NoStaleReader(s, token) {
      forall more | CanRun(n, more)
        ensures !TriedAgain(n, more, token)
      {
        if PathKeeps(Run(n, more).versions, Now(n), token, false) {
          BarredAfterRefusal(s, c, token, more, false);
        }
      }
    } else {
      var reader :| reader in s.callers && StaleReader(s.callers[reader].at, token);
      StepKeepsInv(s, WorkerMoves(c, Proceed));
      assert CallSound(s, c);
      var other := FreshThread(n.callers);
      var more := StaleReaderTriesAgain(n, reader, other, Current(n).credential);
      assert TriedAgain(n, more, token);
    }
  }

  // ----- It does happen -----

  /** The path holds `a`, then `b` is saved over it. */
  function Saving(u: Thread, b: Credential): seq<Step> {
    [SaverMoves(u, NewSave(b))] + [SaverMoves(u, Go)] + [SaverMoves(u, Go)] + [SaverMoves(u, Go)]
  }

  function Saved(s: State, u: Thread, b: Credential): State
    requires s.versions != []
  {
    var file := Stored(b, s.nonces);
    s.(versions := s.versions + [file], nonces := s.nonces + 1,
       savers := s.savers[u := SaveDone(Rollback(Current(s), file))])
  }

  lemma SavingSaves(s: State, u: Thread, b: Credential)
    requires s.versions != [] && s.lock == NoOne && u !in s.savers
    ensures Reaches(s, Saving(u, b), Saved(s, u, b))
  {
    var go := SaverMoves(u, Go);
    var s1 := s.(savers := s.savers[u := SaveWaiting(b)]);
    var s2 := s.(savers := s.savers[u := SaveReading(b)], lock := HeldBySaver(u));
    var s3 := s.(savers := s.savers[u := SaveWriting(b, Current(s))], lock := HeldBySaver(u));
    assert SaverStep(s1, u, Go) == s2;
    assert SaverStep(s2, u, Go) == s3;
    assert SaverStep(s3, u, Go) == Saved(s, u, b);
    var p := [SaverMoves(u, NewSave(b))];
    OneMore(s, [], s, SaverMoves(u, NewSave(b)), s1);
    assert [] + p == p;
    OneMore(s, p, s1, go, s2);
    OneMore(s, p + [go], s2, go, s3);
    OneMore(s, p + [go] + [go], s3, go, Saved(s, u, b));
  }

  lemma ReaderWaits(s: State, u: Thread, a: Credential)
    requires s.versions != [] && Current(s).Stored? && Current(s).credential == a && u !in s.callers
    ensures Reaches(s, [CallerMoves(u, AskAfter401(a))] + [CallerMoves(u, Continue)],
                    At(s, u, AuthClearing(a, a, Now(s))))
  {
    Moved(s, u, AuthReading(a), AuthClearing(a, a, Now(s)));
    OneMore(s, [], s, CallerMoves(u, AskAfter401(a)), At(s, u, AuthReading(a)));
    assert [] + [CallerMoves(u, AskAfter401(a))] == [CallerMoves(u, AskAfter401(a))];
    OneMore(s, [CallerMoves(u, AskAfter401(a))], At(s, u, AuthReading(a)), CallerMoves(u, Continue),
            At(s, u, AuthClearing(a, a, Now(s))));
  }

  lemma PostIsRefused(s: State, c: CallId, source: Credential, seen: nat)
    requires s.versions != [] && c < |s.workers| && s.workers[c].at == Posting(source, seen) && c < |s.calls|
    ensures var t := WorkerMoves(c, TokenReply(Refused(RequiresLogin)));
            Enabled(s, t) && EndsRefused(Next(s, t), c, source.token) && Next(s, t).callers == s.callers
            && Next(s, t).versions == s.versions && Enabled(Next(s, t), WorkerMoves(c, Proceed))
  {
  }

  /** From any start with a stored credential, some run leads to the refusal of another token with a caller that had
      loaded the first one: by `TriedAgainExactly` the refused token is then tried again. */
  lemma StaleReaderIsReachable(start: State, a: Credential, b: Credential) returns (before: seq<Step>)
    requires Start(start) && Current(start).Stored? && Current(start).credential == a && b.token != a.token
    ensures CanRun(start, before) && EndsRefused(Run(start, before), 0, b.token)
    ensures Enabled(Run(start, before), WorkerMoves(0, Proceed))
            && OnlyToken(Current(Run(start, before)), b.token, true)
    ensures !NoStaleReader(Run(start, before), b.token)
  {
    var reading, first := [CallerMoves(0, AskAfter401(a))] + [CallerMoves(0, Continue)], AuthClearing(a, a, 0);
    ReaderWaits(start, 0, a);
    var s1 := At(start, 0, first);
    SavingSaves(s1, 0, b);
    var s2 := Saved(s1, 0, b);
    Together(start, reading, s1, Saving(0, b), s2);
    QuietPosts(s2, 1, b);
    var s3 := SetWorker(Asked(s2, 1, b), 0, Posting(b, Now(s2)));
    var posting := Asking(1, b) + Posts(0);
    Together(start, reading + Saving(0, b), s2, posting, s3);
    var last := WorkerMoves(0, TokenReply(Refused(RequiresLogin)));
    PostIsRefused(s3, 0, b, Now(s2));
    OneMore(start, reading + Saving(0, b) + posting, s3, last, Next(s3, last));
    before := reading + Saving(0, b) + posting + [last];
    assert StaleReader(s3.callers[0].at, b.token);
  }
}
