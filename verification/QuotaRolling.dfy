/** The rolling request window: the lazily cleaned counter against an exact log of admissions. */
module QuotaRolling {
  import opened QuotaLedger
  import opened QuotaProofs
  import opened QuotaRuns

  // ----- The specification: a log of admission times -----

  /** How many logged admissions are still inside the window of length `w` that ends at `now`. */
  function Live(log: seq<int>, now: int, w: int): nat {
    if log == [] then 0 else (if log[0] + w > now then 1 else 0) + Live(log[1..], now, w)
  }

  ghost predicate Sorted(s: seq<int>) {
    forall i, j :: 0 <= i < j < |s| ==> s[i] <= s[j]
  }

  /** Any `n + 1` admissions in a row span at least the window. */
  ghost predicate Spaced(log: seq<int>, n: int, w: int) {
    forall i, j :: 0 <= i < |log| && 0 <= j < |log| && j == i + n ==> log[i] + w <= log[j]
  }

  /** The key's rows are the unexpired tail of the log, and the counter counts them. */
  ghost predicate Tracks(k: KeyState, log: seq<int>, n: int, w: int, clock: int) {
    && n > 0 && w >= 0
    && Sorted(log) && (forall i :: 0 <= i < |log| ==> log[i] <= clock) && Spaced(log, n, w)
    && k.rolling == |k.expiries| <= n && |k.expiries| <= |log|
    && var dropped := |log| - |k.expiries|;
       && (forall i :: 0 <= i < |k.expiries| ==> k.expiries[i] == log[dropped + i] + w)
       && (forall i :: 0 <= i < dropped ==> log[i] + w <= clock)
  }

  // ----- Counting -----

  lemma {:induction false} DueIsExact(s: seq<int>, now: int)
    requires Sorted(s)
    ensures forall i :: 0 <= i < |s| ==> (s[i] <= now <==> i < Due(s, now))
  {
    if s != [] && s[0] <= now {
      DueIsExact(s[1..], now);
      forall i | 0 <= i < |s| ensures s[i] <= now <==> i < Due(s, now) {
        if i > 0 {
          assert s[i] == s[1..][i - 1];
        }
      }
    }
  }

  lemma {:induction false} LiveConcat(a: seq<int>, b: seq<int>, now: int, w: int)
    ensures Live(a + b, now, w) == Live(a, now, w) + Live(b, now, w)
  {
    if a == [] {
      assert a + b == b;
    } else {
      assert (a + b)[1..] == a[1..] + b;
      LiveConcat(a[1..], b, now, w);
    }
  }

  lemma {:induction false} LiveAll(s: seq<int>, now: int, w: int)
    requires forall i :: 0 <= i < |s| ==> s[i] + w > now
    ensures Live(s, now, w) == |s|
  {
    if s != [] {
      LiveAll(s[1..], now, w);
    }
  }

  lemma {:induction false} LiveNone(s: seq<int>, now: int, w: int)
    requires forall i :: 0 <= i < |s| ==> s[i] + w <= now
    ensures Live(s, now, w) == 0
  {
    if s != [] {
      LiveNone(s[1..], now, w);
    }
  }

  /** In a sorted log, the live admissions are those from index `split` on. */
  lemma LiveFrom(log: seq<int>, now: int, w: int, split: nat)
    requires split <= |log|
    requires forall i :: 0 <= i < |log| ==> (log[i] + w > now <==> i >= split)
    ensures Live(log, now, w) == |log| - split
  {
    LiveConcat(log[..split], log[split..], now, w);
    LiveNone(log[..split], now, w);
    LiveAll(log[split..], now, w);
    assert log == log[..split] + log[split..];
  }

  /** From the last clock on, the rows alone tell how many admissions are live. */
  lemma RowsTellLive(k: KeyState, log: seq<int>, n: int, w: int, clock: int, now: int)
    requires Tracks(k, log, n, w, clock) && now >= clock
    ensures Sorted(k.expiries)
    ensures Live(log, now, w) == |k.expiries| - Due(k.expiries, now)
  {
    var dropped := |log| - |k.expiries|;
    var split := dropped + Due(k.expiries, now);
    DueIsExact(k.expiries, now);
    forall i | 0 <= i < |log| ensures log[i] + w > now <==> i >= split {
      if i >= dropped {
        assert k.expiries[i - dropped] == log[i] + w;
      }
    }
    LiveFrom(log, now, w, split);
  }

  // ----- The decision -----

  /** The counter after one batch of cleanup allows an admission exactly when the log does. */
  lemma SameDecision(k: KeyState, log: seq<int>, n: int, w: int, clock: int, now: int)
    requires Tracks(k, log, n, w, clock) && now >= clock
    ensures Cleanup(k, now).rolling >= n <==> Live(log, now, w) >= n
  {
    RowsTellLive(k, log, n, w, clock, now);
  }

  /** A refusal names the first instant at which the log allows an admission again. */
  lemma ResetIsLeast(k: KeyState, log: seq<int>, n: int, w: int, clock: int, now: int)
    requires Tracks(k, log, n, w, clock) && now >= clock && Live(log, now, w) >= n
    ensures var reset := NextReset(Cleanup(k, now).expiries, now, w);
            && reset > now
            && NewError(Rate, now, reset).resetAt == reset
            && Live(log, reset, w) < n
            && (forall t :: now <= t < reset ==> Live(log, t, w) >= n)
  {
    RowsTellLive(k, log, n, w, clock, now);
    assert Due(k.expiries, now) == 0 && Cleanup(k, now) == k;
    var reset := k.expiries[0];
    assert NextReset(k.expiries, now, w) == reset;
    RowsTellLive(k, log, n, w, clock, reset);
    DueIsExact(k.expiries, reset);
    assert Due(k.expiries, reset) > 0;
    forall t | now <= t < reset ensures Live(log, t, w) >= n {
      RowsTellLive(k, log, n, w, clock, t);
    }
  }

  // ----- Keeping track -----

  lemma CleanupDrops(k: KeyState, log: seq<int>, n: int, w: int, clock: int, now: int)
    requires Tracks(k, log, n, w, clock) && now >= clock
    ensures var c := Cleanup(k, now);
            var gone := |k.expiries| - |c.expiries|;
            && 0 <= gone <= Due(k.expiries, now) && c.expiries == k.expiries[gone..] && c.rolling == |c.expiries|
  {
  }

  /** The rows that cleanup leaves are the last of the log, and what it drops has ended. */
  lemma DroppedRows(rows: seq<int>, log: seq<int>, w: int, clock: int, now: int, gone: nat)
    requires |rows| <= |log| && gone <= Due(rows, now) && Sorted(rows) && now >= clock
    requires forall i :: 0 <= i < |log| - |rows| ==> log[i] + w <= clock
    requires forall i :: 0 <= i < |rows| ==> rows[i] == log[|log| - |rows| + i] + w
    ensures forall i :: 0 <= i < |log| - |rows| + gone ==> log[i] + w <= now
    ensures forall i :: 0 <= i < |rows| - gone ==> rows[gone..][i] == log[|log| - |rows| + gone + i] + w
  {
    DueIsExact(rows, now);
    forall i | 0 <= i < |log| - |rows| + gone
      ensures log[i] + w <= now
    {
      if i >= |log| - |rows| {
        assert rows[i - (|log| - |rows|)] == log[i] + w;
      }
    }
  }

  lemma TracksWithout(k: KeyState, c: KeyState, log: seq<int>, n: int, w: int, clock: int, now: int, gone: nat)
    requires Tracks(k, log, n, w, clock) && now >= clock && Sorted(k.expiries)
    requires gone <= Due(k.expiries, now) && c.expiries == k.expiries[gone..] && c.rolling == |c.expiries|
    ensures Tracks(c, log, n, w, now)
  {
    DroppedRows(k.expiries, log, w, clock, now, gone);
  }

  lemma CleanupTracks(k: KeyState, log: seq<int>, n: int, w: int, clock: int, now: int)
    requires Tracks(k, log, n, w, clock) && now >= clock
    ensures Tracks(Cleanup(k, now), log, n, w, now)
  {
    var c := Cleanup(k, now);
    CleanupDrops(k, log, n, w, clock, now);
    RowsTellLive(k, log, n, w, clock, now);
    TracksWithout(k, c, log, n, w, clock, now, |k.expiries| - |c.expiries|);
  }

  lemma {:induction false} InsertLast(s: seq<int>, e: int)
    requires forall i :: 0 <= i < |s| ==> s[i] <= e
    ensures InsertExpiry(s, e) == s + [e]
  {
    if s != [] {
      InsertLast(s[1..], e);
      assert s == [s[0]] + s[1..];
    }
  }

  /** When the `n`-th last admission is live, so are the `n - 1` after it. */
  lemma NthLastLive(log: seq<int>, n: int, w: int, now: int)
    requires 0 < n <= |log| && Sorted(log) && log[|log| - n] + w > now
    ensures Live(log, now, w) >= n
  {
    var tail := log[|log| - n..];
    LiveAll(tail, now, w);
    LiveConcat(log[..|log| - n], tail, now, w);
    assert log == log[..|log| - n] + tail;
  }

  lemma AppendSpaced(log: seq<int>, n: int, w: int, now: int)
    requires n > 0 && Spaced(log, n, w) && (|log| >= n ==> log[|log| - n] + w <= now)
    ensures Spaced(log + [now], n, w)
  {
  }

  lemma AppendTracks(c: KeyState, active: int, log: seq<int>, n: int, w: int, now: int)
    requires Tracks(c, log, n, w, now) && c.rolling < n
    requires |log| >= n ==> log[|log| - n] + w <= now
    ensures Tracks(KeyState(active, c.rolling + 1, c.expiries + [now + w]), log + [now], n, w, now)
  {
    AppendSpaced(log, n, w, now);
    var dropped := |log| - |c.expiries|;
    var expiries, log' := c.expiries + [now + w], log + [now];
    forall i | 0 <= i < |expiries| ensures expiries[i] == log'[dropped + i] + w {
      if i < |c.expiries| {
        assert c.expiries[i] == log[dropped + i] + w;
      }
    }
  }

  lemma InsertsLast(c: KeyState, log: seq<int>, n: int, w: int, now: int)
    requires Tracks(c, log, n, w, now)
    ensures InsertExpiry(c.expiries, now + w) == c.expiries + [now + w]
  {
    forall i | 0 <= i < |c.expiries| ensures c.expiries[i] <= now + w {
      assert c.expiries[i] == log[|log| - |c.expiries| + i] + w;
    }
    InsertLast(c.expiries, now + w);
  }

  lemma NthLastExpired(k: KeyState, log: seq<int>, n: int, w: int, clock: int, now: int)
    requires Tracks(k, log, n, w, clock) && now >= clock && Cleanup(k, now).rolling < n
    ensures |log| >= n ==> log[|log| - n] + w <= now
  {
    SameDecision(k, log, n, w, clock, now);
    if |log| >= n && log[|log| - n] + w > now {
      NthLastLive(log, n, w, now);
    }
  }

  lemma InsertTracks(c: KeyState, log: seq<int>, n: int, w: int, now: int)
    requires Tracks(c, log, n, w, now) && c.rolling < n
    requires |log| >= n ==> log[|log| - n] + w <= now
    ensures Tracks(KeyState(c.active + 1, c.rolling + 1, InsertExpiry(c.expiries, now + w)), log + [now], n, w, now)
  {
    InsertsLast(c, log, n, w, now);
    AppendTracks(c, c.active + 1, log, n, w, now);
  }

  /** Admitting at `now` appends to the log, keeps the spacing and keeps the counter in step. */
  lemma AdmissionTracks(k: KeyState, log: seq<int>, n: int, w: int, clock: int, now: int)
    requires Tracks(k, log, n, w, clock) && now >= clock
    requires Cleanup(k, now).rolling < n
    ensures var c := Cleanup(k, now);
            Tracks(KeyState(c.active + 1, c.rolling + 1, InsertExpiry(c.expiries, now + w)), log + [now], n, w, now)
  {
    CleanedThenInserted(k, Cleanup(k, now), log, n, w, clock, now);
  }

  lemma CleanedThenInserted(k: KeyState, c: KeyState, log: seq<int>, n: int, w: int, clock: int, now: int)
    requires c == Cleanup(k, now) && c.rolling < n
    requires Tracks(k, log, n, w, clock) && now >= clock
    ensures Tracks(KeyState(c.active + 1, c.rolling + 1, InsertExpiry(c.expiries, now + w)), log + [now], n, w, now)
  {
    CleanupTracks(k, log, n, w, clock, now);
    NthLastExpired(k, log, n, w, clock, now);
    InsertTracks(c, log, n, w, now);
  }

  // ----- Whole runs -----

  /** The ledger, each rolling key's log of admission times, and the last time seen. */
  datatype World = World(ledger: Ledger, logs: map<Key, seq<int>>, clock: nat)

  const BEGINNING := World(EMPTY, map[], 0)

  function LogOf(w: World, key: Key): seq<int> {
    if key in w.logs then w.logs[key] else []
  }

  ghost function Advance(w: World, a: Action): World {
    var ledger := Execute(w.ledger, a);
    match a
    case AdmitAction(owner, key, policy, request, now, id) =>
      var admitted := Admit(w.ledger, owner, key, policy, request, now, id).0 == Admitted;
      World(ledger, if admitted then w.logs[key := LogOf(w, key) + [now]] else w.logs, now)
    case _ => w.(ledger := ledger)
  }

  ghost function WorldAfter(w: World, actions: seq<Action>): World
    decreases |actions|
  {
    if actions == [] then w else WorldAfter(Advance(w, actions[0]), actions[1..])
  }

  /** The clock never runs backwards. */
  ghost predicate Monotone(clock: nat, actions: seq<Action>)
    decreases |actions|
  {
    actions == []
    || (if actions[0].AdmitAction? then clock <= actions[0].now && Monotone(actions[0].now, actions[1..])
        else Monotone(clock, actions[1..]))
  }

  /** Only an admission of the key itself touches its rows and counter. */
  lemma RollingUntouched(l: Ledger, a: Action, key: Key)
    requires Conserved(l)
    requires a.AdmitAction? ==> a.key != key || Admit(l, a.owner, a.key, a.policy, a.request, a.now, a.id).0 != Admitted
    ensures var was, now := StateOf(l, key), StateOf(Execute(l, a), key);
            now.rolling == was.rolling && now.expiries == was.expiries
  {
    match a
    case ApplyAction(id) =>
      if id in l.reservations && l.reservations[id].status == Finalizing {
        ApplyOutcome(l, id);
      }
    case ReleaseAction(id) =>
      if id in l.reservations && l.reservations[id].status == Pending {
        ReleaseOutcome(l, id);
      }
    case _ =>
  }

  lemma LaterTracks(k: KeyState, k': KeyState, log: seq<int>, n: int, w: int, clock: int, now: int)
    requires Tracks(k, log, n, w, clock) && now >= clock && k'.rolling == k.rolling && k'.expiries == k.expiries
    ensures Tracks(k', log, n, w, now)
  {
  }

  ghost predicate TracksKey(w: World, p: Policy, key: Key) {
    Tracks(StateOf(w.ledger, key), LogOf(w, key), p.rollingCount, p.rollingWindow, w.clock)
  }

  ghost predicate AdmitsKey(w: World, a: Action, key: Key) {
    a.AdmitAction? && a.key == key && Admit(w.ledger, a.owner, key, a.policy, a.request, a.now, a.id).0 == Admitted
  }

  lemma AdvanceAdmits(w: World, a: Action, key: Key)
    requires AdmitsKey(w, a, key) && a.policy.rollingCount > 0
    ensures var w' := Advance(w, a);
            && StateOf(w'.ledger, key) == CountedState(w.ledger, key, a.policy, a.now)
            && LogOf(w', key) == LogOf(w, key) + [a.now] && w'.clock == a.now
            && Checked(w.ledger, key, a.policy, a.request, a.now)
  {
    AdmittedIsChecked(w.ledger, key, a.policy, a.request, a.now);
  }

  lemma AdmittedKeyTracks(w: World, a: Action, key: Key)
    requires AdmitsKey(w, a, key) && a.policy.rollingCount > 0 && TracksKey(w, a.policy, key) && a.now >= w.clock
    ensures TracksKey(Advance(w, a), a.policy, key)
  {
    AdvanceAdmits(w, a, key);
    CountedTracks(StateOf(w.ledger, key), w, a.policy, key, a.now);
  }

  lemma CountedTracks(k: KeyState, w: World, p: Policy, key: Key, now: nat)
    requires k == StateOf(w.ledger, key) && now >= w.clock && p.rollingCount > 0
    requires Tracks(k, LogOf(w, key), p.rollingCount, p.rollingWindow, w.clock)
    requires Cleanup(k, now).rolling < p.rollingCount
    ensures Tracks(CountedState(w.ledger, key, p, now), LogOf(w, key) + [now], p.rollingCount, p.rollingWindow, now)
  {
    AdmissionTracks(k, LogOf(w, key), p.rollingCount, p.rollingWindow, w.clock, now);
  }

  lemma OtherKeyTracks(w: World, a: Action, p: Policy, key: Key)
    requires Conserved(w.ledger) && TracksKey(w, p, key) && !AdmitsKey(w, a, key)
    requires a.AdmitAction? ==> a.now >= w.clock
    ensures TracksKey(Advance(w, a), p, key)
  {
    var w' := Advance(w, a);
    RollingUntouched(w.ledger, a, key);
    assert LogOf(w', key) == LogOf(w, key);
    LaterTracks(StateOf(w.ledger, key), StateOf(w'.ledger, key), LogOf(w, key),
                p.rollingCount, p.rollingWindow, w.clock, w'.clock);
  }

  lemma {:induction false} RunTracks(w: World, actions: seq<Action>, p: Policy, key: Key)
    requires p.rollingCount > 0 && Conserved(w.ledger) && TracksKey(w, p, key)
    requires Steady(actions, key, p) && Monotone(w.clock, actions)
    ensures TracksKey(WorldAfter(w, actions), p, key)
    decreases |actions|
  {
    if actions != [] {
      ExecuteConserves(w.ledger, actions[0]);
      if AdmitsKey(w, actions[0], key) {
        AdmittedKeyTracks(w, actions[0], key);
      } else {
        OtherKeyTracks(w, actions[0], p, key);
      }
      RunTracks(Advance(w, actions[0]), actions[1..], p, key);
    }
  }

  lemma WindowHolds(log: seq<int>, n: int, w: int, i: nat, j: nat)
    requires n > 0 && Sorted(log) && Spaced(log, n, w) && i <= j < |log|
    ensures j - i + 1 <= n || log[i] + w <= log[j]
  {
    var next := if i + n <= j then log[i + n] else log[j];
    assert next <= log[j];
  }

  /** Under a fixed policy of the key and a monotone clock, after any run: no half-open window of the policy's
      length holds more than its count of admissions, the counter decides as the log does, and a
      refusal's reset time is the first at which the log would admit. */
  lemma RollingWindowHolds(actions: seq<Action>, p: Policy, key: Key, from: int, i: nat, j: nat, now: nat)
    requires ValidPolicy(p) && p.rollingCount > 0 && Monotone(0, actions) && Steady(actions, key, p)
    ensures var w := WorldAfter(BEGINNING, actions);
            var log, n, window := LogOf(w, key), p.rollingCount, p.rollingWindow;
            && (i <= j < |log| && from <= log[i] && log[j] < from + window ==> j - i + 1 <= n)
            && (now >= w.clock ==>
                  (Cleanup(StateOf(w.ledger, key), now).rolling >= n <==> Live(log, now, window) >= n))
  {
    var w := WorldAfter(BEGINNING, actions);
    var log, n, window := LogOf(w, key), p.rollingCount, p.rollingWindow;
    RunTracks(BEGINNING, actions, p, key);
    if now >= w.clock {
      SameDecision(StateOf(w.ledger, key), log, n, window, w.clock, now);
    }
    if i <= j < |log| {
      WindowHolds(log, n, window, i, j);
    }
  }

  /** What the admission check says once the checks before the rate have passed. */
  ghost predicate RateCheckExact(outcome: Admission, log: seq<int>, n: int, window: int, now: nat) {
    && ((outcome.Refused? && outcome.error.kind == Rate) <==> Live(log, now, window) >= n)
    && (outcome.Refused? && outcome.error.kind == Rate ==>
          var reset := outcome.error.resetAt;
          && reset > now && Live(log, reset, window) < n
          && forall t :: now <= t < reset ==> Live(log, t, window) >= n)
  }

  lemma RateCheck(l: Ledger, key: Key, p: Policy, request: Amounts, now: nat)
    requires !Blank(key) && ValidPolicy(p) && p.rollingCount > 0
    requires ValidRequest(request) && CeilingExceeded(p, request).None?
    requires p.maxConcurrent == 0 || StateOf(l, key).active < p.maxConcurrent
    ensures var outcome, c := CheckAdmission(l, key, p, request, now), Cleanup(StateOf(l, key), now);
            if c.rolling >= p.rollingCount then
              outcome == Refused(NewError(Rate, now, NextReset(c.expiries, now, p.rollingWindow)))
            else !(outcome.Refused? && outcome.error.kind == Rate)
  {
  }

  lemma TrackedRateCheck(k: KeyState, log: seq<int>, n: int, w: int, clock: int, now: nat, outcome: Admission)
    requires Tracks(k, log, n, w, clock) && now >= clock
    requires var c := Cleanup(k, now);
             if c.rolling >= n then outcome == Refused(NewError(Rate, now, NextReset(c.expiries, now, w)))
             else !(outcome.Refused? && outcome.error.kind == Rate)
    ensures RateCheckExact(outcome, log, n, w, now)
  {
    SameDecision(k, log, n, w, clock, now);
    if Live(log, now, w) >= n {
      ResetIsLeast(k, log, n, w, clock, now);
    }
  }

  /** The admission itself, in any state of any run: once the other checks before it pass, it is
      refused for its rate exactly when the log is full, and names the first time it is not. */
  lemma RateRefusalIsExact(actions: seq<Action>, p: Policy, key: Key, request: Amounts, now: nat)
    requires !Blank(key) && ValidPolicy(p) && p.rollingCount > 0 && Monotone(0, actions) && Steady(actions, key, p)
    requires ValidRequest(request) && CeilingExceeded(p, request).None?
    ensures var w := WorldAfter(BEGINNING, actions);
            now >= w.clock && (p.maxConcurrent == 0 || StateOf(w.ledger, key).active < p.maxConcurrent) ==>
              RateCheckExact(CheckAdmission(w.ledger, key, p, request, now), LogOf(w, key), p.rollingCount,
                             p.rollingWindow, now)
  {
    var w := WorldAfter(BEGINNING, actions);
    RunTracks(BEGINNING, actions, p, key);
    if now >= w.clock && (p.maxConcurrent == 0 || StateOf(w.ledger, key).active < p.maxConcurrent) {
      var outcome := CheckAdmission(w.ledger, key, p, request, now);
      RateCheck(w.ledger, key, p, request, now);
      TrackedRateCheck(StateOf(w.ledger, key), LogOf(w, key), p.rollingCount, p.rollingWindow, w.clock, now, outcome);
    }
  }
}
