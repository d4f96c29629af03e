/** Whole runs of the quota ledger: any interleaving of the transactions of any callers and
    processes, where a process crash is simply the absence of its further transactions. */
module QuotaRuns {
  import opened QuotaLedger
  import opened QuotaProofs

  // ----- Recovery after a process crash -----

  predicate Unresolved(r: Reservation, owner: Id) {
    r.status == Finalizing || (r.status == Pending && r.owner != owner)
  }

  /** Recorded successes are charged, the pending rows of other processes are released. */
  function Resolve(r: Reservation, owner: Id): Reservation {
    if r.status == Finalizing then ClosedRow(r, Closed)
    else if r.status == Pending && r.owner != owner then ClosedRow(r, Released)
    else r
  }

  function RecoveredRows(rs: map<Id, Reservation>, owner: Id): map<Id, Reservation> {
    map id <- rs :: Resolve(rs[id], owner)
  }

  ghost predicate RecoveryFits(l: Ledger, owner: Id) {
    forall p <- l.buckets :: Fits(Sums(RecoveredRows(l.reservations, owner), p).actual)
  }

  /** What recovery must produce: every row resolved and every counter recomputed, or nothing at all. */
  ghost function Recover(l: Ledger, owner: Id): (Outcome, Ledger) {
    if RecoveryFits(l, owner) then (Done, Settle(l, RecoveredRows(l.reservations, owner))) else (Error(OutOfRange), l)
  }

  // ----- Actions -----

  datatype Action =
    | AdmitAction(owner: Id, key: Key, policy: Policy, request: Amounts, now: nat, id: Id)
    | BeginAction(id: Id, usage: Amounts)
    | ApplyAction(id: Id)
    | ReleaseAction(id: Id)
    | RecoverAction(owner: Id)

  /** Every admission brings the policy that holds at its time. */
  ghost function Execute(l: Ledger, a: Action): Ledger {
    match a
    case AdmitAction(owner, key, policy, request, now, id) => Admit(l, owner, key, policy, request, now, id).1
    case BeginAction(id, usage) => BeginFinalization(l, id, usage).1
    case ApplyAction(id) => ApplyFinalizing(l, id).1
    case ReleaseAction(id) => Release(l, id).1
    case RecoverAction(owner) => Recover(l, owner).1
  }

  ghost function Run(l: Ledger, actions: seq<Action>): Ledger
    decreases |actions|
  {
    if actions == [] then l else Run(Execute(l, actions[0]), actions[1..])
  }

  /** Every admission of the key is under this policy; those of other keys may be under any. */
  predicate Steady(actions: seq<Action>, key: Key, p: Policy) {
    forall i :: 0 <= i < |actions| && actions[i].AdmitAction? && actions[i].key == key ==> actions[i].policy == p
  }

  // ----- Conservation -----

  lemma {:induction false} TotalMonotone(rs: map<Id, Reservation>, rs': map<Id, Reservation>, m: Measure)
    requires rs.Keys == rs'.Keys && forall id <- rs :: Value(m, rs[id]) <= Value(m, rs'[id])
    ensures Total(rs, m) <= Total(rs', m)
    decreases |rs|
  {
    if rs != map[] {
      var id :| id in rs;
      TotalSplit(rs, m, id);
      TotalSplit(rs', m, id);
      TotalMonotone(rs - {id}, rs' - {id}, m);
    } else {
      assert rs' == map[];
    }
  }

  /** Resolving rows never raises an active count or a reserved amount. */
  lemma RecoveryShrinks(l: Ledger, owner: Id)
    requires Conserved(l)
    ensures var rs := RecoveredRows(l.reservations, owner);
            && (forall k <- l.keys :: Total(rs, OpenOf(k)) <= l.keys[k].active)
            && (forall p <- l.buckets :: Fits(Sums(rs, p).reserved))
  {
    var rs := RecoveredRows(l.reservations, owner);
    forall k <- l.keys ensures Total(rs, OpenOf(k)) <= l.keys[k].active {
      TotalMonotone(rs, l.reservations, OpenOf(k));
    }
    forall p <- l.buckets ensures Fits(Sums(rs, p).reserved) {
      forall d | d in {Requests, Tokens, Images, Cost}
        ensures Total(rs, ReservedIn(p, d)) <= Total(l.reservations, ReservedIn(p, d))
      {
        TotalMonotone(rs, l.reservations, ReservedIn(p, d));
      }
    }
  }

  lemma ResolvedRows(l: Ledger, owner: Id)
    requires Conserved(l)
    ensures ValidRows(RecoveredRows(l.reservations, owner)) && Referenced(l, RecoveredRows(l.reservations, owner))
  {
  }

  /** Any table of valid rows, whose sums fit, settles into a conserving ledger. */
  lemma SettleConserves(l: Ledger, rs: map<Id, Reservation>)
    requires ValidRows(rs) && Referenced(l, rs)
    requires forall k <- l.keys :: Total(rs, OpenOf(k)) <= MAX_INT64
    requires forall p <- l.buckets :: Fits(Sums(rs, p).reserved) && Fits(Sums(rs, p).actual)
    ensures Conserved(Settle(l, rs))
  {
  }

  lemma RecoverConserves(l: Ledger, owner: Id)
    requires Conserved(l)
    ensures Conserved(Recover(l, owner).1)
  {
    if RecoveryFits(l, owner) {
      var rs := RecoveredRows(l.reservations, owner);
      RecoveryShrinks(l, owner);
      ResolvedRows(l, owner);
      assert forall k <- l.keys :: Total(rs, OpenOf(k)) <= MAX_INT64;
      SettleConserves(l, rs);
    }
  }

  lemma ApplyOutcome(l: Ledger, id: Id)
    requires Conserved(l) && id in l.reservations && l.reservations[id].status == Finalizing
    ensures ApplyFinalizing(l, id) ==
            if HasRoom(l, l.reservations[id], l.reservations[id].actual)
            then (Done, Settle(l, l.reservations[id := ClosedRow(l.reservations[id], Closed)]))
            else (Error(OutOfRange), l)
    ensures Conserved(ApplyFinalizing(l, id).1)
  {
    CloseSettles(l, id, Closed);
  }

  lemma ReleaseOutcome(l: Ledger, id: Id)
    requires Conserved(l) && id in l.reservations && l.reservations[id].status == Pending
    ensures Release(l, id) == (Done, Settle(l, l.reservations[id := ClosedRow(l.reservations[id], Released)]))
    ensures Conserved(Release(l, id).1)
  {
    CloseSettles(l, id, Released);
    var r := l.reservations[id];
    if r.bucket.Some? {
      assert Plus(l.buckets[r.bucket.value].actual, NOTHING) == l.buckets[r.bucket.value].actual;
    }
  }

  lemma ExecuteConserves(l: Ledger, a: Action)
    requires Conserved(l)
    ensures Conserved(Execute(l, a))
  {
    match a
    case AdmitAction(owner, key, policy, request, now, id) => AdmitConserves(l, owner, key, policy, request, now, id);
    case BeginAction(id, usage) => BeginConserves(l, id, usage);
    case ApplyAction(id) =>
      if id in l.reservations && l.reservations[id].status == Finalizing {
        ApplyOutcome(l, id);
      }
    case ReleaseAction(id) =>
      if id in l.reservations && l.reservations[id].status == Pending {
        ReleaseOutcome(l, id);
      }
    case RecoverAction(owner) => RecoverConserves(l, owner);
  }

  /** Conservation over every run, from any conserving ledger such as the empty one. */
  lemma {:induction false} RunConserves(l: Ledger, actions: seq<Action>)
    requires Conserved(l)
    ensures Conserved(Run(l, actions))
    decreases |actions|
  {
    if actions != [] {
      ExecuteConserves(l, actions[0]);
      RunConserves(Execute(l, actions[0]), actions[1..]);
    }
  }

  /** No transaction of any run from the empty ledger reports an inconsistent state, a missing bucket
      or an invalid record; applying can only fail on a 64-bit charge, releasing only on an unknown id. */
  lemma NeverInconsistent(actions: seq<Action>, id: Id)
    ensures var l := Run(EMPTY, actions);
            && ApplyFinalizing(l, id).0 in {Done, Error(OutOfRange)}
            && Release(l, id).0 == (if id in l.reservations then Done else Error(NotFound))
  {
    RunConserves(EMPTY, actions);
    var l := Run(EMPTY, actions);
    if id in l.reservations {
      if l.reservations[id].status == Finalizing {
        ApplyOutcome(l, id);
      } else if l.reservations[id].status == Pending {
        ReleaseOutcome(l, id);
      }
    }
  }

  // ----- Exactly once -----

  /** What was reserved, and for whom. */
  predicate SameRequest(was: Reservation, now: Reservation) {
    now.key == was.key && now.owner == was.owner && now.bucket == was.bucket && now.requested == was.requested
  }

  /** The charge that a recorded usage asks for: its tokens and images, and its requests and cost, or what was
      reserved of these when it reports none. */
  predicate ChargedFor(was: Reservation, usage: Amounts, charge: Amounts) {
    && 0 <= usage.requests <= 1 && charge.tokens == usage.tokens && charge.images == usage.images
    && charge.requests == (if usage.requests > 0 then usage.requests else was.requested.requests)
    && charge.cost == (if usage.cost != 0 then usage.cost else was.requested.cost)
    && 0 <= charge.tokens <= MAX_QUOTA_COUNT && 0 <= charge.images <= MAX_QUOTA_COUNT
    && 0 <= charge.cost <= MAX_QUOTA_COUNT
  }

  /** A row given up without a charge. */
  predicate GivenUp(was: Reservation, now: Reservation) {
    SameRequest(was, now) && now.status == Released && now.actual == Amounts(0, 0, 0, 0)
  }

  /** A row closed under the charge it had recorded. */
  predicate Applied(was: Reservation, now: Reservation) {
    SameRequest(was, now) && now.status == Closed && now.actual == was.actual
  }

  /** How one transaction may change a reservation: beginning a reconciliation records the charge for its usage,
      releasing or recovering for another process gives a pending row up, and applying or recovering closes a
      finalizing one. No transaction takes a pending row to closed. */
  predicate Steps(was: Reservation, now: Reservation, id: Id, a: Action) {
    now == was
    || match was.status
       case Pending =>
         || (GivenUp(was, now) && (a == ReleaseAction(id) || (a.RecoverAction? && a.owner != was.owner)))
         || (a.BeginAction? && a.id == id && SameRequest(was, now) && now.status == Finalizing
             && ChargedFor(was, a.usage, now.actual))
       case Finalizing => Applied(was, now) && (a == ApplyAction(id) || a.RecoverAction?)
       case _ => false
  }

  lemma ExecuteSteps(l: Ledger, a: Action)
    requires ValidRows(l.reservations)
    ensures forall id <- l.reservations ::
              id in Execute(l, a).reservations
              && Steps(l.reservations[id], Execute(l, a).reservations[id], id, a)
  {
    if a.BeginAction? && a.id in l.reservations {
      assert ValidRow(l.reservations[a.id]);
    }
  }

  /** One of the transactions recorded this charge. */
  predicate RecordedBy(actions: seq<Action>, id: Id, was: Reservation, now: Reservation) {
    exists i :: 0 <= i < |actions| && actions[i].BeginAction? && actions[i].id == id
                && ChargedFor(was, actions[i].usage, now.actual)
  }

  /** How a reservation may change over any number of transactions: from pending it may be given up, or
      the charge for some transaction's usage is recorded and then applied; what is recorded is fixed, and what is
      finished stays. */
  predicate Follows(was: Reservation, now: Reservation, id: Id, actions: seq<Action>) {
    now == was
    || match was.status
       case Pending =>
         || GivenUp(was, now)
         || (SameRequest(was, now) && (now.status == Finalizing || now.status == Closed)
             && RecordedBy(actions, id, was, now))
       case Finalizing => Applied(was, now)
       case _ => false
  }

  lemma StepThenFollows(was: Reservation, mid: Reservation, now: Reservation, id: Id, actions: seq<Action>)
    requires actions != [] && Steps(was, mid, id, actions[0]) && Follows(mid, now, id, actions[1..])
    ensures Follows(was, now, id, actions)
  {
    if was.status == Pending && now != was {
      if mid.status == Finalizing {
        assert ChargedFor(was, actions[0].usage, now.actual);
      } else if mid == was && !GivenUp(was, now) {
        var i :| 0 <= i < |actions[1..]| && actions[1..][i].BeginAction? && actions[1..][i].id == id
                 && ChargedFor(mid, actions[1..][i].usage, now.actual);
        assert actions[i + 1] == actions[1..][i];
      }
    }
  }

  /** Over a whole run a reservation only moves forward: its charge is what some reconciliation of the run
      reported, once it is recorded it is fixed, and once it is closed or released nothing ever touches it again. */
  lemma {:induction false} RunFollows(l: Ledger, actions: seq<Action>, id: Id)
    requires Conserved(l) && id in l.reservations
    ensures var l' := Run(l, actions);
            id in l'.reservations && Follows(l.reservations[id], l'.reservations[id], id, actions)
    decreases |actions|
  {
    if actions != [] {
      var next := Execute(l, actions[0]);
      ExecuteConserves(l, actions[0]);
      ExecuteSteps(l, actions[0]);
      RunFollows(next, actions[1..], id);
      StepThenFollows(l.reservations[id], next.reservations[id], Run(next, actions[1..]).reservations[id], id, actions);
    }
  }

  /** After `k` actions the row is the given one, but not closed yet. */
  ghost predicate FinalizingAt(l: Ledger, actions: seq<Action>, id: Id, closed: Reservation, k: nat) {
    && k <= |actions| && id in Run(l, actions[..k]).reservations
    && Run(l, actions[..k]).reservations[id] == closed.(status := Finalizing)
  }

  lemma FinalizingLater(l: Ledger, actions: seq<Action>, id: Id, closed: Reservation, j: nat)
    requires actions != [] && FinalizingAt(Execute(l, actions[0]), actions[1..], id, closed, j)
    ensures FinalizingAt(l, actions, id, closed, j + 1)
  {
    assert actions[..j + 1][0] == actions[0] && actions[..j + 1][1..] == actions[1..][..j];
  }

  /** A pending row that a run closes was finalizing at some point of the run, with the charge that was
      then applied. */
  lemma {:induction false} ClosedWasFinalizing(l: Ledger, actions: seq<Action>, id: Id)
    requires Conserved(l) && id in l.reservations && l.reservations[id].status == Pending
    requires id in Run(l, actions).reservations && Run(l, actions).reservations[id].status == Closed
    ensures exists k :: FinalizingAt(l, actions, id, Run(l, actions).reservations[id], k)
    decreases |actions|
  {
    var next := Execute(l, actions[0]);
    ExecuteConserves(l, actions[0]);
    ExecuteSteps(l, actions[0]);
    var closed := Run(l, actions).reservations[id];
    var j: nat := 0;
    if next.reservations[id].status == Pending {
      ClosedWasFinalizing(next, actions[1..], id);
      j :| FinalizingAt(next, actions[1..], id, closed, j);
    } else {
      RunFollows(next, actions[1..], id);
      assert actions[1..][..0] == [];
    }
    FinalizingLater(l, actions, id, closed, j);
  }

  /** After a reconciliation has been recorded, no later reconcile, release or recovery of the same
      reservation changes the charge; repeating the whole reconciliation changes nothing. */
  lemma ReconcileIsIdempotent(l: Ledger, id: Id, usage: Amounts, again: Amounts)
    requires Conserved(l) && ValidUsage(again) && Reconcile(l, id, usage).0 == Done
    ensures var l' := Reconcile(l, id, usage).1;
            Reconcile(l', id, again) == (Done, l') && Release(l', id) == (Done, l')
  {
    var recorded := BeginFinalization(l, id, usage).1;
    BeginConserves(l, id, usage);
    if recorded.reservations[id].status == Finalizing {
      ApplyOutcome(recorded, id);
    }
  }

  /** A crash between the two transactions of a reconciliation, followed by recovery, gives the same
      ledger as no crash followed by recovery. */
  lemma CrashEquivalence(l: Ledger, id: Id, owner: Id)
    requires Conserved(l) && id in l.reservations && l.reservations[id].status == Finalizing
    requires ApplyFinalizing(l, id).0 == Done
    ensures var applied := ApplyFinalizing(l, id).1;
            Recover(applied, owner).0 == Recover(l, owner).0
            && (Recover(l, owner).0 == Done ==> Recover(applied, owner).1 == Recover(l, owner).1)
  {
    ApplyOutcome(l, id);
    var rows := l.reservations[id := ClosedRow(l.reservations[id], Closed)];
    RecoveredRowsAbsorb(l.reservations, id, owner);
    SettleTwice(l, rows, RecoveredRows(l.reservations, owner));
    SettledFits(l, rows, owner);
  }

  lemma RecoveredRowsAbsorb(rs: map<Id, Reservation>, id: Id, owner: Id)
    requires id in rs && rs[id].status == Finalizing
    ensures RecoveredRows(rs[id := ClosedRow(rs[id], Closed)], owner) == RecoveredRows(rs, owner)
  {
  }

  lemma SettledFits(l: Ledger, rs: map<Id, Reservation>, owner: Id)
    requires RecoveredRows(rs, owner) == RecoveredRows(l.reservations, owner)
    ensures RecoveryFits(Settle(l, rs), owner) == RecoveryFits(l, owner)
  {
    assert Settle(l, rs).buckets.Keys == l.buckets.Keys;
    assert RecoveryFits(l, owner)
           <==> forall p <- Settle(l, rs).buckets :: Fits(Sums(RecoveredRows(rs, owner), p).actual);
  }

  lemma SettleTwice(l: Ledger, rs: map<Id, Reservation>, rs': map<Id, Reservation>)
    ensures Settle(Settle(l, rs), rs') == Settle(l, rs')
  {
    var a, b := Settle(Settle(l, rs), rs'), Settle(l, rs');
    assert a.keys == b.keys;
    assert a.buckets == b.buckets;
  }

  // ----- Order -----

  function Finished(r: Reservation): Reservation {
    if r.status == Finalizing then ClosedRow(r, Closed) else ClosedRow(r, Released)
  }

  function FinishedRows(rs: map<Id, Reservation>, ids: set<Id>): map<Id, Reservation> {
    map id <- rs :: if id in ids then Finished(rs[id]) else rs[id]
  }

  /** Apply or release one open reservation, whichever its status asks for. */
  function Finish(l: Ledger, id: Id): (Outcome, Ledger) {
    if id in l.reservations && l.reservations[id].status == Finalizing then ApplyFinalizing(l, id) else Release(l, id)
  }

  /** Finish reservations one after the other, stopping at the first failure. */
  function FinishAll(l: Ledger, ids: seq<Id>): (Outcome, Ledger)
    decreases |ids|
  {
    if ids == [] then (Done, l)
    else
      var (outcome, next) := Finish(l, ids[0]);
      if outcome != Done then (outcome, next) else FinishAll(next, ids[1..])
  }

  ghost predicate AllOpen(l: Ledger, ids: seq<Id>) {
    && (forall i, j :: 0 <= i < j < |ids| ==> ids[i] != ids[j])
    && (forall i :: 0 <= i < |ids| ==> ids[i] in l.reservations && l.reservations[ids[i]].Open())
  }

  function Elements(ids: seq<Id>): set<Id> {
    set i | 0 <= i < |ids| :: ids[i]
  }

  ghost predicate RowsFit(l: Ledger, rs: map<Id, Reservation>) {
    forall p <- l.buckets :: Fits(Sums(rs, p).actual)
  }

  lemma FinishOutcome(l: Ledger, id: Id)
    requires Conserved(l) && id in l.reservations && l.reservations[id].Open()
    ensures var (outcome, next) := Finish(l, id);
            && Conserved(next)
            && (if HasRoom(l, l.reservations[id], Finished(l.reservations[id]).actual)
                then outcome == Done && next == Settle(l, l.reservations[id := Finished(l.reservations[id])])
                else outcome == Error(OutOfRange))
  {
    if l.reservations[id].status == Finalizing {
      ApplyOutcome(l, id);
    } else {
      ReleaseOutcome(l, id);
      var r := l.reservations[id];
      if r.bucket.Some? {
        assert Plus(l.buckets[r.bucket.value].actual, NOTHING) == l.buckets[r.bucket.value].actual;
      }
    }
  }

  lemma FinishedStep(rs: map<Id, Reservation>, ids: seq<Id>)
    requires |ids| > 0 && ids[0] in rs && ids[0] !in Elements(ids[1..])
    ensures FinishedRows(rs[ids[0] := Finished(rs[ids[0]])], Elements(ids[1..])) == FinishedRows(rs, Elements(ids))
  {
    assert Elements(ids) == {ids[0]} + Elements(ids[1..]);
  }

  /** What finishing charges only adds up. */
  lemma FinishedCharges(rs: map<Id, Reservation>, ids: set<Id>, p: Period, d: Dimension)
    requires ValidRows(rs) && forall id :: id in ids && id in rs ==> rs[id].Open()
    ensures Total(rs, ChargedIn(p, d)) <= Total(FinishedRows(rs, ids), ChargedIn(p, d))
  {
    TotalMonotone(rs, FinishedRows(rs, ids), ChargedIn(p, d));
  }

  lemma SumsAt(rs: map<Id, Reservation>, p: Period, d: Dimension)
    ensures Sums(rs, p).actual.At(d) == Total(rs, ChargedIn(p, d))
  {
  }

  lemma ChargeBelow(rs: map<Id, Reservation>, id: Id, ids: set<Id>, p: Period, d: Dimension)
    requires ValidRows(rs) && id in rs && id in ids && rs[id].bucket == Some(p)
    requires forall other :: other in ids && other in rs ==> rs[other].Open()
    ensures Total(rs, ChargedIn(p, d)) + Finished(rs[id]).actual.At(d) <= Total(FinishedRows(rs, ids), ChargedIn(p, d))
  {
    var one := rs[id := Finished(rs[id])];
    assert FinishedRows(one, ids - {id}) == FinishedRows(rs, ids);
    TotalUpdate(rs, ChargedIn(p, d), id, Finished(rs[id]));
    FinishedCharges(one, ids - {id}, p, d);
  }

  lemma FitsBelow(l: Ledger, id: Id, ids: set<Id>)
    requires Conserved(l) && id in l.reservations && l.reservations[id].Open()
    requires forall other :: other in ids && other in l.reservations ==> l.reservations[other].Open()
    requires id in ids && RowsFit(l, FinishedRows(l.reservations, ids))
    ensures HasRoom(l, l.reservations[id], Finished(l.reservations[id]).actual)
  {
    var rs, r := l.reservations, l.reservations[id];
    if r.bucket.Some? {
      var p := r.bucket.value;
      var sum := Plus(l.buckets[p].actual, Finished(r).actual);
      var all := Sums(FinishedRows(rs, ids), p).actual;
      FitsAt(all);
      forall d: Dimension ensures sum.At(d) <= MAX_INT64 {
        ChargeBelow(rs, id, ids, p, d);
        SumsAt(rs, p, d);
        SumsAt(FinishedRows(rs, ids), p, d);
        assert all.At(d) <= MAX_INT64;
      }
      FitsAt(sum);
    }
  }

  lemma FitsAt(a: Amounts)
    ensures Fits(a) <==> forall d: Dimension :: a.At(d) <= MAX_INT64
  {
    if forall d: Dimension :: a.At(d) <= MAX_INT64 {
      assert a.At(Requests) <= MAX_INT64 && a.At(Tokens) <= MAX_INT64 && a.At(Images) <= MAX_INT64
             && a.At(Cost) <= MAX_INT64;
    }
  }

  lemma FinishNothing(l: Ledger, ids: seq<Id>)
    requires Conserved(l) && ids == []
    ensures var rs := FinishedRows(l.reservations, Elements(ids));
            RowsFit(l, rs) && l == Settle(l, rs)
  {
    assert FinishedRows(l.reservations, Elements(ids)) == l.reservations;
    ConservedIsSettled(l);
  }

  lemma FinishFirst(l: Ledger, ids: seq<Id>)
    requires Conserved(l) && AllOpen(l, ids) && ids != [] && Finish(l, ids[0]).0 == Done
    ensures var next := Finish(l, ids[0]).1;
            && Conserved(next) && AllOpen(next, ids[1..])
            && next == Settle(l, l.reservations[ids[0] := Finished(l.reservations[ids[0]])])
            && FinishedRows(next.reservations, Elements(ids[1..])) == FinishedRows(l.reservations, Elements(ids))
  {
    FinishOutcome(l, ids[0]);
    FinishedStep(l.reservations, ids);
  }

  lemma FirstHasNoRoom(l: Ledger, ids: seq<Id>)
    requires Conserved(l) && AllOpen(l, ids) && ids != [] && Finish(l, ids[0]).0 != Done
    ensures Finish(l, ids[0]).0 == Error(OutOfRange) && Conserved(Finish(l, ids[0]).1)
    ensures !RowsFit(l, FinishedRows(l.reservations, Elements(ids)))
  {
    FinishOutcome(l, ids[0]);
    if RowsFit(l, FinishedRows(l.reservations, Elements(ids))) {
      FitsBelow(l, ids[0], Elements(ids));
    }
  }

  /** Success exactly when the rows' charges fit, and then the ledger settled from them. */
  ghost predicate FinishesAs(l: Ledger, rs: map<Id, Reservation>, result: (Outcome, Ledger)) {
    if RowsFit(l, rs) then result == (Done, Settle(l, rs)) else result.0 == Error(OutOfRange)
  }

  lemma FinishesVia(l: Ledger, next: Ledger, rs: map<Id, Reservation>, result: (Outcome, Ledger))
    requires next == Settle(l, next.reservations) && FinishesAs(next, rs, result)
    ensures FinishesAs(l, rs, result)
  {
    SettleTwice(l, next.reservations, rs);
    RowsFitDomain(l, next, rs);
  }

  /** Finishing reservations in any order succeeds exactly when all their charges together fit, and
      then gives the ledger settled from the finished rows: the order leaves no trace. */
  lemma {:induction false} FinishAllOutcome(l: Ledger, ids: seq<Id>)
    requires Conserved(l) && AllOpen(l, ids)
    ensures FinishesAs(l, FinishedRows(l.reservations, Elements(ids)), FinishAll(l, ids))
    decreases |ids|
  {
    if ids == [] {
      FinishNothing(l, ids);
    } else if Finish(l, ids[0]).0 == Done {
      var next, rest := Finish(l, ids[0]).1, ids[1..];
      FinishFirst(l, ids);
      FinishAllOutcome(next, rest);
      FinishesVia(l, next, FinishedRows(l.reservations, Elements(ids)), FinishAll(next, rest));
    } else {
      FirstHasNoRoom(l, ids);
    }
  }

  lemma RowsFitDomain(l: Ledger, l': Ledger, rs: map<Id, Reservation>)
    requires l.buckets.Keys == l'.buckets.Keys
    ensures RowsFit(l, rs) == RowsFit(l', rs)
  {
    assert forall p :: p in l.buckets <==> p in l'.buckets;
  }

  /** Two orders of finishing the same reservations agree on success and on the whole ledger. */
  lemma OrderLeavesNoTrace(l: Ledger, ids: seq<Id>, others: seq<Id>)
    requires Conserved(l) && AllOpen(l, ids) && AllOpen(l, others) && Elements(ids) == Elements(others)
    ensures FinishAll(l, ids).0 == FinishAll(l, others).0
    ensures FinishAll(l, ids).0 == Done ==> FinishAll(l, ids) == FinishAll(l, others)
  {
    FinishAllOutcome(l, ids);
    FinishAllOutcome(l, others);
  }

  // ----- A recovery under way -----

  /** The same keys and buckets, with the same rolling windows. */
  ghost predicate Sibling(l: Ledger, l': Ledger) {
    && l.keys.Keys == l'.keys.Keys && l.buckets.Keys == l'.buckets.Keys
    && (forall k <- l.keys :: l'.keys[k].(active := l.keys[k].active) == l.keys[k])
  }

  /** Some of the rows that the recovery of `start` must resolve are resolved, nothing else changed. */
  ghost predicate Settling(start: Ledger, l: Ledger, owner: Id) {
    Conserved(l) && Sibling(start, l)
    && RecoveredRows(l.reservations, owner) == RecoveredRows(start.reservations, owner)
  }

  ghost function UnresolvedIds(rs: map<Id, Reservation>, owner: Id): set<Id> {
    set id | id in rs && Unresolved(rs[id], owner)
  }

  lemma RecoveredAreFinished(rs: map<Id, Reservation>, owner: Id)
    ensures RecoveredRows(rs, owner) == FinishedRows(rs, UnresolvedIds(rs, owner))
  {
  }

  lemma SiblingFits(start: Ledger, l: Ledger, owner: Id)
    requires Sibling(start, l) && RecoveredRows(l.reservations, owner) == RecoveredRows(start.reservations, owner)
    ensures RecoveryFits(l, owner) == RecoveryFits(start, owner)
    ensures RecoveryFits(l, owner) == RowsFit(l, FinishedRows(l.reservations, UnresolvedIds(l.reservations, owner)))
  {
    RecoveredAreFinished(l.reservations, owner);
    RowsFitDomain(start, l, RecoveredRows(start.reservations, owner));
    assert RecoveryFits(start, owner) == RowsFit(start, RecoveredRows(start.reservations, owner));
    assert RecoveryFits(l, owner) == RowsFit(l, RecoveredRows(l.reservations, owner));
  }

  lemma SettledSibling(start: Ledger, l: Ledger, rs: map<Id, Reservation>)
    requires Sibling(start, l)
    ensures Sibling(start, Settle(l, rs))
  {
  }

  lemma FinishedAbsorbs(rs: map<Id, Reservation>, id: Id, owner: Id)
    requires id in rs && Unresolved(rs[id], owner)
    ensures RecoveredRows(rs[id := Finished(rs[id])], owner) == RecoveredRows(rs, owner)
    ensures UnresolvedIds(rs[id := Finished(rs[id])], owner) == UnresolvedIds(rs, owner) - {id}
  {
  }

  /** Settling one more row either succeeds and stays on course, or shows that the whole recovery
      cannot fit. */
  lemma SettleOne(start: Ledger, l: Ledger, id: Id, owner: Id)
    requires Settling(start, l, owner) && id in l.reservations && Unresolved(l.reservations[id], owner)
    ensures var (outcome, next) := Finish(l, id);
            if outcome == Done then
              Settling(start, next, owner) && next.reservations == l.reservations[id := Finished(l.reservations[id])]
            else outcome == Error(OutOfRange) && !RecoveryFits(start, owner)
  {
    FinishOutcome(l, id);
    FinishedAbsorbs(l.reservations, id, owner);
    SettledSibling(start, l, l.reservations[id := Finished(l.reservations[id])]);
    SiblingFits(start, l, owner);
    if RecoveryFits(start, owner) {
      FitsBelow(l, id, UnresolvedIds(l.reservations, owner));
    }
  }

  /** Of the rows unresolved in `begun`, exactly those in `done` have been settled since. */
  ghost predicate Progress(start: Ledger, begun: Ledger, l: Ledger, done: set<Id>, owner: Id) {
    && Settling(start, l, owner)
    && UnresolvedIds(l.reservations, owner) == UnresolvedIds(begun.reservations, owner) - done
    && l.reservations.Keys == begun.reservations.Keys
    && forall id <- l.reservations :: id !in done ==> l.reservations[id] == begun.reservations[id]
  }

  lemma ProgressOne(start: Ledger, begun: Ledger, l: Ledger, done: set<Id>, id: Id, owner: Id)
    requires Progress(start, begun, l, done, owner) && id in UnresolvedIds(begun.reservations, owner) && id !in done
    ensures id in l.reservations && l.reservations[id] == begun.reservations[id]
    ensures var (outcome, next) := Finish(l, id);
            if outcome == Done then Progress(start, begun, next, done + {id}, owner)
            else outcome == Error(OutOfRange) && !RecoveryFits(start, owner)
  {
    SettleOne(start, l, id, owner);
    FinishedAbsorbs(l.reservations, id, owner);
  }

  /** Once every row is resolved the ledger is the one recovery must produce. */
  lemma SettledAll(start: Ledger, l: Ledger, owner: Id)
    requires Settling(start, l, owner) && UnresolvedIds(l.reservations, owner) == {}
    ensures (Done, l) == Recover(start, owner)
  {
    assert RecoveredRows(l.reservations, owner) == l.reservations by {
      forall id <- l.reservations ensures !Unresolved(l.reservations[id], owner) {
        assert id !in UnresolvedIds(l.reservations, owner);
      }
    }
    ConservedIsSettled(l);
    SettleDomains(start, l, l.reservations);
    SiblingFits(start, l, owner);
    assert RecoveryFits(l, owner);
  }

  /** Recovery ends with every recorded charge applied, the pending rows of other processes given up, and
      every other row, such as this owner's pending ones, left alone. */
  lemma RecoveryResolvesAll(l: Ledger, owner: Id)
    requires Recover(l, owner).0 == Done
    ensures var rs := Recover(l, owner).1.reservations;
            && rs.Keys == l.reservations.Keys
            && forall id <- rs ::
                 var was := l.reservations[id];
                 if was.status == Finalizing then Applied(was, rs[id])
                 else if was.status == Pending && was.owner != owner then GivenUp(was, rs[id])
                 else rs[id] == was
  {
  }
}
