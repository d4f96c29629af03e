/** The quota store: the code that runs each transaction against the stored tables. */
module QuotaStore {
  import opened QuotaLedger
  import opened QuotaProofs
  import opened QuotaRuns
  import opened Sets

  class Store {
    const ownerId: Id
    var keys: map<Key, KeyState>
    var buckets: map<Period, Bucket>
    var reservations: map<Id, Reservation>

    ghost function Snapshot(): Ledger
      reads this
    {
      Ledger(keys, buckets, reservations)
    }

    ghost predicate Valid()
      reads this
    {
      Conserved(Snapshot())
    }

    constructor (ownerId: Id)
      ensures Valid() && Snapshot() == EMPTY && this.ownerId == ownerId
    {
      this.ownerId := ownerId;
      keys, buckets, reservations := map[], map[], map[];
    }

    method LockState(key: Key) returns (state: KeyState)
      ensures state == StateOf(Snapshot(), key)
    {
      state := if key in keys then keys[key] else KeyState(0, 0, []);
    }

    method CleanupRollingAdmissions(state: KeyState, now: int) returns (cleaned: KeyState)
      ensures cleaned == Cleanup(state, now)
    {
      var expired := 0;
      while expired < |state.expiries| && expired < BATCH_SIZE && state.expiries[expired] <= now
        invariant 0 <= expired <= |state.expiries| && expired <= BATCH_SIZE
        invariant Due(state.expiries, now) == expired + Due(state.expiries[expired..], now)
      {
        assert state.expiries[expired..][1..] == state.expiries[expired + 1..];
        expired := expired + 1;
      }
      cleaned := state;
      if expired > 0 {
        var rolling := state.rolling - expired;
        if rolling < 0 {
          rolling := 0;
        }
        cleaned := state.(rolling := rolling, expiries := state.expiries[expired..]);
      }
    }

    method CheckBucketLimits(policy: Policy, bucket: Bucket, request: Amounts) returns (full: Option<Dimension>)
      ensures full == FirstWithoutRoom(policy, bucket, request, DIMENSIONS)
    {
      var i := 0;
      while i < |DIMENSIONS|
        invariant 0 <= i <= |DIMENSIONS|
        invariant FirstWithoutRoom(policy, bucket, request, DIMENSIONS)
                  == FirstWithoutRoom(policy, bucket, request, DIMENSIONS[i..])
      {
        var d := DIMENSIONS[i];
        if policy.limits.At(d) != 0 {
          var used := Add(bucket.reserved.At(d), bucket.actual.At(d));
          if used.None? || request.At(d) > policy.limits.At(d) - used.value {
            return Some(d);
          }
        }
        assert DIMENSIONS[i..][1..] == DIMENSIONS[i + 1..];
        i := i + 1;
      }
      full := None;
    }

    /** The checks of an admission, and the key's and bucket's rows as the admission would store them. */
    method CheckRequest(key: Key, policy: Policy, request: Amounts, now: nat)
      returns (outcome: Admission, state: KeyState, bucket: Bucket)
      ensures outcome == CheckAdmission(Snapshot(), key, policy, request, now)
      ensures outcome == Admitted ==> state == CountedState(Snapshot(), key, policy, now)
      ensures outcome == Admitted ==>
                match PeriodOf(key, policy, now)
                case None => true
                case Some(p) => ReservedBucket(Snapshot(), p, request) == Some(bucket)
    {
      state, bucket := KeyState(0, 0, []), Bucket(NOTHING, NOTHING);
      if Blank(key) {
        return Failed(BadKey), state, bucket;
      }
      if !ValidPolicy(policy) {
        return Failed(BadPolicy), state, bucket;
      }
      if !ValidRequest(request) {
        return Failed(BadRequest), state, bucket;
      }
      var ceiling := CeilingExceeded(policy, request);
      if ceiling.Some? {
        return Refused(NewError(Limit(ceiling.value), now, now + SECOND)), state, bucket;
      }
      if !PolicyEnabled(policy) {
        return Unlimited, state, bucket;
      }
      var locked := LockState(key);
      state := CleanupRollingAdmissions(locked, now);
      if policy.maxConcurrent > 0 && state.active >= policy.maxConcurrent {
        return Refused(NewError(Concurrency, now, now + SECOND)), state, bucket;
      }
      if policy.rollingCount > 0 && state.rolling >= policy.rollingCount {
        return Refused(NewError(Rate, now, NextReset(state.expiries, now, policy.rollingWindow))), state, bucket;
      }
      var period := PeriodOf(key, policy, now);
      if period.Some? {
        bucket := if period.value in buckets then buckets[period.value] else bucket;
        var full := CheckBucketLimits(policy, bucket, request);
        if full.Some? {
          return Refused(NewError(Limit(full.value), now, period.value.start + policy.periodDuration)), state, bucket;
        }
      }
      if state.active == MAX_INT64 {
        return Failed(OutOfRange), state, bucket;
      }
      state := state.(active := state.active + 1);
      if policy.rollingCount > 0 {
        state := state.(rolling := state.rolling + 1,
                        expiries := InsertExpiry(state.expiries, now + policy.rollingWindow));
      }
      if period.Some? {
        var reserved := AddAll(bucket.reserved, request);
        if reserved.None? {
          return Failed(OutOfRange), state, bucket;
        }
        bucket := bucket.(reserved := reserved.value);
      }
      outcome := Admitted;
    }

    method AdmitRequest(key: Key, policy: Policy, request: Amounts, now: nat, id: Id) returns (outcome: Admission)
      requires Valid()
      modifies this
      ensures Valid()
      ensures (outcome, Snapshot()) == Admit(old(Snapshot()), ownerId, key, policy, request, now, id)
    {
      AdmitConserves(Snapshot(), ownerId, key, policy, request, now, id);
      ghost var after := Admit(Snapshot(), ownerId, key, policy, request, now, id);
      var state, bucket;
      outcome, state, bucket := CheckRequest(key, policy, request, now);
      if outcome != Admitted {
        return;
      }
      if id in reservations {
        return Failed(IdTaken);
      }
      var period := PeriodOf(key, policy, now);
      keys := keys[key := state];
      if period.Some? {
        buckets := buckets[period.value := bucket];
      }
      reservations := reservations[id := Reservation(key, ownerId, period, request, NOTHING, Pending)];
      assert after == (Admitted, Snapshot());
    }

    method BeginQuotaFinalization(id: Id, usage: Amounts) returns (outcome: Outcome)
      requires Valid()
      modifies this
      ensures Valid()
      ensures (outcome, Snapshot()) == BeginFinalization(old(Snapshot()), id, usage)
    {
      BeginConserves(Snapshot(), id, usage);
      if id !in reservations {
        return Error(NotFound);
      }
      var reservation := reservations[id];
      if reservation.status != Pending {
        return Done;
      }
      var charge := usage;
      if charge.requests == 0 {
        charge := charge.(requests := reservation.requested.requests);
      }
      if charge.cost == 0 {
        charge := charge.(cost := reservation.requested.cost);
      }
      if !ValidUsage(charge) {
        return Error(BadUsage);
      }
      reservations := reservations[id := reservation.(status := Finalizing, actual := charge)];
      outcome := Done;
    }

    /** Take one open reservation off its key and bucket. */
    method CloseReservation(id: Id, charge: Amounts, status: Status) returns (outcome: Outcome)
      requires id in reservations
      modifies this
      ensures (outcome, Snapshot()) == Close(old(Snapshot()), id, charge, status)
    {
      var reservation := reservations[id];
      var state := LockState(reservation.key);
      if state.active <= 0 {
        return Error(Inconsistent);
      }
      state := state.(active := state.active - 1);
      if reservation.bucket.Some? {
        var period := reservation.bucket.value;
        if period !in buckets {
          return Error(NotFound);
        }
        var bucket := buckets[period];
        var reserved := SubtractAll(bucket.reserved, reservation.requested);
        if reserved.None? {
          return Error(Inconsistent);
        }
        bucket := bucket.(reserved := reserved.value);
        if status == Closed {
          var actual := AddAll(bucket.actual, charge);
          if actual.None? {
            return Error(OutOfRange);
          }
          bucket := bucket.(actual := actual.value);
        }
        buckets := buckets[period := bucket];
      }
      keys := keys[reservation.key := state];
      reservations := reservations[id := reservation.(status := status, actual := charge)];
      outcome := Done;
    }

    method ApplyFinalizingReservation(id: Id) returns (outcome: Outcome)
      requires Valid()
      modifies this
      ensures Valid()
      ensures (outcome, Snapshot()) == ApplyFinalizing(old(Snapshot()), id)
    {
      if id !in reservations || reservations[id].status != Finalizing {
        return Done;
      }
      ApplyOutcome(Snapshot(), id);
      if !ValidUsage(reservations[id].actual) {
        return Error(BadUsage);
      }
      outcome := CloseReservation(id, reservations[id].actual, Closed);
    }

    method ReconcileUsage(id: Id, usage: Amounts) returns (outcome: Outcome)
      requires Valid()
      modifies this
      ensures Valid()
      ensures (outcome, Snapshot()) == Reconcile(old(Snapshot()), id, usage)
    {
      if !ValidUsage(usage) {
        return Error(BadUsage);
      }
      outcome := BeginQuotaFinalization(id, usage);
      if outcome != Done {
        return;
      }
      outcome := ApplyFinalizingReservation(id);
    }

    method ReleaseReservation(id: Id) returns (outcome: Outcome)
      requires Valid()
      modifies this
      ensures Valid()
      ensures (outcome, Snapshot()) == Release(old(Snapshot()), id)
    {
      if id !in reservations {
        return Error(NotFound);
      }
      if reservations[id].status != Pending {
        return Done;
      }
      ReleaseOutcome(Snapshot(), id);
      outcome := CloseReservation(id, NOTHING, Released);
    }

    // ----- Crash recovery -----

    predicate Wanted(id: Id, finalizing: bool)
      reads this
    {
      id in reservations
      && if finalizing then reservations[id].status == Finalizing
         else reservations[id].status == Pending && reservations[id].owner != ownerId
    }

    function AllWanted(finalizing: bool): set<Id>
      reads this
    {
      set id | id in reservations && Wanted(id, finalizing)
    }

    /** The first batch, by ascending id, of the rows that recovery must settle. */
    method LoadBatch(finalizing: bool) returns (ids: seq<Id>)
      ensures |ids| <= BATCH_SIZE
      ensures forall i :: 0 <= i < |ids| ==> Wanted(ids[i], finalizing)
      ensures forall i, j :: 0 <= i < j < |ids| ==> ids[i] < ids[j]
      ensures forall id, i :: Wanted(id, finalizing) && id !in ids && 0 <= i < |ids| ==> ids[i] < id
      ensures |ids| < BATCH_SIZE ==> forall id :: Wanted(id, finalizing) ==> id in ids
    {
      ids := [];
      var rest := AllWanted(finalizing);
      while |ids| < BATCH_SIZE && rest != {}
        invariant |ids| <= BATCH_SIZE
        invariant forall id :: Wanted(id, finalizing) <==> id in ids || id in rest
        invariant forall i, j :: 0 <= i < j < |ids| ==> ids[i] < ids[j]
        invariant forall id, i :: id in rest && 0 <= i < |ids| ==> ids[i] < id
        decreases rest
      {
        var least := Least(rest);
        ids := ids + [least];
        rest := rest - {least};
      }
    }

    /** Read one loaded row again and settle it. */
    method SettleCandidate(id: Id, finalizing: bool, ghost start: Ledger, ghost begun: Ledger, ghost done: set<Id>)
      returns (outcome: Outcome)
      requires Progress(start, begun, Snapshot(), done, ownerId)
      requires id in UnresolvedIds(begun.reservations, ownerId) && id !in done
      requires begun.reservations[id].status == if finalizing then Finalizing else Pending
      modifies this
      ensures if outcome == Done then Progress(start, begun, Snapshot(), done + {id}, ownerId)
              else outcome == Error(OutOfRange) && !RecoveryFits(start, ownerId)
    {
      ProgressOne(start, begun, Snapshot(), done, id, ownerId);
      if finalizing {
        outcome := ApplyFinalizingReservation(id);
      } else if !Wanted(id, false) {
        outcome := Done;
      } else {
        outcome := ReleaseReservation(id);
      }
    }

    /** Settle one loaded batch. */
    method SettleBatch(ids: seq<Id>, finalizing: bool, ghost start: Ledger, ghost begun: Ledger, ghost done: set<Id>)
      returns (outcome: Outcome)
      requires Progress(start, begun, Snapshot(), done, ownerId)
      requires forall i :: 0 <= i < |ids| ==> ids[i] in UnresolvedIds(begun.reservations, ownerId) && ids[i] !in done
      requires forall i :: 0 <= i < |ids| ==>
                 begun.reservations[ids[i]].status == if finalizing then Finalizing else Pending
      requires forall i, j :: 0 <= i < j < |ids| ==> ids[i] < ids[j]
      modifies this
      ensures if outcome == Done then Progress(start, begun, Snapshot(), done + Elements(ids), ownerId)
              else outcome == Error(OutOfRange) && !RecoveryFits(start, ownerId)
    {
      outcome := Done;
      BatchSteps(ids, done);
      for i := 0 to |ids|
        invariant outcome == Done
        invariant Progress(start, begun, Snapshot(), Reached(ids, i, done), ownerId)
      {
        outcome := SettleCandidate(ids[i], finalizing, start, begun, Reached(ids, i, done));
        if outcome != Done {
          return;
        }
      }
    }

    ghost predicate Loaded(ids: seq<Id>, finalizing: bool)
      reads this
    {
      && (forall i :: 0 <= i < |ids| ==> ids[i] in UnresolvedIds(reservations, ownerId))
      && (forall i :: 0 <= i < |ids| ==> reservations[ids[i]].status == if finalizing then Finalizing else Pending)
      && (forall i, j :: 0 <= i < j < |ids| ==> ids[i] < ids[j])
    }

    method LoadBatches() returns (finalizing: seq<Id>, pending: seq<Id>)
      ensures Loaded(finalizing, true) && Loaded(pending, false)
      ensures finalizing == [] && pending == [] ==> UnresolvedIds(reservations, ownerId) == {}
    {
      finalizing := LoadBatch(true);
      pending := LoadBatch(false);
      assert forall id :: id in UnresolvedIds(reservations, ownerId) ==> Wanted(id, true) || Wanted(id, false);
    }

    method SettleBatches(finalizing: seq<Id>, pending: seq<Id>, ghost start: Ledger) returns (outcome: Outcome)
      requires Settling(start, Snapshot(), ownerId)
      requires Loaded(finalizing, true) && Loaded(pending, false)
      modifies this
      ensures if outcome == Done then
                Progress(start, old(Snapshot()), Snapshot(), Elements(finalizing) + Elements(pending), ownerId)
              else outcome == Error(OutOfRange) && !RecoveryFits(start, ownerId)
    {
      ghost var begun := Snapshot();
      assert {} + Elements(finalizing) == Elements(finalizing);
      assert forall i :: 0 <= i < |pending| ==> pending[i] !in Elements(finalizing);
      outcome := SettleBatch(finalizing, true, start, begun, {});
      if outcome == Done {
        outcome := SettleBatch(pending, false, start, begun, Elements(finalizing));
      }
    }

    /** Settle batch after batch until none is left. */
    method SettlePending(ghost start: Ledger) returns (outcome: Outcome)
      requires Settling(start, Snapshot(), ownerId)
      modifies this
      ensures if outcome == Done then (Done, Snapshot()) == Recover(start, ownerId)
              else outcome == Error(OutOfRange) && !RecoveryFits(start, ownerId)
    {
      while true
        invariant Settling(start, Snapshot(), ownerId)
        decreases UnresolvedIds(reservations, ownerId)
      {
        var finalizing, pending := LoadBatches();
        if |finalizing| == 0 && |pending| == 0 {
          SettledAll(start, Snapshot(), ownerId);
          return Done;
        }
        ghost var next := if |finalizing| > 0 then finalizing[0] else pending[0];
        assert next in Elements(finalizing) + Elements(pending);
        outcome := SettleBatches(finalizing, pending, start);
        if outcome != Done {
          return;
        }
      }
    }

    /** Settle every recorded success and every pending row of another process in one transaction. */
    method RecoverPending() returns (outcome: Outcome)
      requires Valid()
      modifies this
      ensures Valid()
      ensures (outcome, Snapshot()) == Recover(old(Snapshot()), ownerId)
    {
      var savedKeys, savedBuckets, savedReservations := keys, buckets, reservations;
      RecoverConserves(Snapshot(), ownerId);
      outcome := SettlePending(Snapshot());
      if outcome != Done {
        keys, buckets, reservations := savedKeys, savedBuckets, savedReservations;
      }
    }
  }

  /** The rows settled once `i` rows of a batch are, on top of those settled before. */
  ghost function Reached(ids: seq<Id>, i: nat, done: set<Id>): set<Id>
    requires i <= |ids|
  {
    done + Elements(ids[..i])
  }

  lemma BatchSteps(ids: seq<Id>, done: set<Id>)
    requires forall i, j :: 0 <= i < j < |ids| ==> ids[i] < ids[j]
    requires forall i :: 0 <= i < |ids| ==> ids[i] !in done
    ensures Reached(ids, 0, done) == done && Reached(ids, |ids|, done) == done + Elements(ids)
    ensures forall i :: 0 <= i < |ids| ==> ids[i] !in Reached(ids, i, done)
    ensures forall i :: 0 <= i < |ids| ==> Reached(ids, i + 1, done) == Reached(ids, i, done) + {ids[i]}
  {
    assert ids[..|ids|] == ids;
    forall i | 0 <= i < |ids| ensures Reached(ids, i + 1, done) == Reached(ids, i, done) + {ids[i]} {
      assert ids[..i + 1] == ids[..i] + [ids[i]];
    }
  }
}
