/** What reconciling and releasing one reservation does, in the amounts of the row and its bucket. */
module QuotaCharges {
  import opened QuotaLedger
  import opened QuotaProofs
  import opened QuotaRuns

  /** A usage that may be reported. */
  predicate ProperUsage(u: Amounts) {
    && 0 <= u.requests <= 1 && 0 <= u.tokens <= MAX_QUOTA_COUNT && 0 <= u.images <= MAX_QUOTA_COUNT
    && 0 <= u.cost <= MAX_QUOTA_COUNT
  }

  /** The bucket gives back what the row reserved, and takes the charge. */
  ghost predicate Moves(was: Bucket, now: Bucket, requested: Amounts, charge: Amounts) {
    forall d: Dimension ::
      now.reserved.At(d) == was.reserved.At(d) - requested.At(d) && now.actual.At(d) == was.actual.At(d) + charge.At(d)
  }

  /** One row is taken off its key and bucket; nothing else changes. */
  ghost predicate Finishes(l: Ledger, l': Ledger, id: Id, status: Status, charge: Amounts)
    requires id in l.reservations
  {
    var r := l.reservations[id];
    && l'.reservations == l.reservations[id := r.(status := status, actual := charge)]
    && r.key in l.keys && l'.keys == l.keys[r.key := l.keys[r.key].(active := l.keys[r.key].active - 1)]
    && match r.bucket
       case None => l'.buckets == l.buckets
       case Some(p) =>
         && p in l.buckets && p in l'.buckets && l'.buckets == l.buckets[p := l'.buckets[p]]
         && Moves(l.buckets[p], l'.buckets[p], r.requested, charge)
  }

  /** The charge would take a counter of the bucket past 64 bits. */
  ghost predicate Overruns(l: Ledger, r: Reservation, charge: Amounts) {
    r.bucket.Some? && r.bucket.value in l.buckets
    && exists d: Dimension :: l.buckets[r.bucket.value].actual.At(d) + charge.At(d) > MAX_INT64
  }

  lemma OverrunsIsNoRoom(l: Ledger, r: Reservation, charge: Amounts)
    requires r.bucket.Some? ==> r.bucket.value in l.buckets
    ensures HasRoom(l, r, charge) <==> !Overruns(l, r, charge)
  {
    if r.bucket.Some? {
      var b := l.buckets[r.bucket.value].actual;
      FitsAt(Plus(b, charge));
      assert forall d: Dimension :: Plus(b, charge).At(d) == b.At(d) + charge.At(d);
    }
  }

  /** A close either takes the row off its key and bucket or does not fit. */
  lemma CloseIsExact(l: Ledger, id: Id, status: Status)
    requires Closable(l, id, status)
    ensures var r := l.reservations[id];
            var charge := if status == Closed then r.actual else NOTHING;
            var (outcome, l') := Close(l, id, charge, status);
            if Overruns(l, r, charge) then outcome == Error(OutOfRange) && l' == l
            else outcome == Done && Finishes(l, l', id, status, charge)
  {
    var r := l.reservations[id];
    OpenRowIsCounted(l, id);
    CloseWrites(l, id, status);
    assert r.bucket.Some? ==> r.bucket.value in l.buckets;
    OverrunsIsNoRoom(l, r, ClosedRow(r, status).actual);
  }

  /** An open row is closed under the charge, or keeps it when it does not fit. */
  ghost predicate Charges(l: Ledger, id: Id, charge: Amounts, outcome: Outcome, l': Ledger)
    requires id in l.reservations
  {
    if Overruns(l, l.reservations[id], charge) then
      && outcome == Error(OutOfRange)
      && l' == l.(reservations := l.reservations[id := l.reservations[id].(status := Finalizing, actual := charge)])
    else outcome == Done && Finishes(l, l', id, Closed, charge)
  }

  lemma RecordedIsCharged(l: Ledger, recorded: Ledger, id: Id, charge: Amounts)
    requires id in l.reservations && Conserved(recorded)
    requires var r := l.reservations[id].(status := Finalizing, actual := charge);
             recorded == l.(reservations := l.reservations[id := r])
    ensures Charges(l, id, charge, ApplyFinalizing(recorded, id).0, ApplyFinalizing(recorded, id).1)
  {
    CloseIsExact(recorded, id, Closed);
    assert ValidRow(recorded.reservations[id]);
    var l' := ApplyFinalizing(recorded, id).1;
    if l' != recorded {
      assert l'.reservations == l.reservations[id := l'.reservations[id]];
    }
  }

  /** Reconciling a reservation with a usage. A usage out of range or an unknown reservation is refused, a finished
      one stays as it is. A pending one is charged what the usage reports, or what it reserved of the requests and
      the cost when the usage reports none of them; a recorded charge is applied instead of a new one. A charge that
      does not fit is kept with the row. */
  lemma ReconcileIsExact(l: Ledger, id: Id, usage: Amounts, charge: Amounts)
    requires Conserved(l)
    requires charge.tokens == usage.tokens && charge.images == usage.images
    requires charge.requests == if usage.requests > 0 || id !in l.reservations then usage.requests
                                else l.reservations[id].requested.requests
    requires charge.cost == if usage.cost > 0 || id !in l.reservations then usage.cost
             else l.reservations[id].requested.cost
    ensures var (outcome, l') := Reconcile(l, id, usage);
            if !ProperUsage(usage) then outcome == Error(BadUsage) && l' == l
            else if id !in l.reservations then outcome == Error(NotFound) && l' == l
            else
              match l.reservations[id].status
              case Pending => Charges(l, id, charge, outcome, l')
              case Finalizing => Charges(l, id, l.reservations[id].actual, outcome, l')
              case _ => outcome == Done && l' == l
  {
    if ProperUsage(usage) && id in l.reservations {
      var r := l.reservations[id];
      assert ValidRow(r);
      BeginConserves(l, id, usage);
      if r.status == Pending {
        assert Charge(r, usage) == charge;
        RecordedIsCharged(l, BeginFinalization(l, id, usage).1, id, charge);
      } else if r.status == Finalizing {
        assert l.reservations[id := r] == l.reservations;
        RecordedIsCharged(l, l, id, r.actual);
      }
    }
  }

  /** Releasing gives a pending reservation up without a charge, and leaves any other as it is. */
  lemma ReleaseIsExact(l: Ledger, id: Id)
    requires Conserved(l)
    ensures var (outcome, l') := Release(l, id);
            if id !in l.reservations then outcome == Error(NotFound) && l' == l
            else if l.reservations[id].status == Pending then
              outcome == Done && Finishes(l, l', id, Released, Amounts(0, 0, 0, 0))
            else outcome == Done && l' == l
  {
    if id in l.reservations && l.reservations[id].status == Pending {
      CloseIsExact(l, id, Released);
      ReleaseOutcome(l, id);
    }
  }
}
