/** Limits of a key over whole runs in which its policy stays the same. */
module QuotaLimits {
  import opened QuotaLedger
  import opened QuotaProofs
  import opened QuotaRuns

  /** What a row holds of a bucket, without the part of its charge that passed its reservation. */
  function Net(p: Period, d: Dimension, r: Reservation): int {
    Value(ReservedIn(p, d), r) + Value(ChargedIn(p, d), r) - Value(OverageIn(p, d), r)
  }

  ghost function NetTotal(rs: map<Id, Reservation>, p: Period, d: Dimension): int {
    Total(rs, ReservedIn(p, d)) + Total(rs, ChargedIn(p, d)) - Total(rs, OverageIn(p, d))
  }

  ghost predicate WithinLimits(l: Ledger, key: Key, p: Policy) {
    && (key in l.keys && p.maxConcurrent > 0 ==> l.keys[key].active <= p.maxConcurrent)
    && (forall b <- l.buckets, d: Dimension ::
          b.key == key && p.limits.At(d) > 0 ==> NetTotal(l.reservations, b, d) <= p.limits.At(d))
  }

  lemma NetUpdate(rs: map<Id, Reservation>, id: Id, r: Reservation, p: Period, d: Dimension)
    ensures NetTotal(rs[id := r], p, d) ==
            NetTotal(rs, p, d) + Net(p, d, r) - (if id in rs then Net(p, d, rs[id]) else 0)
  {
    TotalUpdate(rs, ReservedIn(p, d), id, r);
    TotalUpdate(rs, ChargedIn(p, d), id, r);
    TotalUpdate(rs, OverageIn(p, d), id, r);
  }

  lemma {:induction false} NetMonotone(rs: map<Id, Reservation>, rs': map<Id, Reservation>, p: Period, d: Dimension)
    requires rs.Keys == rs'.Keys && forall id <- rs :: Net(p, d, rs'[id]) <= Net(p, d, rs[id])
    ensures NetTotal(rs', p, d) <= NetTotal(rs, p, d)
    decreases |rs|
  {
    if rs == map[] {
      assert rs' == map[];
    } else {
      var id :| id in rs;
      NetSplit(rs, id, p, d);
      NetSplit(rs', id, p, d);
      NetMonotone(rs - {id}, rs' - {id}, p, d);
    }
  }

  lemma NetSplit(rs: map<Id, Reservation>, id: Id, p: Period, d: Dimension)
    requires id in rs
    ensures NetTotal(rs, p, d) == Net(p, d, rs[id]) + NetTotal(rs - {id}, p, d)
  {
    TotalSplit(rs, ReservedIn(p, d), id);
    TotalSplit(rs, ChargedIn(p, d), id);
    TotalSplit(rs, OverageIn(p, d), id);
  }

  // ----- Admission -----

  lemma {:induction false} RoomAmong(p: Policy, b: Bucket, r: Amounts, dims: seq<Dimension>, d: Dimension)
    requires FirstWithoutRoom(p, b, r, dims).None? && d in dims
    ensures !NoRoom(p, b, r, d)
  {
    if d != dims[0] {
      RoomAmong(p, b, r, dims[1..], d);
    }
  }

  lemma RoomEverywhere(p: Policy, b: Bucket, r: Amounts, d: Dimension)
    requires FirstWithoutRoom(p, b, r, DIMENSIONS).None?
    ensures !NoRoom(p, b, r, d)
  {
    assert DIMENSIONS[0] == Requests && DIMENSIONS[1] == Tokens && DIMENSIONS[2] == Images && DIMENSIONS[3] == Cost;
    RoomAmong(p, b, r, DIMENSIONS, d);
  }

  lemma OverageNonNegative(rs: map<Id, Reservation>, p: Period, d: Dimension)
    requires ValidRows(rs)
    ensures Total(rs, OverageIn(p, d)) >= 0
  {
    TotalNonNegative(rs, OverageIn(p, d));
  }

  lemma AdmitKeepsBucket(l: Ledger, policy: Policy, request: Amounts, r: Reservation, id: Id, p: Period, d: Dimension)
    requires Conserved(l) && id !in l.reservations
    requires r.bucket == Some(p) && r.requested == request && r.status == Pending
    requires FirstWithoutRoom(policy, BucketOf(l, p), request, DIMENSIONS).None?
    requires policy.limits.At(d) > 0
    ensures NetTotal(l.reservations[id := r], p, d) <= policy.limits.At(d)
  {
    RoomEverywhere(policy, BucketOf(l, p), request, d);
    BucketSums(l, p);
    OverageNonNegative(l.reservations, p, d);
    NetUpdate(l.reservations, id, r, p, d);
    SumsAtBoth(l.reservations, p, d);
  }

  lemma SumsAtBoth(rs: map<Id, Reservation>, p: Period, d: Dimension)
    ensures Sums(rs, p).actual.At(d) == Total(rs, ChargedIn(p, d))
    ensures Sums(rs, p).reserved.At(d) == Total(rs, ReservedIn(p, d))
  {
  }

  lemma AdmitKeepsLimits(l: Ledger, a: Action, key: Key, p: Policy)
    requires Conserved(l) && WithinLimits(l, key, p) && a.AdmitAction? && (a.key == key ==> a.policy == p)
    ensures WithinLimits(Execute(l, a), key, p)
  {
    var (outcome, l') := Admit(l, a.owner, a.key, a.policy, a.request, a.now, a.id);
    if outcome == Admitted {
      AdmittedIsChecked(l, a.key, a.policy, a.request, a.now);
      var r := l'.reservations[a.id];
      forall b <- l'.buckets, d: Dimension | b.key == key && p.limits.At(d) > 0
        ensures NetTotal(l'.reservations, b, d) <= p.limits.At(d)
      {
        if r.bucket == Some(b) {
          AdmitKeepsBucket(l, a.policy, a.request, r, a.id, b, d);
        } else {
          NetUpdate(l.reservations, a.id, r, b, d);
          BucketStays(l, b, d);
        }
      }
    }
  }

  /** A bucket that does not exist yet holds nothing. */
  lemma BucketStays(l: Ledger, b: Period, d: Dimension)
    requires Conserved(l)
    ensures b !in l.buckets ==> NetTotal(l.reservations, b, d) == 0
  {
    if b !in l.buckets {
      Untouched(l.reservations, ReservedIn(b, d));
      Untouched(l.reservations, ChargedIn(b, d));
      Untouched(l.reservations, OverageIn(b, d));
    }
  }

  // ----- Everything else only gives back -----

  ghost predicate GivesBack(l: Ledger, l': Ledger) {
    && l'.reservations.Keys == l.reservations.Keys && l'.keys.Keys == l.keys.Keys && l'.buckets.Keys == l.buckets.Keys
    && (forall k <- l.keys :: l'.keys[k].active <= l.keys[k].active)
    && (forall id <- l.reservations, p: Period, d: Dimension ::
          Net(p, d, l'.reservations[id]) <= Net(p, d, l.reservations[id]))
  }

  lemma GivingBackKeepsLimits(l: Ledger, l': Ledger, key: Key, p: Policy)
    requires WithinLimits(l, key, p) && GivesBack(l, l')
    ensures WithinLimits(l', key, p)
  {
    forall b <- l'.buckets, d: Dimension | b.key == key && p.limits.At(d) > 0
      ensures NetTotal(l'.reservations, b, d) <= p.limits.At(d)
    {
      NetMonotone(l.reservations, l'.reservations, b, d);
    }
  }

  /** How one row may change without a new admission. */
  ghost predicate Returns(r: Reservation, r': Reservation) {
    || r' == r
    || (r.status == Pending && r'.status == Finalizing && r'.bucket == r.bucket && r'.requested == r.requested)
    || (r.Open() && r' == ClosedRow(r, Released))
    || (r.status == Finalizing && r' == ClosedRow(r, Closed))
  }

  lemma RowGivesBack(r: Reservation, r': Reservation, p: Period, d: Dimension)
    requires ValidRow(r) && Returns(r, r')
    ensures Net(p, d, r') <= Net(p, d, r)
  {
    assert r.requested.At(d) >= 0;
  }

  ghost predicate AllReturn(l: Ledger, l': Ledger) {
    && l'.reservations.Keys == l.reservations.Keys && l'.keys.Keys == l.keys.Keys && l'.buckets.Keys == l.buckets.Keys
    && (forall k <- l.keys :: l'.keys[k].active <= l.keys[k].active)
    && (forall id <- l.reservations :: Returns(l.reservations[id], l'.reservations[id]))
  }

  lemma CloseReturns(l: Ledger, id: Id, status: Status)
    requires Closable(l, id, status)
    ensures AllReturn(l, Close(l, id, ClosedRow(l.reservations[id], status).actual, status).1)
  {
    CloseWrites(l, id, status);
  }

  lemma BeginReturns(l: Ledger, id: Id, usage: Amounts)
    ensures AllReturn(l, BeginFinalization(l, id, usage).1)
  {
  }

  lemma RecoverReturns(l: Ledger, owner: Id)
    requires Conserved(l)
    ensures AllReturn(l, Recover(l, owner).1)
  {
    RecoveryShrinks(l, owner);
  }

  lemma ExecuteReturns(l: Ledger, a: Action)
    requires Conserved(l) && !a.AdmitAction?
    ensures AllReturn(l, Execute(l, a))
  {
    match a
    case BeginAction(id, usage) => BeginReturns(l, id, usage);
    case ApplyAction(id) =>
      if id in l.reservations && l.reservations[id].status == Finalizing {
        CloseReturns(l, id, Closed);
      }
    case ReleaseAction(id) =>
      if id in l.reservations && l.reservations[id].status == Pending {
        CloseReturns(l, id, Released);
      }
    case RecoverAction(owner) => RecoverReturns(l, owner);
  }

  lemma ExecuteGivesBack(l: Ledger, a: Action)
    requires Conserved(l) && !a.AdmitAction?
    ensures GivesBack(l, Execute(l, a))
  {
    var l' := Execute(l, a);
    ExecuteReturns(l, a);
    forall id <- l.reservations, p: Period, d: Dimension
      ensures Net(p, d, l'.reservations[id]) <= Net(p, d, l.reservations[id])
    {
      RowGivesBack(l.reservations[id], l'.reservations[id], p, d);
    }
  }

  lemma ExecuteKeepsLimits(l: Ledger, a: Action, key: Key, p: Policy)
    requires Conserved(l) && WithinLimits(l, key, p) && (a.AdmitAction? && a.key == key ==> a.policy == p)
    ensures WithinLimits(Execute(l, a), key, p)
  {
    if a.AdmitAction? {
      AdmitKeepsLimits(l, a, key, p);
    } else {
      ExecuteGivesBack(l, a);
      GivingBackKeepsLimits(l, Execute(l, a), key, p);
    }
  }

  lemma {:induction false} RunKeepsLimits(l: Ledger, actions: seq<Action>, key: Key, p: Policy)
    requires Conserved(l) && WithinLimits(l, key, p) && Steady(actions, key, p)
    ensures WithinLimits(Run(l, actions), key, p)
    decreases |actions|
  {
    if actions != [] {
      ExecuteConserves(l, actions[0]);
      ExecuteKeepsLimits(l, actions[0], key, p);
      RunKeepsLimits(Execute(l, actions[0]), actions[1..], key, p);
    }
  }

  // ----- The limits a caller sees -----

  lemma RequestsNeverOverrun(rs: map<Id, Reservation>, p: Period)
    requires ValidRows(rs)
    ensures Total(rs, OverageIn(p, Requests)) == 0
  {
    Untouched(rs, OverageIn(p, Requests));
  }

  /** After any run from the empty ledger in which the key's admissions are under one policy: its open
      reservations stay within the concurrency limit, a bucket's reserved plus charged requests within the
      request limit, and its tokens, images and cost within their limits plus the summed overage of closed
      reservations. */
  lemma LimitsHold(actions: seq<Action>, p: Policy, key: Key)
    requires Steady(actions, key, p)
    ensures var l := Run(EMPTY, actions);
            && (p.maxConcurrent > 0 ==> Total(l.reservations, OpenOf(key)) <= p.maxConcurrent)
            && (forall b <- l.buckets, d: Dimension :: b.key == key && p.limits.At(d) > 0 ==>
                  l.buckets[b].reserved.At(d) + l.buckets[b].actual.At(d)
                  <= p.limits.At(d) + Total(l.reservations, OverageIn(b, d)))
            && (forall b <- l.buckets :: Total(l.reservations, OverageIn(b, Requests)) == 0)
  {
    var l := Run(EMPTY, actions);
    RunConserves(EMPTY, actions);
    RunKeepsLimits(EMPTY, actions, key, p);
    if key !in l.keys {
      Untouched(l.reservations, OpenOf(key));
    }
    forall b <- l.buckets, d: Dimension
      ensures l.buckets[b].reserved.At(d) + l.buckets[b].actual.At(d)
              == NetTotal(l.reservations, b, d) + Total(l.reservations, OverageIn(b, d))
    {
      SumsAtBoth(l.reservations, b, d);
    }
    forall b <- l.buckets ensures Total(l.reservations, OverageIn(b, Requests)) == 0 {
      RequestsNeverOverrun(l.reservations, b);
    }
  }

  /** Every 64-bit addition and subtraction of the limit checks is exact on stored counters. */
  lemma LimitChecksStayInRange(l: Ledger, policy: Policy, p: Period, d: Dimension)
    requires Conserved(l) && ValidPolicy(policy) && p in l.buckets
    ensures var used := Add(l.buckets[p].reserved.At(d), l.buckets[p].actual.At(d));
            && (used.None? <==> l.buckets[p].reserved.At(d) + l.buckets[p].actual.At(d) > MAX_INT64)
            && (used.Some? ==> -MAX_INT64 <= policy.limits.At(d) - used.value <= MAX_INT64)
  {
    TotalNonNegative(l.reservations, ReservedIn(p, d));
    TotalNonNegative(l.reservations, ChargedIn(p, d));
    SumsAtBoth(l.reservations, p, d);
  }
}
