/** Conservation: in every state of every run the counters of the ledger are the sums over its
    reservations, so the ledger is determined by its reservation table. */
module QuotaProofs {
  import opened QuotaLedger

  // ----- Sums over the reservation table -----

  /** What one reservation contributes to one counter. */
  datatype Measure =
    | OpenOf(key: Key)
    | ReservedIn(period: Period, dimension: Dimension)
    | ChargedIn(period: Period, dimension: Dimension)
    | OverageIn(period: Period, dimension: Dimension)

  function Value(m: Measure, r: Reservation): int {
    match m
    case OpenOf(key) => if r.key == key && r.Open() then 1 else 0
    case ReservedIn(period, d) => if r.bucket == Some(period) && r.Open() then r.requested.At(d) else 0
    case ChargedIn(period, d) => if r.bucket == Some(period) && r.status == Closed then r.actual.At(d) else 0
    case OverageIn(period, d) =>
      if r.bucket == Some(period) && r.status == Closed && r.actual.At(d) > r.requested.At(d)
      then r.actual.At(d) - r.requested.At(d) else 0
  }

  ghost function Total(rs: map<Id, Reservation>, m: Measure): int
    decreases |rs|
  {
    if rs == map[] then 0
    else
      var id :| id in rs;
      Value(m, rs[id]) + Total(rs - {id}, m)
  }

  lemma {:induction false} TotalSplit(rs: map<Id, Reservation>, m: Measure, id: Id)
    requires id in rs
    ensures Total(rs, m) == Value(m, rs[id]) + Total(rs - {id}, m)
    decreases |rs|
  {
    var first :| first in rs && Total(rs, m) == Value(m, rs[first]) + Total(rs - {first}, m);
    if first != id {
      TotalSplit(rs - {first}, m, id);
      TotalSplit(rs - {id}, m, first);
      assert rs - {first} - {id} == rs - {id} - {first};
    }
  }

  /** Writing one row moves every sum by that row's difference. */
  lemma TotalUpdate(rs: map<Id, Reservation>, m: Measure, id: Id, r: Reservation)
    ensures Total(rs[id := r], m) ==
            Total(rs, m) + Value(m, r) - (if id in rs then Value(m, rs[id]) else 0)
  {
    TotalSplit(rs[id := r], m, id);
    assert rs[id := r] - {id} == rs - {id};
    if id in rs {
      TotalSplit(rs, m, id);
    } else {
      assert rs - {id} == rs;
    }
  }

  // ----- The invariant -----

  /** A row as the transactions write it. */
  ghost predicate ValidRow(r: Reservation) {
    ValidRequest(r.requested)
    && (match r.bucket case None => true case Some(p) => p.key == r.key)
    && match r.status
       case Pending => r.actual == NOTHING
       case Released => r.actual == NOTHING
       case _ => ValidUsage(r.actual) && r.actual.requests == 1
  }

  ghost predicate ValidRows(rs: map<Id, Reservation>) {
    forall id <- rs :: ValidRow(rs[id])
  }

  lemma ValueNonNegative(m: Measure, r: Reservation)
    requires ValidRow(r)
    ensures Value(m, r) >= 0
  {
  }

  lemma RestIsValid(rs: map<Id, Reservation>, id: Id)
    requires ValidRows(rs) && id in rs
    ensures ValidRow(rs[id]) && ValidRows(rs - {id}) && |rs - {id}| < |rs|
  {
    var rest := rs - {id};
    assert forall other <- rest :: ValidRow(rest[other]);
    assert rs.Keys == rest.Keys + {id};
  }

  lemma {:induction false} TotalNonNegative(rs: map<Id, Reservation>, m: Measure)
    requires ValidRows(rs)
    ensures Total(rs, m) >= 0
    decreases |rs|
  {
    if rs != map[] {
      var id :| id in rs;
      RestIsValid(rs, id);
      ValueNonNegative(m, rs[id]);
      TotalSplit(rs, m, id);
      TotalNonNegative(rs - {id}, m);
    }
  }

  /** Every row's key and bucket exist. */
  ghost predicate Referenced(l: Ledger, rs: map<Id, Reservation>) {
    forall id <- rs ::
      rs[id].key in l.keys && (match rs[id].bucket case None => true case Some(p) => p in l.buckets)
  }

  ghost function Sums(rs: map<Id, Reservation>, p: Period): Bucket {
    Bucket(Amounts(Total(rs, ReservedIn(p, Requests)), Total(rs, ReservedIn(p, Tokens)),
                   Total(rs, ReservedIn(p, Images)), Total(rs, ReservedIn(p, Cost))),
           Amounts(Total(rs, ChargedIn(p, Requests)), Total(rs, ChargedIn(p, Tokens)),
                   Total(rs, ChargedIn(p, Images)), Total(rs, ChargedIn(p, Cost))))
  }

  /** The ledger whose counters are recomputed from the reservation table `rs`. */
  ghost function Settle(l: Ledger, rs: map<Id, Reservation>): Ledger {
    Ledger(map k | k in l.keys :: l.keys[k].(active := Total(rs, OpenOf(k))),
           map p | p in l.buckets :: Sums(rs, p),
           rs)
  }

  predicate Fits(a: Amounts) {
    a.requests <= MAX_INT64 && a.tokens <= MAX_INT64 && a.images <= MAX_INT64 && a.cost <= MAX_INT64
  }

  /** No counter exceeds 64 bits. */
  ghost predicate Stored(l: Ledger) {
    && (forall k <- l.keys :: l.keys[k].active <= MAX_INT64)
    && (forall p <- l.buckets :: Fits(l.buckets[p].reserved) && Fits(l.buckets[p].actual))
  }

  /** Conservation: each key's active count is its number of open reservations, each bucket's reserved
      amounts are those of its open reservations and its actual amounts those of its closed ones. */
  ghost predicate Conserved(l: Ledger) {
    && ValidRows(l.reservations)
    && Referenced(l, l.reservations)
    && (forall k <- l.keys :: l.keys[k].active == Total(l.reservations, OpenOf(k)))
    && (forall p <- l.buckets :: l.buckets[p] == Sums(l.reservations, p))
    && Stored(l)
  }

  /** A conserving ledger is determined by its reservation table. */
  lemma ConservedIsSettled(l: Ledger)
    requires Conserved(l)
    ensures l == Settle(l, l.reservations)
  {
    var s := Settle(l, l.reservations);
    assert s.keys == l.keys;
    assert s.buckets == l.buckets;
  }

  // ----- Writing one row -----

  function Plus(a: Amounts, b: Amounts): Amounts {
    Amounts(a.requests + b.requests, a.tokens + b.tokens, a.images + b.images, a.cost + b.cost)
  }

  function Minus(a: Amounts, b: Amounts): Amounts {
    Amounts(a.requests - b.requests, a.tokens - b.tokens, a.images - b.images, a.cost - b.cost)
  }

  /** What a row holds in its own bucket. */
  function Share(r: Reservation): Bucket {
    Bucket(if r.Open() then r.requested else NOTHING, if r.status == Closed then r.actual else NOTHING)
  }

  function OldShare(rs: map<Id, Reservation>, id: Id): Bucket {
    if id in rs then Share(rs[id]) else Bucket(NOTHING, NOTHING)
  }

  lemma SumsElsewhere(rs: map<Id, Reservation>, p: Period, id: Id, r: Reservation)
    requires r.bucket != Some(p) && (id in rs ==> rs[id].bucket == r.bucket)
    ensures Sums(rs[id := r], p) == Sums(rs, p)
  {
    forall d: Dimension
      ensures Total(rs[id := r], ReservedIn(p, d)) == Total(rs, ReservedIn(p, d))
      ensures Total(rs[id := r], ChargedIn(p, d)) == Total(rs, ChargedIn(p, d))
    {
      TotalUpdate(rs, ReservedIn(p, d), id, r);
      TotalUpdate(rs, ChargedIn(p, d), id, r);
    }
  }

  lemma ReservedHere(rs: map<Id, Reservation>, p: Period, id: Id, r: Reservation, d: Dimension)
    requires r.bucket == Some(p) && (id in rs ==> rs[id].bucket == r.bucket)
    ensures Total(rs[id := r], ReservedIn(p, d)) ==
            Total(rs, ReservedIn(p, d)) + Share(r).reserved.At(d) - OldShare(rs, id).reserved.At(d)
  {
    TotalUpdate(rs, ReservedIn(p, d), id, r);
  }

  lemma ChargedHere(rs: map<Id, Reservation>, p: Period, id: Id, r: Reservation, d: Dimension)
    requires r.bucket == Some(p) && (id in rs ==> rs[id].bucket == r.bucket)
    ensures Total(rs[id := r], ChargedIn(p, d)) ==
            Total(rs, ChargedIn(p, d)) + Share(r).actual.At(d) - OldShare(rs, id).actual.At(d)
  {
    TotalUpdate(rs, ChargedIn(p, d), id, r);
  }

  /** A bucket after one of its rows changed from `was` to `now`. */
  function Moved(b: Bucket, now: Bucket, was: Bucket): Bucket {
    Bucket(Minus(Plus(b.reserved, now.reserved), was.reserved), Minus(Plus(b.actual, now.actual), was.actual))
  }

  lemma SumsHere(rs: map<Id, Reservation>, p: Period, id: Id, r: Reservation)
    requires r.bucket == Some(p) && (id in rs ==> rs[id].bucket == r.bucket)
    ensures Sums(rs[id := r], p) == Moved(Sums(rs, p), Share(r), OldShare(rs, id))
  {
    var now, was := Share(r), OldShare(rs, id);
    forall d | d in {Requests, Tokens, Images, Cost}
      ensures Total(rs[id := r], ReservedIn(p, d))
              == Total(rs, ReservedIn(p, d)) + now.reserved.At(d) - was.reserved.At(d)
      ensures Total(rs[id := r], ChargedIn(p, d)) == Total(rs, ChargedIn(p, d)) + now.actual.At(d) - was.actual.At(d)
    {
      ReservedHere(rs, p, id, r, d);
      ChargedHere(rs, p, id, r, d);
    }
    MovedAt(Sums(rs, p), Sums(rs[id := r], p), now, was);
  }

  lemma MovedAt(b: Bucket, b': Bucket, now: Bucket, was: Bucket)
    requires forall d: Dimension ::
               b'.reserved.At(d) == b.reserved.At(d) + now.reserved.At(d) - was.reserved.At(d)
               && b'.actual.At(d) == b.actual.At(d) + now.actual.At(d) - was.actual.At(d)
    ensures b' == Moved(b, now, was)
  {
    assert b'.reserved.At(Requests) == b'.reserved.requests && b'.reserved.At(Tokens) == b'.reserved.tokens;
    assert b'.reserved.At(Images) == b'.reserved.images && b'.reserved.At(Cost) == b'.reserved.cost;
    assert b'.actual.At(Requests) == b'.actual.requests && b'.actual.At(Tokens) == b'.actual.tokens;
    assert b'.actual.At(Images) == b'.actual.images && b'.actual.At(Cost) == b'.actual.cost;
  }

  /** A sum to which no row contributes. */
  lemma {:induction false} Untouched(rs: map<Id, Reservation>, m: Measure)
    requires forall id <- rs :: Value(m, rs[id]) == 0
    ensures Total(rs, m) == 0
    decreases |rs|
  {
    if rs != map[] {
      var id :| id in rs;
      TotalSplit(rs, m, id);
      Untouched(rs - {id}, m);
    }
  }

  lemma NewBucketIsEmpty(l: Ledger, p: Period)
    requires Conserved(l) && p !in l.buckets
    ensures Sums(l.reservations, p) == Bucket(NOTHING, NOTHING)
  {
    forall d: Dimension
      ensures Total(l.reservations, ReservedIn(p, d)) == 0 && Total(l.reservations, ChargedIn(p, d)) == 0
    {
      Untouched(l.reservations, ReservedIn(p, d));
      Untouched(l.reservations, ChargedIn(p, d));
    }
  }

  function OpenCount(rs: map<Id, Reservation>, id: Id): int {
    if id in rs && rs[id].Open() then 1 else 0
  }

  /** A transaction that writes one row, and moves that row's key and bucket by what the row says. */
  ghost predicate Writes(l: Ledger, l': Ledger, id: Id, r: Reservation) {
    && (id in l.reservations ==> l.reservations[id].key == r.key && l.reservations[id].bucket == r.bucket)
    && l'.reservations == l.reservations[id := r]
    && r.key in l'.keys && l'.keys == l.keys[r.key := l'.keys[r.key]]
    && l'.keys[r.key].active == StateOf(l, r.key).active + (if r.Open() then 1 else 0) - OpenCount(l.reservations, id)
    && match r.bucket
       case None => l'.buckets == l.buckets
       case Some(p) =>
         l'.buckets == l.buckets[p := Moved(BucketOf(l, p), Share(r), OldShare(l.reservations, id))]
  }

  lemma WriteKeepsKeys(l: Ledger, l': Ledger, id: Id, r: Reservation)
    requires Conserved(l) && Writes(l, l', id, r)
    ensures forall k <- l'.keys :: l'.keys[k].active == Total(l'.reservations, OpenOf(k))
  {
    forall k <- l'.keys ensures l'.keys[k].active == Total(l'.reservations, OpenOf(k)) {
      TotalUpdate(l.reservations, OpenOf(k), id, r);
      if k !in l.keys {
        Untouched(l.reservations, OpenOf(k));
      }
    }
  }

  lemma BucketSums(l: Ledger, p: Period)
    requires Conserved(l)
    ensures BucketOf(l, p) == Sums(l.reservations, p)
  {
    if p !in l.buckets {
      NewBucketIsEmpty(l, p);
    }
  }

  lemma WriteKeepsBucket(l: Ledger, l': Ledger, id: Id, r: Reservation, p: Period)
    requires Conserved(l) && Writes(l, l', id, r) && p in l'.buckets
    ensures l'.buckets[p] == Sums(l'.reservations, p)
  {
    BucketSums(l, p);
    if r.bucket == Some(p) {
      SumsHere(l.reservations, p, id, r);
    } else {
      SumsElsewhere(l.reservations, p, id, r);
    }
  }

  lemma WriteConserves(l: Ledger, l': Ledger, id: Id, r: Reservation)
    requires Conserved(l) && Writes(l, l', id, r) && ValidRow(r) && Stored(l')
    ensures Conserved(l')
  {
    WriteKeepsKeys(l, l', id, r);
    forall p <- l'.buckets ensures l'.buckets[p] == Sums(l'.reservations, p) {
      WriteKeepsBucket(l, l', id, r, p);
    }
  }

  // ----- Each transaction conserves -----

  /** A successful addition is the exact sum and stays within 64 bits. */
  lemma AddAllExact(a: Amounts, b: Amounts)
    ensures match AddAll(a, b)
            case Some(c) => c == Plus(a, b) && Fits(c)
            case None => !Fits(Plus(a, b)) || a.requests < 0 || a.tokens < 0 || a.images < 0 || a.cost < 0
                         || b.requests < 0 || b.tokens < 0 || b.images < 0 || b.cost < 0
  {
  }

  /** What the checks before an admission have established. */
  ghost predicate Checked(l: Ledger, key: Key, policy: Policy, request: Amounts, now: nat) {
    && ValidPolicy(policy) && PolicyEnabled(policy) && ValidRequest(request)
    && StateOf(l, key).active != MAX_INT64
    && (policy.maxConcurrent > 0 ==> StateOf(l, key).active < policy.maxConcurrent)
    && (policy.rollingCount > 0 ==> Cleanup(StateOf(l, key), now).rolling < policy.rollingCount)
    && match PeriodOf(key, policy, now)
       case None => true
       case Some(p) => FirstWithoutRoom(policy, BucketOf(l, p), request, DIMENSIONS).None?
                       && ReservedBucket(l, p, request).Some?
  }

  lemma AdmittedIsChecked(l: Ledger, key: Key, policy: Policy, request: Amounts, now: nat)
    requires CheckAdmission(l, key, policy, request, now) == Admitted
    ensures Checked(l, key, policy, request, now)
  {
  }

  lemma GrantBucket(l: Ledger, p: Period, request: Amounts)
    requires ReservedBucket(l, p, request).Some?
    ensures var b := BucketOf(l, p);
            ReservedBucket(l, p, request).value == Bucket(Plus(b.reserved, request), b.actual)
  {
    AddAllExact(BucketOf(l, p).reserved, request);
  }

  lemma MovedByNew(b: Bucket, now: Bucket, was: Bucket)
    requires now.actual == NOTHING && was == Bucket(NOTHING, NOTHING)
    ensures Moved(b, now, was) == Bucket(Plus(b.reserved, now.reserved), b.actual)
  {
  }

  lemma CountedActive(l: Ledger, key: Key, policy: Policy, now: nat)
    ensures CountedState(l, key, policy, now).active == StateOf(l, key).active + 1
  {
  }

  lemma GrantKeys(l: Ledger, key: Key, policy: Policy, now: nat, id: Id, r: Reservation)
    ensures var g := Grant(l, key, policy, now, id, r);
            && g.reservations == l.reservations[id := r]
            && key in g.keys && g.keys == l.keys[key := g.keys[key]]
            && g.keys[key].active == StateOf(l, key).active + 1
  {
    CountedActive(l, key, policy, now);
    var keys := l.keys[key := CountedState(l, key, policy, now)];
    assert keys == l.keys[key := keys[key]];
  }

  lemma GrantBuckets(l: Ledger, key: Key, policy: Policy, now: nat, id: Id, r: Reservation, p: Period)
    requires r.bucket == Some(p) && r.status == Pending && id !in l.reservations
             && ReservedBucket(l, p, r.requested).Some?
    ensures Grant(l, key, policy, now, id, r).buckets
            == l.buckets[p := Moved(BucketOf(l, p), Share(r), OldShare(l.reservations, id))]
  {
    var b := ReservedBucket(l, p, r.requested).value;
    assert Grant(l, key, policy, now, id, r).buckets == l.buckets[p := b];
    GrantBucket(l, p, r.requested);
    MovedByNew(BucketOf(l, p), Share(r), OldShare(l.reservations, id));
  }

  lemma GrantWrites(l: Ledger, key: Key, policy: Policy, now: nat, id: Id, r: Reservation)
    requires id !in l.reservations && r.key == key && r.status == Pending
    requires match r.bucket case None => true case Some(p) => ReservedBucket(l, p, r.requested).Some?
    ensures Writes(l, Grant(l, key, policy, now, id, r), id, r)
  {
    GrantKeys(l, key, policy, now, id, r);
    if r.bucket.Some? {
      GrantBuckets(l, key, policy, now, id, r, r.bucket.value);
    }
  }

  lemma GrantStores(l: Ledger, key: Key, policy: Policy, now: nat, id: Id, r: Reservation)
    requires Stored(l) && StateOf(l, key).active < MAX_INT64
    ensures Stored(Grant(l, key, policy, now, id, r))
  {
    if r.bucket.Some? {
      AddAllExact(BucketOf(l, r.bucket.value).reserved, r.requested);
    }
  }

  lemma ActiveStored(l: Ledger, key: Key)
    requires Stored(l)
    ensures StateOf(l, key).active <= MAX_INT64
  {
  }

  lemma AdmitConserves(l: Ledger, owner: Id, key: Key, policy: Policy, request: Amounts, now: nat, id: Id)
    requires Conserved(l)
    ensures Conserved(Admit(l, owner, key, policy, request, now, id).1)
  {
    var (outcome, l') := Admit(l, owner, key, policy, request, now, id);
    if outcome == Admitted {
      var r := Reservation(key, owner, PeriodOf(key, policy, now), request, NOTHING, Pending);
      AdmittedIsChecked(l, key, policy, request, now);
      ActiveStored(l, key);
      GrantWrites(l, key, policy, now, id, r);
      GrantStores(l, key, policy, now, id, r);
      WriteConserves(l, l', id, r);
    }
  }

  lemma BeginWrites(l: Ledger, l': Ledger, id: Id, usage: Amounts)
    requires Conserved(l) && l' == BeginFinalization(l, id, usage).1 && l' != l
    ensures id in l'.reservations && Writes(l, l', id, l'.reservations[id])
    ensures ValidRow(l'.reservations[id]) && Stored(l')
  {
    var r, row := l.reservations[id], l'.reservations[id];
    assert Share(row) == Share(r);
    assert l'.keys == l.keys[r.key := l'.keys[r.key]];
    if r.bucket.Some? {
      Unmoved(l.buckets[r.bucket.value], Share(r));
      assert l'.buckets == l.buckets[r.bucket.value := l.buckets[r.bucket.value]];
    }
  }

  lemma Unmoved(b: Bucket, share: Bucket)
    ensures Moved(b, share, share) == b
  {
  }

  lemma BeginConserves(l: Ledger, id: Id, usage: Amounts)
    requires Conserved(l)
    ensures Conserved(BeginFinalization(l, id, usage).1)
  {
    var l' := BeginFinalization(l, id, usage).1;
    if l' != l {
      BeginWrites(l, l', id, usage);
      WriteConserves(l, l', id, l'.reservations[id]);
    }
  }

  /** An open row's key is busy and its bucket holds at least what the row reserved. */
  lemma OpenRowIsCounted(l: Ledger, id: Id)
    requires Conserved(l) && id in l.reservations && l.reservations[id].Open()
    ensures var r := l.reservations[id];
            && l.keys[r.key].active >= 1
            && (match r.bucket case None => true case Some(p) => SubtractAll(l.buckets[p].reserved, r.requested).Some?)
  {
    var rs, r := l.reservations, l.reservations[id];
    TotalSplit(rs, OpenOf(r.key), id);
    TotalNonNegative(rs - {id}, OpenOf(r.key));
    if r.bucket.Some? {
      forall d: Dimension ensures Total(rs, ReservedIn(r.bucket.value, d)) >= r.requested.At(d) {
        TotalSplit(rs, ReservedIn(r.bucket.value, d), id);
        TotalNonNegative(rs - {id}, ReservedIn(r.bucket.value, d));
      }
    }
  }

  /** The row that closing `r` writes. */
  function ClosedRow(r: Reservation, status: Status): Reservation {
    r.(status := status, actual := if status == Closed then r.actual else NOTHING)
  }

  ghost predicate Closable(l: Ledger, id: Id, status: Status) {
    Conserved(l) && id in l.reservations
    && match l.reservations[id].status
       case Pending => status == Released
       case Finalizing => status == Closed
       case _ => false
  }

  predicate HasRoom(l: Ledger, r: Reservation, charge: Amounts) {
    match r.bucket
    case None => true
    case Some(p) => Fits(Plus(BucketOf(l, p).actual, charge))
  }

  /** What closing one of its rows does to a bucket. */
  lemma ClosedBucket(b: Bucket, r: Reservation, row: Reservation)
    requires r.Open() && row.requested == r.requested && (row.status == Released ==> row.actual == NOTHING)
    requires row.status == Closed || row.status == Released
    ensures Moved(b, Share(row), Share(r))
            == Bucket(Minus(b.reserved, r.requested),
                      if row.status == Closed then Plus(b.actual, row.actual) else b.actual)
  {
  }

  /** Closing a row that has no bucket. */
  lemma CloseUnbucketed(l: Ledger, id: Id, r: Reservation, row: Reservation)
    requires Closable(l, id, row.status) && r == l.reservations[id] && row == ClosedRow(r, row.status) && r.bucket.None?
    ensures Close(l, id, row.actual, row.status).0 == Done && Writes(l, Close(l, id, row.actual, row.status).1, id, row)
  {
    OpenRowIsCounted(l, id);
    var keys := Close(l, id, row.actual, row.status).1.keys;
    assert keys == l.keys[r.key := keys[r.key]];
  }

  /** Closing a row in its bucket. */
  lemma CloseBucketed(l: Ledger, id: Id, r: Reservation, row: Reservation, p: Period)
    requires Closable(l, id, row.status) && r == l.reservations[id] && row == ClosedRow(r, row.status)
             && r.bucket == Some(p)
    ensures var (outcome, l') := Close(l, id, row.actual, row.status);
            if HasRoom(l, r, row.actual) then outcome == Done && Writes(l, l', id, row)
            else outcome == Error(OutOfRange) && l' == l
  {
    OpenRowIsCounted(l, id);
    BucketsNonNegative(l, p);
    AddAllExact(l.buckets[p].actual, row.actual);
    ClosedBucket(l.buckets[p], r, row);
    var l' := Close(l, id, row.actual, row.status).1;
    if HasRoom(l, r, row.actual) {
      assert l'.keys == l.keys[r.key := l'.keys[r.key]];
      assert l'.buckets == l.buckets[p := l'.buckets[p]];
    }
  }

  lemma CloseWrites(l: Ledger, id: Id, status: Status)
    requires Closable(l, id, status)
    ensures var r := l.reservations[id];
            var row := ClosedRow(r, status);
            var (outcome, l') := Close(l, id, row.actual, status);
            if HasRoom(l, r, row.actual) then outcome == Done && Writes(l, l', id, row)
            else outcome == Error(OutOfRange) && l' == l
  {
    var r := l.reservations[id];
    match r.bucket
    case None => CloseUnbucketed(l, id, r, ClosedRow(r, status));
    case Some(p) => CloseBucketed(l, id, r, ClosedRow(r, status), p);
  }

  lemma CloseStores(l: Ledger, id: Id, status: Status)
    requires Closable(l, id, status)
    ensures var row := ClosedRow(l.reservations[id], status);
            ValidRow(row) && Stored(Close(l, id, row.actual, status).1)
  {
    var r := l.reservations[id];
    if r.bucket.Some? {
      AddAllExact(l.buckets[r.bucket.value].actual, ClosedRow(r, status).actual);
    }
  }

  /** Closing an open row never finds the ledger inconsistent. It fails exactly when the charge would
      carry the bucket past 64 bits, and then changes nothing. */
  lemma CloseSettles(l: Ledger, id: Id, status: Status)
    requires Closable(l, id, status)
    ensures var r := l.reservations[id];
            var row := ClosedRow(r, status);
            var (outcome, l') := Close(l, id, row.actual, status);
            && Conserved(l')
            && (if HasRoom(l, r, row.actual) then outcome == Done && l' == Settle(l, l.reservations[id := row])
                else outcome == Error(OutOfRange) && l' == l)
  {
    CloseWrites(l, id, status);
    CloseStores(l, id, status);
    var row := ClosedRow(l.reservations[id], status);
    var (outcome, l') := Close(l, id, row.actual, status);
    if outcome == Done {
      WriteConserves(l, l', id, row);
      ConservedIsSettled(l');
      SettleDomains(l, l', l'.reservations);
    }
  }

  lemma SettleDomains(l: Ledger, l': Ledger, rs: map<Id, Reservation>)
    requires l.keys.Keys == l'.keys.Keys && l.buckets.Keys == l'.buckets.Keys
    requires forall k <- l.keys :: l'.keys[k].(active := l.keys[k].active) == l.keys[k]
    ensures Settle(l, rs) == Settle(l', rs)
  {
    assert forall k <- l.keys ::
             l'.keys[k].(active := Total(rs, OpenOf(k))) == l.keys[k].(active := Total(rs, OpenOf(k)));
    assert Settle(l, rs).keys == Settle(l', rs).keys;
    assert Settle(l, rs).buckets == Settle(l', rs).buckets;
  }

  lemma BucketsNonNegative(l: Ledger, p: Period)
    requires Conserved(l) && p in l.buckets
    ensures var a := l.buckets[p].actual; a.requests >= 0 && a.tokens >= 0 && a.images >= 0 && a.cost >= 0
  {
    forall d: Dimension ensures Total(l.reservations, ChargedIn(p, d)) >= 0 {
      TotalNonNegative(l.reservations, ChargedIn(p, d));
    }
  }
}
