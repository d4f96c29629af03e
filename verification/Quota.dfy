/** The quota ledger: admission, two-phase reconciliation, release and process-crash recovery.
    Every function here is one database transaction: it returns the whole new ledger, or the old
    one when it fails. Times are nanoseconds; amounts are 64-bit and checked where the code checks. */
module QuotaLedger {
  const MAX_INT64 := 0x7FFF_FFFF_FFFF_FFFF
  const MAX_QUOTA_COUNT := 0x1000_0000_0000_0000
  const MAX_QUOTA_WINDOW := 365 * 24 * 3600 * SECOND
  const SECOND := 1_000_000_000
  const BATCH_SIZE := 256

  datatype Option<T> = None | Some(value: T)

  type Key = string
  type Id = nat

  datatype Dimension = Requests | Tokens | Images | Cost

  const DIMENSIONS := [Requests, Tokens, Images, Cost]

  datatype Amounts = Amounts(requests: int, tokens: int, images: int, cost: int) {
    function At(d: Dimension): int {
      match d
      case Requests => requests
      case Tokens => tokens
      case Images => images
      case Cost => cost
    }
  }

  const NOTHING := Amounts(0, 0, 0, 0)

  /** The quota part of a key's policy. A zero limit or ceiling is disabled. */
  datatype Policy = Policy(maxConcurrent: int, rollingCount: int, rollingWindow: int,
                           limits: Amounts, periodDuration: int, defaults: Amounts, ceilings: Amounts)

  datatype Status = Pending | Finalizing | Closed | Released

  /** A bucket's identity: the key and the start of its period. */
  datatype Period = Period(key: Key, start: nat)

  datatype Reservation = Reservation(key: Key, owner: Id, bucket: Option<Period>,
                                     requested: Amounts, actual: Amounts, status: Status)
  {
    predicate Open() {
      status == Pending || status == Finalizing
    }
  }

  datatype Bucket = Bucket(reserved: Amounts, actual: Amounts)

  /** A key's counters, and the expiry times of its rolling admissions in index order. */
  datatype KeyState = KeyState(active: int, rolling: int, expiries: seq<int>)

  datatype Ledger = Ledger(keys: map<Key, KeyState>, buckets: map<Period, Bucket>,
                           reservations: map<Id, Reservation>)

  const EMPTY := Ledger(map[], map[], map[])

  datatype Kind = Concurrency | Rate | Limit(dimension: Dimension)

  datatype QuotaError = QuotaError(kind: Kind, retryAfter: int, resetAt: int)

  datatype Fault = BadKey | BadPolicy | BadRequest | BadUsage | IdTaken | NotFound | Inconsistent | OutOfRange

  datatype Admission = Admitted | Unlimited | Refused(error: QuotaError) | Failed(fault: Fault)

  datatype Outcome = Done | Error(fault: Fault)

  // ----- Validation -----

  predicate InRange(v: int) {
    0 <= v <= MAX_QUOTA_COUNT
  }

  predicate AllInRange(a: Amounts) {
    InRange(a.requests) && InRange(a.tokens) && InRange(a.images) && InRange(a.cost)
  }

  predicate PeriodEnabled(p: Policy) {
    p.limits.requests > 0 || p.limits.tokens > 0 || p.limits.images > 0 || p.limits.cost > 0
  }

  predicate ValidPolicy(p: Policy) {
    && InRange(p.maxConcurrent) && InRange(p.rollingCount)
    && AllInRange(p.limits) && AllInRange(p.defaults) && AllInRange(p.ceilings)
    && 0 <= p.rollingWindow <= MAX_QUOTA_WINDOW
    && (p.rollingCount == 0 <==> p.rollingWindow == 0)
    && 0 <= p.periodDuration <= MAX_QUOTA_WINDOW
    && (PeriodEnabled(p) <==> p.periodDuration > 0)
    && (p.ceilings.tokens > 0 ==> p.defaults.tokens <= p.ceilings.tokens)
    && (p.ceilings.images > 0 ==> p.defaults.images <= p.ceilings.images)
    && (p.ceilings.cost > 0 ==> p.defaults.cost <= p.ceilings.cost)
  }

  predicate PolicyEnabled(p: Policy) {
    p.maxConcurrent > 0 || p.rollingCount > 0 || PeriodEnabled(p)
    || p.defaults.tokens > 0 || p.ceilings.tokens > 0 || p.defaults.images > 0 || p.ceilings.images > 0
    || p.defaults.cost > 0 || p.ceilings.cost > 0
  }

  predicate ValidRequest(r: Amounts) {
    r.requests == 1 && InRange(r.tokens) && InRange(r.images) && InRange(r.cost)
  }

  predicate ValidUsage(u: Amounts) {
    0 <= u.requests <= 1 && InRange(u.tokens) && InRange(u.images) && InRange(u.cost)
  }

  /** White space of Unicode. */
  predicate Space(c: char) {
    || '\t' <= c <= '\r' || c in " \U{85}\U{A0}\U{1680}" || '\U{2000}' <= c <= '\U{200A}'
    || c in "\U{2028}\U{2029}\U{202F}\U{205F}\U{3000}"
  }

  predicate Blank(s: string) {
    forall c :: c in s ==> Space(c)
  }

  // ----- Arithmetic -----

  /** Addition that refuses negative operands and 64-bit overflow. */
  function Add(left: int, right: int): Option<int> {
    if left < 0 || right < 0 || left > MAX_INT64 - right then None else Some(left + right)
  }

  function AddAll(a: Amounts, b: Amounts): Option<Amounts> {
    match (Add(a.requests, b.requests), Add(a.tokens, b.tokens), Add(a.images, b.images), Add(a.cost, b.cost))
    case (Some(r), Some(t), Some(i), Some(c)) => Some(Amounts(r, t, i, c))
    case _ => None
  }

  function SubtractAll(a: Amounts, b: Amounts): Option<Amounts> {
    if a.requests < b.requests || a.tokens < b.tokens || a.images < b.images || a.cost < b.cost then None
    else Some(Amounts(a.requests - b.requests, a.tokens - b.tokens, a.images - b.images, a.cost - b.cost))
  }

  function NewError(kind: Kind, now: int, resetAt: int): QuotaError {
    if resetAt <= now then QuotaError(kind, SECOND, now + SECOND) else QuotaError(kind, resetAt - now, resetAt)
  }

  function PeriodStart(now: nat, duration: int): nat {
    if duration <= 0 then now else now - now % duration
  }

  // ----- Rolling window -----

  /** How many rows at the front of the expiry index are due. */
  function Due(expiries: seq<int>, now: int): (n: nat)
    ensures n <= |expiries|
  {
    if expiries == [] || expiries[0] > now then 0 else 1 + Due(expiries[1..], now)
  }

  function InsertExpiry(expiries: seq<int>, e: int): seq<int> {
    if expiries == [] || e < expiries[0] then [e] + expiries
    else [expiries[0]] + InsertExpiry(expiries[1..], e)
  }

  /** Delete at most one batch of expired rows and lower the counter by as many. */
  function Cleanup(k: KeyState, now: int): KeyState {
    var due := Due(k.expiries, now);
    var n := if due < BATCH_SIZE then due else BATCH_SIZE;
    if n == 0 then k
    else k.(rolling := if k.rolling - n < 0 then 0 else k.rolling - n, expiries := k.expiries[n..])
  }

  /** The first row that is still running, if any, tells when the window opens again. */
  function NextReset(expiries: seq<int>, now: int, window: int): int {
    var n := Due(expiries, now);
    if n < |expiries| then expiries[n] else now + window
  }

  // ----- Admission -----

  function CeilingExceeded(p: Policy, r: Amounts): Option<Dimension> {
    if p.ceilings.tokens > 0 && r.tokens > p.ceilings.tokens then Some(Tokens)
    else if p.ceilings.images > 0 && r.images > p.ceilings.images then Some(Images)
    else if p.ceilings.cost > 0 && r.cost > p.ceilings.cost then Some(Cost)
    else None
  }

  /** Whether one limited dimension has no room for the request. */
  predicate NoRoom(p: Policy, b: Bucket, r: Amounts, d: Dimension) {
    p.limits.At(d) != 0
    && (Add(b.reserved.At(d), b.actual.At(d)).None?
        || r.At(d) > p.limits.At(d) - (b.reserved.At(d) + b.actual.At(d)))
  }

  /** The first dimension without room, in the order in which they are checked. */
  function FirstWithoutRoom(p: Policy, b: Bucket, r: Amounts, dims: seq<Dimension>): Option<Dimension> {
    if dims == [] then None
    else if NoRoom(p, b, r, dims[0]) then Some(dims[0])
    else FirstWithoutRoom(p, b, r, dims[1..])
  }

  function StateOf(l: Ledger, key: Key): KeyState {
    if key in l.keys then l.keys[key] else KeyState(0, 0, [])
  }

  function BucketOf(l: Ledger, p: Period): Bucket {
    if p in l.buckets then l.buckets[p] else Bucket(NOTHING, NOTHING)
  }

  function PeriodOf(key: Key, policy: Policy, now: nat): Option<Period> {
    if PeriodEnabled(policy) then Some(Period(key, PeriodStart(now, policy.periodDuration))) else None
  }

  /** The checks that precede an admission, in order; `Admitted` when all pass. */
  function CheckAdmission(l: Ledger, key: Key, policy: Policy, request: Amounts, now: nat): Admission {
    if Blank(key) then Failed(BadKey)
    else if !ValidPolicy(policy) then Failed(BadPolicy)
    else if !ValidRequest(request) then Failed(BadRequest)
    else match CeilingExceeded(policy, request)
      case Some(d) => Refused(NewError(Limit(d), now, now + SECOND))
      case None =>
        if !PolicyEnabled(policy) then Unlimited
        else
          var state := Cleanup(StateOf(l, key), now);
          if policy.maxConcurrent > 0 && state.active >= policy.maxConcurrent then
            Refused(NewError(Concurrency, now, now + SECOND))
          else if policy.rollingCount > 0 && state.rolling >= policy.rollingCount then
            Refused(NewError(Rate, now, NextReset(state.expiries, now, policy.rollingWindow)))
          else CheckPeriod(l, key, policy, request, now, state.active)
  }

  /** The last check: room in the bucket of the period, and in the counters. */
  function CheckPeriod(l: Ledger, key: Key, policy: Policy, request: Amounts, now: nat, active: int): Admission {
    match PeriodOf(key, policy, now)
    case None => if active == MAX_INT64 then Failed(OutOfRange) else Admitted
    case Some(period) =>
      match FirstWithoutRoom(policy, BucketOf(l, period), request, DIMENSIONS)
      case Some(d) => Refused(NewError(Limit(d), now, period.start + policy.periodDuration))
      case None =>
        if active == MAX_INT64 || ReservedBucket(l, period, request).None? then Failed(OutOfRange) else Admitted
  }

  /** The bucket that a request would be reserved in, after the reservation. */
  function ReservedBucket(l: Ledger, p: Period, request: Amounts): Option<Bucket> {
    match AddAll(BucketOf(l, p).reserved, request)
    case None => None
    case Some(reserved) => Some(BucketOf(l, p).(reserved := reserved))
  }

  /** The key's state once one more request is admitted. */
  function CountedState(l: Ledger, key: Key, policy: Policy, now: nat): KeyState {
    var state := Cleanup(StateOf(l, key), now);
    if policy.rollingCount > 0 then
      KeyState(state.active + 1, state.rolling + 1, InsertExpiry(state.expiries, now + policy.rollingWindow))
    else state.(active := state.active + 1)
  }

  /** The writes of a successful admission. */
  function Grant(l: Ledger, key: Key, policy: Policy, now: nat, id: Id, r: Reservation): Ledger {
    var buckets := match r.bucket
      case None => l.buckets
      case Some(p) =>
        match ReservedBucket(l, p, r.requested)
        case None => l.buckets
        case Some(b) => l.buckets[p := b];
    Ledger(l.keys[key := CountedState(l, key, policy, now)], buckets, l.reservations[id := r])
  }

  /** Admit under a fresh reservation id, or change nothing. */
  function Admit(l: Ledger, owner: Id, key: Key, policy: Policy, request: Amounts, now: nat,
                 id: Id): (Admission, Ledger) {
    var checked := CheckAdmission(l, key, policy, request, now);
    if checked != Admitted then (checked, l)
    else if id in l.reservations then (Failed(IdTaken), l)
    else (Admitted, Grant(l, key, policy, now, id,
                          Reservation(key, owner, PeriodOf(key, policy, now), request, NOTHING, Pending)))
  }

  // ----- Reconciliation and release -----

  /** Usage that reports no requests or no cost is charged as reserved. */
  function Charge(r: Reservation, usage: Amounts): Amounts {
    usage.(requests := if usage.requests == 0 then r.requested.requests else usage.requests,
           cost := if usage.cost == 0 then r.requested.cost else usage.cost)
  }

  /** First transaction of a reconciliation: record the usage, charge nothing yet. */
  function BeginFinalization(l: Ledger, id: Id, usage: Amounts): (Outcome, Ledger) {
    if id !in l.reservations then (Error(NotFound), l)
    else
      var r := l.reservations[id];
      if r.status != Pending then (Done, l)
      else
        var charge := Charge(r, usage);
        if !ValidUsage(charge) then (Error(BadUsage), l)
        else (Done, l.(reservations := l.reservations[id := r.(status := Finalizing, actual := charge)]))
  }

  /** Take one open reservation off its key and bucket, charging `charge` to the bucket. */
  function Close(l: Ledger, id: Id, charge: Amounts, status: Status): (Outcome, Ledger)
    requires id in l.reservations
  {
    var r := l.reservations[id];
    var state := StateOf(l, r.key);
    if state.active <= 0 then (Error(Inconsistent), l)
    else
      var keys := l.keys[r.key := state.(active := state.active - 1)];
      var reservations := l.reservations[id := r.(status := status, actual := charge)];
      match r.bucket
      case None => (Done, Ledger(keys, l.buckets, reservations))
      case Some(p) =>
        if p !in l.buckets then (Error(NotFound), l)
        else
          match SubtractAll(l.buckets[p].reserved, r.requested)
          case None => (Error(Inconsistent), l)
          case Some(reserved) =>
            match if status == Closed then AddAll(l.buckets[p].actual, charge) else Some(l.buckets[p].actual)
            case None => (Error(OutOfRange), l)
            case Some(actual) => (Done, Ledger(keys, l.buckets[p := Bucket(reserved, actual)], reservations))
  }

  /** Second transaction of a reconciliation: charge the recorded usage. */
  function ApplyFinalizing(l: Ledger, id: Id): (Outcome, Ledger) {
    if id !in l.reservations || l.reservations[id].status != Finalizing then (Done, l)
    else if !ValidUsage(l.reservations[id].actual) then (Error(BadUsage), l)
    else Close(l, id, l.reservations[id].actual, Closed)
  }

  function Reconcile(l: Ledger, id: Id, usage: Amounts): (Outcome, Ledger) {
    if !ValidUsage(usage) then (Error(BadUsage), l)
    else
      var (begun, recorded) := BeginFinalization(l, id, usage);
      if begun != Done then (begun, recorded) else ApplyFinalizing(recorded, id)
  }

  /** Close one pending reservation without charging it. */
  function ReleasePending(l: Ledger, id: Id): (Outcome, Ledger) {
    if id !in l.reservations || l.reservations[id].status != Pending then (Done, l)
    else Close(l, id, NOTHING, Released)
  }

  function Release(l: Ledger, id: Id): (Outcome, Ledger) {
    if id !in l.reservations then (Error(NotFound), l) else ReleasePending(l, id)
  }
}
