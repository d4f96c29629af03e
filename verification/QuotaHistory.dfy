/** Admission against the whole history: every counter and bucket is replaced by a log of the admissions and
    the rows as they are, and the transaction decides exactly as that log says. */
module QuotaHistory {
  import opened QuotaLedger
  import opened QuotaProofs
  import opened QuotaRuns
  import opened QuotaLimits
  import opened QuotaRolling
  import opened Trimming

  // ----- The history of a run -----

  datatype Entry = Entry(id: Id, key: Key, time: nat)

  /** The ledger, every admission in order, and the last time seen. */
  datatype History = History(ledger: Ledger, entries: seq<Entry>, clock: nat)

  const UNWRITTEN := History(EMPTY, [], 0)

  ghost function Noted(h: History, a: Action): History {
    match a
    case AdmitAction(owner, key, policy, request, now, id) =>
      var (outcome, ledger) := Admit(h.ledger, owner, key, policy, request, now, id);
      History(ledger, if outcome == Admitted then h.entries + [Entry(id, key, now)] else h.entries, now)
    case _ => h.(ledger := Execute(h.ledger, a))
  }

  ghost function HistoryAfter(h: History, actions: seq<Action>): History
    decreases |actions|
  {
    if actions == [] then h else HistoryAfter(Noted(h, actions[0]), actions[1..])
  }

  // ----- What the log says -----

  /** Admissions of the key that are younger than the window. */
  function Recent(entries: seq<Entry>, key: Key, now: int, window: int): nat {
    if entries == [] then 0
    else
      var last := entries[|entries| - 1];
      Recent(entries[..|entries| - 1], key, now, window) + if last.key == key && now - last.time < window then 1 else 0
  }

  /** What a row stands for: the request while it is open, the charge once it is closed, nothing when released. */
  function HeldBy(r: Reservation, d: Dimension): int {
    match r.status
    case Pending => r.requested.At(d)
    case Finalizing => r.requested.At(d)
    case Closed => r.actual.At(d)
    case Released => 0
  }

  /** What the key's admissions from `from` on and before `to` hold now. */
  function Held(rs: map<Id, Reservation>, entries: seq<Entry>, key: Key, from: int, to: int, d: Dimension): int {
    if entries == [] then 0
    else
      var last := entries[|entries| - 1];
      Held(rs, entries[..|entries| - 1], key, from, to, d)
      + if last.key == key && from <= last.time < to && last.id in rs then HeldBy(rs[last.id], d) else 0
  }

  /** What the open ones among them asked for. */
  function Asked(rs: map<Id, Reservation>, entries: seq<Entry>, key: Key, from: int, to: int, d: Dimension): int {
    if entries == [] then 0
    else
      var last := entries[|entries| - 1];
      Asked(rs, entries[..|entries| - 1], key, from, to, d)
      + if last.key == key && from <= last.time < to && last.id in rs && rs[last.id].Open()
        then rs[last.id].requested.At(d) else 0
  }

  /** The charge of the closed ones beyond what they had asked for. */
  function Excess(rs: map<Id, Reservation>, entries: seq<Entry>, key: Key, from: int, to: int, d: Dimension): int {
    if entries == [] then 0
    else
      var last := entries[|entries| - 1];
      Excess(rs, entries[..|entries| - 1], key, from, to, d)
      + if last.key == key && from <= last.time < to && last.id in rs && rs[last.id].status == Closed
           && rs[last.id].actual.At(d) > rs[last.id].requested.At(d)
        then rs[last.id].actual.At(d) - rs[last.id].requested.At(d) else 0
  }

  /** The key's admissions that are not finished. */
  function Running(rs: map<Id, Reservation>, entries: seq<Entry>, key: Key): nat {
    if entries == [] then 0
    else
      var last := entries[|entries| - 1];
      Running(rs, entries[..|entries| - 1], key)
      + if last.key == key && last.id in rs && rs[last.id].Open() then 1 else 0
  }

  // ----- The rolling log is this log -----

  function Times(entries: seq<Entry>, key: Key): seq<int> {
    if entries == [] then []
    else
      var last := entries[|entries| - 1];
      Times(entries[..|entries| - 1], key) + if last.key == key then [last.time] else []
  }

  lemma TimesAppend(entries: seq<Entry>, e: Entry, key: Key)
    ensures Times(entries + [e], key) == Times(entries, key) + if e.key == key then [e.time] else []
  {
    assert (entries + [e])[..|entries|] == entries;
  }

  lemma {:induction false} RecentIsLive(entries: seq<Entry>, key: Key, now: int, window: int)
    ensures Recent(entries, key, now, window) == Live(Times(entries, key), now, window)
    decreases |entries|
  {
    if entries != [] {
      var front, last := entries[..|entries| - 1], entries[|entries| - 1];
      RecentIsLive(front, key, now, window);
      LiveConcat(Times(front, key), [last.time], now, window);
      assert Times(front, key) + [] == Times(front, key);
      assert [last.time as int][1..] == [];
    }
  }

  ghost predicate SameStory(w: World, h: History) {
    w.ledger == h.ledger && w.clock == h.clock && forall key: Key :: LogOf(w, key) == Times(h.entries, key)
  }

  lemma SameStep(w: World, h: History, a: Action)
    requires SameStory(w, h)
    ensures SameStory(Advance(w, a), Noted(h, a))
  {
    if a.AdmitAction? {
      var e := Entry(a.id, a.key, a.now);
      forall key: Key
        ensures LogOf(Advance(w, a), key) == Times(Noted(h, a).entries, key)
      {
        TimesAppend(h.entries, e, key);
      }
    }
  }

  lemma {:induction false} SameRun(w: World, h: History, actions: seq<Action>)
    requires SameStory(w, h)
    ensures SameStory(WorldAfter(w, actions), HistoryAfter(h, actions))
    decreases |actions|
  {
    if actions != [] {
      SameStep(w, h, actions[0]);
      SameRun(Advance(w, actions[0]), Noted(h, actions[0]), actions[1..]);
    }
  }

  // ----- The log lists the rows -----

  predicate Distinct(entries: seq<Entry>) {
    forall i, j :: 0 <= i < j < |entries| ==> entries[i].id != entries[j].id
  }

  function Ids(entries: seq<Entry>): set<Id> {
    set i | 0 <= i < |entries| :: entries[i].id
  }

  /** The entries are the rows, one each. */
  ghost predicate Lists(entries: seq<Entry>, rs: map<Id, Reservation>) {
    && Distinct(entries) && Ids(entries) == rs.Keys
    && forall i :: 0 <= i < |entries| ==> entries[i].id in rs && rs[entries[i].id].key == entries[i].key
  }

  lemma ListsAppend(entries: seq<Entry>, rs: map<Id, Reservation>, e: Entry, r: Reservation)
    requires Lists(entries, rs) && e.id !in rs && r.key == e.key
    ensures Lists(entries + [e], rs[e.id := r])
  {
    var longer := entries + [e];
    forall i, j | 0 <= i < j < |longer|
      ensures longer[i].id != longer[j].id
    {
      assert entries[i].id in Ids(entries);
    }
    forall id
      ensures id in Ids(longer) <==> id in rs[e.id := r].Keys
    {
      if id == e.id {
        assert longer[|entries|].id == id;
      } else if id in Ids(entries) {
        var i :| 0 <= i < |entries| && entries[i].id == id;
        assert longer[i].id == id;
      }
    }
    forall i | 0 <= i < |longer|
      ensures longer[i].id in rs[e.id := r] && rs[e.id := r][longer[i].id].key == longer[i].key
    {
      if i < |entries| {
        assert entries[i].id in Ids(entries);
      }
    }
  }

  lemma ListsFront(entries: seq<Entry>, rs: map<Id, Reservation>)
    requires entries != [] && Lists(entries, rs)
    ensures Lists(entries[..|entries| - 1], rs - {entries[|entries| - 1].id})
  {
    var front, last := entries[..|entries| - 1], entries[|entries| - 1];
    forall id
      ensures id in Ids(front) <==> id in rs && id != last.id
    {
      if id in Ids(front) {
        var i :| 0 <= i < |front| && front[i].id == id;
        assert entries[i].id == id && id in Ids(entries);
      }
      if id in rs && id != last.id {
        assert id in Ids(entries);
        var i :| 0 <= i < |entries| && entries[i].id == id;
        assert front[i].id in Ids(front);
      }
    }
  }

  /** A sum over the entries instead of the table. */
  ghost function SumOf(rs: map<Id, Reservation>, entries: seq<Entry>, m: Measure): int {
    if entries == [] then 0
    else
      var last := entries[|entries| - 1];
      SumOf(rs, entries[..|entries| - 1], m) + if last.id in rs then Value(m, rs[last.id]) else 0
  }

  lemma {:induction false} SumWithout(rs: map<Id, Reservation>, entries: seq<Entry>, m: Measure, id: Id)
    requires forall i :: 0 <= i < |entries| ==> entries[i].id != id
    ensures SumOf(rs - {id}, entries, m) == SumOf(rs, entries, m)
    decreases |entries|
  {
    if entries != [] {
      SumWithout(rs, entries[..|entries| - 1], m, id);
    }
  }

  lemma {:induction false} TotalByEntries(rs: map<Id, Reservation>, entries: seq<Entry>, m: Measure)
    requires Lists(entries, rs)
    ensures Total(rs, m) == SumOf(rs, entries, m)
    decreases |entries|
  {
    if entries == [] {
      assert rs == map[];
    } else {
      var front, last := entries[..|entries| - 1], entries[|entries| - 1];
      ListsFront(entries, rs);
      TotalByEntries(rs - {last.id}, front, m);
      SumWithout(rs, front, m, last.id);
      TotalSplit(rs, m, last.id);
    }
  }

  // ----- Rows lie in the interval of their admission -----

  predicate Aligned(start: int, duration: int, time: int) {
    duration > 0 && start % duration == 0 && start <= time < start + duration
  }

  lemma AtLeastOnce(k: int, duration: int)
    requires k >= 1 && duration > 0
    ensures k * duration >= duration
  {
    assert (k - 1) * duration >= 0;
  }

  lemma SmallMultiple(k: int, duration: int)
    requires duration > 0 && -duration < k * duration < duration
    ensures k == 0
  {
    if k >= 1 {
      AtLeastOnce(k, duration);
    } else if k <= -1 {
      AtLeastOnce(-k, duration);
    }
  }

  lemma MultipleOf(k: int, duration: int)
    requires duration > 0
    ensures (k * duration) % duration == 0
  {
    var product := k * duration;
    var q, r := product / duration, product % duration;
    assert product == q * duration + r;
    assert (k - q) * duration == r;
    SmallMultiple(k - q, duration);
  }

  lemma AlignedOnce(a: int, b: int, duration: int, time: int)
    requires Aligned(a, duration, time) && Aligned(b, duration, time)
    ensures a == b
  {
    var i, j := a / duration, b / duration;
    assert a == i * duration && b == j * duration;
    assert (i - j) * duration == a - b;
    SmallMultiple(i - j, duration);
  }

  /** The period of an admission is the aligned interval that holds its time. */
  lemma PeriodIsAligned(now: nat, duration: int)
    requires duration > 0
    ensures Aligned(PeriodStart(now, duration), duration, now)
  {
    var q, r := now / duration, now % duration;
    assert now == q * duration + r;
    MultipleOf(q, duration);
  }

  /** A row of the key is booked in the aligned interval of its admission, or in none when no period is on. */
  predicate DatedRow(e: Entry, r: Reservation, p: Policy) {
    if p.periodDuration > 0 then
      r.bucket.Some? && r.bucket.value.key == e.key && Aligned(r.bucket.value.start, p.periodDuration, e.time)
    else r.bucket.None?
  }

  ghost predicate Dated(h: History, key: Key, p: Policy) {
    forall i :: 0 <= i < |h.entries| && h.entries[i].key == key && h.entries[i].id in h.ledger.reservations ==>
      DatedRow(h.entries[i], h.ledger.reservations[h.entries[i].id], p)
  }

  ghost predicate Sound(h: History, key: Key, p: Policy) {
    Conserved(h.ledger) && Lists(h.entries, h.ledger.reservations) && Dated(h, key, p)
  }

  lemma OthersKeepRows(l: Ledger, a: Action)
    requires !a.AdmitAction?
    ensures Execute(l, a).reservations.Keys == l.reservations.Keys
  {
  }

  lemma StepsKeepDates(e: Entry, was: Reservation, now: Reservation, p: Policy, id: Id, a: Action)
    requires Steps(was, now, id, a)
    ensures now.key == was.key && now.bucket == was.bucket
    ensures DatedRow(e, was, p) ==> DatedRow(e, now, p)
  {
  }

  lemma RowsStep(h: History, n: History, key: Key, p: Policy, a: Action)
    requires Lists(h.entries, h.ledger.reservations) && Dated(h, key, p) && n.entries == h.entries
    requires n.ledger.reservations.Keys == h.ledger.reservations.Keys
    requires forall id <- h.ledger.reservations :: Steps(h.ledger.reservations[id], n.ledger.reservations[id], id, a)
    ensures Lists(n.entries, n.ledger.reservations) && Dated(n, key, p)
  {
    forall i | 0 <= i < |n.entries|
      ensures n.entries[i].id in n.ledger.reservations
      ensures n.ledger.reservations[n.entries[i].id].key == n.entries[i].key
      ensures n.entries[i].key == key ==> DatedRow(n.entries[i], n.ledger.reservations[n.entries[i].id], p)
    {
      var id := h.entries[i].id;
      StepsKeepDates(h.entries[i], h.ledger.reservations[id], n.ledger.reservations[id], p, id, a);
    }
  }

  lemma NotedOther(h: History, a: Action, key: Key, p: Policy)
    requires Sound(h, key, p) && !a.AdmitAction?
    ensures Sound(Noted(h, a), key, p)
  {
    ExecuteConserves(h.ledger, a);
    ExecuteSteps(h.ledger, a);
    OthersKeepRows(h.ledger, a);
    RowsStep(h, Noted(h, a), key, p, a);
  }

  lemma AdmitWritesRow(l: Ledger, owner: Id, key: Key, policy: Policy, request: Amounts, now: nat, id: Id)
    requires Admit(l, owner, key, policy, request, now, id).0 == Admitted
    ensures var n := Admit(l, owner, key, policy, request, now, id).1;
            var r := Reservation(key, owner, PeriodOf(key, policy, now), request, NOTHING, Pending);
            && id !in l.reservations && ValidPolicy(policy) && n.reservations == l.reservations[id := r]
  {
    AdmittedIsChecked(l, key, policy, request, now);
  }

  lemma NewRowIsDated(e: Entry, r: Reservation, p: Policy)
    requires ValidPolicy(p) && r.bucket == PeriodOf(e.key, p, e.time)
    ensures DatedRow(e, r, p)
  {
    if p.periodDuration > 0 {
      PeriodIsAligned(e.time, p.periodDuration);
    }
  }

  lemma RowsGrow(h: History, n: History, e: Entry, r: Reservation, key: Key, p: Policy)
    requires Lists(h.entries, h.ledger.reservations) && Dated(h, key, p)
    requires e.id !in h.ledger.reservations && r.key == e.key && (e.key == key ==> DatedRow(e, r, p))
    requires n.entries == h.entries + [e] && n.ledger.reservations == h.ledger.reservations[e.id := r]
    ensures Lists(n.entries, n.ledger.reservations) && Dated(n, key, p)
  {
    ListsAppend(h.entries, h.ledger.reservations, e, r);
  }

  lemma NotedAdmission(h: History, a: Action, key: Key, p: Policy)
    requires Sound(h, key, p) && a.AdmitAction? && (a.key == key ==> a.policy == p)
    ensures Sound(Noted(h, a), key, p)
  {
    ExecuteConserves(h.ledger, a);
    var n := Noted(h, a);
    var outcome := Admit(h.ledger, a.owner, a.key, a.policy, a.request, a.now, a.id).0;
    if outcome == Admitted {
      AdmitWritesRow(h.ledger, a.owner, a.key, a.policy, a.request, a.now, a.id);
      var e, r := Entry(a.id, a.key, a.now), n.ledger.reservations[a.id];
      NewRowIsDated(e, r, a.policy);
      RowsGrow(h, n, e, r, key, p);
    } else {
      RefusedChangesNothing(h.ledger, a);
    }
  }

  lemma RefusedChangesNothing(l: Ledger, a: Action)
    requires a.AdmitAction? && Admit(l, a.owner, a.key, a.policy, a.request, a.now, a.id).0 != Admitted
    ensures Execute(l, a) == l == Admit(l, a.owner, a.key, a.policy, a.request, a.now, a.id).1
  {
  }

  lemma {:induction false} HistoryIsSound(h: History, actions: seq<Action>, key: Key, p: Policy)
    requires Sound(h, key, p) && Steady(actions, key, p)
    ensures Sound(HistoryAfter(h, actions), key, p)
    decreases |actions|
  {
    if actions != [] {
      if actions[0].AdmitAction? {
        NotedAdmission(h, actions[0], key, p);
      } else {
        NotedOther(h, actions[0], key, p);
      }
      HistoryIsSound(Noted(h, actions[0]), actions[1..], key, p);
    }
  }

  // ----- Counters and buckets are sums over the log -----

  lemma {:induction false} RunningIsSum(rs: map<Id, Reservation>, entries: seq<Entry>, key: Key)
    requires forall i :: 0 <= i < |entries| ==> entries[i].id in rs && rs[entries[i].id].key == entries[i].key
    ensures Running(rs, entries, key) == SumOf(rs, entries, OpenOf(key))
    decreases |entries|
  {
    if entries != [] {
      RunningIsSum(rs, entries[..|entries| - 1], key);
    }
  }

  /** Whether a row is in the bucket is whether its admission lies in the interval. */
  predicate Placed(rs: map<Id, Reservation>, entries: seq<Entry>, key: Key, start: nat, duration: int) {
    forall i :: 0 <= i < |entries| ==>
      && entries[i].id in rs
      && (rs[entries[i].id].bucket == Some(Period(key, start))
          <==> entries[i].key == key && start <= entries[i].time < start + duration)
  }

  lemma {:induction false} HeldIsSum(rs: map<Id, Reservation>, entries: seq<Entry>, key: Key, start: nat, duration: int,
                                     d: Dimension)
    requires Placed(rs, entries, key, start, duration)
    ensures var p, to := Period(key, start), start + duration;
            && Held(rs, entries, key, start, to, d)
               == SumOf(rs, entries, ReservedIn(p, d)) + SumOf(rs, entries, ChargedIn(p, d))
            && Asked(rs, entries, key, start, to, d) == SumOf(rs, entries, ReservedIn(p, d))
            && Excess(rs, entries, key, start, to, d) == SumOf(rs, entries, OverageIn(p, d))
    decreases |entries|
  {
    if entries != [] {
      var front, last := entries[..|entries| - 1], entries[|entries| - 1];
      HeldIsSum(rs, front, key, start, duration, d);
    }
  }

  lemma AllPlaced(h: History, key: Key, p: Policy, start: nat)
    requires Sound(h, key, p) && p.periodDuration > 0 && start % p.periodDuration == 0
    ensures Placed(h.ledger.reservations, h.entries, key, start, p.periodDuration)
  {
    forall i | 0 <= i < |h.entries|
      ensures h.entries[i].id in h.ledger.reservations
      ensures h.ledger.reservations[h.entries[i].id].bucket == Some(Period(key, start))
              <==> h.entries[i].key == key && start <= h.entries[i].time < start + p.periodDuration
    {
      var e, r := h.entries[i], h.ledger.reservations[h.entries[i].id];
      assert ValidRow(r);
      if e.key == key {
        assert DatedRow(e, r, p);
        if start <= e.time < start + p.periodDuration {
          AlignedOnce(start, r.bucket.value.start, p.periodDuration, e.time);
        }
      }
    }
  }

  /** A key's active count is its running admissions; a bucket holds what the admissions of its interval do. */
  lemma CountersAreLogged(h: History, key: Key, p: Policy, start: nat, d: Dimension)
    requires Sound(h, key, p)
    ensures StateOf(h.ledger, key).active == Running(h.ledger.reservations, h.entries, key)
    ensures p.periodDuration > 0 && start % p.periodDuration == 0 ==>
              var b, to := BucketOf(h.ledger, Period(key, start)), start + p.periodDuration;
              && b.reserved.At(d) + b.actual.At(d) == Held(h.ledger.reservations, h.entries, key, start, to, d)
              && b.reserved.At(d) == Asked(h.ledger.reservations, h.entries, key, start, to, d)
              && Total(h.ledger.reservations, OverageIn(Period(key, start), d))
                 == Excess(h.ledger.reservations, h.entries, key, start, to, d)
  {
    var rs, entries, bucket := h.ledger.reservations, h.entries, Period(key, start);
    TotalByEntries(rs, entries, OpenOf(key));
    RunningIsSum(rs, entries, key);
    if key !in h.ledger.keys {
      Untouched(rs, OpenOf(key));
    }
    if p.periodDuration > 0 && start % p.periodDuration == 0 {
      AllPlaced(h, key, p, start);
      HeldIsSum(rs, entries, key, start, p.periodDuration, d);
      TotalByEntries(rs, entries, ReservedIn(bucket, d));
      TotalByEntries(rs, entries, ChargedIn(bucket, d));
      TotalByEntries(rs, entries, OverageIn(bucket, d));
      BucketSums(h.ledger, bucket);
      SumsAtBoth(rs, bucket, d);
    }
  }

  // ----- The decision, told from the history -----

  predicate OnlySpaces(key: Key) {
    forall i :: 0 <= i < |key| ==> WhitePoint(key[i] as int)
  }

  predicate Counted(n: int) {
    0 <= n && n <= MAX_QUOTA_COUNT
  }

  /** Every number in range, a rolling count with its window and a period with its limits or neither, and no
      default above its ceiling. */
  ghost predicate ProperPolicy(p: Policy) {
    && Counted(p.maxConcurrent) && Counted(p.rollingCount)
    && (forall d: Dimension :: Counted(p.limits.At(d)) && Counted(p.defaults.At(d)) && Counted(p.ceilings.At(d)))
    && 0 <= p.rollingWindow <= 365 * 24 * 3600 * SECOND && 0 <= p.periodDuration <= 365 * 24 * 3600 * SECOND
    && (p.rollingCount > 0 <==> p.rollingWindow > 0)
    && (p.periodDuration > 0 <==> exists d: Dimension :: p.limits.At(d) > 0)
    && forall d: Dimension :: d != Requests && p.ceilings.At(d) > 0 ==> p.defaults.At(d) <= p.ceilings.At(d)
  }

  /** One request, and amounts in range. */
  ghost predicate ProperRequest(request: Amounts) {
    request.requests == 1 && forall d: Dimension :: Counted(request.At(d))
  }

  /** Some limit, default or ceiling is on. */
  ghost predicate Restrictive(p: Policy) {
    || p.maxConcurrent > 0 || p.rollingCount > 0
    || exists d: Dimension :: p.limits.At(d) > 0 || (d != Requests && (p.defaults.At(d) > 0 || p.ceilings.At(d) > 0))
  }

  ghost predicate OverCeiling(p: Policy, request: Amounts, d: Dimension) {
    d != Requests && p.ceilings.At(d) > 0 && request.At(d) > p.ceilings.At(d)
  }

  /** The period limit has no room beside what the interval's admissions hold. */
  ghost predicate OverLimit(h: History, key: Key, p: Policy, request: Amounts, from: int, d: Dimension) {
    && p.limits.At(d) > 0
    && Held(h.ledger.reservations, h.entries, key, from, from + p.periodDuration, d) + request.At(d) > p.limits.At(d)
  }

  /** In the order of requests, tokens, images and cost. */
  function Rank(d: Dimension): nat {
    match d case Requests => 0 case Tokens => 1 case Images => 2 case Cost => 3
  }

  /** Refused for dimension `d` until `resetAt`. */
  predicate RefusedFor(o: Admission, kind: Kind, now: int, resetAt: int) {
    o == Refused(QuotaError(kind, resetAt - now, resetAt)) && resetAt > now
  }

  ghost predicate TooMany(h: History, key: Key, p: Policy, time: int) {
    Recent(h.entries, key, time, p.rollingWindow) >= p.rollingCount
  }

  /** Until the first instant at which the window has room. */
  ghost predicate RefusedForRate(h: History, key: Key, p: Policy, now: int, o: Admission) {
    && o.Refused? && RefusedFor(o, Rate, now, o.error.resetAt) && !TooMany(h, key, p, o.error.resetAt)
    && forall t :: now <= t < o.error.resetAt ==> TooMany(h, key, p, t)
  }

  /** Counters would pass 64 bits. */
  ghost predicate Overflows(h: History, key: Key, p: Policy, request: Amounts, from: int) {
    || Running(h.ledger.reservations, h.entries, key) == MAX_INT64
    || (p.periodDuration > 0
        && exists d: Dimension ::
             Asked(h.ledger.reservations, h.entries, key, from, from + p.periodDuration, d) + request.At(d) > MAX_INT64)
  }

  /** Refused for the first dimension whose limit has no room, until the next interval; else admitted, unless a
      counter would overflow or the identifier is taken. */
  ghost predicate JudgedByPeriod(h: History, key: Key, p: Policy, request: Amounts, now: nat, id: Id, from: int,
                                 o: Admission) {
    if p.periodDuration > 0 && exists d: Dimension :: OverLimit(h, key, p, request, from, d) then
      exists d: Dimension ::
        && OverLimit(h, key, p, request, from, d) && RefusedFor(o, Limit(d), now, from + p.periodDuration)
        && forall e: Dimension :: OverLimit(h, key, p, request, from, e) ==> Rank(d) <= Rank(e)
    else if Overflows(h, key, p, request, from) then o == Failed(OutOfRange)
    else o == if id in h.ledger.reservations then Failed(IdTaken) else Admitted
  }

  /** What an admission of the key at `now` must answer, from the log of admissions and their rows alone; `from`
      is the start of the aligned interval that holds `now`. */
  ghost predicate Judged(h: History, key: Key, p: Policy, request: Amounts, now: nat, id: Id, from: int, o: Admission) {
    if OnlySpaces(key) then o == Failed(BadKey)
    else if !ProperPolicy(p) then o == Failed(BadPolicy)
    else if !ProperRequest(request) then o == Failed(BadRequest)
    else if exists d: Dimension :: OverCeiling(p, request, d) then
      exists d: Dimension ::
        && OverCeiling(p, request, d) && RefusedFor(o, Limit(d), now, now + SECOND)
        && forall e: Dimension :: OverCeiling(p, request, e) ==> Rank(d) <= Rank(e)
    else if !Restrictive(p) then o == Unlimited
    else if p.maxConcurrent > 0 && Running(h.ledger.reservations, h.entries, key) >= p.maxConcurrent then
      RefusedFor(o, Concurrency, now, now + SECOND)
    else if p.rollingCount > 0 && TooMany(h, key, p, now) then RefusedForRate(h, key, p, now, o)
    else JudgedByPeriod(h, key, p, request, now, id, from, o)
  }

  // ----- The checks, one by one -----

  lemma EveryDimension(a: Amounts)
    ensures a.At(Requests) == a.requests && a.At(Tokens) == a.tokens && a.At(Images) == a.images && a.At(Cost) == a.cost
  {
  }

  lemma PolicyIsProper(p: Policy)
    ensures ValidPolicy(p) <==> ProperPolicy(p)
    ensures ValidPolicy(p) ==> (PolicyEnabled(p) <==> Restrictive(p)) && (PeriodEnabled(p) <==> p.periodDuration > 0)
  {
    EveryDimension(p.limits);
    EveryDimension(p.defaults);
    EveryDimension(p.ceilings);
  }

  lemma RequestIsProper(request: Amounts)
    ensures ValidRequest(request) <==> ProperRequest(request)
  {
    EveryDimension(request);
  }

  lemma CeilingIsFirst(p: Policy, request: Amounts)
    ensures var c := CeilingExceeded(p, request);
            if c.Some? then
              && OverCeiling(p, request, c.value)
              && forall e: Dimension :: OverCeiling(p, request, e) ==> Rank(c.value) <= Rank(e)
            else forall e: Dimension :: !OverCeiling(p, request, e)
  {
    EveryDimension(p.ceilings);
    EveryDimension(request);
  }

  lemma RoomIsFirst(p: Policy, b: Bucket, request: Amounts)
    ensures var c := FirstWithoutRoom(p, b, request, DIMENSIONS);
            if c.Some? then
              && NoRoom(p, b, request, c.value)
              && forall e: Dimension :: NoRoom(p, b, request, e) ==> Rank(c.value) <= Rank(e)
            else forall e: Dimension :: !NoRoom(p, b, request, e)
  {
    assert DIMENSIONS == [Requests] + ([Tokens] + ([Images] + ([Cost] + [])));
    var d1, d2, d3, d4 := DIMENSIONS[1..], DIMENSIONS[2..], DIMENSIONS[3..], DIMENSIONS[4..];
    assert d1[1..] == d2 && d2[1..] == d3 && d3[1..] == d4 && d4 == [];
    assert FirstWithoutRoom(p, b, request, d3) == if NoRoom(p, b, request, Cost) then Some(Cost) else None;
    assert FirstWithoutRoom(p, b, request, d2)
           == if NoRoom(p, b, request, Images) then Some(Images) else FirstWithoutRoom(p, b, request, d3);
    assert FirstWithoutRoom(p, b, request, d1)
           == if NoRoom(p, b, request, Tokens) then Some(Tokens) else FirstWithoutRoom(p, b, request, d2);
  }

  lemma AmountsNonNegative(l: Ledger, bucket: Period, d: Dimension)
    requires Conserved(l)
    ensures BucketOf(l, bucket).reserved.At(d) >= 0 && BucketOf(l, bucket).actual.At(d) >= 0
  {
    BucketSums(l, bucket);
    SumsAtBoth(l.reservations, bucket, d);
    TotalNonNegative(l.reservations, ReservedIn(bucket, d));
    TotalNonNegative(l.reservations, ChargedIn(bucket, d));
  }

  lemma NoRoomIsOverLimit(h: History, key: Key, p: Policy, request: Amounts, from: nat, d: Dimension)
    requires Sound(h, key, p) && ProperPolicy(p) && ProperRequest(request)
    requires p.periodDuration > 0 && from % p.periodDuration == 0
    ensures NoRoom(p, BucketOf(h.ledger, Period(key, from)), request, d) <==> OverLimit(h, key, p, request, from, d)
  {
    CountersAreLogged(h, key, p, from, d);
    AmountsNonNegative(h.ledger, Period(key, from), d);
    assert Counted(p.limits.At(d)) && Counted(request.At(d));
  }

  lemma AddAllFails(a: Amounts, b: Amounts)
    requires forall d: Dimension :: a.At(d) >= 0 && b.At(d) >= 0
    ensures AddAll(a, b).None? <==> exists d: Dimension :: a.At(d) + b.At(d) > MAX_INT64
  {
    EveryDimension(a);
    EveryDimension(b);
  }

  lemma FullBucketOverflows(h: History, key: Key, p: Policy, request: Amounts, from: nat)
    requires Sound(h, key, p) && ProperRequest(request) && p.periodDuration > 0 && from % p.periodDuration == 0
    ensures ReservedBucket(h.ledger, Period(key, from), request).None?
            <==> exists d: Dimension ::
                   var to := from + p.periodDuration;
                   Asked(h.ledger.reservations, h.entries, key, from, to, d) + request.At(d) > MAX_INT64
  {
    var b := BucketOf(h.ledger, Period(key, from));
    forall d: Dimension
      ensures b.reserved.At(d) >= 0 && request.At(d) >= 0
      ensures b.reserved.At(d) == Asked(h.ledger.reservations, h.entries, key, from, from + p.periodDuration, d)
    {
      CountersAreLogged(h, key, p, from, d);
      AmountsNonNegative(h.ledger, Period(key, from), d);
      assert Counted(request.At(d));
    }
    AddAllFails(b.reserved, request);
  }

  /** The rolling counter decides as the log does, and names the first instant with room. */
  ghost predicate RateKnown(h: History, key: Key, p: Policy, now: nat) {
    var c := Cleanup(StateOf(h.ledger, key), now);
    && (c.rolling >= p.rollingCount <==> TooMany(h, key, p, now))
    && (c.rolling >= p.rollingCount ==>
          RefusedForRate(h, key, p, now, Refused(NewError(Rate, now, NextReset(c.expiries, now, p.rollingWindow)))))
  }

  lemma RateIsKnown(h: History, w: World, key: Key, p: Policy, now: nat)
    requires SameStory(w, h) && TracksKey(w, p, key) && now >= h.clock
    ensures RateKnown(h, key, p, now)
  {
    var k, log := StateOf(h.ledger, key), Times(h.entries, key);
    forall t: int
      ensures Recent(h.entries, key, t, p.rollingWindow) == Live(log, t, p.rollingWindow)
    {
      RecentIsLive(h.entries, key, t, p.rollingWindow);
    }
    assert LogOf(w, key) == log;
    SameDecision(k, log, p.rollingCount, p.rollingWindow, w.clock, now);
    if Cleanup(k, now).rolling >= p.rollingCount {
      ResetIsLeast(k, log, p.rollingCount, p.rollingWindow, w.clock, now);
    }
  }

  /** The state after a run and the facts about it that an admission of the key is judged by. */
  ghost predicate Known(h: History, key: Key, p: Policy, now: nat) {
    Sound(h, key, p) && (ProperPolicy(p) && p.rollingCount > 0 ==> RateKnown(h, key, p, now))
  }

  lemma RunIsKnown(actions: seq<Action>, key: Key, p: Policy, now: nat)
    requires Steady(actions, key, p) && Monotone(0, actions) && now >= HistoryAfter(UNWRITTEN, actions).clock
    ensures Known(HistoryAfter(UNWRITTEN, actions), key, p, now)
  {
    assert Ids([]) == {};
    HistoryIsSound(UNWRITTEN, actions, key, p);
    SameRun(BEGINNING, UNWRITTEN, actions);
    if ProperPolicy(p) && p.rollingCount > 0 {
      RunTracks(BEGINNING, actions, p, key);
      RateIsKnown(HistoryAfter(UNWRITTEN, actions), WorldAfter(BEGINNING, actions), key, p, now);
    }
  }

  /** The start of the interval, which is of no account when no period is on. */
  predicate Starts(p: Policy, now: nat, from: nat) {
    if p.periodDuration > 0 then Aligned(from, p.periodDuration, now) else from == 0
  }

  /** What the check for the period answers once the checks before it have passed. */
  lemma PeriodIsJudged(h: History, key: Key, p: Policy, request: Amounts, now: nat, from: nat)
    requires Sound(h, key, p) && ProperPolicy(p) && ProperRequest(request) && Starts(p, now, from)
    ensures StateOf(h.ledger, key).active == Running(h.ledger.reservations, h.entries, key)
    ensures PeriodOf(key, p, now) == if p.periodDuration > 0 then Some(Period(key, from)) else None
    ensures p.periodDuration > 0 ==>
              var b := BucketOf(h.ledger, Period(key, from));
              && (forall d: Dimension :: NoRoom(p, b, request, d) <==> OverLimit(h, key, p, request, from, d))
              && (Running(h.ledger.reservations, h.entries, key) == MAX_INT64
                  || ReservedBucket(h.ledger, Period(key, from), request).None?
                  <==> Overflows(h, key, p, request, from))
  {
    CountersAreLogged(h, key, p, 0, Requests);
    PolicyIsProper(p);
    if p.periodDuration > 0 {
      PeriodIsAligned(now, p.periodDuration);
      AlignedOnce(from, PeriodStart(now, p.periodDuration), p.periodDuration, now);
      forall d: Dimension
        ensures NoRoom(p, BucketOf(h.ledger, Period(key, from)), request, d) <==> OverLimit(h, key, p, request, from, d)
      {
        NoRoomIsOverLimit(h, key, p, request, from, d);
      }
      FullBucketOverflows(h, key, p, request, from);
    }
  }

  /** What the whole admission answers when its checks answer `checked`. */
  function Answered(l: Ledger, id: Id, checked: Admission): Admission {
    if checked != Admitted then checked else if id in l.reservations then Failed(IdTaken) else Admitted
  }

  lemma PeriodCheckIsJudged(h: History, key: Key, p: Policy, request: Amounts, now: nat, id: Id, from: nat, active: int)
    requires Sound(h, key, p) && ProperPolicy(p) && ProperRequest(request) && Starts(p, now, from)
    requires active == StateOf(h.ledger, key).active
    ensures JudgedByPeriod(h, key, p, request, now, id, from,
                           Answered(h.ledger, id, CheckPeriod(h.ledger, key, p, request, now, active)))
  {
    PeriodIsJudged(h, key, p, request, now, from);
    if p.periodDuration > 0 {
      BookingIsJudged(h, key, p, request, now, id, from, active, BucketOf(h.ledger, Period(key, from)));
    }
  }

  lemma BookingIsJudged(h: History, key: Key, p: Policy, request: Amounts, now: nat, id: Id, from: nat, active: int,
                        b: Bucket)
    requires p.periodDuration > 0 && Aligned(from, p.periodDuration, now)
    requires PeriodOf(key, p, now) == Some(Period(key, from)) && b == BucketOf(h.ledger, Period(key, from))
    requires forall d: Dimension :: NoRoom(p, b, request, d) <==> OverLimit(h, key, p, request, from, d)
    requires active == MAX_INT64 || ReservedBucket(h.ledger, Period(key, from), request).None?
             <==> Overflows(h, key, p, request, from)
    ensures JudgedByPeriod(h, key, p, request, now, id, from,
                           Answered(h.ledger, id, CheckPeriod(h.ledger, key, p, request, now, active)))
  {
    RoomIsFirst(p, b, request);
    var d := FirstWithoutRoom(p, b, request, DIMENSIONS);
    if d.Some? {
      var o := CheckPeriod(h.ledger, key, p, request, now, active);
      assert OverLimit(h, key, p, request, from, d.value)
             && RefusedFor(o, Limit(d.value), now, from + p.periodDuration);
    }
  }

  lemma CheckIsJudged(h: History, key: Key, p: Policy, request: Amounts, now: nat, id: Id, from: nat)
    requires Known(h, key, p, now) && Starts(p, now, from)
    ensures Judged(h, key, p, request, now, id, from,
                   Answered(h.ledger, id, CheckAdmission(h.ledger, key, p, request, now)))
  {
    PolicyIsProper(p);
    RequestIsProper(request);
    CeilingIsFirst(p, request);
    BlankIsSpaces(key);
    if ProperPolicy(p) && ProperRequest(request) {
      CountersAreLogged(h, key, p, 0, Requests);
      PeriodCheckIsJudged(h, key, p, request, now, id, from, StateOf(h.ledger, key).active);
      assert Cleanup(StateOf(h.ledger, key), now).active == StateOf(h.ledger, key).active;
    }
  }

  lemma SpaceIsWhite(c: char)
    ensures Space(c) <==> WhitePoint(c as int)
  {
    assert c in " \U{85}\U{A0}\U{1680}" <==> c == ' ' || c == '\U{85}' || c == '\U{A0}' || c == '\U{1680}';
    assert c in "\U{2028}\U{2029}\U{202F}\U{205F}\U{3000}"
           <==> c == '\U{2028}' || c == '\U{2029}' || c == '\U{202F}' || c == '\U{205F}' || c == '\U{3000}';
  }

  lemma BlankIsSpaces(key: Key)
    ensures Blank(key) <==> OnlySpaces(key)
  {
    forall c: char
      ensures Space(c) <==> WhitePoint(c as int)
    {
      SpaceIsWhite(c);
    }
    if Blank(key) {
      forall i | 0 <= i < |key|
        ensures WhitePoint(key[i] as int)
      {
        assert key[i] in key && Space(key[i]);
      }
    }
    if OnlySpaces(key) {
      forall c | c in key
        ensures Space(c)
      {
        var i :| 0 <= i < |key| && key[i] == c;
      }
    }
  }

  // ----- The main results -----

  /** In every run in which the key's admissions are under one policy and the clock is monotone, an admission
      answers what the log of admissions says. A granted one adds exactly its row; any other changes nothing. */
  lemma AdmissionIsJudged(actions: seq<Action>, p: Policy, owner: Id, key: Key, request: Amounts, now: nat, id: Id,
                          from: nat)
    requires Steady(actions, key, p) && Monotone(0, actions) && now >= HistoryAfter(UNWRITTEN, actions).clock
    requires Starts(p, now, from)
    ensures var h := HistoryAfter(UNWRITTEN, actions);
            var (o, l) := Admit(h.ledger, owner, key, p, request, now, id);
            && Judged(h, key, p, request, now, id, from, o)
            && (o != Admitted ==> l == h.ledger)
            && (o == Admitted ==>
                  var bucket := if p.periodDuration > 0 then Some(Period(key, from)) else None;
                  var r := Reservation(key, owner, bucket, request, NOTHING, Pending);
                  l.reservations == h.ledger.reservations[id := r])
  {
    var h := HistoryAfter(UNWRITTEN, actions);
    RunIsKnown(actions, key, p, now);
    CheckIsJudged(h, key, p, request, now, id, from);
    if Admit(h.ledger, owner, key, p, request, now, id).0 == Admitted {
      AdmitWritesRow(h.ledger, owner, key, p, request, now, id);
      PolicyIsProper(p);
      if p.periodDuration > 0 {
        PeriodIsAligned(now, p.periodDuration);
        AlignedOnce(from, PeriodStart(now, p.periodDuration), p.periodDuration, now);
      }
    }
  }

  lemma {:induction false} HistoryIsRun(h: History, actions: seq<Action>)
    ensures HistoryAfter(h, actions).ledger == Run(h.ledger, actions)
    decreases |actions|
  {
    if actions != [] {
      HistoryIsRun(Noted(h, actions[0]), actions[1..]);
    }
  }

  lemma NetIsLogged(h: History, key: Key, p: Policy, from: nat, d: Dimension, b: Period)
    requires Sound(h, key, p) && p.periodDuration > 0 && from % p.periodDuration == 0 && b == Period(key, from)
    ensures var rs, to := h.ledger.reservations, from + p.periodDuration;
            NetTotal(rs, b, d) == Held(rs, h.entries, key, from, to, d) - Excess(rs, h.entries, key, from, to, d)
  {
    CountersAreLogged(h, key, p, from, d);
    BucketSums(h.ledger, b);
    SumsAtBoth(h.ledger.reservations, b, d);
  }

  lemma NetWithinLimit(l: Ledger, p: Policy, b: Period, d: Dimension)
    requires Conserved(l) && WithinLimits(l, b.key, p) && p.limits.At(d) > 0
    ensures NetTotal(l.reservations, b, d) <= p.limits.At(d)
  {
    BucketStays(l, b, d);
  }

  /** In every such run, what the key's admissions of one aligned interval hold, but for the charges beyond what
      was asked for, stays within the policy's limit, in every dimension. */
  lemma PeriodLimitHolds(actions: seq<Action>, p: Policy, key: Key, from: nat, d: Dimension)
    requires Steady(actions, key, p) && p.periodDuration > 0 && p.limits.At(d) > 0 && from % p.periodDuration == 0
    ensures var h := HistoryAfter(UNWRITTEN, actions);
            var rs, to := h.ledger.reservations, from + p.periodDuration;
            Held(rs, h.entries, key, from, to, d) - Excess(rs, h.entries, key, from, to, d) <= p.limits.At(d)
  {
    assert Ids([]) == {};
    HistoryIsSound(UNWRITTEN, actions, key, p);
    HistoryIsRun(UNWRITTEN, actions);
    RunKeepsLimits(EMPTY, actions, key, p);
    NetIsLogged(HistoryAfter(UNWRITTEN, actions), key, p, from, d, Period(key, from));
    NetWithinLimit(HistoryAfter(UNWRITTEN, actions).ledger, p, Period(key, from), d);
  }

  /** The key's admissions in the interval that were not released. */
  function Unreleased(rs: map<Id, Reservation>, entries: seq<Entry>, key: Key, from: int, to: int): nat {
    if entries == [] then 0
    else
      var last := entries[|entries| - 1];
      Unreleased(rs, entries[..|entries| - 1], key, from, to)
      + if last.key == key && from <= last.time < to && last.id in rs && rs[last.id].status != Released then 1 else 0
  }

  lemma {:induction false} UnreleasedHoldOne(rs: map<Id, Reservation>, entries: seq<Entry>, key: Key, from: int,
                                             to: int)
    requires ValidRows(rs)
    ensures Held(rs, entries, key, from, to, Requests) == Unreleased(rs, entries, key, from, to)
    ensures Excess(rs, entries, key, from, to, Requests) == 0
    decreases |entries|
  {
    if entries != [] {
      UnreleasedHoldOne(rs, entries[..|entries| - 1], key, from, to);
      var last := entries[|entries| - 1];
      assert last.id in rs ==> ValidRow(rs[last.id]);
    }
  }

  /** No aligned interval ever holds more unreleased admissions of the key than its request limit. */
  lemma RequestLimitHolds(actions: seq<Action>, p: Policy, key: Key, from: nat)
    requires Steady(actions, key, p) && p.periodDuration > 0 && p.limits.requests > 0 && from % p.periodDuration == 0
    ensures var h := HistoryAfter(UNWRITTEN, actions);
            Unreleased(h.ledger.reservations, h.entries, key, from, from + p.periodDuration) <= p.limits.requests
  {
    var h := HistoryAfter(UNWRITTEN, actions);
    PeriodLimitHolds(actions, p, key, from, Requests);
    HistoryIsRun(UNWRITTEN, actions);
    RunConserves(EMPTY, actions);
    UnreleasedHoldOne(h.ledger.reservations, h.entries, key, from, from + p.periodDuration);
  }
}
