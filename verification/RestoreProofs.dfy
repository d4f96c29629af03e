/** What the restore swap guarantees over every crash, every chain of crashed recoveries and
    every single failed operation. */
module RestoreProofs {
  import opened RestoreSwap

  // ----- The states an interrupted restore can leave -----

  function Kept(had: bool): Entry {
    if had then Whole(Old) else Absent
  }

  /** The disk just before the install: the old pair, as far as it exists, and the staged new pair. */
  function Initial(had: Had): Disk {
    Disk(Kept(had.database), Kept(had.artifacts), Absent, Absent, Whole(New), Whole(New), NoMarker)
  }

  ghost predicate OldSet(d: Disk, had: Had) {
    d.targetDb == Kept(had.database) && d.targetRoot == Kept(had.artifacts)
  }

  ghost predicate NewSet(d: Disk) {
    d.targetDb == Whole(New) && d.targetRoot == Whole(New)
  }

  ghost predicate NothingAside(d: Disk) {
    d.oldDb.Absent? && d.oldRoot.Absent? && d.newDb.Absent? && d.newRoot.Absent?
  }

  /** One thing that is at exactly one of two places. */
  ghost predicate AtOneOf(a: Entry, b: Entry, side: Side) {
    (a == Whole(side) && b.Absent?) || (a.Absent? && b == Whole(side))
  }

  /** The old database (root) is back in place, or still aside with at most new content in its place. */
  ghost predicate Restorable(target: Entry, aside: Entry, had: bool) {
    if aside == Whole(Old) then had && (target.Absent? || target == Whole(New) || target == Torn(New))
    else aside.Absent? && target == Kept(had)
  }

  ghost predicate NewRemnant(e: Entry) {
    e.Absent? || e == Whole(New) || e == Torn(New)
  }

  ghost predicate OldRemnant(e: Entry, had: bool) {
    e.Absent? || (had && (e == Whole(Old) || e == Torn(Old)))
  }

  ghost predicate Staged(d: Disk) {
    d.newDb == Whole(New) && d.newRoot == Whole(New)
  }

  ghost predicate OldAside(d: Disk, had: Had) {
    d.oldDb == Kept(had.database) && d.oldRoot == Kept(had.artifacts)
  }

  ghost predicate FilesWhole(d: Disk) {
    !d.targetDb.Torn? && !d.oldDb.Torn? && !d.newDb.Torn?
  }

  /** Every state reachable by an install and any number of crashed recoveries. */
  ghost predicate Inv(d: Disk, had: Had) {
    FilesWhole(d) &&
    match d.marker
    case NoMarker =>
      d == Initial(had) || (NothingAside(d) && (OldSet(d, had) || NewSet(d)))
    case Marker(record) =>
      record.had == had &&
      match record.phase
      case Prepared =>
        d.oldDb.Absent? && d.oldRoot.Absent? && OldSet(d, had)
        && (if had == Had(true, true) then NewRemnant(d.newDb) && NewRemnant(d.newRoot) else Staged(d))
      case MovingOld =>
        had != Had(false, false) && Staged(d)
        && (if had.database then AtOneOf(d.targetDb, d.oldDb, Old) else d.targetDb.Absent? && d.oldDb.Absent?)
        && (if had.artifacts then AtOneOf(d.targetRoot, d.oldRoot, Old) else d.targetRoot.Absent? && d.oldRoot.Absent?)
      case OldMoved =>
        OldAside(d, had) && Staged(d) && d.targetDb.Absent? && d.targetRoot.Absent?
      case InstallingDatabase =>
        OldAside(d, had) && AtOneOf(d.targetDb, d.newDb, New) && d.targetRoot.Absent? && d.newRoot == Whole(New)
      case DatabaseInstalled =>
        OldAside(d, had) && d.targetDb == Whole(New) && d.newDb.Absent? && d.targetRoot.Absent?
        && d.newRoot == Whole(New)
      case InstallingArtifacts =>
        OldAside(d, had) && d.targetDb == Whole(New) && d.newDb.Absent? && AtOneOf(d.targetRoot, d.newRoot, New)
      case ArtifactsInstalled =>
        NewSet(d) && d.newDb.Absent? && d.newRoot.Absent? && OldRemnant(d.oldDb, had.database)
        && OldRemnant(d.oldRoot, had.artifacts)
      case Committed =>
        NewSet(d) && d.newDb.Absent? && d.newRoot.Absent? && OldRemnant(d.oldDb, had.database)
        && OldRemnant(d.oldRoot, had.artifacts)
      case RecoveringOld =>
        had != Had(false, false) && Restorable(d.targetDb, d.oldDb, had.database)
        && Restorable(d.targetRoot, d.oldRoot, had.artifacts) && NewRemnant(d.newDb) && NewRemnant(d.newRoot)
      case OldDatabaseRestored =>
        had.database && d.targetDb == Whole(Old) && d.oldDb.Absent?
        && Restorable(d.targetRoot, d.oldRoot, had.artifacts) && NewRemnant(d.newDb) && NewRemnant(d.newRoot)
      case OldArtifactsRestored =>
        had.artifacts && OldSet(d, had) && d.oldDb.Absent? && d.oldRoot.Absent? && NewRemnant(d.newDb)
        && NewRemnant(d.newRoot)
      case RecoveringNew =>
        had == Had(false, false) && d.oldDb.Absent? && d.oldRoot.Absent?
        && AtOneOf(d.targetDb, d.newDb, New) && AtOneOf(d.targetRoot, d.newRoot, New)
      case NewDatabaseInstalled =>
        had == Had(false, false) && d.oldDb.Absent? && d.oldRoot.Absent?
        && d.targetDb == Whole(New) && d.newDb.Absent? && AtOneOf(d.targetRoot, d.newRoot, New)
      case NewArtifactsInstalled =>
        had == Had(false, false) && NewSet(d) && NothingAside(d)
  }

  // ----- Where each state ends up -----

  datatype Fate = KeepsOld | TakesNew | Refuses

  /** The final outcome, read off the marker phase, the two flags and the target paths alone. */
  ghost function FateOf(d: Disk, had: Had): Fate {
    var both, none := had == Had(true, true), had == Had(false, false);
    match d.marker
    case NoMarker => if NewSet(d) then TakesNew else KeepsOld
    case Marker(record) =>
      match record.phase
      case MovingOld => KeepsOld
      case RecoveringOld => KeepsOld
      case OldDatabaseRestored => KeepsOld
      case OldArtifactsRestored => KeepsOld
      case ArtifactsInstalled => TakesNew
      case Committed => TakesNew
      case RecoveringNew => TakesNew
      case NewDatabaseInstalled => TakesNew
      case NewArtifactsInstalled => TakesNew
      case _ =>
        if both then KeepsOld
        else if none && d.Exists(TargetDb) == d.Exists(TargetRoot) then TakesNew
        else Refuses
  }

  /** An upper bound on the disk changes recovery still needs. */
  ghost function Cost(e: Entry, directory: bool): nat {
    if e.Absent? then 0 else if directory && e.Whole? then 2 else 1
  }

  ghost function Rank(d: Disk, had: Had): nat {
    if d.marker.NoMarker? then 0
    else
      1 + Cost(d.newDb, false) + Cost(d.newRoot, true)
      + match FateOf(d, had)
        case Refuses => 0
        case KeepsOld =>
          (if RestoringOld(d.marker.record.phase) then 0 else 1)
          + (if d.oldDb.Absent? then 0 else 2 + Cost(d.targetDb, false))
          + (if d.oldRoot.Absent? then 0 else 2 + Cost(d.targetRoot, true))
        case TakesNew =>
          (if InstallingNew(d.marker.record.phase) then 0 else 1)
          + (if d.newDb.Absent? then 0 else 1) + (if d.newRoot.Absent? then 0 else 1)
          + Cost(d.oldDb, false) + Cost(d.oldRoot, true)
  }

  // ----- One operation of a recovery -----

  /** What every disk of a run must satisfy, and the disk changes it may still need. */
  datatype Guard = Guard(ok: Disk -> bool, rank: Disk -> int)

  ghost predicate Cleared(d: Disk) {
    d.marker.NoMarker? ==> NothingAside(d)
  }

  ghost function Towards(had: Had, fate: Fate): Guard {
    Guard(d => Inv(d, had) && FateOf(d, had) == fate && Cleared(d), d => Rank(d, had))
  }

  ghost predicate Going(r: Run, g: Guard) {
    r.status == Running && !r.due.FaultAfter? && g.ok(r.disk)
  }

  /** Run `b` continues run `a` without failing, spends at most what the rank allows, and every
      disk it can crash on is guarded. */
  ghost predicate Moves(a: Run, b: Run, g: Guard, slack: int) {
    && g.ok(b.disk)
    && b.memory.had == a.memory.had
    && (b.status == Running || b.status == Crashed)
    && match a.due
       case Never => b.due.Never? && b.status == Running
       case CrashAfter(n) =>
         b.due.CrashAfter? && b.due.steps <= n
         && (b.status == Running ==> g.rank(b.disk) + n - b.due.steps <= g.rank(a.disk) + slack)
         && (b.status == Crashed ==> b.due.steps == 0 && g.rank(b.disk) + n <= g.rank(a.disk))
       case FaultAfter(_) => false
  }

  lemma StepMoves(r: Run, next: Disk, g: Guard, slack: int)
    requires Going(r, g) && g.ok(next)
    requires g.rank(next) + 1 <= g.rank(r.disk) + slack
    ensures Moves(r, Step(r, next), g, slack)
    ensures Step(r, next).status == Running ==> Step(r, next) == r.(disk := next, due := Step(r, next).due)
  {
  }

  lemma MovesChain(a: Run, b: Run, c: Run, g: Guard, first: int, second: int)
    requires Moves(a, b, g, first) && first <= 0
    requires if b.status == Running then Moves(b, c, g, second) else c == b
    ensures Moves(a, c, g, first + second)
  {
  }

  /** Leaving `e` where `p` was keeps the disk guarded and pays for the removal. */
  ghost predicate Loses(d: Disk, p: Path, e: Entry, g: Guard) {
    g.ok(d.Put(p, e)) && g.rank(d.Put(p, e)) + Cost(d.At(p), p.Directory()) <= g.rank(d) + Cost(e, p.Directory())
  }

  ghost predicate MayLose(d: Disk, p: Path, g: Guard) {
    && Loses(d, p, Absent, g)
    && (p.Directory() && d.At(p).Whole? ==>
          var torn := Torn(d.At(p).side);
          Loses(d, p, torn, g) && g.rank(d.Put(p, Absent)) + 1 <= g.rank(d.Put(p, torn)))
  }

  lemma RemoveMoves(r: Run, p: Path, g: Guard)
    requires Going(r, g) && MayLose(r.disk, p, g)
    ensures Moves(r, Remove(r, p), g, 0)
    ensures Remove(r, p).status == Running ==>
              Remove(r, p) == r.(disk := r.disk.Put(p, Absent), due := Remove(r, p).due)
  {
    match r.disk.At(p)
    case Absent => assert r.disk.Put(p, Absent) == r.disk;
    case Torn(_) => StepMoves(r, r.disk.Put(p, Absent), g, 0);
    case Whole(side) =>
      if p.Directory() {
        var torn := Step(r, r.disk.Put(p, Torn(side)));
        StepMoves(r, r.disk.Put(p, Torn(side)), g, 0);
        if torn.status == Running {
          assert torn.disk.Put(p, Absent) == r.disk.Put(p, Absent);
          StepMoves(torn, torn.disk.Put(p, Absent), g, 0);
        }
        MovesChain(r, torn, Step(torn, torn.disk.Put(p, Absent)), g, 0, 0);
      } else {
        StepMoves(r, r.disk.Put(p, Absent), g, 0);
      }
  }

  lemma MarkMoves(r: Run, phase: Phase, g: Guard, slack: int)
    requires Going(r, g)
    requires var next := r.disk.(marker := Marker(Record(phase, r.memory.had)));
             g.ok(next) && g.rank(next) + 1 <= g.rank(r.disk) + slack
    ensures Moves(r, Mark(r, phase), g, slack)
    ensures var b := Mark(r, phase);
            b.status == Running ==>
              b == Run(r.disk.(marker := Marker(Record(phase, r.memory.had))), Record(phase, r.memory.had), b.due,
                       Running)
  {
    var m := r.(memory := r.memory.(phase := phase));
    StepMoves(m, r.disk.(marker := Marker(m.memory)), g, slack);
  }

  ghost function Placed(d: Disk, from: Path, to: Path): Disk {
    d.Put(to, d.At(from)).Put(from, Absent)
  }

  lemma RenameMoves(r: Run, from: Path, to: Path, g: Guard, slack: int)
    requires Going(r, g) && r.disk.Exists(from) && !r.disk.Exists(to)
    requires g.ok(Placed(r.disk, from, to)) && g.rank(Placed(r.disk, from, to)) + 1 <= g.rank(r.disk) + slack
    ensures var b := Rename(r, from, to);
            Moves(r, b, g, slack) && (b.status == Running ==> b == r.(disk := Placed(r.disk, from, to), due := b.due))
  {
    StepMoves(r, Placed(r.disk, from, to), g, slack);
  }

  lemma AfterPut(d: Disk, p: Path, from: Path, to: Path)
    requires from != to
    ensures !d.Put(p, Absent).Exists(p)
    ensures d.Put(to, Absent).At(from) == d.At(from)
    ensures Placed(d.Put(to, Absent), from, to) == Placed(d, from, to)
  {
  }

  ghost predicate MayPut(d: Disk, from: Path, to: Path, record: Record, g: Guard) {
    var moved := Placed(d, from, to);
    var marked := moved.(marker := Marker(record));
    && MayLose(d, to, g)
    && g.ok(moved) && g.rank(moved) + 2 <= g.rank(d.Put(to, Absent))
    && g.ok(marked) && g.rank(marked) <= g.rank(moved)
  }

  lemma PutBackMoves(r: Run, from: Path, to: Path, done: Phase, g: Guard)
    requires Going(r, g) && from != to
    requires r.disk.Exists(from) ==> MayPut(r.disk, from, to, Record(done, r.memory.had), g)
    ensures var b := PutBack(r, from, to, done);
            Moves(r, b, g, 0)
            && (b.status == Running ==>
                  if r.disk.Exists(from) then
                    b == Run(Placed(r.disk, from, to).(marker := Marker(Record(done, r.memory.had))),
                             Record(done, r.memory.had), b.due, Running)
                  else b == r)
  {
    if !r.disk.Exists(from) {
      return;
    }
    RemoveMoves(r, to, g);
    AfterPut(r.disk, to, from, to);
    var cleared := Remove(r, to);
    var moved := Rename(cleared, from, to);
    var marked := Mark(moved, done);
    if cleared.status == Running {
      RenameMoves(cleared, from, to, g, -1);
      if moved.status == Running {
        MarkMoves(moved, done, g, 1);
      }
      MovesChain(cleared, moved, marked, g, -1, 1);
    } else {
      StoppedStays(cleared, from, to, done);
    }
    MovesChain(r, cleared, marked, g, 0, 0);
  }

  lemma StoppedStays(r: Run, from: Path, to: Path, phase: Phase)
    requires r.status != Running
    ensures Rename(r, from, to) == r && Mark(r, phase) == r && Remove(r, to) == r && RemoveMarker(r) == r
  {
  }

  /** Run `b` finishes run `a`: it either crashed within the rank, or removed the marker. */
  ghost predicate Ends(a: Run, b: Run, g: Guard) {
    && g.ok(b.disk)
    && (b.status == Running || (b.status == Crashed && a.due.CrashAfter?))
    && (b.status == Crashed ==> g.rank(b.disk) + a.due.steps <= g.rank(a.disk))
    && (b.status == Running ==> b.disk.marker.NoMarker?)
  }

  lemma EndsChain(a: Run, b: Run, c: Run, g: Guard)
    requires Moves(a, b, g, 0)
    requires if b.status == Running then Ends(b, c, g) else c == b
    ensures Ends(a, c, g)
  {
  }

  lemma RemoveMarkerEnds(r: Run, g: Guard)
    requires Going(r, g) && r.disk.marker.Marker?
    requires g.ok(r.disk.(marker := NoMarker)) && g.rank(r.disk.(marker := NoMarker)) + 1 <= g.rank(r.disk)
    ensures Ends(r, RemoveMarker(r), g)
  {
    var gone := Step(r, r.disk.(marker := NoMarker));
    StepMoves(r, r.disk.(marker := NoMarker), g, 0);
    if gone.status == Running {
      StepMoves(gone, gone.disk, g, 1);
    }
  }

  /** Removing two paths and then the marker. */
  ghost predicate MayEnd(d: Disk, p: Path, q: Path, g: Guard) {
    var d1 := d.Put(p, Absent);
    var d2 := d1.Put(q, Absent);
    && d.marker.Marker? && MayLose(d, p, g) && MayLose(d1, q, g)
    && g.ok(d2.(marker := NoMarker)) && g.rank(d2.(marker := NoMarker)) + 1 <= g.rank(d2)
  }

  lemma RemoveBothEnds(r: Run, p: Path, q: Path, g: Guard)
    requires Going(r, g) && MayEnd(r.disk, p, q, g)
    ensures Ends(r, DropPair(r, p, q), g)
  {
    var r1 := Remove(r, p);
    var r2 := Remove(r1, q);
    RemoveMoves(r, p, g);
    if r1.status == Running {
      PutKeepsMarker(r.disk, p);
      RemoveMoves(r1, q, g);
      if r2.status == Running {
        PutKeepsMarker(r1.disk, q);
        RemoveMarkerEnds(r2, g);
      } else {
        StoppedStays(r2, p, q, Prepared);
      }
      EndsChain(r1, r2, RemoveMarker(r2), g);
    } else {
      StoppedStays(r1, p, q, Prepared);
    }
    EndsChain(r, r1, RemoveMarker(r2), g);
  }

  lemma PutKeepsMarker(d: Disk, p: Path)
    ensures d.Put(p, Absent).marker == d.marker
  {
  }

  // ----- Rolling back to the old pair -----

  ghost predicate OldUnderway(d: Disk, had: Had) {
    Inv(d, had) && d.marker.Marker? && RestoringOld(d.marker.record.phase)
  }

  lemma OldDatabaseMayPut(d: Disk, had: Had)
    requires OldUnderway(d, had) && d.Exists(OldDb)
    ensures MayPut(d, OldDb, TargetDb, Record(OldDatabaseRestored, had), Towards(had, KeepsOld))
  {
  }

  lemma OldArtifactsMakeRoom(d: Disk, had: Had)
    requires OldUnderway(d, had) && !d.Exists(OldDb) && d.Exists(OldRoot)
    ensures MayLose(d, TargetRoot, Towards(had, KeepsOld))
  {
  }

  lemma OldArtifactsMayPut(d: Disk, had: Had)
    requires OldUnderway(d, had) && !d.Exists(OldDb) && d.Exists(OldRoot)
    ensures MayPut(d, OldRoot, TargetRoot, Record(OldArtifactsRestored, had), Towards(had, KeepsOld))
  {
    OldArtifactsMakeRoom(d, had);
  }

  lemma OldMayEnd(d: Disk, had: Had)
    requires OldUnderway(d, had) && !d.Exists(OldDb) && !d.Exists(OldRoot)
    ensures MayEnd(d, NewDb, NewRoot, Towards(had, KeepsOld))
  {
  }

  lemma StoppedRecovery(r: Run, from: Path, to: Path, done: Phase)
    requires r.status != Running
    ensures PutBack(r, from, to, done) == r && CheckOldDatabase(r) == r && CheckOldArtifacts(r) == r
    ensures CheckNewSet(r) == r && DropPair(r, from, to) == r
  {
  }

  lemma RestoreOldDatabase(r: Run, had: Had)
    requires Going(r, Towards(had, KeepsOld)) && r.disk.marker == Marker(r.memory) && RestoringOld(r.memory.phase)
    ensures var b := CheckOldDatabase(PutBack(r, OldDb, TargetDb, OldDatabaseRestored));
            Moves(r, b, Towards(had, KeepsOld), 0)
            && (b.status == Running ==>
                  b.disk.marker == Marker(b.memory) && RestoringOld(b.memory.phase) && !b.disk.Exists(OldDb))
  {
    if r.disk.Exists(OldDb) {
      OldDatabaseMayPut(r.disk, had);
    }
    PutBackMoves(r, OldDb, TargetDb, OldDatabaseRestored, Towards(had, KeepsOld));
  }

  lemma RestoreOldArtifacts(r: Run, had: Had)
    requires Going(r, Towards(had, KeepsOld)) && r.disk.marker == Marker(r.memory) && RestoringOld(r.memory.phase)
    requires !r.disk.Exists(OldDb)
    ensures var b := CheckOldArtifacts(PutBack(r, OldRoot, TargetRoot, OldArtifactsRestored));
            Moves(r, b, Towards(had, KeepsOld), 0)
            && (b.status == Running ==> OldUnderway(b.disk, had) && !b.disk.Exists(OldDb) && !b.disk.Exists(OldRoot))
  {
    if r.disk.Exists(OldRoot) {
      OldArtifactsMayPut(r.disk, had);
    }
    PutBackMoves(r, OldRoot, TargetRoot, OldArtifactsRestored, Towards(had, KeepsOld));
  }

  ghost predicate Underway(r: Run, had: Had) {
    Going(r, Towards(had, KeepsOld)) && r.disk.marker == Marker(r.memory) && RestoringOld(r.memory.phase)
  }

  lemma OldArtifactsEnd(r: Run, had: Had)
    requires Underway(r, had) && !r.disk.Exists(OldDb)
    ensures Ends(r, DropPair(CheckOldArtifacts(PutBack(r, OldRoot, TargetRoot, OldArtifactsRestored)), NewDb, NewRoot),
                 Towards(had, KeepsOld))
  {
    var next := CheckOldArtifacts(PutBack(r, OldRoot, TargetRoot, OldArtifactsRestored));
    RestoreOldArtifacts(r, had);
    if next.status == Running {
      OldMayEnd(next.disk, had);
      RemoveBothEnds(next, NewDb, NewRoot, Towards(had, KeepsOld));
    } else {
      StoppedRecovery(next, NewDb, NewRoot, Prepared);
    }
    EndsChain(r, next, DropPair(next, NewDb, NewRoot), Towards(had, KeepsOld));
  }

  lemma OldPairEnds(r: Run, had: Had)
    requires Underway(r, had)
    ensures Ends(r, RecoverOld(r), Towards(had, KeepsOld))
  {
    var next := CheckOldDatabase(PutBack(r, OldDb, TargetDb, OldDatabaseRestored));
    RestoreOldDatabase(r, had);
    if next.status == Running {
      OldArtifactsEnd(next, had);
    } else {
      StoppedRecovery(next, OldRoot, TargetRoot, OldArtifactsRestored);
      StoppedRecovery(next, NewDb, NewRoot, Prepared);
    }
    EndsChain(r, next, RecoverOld(r), Towards(had, KeepsOld));
  }

  ghost predicate MayTurnBack(r: Run, had: Had) {
    && Going(r, Towards(had, KeepsOld)) && r.disk.marker == Marker(r.memory) && !RestoringOld(r.memory.phase)
    && (r.memory.phase == MovingOld || (r.disk.Exists(OldDb) && r.disk.Exists(OldRoot)))
  }

  lemma TurningBackMoves(r: Run, next: Run, had: Had)
    requires MayTurnBack(r, had) && next == Mark(r, RecoveringOld)
    ensures Moves(r, next, Towards(had, KeepsOld), 0) && (next.status == Running ==> Underway(next, had))
  {
    MarkMoves(r, RecoveringOld, Towards(had, KeepsOld), 0);
  }

  /** Once its marker says that the old pair comes back, or failed to, the rest is the same. */
  lemma MarkedRecoverOld(r: Run, next: Run)
    requires !RestoringOld(r.memory.phase) && next == Mark(r, RecoveringOld)
    ensures next.status == Running ==> RecoverOld(r) == RecoverOld(next)
    ensures next.status != Running ==> RecoverOld(r) == next
  {
    if next.status != Running {
      StoppedRecovery(next, OldDb, TargetDb, OldDatabaseRestored);
      StoppedRecovery(next, OldRoot, TargetRoot, OldArtifactsRestored);
      StoppedRecovery(next, NewDb, NewRoot, Prepared);
    }
  }

  lemma RecoverOldEnds(r: Run, had: Had)
    requires Going(r, Towards(had, KeepsOld)) && r.disk.marker == Marker(r.memory)
    requires r.memory.phase == MovingOld || RestoringOld(r.memory.phase)
             || (r.disk.Exists(OldDb) && r.disk.Exists(OldRoot))
    ensures Ends(r, RecoverOld(r), Towards(had, KeepsOld))
  {
    if RestoringOld(r.memory.phase) {
      OldPairEnds(r, had);
    } else {
      var next := Mark(r, RecoveringOld);
      TurningBackMoves(r, next, had);
      MarkedRecoverOld(r, next);
      if next.status == Running {
        OldPairEnds(next, had);
      }
      EndsChain(r, next, RecoverOld(r), Towards(had, KeepsOld));
    }
  }

  // ----- Rolling forward to the new pair -----

  ghost predicate Forward(r: Run, had: Had) {
    Going(r, Towards(had, TakesNew)) && r.disk.marker == Marker(r.memory) && InstallingNew(r.memory.phase)
  }

  lemma NewDatabaseMayPut(d: Disk, had: Had)
    requires Inv(d, had) && d.marker.Marker? && InstallingNew(d.marker.record.phase) && d.Exists(NewDb)
    ensures MayPut(d, NewDb, TargetDb, Record(NewDatabaseInstalled, had), Towards(had, TakesNew))
  {
  }

  lemma NewArtifactsMayPut(d: Disk, had: Had)
    requires Inv(d, had) && d.marker.Marker? && InstallingNew(d.marker.record.phase)
    requires !d.Exists(NewDb) && d.Exists(NewRoot)
    ensures MayPut(d, NewRoot, TargetRoot, Record(NewArtifactsInstalled, had), Towards(had, TakesNew))
  {
  }

  lemma NewMayEnd(d: Disk, had: Had)
    requires Inv(d, had) && d.marker.Marker? && InstallingNew(d.marker.record.phase)
    requires !d.Exists(NewDb) && !d.Exists(NewRoot)
    ensures MayEnd(d, OldDb, OldRoot, Towards(had, TakesNew))
  {
  }

  lemma NewArtifactsEnd(r: Run, had: Had)
    requires Forward(r, had) && !r.disk.Exists(NewDb)
    ensures Ends(r, DropPair(CheckNewSet(PutBack(r, NewRoot, TargetRoot, NewArtifactsInstalled)), OldDb, OldRoot),
                 Towards(had, TakesNew))
  {
    var next := CheckNewSet(PutBack(r, NewRoot, TargetRoot, NewArtifactsInstalled));
    if r.disk.Exists(NewRoot) {
      NewArtifactsMayPut(r.disk, had);
    }
    PutBackMoves(r, NewRoot, TargetRoot, NewArtifactsInstalled, Towards(had, TakesNew));
    if next.status == Running {
      NewMayEnd(next.disk, had);
      RemoveBothEnds(next, OldDb, OldRoot, Towards(had, TakesNew));
    } else {
      StoppedRecovery(next, OldDb, OldRoot, Prepared);
    }
    EndsChain(r, next, DropPair(next, OldDb, OldRoot), Towards(had, TakesNew));
  }

  lemma NewPairEnds(r: Run, had: Had)
    requires Forward(r, had)
    ensures Ends(r, RecoverNew(r), Towards(had, TakesNew))
  {
    var next := PutBack(r, NewDb, TargetDb, NewDatabaseInstalled);
    if r.disk.Exists(NewDb) {
      NewDatabaseMayPut(r.disk, had);
    }
    PutBackMoves(r, NewDb, TargetDb, NewDatabaseInstalled, Towards(had, TakesNew));
    if next.status == Running {
      NewArtifactsEnd(next, had);
    } else {
      StoppedRecovery(next, NewRoot, TargetRoot, NewArtifactsInstalled);
      StoppedRecovery(next, OldDb, OldRoot, Prepared);
    }
    EndsChain(r, next, RecoverNew(r), Towards(had, TakesNew));
  }

  lemma RecoverNewEnds(r: Run, had: Had)
    requires Going(r, Towards(had, TakesNew)) && r.disk.marker == Marker(r.memory)
    requires InstallingNew(r.memory.phase)
             || (!r.disk.Exists(TargetDb) && !r.disk.Exists(TargetRoot) && r.disk.Exists(NewDb)
                 && r.disk.Exists(NewRoot)
                 && !r.disk.Exists(OldDb) && !r.disk.Exists(OldRoot))
    ensures Ends(r, RecoverNew(r), Towards(had, TakesNew))
  {
    if InstallingNew(r.memory.phase) {
      NewPairEnds(r, had);
    } else {
      var next := Mark(r, RecoveringNew);
      MarkMoves(r, RecoveringNew, Towards(had, TakesNew), 0);
      if next.status == Running {
        NewPairEnds(next, had);
      } else {
        StoppedRecovery(next, NewDb, TargetDb, NewDatabaseInstalled);
        StoppedRecovery(next, NewRoot, TargetRoot, NewArtifactsInstalled);
        StoppedRecovery(next, OldDb, OldRoot, Prepared);
      }
      EndsChain(r, next, RecoverNew(r), Towards(had, TakesNew));
    }
  }

  // ----- Nothing left to move: only side paths to drop -----

  ghost predicate Tidies(d: Disk) {
    d.marker.Marker? && d.Exists(TargetDb) && d.Exists(TargetRoot)
    && (d.marker.record.phase in {Committed, ArtifactsInstalled}
        || (!d.Exists(OldDb) && !d.Exists(OldRoot)
            && d.marker.record.phase in {Prepared, OldMoved, InstallingDatabase, DatabaseInstalled,
                                         InstallingArtifacts}))
  }

  lemma TidyFate(d: Disk, had: Had)
    requires Inv(d, had) && Tidies(d)
    ensures FateOf(d, had) == if d.targetDb == Whole(New) then TakesNew else KeepsOld
    ensures d.targetDb == Whole(New) ==> d.newDb.Absent? && d.newRoot.Absent? && NewSet(d)
    ensures d.targetDb != Whole(New) ==> had == Had(true, true) && d.marker.record.phase == Prepared
  {
  }

  lemma TidyDropsOldDatabase(d: Disk, had: Had)
    requires Inv(d, had) && Tidies(d)
    ensures MayLose(d, OldDb, Towards(had, FateOf(d, had)))
    ensures Tidies(d.Put(OldDb, Absent))
  {
    TidyFate(d, had);
  }

  lemma TidyDropsOldRoot(d: Disk, had: Had)
    requires Inv(d, had) && Tidies(d)
    ensures MayLose(d, OldRoot, Towards(had, FateOf(d, had)))
    ensures Tidies(d.Put(OldRoot, Absent))
  {
    TidyFate(d, had);
  }

  lemma TidyMayEnd(d: Disk, had: Had)
    requires Inv(d, had) && Tidies(d) && !d.Exists(OldDb) && !d.Exists(OldRoot)
    ensures MayEnd(d, NewDb, NewRoot, Towards(had, FateOf(d, had)))
  {
    TidyFate(d, had);
  }

  lemma TidyGuarded(r: Run, g: Guard)
    requires Going(r, g)
    requires var d1 := r.disk.Put(OldDb, Absent);
             var d2 := d1.Put(OldRoot, Absent);
             MayLose(r.disk, OldDb, g) && MayLose(d1, OldRoot, g) && MayEnd(d2, NewDb, NewRoot, g)
    ensures Ends(r, Tidy(r), g)
  {
    var r1 := Remove(r, OldDb);
    var r2 := Remove(r1, OldRoot);
    RemoveMoves(r, OldDb, g);
    if r1.status == Running {
      RemoveMoves(r1, OldRoot, g);
      if r2.status == Running {
        RemoveBothEnds(r2, NewDb, NewRoot, g);
      } else {
        StoppedRecovery(r2, NewDb, NewRoot, Prepared);
      }
      EndsChain(r1, r2, Tidy(r), g);
    } else {
      StoppedStays(r1, OldDb, OldRoot, Prepared);
      StoppedRecovery(r1, NewDb, NewRoot, Prepared);
    }
    EndsChain(r, r1, Tidy(r), g);
  }

  lemma TidyEnds(r: Run, had: Had)
    requires r.status == Running && !r.due.FaultAfter? && Inv(r.disk, had) && Tidies(r.disk)
    ensures Ends(r, Tidy(r), Towards(had, FateOf(r.disk, had)))
  {
    var d1 := r.disk.Put(OldDb, Absent);
    TidyDropsOldDatabase(r.disk, had);
    TidyDropsOldRoot(d1, had);
    TidyMayEnd(d1.Put(OldRoot, Absent), had);
    TidyGuarded(r, Towards(had, FateOf(r.disk, had)));
  }

  // ----- A fault stops a recovery where a crash would -----

  /** The same point of the same work, once with a fault and once with a crash ahead. */
  ghost predicate Twins(a: Run, b: Run) {
    && a.disk == b.disk && a.memory == b.memory
    && ((a.status == b.status == Running && a.due.FaultAfter? && b.due == CrashAfter(a.due.steps))
        || (a.status == Failed(OperationFailed) && b.status == Crashed)
        || (a.status == b.status && a.status.Failed?))
  }

  lemma TwinsRemove(a: Run, b: Run, p: Path)
    requires Twins(a, b)
    ensures Twins(Remove(a, p), Remove(b, p))
  {
  }

  lemma TwinsRename(a: Run, b: Run, from: Path, to: Path)
    requires Twins(a, b)
    ensures Twins(Rename(a, from, to), Rename(b, from, to))
  {
  }

  lemma TwinsMark(a: Run, b: Run, phase: Phase)
    requires Twins(a, b)
    ensures Twins(Mark(a, phase), Mark(b, phase))
  {
  }

  lemma TwinsDropPair(a: Run, b: Run, p: Path, q: Path)
    requires Twins(a, b)
    ensures Twins(DropPair(a, p, q), DropPair(b, p, q))
  {
    TwinsRemove(a, b, p);
    TwinsRemove(Remove(a, p), Remove(b, p), q);
  }

  lemma TwinsPutBack(a: Run, b: Run, from: Path, to: Path, done: Phase)
    requires Twins(a, b)
    ensures Twins(PutBack(a, from, to, done), PutBack(b, from, to, done))
  {
    TwinsRemove(a, b, to);
    TwinsRename(Remove(a, to), Remove(b, to), from, to);
    TwinsMark(Rename(Remove(a, to), from, to), Rename(Remove(b, to), from, to), done);
  }

  lemma TwinsRecoverOld(a: Run, b: Run)
    requires Twins(a, b)
    ensures Twins(RecoverOld(a), RecoverOld(b))
  {
    TwinsMark(a, b, RecoveringOld);
    var restoring := RestoringOld(a.memory.phase);
    var a0, b0 := if restoring then a else Mark(a, RecoveringOld), if restoring then b else Mark(b, RecoveringOld);
    TwinsPutBack(a0, b0, OldDb, TargetDb, OldDatabaseRestored);
    var a1 := CheckOldDatabase(PutBack(a0, OldDb, TargetDb, OldDatabaseRestored));
    var b1 := CheckOldDatabase(PutBack(b0, OldDb, TargetDb, OldDatabaseRestored));
    TwinsPutBack(a1, b1, OldRoot, TargetRoot, OldArtifactsRestored);
    var a2 := CheckOldArtifacts(PutBack(a1, OldRoot, TargetRoot, OldArtifactsRestored));
    var b2 := CheckOldArtifacts(PutBack(b1, OldRoot, TargetRoot, OldArtifactsRestored));
    TwinsDropPair(a2, b2, NewDb, NewRoot);
  }

  lemma TwinsRecoverNew(a: Run, b: Run)
    requires Twins(a, b)
    ensures Twins(RecoverNew(a), RecoverNew(b))
  {
    TwinsMark(a, b, RecoveringNew);
    var installing := InstallingNew(a.memory.phase);
    var a0, b0 := if installing then a else Mark(a, RecoveringNew), if installing then b else Mark(b, RecoveringNew);
    TwinsPutBack(a0, b0, NewDb, TargetDb, NewDatabaseInstalled);
    var a1 := PutBack(a0, NewDb, TargetDb, NewDatabaseInstalled);
    var b1 := PutBack(b0, NewDb, TargetDb, NewDatabaseInstalled);
    TwinsPutBack(a1, b1, NewRoot, TargetRoot, NewArtifactsInstalled);
    var a2 := CheckNewSet(PutBack(a1, NewRoot, TargetRoot, NewArtifactsInstalled));
    var b2 := CheckNewSet(PutBack(b1, NewRoot, TargetRoot, NewArtifactsInstalled));
    TwinsDropPair(a2, b2, OldDb, OldRoot);
  }

  lemma TwinsTidy(a: Run, b: Run)
    requires Twins(a, b)
    ensures Twins(Tidy(a), Tidy(b))
  {
    TwinsRemove(a, b, OldDb);
    TwinsRemove(Remove(a, OldDb), Remove(b, OldDb), OldRoot);
    TwinsDropPair(Remove(Remove(a, OldDb), OldRoot), Remove(Remove(b, OldDb), OldRoot), NewDb, NewRoot);
  }

  /** An operation that fails in a recovery leaves the disk that a crash in its place would leave. */
  lemma FaultLikeCrash(d: Disk, n: nat)
    ensures Twins(Recover(d, FaultAfter(n)), Recover(d, CrashAfter(n)))
  {
    if d.marker.Marker? {
      var a, b := Run(d, d.marker.record, FaultAfter(n), Running), Run(d, d.marker.record, CrashAfter(n), Running);
      TwinsRecoverOld(a, b);
      TwinsRecoverNew(a, b);
      TwinsTidy(a, b);
    }
  }

  // ----- One recovery -----

  /** Stopped on the way, by a crash or by an operation that failed. */
  predicate Stopped(s: Status) {
    s == Crashed || s == Failed(OperationFailed)
  }

  /** The disk changes before the interruption. */
  function StepsOf(due: Interruption): nat {
    if due.Never? then 0 else due.steps
  }

  /** The result of one recovery, cut short or not, from any reachable state. */
  ghost predicate Recovered(d: Disk, had: Had, due: Interruption, r: Run) {
    && Inv(r.disk, had)
    && FateOf(r.disk, had) == FateOf(d, had)
    && (r.status == Crashed ==> due.CrashAfter?)
    && (r.status == Failed(OperationFailed) ==> due.FaultAfter?)
    && (Stopped(r.status) ==> Rank(r.disk, had) + StepsOf(due) <= Rank(d, had))
    && (r.status == Running ==> r.disk.marker.NoMarker?)
    && (r.disk.marker.NoMarker? ==> NothingAside(r.disk) || r.disk == d)
    && (r.status.Failed? && r.status != Failed(OperationFailed) <==> FateOf(d, had) == Refuses)
    && (FateOf(d, had) == Refuses ==> r.status == Failed(NoCompleteSet) && r.disk == d)
  }

  lemma EndsRecovered(r: Run, b: Run, had: Had)
    requires r.status == Running && Inv(r.disk, had) && !r.due.FaultAfter? && FateOf(r.disk, had) != Refuses
    requires Ends(r, b, Towards(had, FateOf(r.disk, had)))
    ensures Recovered(r.disk, had, r.due, b)
  {
  }

  /** Which branch of the recovery each fate takes. */
  lemma BranchTaken(d: Disk, had: Had)
    requires Inv(d, had) && d.marker.Marker?
    requires !(d.marker.record.phase == MovingOld || RestoringOld(d.marker.record.phase)
               || InstallingNew(d.marker.record.phase))
    ensures d.marker.record.phase == Committed ==> Tidies(d)
    ensures !Tidies(d) && d.Exists(OldDb) && d.Exists(OldRoot) ==> FateOf(d, had) == KeepsOld
    ensures !Tidies(d) && !(d.Exists(OldDb) && d.Exists(OldRoot)) ==>
              FateOf(d, had) == (if d.Exists(NewDb) && d.Exists(NewRoot) && !d.Exists(TargetDb) && !d.Exists(TargetRoot)
                                    && !d.Exists(OldDb) && !d.Exists(OldRoot) then TakesNew else Refuses)
  {
  }

  /** The recovery from a marker that does not name a branch by itself. */
  lemma ChosenRecovery(r: Run, had: Had)
    requires Inv(r.disk, had) && r.status == Running && !r.due.FaultAfter? && r.disk.marker == Marker(r.memory)
    requires !(r.memory.phase == MovingOld || RestoringOld(r.memory.phase) || InstallingNew(r.memory.phase))
    ensures Recovered(r.disk, had, r.due, RecoverMarker(r))
  {
    var d := r.disk;
    BranchTaken(d, had);
    if Tidies(d) {
      TidyEnds(r, had);
      TidyFate(d, had);
      EndsRecovered(r, Tidy(r), had);
    } else if d.Exists(OldDb) && d.Exists(OldRoot) {
      RecoverOldEnds(r, had);
      EndsRecovered(r, RecoverOld(r), had);
    } else if FateOf(d, had) == TakesNew {
      RecoverNewEnds(r, had);
      EndsRecovered(r, RecoverNew(r), had);
    }
  }

  lemma CrashedRecovery(d: Disk, had: Had, due: Interruption)
    requires Inv(d, had) && !due.FaultAfter?
    ensures Recovered(d, had, due, Recover(d, due))
  {
    if d.marker.Marker? {
      var r := Run(d, d.marker.record, due, Running);
      var phase := r.memory.phase;
      if phase == MovingOld || RestoringOld(phase) {
        RecoverOldEnds(r, had);
        EndsRecovered(r, RecoverOld(r), had);
      } else if InstallingNew(phase) {
        RecoverNewEnds(r, had);
        EndsRecovered(r, RecoverNew(r), had);
      } else {
        ChosenRecovery(r, had);
      }
    }
  }

  /** One recovery from any reachable state, cut by a crash, by a failing operation or not at all. */
  lemma OneRecovery(d: Disk, had: Had, due: Interruption)
    requires Inv(d, had)
    ensures Recovered(d, had, due, Recover(d, due))
  {
    if due.FaultAfter? {
      CrashedRecovery(d, had, CrashAfter(due.steps));
      FaultLikeCrash(d, due.steps);
    } else {
      CrashedRecovery(d, had, due);
    }
  }
}
