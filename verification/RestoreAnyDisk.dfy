/** Install and recovery on whatever disk they meet: when they refuse, and what an undisturbed recovery leaves. */
module RestoreAnyDisk {
  import opened RestoreSwap

  // ----- Install -----

  /** The statuses that operations lead to by themselves. */
  predicate Plain(s: Status) {
    s == Running || s == Crashed || s == Failed(OperationFailed)
  }

  lemma SwapIsPlain(r: Run, force: bool)
    requires Plain(r.status)
    ensures Plain(Swap(r, force).status)
  {
    MarksArePlain(MoveOldAside(r, force));
  }

  lemma MarksArePlain(r: Run)
    requires Plain(r.status)
    ensures Plain(InstallArtifacts(InstallDatabase(r)).status)
  {
    assert Plain(PlaceDatabase(r).status);
    assert Plain(InstallDatabase(r).status);
  }

  lemma DropIsPlain(r: Run, database: Path, artifacts: Path)
    requires Plain(r.status)
    ensures Plain(DropPair(r, database, artifacts).status)
  {
    assert Plain(Remove(r, database).status);
    assert Plain(Remove(Remove(r, database), artifacts).status);
  }

  lemma RollbackIsPlain(r: Run)
    requires Plain(r.status)
    ensures Plain(Rollback(r).status)
  {
    assert Plain(Remove(r, TargetDb).status);
    assert Plain(ClearTargets(r).status);
    assert Plain(MoveOldBack(ClearTargets(r)).status);
    DropIsPlain(MoveOldBack(ClearTargets(r)), NewDb, NewRoot);
  }

  /** What an install does once it was not refused. */
  function Proceeded(begun: Run, force: bool): Run {
    if begun.status != Running then begun
    else
      var swapped := Swap(begun, force);
      if swapped.status.Failed? then
        var undone := Rollback(swapped.(status := Running));
        if undone.status == Running then undone.(status := swapped.status) else undone
      else DropPair(swapped, OldDb, OldRoot)
  }

  lemma ProceededIsPlain(begun: Run, force: bool)
    requires Plain(begun.status)
    ensures Plain(Proceeded(begun, force).status)
  {
    SwapIsPlain(begun, force);
    var swapped := Swap(begun, force);
    RollbackIsPlain(swapped.(status := Running));
    DropIsPlain(swapped, OldDb, OldRoot);
  }

  /** An install is refused exactly when something is in place and it was not forced, or when an earlier restore has
      left its old pair or its marker; a refused install changes nothing. */
  lemma InstallRefusesExactly(d: Disk, memory: Record, due: Interruption, force: bool)
    ensures var r := Install(Run(d, memory, due, Running), force);
            var taken := !force && (d.targetDb != Absent || d.targetRoot != Absent);
            var unfinished := d.oldDb != Absent || d.oldRoot != Absent || d.marker != NoMarker;
            && (r.status == Failed(TargetsExist) <==> taken)
            && (r.status == Failed(SidePathExists) <==> !taken && unfinished)
            && (taken || unfinished ==> r.disk == d)
            && (!taken && !unfinished ==> Plain(r.status))
  {
    var had := Had(d.Exists(TargetDb), d.Exists(TargetRoot));
    ProceededIsPlain(Mark(Run(d, Record(Prepared, had), due, Running), Prepared), force);
  }

  // ----- Recovery -----

  datatype Way = GoBack | GoOn | CleanUp | GiveUp

  /** Which way a recovery takes: back to the old pair when that was under way, or both its halves are aside; on to the
      new one when that was under way, or only it is there; nothing but cleaning up when the new pair is in place. */
  function WayOf(d: Disk, phase: Phase): Way {
    match phase
    case MovingOld => GoBack
    case RecoveringOld => GoBack
    case OldDatabaseRestored => GoBack
    case OldArtifactsRestored => GoBack
    case RecoveringNew => GoOn
    case NewDatabaseInstalled => GoOn
    case NewArtifactsInstalled => GoOn
    case Committed => CleanUp
    case _ =>
      var aside, inPlace := d.oldDb != Absent || d.oldRoot != Absent, d.targetDb != Absent && d.targetRoot != Absent;
      if inPlace && (!aside || phase == ArtifactsInstalled) then CleanUp
      else if d.oldDb != Absent && d.oldRoot != Absent then GoBack
      else if d.newDb != Absent && d.newRoot != Absent && d.targetDb == Absent && d.targetRoot == Absent && !aside
      then GoOn
      else GiveUp
  }

  /** What is moved over the target, if it is there, else the target itself. */
  function Over(aside: Entry, target: Entry): Entry {
    if aside != Absent then aside else target
  }

  function Finished(database: Entry, artifacts: Entry): Disk {
    Disk(database, artifacts, Absent, Absent, Absent, Absent, NoMarker)
  }

  /** What an undisturbed recovery reports and, when it succeeds, the whole disk it leaves. */
  predicate RecoversAs(d: Disk, record: Record, r: Run) {
    var had := record.had;
    match WayOf(d, record.phase)
    case GoBack =>
      var database, artifacts := Over(d.oldDb, d.targetDb), Over(d.oldRoot, d.targetRoot);
      if had.database && database == Absent then r.status == Failed(LostOldDatabase)
      else if had.artifacts && artifacts == Absent then r.status == Failed(LostOldArtifacts)
      else r.status == Running && r.disk == Finished(database, artifacts)
    case GoOn =>
      var database, artifacts := Over(d.newDb, d.targetDb), Over(d.newRoot, d.targetRoot);
      if database == Absent || artifacts == Absent then r.status == Failed(LostNewSet)
      else r.status == Running && r.disk == Finished(database, artifacts)
    case CleanUp => r.status == Running && r.disk == Finished(d.targetDb, d.targetRoot)
    case GiveUp => r.status == Failed(NoCompleteSet) && r.disk == d
  }

  /** A run that nothing interrupts. */
  predicate Free(r: Run) {
    r.status == Running && r.due == Never
  }

  lemma RemovedFreely(r: Run, p: Path)
    requires Free(r)
    ensures Remove(r, p) == r.(disk := r.disk.Put(p, Absent))
  {
  }

  lemma MovedFreely(r: Run, from: Path, to: Path)
    requires Free(r) && from != to && r.disk.At(from) != Absent && r.disk.At(to) == Absent
    ensures Rename(r, from, to) == r.(disk := r.disk.Put(to, r.disk.At(from)).Put(from, Absent))
  {
  }

  lemma PutBackFreely(r: Run, from: Path, to: Path, done: Phase)
    requires Free(r) && (to == TargetDb || to == TargetRoot)
    requires to.TargetDb? ==> from in {OldDb, NewDb}
    requires to.TargetRoot? ==> from in {OldRoot, NewRoot}
    ensures var n := PutBack(r, from, to, done);
            && Free(n) && n.memory.had == r.memory.had
            && n.disk.(marker := r.disk.marker)
               == r.disk.Put(to, Over(r.disk.At(from), r.disk.At(to))).Put(from, Absent)
            && (r.disk.marker != NoMarker ==> n.disk.marker != NoMarker)
  {
    if r.disk.Exists(from) {
      RemovedFreely(r, to);
      var cleared := r.(disk := r.disk.Put(to, Absent));
      MovedFreely(cleared, from, to);
    }
  }

  lemma DroppedFreely(r: Run, database: Path, artifacts: Path)
    requires Free(r)
    ensures DropPair(r, database, artifacts)
            == r.(disk := r.disk.Put(database, Absent).Put(artifacts, Absent).(marker := NoMarker))
  {
    RemovedFreely(r, database);
    RemovedFreely(Remove(r, database), artifacts);
  }

  lemma BackFreely(d: Disk, record: Record, r: Run)
    requires d.marker == Marker(record) && r == RecoverOld(Run(d, record, Never, Running))
    requires WayOf(d, record.phase) == GoBack
    ensures RecoversAs(d, record, r)
  {
    var run := Run(d, record, Never, Running);
    var r0 := if RestoringOld(record.phase) then run else Mark(run, RecoveringOld);
    PutBackFreely(r0, OldDb, TargetDb, OldDatabaseRestored);
    var r1 := CheckOldDatabase(PutBack(r0, OldDb, TargetDb, OldDatabaseRestored));
    if r1.status == Running {
      PutBackFreely(r1, OldRoot, TargetRoot, OldArtifactsRestored);
      var r2 := CheckOldArtifacts(PutBack(r1, OldRoot, TargetRoot, OldArtifactsRestored));
      if r2.status == Running {
        DroppedFreely(r2, NewDb, NewRoot);
      }
    }
  }

  lemma OnFreely(d: Disk, record: Record, r: Run)
    requires d.marker == Marker(record) && r == RecoverNew(Run(d, record, Never, Running))
    requires WayOf(d, record.phase) == GoOn
    ensures RecoversAs(d, record, r)
  {
    var run := Run(d, record, Never, Running);
    var r0 := if InstallingNew(record.phase) then run else Mark(run, RecoveringNew);
    PutBackFreely(r0, NewDb, TargetDb, NewDatabaseInstalled);
    var r1 := PutBack(r0, NewDb, TargetDb, NewDatabaseInstalled);
    PutBackFreely(r1, NewRoot, TargetRoot, NewArtifactsInstalled);
    var r2 := CheckNewSet(PutBack(r1, NewRoot, TargetRoot, NewArtifactsInstalled));
    if r2.status == Running {
      DroppedFreely(r2, OldDb, OldRoot);
    }
  }

  lemma TidiedFreely(d: Disk, record: Record, r: Run)
    requires r == Tidy(Run(d, record, Never, Running))
    ensures r.status == Running && r.disk == Finished(d.targetDb, d.targetRoot)
  {
    var run := Run(d, record, Never, Running);
    RemovedFreely(run, OldDb);
    RemovedFreely(Remove(run, OldDb), OldRoot);
    DroppedFreely(Remove(Remove(run, OldDb), OldRoot), NewDb, NewRoot);
  }

  /** From any disk with a marker, also one that no install ever leaves: what the recovery reports, and that a success
      leaves the pair it promised, whole halves or not, and nothing else. */
  lemma RecoveryIsExact(d: Disk, record: Record)
    requires d.marker == Marker(record)
    ensures RecoversAs(d, record, Recover(d, Never))
  {
    var r := Recover(d, Never);
    match WayOf(d, record.phase)
    case GoBack => BackFreely(d, record, r);
    case GoOn => OnFreely(d, record, r);
    case CleanUp => TidiedFreely(d, record, r);
    case GiveUp =>
  }
}
