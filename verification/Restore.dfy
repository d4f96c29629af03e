/** The crash-safe restore swap: an install that replaces a database file and an artifact
    directory, the rollback of a failed install, and the recovery that runs at the next start.

    A disk holds six paths and the durable marker. Every atomic change of the disk is one
    `Step`, and a run is interrupted after a chosen number of steps: by a crash, or by one
    operation that reports an error and has no effect. */
module RestoreSwap {
  datatype Side = Old | New

  /** What lies at a path. A directory whose removal was cut short is `Torn`. */
  datatype Entry = Absent | Whole(side: Side) | Torn(side: Side)

  datatype Phase =
    | Prepared | MovingOld | OldMoved | InstallingDatabase | DatabaseInstalled
    | InstallingArtifacts | ArtifactsInstalled | Committed
    | RecoveringOld | OldDatabaseRestored | OldArtifactsRestored
    | RecoveringNew | NewDatabaseInstalled | NewArtifactsInstalled

  /** Which parts of the old pair existed when the install began. */
  datatype Had = Had(database: bool, artifacts: bool)

  /** The record that the marker file holds. */
  datatype Record = Record(phase: Phase, had: Had)

  datatype Marker = NoMarker | Marker(record: Record)

  datatype Path = TargetDb | TargetRoot | OldDb | OldRoot | NewDb | NewRoot {
    predicate Directory() {
      TargetRoot? || OldRoot? || NewRoot?
    }
  }

  datatype Disk = Disk(targetDb: Entry, targetRoot: Entry, oldDb: Entry, oldRoot: Entry,
                       newDb: Entry, newRoot: Entry, marker: Marker)
  {
    function At(p: Path): Entry {
      match p
      case TargetDb => targetDb
      case TargetRoot => targetRoot
      case OldDb => oldDb
      case OldRoot => oldRoot
      case NewDb => newDb
      case NewRoot => newRoot
    }

    function Put(p: Path, e: Entry): Disk {
      match p
      case TargetDb => this.(targetDb := e)
      case TargetRoot => this.(targetRoot := e)
      case OldDb => this.(oldDb := e)
      case OldRoot => this.(oldRoot := e)
      case NewDb => this.(newDb := e)
      case NewRoot => this.(newRoot := e)
    }

    predicate Exists(p: Path) {
      !At(p).Absent?
    }
  }

  /** When a run is cut short. A fault fires once; a crash ends the process. */
  datatype Interruption = Never | CrashAfter(steps: nat) | FaultAfter(steps: nat)

  datatype Error =
    | OperationFailed | TargetsExist | SidePathExists | NoCompleteSet
    | LostOldDatabase | LostOldArtifacts | LostNewSet

  datatype Status = Running | Crashed | Failed(error: Error)

  /** The disk, the in-memory copy of the marker, and how far the process got. */
  datatype Run = Run(disk: Disk, memory: Record, due: Interruption, status: Status)

  // ----- Atomic operations -----

  function Step(r: Run, next: Disk): Run {
    if r.status != Running then r else
    match r.due
    case Never => r.(disk := next)
    case CrashAfter(n) =>
      if n == 0 then r.(status := Crashed) else r.(disk := next, due := CrashAfter(n - 1))
    case FaultAfter(n) =>
      if n == 0 then r.(status := Failed(OperationFailed), due := Never)
      else r.(disk := next, due := FaultAfter(n - 1))
  }

  function Fail(r: Run, e: Error): Run {
    if r.status == Running then r.(status := Failed(e)) else r
  }

  /** A file replaces an existing file; a directory is not moved over an existing one. */
  function Rename(r: Run, from: Path, to: Path): Run {
    if !r.disk.Exists(from) || (from.Directory() && r.disk.Exists(to)) then Fail(r, OperationFailed)
    else Step(r, r.disk.Put(to, r.disk.At(from)).Put(from, Absent))
  }

  /** Removing a whole directory passes through a torn state. */
  function Remove(r: Run, p: Path): Run {
    match r.disk.At(p)
    case Absent => r
    case Torn(_) => Step(r, r.disk.Put(p, Absent))
    case Whole(side) =>
      if p.Directory() then
        var torn := Step(r, r.disk.Put(p, Torn(side)));
        Step(torn, torn.disk.Put(p, Absent))
      else Step(r, r.disk.Put(p, Absent))
  }

  /** The in-memory phase changes even when the write fails. */
  function Mark(r: Run, phase: Phase): Run {
    if r.status != Running then r
    else
      var record := r.memory.(phase := phase);
      Step(r.(memory := record), r.disk.(marker := Marker(record)))
  }

  /** Flushing a directory changes nothing but can fail. */
  function Sync(r: Run): Run {
    Step(r, r.disk)
  }

  function RemoveMarker(r: Run): Run {
    Sync(if r.disk.marker.NoMarker? then r else Step(r, r.disk.(marker := NoMarker)))
  }

  function DropPair(r: Run, database: Path, artifacts: Path): Run {
    RemoveMarker(Remove(Remove(r, database), artifacts))
  }

  // ----- Install and rollback -----

  predicate InstalledPhase(phase: Phase) {
    phase in {InstallingDatabase, DatabaseInstalled, InstallingArtifacts, ArtifactsInstalled, Committed}
  }

  function ClearTargets(r: Run): Run {
    if InstalledPhase(r.memory.phase) then Remove(Remove(r, TargetDb), TargetRoot) else r
  }

  function MoveOldBack(r: Run): Run {
    var r1 := if r.memory.had.database && r.disk.Exists(OldDb) then Rename(r, OldDb, TargetDb) else r;
    if r1.memory.had.artifacts && r1.disk.Exists(OldRoot) then Rename(r1, OldRoot, TargetRoot) else r1
  }

  function Rollback(r: Run): Run {
    DropPair(MoveOldBack(ClearTargets(r)), NewDb, NewRoot)
  }

  function MoveOldAside(r: Run, force: bool): Run {
    var had := r.memory.had;
    var r0 := if force && (had.database || had.artifacts) then Mark(r, MovingOld) else r;
    var r1 := if force && had.database then Rename(r0, TargetDb, OldDb) else r0;
    if force && had.artifacts then Rename(r1, TargetRoot, OldRoot) else r1
  }

  function PlaceDatabase(r: Run): Run {
    Rename(Mark(Mark(r, OldMoved), InstallingDatabase), NewDb, TargetDb)
  }

  function InstallDatabase(r: Run): Run {
    Mark(Mark(PlaceDatabase(r), DatabaseInstalled), InstallingArtifacts)
  }

  function InstallArtifacts(r: Run): Run {
    Mark(Sync(Sync(Mark(Rename(r, NewRoot, TargetRoot), ArtifactsInstalled))), Committed)
  }

  /** The moves up to and including the commit record. */
  function Swap(r: Run, force: bool): Run {
    InstallArtifacts(InstallDatabase(MoveOldAside(r, force)))
  }

  function Install(r: Run, force: bool): Run {
    var had := Had(r.disk.Exists(TargetDb), r.disk.Exists(TargetRoot));
    if !force && (had.database || had.artifacts) then Fail(r, TargetsExist)
    else if r.disk.Exists(OldDb) || r.disk.Exists(OldRoot) || r.disk.marker.Marker? then Fail(r, SidePathExists)
    else
      var begun := Mark(r.(memory := Record(Prepared, had)), Prepared);
      if begun.status != Running then begun
      else
        var swapped := Swap(begun, force);
        if swapped.status.Failed? then
          var undone := Rollback(swapped.(status := Running));
          if undone.status == Running then undone.(status := swapped.status) else undone
        else DropPair(swapped, OldDb, OldRoot)
  }

  // ----- Recovery -----

  predicate RestoringOld(phase: Phase) {
    phase in {RecoveringOld, OldDatabaseRestored, OldArtifactsRestored}
  }

  predicate InstallingNew(phase: Phase) {
    phase in {RecoveringNew, NewDatabaseInstalled, NewArtifactsInstalled}
  }

  /** Move `from` over `to`, then record that it is done. */
  function PutBack(r: Run, from: Path, to: Path, done: Phase): Run {
    if r.disk.Exists(from) then Mark(Rename(Remove(r, to), from, to), done) else r
  }

  /** Declare the old database lost when it should be in place and is not. */
  function CheckOldDatabase(r: Run): Run {
    if r.memory.had.database && !r.disk.Exists(TargetDb) then Fail(r, LostOldDatabase) else r
  }

  function CheckOldArtifacts(r: Run): Run {
    if r.memory.had.artifacts && !r.disk.Exists(TargetRoot) then Fail(r, LostOldArtifacts) else r
  }

  function CheckNewSet(r: Run): Run {
    if !r.disk.Exists(TargetDb) || !r.disk.Exists(TargetRoot) then Fail(r, LostNewSet) else r
  }

  function RecoverOld(r: Run): Run {
    var r0 := if RestoringOld(r.memory.phase) then r else Mark(r, RecoveringOld);
    var r1 := CheckOldDatabase(PutBack(r0, OldDb, TargetDb, OldDatabaseRestored));
    var r2 := CheckOldArtifacts(PutBack(r1, OldRoot, TargetRoot, OldArtifactsRestored));
    DropPair(r2, NewDb, NewRoot)
  }

  function RecoverNew(r: Run): Run {
    var r0 := if InstallingNew(r.memory.phase) then r else Mark(r, RecoveringNew);
    var r1 := PutBack(r0, NewDb, TargetDb, NewDatabaseInstalled);
    var r2 := CheckNewSet(PutBack(r1, NewRoot, TargetRoot, NewArtifactsInstalled));
    DropPair(r2, OldDb, OldRoot)
  }

  /** Drop every side path, then the marker. */
  function Tidy(r: Run): Run {
    DropPair(Remove(Remove(r, OldDb), OldRoot), NewDb, NewRoot)
  }

  function RecoverMarker(r: Run): Run {
    var d, phase := r.disk, r.memory.phase;
    var targets := d.Exists(TargetDb) && d.Exists(TargetRoot);
    if phase == MovingOld || RestoringOld(phase) then RecoverOld(r)
    else if InstallingNew(phase) then RecoverNew(r)
    else if phase == Committed || (targets && !d.Exists(OldDb) && !d.Exists(OldRoot)) then Tidy(r)
    else if phase == ArtifactsInstalled && targets then Tidy(r)
    else if d.Exists(OldDb) && d.Exists(OldRoot) then RecoverOld(r)
    else if d.Exists(NewDb) && d.Exists(NewRoot) && !d.Exists(TargetDb) && !d.Exists(TargetRoot)
         && !d.Exists(OldDb) && !d.Exists(OldRoot) then RecoverNew(r)
    else Fail(r, NoCompleteSet)
  }

  /** A start of the application: nothing to do without a marker. */
  function Recover(disk: Disk, due: Interruption): Run {
    match disk.marker
    case NoMarker => Run(disk, Record(Prepared, Had(false, false)), due, Running)
    case Marker(record) => RecoverMarker(Run(disk, record, due, Running))
  }
}
