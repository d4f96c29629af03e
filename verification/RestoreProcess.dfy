/** The restore code itself: a process that changes the disk one operation at a time, keeps its own
    copy of the marker, and can die or see one operation fail. */
module RestoreProcess {
  import opened RestoreSwap
  import opened RestoreProofs
  import opened RestoreInstallProofs
  import opened RestoreTheorems

  class Process {
    var disk: Disk
    var memory: Record
    var due: Interruption
    var status: Status

    ghost function State(): Run
      reads this
    {
      Run(disk, memory, due, status)
    }

    constructor (disk: Disk, due: Interruption)
      ensures State() == Run(disk, Record(Prepared, Had(false, false)), due, Running)
    {
      this.disk, this.due := disk, due;
      memory := Record(Prepared, Had(false, false));
      status := Running;
    }

    /** One atomic change of the disk. */
    method Change(next: Disk) returns (ok: bool)
      requires status == Running
      modifies this
      ensures State() == Step(old(State()), next)
      ensures ok <==> status == Running
    {
      match due {
        case Never =>
          disk := next;
        case CrashAfter(n) =>
          if n == 0 {
            status := Crashed;
          } else {
            disk, due := next, CrashAfter(n - 1);
          }
        case FaultAfter(n) =>
          if n == 0 {
            status, due := Failed(OperationFailed), Never;
          } else {
            disk, due := next, FaultAfter(n - 1);
          }
      }
      ok := status == Running;
    }

    method RenamePath(from: Path, to: Path) returns (ok: bool)
      requires status == Running
      modifies this
      ensures State() == Rename(old(State()), from, to)
      ensures ok <==> status == Running
    {
      if !disk.Exists(from) || (from.Directory() && disk.Exists(to)) {
        status := Failed(OperationFailed);
        return false;
      }
      ok := Change(disk.Put(to, disk.At(from)).Put(from, Absent));
    }

    method RemovePath(p: Path) returns (ok: bool)
      requires status == Running
      modifies this
      ensures State() == Remove(old(State()), p)
      ensures ok <==> status == Running
    {
      ok := true;
      if p.Directory() && disk.At(p).Whole? {
        ok := Change(disk.Put(p, Torn(disk.At(p).side)));
      }
      if ok && disk.Exists(p) {
        ok := Change(disk.Put(p, Absent));
      }
    }

    method UpdateMarker(phase: Phase) returns (ok: bool)
      requires status == Running
      modifies this
      ensures State() == Mark(old(State()), phase)
      ensures ok <==> status == Running
    {
      memory := memory.(phase := phase);
      ok := Change(disk.(marker := Marker(memory)));
    }

    method SyncDirectory() returns (ok: bool)
      requires status == Running
      modifies this
      ensures State() == Sync(old(State()))
      ensures ok <==> status == Running
    {
      ok := Change(disk);
    }

    method DeleteMarker() returns (ok: bool)
      requires status == Running
      modifies this
      ensures State() == RemoveMarker(old(State()))
      ensures ok <==> status == Running
    {
      if disk.marker.Marker? {
        ok := Change(disk.(marker := NoMarker));
        if !ok {
          return;
        }
      }
      ok := SyncDirectory();
    }

    method RemovePair(database: Path, artifacts: Path) returns (ok: bool)
      requires status == Running
      modifies this
      ensures State() == DropPair(old(State()), database, artifacts)
      ensures ok <==> status == Running
    {
      ok := RemovePath(database);
      if !ok {
        return;
      }
      ok := RemovePath(artifacts);
      if !ok {
        return;
      }
      ok := DeleteMarker();
    }

    // ----- Install -----

    method MoveOld(force: bool) returns (ok: bool)
      requires status == Running
      modifies this
      ensures State() == MoveOldAside(old(State()), force)
      ensures ok <==> status == Running
    {
      var had := memory.had;
      ok := true;
      if force && (had.database || had.artifacts) {
        ok := UpdateMarker(MovingOld);
      }
      if ok && force && had.database {
        ok := RenamePath(TargetDb, OldDb);
      }
      if ok && force && had.artifacts {
        ok := RenamePath(TargetRoot, OldRoot);
      }
    }

    method SwapInDatabase() returns (ok: bool)
      requires status == Running
      modifies this
      ensures State() == PlaceDatabase(old(State()))
      ensures ok <==> status == Running
    {
      ok := UpdateMarker(OldMoved);
      if !ok {
        return;
      }
      ok := UpdateMarker(InstallingDatabase);
      if !ok {
        return;
      }
      ok := RenamePath(NewDb, TargetDb);
    }

    method SwapInArtifacts() returns (ok: bool)
      requires status == Running
      modifies this
      ensures State() == InstallArtifacts(old(State()))
      ensures ok <==> status == Running
    {
      ok := RenamePath(NewRoot, TargetRoot);
      if !ok {
        return;
      }
      ok := UpdateMarker(ArtifactsInstalled);
      if !ok {
        return;
      }
      ok := SyncDirectory();
      if !ok {
        return;
      }
      ok := SyncDirectory();
      if !ok {
        return;
      }
      ok := UpdateMarker(Committed);
    }

    method SwapPairs(force: bool) returns (ok: bool)
      requires status == Running
      modifies this
      ensures State() == Swap(old(State()), force)
      ensures ok <==> status == Running
    {
      ok := MoveOld(force);
      if !ok {
        return;
      }
      ok := SwapInDatabase();
      if !ok {
        return;
      }
      ok := UpdateMarker(DatabaseInstalled);
      if !ok {
        return;
      }
      ok := UpdateMarker(InstallingArtifacts);
      if !ok {
        return;
      }
      ok := SwapInArtifacts();
    }

    method RollbackRestoreSet() returns (ok: bool)
      requires status == Running
      modifies this
      ensures State() == Rollback(old(State()))
      ensures ok <==> status == Running
    {
      ok := true;
      if InstalledPhase(memory.phase) {
        ok := RemovePath(TargetDb);
        if ok {
          ok := RemovePath(TargetRoot);
        }
      }
      if ok && memory.had.database && disk.Exists(OldDb) {
        ok := RenamePath(OldDb, TargetDb);
      }
      if ok && memory.had.artifacts && disk.Exists(OldRoot) {
        ok := RenamePath(OldRoot, TargetRoot);
      }
      if ok {
        ok := RemovePair(NewDb, NewRoot);
      }
    }

    method InstallRestoreSet(force: bool) returns (ok: bool)
      requires status == Running
      modifies this
      ensures State() == Install(old(State()), force)
      ensures ok <==> status == Running
    {
      var had := Had(disk.Exists(TargetDb), disk.Exists(TargetRoot));
      if !force && (had.database || had.artifacts) {
        status := Failed(TargetsExist);
        return false;
      }
      if disk.Exists(OldDb) || disk.Exists(OldRoot) || disk.marker.Marker? {
        status := Failed(SidePathExists);
        return false;
      }
      memory := Record(Prepared, had);
      ok := UpdateMarker(Prepared);
      if !ok {
        return;
      }
      ok := SwapPairs(force);
      if status.Failed? {
        var cause := status;
        status := Running;
        var undone := RollbackRestoreSet();
        if undone {
          status := cause;
        }
        return false;
      }
      if ok {
        ok := RemovePair(OldDb, OldRoot);
      }
    }

    // ----- Recovery -----

    method MoveBack(from: Path, to: Path, done: Phase) returns (ok: bool)
      requires status == Running
      modifies this
      ensures State() == PutBack(old(State()), from, to, done)
      ensures ok <==> status == Running
    {
      if !disk.Exists(from) {
        return true;
      }
      ghost var start := State();
      ok := RemovePath(to);
      if !ok {
        StoppedStays(State(), from, to, done);
        return;
      }
      ok := RenamePath(from, to);
      if !ok {
        StoppedStays(State(), from, to, done);
        return;
      }
      ok := UpdateMarker(done);
    }

    method RecoverOldRestorePair() returns (ok: bool)
      requires status == Running
      modifies this
      ensures State() == RecoverOld(old(State()))
      ensures ok <==> status == Running
    {
      ok := true;
      if !RestoringOld(memory.phase) {
        ok := UpdateMarker(RecoveringOld);
      }
      if !ok {
        return;
      }
      ok := MoveBack(OldDb, TargetDb, OldDatabaseRestored);
      if !ok {
        return;
      }
      if memory.had.database && !disk.Exists(TargetDb) {
        status := Failed(LostOldDatabase);
        return false;
      }
      ok := MoveBack(OldRoot, TargetRoot, OldArtifactsRestored);
      if !ok {
        return;
      }
      if memory.had.artifacts && !disk.Exists(TargetRoot) {
        status := Failed(LostOldArtifacts);
        return false;
      }
      ok := RemovePair(NewDb, NewRoot);
    }

    method RecoverNewRestorePair() returns (ok: bool)
      requires status == Running
      modifies this
      ensures State() == RecoverNew(old(State()))
      ensures ok <==> status == Running
    {
      ok := true;
      if !InstallingNew(memory.phase) {
        ok := UpdateMarker(RecoveringNew);
      }
      if !ok {
        return;
      }
      ok := MoveBack(NewDb, TargetDb, NewDatabaseInstalled);
      if !ok {
        return;
      }
      ok := MoveBack(NewRoot, TargetRoot, NewArtifactsInstalled);
      if !ok {
        return;
      }
      if !disk.Exists(TargetDb) || !disk.Exists(TargetRoot) {
        status := Failed(LostNewSet);
        return false;
      }
      ok := RemovePair(OldDb, OldRoot);
    }

    method TidySidePaths() returns (ok: bool)
      requires status == Running
      modifies this
      ensures State() == Tidy(old(State()))
      ensures ok <==> status == Running
    {
      ok := RemovePath(OldDb);
      if !ok {
        return;
      }
      ok := RemovePath(OldRoot);
      if !ok {
        return;
      }
      ok := RemovePair(NewDb, NewRoot);
    }

    method RecoverRestoreMarker() returns (ok: bool)
      requires status == Running
      modifies this
      ensures State() == RecoverMarker(old(State()))
      ensures ok <==> status == Running
    {
      var targetDb, targetRoot := disk.Exists(TargetDb), disk.Exists(TargetRoot);
      var oldDb, oldRoot := disk.Exists(OldDb), disk.Exists(OldRoot);
      var newDb, newRoot := disk.Exists(NewDb), disk.Exists(NewRoot);
      if memory.phase == MovingOld || RestoringOld(memory.phase) {
        ok := RecoverOldRestorePair();
      } else if InstallingNew(memory.phase) {
        ok := RecoverNewRestorePair();
      } else if memory.phase == Committed || (targetDb && targetRoot && !oldDb && !oldRoot) {
        ok := TidySidePaths();
      } else if memory.phase == ArtifactsInstalled && targetDb && targetRoot {
        ok := TidySidePaths();
      } else if oldDb && oldRoot {
        ok := RecoverOldRestorePair();
      } else if newDb && newRoot && !targetDb && !targetRoot && !oldDb && !oldRoot {
        ok := RecoverNewRestorePair();
      } else {
        status := Failed(NoCompleteSet);
        ok := false;
      }
    }

    /** The start of the application: read the marker and converge. */
    method RecoverRestore() returns (ok: bool)
      requires status == Running && memory == Record(Prepared, Had(false, false))
      modifies this
      ensures State() == Recover(old(disk), old(due))
      ensures ok <==> status == Running
    {
      match disk.marker {
        case NoMarker =>
          ok := true;
        case Marker(record) =>
          memory := record;
          ok := RecoverRestoreMarker();
      }
    }
  }

  lemma InstallForgetsMemory(r: Run, memory: Record, force: bool)
    ensures Install(r, force).disk == Install(r.(memory := memory), force).disk
  {
    var had := Had(r.disk.Exists(TargetDb), r.disk.Exists(TargetRoot));
    assert Mark(r.(memory := Record(Prepared, had)), Prepared)
           == Mark(r.(memory := memory).(memory := Record(Prepared, had)), Prepared);
  }

  method CrashingInstall(had: Had, force: bool, steps: nat) returns (disk: Disk)
    ensures disk == CrashedInstall(had, force, steps)
  {
    var installer := new Process(Initial(had), CrashAfter(steps));
    InstallForgetsMemory(installer.State(), Record(Prepared, had), force);
    var _ := installer.InstallRestoreSet(force);
    disk := installer.disk;
  }

  method CutRecoveriesInPlace(crashed: Disk, cuts: seq<Interruption>) returns (disk: Disk)
    ensures disk == CutRecoveries(crashed, cuts)
  {
    disk := crashed;
    for i := 0 to |cuts|
      invariant CutRecoveries(disk, cuts[i..]) == CutRecoveries(crashed, cuts)
    {
      var restarted := new Process(disk, cuts[i]);
      var _ := restarted.RecoverRestore();
      assert cuts[i..][1..] == cuts[i + 1..];
      disk := restarted.disk;
    }
  }

  /** A restore that dies after `steps` disk changes, then one start per cut, then one start that is left
      alone: it succeeds with one complete pair, or refuses without having changed a thing. */
  method RestoreThroughCrashes(had: Had, force: bool, steps: nat, cuts: seq<Interruption>)
    returns (ok: bool, disk: Disk)
    requires force || had == Had(false, false)
    ensures ok ==> disk.marker.NoMarker? && (OldSet(disk, had) || NewSet(disk))
    ensures !ok ==> disk == CrashedInstall(had, force, steps) && FateOf(disk, had) == Refuses
  {
    var crashed := CrashingInstall(had, force, steps);
    disk := CutRecoveriesInPlace(crashed, cuts);
    RestoreIsAtomic(had, force, steps, cuts, Never);
    InstallCrash(had, force, Record(Prepared, had), CrashAfter(steps));
    RecoveriesKeepFate(crashed, had, cuts);
    OneRecovery(disk, had, Never);
    var last := new Process(disk, Never);
    ok := last.RecoverRestore();
    disk := last.disk;
  }
}
