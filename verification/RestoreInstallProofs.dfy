/** The install: every disk it can crash on, and the rollback of every single failed operation. */
module RestoreInstallProofs {
  import opened RestoreSwap
  import opened RestoreProofs

  /** What a rollback needs to find: the old pair at or beside its place, and nothing torn. */
  ghost predicate CanRollBack(d: Disk, memory: Record, had: Had) {
    && memory.had == had
    && (d.newDb.Absent? || d.newDb == Whole(New)) && (d.newRoot.Absent? || d.newRoot == Whole(New))
    && d.marker.Marker?
    && if InstalledPhase(memory.phase) then
         && OldAside(d, had)
         && (d.targetDb.Absent? || d.targetDb == Whole(New)) && (d.targetRoot.Absent? || d.targetRoot == Whole(New))
       else
         && (if had.database then AtOneOf(d.targetDb, d.oldDb, Old) else d.targetDb.Absent? && d.oldDb.Absent?)
         && (if had.artifacts then AtOneOf(d.targetRoot, d.oldRoot, Old) else d.targetRoot.Absent? && d.oldRoot.Absent?)
  }

  type Check = (Disk, Record) -> bool

  ghost predicate SwapOk(d: Disk, m: Record, had: Had) {
    Inv(d, had) && CanRollBack(d, m, had)
  }

  ghost function SwapState(had: Had): Check {
    (d: Disk, m: Record) => SwapOk(d, m, had)
  }

  /** Run `b` continues run `a` by `cost` steps, or was cut short within them on a checked disk. */
  ghost predicate Takes(a: Run, b: Run, ok: Check, cost: nat) {
    && ok(b.disk, b.memory)
    && b.memory.had == a.memory.had
    && match a.due
       case Never => b.status == Running && b.due == Never
       case CrashAfter(n) =>
         if cost <= n then b.status == Running && b.due == CrashAfter(n - cost) else b.status == Crashed
       case FaultAfter(n) =>
         if cost <= n then b.status == Running && b.due == FaultAfter(n - cost)
         else b.status == Failed(OperationFailed) && b.due == Never
  }

  lemma TakesChain(a: Run, b: Run, c: Run, ok: Check, first: nat, second: nat)
    requires Takes(a, b, ok, first)
    requires if b.status == Running then Takes(b, c, ok, second) else c == b
    ensures Takes(a, c, ok, first + second)
  {
  }

  lemma MarkTakes(r: Run, phase: Phase, ok: Check)
    requires r.status == Running
    requires var m := Record(phase, r.memory.had); ok(r.disk, m) && ok(r.disk.(marker := Marker(m)), m)
    ensures var b := Mark(r, phase);
            Takes(r, b, ok, 1)
            && (b.status == Running ==>
                  b.disk == r.disk.(marker := Marker(Record(phase, r.memory.had)))
                  && b.memory == Record(phase, r.memory.had))
  {
  }

  lemma RenameTakes(r: Run, from: Path, to: Path, ok: Check)
    requires r.status == Running && r.disk.Exists(from) && !r.disk.Exists(to)
    requires ok(r.disk, r.memory) && ok(Placed(r.disk, from, to), r.memory)
    ensures var b := Rename(r, from, to);
            Takes(r, b, ok, 1)
            && (b.status == Running ==> b.disk == Placed(r.disk, from, to) && b.memory == r.memory)
  {
  }

  lemma SyncTakes(r: Run, ok: Check)
    requires r.status == Running && ok(r.disk, r.memory)
    ensures Takes(r, Sync(r), ok, 1)
    ensures Sync(r).status == Running ==> Sync(r).disk == r.disk && Sync(r).memory == r.memory
  {
  }

  // ----- The stages of the swap -----

  ghost function Aside(had: Had, record: Record): Disk {
    Disk(Absent, Absent, Kept(had.database), Kept(had.artifacts), Whole(New), Whole(New), Marker(record))
  }

  ghost function MoveCost(had: Had): nat {
    (if had.database || had.artifacts then 1 else 0) + (if had.database then 1 else 0)
      + (if had.artifacts then 1 else 0)
  }

  ghost predicate Allowed(had: Had, force: bool) {
    force || had == Had(false, false)
  }

  lemma MarkSwaps(r: Run, phase: Phase, had: Had)
    requires r.status == Running && r.memory.had == had
    requires var m := Record(phase, had); SwapOk(r.disk, m, had) && SwapOk(r.disk.(marker := Marker(m)), m, had)
    ensures var b := Mark(r, phase);
            Takes(r, b, SwapState(had), 1)
            && (b.status == Running ==>
                  b.disk == r.disk.(marker := Marker(Record(phase, had))) && b.memory == Record(phase, had))
  {
    MarkTakes(r, phase, SwapState(had));
  }

  lemma RenameSwaps(r: Run, from: Path, to: Path, had: Had)
    requires r.status == Running && r.disk.Exists(from) && !r.disk.Exists(to)
    requires SwapOk(r.disk, r.memory, had) && SwapOk(Placed(r.disk, from, to), r.memory, had)
    ensures var b := Rename(r, from, to);
            Takes(r, b, SwapState(had), 1)
            && (b.status == Running ==> b.disk == Placed(r.disk, from, to) && b.memory == r.memory)
  {
    RenameTakes(r, from, to, SwapState(had));
  }

  /** The old database moves aside, if there is one. */
  lemma DatabaseAside(r: Run, had: Had, r0: Run, r1: Run)
    requires r.status == Running && r.memory == Record(Prepared, had) && had != Had(false, false)
    requires r.disk == Initial(had).(marker := Marker(r.memory)) && SwapOk(r.disk, r.memory, had)
    requires r0 == Mark(r, MovingOld) && r1 == if had.database then Rename(r0, TargetDb, OldDb) else r0
    ensures Takes(r, r1, SwapState(had), if had.database then 2 else 1)
    ensures r1.status == Running ==>
              && r1.memory == Record(MovingOld, had)
              && r1.disk == Disk(Absent, Kept(had.artifacts), Kept(had.database), Absent, Whole(New), Whole(New),
                                 Marker(r1.memory))
  {
    MarkSwaps(r, MovingOld, had);
    if r0.status == Running && had.database {
      RenameSwaps(r0, TargetDb, OldDb, had);
    }
    TakesChain(r, r0, r1, SwapState(had), 1, if had.database then 1 else 0);
  }

  lemma MoveOldAsideTakes(r: Run, had: Had, force: bool)
    requires Allowed(had, force) && r.status == Running && r.memory == Record(Prepared, had)
    requires r.disk == Initial(had).(marker := Marker(r.memory))
    ensures var b := MoveOldAside(r, force);
            Takes(r, b, SwapState(had), MoveCost(had))
            && (b.status == Running ==> b.disk == Aside(had, b.memory) && b.memory.had == had)
  {
    assert SwapOk(r.disk, r.memory, had);
    if had.database || had.artifacts {
      var r0 := Mark(r, MovingOld);
      var r1 := if had.database then Rename(r0, TargetDb, OldDb) else r0;
      DatabaseAside(r, had, r0, r1);
      var r2 := if had.artifacts then Rename(r1, TargetRoot, OldRoot) else r1;
      if r1.status == Running && had.artifacts {
        RenameSwaps(r1, TargetRoot, OldRoot, had);
      }
      TakesChain(r, r1, r2, SwapState(had), if had.database then 2 else 1, if had.artifacts then 1 else 0);
    }
  }

  lemma PlaceDatabaseTakes(r: Run, had: Had)
    requires r.status == Running && r.memory.had == had && r.disk == Aside(had, r.memory)
    requires SwapOk(r.disk, r.memory, had)
    ensures var b := PlaceDatabase(r);
            Takes(r, b, SwapState(had), 3)
            && (b.status == Running ==>
                  b.memory == Record(InstallingDatabase, had)
                  && b.disk == Aside(had, b.memory).(targetDb := Whole(New), newDb := Absent))
  {
    var ok := SwapState(had);
    var r0 := Mark(r, OldMoved);
    MarkSwaps(r, OldMoved, had);
    var r1 := Mark(r0, InstallingDatabase);
    if r0.status == Running {
      MarkSwaps(r0, InstallingDatabase, had);
    }
    TakesChain(r, r0, r1, ok, 1, 1);
    if r1.status == Running {
      RenameSwaps(r1, NewDb, TargetDb, had);
    }
    TakesChain(r, r1, PlaceDatabase(r), ok, 2, 1);
  }

  lemma InstallDatabaseTakes(r: Run, had: Had)
    requires r.status == Running && r.memory.had == had && r.disk == Aside(had, r.memory)
    requires SwapOk(r.disk, r.memory, had)
    ensures var b := InstallDatabase(r);
            Takes(r, b, SwapState(had), 5)
            && (b.status == Running ==>
                  b.memory == Record(InstallingArtifacts, had)
                  && b.disk == Aside(had, b.memory).(targetDb := Whole(New), newDb := Absent))
  {
    var ok := SwapState(had);
    var r0 := PlaceDatabase(r);
    PlaceDatabaseTakes(r, had);
    var r1 := Mark(r0, DatabaseInstalled);
    if r0.status == Running {
      MarkSwaps(r0, DatabaseInstalled, had);
    }
    TakesChain(r, r0, r1, ok, 3, 1);
    if r1.status == Running {
      MarkSwaps(r1, InstallingArtifacts, had);
    }
    TakesChain(r, r1, InstallDatabase(r), ok, 4, 1);
  }

  lemma InstallArtifactsTakes(r: Run, had: Had)
    requires r.status == Running && r.memory == Record(InstallingArtifacts, had)
    requires r.disk == Aside(had, r.memory).(targetDb := Whole(New), newDb := Absent)
    requires SwapOk(r.disk, r.memory, had)
    ensures var b := InstallArtifacts(r);
            Takes(r, b, SwapState(had), 5)
            && (b.status == Running ==>
                  b.memory == Record(Committed, had)
                  && b.disk == Disk(Whole(New), Whole(New), Kept(had.database), Kept(had.artifacts), Absent, Absent,
                                    Marker(b.memory)))
  {
    var ok := SwapState(had);
    var r0 := Rename(r, NewRoot, TargetRoot);
    RenameSwaps(r, NewRoot, TargetRoot, had);
    var r1 := Mark(r0, ArtifactsInstalled);
    if r0.status == Running {
      MarkSwaps(r0, ArtifactsInstalled, had);
    }
    TakesChain(r, r0, r1, ok, 1, 1);
    var r2 := Sync(r1);
    if r1.status == Running {
      SyncTakes(r1, ok);
    }
    TakesChain(r, r1, r2, ok, 2, 1);
    var r3 := Sync(r2);
    if r2.status == Running {
      SyncTakes(r2, ok);
    }
    TakesChain(r, r2, r3, ok, 3, 1);
    var r4 := Mark(r3, Committed);
    if r3.status == Running {
      MarkSwaps(r3, Committed, had);
    }
    TakesChain(r, r3, r4, ok, 4, 1);
  }

  ghost function SwapCost(had: Had): nat {
    MoveCost(had) + 10
  }

  lemma SwapTakes(r: Run, had: Had, force: bool)
    requires Allowed(had, force) && r.status == Running && r.memory == Record(Prepared, had)
    requires r.disk == Initial(had).(marker := Marker(r.memory))
    ensures var b := Swap(r, force);
            Takes(r, b, SwapState(had), SwapCost(had))
            && (b.status == Running ==>
                  b.memory == Record(Committed, had)
                  && b.disk == Disk(Whole(New), Whole(New), Kept(had.database), Kept(had.artifacts), Absent, Absent,
                                    Marker(b.memory)))
  {
    var ok := SwapState(had);
    var r0 := MoveOldAside(r, force);
    MoveOldAsideTakes(r, had, force);
    var r1 := InstallDatabase(r0);
    if r0.status == Running {
      InstallDatabaseTakes(r0, had);
    }
    TakesChain(r, r0, r1, ok, MoveCost(had), 5);
    if r1.status == Running {
      InstallArtifactsTakes(r1, had);
    }
    TakesChain(r, r1, Swap(r, force), ok, MoveCost(had) + 5, 5);
  }

  // ----- Rollback -----

  ghost predicate Unhindered(r: Run) {
    r.status == Running && r.due.Never?
  }

  lemma RemoveUnhindered(r: Run, p: Path)
    requires Unhindered(r)
    ensures Remove(r, p) == r.(disk := r.disk.Put(p, Absent))
  {
    assert r.disk.At(p).Absent? ==> r.disk.Put(p, Absent) == r.disk;
  }

  lemma MoveBackRestores(r: Run, had: Had)
    requires Unhindered(r) && r.memory.had == had
    requires if had.database then AtOneOf(r.disk.targetDb, r.disk.oldDb, Old)
             else r.disk.targetDb.Absent? && r.disk.oldDb.Absent?
    requires if had.artifacts then AtOneOf(r.disk.targetRoot, r.disk.oldRoot, Old)
             else r.disk.targetRoot.Absent? && r.disk.oldRoot.Absent?
    ensures var d := r.disk.(targetDb := Kept(had.database), targetRoot := Kept(had.artifacts), oldDb := Absent,
                             oldRoot := Absent);
            MoveOldBack(r) == r.(disk := d)
  {
  }

  lemma DropPairUnhindered(r: Run)
    requires Unhindered(r)
    ensures DropPair(r, NewDb, NewRoot) == r.(disk := r.disk.(newDb := Absent, newRoot := Absent, marker := NoMarker))
  {
    RemoveUnhindered(r, NewDb);
    RemoveUnhindered(Remove(r, NewDb), NewRoot);
  }

  /** Without a second failure, a rollback puts the old pair back and leaves nothing else. */
  lemma RollbackRestores(r: Run, had: Had)
    requires Unhindered(r) && CanRollBack(r.disk, r.memory, had)
    ensures Rollback(r) == r.(disk := Disk(Kept(had.database), Kept(had.artifacts), Absent, Absent, Absent, Absent,
                                           NoMarker))
  {
    RemoveUnhindered(r, TargetDb);
    RemoveUnhindered(Remove(r, TargetDb), TargetRoot);
    var cleared := ClearTargets(r);
    MoveBackRestores(cleared, had);
    DropPairUnhindered(MoveOldBack(cleared));
  }

  // ----- The whole install -----

  ghost function Began(had: Had, due: Interruption): Run {
    Run(Initial(had), Record(Prepared, had), due, Running)
  }

  lemma FirstMark(had: Had, due: Interruption, begun: Run)
    requires !due.FaultAfter? && begun == Mark(Began(had, due), Prepared)
    ensures begun.memory == Record(Prepared, had) && !begun.due.FaultAfter?
    ensures if begun.status == Running then begun.disk == Initial(had).(marker := Marker(begun.memory))
            else begun.status == Crashed && due.CrashAfter? && begun.disk == Initial(had)
    ensures due.Never? ==> begun.due.Never?
  {
  }

  lemma InstallAfterMarker(run: Run, begun: Run, had: Had, force: bool)
    requires run.disk == Initial(had) && run.status == Running && Allowed(had, force)
    requires begun == Mark(run.(memory := Record(Prepared, had)), Prepared)
    ensures begun.status != Running ==> Install(run, force) == begun
    ensures begun.status == Running ==>
              var swapped := Swap(begun, force);
              Install(run, force) ==
              if swapped.status.Failed? then
                var undone := Rollback(swapped.(status := Running));
                if undone.status == Running then undone.(status := swapped.status) else undone
              else DropPair(swapped, OldDb, OldRoot)
  {
  }

  /** What an install may come to when nothing but a crash cuts it. */
  ghost predicate CutOrDone(r: Run, had: Had, due: Interruption) {
    && Inv(r.disk, had)
    && (r.status == Crashed || r.status == Running)
    && (due.Never? ==> r.status == Running)
    && (r.status == Running ==> NewSet(r.disk) && NothingAside(r.disk) && r.disk.marker.NoMarker?)
  }

  /** A crash anywhere in the install leaves a state recovery knows; an install that is not cut short
      puts the whole new pair in place and nothing aside. */
  lemma InstallCrash(had: Had, force: bool, memory: Record, due: Interruption)
    requires Allowed(had, force) && !due.FaultAfter?
    ensures CutOrDone(Install(Run(Initial(had), memory, due, Running), force), had, due)
  {
    var run := Run(Initial(had), memory, due, Running);
    var begun := Mark(Began(had, due), Prepared);
    FirstMark(had, due, begun);
    InstallAfterMarker(run, begun, had, force);
    if begun.status == Running {
      BegunCrash(begun, Swap(begun, force), had, force);
    }
  }

  /** The same for an install whose marker is there. */
  lemma BegunCrash(begun: Run, swapped: Run, had: Had, force: bool)
    requires Allowed(had, force) && !begun.due.FaultAfter? && begun.status == Running && swapped == Swap(begun, force)
    requires begun.disk == Initial(had).(marker := Marker(begun.memory)) && begun.memory == Record(Prepared, had)
    ensures !swapped.status.Failed? && CutOrDone(DropPair(swapped, OldDb, OldRoot), had, begun.due)
  {
    SwapTakes(begun, had, force);
    if swapped.status == Running {
      TidyUpCommitted(swapped, had);
    } else {
      StoppedRecovery(swapped, OldDb, OldRoot, Prepared);
    }
  }

  ghost function CommittedDisk(had: Had): Disk {
    Disk(Whole(New), Whole(New), Kept(had.database), Kept(had.artifacts), Absent, Absent,
         Marker(Record(Committed, had)))
  }

  lemma CommittedIsSound(d: Disk, had: Had)
    requires d == CommittedDisk(had)
    ensures Inv(d, had) && Tidies(d) && FateOf(d, had) == TakesNew && Towards(had, TakesNew).ok(d)
    ensures var next := d.Put(OldDb, Absent);
            Inv(next, had) && Tidies(next) && FateOf(next, had) == TakesNew
  {
  }

  lemma CommittedMayEnd(d: Disk, had: Had)
    requires d == CommittedDisk(had)
    ensures MayEnd(d, OldDb, OldRoot, Towards(had, TakesNew))
  {
    CommittedIsSound(d, had);
    TidyDropsOldDatabase(d, had);
    TidyDropsOldRoot(d.Put(OldDb, Absent), had);
  }

  lemma TidyUpCommitted(r: Run, had: Had)
    requires r.status == Running && !r.due.FaultAfter?
    requires r.disk == Disk(Whole(New), Whole(New), Kept(had.database), Kept(had.artifacts), Absent, Absent,
                            Marker(Record(Committed, had)))
    ensures Ends(r, DropPair(r, OldDb, OldRoot), Towards(had, TakesNew))
  {
    CommittedIsSound(r.disk, had);
    CommittedMayEnd(r.disk, had);
    RemoveBothEnds(r, OldDb, OldRoot, Towards(had, TakesNew));
  }
}
