/** The guarantees of the restore swap as a whole. */
module RestoreTheorems {
  import opened RestoreSwap
  import opened RestoreProofs
  import opened RestoreInstallProofs

  /** The disk an install leaves when the process dies after `steps` disk changes. */
  ghost function CrashedInstall(had: Had, force: bool, steps: nat): Disk {
    Install(Began(had, CrashAfter(steps)), force).disk
  }

  /** The disk after one start per cut: each may die after so many disk changes, meet an operation that
      fails there, or get through. */
  ghost function CutRecoveries(d: Disk, cuts: seq<Interruption>): Disk
    decreases |cuts|
  {
    if cuts == [] then d
    else CutRecoveries(Recover(d, cuts[0]).disk, cuts[1..])
  }

  lemma {:induction false} RecoveriesKeepFate(d: Disk, had: Had, cuts: seq<Interruption>)
    requires Inv(d, had)
    ensures var e := CutRecoveries(d, cuts);
            Inv(e, had) && FateOf(e, had) == FateOf(d, had)
            && (FateOf(d, had) == Refuses ==> e == d)
            && (e.marker.NoMarker? ==> NothingAside(e) || e == d)
    decreases |cuts|
  {
    if cuts != [] {
      OneRecovery(d, had, cuts[0]);
      RecoveriesKeepFate(Recover(d, cuts[0]).disk, had, cuts[1..]);
    }
  }

  /** Crash the install anywhere, then cut any number of recoveries anywhere, by crashes or by operations
      that fail: a recovery that reports success shows the complete old pair or the complete new pair, and
      which one it is was settled when the install crashed. It leaves nothing aside, except the staged pair
      of an install that died before it wrote its marker. */
  lemma RestoreIsAtomic(had: Had, force: bool, steps: nat, cuts: seq<Interruption>, due: Interruption)
    requires force || had == Had(false, false)
    ensures var crashed := CrashedInstall(had, force, steps);
            var r := Recover(CutRecoveries(crashed, cuts), due);
            && (r.status == Running ==>
                  && r.disk.marker.NoMarker? && r.disk.oldDb.Absent? && r.disk.oldRoot.Absent?
                  && (if FateOf(crashed, had) == TakesNew then NewSet(r.disk) else OldSet(r.disk, had))
                  && (NothingAside(r.disk) || r.disk == crashed == Initial(had)))
            && (r.status == Failed(NoCompleteSet) <==> FateOf(crashed, had) == Refuses)
            && (r.status == Failed(NoCompleteSet) ==> r.disk == crashed)
            && (r.status.Failed? && r.status != Failed(NoCompleteSet) ==>
                  r.status == Failed(OperationFailed) && due.FaultAfter?)
            && (r.status == Crashed ==> due.CrashAfter?)
  {
    var crashed := CrashedInstall(had, force, steps);
    InstallCrash(had, force, Record(Prepared, had), CrashAfter(steps));
    RecoveriesKeepFate(crashed, had, cuts);
    OneRecovery(CutRecoveries(crashed, cuts), had, due);
  }

  // ----- When both old halves existed -----

  lemma CompletePairFate(d: Disk)
    requires Inv(d, Had(true, true))
    ensures FateOf(d, Had(true, true)) ==
            if d.marker.NoMarker? then (if NewSet(d) then TakesNew else KeepsOld)
            else if d.marker.record.phase in {ArtifactsInstalled, Committed} then TakesNew else KeepsOld
  {
  }

  /** With a complete old pair, recovery never refuses, and fails only where an operation fails; the
      outcome is the old pair for every marker phase before `artifacts_installed` and the new pair from it
      on. */
  lemma CompletePairConverges(steps: nat, cuts: seq<Interruption>, due: Interruption)
    ensures var had := Had(true, true);
            var crashed := CrashedInstall(had, true, steps);
            var r := Recover(CutRecoveries(crashed, cuts), due);
            && (r.status.Failed? ==> r.status == Failed(OperationFailed) && due.FaultAfter?)
            && (r.status == Running ==>
                  if crashed.marker.Marker? then
                    if crashed.marker.record.phase in {ArtifactsInstalled, Committed} then NewSet(r.disk)
                    else OldSet(r.disk, had)
                  else r.disk == crashed)
  {
    var had := Had(true, true);
    var crashed := CrashedInstall(had, true, steps);
    InstallCrash(had, true, Record(Prepared, had), CrashAfter(steps));
    CompletePairFate(crashed);
    RestoreIsAtomic(had, true, steps, cuts, due);
    if crashed.marker.NoMarker? {
      MarkerlessStays(crashed, cuts, due);
    }
  }

  lemma {:induction false} MarkerlessStays(d: Disk, cuts: seq<Interruption>, due: Interruption)
    requires d.marker.NoMarker?
    ensures Recover(CutRecoveries(d, cuts), due).disk == d
    decreases |cuts|
  {
    if cuts != [] {
      MarkerlessStays(d, cuts[1..], due);
    }
  }

  /** Every one of these starts was stopped on the way, by a crash or by an operation that failed. */
  ghost predicate AllStopped(d: Disk, cuts: seq<Interruption>)
    decreases |cuts|
  {
    cuts == [] || (Stopped(Recover(d, cuts[0]).status) && AllStopped(Recover(d, cuts[0]).disk, cuts[1..]))
  }

  ghost function Sum(cuts: seq<Interruption>): nat {
    if cuts == [] then 0 else StepsOf(cuts[0]) + Sum(cuts[1..])
  }

  /** All recoveries that were stopped together spend no more disk changes than the rank of the first disk,
      so a start with a larger budget gets through. */
  lemma {:induction false} CrashesAreBounded(d: Disk, had: Had, cuts: seq<Interruption>)
    requires Inv(d, had) && AllStopped(d, cuts)
    ensures Sum(cuts) <= Rank(d, had) <= 12
    decreases |cuts|
  {
    RankBound(d, had);
    if cuts != [] {
      var next := Recover(d, cuts[0]);
      OneRecovery(d, had, cuts[0]);
      CrashesAreBounded(next.disk, had, cuts[1..]);
    }
  }

  lemma RankBound(d: Disk, had: Had)
    requires Inv(d, had)
    ensures Rank(d, had) <= 12
  {
  }

  // ----- When an old half was missing -----

  ghost predicate SomewhereWhole(d: Disk, side: Side) {
    && (d.targetDb == Whole(side) || d.oldDb == Whole(side) || d.newDb == Whole(side))
    && (d.targetRoot == Whole(side) || d.oldRoot == Whole(side) || d.newRoot == Whole(side))
  }

  /** Exactly which disks recovery refuses, and that a refusal touches nothing and has lost nothing. */
  lemma RefusalIsExact(d: Disk, had: Had, due: Interruption)
    requires Inv(d, had)
    ensures var r := Recover(d, due);
            && (r.status.Failed? && r.status != Failed(OperationFailed) <==>
                  && d.marker.Marker?
                  && d.marker.record.phase in {Prepared, OldMoved, InstallingDatabase, DatabaseInstalled,
                                               InstallingArtifacts}
                  && had != Had(true, true)
                  && (had == Had(false, false) ==> d.Exists(TargetDb) && !d.Exists(TargetRoot)))
            && (r.status == Failed(OperationFailed) ==> due.FaultAfter?)
            && (r.status.Failed? && r.status != Failed(OperationFailed) ==>
                  && r.status == Failed(NoCompleteSet) && r.disk == d
                  && SomewhereWhole(d, New)
                  && (had.database ==> d.targetDb == Whole(Old) || d.oldDb == Whole(Old))
                  && (had.artifacts ==> d.targetRoot == Whole(Old) || d.oldRoot == Whole(Old)))
  {
    OneRecovery(d, had, due);
  }

  /** Nothing happens after a crash. */
  lemma CrashedSwap(r: Run, stopped: Run)
    requires stopped == MoveOldAside(r, true) && stopped.status == Crashed
    ensures Swap(r, true).status == Crashed && Swap(r, true).disk == stopped.disk
    ensures DropPair(Swap(r, true), OldDb, OldRoot).disk == stopped.disk
  {
  }

  lemma RefusedAfterFirst(had: Had)
    requires had != Had(true, true) && had != Had(false, false)
    ensures Recover(CrashedInstall(had, true, 1), Never).status == Failed(NoCompleteSet)
  {
    var start := Began(had, CrashAfter(1));
    var begun := Mark(start, Prepared);
    var stopped := MoveOldAside(begun, true);
    assert begun.status == Running && begun.due == CrashAfter(0);
    assert stopped.status == Crashed && stopped.disk == begun.disk;
    CrashedSwap(begun, stopped);
    InstallAfterMarker(start, begun, had, true);
    assert CrashedInstall(had, true, 1) == begun.disk;
  }

  /** The disk of an install from nothing that dies once the database is in place. */
  ghost function DatabaseOnly(had: Had): Disk {
    Disk(Whole(New), Absent, Absent, Absent, Absent, Whole(New), Marker(Record(InstallingDatabase, had)))
  }

  lemma DatabaseOnlyRefused(had: Had)
    requires had == Had(false, false)
    ensures Recover(DatabaseOnly(had), Never).status == Failed(NoCompleteSet)
  {
  }

  lemma DiesAfterDatabase(begun: Run, had: Had)
    requires had == Had(false, false) && begun.status == Running && begun.due == CrashAfter(3)
    requires begun.memory == Record(Prepared, had) && begun.disk == Initial(had).(marker := Marker(begun.memory))
    ensures InstallDatabase(begun) == Run(DatabaseOnly(had), Record(DatabaseInstalled, had), CrashAfter(0), Crashed)
  {
    var moved := PlaceDatabase(begun);
    assert moved == Run(DatabaseOnly(had), Record(InstallingDatabase, had), CrashAfter(0), Running);
  }

  lemma RefusedAfterDatabase(had: Had)
    requires had == Had(false, false)
    ensures Recover(CrashedInstall(had, true, 4), Never).status == Failed(NoCompleteSet)
  {
    var begun := Mark(Began(had, CrashAfter(4)), Prepared);
    DiesAfterDatabase(begun, had);
    InstallAfterMarker(Began(had, CrashAfter(4)), begun, had, true);
    assert CrashedInstall(had, true, 4) == DatabaseOnly(had);
    DatabaseOnlyRefused(had);
  }

  /** The refusal is reachable whenever an old half was missing. */
  lemma RefusalHappens(had: Had)
    requires had != Had(true, true)
    ensures var crashed := CrashedInstall(had, true, if had == Had(false, false) then 4 else 1);
            Recover(crashed, Never).status == Failed(NoCompleteSet)
  {
    if had == Had(false, false) {
      RefusedAfterDatabase(had);
    } else {
      RefusedAfterFirst(had);
    }
  }

  // ----- One operation fails -----

  /** A failure after the commit record leaves the new pair, and recovery keeps it. */
  lemma FailureAfterCommit(swapped: Run, had: Had, n: nat)
    requires swapped.status == Running && swapped.due == FaultAfter(n) && swapped.memory == Record(Committed, had)
    requires swapped.disk == Disk(Whole(New), Whole(New), Kept(had.database), Kept(had.artifacts), Absent, Absent,
                                  Marker(swapped.memory))
    ensures var r := DropPair(swapped, OldDb, OldRoot);
            NewSet(r.disk) && Inv(r.disk, had) && FateOf(r.disk, had) == TakesNew
            && (r.status == Running || r.status == Failed(OperationFailed))
  {
    var twin := swapped.(due := CrashAfter(n));
    TwinsDropPair(swapped, twin, OldDb, OldRoot);
    TidyUpCommitted(twin, had);
    DropKeepsTargets(twin);
  }

  lemma DropKeepsTargets(r: Run)
    ensures var d := DropPair(r, OldDb, OldRoot).disk;
            d.targetDb == r.disk.targetDb && d.targetRoot == r.disk.targetRoot
  {
    RemoveKeepsTargets(r, OldDb);
    RemoveKeepsTargets(Remove(r, OldDb), OldRoot);
  }

  lemma RemoveKeepsTargets(r: Run, p: Path)
    requires p == OldDb || p == OldRoot
    ensures var d := Remove(r, p).disk;
            d.targetDb == r.disk.targetDb && d.targetRoot == r.disk.targetRoot
  {
  }

  /** One rename, marker update or flush of the install fails and has no effect. Before the first
      marker nothing has changed; up to the commit record the rollback gives back exactly the old
      pair and leaves nothing else; after it the new pair stays and recovery keeps it. */
  lemma SingleFailureIsUndone(had: Had, force: bool, memory: Record, k: nat)
    ensures var r := Install(Run(Initial(had), memory, FaultAfter(k), Running), force);
            if !Allowed(had, force) then r.status == Failed(TargetsExist) && r.disk == Initial(had)
            else if k == 0 then r.status == Failed(OperationFailed) && r.disk == Initial(had)
            else if k <= SwapCost(had) then
              r.status == Failed(OperationFailed)
              && r.disk == Disk(Kept(had.database), Kept(had.artifacts), Absent, Absent, Absent, Absent, NoMarker)
            else
              NewSet(r.disk) && Inv(r.disk, had) && FateOf(r.disk, had) == TakesNew
              && (r.status == Running || r.status == Failed(OperationFailed))
  {
    var run := Run(Initial(had), memory, FaultAfter(k), Running);
    if Allowed(had, force) && k > 0 {
      var begun := Run(Initial(had).(marker := Marker(Record(Prepared, had))), Record(Prepared, had), FaultAfter(k - 1),
                       Running);
      assert Mark(run.(memory := Record(Prepared, had)), Prepared) == begun;
      InstallAfterMarker(run, begun, had, force);
      SwapTakes(begun, had, force);
      var swapped := Swap(begun, force);
      if swapped.status == Running {
        FailureAfterCommit(swapped, had, k - 1 - SwapCost(had));
      } else {
        RollbackRestores(swapped.(status := Running), had);
      }
    }
  }
}
