/** The artifact store's operations as they change the directory and the table in place. */
module ArtifactDirectory {
  import opened Bytes
  import opened ArtifactCodec
  import opened ArtifactStore
  import opened ArtifactRuns
  import opened Sets

  const RECONCILE_BATCH := 64

  class Directory {
    var files: map<Name, Bytes>
    var rows: map<Id, Row>
    ghost var used: set<Id>
    ghost var marked: set<Id>

    ghost predicate Valid(k: Checks)
      reads this
    {
      Inv(k, Between())
    }

    function Value(): Disk
      reads this
    {
      Disk(files, rows)
    }

    /** The store between two operations. */
    ghost function Between(): State
      reads this
    {
      State(Value(), Idle, used, marked)
    }

    constructor (k: Checks)
      ensures Valid(k) && Start(Between())
    {
      files, rows, used, marked := map[Sentinel := []], map[], {}, {};
    }

    // ----- Saving -----

    /** Fill the temporary file part by part; an error may stop it at any length. */
    method Fill(id: Id, content: Bytes) returns (ok: bool)
      requires Temp(id) in files && files[Temp(id)] == []
      modifies this`files
      ensures Temp(id) in files && files[Temp(id)] <= content && (ok ==> files[Temp(id)] == content)
      ensures files == old(files)[Temp(id) := files[Temp(id)]]
    {
      var written := 0;
      while written < |content|
        invariant 0 <= written <= |content|
        invariant Temp(id) in files && files[Temp(id)] == content[..written]
        invariant files == old(files)[Temp(id) := files[Temp(id)]]
      {
        var part :| 0 <= part <= |content| - written;
        files := files[Temp(id) := content[..written + part]];
        if part == 0 {
          return false;
        }
        written := written + part;
      }
      ok := true;
    }

    /** Create, fill and rename the file. */
    method PublishFile(id: Id, row: Row) returns (ok: bool, tempExists: bool)
      requires Temp(id) !in files
      modifies this`files
      ensures ok ==> !tempExists && Final(id) !in old(files) && files == old(files)[Final(id) := row.ciphertext]
      ensures !ok ==>
                files == old(files)
                || (tempExists && Temp(id) in files && files == old(files)[Temp(id) := files[Temp(id)]])
      ensures Temp(id) in files ==> tempExists
    {
      tempExists := false;
      if * {
        return false, false;
      }
      files := files[Temp(id) := []];
      tempExists := true;
      ok := Fill(id, row.ciphertext);
      if !ok || Final(id) in files {
        return false, true;
      }
      if * {
        return false, true;
      }
      files := (files - {Temp(id)})[Final(id) := files[Temp(id)]];
      assert files == old(files)[Final(id) := row.ciphertext];
      return true, false;
    }

    /** What an error defers: remove the temporary file, the row and the file, each of which may fail. */
    method CleanUp(k: Checks, id: Id, tempExists: bool) returns (complete: bool)
      requires id in rows && rows[id].phase == Writing && Inv(k, Between()) && id !in marked
      requires Temp(id) in files ==> tempExists
      modifies this`files, this`rows
      ensures Valid(k)
      ensures rows == old(rows) || rows == old(rows) - {id}
      ensures files.Keys <= old(files).Keys && forall name :: name in files ==> files[name] == old(files)[name]
      ensures forall name :: name in old(files) && name != Temp(id) && name != Final(id) ==> name in files
      ensures complete ==> rows == old(rows) - {id} && files == old(files) - {Temp(id), Final(id)}
    {
      complete := true;
      if tempExists {
        if * {
          files := files - {Temp(id)};
        } else {
          complete := false;
        }
      }
      if * {
        rows := rows - {id};
      } else {
        complete := false;
      }
      if * {
        files := files - {Final(id)};
      } else {
        complete := false;
      }
      assert forall other :: Sound(k, old(Between()), other) ==> Sound(k, Between(), other);
    }

    /** A save either publishes the ready row and exactly its file, or fails; a failed save whose clean-up
        works leaves the store as it was, and no save touches another artifact. */
    method Save(k: Checks, id: Id, row: Row) returns (ok: bool, cleaned: bool)
      requires Valid(k) && id !in used && Temp(id) !in files && Saved(k, row)
      modifies this
      ensures Valid(k) && marked == old(marked)
      ensures ok ==> Value() == Disk(old(files)[Final(id) := row.ciphertext], old(rows)[id := row.(phase := Ready)])
      ensures !ok && cleaned ==> Value() == old(Value())
      ensures OthersAgree(Value(), old(Value()), id)
    {
      ghost var before := Between();
      FreshIsAbsent(k, before, id);
      if * {
        return false, true;
      }
      used := used + {id};
      rows := rows[id := row];
      var tempExists: bool;
      ok, tempExists := PublishFile(id, row);
      SavingIsSound(k, before, Between(), id, row, Writing);
      if ok {
        if * {
          rows := rows[id := row.(phase := Ready)];
          SavingIsSound(k, before, Between(), id, row, Ready);
          return true, true;
        }
      }
      ok := false;
      cleaned := CleanUp(k, id, tempExists);
      if cleaned {
        assert files == old(files);
        assert rows == old(rows);
      }
    }

    // ----- Deleting -----

    /** Claim the ready rows among `ids` and return every row found, as it is afterwards. */
    method MarkDeleting(k: Checks, ids: set<Id>) returns (records: map<Id, Row>)
      requires Valid(k)
      modifies this`rows, this`marked
      ensures Valid(k) && rows == MarkRows(old(rows), ids)
      ensures records == map id | id in ids && id in rows :: rows[id]
      ensures marked == old(marked) + set id | id in records && records[id].phase == Deleting
    {
      ghost var before := Between();
      rows := MarkRows(rows, ids);
      records := map id | id in ids && id in rows :: rows[id];
      marked := marked + set id | id in records && records[id].phase == Deleting;
      assert forall id :: Sound(k, before, id) ==> Sound(k, Between(), id);
    }

    ghost predicate Claimed(record: (Id, Row))
      reads this
    {
      record.1.phase == Deleting ==> record.0 in marked
    }

    /** Remove file and then row of one claimed record. */
    method RemoveRecord(k: Checks, record: (Id, Row)) returns (ok: bool)
      requires Valid(k) && record.1.phase == Deleting && record.0 in marked
      modifies this`files, this`rows
      ensures Valid(k)
      ensures ok ==> Value() == old(Value()).Remove(Final(record.0)).Drop(record.0)
      ensures !ok ==> rows == old(rows) && (files == old(files) || files == old(files) - {Final(record.0)})
    {
      ghost var before := Between();
      var id := record.0;
      assert Sound(k, before, id);
      if * {
        return false;
      }
      files := files - {Final(id)};
      if * {
        assert forall other :: Sound(k, before, other) ==> Sound(k, Between(), other);
        return false;
      }
      if id in rows && rows[id].phase == Deleting {
        rows := rows - {id};
      }
      assert rows == old(rows) - {id};
      assert forall other :: Sound(k, before, other) ==> Sound(k, Between(), other);
      ok := true;
    }

    /** Success removes file and row of exactly the claimed records; an error stops part way. */
    method RemoveMarked(k: Checks, records: seq<(Id, Row)>) returns (ok: bool)
      requires Valid(k) && forall i :: 0 <= i < |records| ==> Claimed(records[i])
      modifies this`files, this`rows
      ensures Valid(k)
      ensures forall id :: !Listed(records, id) ==> Agree(Value(), old(Value()), Final(id))
      ensures ok ==> forall id :: Listed(records, id) ==> Final(id) !in files && id !in rows
    {
      for i := 0 to |records|
        invariant Valid(k)
        invariant forall id :: !Listed(records, id) ==> Agree(Value(), old(Value()), Final(id))
        invariant forall id :: Listed(records[..i], id) ==> Final(id) !in files && id !in rows
      {
        ListedStep(records, i);
        if records[i].1.phase == Deleting {
          assert Claimed(records[i]);
          ok := RemoveRecord(k, records[i]);
          if !ok {
            return;
          }
        }
      }
      assert records[..|records|] == records;
      ok := true;
    }

    // ----- Reconciling -----

    method VisitEntry(k: Checks, name: Name, f: Faults) returns (failed: bool)
      modifies this`files, this`rows
      ensures Outcome(Value(), failed) == Visit(k, old(Value()), name, f)
    {
      failed := false;
      if name == Sentinel {
        return;
      }
      if name.Other? {
        return name in files;
      }
      if name !in files {
        return;
      }
      if name.Temp? {
        failed := RemoveEntry(name, f);
        return;
      }
      var id := name.id;
      if id !in rows {
        if !k.shaped(files[name]) {
          return true;
        }
        failed := RemoveEntry(name, f);
        return;
      }
      match rows[id].phase
      case Writing =>
        if files[name] != rows[id].ciphertext || !k.decrypts(rows[id].record, files[name]) || f.update(id) {
          return true;
        }
        rows := rows[id := rows[id].(phase := Ready)];
      case Ready =>
        failed := files[name] != rows[id].ciphertext;
      case Deleting =>
        failed := RemoveEntry(name, f);
        if failed || f.update(id) {
          return true;
        }
        rows := rows - {id};
    }

    method RemoveEntry(name: Name, f: Faults) returns (failed: bool)
      modifies this`files
      ensures failed == f.remove(name) && files == if failed then old(files) else old(files) - {name}
    {
      failed := f.remove(name);
      if !failed {
        files := files - {name};
      }
    }

    /** The directory pass, batch by batch. */
    method VisitDirectory(k: Checks, listing: seq<Name>, f: Faults) returns (failed: bool)
      modifies this`files, this`rows
      ensures Outcome(Value(), failed) == VisitAll(k, old(Value()), listing, f)
    {
      failed := false;
      var offset := 0;
      ghost var all := VisitAll(k, Value(), listing, f);
      ghost var left := listing;
      while offset < |listing|
        invariant 0 <= offset <= |listing| && left == listing[offset..]
        invariant all == Also(failed, VisitAll(k, Value(), left, f))
        decreases |listing| - offset
      {
        var end := if |listing| - offset < RECONCILE_BATCH then |listing| else offset + RECONCILE_BATCH;
        while offset < end
          invariant offset <= end <= |listing| && left == listing[offset..]
          invariant all == Also(failed, VisitAll(k, Value(), left, f))
        {
          ghost var before, known := Value(), failed;
          var bad := VisitEntry(k, listing[offset], f);
          failed := failed || bad;
          VisitStep(k, before, left, f, known, Value(), bad, failed);
          left := left[1..];
          offset := offset + 1;
        }
      }
    }

    /** The first rows behind `last`, in ascending order. */
    method QueryRows(last: int) returns (ids: seq<Id>)
      ensures |ids| <= RECONCILE_BATCH
      ensures forall i :: 0 <= i < |ids| ==> ids[i] in rows && last < ids[i]
      ensures forall i, j :: 0 <= i < j < |ids| ==> ids[i] < ids[j]
      ensures forall id, i :: id in rows && last < id && id !in ids && 0 <= i < |ids| ==> ids[i] < id
      ensures ids == [] ==> forall id :: id in rows ==> id <= last
    {
      ids := [];
      ghost var all := set id | id in rows && last < id;
      var rest := set id | id in rows && last < id;
      while |ids| < RECONCILE_BATCH && rest != {}
        invariant |ids| <= RECONCILE_BATCH && FirstOf(all, ids, rest)
        decreases rest
      {
        var least := Least(rest);
        FirstGrows(all, ids, rest, least);
        ids := ids + [least];
        rest := rest - {least};
      }
      assert forall i :: 0 <= i < |ids| ==> ids[i] in all;
      assert forall id :: id in rows && last < id ==> id in all;
    }

    /** The table pass, batch by batch behind the last identifier; `done` are the rows in the order read. */
    method SweepTable(f: Faults) returns (failed: bool, ghost done: seq<Id>)
      modifies this`rows
      ensures RowList(done, old(Value())) && Outcome(Value(), failed) == SweepAll(old(Value()), done, f)
    {
      failed := false;
      done := [];
      var last: int := -1;
      ghost var start := Value();
      while true
        invariant files == old(files) && Covered(start, done, last)
        invariant Outcome(Value(), failed) == SweepAll(start, done, f)
        decreases set id | id in start.rows && last < id
      {
        var ids := QueryRows(last);
        QueryOfStart(start, Value(), done, f, failed, last, ids);
        if |ids| == 0 {
          return;
        }
        ghost var lastBefore, doneBefore := last, done;
        failed, done := SweepBatch(ids, start, done, f, failed);
        last := ids[|ids| - 1];
        CoveredGrows(start, doneBefore, lastBefore, ids);
        ghost var behind := set id | id in start.rows && lastBefore < id;
        assert ids[0] in behind && (set id | id in start.rows && last < id) <= behind;
      }
    }

    method SweepBatch(ids: seq<Id>, ghost start: Disk, ghost before: seq<Id>, f: Faults, failedBefore: bool)
      returns (failed: bool, ghost done: seq<Id>)
      requires Outcome(Value(), failedBefore) == SweepAll(start, before, f)
      requires Distinct(before + ids) && forall i :: 0 <= i < |ids| ==> ids[i] in start.rows
      modifies this`rows
      ensures done == before + ids && Outcome(Value(), failed) == SweepAll(start, done, f)
    {
      failed, done := failedBefore, before;
      assert before + ids[..0] == before;
      for i := 0 to |ids|
        invariant files == old(files) && done == before + ids[..i]
        invariant Outcome(Value(), failed) == SweepAll(start, done, f)
      {
        var id := ids[i];
        NextRow(start, before, ids, i);
        SweepOne(start, done, f, Value(), failed, id);
        if Final(id) !in files {
          if f.sweep(id) {
            failed := true;
          } else {
            rows := rows - {id};
          }
        }
        done := done + [id];
      }
      assert before + ids[..|ids|] == before + ids;
    }

    /** Both passes. The listing is whatever order the directory gives its entries in. */
    method ReconcileBody(k: Checks, listing: seq<Name>, f: Faults) returns (failed: bool, ghost ids: seq<Id>)
      requires Listing(listing, Value())
      modifies this`files, this`rows
      ensures Lists(k, old(Value()), listing, ids, f)
      ensures Outcome(Value(), failed) == Reconcile(k, old(Value()), listing, ids, f)
    {
      var visitFailed := VisitDirectory(k, listing, f);
      var sweepFailed;
      sweepFailed, ids := SweepTable(f);
      failed := visitFailed || sweepFailed;
    }
  }

  // ----- A save in progress -----

  /** Every other artifact's files and row are the same. */
  ghost predicate OthersAgree(a: Disk, b: Disk, id: Id) {
    forall other :: other != id ==> Agree(a, b, Final(other)) && AgreeFile(a, b, Temp(other))
  }

  lemma FreshIsAbsent(k: Checks, s: State, id: Id)
    requires Inv(k, s) && id !in s.used
    ensures id !in s.disk.rows && Final(id) !in s.disk.files && id !in s.marked
  {
    assert Sound(k, s, id);
  }

  lemma SavingIsSound(k: Checks, before: State, now: State, id: Id, row: Row, phase: Phase)
    requires Inv(k, before) && before.job == Idle && id !in before.used && Saved(k, row)
    requires now == State(Disk(now.disk.files, before.disk.rows[id := row.(phase := phase)]), Idle, before.used + {id},
                          before.marked)
    requires forall name :: name != Temp(id) && name != Final(id) ==> AgreeFile(now.disk, before.disk, name)
    requires Final(id) in now.disk.files ==> now.disk.files[Final(id)] == row.ciphertext
    requires phase == Writing || (phase == Ready && Final(id) in now.disk.files)
    ensures Inv(k, now)
  {
    FreshIsAbsent(k, before, id);
    forall other
      ensures Sound(k, now, other)
    {
      assert Sound(k, before, other);
      assert AgreeFile(now.disk, before.disk, Final(other)) || other == id;
    }
    forall name | name in now.disk.files
      ensures !name.Other?
    {
      assert AgreeFile(now.disk, before.disk, name) || name == Temp(id) || name == Final(id);
    }
  }

  // ----- Claimed records -----

  predicate Listed(records: seq<(Id, Row)>, id: Id) {
    exists i :: 0 <= i < |records| && records[i].0 == id && records[i].1.phase == Deleting
  }

  lemma ListedStep(records: seq<(Id, Row)>, i: nat)
    requires i < |records|
    ensures forall id :: Listed(records[..i + 1], id) <==>
                         Listed(records[..i], id) || (id == records[i].0 && records[i].1.phase == Deleting)
    ensures records[i].1.phase == Deleting ==> Listed(records, records[i].0)
  {
    var longer := records[..i + 1];
    forall id: Id
      ensures Listed(longer, id) <==> Listed(records[..i], id) || (id == records[i].0 && records[i].1.phase == Deleting)
    {
      assert longer[i] == records[i];
      if Listed(longer, id) {
        var j :| 0 <= j < |longer| && longer[j].0 == id && longer[j].1.phase == Deleting;
        assert j < i ==> records[..i][j] == longer[j];
      }
      if Listed(records[..i], id) {
        var j :| 0 <= j < i && records[..i][j].0 == id && records[..i][j].1.phase == Deleting;
        assert longer[j] == records[..i][j];
      }
    }
  }

  /** `ids` are the first of all, in ascending order, and `rest` the others. */
  ghost predicate FirstOf(all: set<Id>, ids: seq<Id>, rest: set<Id>) {
    && (forall id :: id in all <==> id in ids || id in rest)
    && (forall i, j :: 0 <= i < j < |ids| ==> ids[i] < ids[j])
    && (forall id, i :: id in rest && 0 <= i < |ids| ==> ids[i] < id)
  }

  lemma FirstGrows(all: set<Id>, ids: seq<Id>, rest: set<Id>, least: Id)
    requires FirstOf(all, ids, rest) && least in rest && forall id :: id in rest ==> least <= id
    ensures FirstOf(all, ids + [least], rest - {least})
  {
    assert forall id :: id in ids + [least] <==> id in ids || id == least;
  }

  function Also(failed: bool, o: Outcome): Outcome {
    Outcome(o.disk, failed || o.failed)
  }

  lemma VisitStep(k: Checks, d: Disk, left: seq<Name>, f: Faults, known: bool, next: Disk, bad: bool, failed: bool)
    requires left != [] && Outcome(next, bad) == Visit(k, d, left[0], f) && failed == (known || bad)
    ensures Also(known, VisitAll(k, d, left, f)) == Also(failed, VisitAll(k, next, left[1..], f))
  {
  }

  // ----- The table pass -----

  /** The rows up to `last` are done, in ascending order. */
  ghost predicate Covered(start: Disk, done: seq<Id>, last: int) {
    && (forall i, j :: 0 <= i < j < |done| ==> done[i] < done[j])
    && (forall id :: id in done <==> id in start.rows && id <= last)
  }

  /** A query's answer, in terms of the rows at the start of the pass. */
  lemma QueryOfStart(start: Disk, now: Disk, done: seq<Id>, f: Faults, failed: bool, last: int, ids: seq<Id>)
    requires Covered(start, done, last) && Outcome(now, failed) == SweepAll(start, done, f)
    requires forall i :: 0 <= i < |ids| ==> ids[i] in now.rows && last < ids[i]
    requires forall i, j :: 0 <= i < j < |ids| ==> ids[i] < ids[j]
    requires forall id, i :: id in now.rows && last < id && id !in ids && 0 <= i < |ids| ==> ids[i] < id
    requires ids == [] ==> forall id :: id in now.rows ==> id <= last
    ensures Behind(start, last, ids) && Distinct(done + ids)
    ensures ids == [] ==> RowList(done, start)
  {
    assert Distinct(done);
    SweepAllExact(start, done, f);
    assert forall i :: 0 <= i < |done| ==> done[i] in done;
  }

  /** The first rows behind `last`. */
  ghost predicate Behind(start: Disk, last: int, ids: seq<Id>) {
    && (forall i :: 0 <= i < |ids| ==> ids[i] in start.rows && last < ids[i])
    && (forall i, j :: 0 <= i < j < |ids| ==> ids[i] < ids[j])
    && (forall id, i :: id in start.rows && last < id && id !in ids && 0 <= i < |ids| ==> ids[i] < id)
  }

  lemma CoveredGrows(start: Disk, done: seq<Id>, last: int, ids: seq<Id>)
    requires Covered(start, done, last) && Behind(start, last, ids) && ids != []
    ensures Covered(start, done + ids, ids[|ids| - 1])
  {
    assert forall i :: 0 <= i < |done| ==> done[i] in done;
    forall id: Id
      ensures id in done + ids <==> id in start.rows && id <= ids[|ids| - 1]
    {
      if id in ids {
        var i :| 0 <= i < |ids| && ids[i] == id;
      }
    }
  }

  lemma NextRow(start: Disk, before: seq<Id>, ids: seq<Id>, i: nat)
    requires Distinct(before + ids) && i < |ids|
    ensures Distinct(before + ids[..i]) && ids[i] !in before + ids[..i]
    ensures before + ids[..i] + [ids[i]] == before + ids[..i + 1]
  {
    var all, done := before + ids, before + ids[..i];
    assert forall j :: 0 <= j < |done| ==> done[j] == all[j];
    assert all[|done|] == ids[i];
  }

  lemma SweepOne(start: Disk, done: seq<Id>, f: Faults, now: Disk, failed: bool, id: Id)
    requires Distinct(done) && Outcome(now, failed) == SweepAll(start, done, f)
    requires id in start.rows && id !in done
    ensures id in now.rows && SweepAll(start, done + [id], f) == Also(failed, Sweep(now, id, f))
  {
    SweepAllExact(start, done, f);
    SweepAllAppend(start, done, id, f);
  }

  lemma {:induction false} SweepAllAppend(d: Disk, ids: seq<Id>, id: Id, f: Faults)
    ensures var before := SweepAll(d, ids, f);
            SweepAll(d, ids + [id], f) == Also(before.failed, Sweep(before.disk, id, f))
    decreases |ids|
  {
    if ids != [] {
      assert (ids + [id])[1..] == ids[1..] + [id];
      SweepAllAppend(Sweep(d, ids[0], f).disk, ids[1..], id, f);
    } else {
      assert ids + [id] == [id] && [id][1..] == [];
    }
  }
}
