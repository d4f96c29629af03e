/** The artifact directory and its table: what reconciliation does to them, and the steps of saving,
    marking and removing that a crash may cut anywhere. */
module ArtifactStore {
  import opened Bytes
  import opened ArtifactCodec

  type Id = nat

  datatype Phase = Writing | Ready | Deleting

  /** A metadata row. `ciphertext` stands for the recorded size and digest of the file. */
  datatype Row = Row(record: Record, ciphertext: Bytes, phase: Phase)

  datatype Name = Sentinel | Temp(id: Id) | Final(id: Id) | Other(tag: nat)

  datatype Disk = Disk(files: map<Name, Bytes>, rows: map<Id, Row>)
  {
    function Remove(name: Name): Disk {
      this.(files := files - {name})
    }

    function Put(name: Name, content: Bytes): Disk {
      this.(files := files[name := content])
    }

    function Drop(id: Id): Disk {
      this.(rows := rows - {id})
    }

    function Move(id: Id, phase: Phase): Disk
      requires id in rows
    {
      this.(rows := rows[id := rows[id].(phase := phase)])
    }
  }

  /** What decryption and the shape check say of a file. */
  datatype Checks = Checks(decrypts: (Record, Bytes) -> bool, shaped: Bytes -> bool)

  /** The removals and table updates that fail, without effect, in one reconciliation. */
  datatype Faults = Faults(remove: Name -> bool, update: Id -> bool, sweep: Id -> bool)

  datatype Outcome = Outcome(disk: Disk, failed: bool)

  // ----- Reconciliation -----

  function VisitFinal(k: Checks, d: Disk, id: Id, f: Faults): Outcome
    requires Final(id) in d.files
  {
    var name, content := Final(id), d.files[Final(id)];
    if id !in d.rows then
      if !k.shaped(content) || f.remove(name) then Outcome(d, true) else Outcome(d.Remove(name), false)
    else match d.rows[id].phase
      case Writing =>
        if content != d.rows[id].ciphertext || !k.decrypts(d.rows[id].record, content)
           || f.update(id) then Outcome(d, true)
        else Outcome(d.Move(id, Ready), false)
      case Ready => Outcome(d, content != d.rows[id].ciphertext)
      case Deleting =>
        if f.remove(name) then Outcome(d, true)
        else if f.update(id) then Outcome(d.Remove(name), true)
        else Outcome(d.Remove(name).Drop(id), false)
  }

  /** One directory entry. */
  function Visit(k: Checks, d: Disk, name: Name, f: Faults): Outcome {
    if name !in d.files || name == Sentinel then Outcome(d, false)
    else match name
      case Temp(_) => if f.remove(name) then Outcome(d, true) else Outcome(d.Remove(name), false)
      case Final(id) => VisitFinal(k, d, id, f)
      case _ => Outcome(d, true)
  }

  function VisitAll(k: Checks, d: Disk, names: seq<Name>, f: Faults): Outcome
    decreases |names|
  {
    if names == [] then Outcome(d, false)
    else
      var first := Visit(k, d, names[0], f);
      var others := VisitAll(k, first.disk, names[1..], f);
      Outcome(others.disk, first.failed || others.failed)
  }

  /** One row: it goes when its file is missing. */
  function Sweep(d: Disk, id: Id, f: Faults): Outcome {
    if id !in d.rows || Final(id) in d.files then Outcome(d, false)
    else if f.sweep(id) then Outcome(d, true)
    else Outcome(d.Drop(id), false)
  }

  function SweepAll(d: Disk, ids: seq<Id>, f: Faults): Outcome
    decreases |ids|
  {
    if ids == [] then Outcome(d, false)
    else
      var first := Sweep(d, ids[0], f);
      var others := SweepAll(first.disk, ids[1..], f);
      Outcome(others.disk, first.failed || others.failed)
  }

  predicate Distinct<T(==)>(s: seq<T>) {
    forall i, j :: 0 <= i < j < |s| ==> s[i] != s[j]
  }

  /** A directory listing, in whatever order the directory gives it. */
  ghost predicate Listing(names: seq<Name>, d: Disk) {
    Distinct(names) && forall name :: name in names <==> name in d.files
  }

  ghost predicate RowList(ids: seq<Id>, d: Disk) {
    Distinct(ids) && forall id :: id in ids <==> id in d.rows
  }

  /** The directory pass over `names`, then the table pass over `ids`. */
  function Reconcile(k: Checks, d: Disk, names: seq<Name>, ids: seq<Id>, f: Faults): Outcome {
    var visited := VisitAll(k, d, names, f);
    var swept := SweepAll(visited.disk, ids, f);
    Outcome(swept.disk, visited.failed || swept.failed)
  }

  ghost predicate Lists(k: Checks, d: Disk, names: seq<Name>, ids: seq<Id>, f: Faults) {
    Listing(names, d) && RowList(ids, VisitAll(k, d, names, f).disk)
  }

  // ----- Every entry is settled on its own -----

  /** Both disks hold the same file under this name and the same row beside it. */
  predicate AgreeFile(a: Disk, b: Disk, name: Name) {
    (name in a.files <==> name in b.files) && (name in a.files ==> a.files[name] == b.files[name])
  }

  predicate AgreeRow(a: Disk, b: Disk, id: Id) {
    (id in a.rows <==> id in b.rows) && (id in a.rows ==> a.rows[id] == b.rows[id])
  }

  predicate Agree(a: Disk, b: Disk, name: Name) {
    AgreeFile(a, b, name) && (name.Final? ==> AgreeRow(a, b, name.id))
  }

  lemma VisitIsLocal(k: Checks, d: Disk, name: Name, f: Faults, other: Name)
    requires other != name
    ensures Agree(Visit(k, d, name, f).disk, d, other)
  {
  }

  lemma VisitDependsLocally(k: Checks, a: Disk, b: Disk, name: Name, f: Faults)
    requires Agree(a, b, name)
    ensures Agree(Visit(k, a, name, f).disk, Visit(k, b, name, f).disk, name)
    ensures Visit(k, a, name, f).failed == Visit(k, b, name, f).failed
  {
  }

  /** The directory pass leaves each listed entry as one visit to it would, and all else as it was. */
  lemma {:induction false} VisitAllPointwise(k: Checks, d: Disk, names: seq<Name>, f: Faults, name: Name)
    requires Distinct(names)
    ensures var after := VisitAll(k, d, names, f);
            && Agree(after.disk, if name in names then Visit(k, d, name, f).disk else d, name)
            && (name in names && Visit(k, d, name, f).failed ==> after.failed)
    decreases |names|
  {
    if names != [] {
      var first := Visit(k, d, names[0], f);
      VisitAllPointwise(k, first.disk, names[1..], f, name);
      if name == names[0] {
        assert name !in names[1..];
      } else {
        VisitIsLocal(k, d, names[0], f, name);
        VisitDependsLocally(k, first.disk, d, name, f);
        assert name in names <==> name in names[1..];
      }
    }
  }

  lemma {:induction false} VisitAllSucceeds(k: Checks, d: Disk, names: seq<Name>, f: Faults)
    requires Distinct(names) && forall i :: 0 <= i < |names| ==> !Visit(k, d, names[i], f).failed
    ensures !VisitAll(k, d, names, f).failed
    decreases |names|
  {
    if names != [] {
      var first := Visit(k, d, names[0], f);
      forall i | 0 <= i < |names[1..]|
        ensures !Visit(k, first.disk, names[1..][i], f).failed
      {
        var name := names[i + 1];
        VisitIsLocal(k, d, names[0], f, name);
        VisitDependsLocally(k, first.disk, d, name, f);
      }
      VisitAllSucceeds(k, first.disk, names[1..], f);
    }
  }

  lemma {:induction false} SweepAllExact(d: Disk, ids: seq<Id>, f: Faults)
    requires Distinct(ids)
    ensures var after := SweepAll(d, ids, f);
            && after.disk.files == d.files
            && (forall id :: id in after.disk.rows <==>
                  id in d.rows && !(id in ids && Final(id) !in d.files && !f.sweep(id)))
            && (forall id :: id in after.disk.rows ==> after.disk.rows[id] == d.rows[id])
            && (after.failed <==> exists id :: id in ids && id in d.rows && Final(id) !in d.files && f.sweep(id))
    decreases |ids|
  {
    if ids != [] {
      var first := Sweep(d, ids[0], f);
      SweepAllExact(first.disk, ids[1..], f);
      assert forall id :: id in ids <==> id == ids[0] || id in ids[1..];
    }
  }

  // ----- What a successful reconciliation leaves -----

  /** No temporary or unknown file, final files and rows in bijection, every row ready, and every file
      exactly the recorded one. */
  ghost predicate Clean(d: Disk) {
    && (forall name :: name in d.files ==> name.Sentinel? || name.Final?)
    && (forall id :: id in d.rows <==> Final(id) in d.files)
    && (forall id :: id in d.rows ==> d.rows[id].phase == Ready && d.files[Final(id)] == d.rows[id].ciphertext)
  }

  /** From any disk whatever: a reconciliation that reports no error leaves it clean. */
  lemma SuccessfulReconcileIsClean(k: Checks, d: Disk, names: seq<Name>, ids: seq<Id>, f: Faults)
    requires Lists(k, d, names, ids, f) && !Reconcile(k, d, names, ids, f).failed
    ensures Clean(Reconcile(k, d, names, ids, f).disk)
  {
    var visited := VisitAll(k, d, names, f).disk;
    var after := Reconcile(k, d, names, ids, f).disk;
    SweepAllExact(visited, ids, f);
    forall name
      ensures name in after.files ==> name.Sentinel? || name.Final?
    {
      VisitAllPointwise(k, d, names, f, name);
    }
    forall id: Id
      ensures id in after.rows <==> Final(id) in after.files
      ensures id in after.rows ==> after.rows[id].phase == Ready && after.files[Final(id)] == after.rows[id].ciphertext
    {
      VisitAllPointwise(k, d, names, f, Final(id));
    }
  }

  /** A clean disk is left alone, without error, whatever the listing order and the faults. */
  lemma CleanIsStable(k: Checks, d: Disk, names: seq<Name>, ids: seq<Id>, f: Faults)
    requires Clean(d) && Lists(k, d, names, ids, f)
    ensures Reconcile(k, d, names, ids, f) == Outcome(d, false)
  {
    VisitsOfClean(k, d, names, f);
    SweepAllExact(d, ids, f);
    var after := SweepAll(d, ids, f).disk;
    assert after.rows == d.rows;
  }

  lemma {:induction false} VisitsOfClean(k: Checks, d: Disk, names: seq<Name>, f: Faults)
    requires Clean(d)
    ensures VisitAll(k, d, names, f) == Outcome(d, false)
    decreases |names|
  {
    if names != [] {
      VisitsOfClean(k, d, names[1..], f);
    }
  }

  /** Reconciling twice is reconciling once. */
  lemma ReconcileIsIdempotent(k: Checks, d: Disk, names: seq<Name>, ids: seq<Id>, f: Faults,
                              names': seq<Name>, ids': seq<Id>, f': Faults)
    requires Lists(k, d, names, ids, f) && !Reconcile(k, d, names, ids, f).failed
    requires Lists(k, Reconcile(k, d, names, ids, f).disk, names', ids', f')
    ensures Reconcile(k, Reconcile(k, d, names, ids, f).disk, names', ids', f')
            == Outcome(Reconcile(k, d, names, ids, f).disk, false)
  {
    SuccessfulReconcileIsClean(k, d, names, ids, f);
    CleanIsStable(k, Reconcile(k, d, names, ids, f).disk, names', ids', f');
  }

  /** No ready row whose file is there is ever dropped or its file touched, with or without errors. */
  lemma ReadyIsKept(k: Checks, d: Disk, names: seq<Name>, ids: seq<Id>, f: Faults, id: Id)
    requires Lists(k, d, names, ids, f)
    requires id in d.rows && d.rows[id].phase == Ready && Final(id) in d.files
    ensures Agree(Reconcile(k, d, names, ids, f).disk, d, Final(id))
  {
    VisitAllPointwise(k, d, names, f, Final(id));
    SweepAllExact(VisitAll(k, d, names, f).disk, ids, f);
  }

  /** A saved file that a crash left behind a writing row is published, not lost. */
  lemma CompleteWriteIsPublished(k: Checks, d: Disk, names: seq<Name>, ids: seq<Id>, f: Faults, id: Id)
    requires Lists(k, d, names, ids, f) && !Reconcile(k, d, names, ids, f).failed
    requires id in d.rows && d.rows[id].phase == Writing && Final(id) in d.files
    ensures var after := Reconcile(k, d, names, ids, f).disk;
            && id in after.rows && after.rows[id] == d.rows[id].(phase := Ready)
            && Final(id) in after.files && after.files[Final(id)] == d.files[Final(id)]
  {
    VisitAllPointwise(k, d, names, f, Final(id));
    SweepAllExact(VisitAll(k, d, names, f).disk, ids, f);
  }

  // ----- The steps of saving and removing -----

  /** The operation under way. The store's lock admits one at a time. */
  datatype Job =
    | Idle
    | Inserted(id: Id)
    | Filling(id: Id)
    | Published(id: Id)
    | DropTemp(id: Id)
    | DropRow(id: Id)
    | DropFile(id: Id)
    | Removing(id: Id)

  /** `used` are the identifiers ever given out, `marked` those that were claimed for deletion. */
  datatype State = State(disk: Disk, job: Job, used: set<Id>, marked: set<Id>)

  datatype Step =
    | Insert(id: Id, row: Row)
    | CreateTemp
    | WritePart(upto: nat)
    | Publish
    | Finalize
    | Fail
    | CleanUpStep(ok: bool)
    | Mark(ids: set<Id>)
    | RemoveFile(id: Id)
    | RemoveRow(ok: bool)
    | VisitEntry(name: Name, faults: Faults)
    | SweepRow(id: Id, faults: Faults)
    | Crash

  function MarkRows(rows: map<Id, Row>, ids: set<Id>): map<Id, Row> {
    map id | id in rows :: if id in ids && rows[id].phase == Ready then rows[id].(phase := Deleting) else rows[id]
  }

  /** A file and row that a save may hand to the store: the file passes both checks. */
  predicate Saved(k: Checks, row: Row) {
    row.phase == Writing && k.shaped(row.ciphertext)
    && k.decrypts(row.record, row.ciphertext)
  }

  predicate Enabled(k: Checks, s: State, t: Step) {
    match t
    case Insert(id, row) => s.job == Idle && id !in s.used && Saved(k, row)
    case CreateTemp => s.job.Inserted?
    case WritePart(upto) => s.job.Filling? && s.job.id in s.disk.rows && Temp(s.job.id) in s.disk.files
                            && |s.disk.files[Temp(s.job.id)]| <= upto <= |s.disk.rows[s.job.id].ciphertext|
    case Publish => s.job.Filling? && s.job.id in s.disk.rows && Temp(s.job.id) in s.disk.files
                    && s.disk.files[Temp(s.job.id)] == s.disk.rows[s.job.id].ciphertext
                    && Final(s.job.id) !in s.disk.files
    case Finalize => s.job.Published? && s.job.id in s.disk.rows && s.disk.rows[s.job.id].phase == Writing
    case Fail => s.job.Inserted? || s.job.Filling? || s.job.Published?
    case CleanUpStep(_) => s.job.DropTemp? || s.job.DropRow? || s.job.DropFile?
    case Mark(_) => s.job == Idle
    case RemoveFile(id) => s.job == Idle && id in s.marked
    case RemoveRow(_) => s.job.Removing?
    case VisitEntry(_, _) => s.job == Idle
    case SweepRow(_, _) => s.job == Idle
    case Crash => true
  }

  function CleanStep(s: State, ok: bool): State
    requires s.job.DropTemp? || s.job.DropRow? || s.job.DropFile?
  {
    var id, d := s.job.id, s.disk;
    match s.job
    case DropTemp(_) => s.(disk := if ok then d.Remove(Temp(id)) else d, job := DropRow(id))
    case DropRow(_) =>
      s.(disk := if ok && id in d.rows && d.rows[id].phase == Writing then d.Drop(id) else d, job := DropFile(id))
    case DropFile(_) => s.(disk := if ok then d.Remove(Final(id)) else d, job := Idle)
  }

  function Next(k: Checks, s: State, t: Step): State
    requires Enabled(k, s, t)
  {
    var d := s.disk;
    match t
    case Insert(id, row) => s.(disk := d.(rows := d.rows[id := row]), job := Inserted(id), used := s.used + {id})
    case CreateTemp => s.(disk := d.Put(Temp(s.job.id), []), job := Filling(s.job.id))
    case WritePart(upto) => s.(disk := d.Put(Temp(s.job.id), d.rows[s.job.id].ciphertext[..upto]))
    case Publish =>
      s.(disk := d.Remove(Temp(s.job.id)).Put(Final(s.job.id), d.files[Temp(s.job.id)]), job := Published(s.job.id))
    case Finalize => s.(disk := d.Move(s.job.id, Ready), job := Idle)
    case Fail => s.(job := if s.job.Filling? then DropTemp(s.job.id) else DropRow(s.job.id))
    case CleanUpStep(ok) => CleanStep(s, ok)
    case Mark(ids) =>
      s.(disk := d.(rows := MarkRows(d.rows, ids)),
         marked := s.marked + set id | id in ids && id in d.rows && d.rows[id].phase != Writing)
    case RemoveFile(id) => s.(disk := d.Remove(Final(id)), job := Removing(id))
    case RemoveRow(ok) =>
      s.(disk := if ok && s.job.id in d.rows && d.rows[s.job.id].phase == Deleting then d.Drop(s.job.id) else d,
         job := Idle)
    case VisitEntry(name, f) => s.(disk := Visit(k, d, name, f).disk)
    case SweepRow(id, f) => s.(disk := Sweep(d, id, f).disk)
    case Crash => s.(job := Idle)
  }
}
