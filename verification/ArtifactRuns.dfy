/** Every run of the artifact store: saves, deletions and reconciliations, cut by crashes anywhere. */
module ArtifactRuns {
  import opened Bytes
  import opened Envelope
  import opened ArtifactCodec
  import opened ArtifactStore

  // ----- The invariant -----

  /** What holds of one identifier's files and row. */
  predicate Sound(k: Checks, s: State, id: Id) {
    var d := s.disk;
    && (id in d.rows ==>
          && id in s.used && k.shaped(d.rows[id].ciphertext) && k.decrypts(d.rows[id].record, d.rows[id].ciphertext)
          && (d.rows[id].phase == Ready ==> Final(id) in d.files)
          && (id in s.marked ==> d.rows[id].phase == Deleting))
    && (Final(id) in d.files ==>
          && id in s.used && k.shaped(d.files[Final(id)])
          && (id in d.rows ==> d.files[Final(id)] == d.rows[id].ciphertext))
    && (id in s.marked ==> id in s.used)
  }

  /** The identifier being saved is new and still unmarked; a published one has its file. */
  predicate JobSound(s: State) {
    match s.job
    case Idle => true
    case Removing(id) => id in s.marked
    case _ =>
      var id := s.job.id;
      && id in s.used && id !in s.marked
      && (id in s.disk.rows ==> s.disk.rows[id].phase == Writing)
      && (s.job.Published? ==> Final(id) in s.disk.files)
  }

  ghost predicate Inv(k: Checks, s: State) {
    && (forall id :: Sound(k, s, id))
    && (forall name :: name in s.disk.files ==> !name.Other?)
    && JobSound(s)
  }

  ghost predicate Start(s: State) {
    s == State(Disk(s.disk.files, map[]), Idle, {}, {}) && forall name :: name in s.disk.files ==> name == Sentinel
  }

  lemma StartIsSound(k: Checks, s: State)
    requires Start(s)
    ensures Inv(k, s)
  {
  }

  /** Every step keeps the invariant. */
  lemma StepKeepsInv(k: Checks, s: State, t: Step)
    requires Inv(k, s) && Enabled(k, s, t)
    ensures Inv(k, Next(k, s, t))
  {
    var n := Next(k, s, t);
    forall id: Id
      ensures Sound(k, n, id)
    {
      assert Sound(k, s, id);
    }
    JobKept(k, s, t);
  }

  lemma JobKept(k: Checks, s: State, t: Step)
    requires Inv(k, s) && Enabled(k, s, t)
    ensures JobSound(Next(k, s, t))
  {
    if t.Insert? {
      assert Sound(k, s, t.id);
    }
  }

  // ----- Runs -----

  ghost predicate CanRun(k: Checks, s: State, steps: seq<Step>)
    decreases |steps|
  {
    steps == [] || (Enabled(k, s, steps[0]) && CanRun(k, Next(k, s, steps[0]), steps[1..]))
  }

  ghost function Run(k: Checks, s: State, steps: seq<Step>): State
    requires CanRun(k, s, steps)
    decreases |steps|
  {
    if steps == [] then s else Run(k, Next(k, s, steps[0]), steps[1..])
  }

  lemma {:induction false} RunKeepsInv(k: Checks, s: State, steps: seq<Step>)
    requires Inv(k, s) && CanRun(k, s, steps)
    ensures Inv(k, Run(k, s, steps))
    decreases |steps|
  {
    if steps != [] {
      StepKeepsInv(k, s, steps[0]);
      RunKeepsInv(k, Next(k, s, steps[0]), steps[1..]);
    }
  }

  function NoFaults(): Faults {
    Faults(_ => false, _ => false, _ => false)
  }

  /** After any run, however cut, a reconciliation without input or output faults succeeds, so that the
      disk is clean afterwards: nothing a crash leaves behind is ever beyond repair. */
  lemma RunsReconcile(k: Checks, s: State, steps: seq<Step>, names: seq<Name>, ids: seq<Id>)
    requires Start(s) && CanRun(k, s, steps)
    requires Lists(k, Run(k, s, steps).disk, names, ids, NoFaults())
    ensures var after := Reconcile(k, Run(k, s, steps).disk, names, ids, NoFaults());
            !after.failed && Clean(after.disk)
  {
    StartIsSound(k, s);
    RunKeepsInv(k, s, steps);
    SoundReconciles(k, Run(k, s, steps), names, ids);
    SuccessfulReconcileIsClean(k, Run(k, s, steps).disk, names, ids, NoFaults());
  }

  lemma SoundVisit(k: Checks, s: State, name: Name)
    requires Inv(k, s)
    ensures !Visit(k, s.disk, name, NoFaults()).failed
  {
    if name.Final? {
      assert Sound(k, s, name.id);
    }
  }

  lemma SoundReconciles(k: Checks, s: State, names: seq<Name>, ids: seq<Id>)
    requires Inv(k, s) && Lists(k, s.disk, names, ids, NoFaults())
    ensures !Reconcile(k, s.disk, names, ids, NoFaults()).failed
  {
    forall i | 0 <= i < |names|
      ensures !Visit(k, s.disk, names[i], NoFaults()).failed
    {
      SoundVisit(k, s, names[i]);
    }
    VisitAllSucceeds(k, s.disk, names, NoFaults());
    SweepAllExact(VisitAll(k, s.disk, names, NoFaults()).disk, ids, NoFaults());
  }

  // ----- Durability -----

  ghost predicate Holds(s: State, id: Id, row: Row) {
    && id in s.disk.rows && s.disk.rows[id] == row.(phase := Ready)
    && Final(id) in s.disk.files && s.disk.files[Final(id)] == row.ciphertext
  }

  predicate MarksNot(t: Step, id: Id) {
    t.Mark? ==> id !in t.ids
  }

  lemma StepKeepsReady(k: Checks, s: State, t: Step, id: Id, row: Row)
    requires Inv(k, s) && Enabled(k, s, t) && MarksNot(t, id) && Holds(s, id, row)
    ensures Holds(Next(k, s, t), id, row)
  {
    assert Sound(k, s, id);
  }

  /** A ready artifact keeps its row and file through every run that does not mark it for deletion. */
  lemma {:induction false} ReadyIsDurable(k: Checks, s: State, steps: seq<Step>, id: Id, row: Row)
    requires Inv(k, s) && CanRun(k, s, steps) && Holds(s, id, row)
    requires forall i :: 0 <= i < |steps| ==> MarksNot(steps[i], id)
    ensures Holds(Run(k, s, steps), id, row)
    decreases |steps|
  {
    if steps != [] {
      assert MarksNot(steps[0], id);
      StepKeepsReady(k, s, steps[0], id, row);
      StepKeepsInv(k, s, steps[0]);
      ReadyIsDurable(k, Next(k, s, steps[0]), steps[1..], id, row);
    }
  }

  /** The identifiers that the steps insert. */
  ghost predicate InsertedBy(steps: seq<Step>, id: Id, row: Row) {
    exists i :: 0 <= i < |steps| && steps[i] == Insert(id, row)
  }

  /** Rows come from inserts: what a run leaves under an identifier is what was inserted, but for its phase. */
  lemma {:induction false} RowsComeFromInserts(k: Checks, s: State, steps: seq<Step>, id: Id) returns (row: Row)
    requires CanRun(k, s, steps) && id in Run(k, s, steps).disk.rows
    ensures Run(k, s, steps).disk.rows[id] == row.(phase := Run(k, s, steps).disk.rows[id].phase)
    ensures InsertedBy(steps, id, row) || (id in s.disk.rows && s.disk.rows[id] == row)
    decreases |steps|
  {
    if steps == [] {
      row := s.disk.rows[id];
    } else {
      var n := Next(k, s, steps[0]);
      row := RowsComeFromInserts(k, n, steps[1..], id);
      if InsertedBy(steps[1..], id, row) {
        var i :| 0 <= i < |steps[1..]| && steps[1..][i] == Insert(id, row);
        assert steps[i + 1] == Insert(id, row);
      } else if steps[0].Insert? && steps[0].id == id {
        assert steps[0] == Insert(id, row);
      } else {
        RowOfStep(k, s, steps[0], id);
        row := s.disk.rows[id];
      }
    }
  }

  lemma RowOfStep(k: Checks, s: State, t: Step, id: Id)
    requires Enabled(k, s, t) && !(t.Insert? && t.id == id) && id in Next(k, s, t).disk.rows
    ensures id in s.disk.rows && Next(k, s, t).disk.rows[id]
            == s.disk.rows[id].(phase := Next(k, s, t).disk.rows[id].phase)
  {
  }

  /** A save that a crash cuts is all or nothing: after the run and a successful reconciliation, each
      identifier either has no row and no file, or a ready row as inserted and exactly its file. */
  lemma SaveIsAtomic(k: Checks, s: State, steps: seq<Step>, names: seq<Name>, ids: seq<Id>, f: Faults, id: Id)
    requires Start(s) && CanRun(k, s, steps)
    requires Lists(k, Run(k, s, steps).disk, names, ids, f)
    requires !Reconcile(k, Run(k, s, steps).disk, names, ids, f).failed
    ensures var after := Reconcile(k, Run(k, s, steps).disk, names, ids, f).disk;
            && Temp(id) !in after.files
            && (Final(id) in after.files <==> id in after.rows)
            && (id in after.rows ==>
                  after.files[Final(id)] == after.rows[id].ciphertext
                  && exists row :: InsertedBy(steps, id, row) && after.rows[id] == row.(phase := Ready))
  {
    var d := Run(k, s, steps).disk;
    SuccessfulReconcileIsClean(k, d, names, ids, f);
    var after := Reconcile(k, d, names, ids, f).disk;
    assert Temp(id) !in after.files;
    if id in after.rows {
      VisitAllPointwise(k, d, names, f, Final(id));
      SweepAllExact(VisitAll(k, d, names, f).disk, ids, f);
      assert id in d.rows && after.rows[id] == d.rows[id].(phase := Ready);
      var row := RowsComeFromInserts(k, s, steps, id);
      assert after.rows[id] == row.(phase := Ready);
    }
  }

  /** A save that nothing cuts adds the ready row and its file, and no more. */
  lemma UncutSave(k: Checks, s: State, id: Id, row: Row) returns (steps: seq<Step>)
    requires Inv(k, s) && s.job == Idle && id !in s.used && Saved(k, row) && Temp(id) !in s.disk.files
    ensures CanRun(k, s, steps)
    ensures Run(k, s, steps)
            == State(Disk(s.disk.files[Final(id) := row.ciphertext], s.disk.rows[id := row.(phase := Ready)]),
                     Idle, s.used + {id}, s.marked)
  {
    assert Sound(k, s, id);
    var s1 := Next(k, s, Insert(id, row));
    var s2 := Next(k, s1, CreateTemp);
    var s3 := Next(k, s2, WritePart(|row.ciphertext|));
    assert row.ciphertext[..|row.ciphertext|] == row.ciphertext;
    var s4 := Next(k, s3, Publish);
    var s5 := Next(k, s4, Finalize);
    steps := [Insert(id, row), CreateTemp, WritePart(|row.ciphertext|), Publish, Finalize];
    RunFive(k, s, steps, s1, s2, s3, s4);
    assert s5.disk.files == s.disk.files[Final(id) := row.ciphertext];
    assert s5.disk.rows == s.disk.rows[id := row.(phase := Ready)];
  }

  lemma RunFive(k: Checks, s: State, steps: seq<Step>, s1: State, s2: State, s3: State, s4: State)
    requires |steps| == 5
    requires Enabled(k, s, steps[0]) && s1 == Next(k, s, steps[0])
    requires Enabled(k, s1, steps[1]) && s2 == Next(k, s1, steps[1])
    requires Enabled(k, s2, steps[2]) && s3 == Next(k, s2, steps[2])
    requires Enabled(k, s3, steps[3]) && s4 == Next(k, s3, steps[3])
    requires Enabled(k, s4, steps[4])
    ensures CanRun(k, s, steps) && Run(k, s, steps) == Next(k, s4, steps[4])
  {
    var t1, t2, t3, t4, t5 := steps[1..], steps[2..], steps[3..], steps[4..], steps[5..];
    assert t1[1..] == t2 && t2[1..] == t3 && t3[1..] == t4 && t4[1..] == t5 && t5 == [];
    var s5 := Next(k, s4, steps[4]);
    assert t4[0] == steps[4] && CanRun(k, s5, []) && Run(k, s5, []) == s5;
    assert CanRun(k, s4, t4) && Run(k, s4, t4) == s5;
    assert CanRun(k, s3, t3) && Run(k, s3, t3) == Run(k, s4, t4);
    assert CanRun(k, s2, t2) && Run(k, s2, t2) == Run(k, s3, t3);
    assert CanRun(k, s1, t1) && Run(k, s1, t1) == Run(k, s2, t2);
  }

  // ----- With the codec's own checks -----

  function CodecChecks(c: Cipher, keys: KeySet): Checks {
    Checks((record, content) => DecryptFile(c, content, record, keys).Some?, content => ValidShape(content))
  }

  /** The row that a save inserts. */
  function SavedRow(c: Cipher, o: Owner, plain: Bytes, keys: KeySet, nonces: Nonces): Row
    requires EncryptChunks(c, o, plain, keys, nonces).Some?
  {
    Row(Record(o, |plain|, keys.active.version), FileBytes(EncryptChunks(c, o, plain, keys, nonces).value), Writing)
  }

  function Read(c: Cipher, keys: KeySet, d: Disk, id: Id): Option<Bytes> {
    if id !in d.rows || d.rows[id].phase != Ready || Final(id) !in d.files
       || d.files[Final(id)] != d.rows[id].ciphertext then None
    else DecryptFile(c, d.files[Final(id)], d.rows[id].record, keys)
  }

  /** What a save encrypts passes the checks of every later key set that still holds the key. */
  lemma SavedPassesChecks(c: Cipher, o: Owner, plain: Bytes, keys: KeySet, nonces: Nonces, later: KeySet)
    requires Ideal(c) && EncryptChunks(c, o, plain, keys, nonces).Some?
    requires ValidKeySet(later) && (keys.active == later.active || keys.active in later.previous)
    ensures Saved(CodecChecks(c, later), SavedRow(c, o, plain, keys, nonces))
    ensures var row := SavedRow(c, o, plain, keys, nonces);
            DecryptFile(c, row.ciphertext, row.record, later) == Some(plain)
  {
    ArtifactRoundTrip(c, o, plain, keys, nonces, later);
  }

  /** A saved image reads back as itself after any run that does not mark it, crashes and key changes
      included. */
  lemma SavedIsReadBack(c: Cipher, o: Owner, plain: Bytes, keys: KeySet, nonces: Nonces, later: KeySet,
                        s: State, steps: seq<Step>, id: Id)
    requires Ideal(c) && EncryptChunks(c, o, plain, keys, nonces).Some?
    requires ValidKeySet(later) && (keys.active == later.active || keys.active in later.previous)
    requires Inv(CodecChecks(c, later), s) && CanRun(CodecChecks(c, later), s, steps)
    requires Holds(s, id, SavedRow(c, o, plain, keys, nonces))
    requires forall i :: 0 <= i < |steps| ==> MarksNot(steps[i], id)
    ensures Read(c, later, Run(CodecChecks(c, later), s, steps).disk, id) == Some(plain)
  {
    ReadyIsDurable(CodecChecks(c, later), s, steps, id, SavedRow(c, o, plain, keys, nonces));
    SavedPassesChecks(c, o, plain, keys, nonces, later);
  }
}
