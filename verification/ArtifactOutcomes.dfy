/** What a reconciliation, an uncut failed save and an uncut deletion leave of each identifier, exactly. */
module ArtifactOutcomes {
  import opened Bytes
  import opened Envelope
  import opened ArtifactCodec
  import opened ArtifactStore
  import opened ArtifactRuns

  // ----- Reconciliation, identifier by identifier -----

  /** What is there for an identifier. */
  datatype Found = Nothing | RowOnly(row: Row) | FileOnly(file: Bytes) | Both(row: Row, file: Bytes)

  function FoundAt(d: Disk, id: Id): Found {
    if id in d.rows then
      if Final(id) in d.files then Both(d.rows[id], d.files[Final(id)]) else RowOnly(d.rows[id])
    else if Final(id) in d.files then FileOnly(d.files[Final(id)]) else Nothing
  }

  /** What a reconciliation makes of it: a row without a file goes; a file without a row goes if it has the shape of
      an artifact; a complete saved file is published; a deletion is carried on, where the table pass makes up for an
      update that failed. */
  function Settled(k: Checks, f: Faults, id: Id, found: Found): Found {
    match found
    case Nothing => Nothing
    case RowOnly(_) => if f.sweep(id) then found else Nothing
    case FileOnly(file) => if k.shaped(file) && !f.remove(Final(id)) then Nothing else found
    case Both(row, file) =>
      if row.phase == Writing && file == row.ciphertext && k.decrypts(row.record, file) && !f.update(id) then
        Both(row.(phase := Ready), file)
      else if row.phase == Deleting && !f.remove(Final(id)) then
        if f.update(id) && f.sweep(id) then RowOnly(row) else Nothing
      else found
  }

  /** Whether that is reported as a failure. */
  predicate Complains(k: Checks, f: Faults, id: Id, found: Found) {
    match found
    case Nothing => false
    case RowOnly(_) => f.sweep(id)
    case FileOnly(file) => !k.shaped(file) || f.remove(Final(id))
    case Both(row, file) =>
      match row.phase
      case Writing => file != row.ciphertext || !k.decrypts(row.record, file) || f.update(id)
      case Ready => file != row.ciphertext
      case Deleting => f.remove(Final(id)) || f.update(id)
  }

  /** After the directory pass. */
  lemma VisitSettles(k: Checks, d: Disk, f: Faults, id: Id)
    requires Final(id) in d.files
    ensures var found := FoundAt(Visit(k, d, Final(id), f).disk, id);
            if found.RowOnly? then Settled(k, f, id, FoundAt(d, id)) == Settled(k, f, id, found)
            else Settled(k, f, id, FoundAt(d, id)) == found
  {
  }

  lemma SweptIsSettled(k: Checks, f: Faults, id: Id, visited: Disk, after: Disk, ids: seq<Id>)
    requires RowList(ids, visited) && after == SweepAll(visited, ids, f).disk
    ensures FoundAt(after, id)
            == if FoundAt(visited, id).RowOnly? then Settled(k, f, id, FoundAt(visited, id)) else FoundAt(visited, id)
  {
    SweepAllExact(visited, ids, f);
  }

  lemma IdIsSettled(k: Checks, d: Disk, names: seq<Name>, ids: seq<Id>, f: Faults, id: Id)
    requires Lists(k, d, names, ids, f)
    ensures FoundAt(Reconcile(k, d, names, ids, f).disk, id) == Settled(k, f, id, FoundAt(d, id))
  {
    var visited := VisitAll(k, d, names, f).disk;
    VisitAllPointwise(k, d, names, f, Final(id));
    SweptIsSettled(k, f, id, visited, Reconcile(k, d, names, ids, f).disk, ids);
    if Final(id) in d.files {
      assert FoundAt(visited, id) == FoundAt(Visit(k, d, Final(id), f).disk, id);
      VisitSettles(k, d, f, id);
    } else {
      assert FoundAt(visited, id) == FoundAt(d, id);
    }
  }

  /** From any disk, each identifier, each temporary file and each other name is settled by itself. */
  lemma EachIsSettled(k: Checks, d: Disk, names: seq<Name>, ids: seq<Id>, f: Faults, id: Id, tag: nat)
    requires Lists(k, d, names, ids, f)
    ensures var after := Reconcile(k, d, names, ids, f).disk;
            && FoundAt(after, id) == Settled(k, f, id, FoundAt(d, id))
            && (Temp(id) in after.files <==> Temp(id) in d.files && f.remove(Temp(id)))
            && AgreeFile(after, d, Other(tag)) && AgreeFile(after, d, Sentinel)
  {
    IdIsSettled(k, d, names, ids, f, id);
    VisitAllPointwise(k, d, names, f, Temp(id));
    VisitAllPointwise(k, d, names, f, Other(tag));
    VisitAllPointwise(k, d, names, f, Sentinel);
    SweepAllExact(VisitAll(k, d, names, f).disk, ids, f);
  }

  /** Something on the disk that the reconciliation complains of. */
  ghost predicate HasComplaint(k: Checks, d: Disk, f: Faults) {
    || (exists id: Id :: Complains(k, f, id, FoundAt(d, id)))
    || (exists id: Id :: Temp(id) in d.files && f.remove(Temp(id)))
    || (exists tag: nat :: Other(tag) in d.files)
  }

  lemma VisitComplains(k: Checks, d: Disk, name: Name, f: Faults)
    requires name in d.files
    ensures Visit(k, d, name, f).failed <==>
              match name
              case Sentinel => false
              case Temp(id) => f.remove(name)
              case Final(id) => Complains(k, f, id, FoundAt(d, id))
              case Other(_) => true
  {
  }

  lemma ComplaintIsReported(k: Checks, d: Disk, names: seq<Name>, ids: seq<Id>, f: Faults)
    requires Lists(k, d, names, ids, f) && HasComplaint(k, d, f)
    ensures Reconcile(k, d, names, ids, f).failed
  {
    var visited := VisitAll(k, d, names, f).disk;
    SweepAllExact(visited, ids, f);
    if id: Id :| Complains(k, f, id, FoundAt(d, id)) {
      VisitAllPointwise(k, d, names, f, Final(id));
      if FoundAt(d, id).RowOnly? {
        assert id in visited.rows && Final(id) !in visited.files;
        assert id in ids && f.sweep(id);
      } else {
        VisitComplains(k, d, Final(id), f);
      }
    } else if id: Id :| Temp(id) in d.files && f.remove(Temp(id)) {
      VisitAllPointwise(k, d, names, f, Temp(id));
    } else {
      var tag: nat :| Other(tag) in d.files;
      VisitAllPointwise(k, d, names, f, Other(tag));
    }
  }

  lemma QuietSucceeds(k: Checks, d: Disk, names: seq<Name>, ids: seq<Id>, f: Faults)
    requires Lists(k, d, names, ids, f) && !HasComplaint(k, d, f)
    ensures !Reconcile(k, d, names, ids, f).failed
  {
    var visited := VisitAll(k, d, names, f).disk;
    forall i | 0 <= i < |names|
      ensures !Visit(k, d, names[i], f).failed
    {
      VisitComplains(k, d, names[i], f);
      if names[i].Final? {
        assert !Complains(k, f, names[i].id, FoundAt(d, names[i].id));
      }
    }
    VisitAllSucceeds(k, d, names, f);
    SweepAllExact(visited, ids, f);
    forall id | id in visited.rows && Final(id) !in visited.files
      ensures !f.sweep(id)
    {
      VisitAllPointwise(k, d, names, f, Final(id));
      assert !Complains(k, f, id, FoundAt(d, id));
    }
  }

  /** A failure is reported exactly when there is something to complain of: an unknown name, a file that is not what
      its row records, or a removal or an update that failed. */
  lemma FailureIsReportedExactly(k: Checks, d: Disk, names: seq<Name>, ids: seq<Id>, f: Faults)
    requires Lists(k, d, names, ids, f)
    ensures Reconcile(k, d, names, ids, f).failed <==> HasComplaint(k, d, f)
  {
    if HasComplaint(k, d, f) {
      ComplaintIsReported(k, d, names, ids, f);
    } else {
      QuietSucceeds(k, d, names, ids, f);
    }
  }

  // ----- Uncut operations -----

  ghost predicate Reaches(k: Checks, s: State, steps: seq<Step>, n: State) {
    CanRun(k, s, steps) && Run(k, s, steps) == n
  }

  lemma {:induction false} OneMore(k: Checks, s: State, steps: seq<Step>, m: State, t: Step, n: State)
    requires Reaches(k, s, steps, m) && Enabled(k, m, t) && Next(k, m, t) == n
    ensures Reaches(k, s, steps + [t], n)
    decreases |steps|
  {
    if steps == [] {
      assert steps + [t] == [t] && [t][1..] == [];
    } else {
      assert (steps + [t])[1..] == steps[1..] + [t];
      OneMore(k, Next(k, s, steps[0]), steps[1..], m, t, n);
    }
  }

  /** Where a save may fail: before its file, while writing it, or after it is in place. */
  datatype FailurePoint = BeforeFile | WhileWriting(upto: nat) | AfterPublish

  /** The steps of a save that fails there, and its clean-up. */
  function FailedSave(id: Id, row: Row, at: FailurePoint): seq<Step> {
    var c := CleanUpStep(true);
    match at
    case BeforeFile => [Insert(id, row)] + [Fail] + [c] + [c]
    case WhileWriting(upto) => [Insert(id, row)] + [CreateTemp] + [WritePart(upto)] + [Fail] + [c] + [c] + [c]
    case AfterPublish =>
      [Insert(id, row)] + [CreateTemp] + [WritePart(|row.ciphertext|)] + [Publish] + [Fail] + [c] + [c]
  }

  /** A save that fails and whose clean-up succeeds leaves the disk as it was, and its identifier used up. */
  lemma FailedSaveLeavesNothing(k: Checks, s: State, id: Id, row: Row, at: FailurePoint)
    requires Inv(k, s) && s.job == Idle && id !in s.used && Saved(k, row) && Temp(id) !in s.disk.files
    requires at.WhileWriting? ==> at.upto <= |row.ciphertext|
    ensures Reaches(k, s, FailedSave(id, row, at), s.(used := s.used + {id}))
  {
    assert Sound(k, s, id);
    var c, s0 := CleanUpStep(true), s.(used := s.used + {id});
    var s1 := Next(k, s, Insert(id, row));
    var p1 := [Insert(id, row)];
    OneMore(k, s, [], s, p1[0], s1);
    assert [] + p1 == p1;
    assert s1.disk.rows - {id} == s.disk.rows;
    if at.BeforeFile? {
      BeforeFileFails(k, s, id, row, s1, p1);
    } else {
      var s2 := Next(k, s1, CreateTemp);
      OneMore(k, s, p1, s1, CreateTemp, s2);
      if at.WhileWriting? {
        WritingFails(k, s, id, row, at.upto, s2, p1 + [CreateTemp]);
      } else {
        PublishedFails(k, s, id, row, s2, p1 + [CreateTemp]);
      }
    }
  }

  lemma BeforeFileFails(k: Checks, s: State, id: Id, row: Row, m: State, steps: seq<Step>)
    requires Reaches(k, s, steps, m) && row.phase == Writing && Final(id) !in s.disk.files && id !in s.disk.rows
    requires m == s.(disk := s.disk.(rows := s.disk.rows[id := row]), job := Inserted(id), used := s.used + {id})
    requires s.job == Idle
    ensures var c := CleanUpStep(true); Reaches(k, s, steps + [Fail] + [c] + [c], s.(used := s.used + {id}))
  {
    var c := CleanUpStep(true);
    var f := Next(k, m, Fail);
    OneMore(k, s, steps, m, Fail, f);
    var d := Next(k, f, c);
    assert d.disk.rows == s.disk.rows;
    OneMore(k, s, steps + [Fail], f, c, d);
    assert d.disk.files - {Final(id)} == s.disk.files;
    OneMore(k, s, steps + [Fail] + [c], d, c, s.(used := s.used + {id}));
  }

  lemma WritingFails(k: Checks, s: State, id: Id, row: Row, upto: nat, m: State, steps: seq<Step>)
    requires Reaches(k, s, steps, m) && row.phase == Writing && Final(id) !in s.disk.files && id !in s.disk.rows
    requires Temp(id) !in s.disk.files && s.job == Idle && upto <= |row.ciphertext|
    requires m == s.(disk := Disk(s.disk.files[Temp(id) := []], s.disk.rows[id := row]), job := Filling(id),
                     used := s.used + {id})
    ensures var c := CleanUpStep(true);
            Reaches(k, s, steps + [WritePart(upto)] + [Fail] + [c] + [c] + [c], s.(used := s.used + {id}))
  {
    var c := CleanUpStep(true);
    var w := Next(k, m, WritePart(upto));
    OneMore(k, s, steps, m, WritePart(upto), w);
    var f := Next(k, w, Fail);
    OneMore(k, s, steps + [WritePart(upto)], w, Fail, f);
    var e := Next(k, f, c);
    assert e.disk.files == s.disk.files;
    OneMore(k, s, steps + [WritePart(upto)] + [Fail], f, c, e);
    var d := Next(k, e, c);
    assert d.disk.rows == s.disk.rows;
    OneMore(k, s, steps + [WritePart(upto)] + [Fail] + [c], e, c, d);
    assert d.disk.files - {Final(id)} == s.disk.files;
    OneMore(k, s, steps + [WritePart(upto)] + [Fail] + [c] + [c], d, c, s.(used := s.used + {id}));
  }

  lemma PublishedFails(k: Checks, s: State, id: Id, row: Row, m: State, steps: seq<Step>)
    requires Reaches(k, s, steps, m) && row.phase == Writing && Final(id) !in s.disk.files && id !in s.disk.rows
    requires Temp(id) !in s.disk.files && s.job == Idle
    requires m == s.(disk := Disk(s.disk.files[Temp(id) := []], s.disk.rows[id := row]), job := Filling(id),
                     used := s.used + {id})
    ensures var c, w := CleanUpStep(true), WritePart(|row.ciphertext|);
            Reaches(k, s, steps + [w] + [Publish] + [Fail] + [c] + [c], s.(used := s.used + {id}))
  {
    var c, part := CleanUpStep(true), WritePart(|row.ciphertext|);
    var w := Next(k, m, part);
    assert row.ciphertext[..|row.ciphertext|] == row.ciphertext;
    OneMore(k, s, steps, m, part, w);
    var p := Next(k, w, Publish);
    assert p.disk.files == s.disk.files[Final(id) := row.ciphertext];
    OneMore(k, s, steps + [part], w, Publish, p);
    var f := Next(k, p, Fail);
    OneMore(k, s, steps + [part] + [Publish], p, Fail, f);
    var d := Next(k, f, c);
    assert d.disk.rows == s.disk.rows;
    OneMore(k, s, steps + [part] + [Publish] + [Fail], f, c, d);
    assert d.disk.files - {Final(id)} == s.disk.files;
    OneMore(k, s, steps + [part] + [Publish] + [Fail] + [c], d, c, s.(used := s.used + {id}));
  }

  /** A deletion that nothing cuts: marking makes the ready ones among the identifiers unreadable and leaves every other
      row, and removing one of them then takes its file and its row away, and nothing else. */
  lemma UncutDeletion(k: Checks, s: State, ids: set<Id>, id: Id)
    requires Inv(k, s) && s.job == Idle && id in ids && id in s.disk.rows && s.disk.rows[id].phase == Ready
    ensures Enabled(k, s, Mark(ids))
    ensures var m := Next(k, s, Mark(ids));
            && m.disk.files == s.disk.files && m.disk.rows.Keys == s.disk.rows.Keys
            && (forall other :: other in s.disk.rows ==>
                  m.disk.rows[other] == if other in ids && s.disk.rows[other].phase == Ready
                                        then s.disk.rows[other].(phase := Deleting) else s.disk.rows[other])
            && Reaches(k, m, [RemoveFile(id)] + [RemoveRow(true)],
                       m.(disk := Disk(s.disk.files - {Final(id)}, m.disk.rows - {id})))
  {
    var m := Next(k, s, Mark(ids));
    var r := Next(k, m, RemoveFile(id));
    OneMore(k, m, [], m, RemoveFile(id), r);
    assert [] + [RemoveFile(id)] == [RemoveFile(id)];
    OneMore(k, m, [RemoveFile(id)], r, RemoveRow(true), Next(k, r, RemoveRow(true)));
  }

  /** The row was inserted by the run and is ready, and its file is the one that the row records. */
  ghost predicate Stands(steps: seq<Step>, d: Disk, id: Id, row: Row) {
    && InsertedBy(steps, id, row) && id in d.rows && d.rows[id] == row.(phase := Ready)
    && Final(id) in d.files && d.files[Final(id)] == row.ciphertext
  }

  /** After any run a read gives a plaintext exactly when the row that the run inserted is ready and its file, which is
      then there as it was written, decrypts to that plaintext; and on no disk from a file that is not the recorded
      one. */
  lemma ReadIsExact(c: Cipher, keys: KeySet, s: State, steps: seq<Step>, id: Id, plain: Bytes, other: Disk)
    requires Start(s) && CanRun(CodecChecks(c, keys), s, steps)
    ensures var d := Run(CodecChecks(c, keys), s, steps).disk;
            Read(c, keys, d, id) == Some(plain)
            <==> exists row :: Stands(steps, d, id, row)
                               && DecryptFile(c, row.ciphertext, row.record, keys) == Some(plain)
    ensures Read(c, keys, other, id) == Some(plain) ==>
              var found := FoundAt(other, id);
              found.Both? && found.row.phase == Ready && found.file == found.row.ciphertext
  {
    var k := CodecChecks(c, keys);
    var d := Run(k, s, steps).disk;
    StartIsSound(k, s);
    RunKeepsInv(k, s, steps);
    assert Sound(k, Run(k, s, steps), id);
    if id in d.rows && d.rows[id].phase == Ready {
      var row := RowsComeFromInserts(k, s, steps, id);
      assert Stands(steps, d, id, row);
    }
  }
}
