# A verified model of the codex subscription proxy

This project models the stateful core of the proxy and proves what that core is for: state that survives
crashes, counters that never disagree with the rows they count, and streams that come from one attempt and are
translated faithfully, with the exact condition where the code promises less. It follows the code; where the code
and a comment on it could be read differently, the branch that the code takes is the one modelled.

| area | files | what is proved |
|---|---|---|
| Restoring a backup | `Restore*.dfy` | six path slots and a marker, swapped by single disk changes; atomicity, convergence and the exact refusals over every sequence of crashes and failing operations, and the inverse of a failed step |
| Quotas | `Quota*.dfy` | admission, two-phase reconciliation, release and recovery as transactions; conservation, single and exact charging, limits over runs, and every admission decided as the log of all admissions says |
| Artifact files | `Envelope.dfy`, `EnvelopeBuffers.dfy`, `Bindings.dfy`, `ArtifactCodec.dfy`, `ArtifactFiles.dfy` | the chunked encrypted format over an ideal cipher; exact success, round trip, authenticity |
| Artifact store | `ArtifactStore.dfy`, `ArtifactRuns.dfy`, `ArtifactOutcomes.dfy`, `ArtifactDirectory.dfy` | publishing and deleting across a directory and a table, cut by crashes anywhere, and the reconciler |
| Journal writer | `Journal.dfy` | cutting a stream into frames, whatever the writes |
| Upstream streams | `Sse*.dfy`, `Trimming.dfy` | the event-stream text form and the decoder: which byte streams are accepted, to what, and what is reported of the others |
| Transport | `Transport*.dfy` | WebSocket, its retry, the SSE fallback and the replay after a 401 deliver one attempt only; which attempts are opened and how each ends |
| Chat translation | `Chat*.dfy` | chunks in step with the events over every event sequence, when each event is taken and what the client then has, and exactly when the calls of the terminal response reach the client as they are |
| Credential refresh | `Refresher*.dfy` | single flight, compare-and-save and what is remembered of failures, over every interleaving of threads |

Each area has pure functions that specify the operations, lemmas about them, and (where the code changes state
step by step) classes and loops proved to do exactly what the functions say. Crashes are modelled as a number of
disk changes after which a run stops, or as steps that may happen between any two others; interleavings as
sequences of steps. `dafny verify dfyconfig.toml` checks everything, also with `--warn-contradictory-assumptions`.

Findings, each stated as a lemma:

- Recovery of a restore does refuse when an old half was missing; `RefusalIsExact` says exactly when.
- The size check before encryption admits plaintexts of 64 MiB, which the 64 chunks never hold
  (`AdmittedSizeCanFail`); encryption then fails, and `EncryptionSucceedsExactly` gives the exact bound.
- A chat stream can finish although a tool call of the terminal response was merged with another one
  (`CallIsLost`) or was announced under another name (`CallIsMisnamed`). `CallsArriveExactly` says exactly when all
  calls arrive as they are, and `NamesArriveExactly` when each has a tool of its own under its name.
- A refresh token that was refused for good is tried again although the path held nothing else since, if some caller
  had loaded another token before the refusal and compares it only afterwards (`StaleReaderIsReachable`);
  `TriedAgainExactly` says that this is the only way.

## Model

| member | source | states |
|---|---|---|
| `RestoreProofs.OneRecovery` | internal/server/backup.go:1314-1494 | One recovery from any disk that the protocol can reach, cut anywhere by a crash or by an operation that fails, or not cut: it keeps the protocol's invariant and the fate of the swap (old pair, new pair or refusal), a refusal changes nothing, success shows the fated pair and leaves nothing aside, and each disk change lowers a rank |
| `RestoreProofs.FaultLikeCrash` | internal/server/backup.go:1314-1494 | An operation that fails in a recovery stops it with the disk and the marker copy that a crash in its place would leave, whatever branch was taken |
| `RestoreTheorems.RestoreIsAtomic` | internal/server/backup.go:1033-1123 | For every crash point of the install and every sequence of recoveries, each cut anywhere by a crash or a failing operation (half-done directory removals included), a recovery that reports success shows the complete old pair or the complete new pair, never a mix, and which one was settled when the install crashed; it refuses exactly when that was settled, and fails otherwise only where an operation fails |
| `RestoreTheorems.RecoveriesKeepFate` | internal/server/backup.go:1359-1494 | A choice between old and new never flips across any number of recoveries, cut by crashes or failing operations or not, and a refused disk stays exactly as it is |
| `RestoreTheorems.CompletePairConverges` | internal/server/backup.go:1367-1454 | When both old halves existed, recovery never refuses and fails only where an operation fails; the outcome is the old pair for every marker phase before `artifacts_installed` and the new pair from it on |
| `RestoreTheorems.CrashesAreBounded` | internal/server/backup.go:1359-1494 | The disk changes of all recoveries that were stopped, by crashes or failing operations, together never exceed a rank of the first disk, which is at most 12, so recovery terminates across them |
| `RestoreTheorems.RefusalIsExact` | internal/server/backup.go:1373-1411 | Recovery refuses a disk if and only if the marker is in one of five phases, not both old halves existed and (when none did) exactly the new database is in place; a refusal changes no path and every old and new half still exists whole somewhere |
| `RestoreTheorems.RefusalHappens` | internal/server/backup.go:1410-1411 | For each way in which an old half was missing there is a crash point after which recovery refuses |
| `RestoreTheorems.SingleFailureIsUndone` | internal/server/backup.go:1062-1112 | Exactly one rename, marker update or flush fails without effect: before the first marker nothing changed, before commit the rollback gives back exactly the old pair and removes everything else and the marker, after commit the new pair stays; for every `force` and every `Had` flag |
| `RestoreTheorems.FailureAfterCommit` | internal/server/backup.go:1106-1123 | A failure while tidying after the commit record leaves the new pair, and recovery would keep it |
| `RestoreTheorems.MarkerlessStays` | internal/server/backup.go:1314-1333 | Without a marker, recovery changes nothing, however often it is cut |
| `RestoreAnyDisk.InstallRefusesExactly` | internal/server/backup.go:1033-1062 | On any disk: an install is refused if and only if something is in place and it was not forced, or an earlier restore left its old pair or its marker; a refused install changes nothing |
| `RestoreAnyDisk.RecoveryIsExact` | internal/server/backup.go:1359-1494 | From any disk with a marker, reachable or not: which way an undisturbed recovery takes, which half it reports as lost and exactly when, and that a success leaves the promised pair, no staged or old path and no marker |
| `RestoreInstallProofs.InstallCrash` | internal/server/backup.go:1033-1123 | A crash anywhere in the install leaves a disk that recovery knows; an uncut install puts the whole new pair in place and nothing aside |
| `RestoreInstallProofs.SwapTakes` | internal/server/backup.go:1069-1109 | The swap's stages take exactly their counted number of disk changes, keep the invariant at each, and end committed with the new pair in the targets and the old pair aside |
| `RestoreInstallProofs.RollbackRestores` | internal/server/backup.go:1155-1187 | From every disk in which a failed step can leave the swap, the rollback yields exactly the pre-install targets, no staged or side path and no marker |
| `RestoreProcess.Process.InstallRestoreSet` | internal/server/backup.go:1033-1123 | The install as it changes the disk in place does exactly what the specified install does, under any interruption |
| `RestoreProcess.Process.RollbackRestoreSet` | internal/server/backup.go:1155-1187 | The rollback in place does exactly what the specified rollback does, up to its first error |
| `RestoreProcess.Process.RecoverOldRestorePair` | internal/server/backup.go:1413-1454 | The in-place restoration of the old pair is the specified one, step by step, under any interruption |
| `RestoreProcess.Process.RecoverNewRestorePair` | internal/server/backup.go:1456-1494 | The in-place completion of the new pair is the specified one, step by step, under any interruption |
| `RestoreProcess.Process.RecoverRestoreMarker` | internal/server/backup.go:1359-1411 | The in-place choice between the branches of recovery is the specified one |
| `RestoreProcess.Process.RecoverRestore` | internal/server/backup.go:1314-1333 | The in-place recovery reads the marker and does what the specified recovery does |
| `RestoreProcess.Process.UpdateMarker` | internal/server/backup.go:1150-1153 | A marker update changes the remembered phase even when the write fails, as the code does |
| `RestoreProcess.Process.RemovePath` | internal/server/backup.go:1208-1223 | Removing a directory may be cut half-way and then leaves it torn; removing an absent path is no step |
| `RestoreProcess.RestoreThroughCrashes` | internal/server/backup.go:1033-1494 | A whole run of a crashing install, recoveries cut in any way and a last recovery, executed in place, ends in the complete old or new pair or refuses without a change |
| `QuotaProofs.AdmitConserves` | internal/apikey/quota.go:297-386 | Every admission, refused or granted, keeps counters and buckets equal to the sums over the rows |
| `QuotaProofs.BeginConserves` | internal/apikey/quota.go:421-455 | Recording usage on a pending row keeps the sums |
| `QuotaProofs.OpenRowIsCounted` | internal/apikey/quota.go:482-519 | The key of an open row has a positive count and its bucket holds at least what the row reserved, so the inconsistency checks cannot fire |
| `QuotaProofs.CloseSettles` | internal/apikey/quota.go:482-621 | Closing or releasing an open row never finds the ledger inconsistent; it fails exactly when the charge passes 64 bits, then changes nothing, and otherwise gives the ledger settled from the rows |
| `QuotaRuns.RunConserves` | internal/apikey/quota.go:263-621 | Conservation over every interleaving of admissions (each under a policy of its own), finalizations, applications, releases and recoveries of any owners |
| `QuotaRuns.NeverInconsistent` | internal/apikey/quota.go:482-621 | In every run from the empty ledger, whatever the policies of its admissions, no transaction reports an inconsistent state, a missing bucket or an invalid record |
| `QuotaRuns.RunFollows` | internal/apikey/quota.go:400-621 | Over whole runs a reservation only moves from pending to released without a charge, or to finalizing and from there to closed; its charge is then the tokens and images that a reconciliation of the run reported, and the requests and cost it reported or, when it reported none, those reserved; what is closed or released is never touched again |
| `QuotaRuns.ExecuteSteps` | internal/apikey/quota.go:400-621 | One transaction changes a row only as follows: beginning a reconciliation of it records the charge in these amounts, its release or the recovery of another process gives a pending row up without a charge, its application or a recovery closes a finalizing one under the recorded charge |
| `QuotaRuns.ClosedWasFinalizing` | internal/apikey/quota.go:400-420 | A pending row that a run closes was, at some point of that run, the same row as finalizing with the charge that was then applied |
| `QuotaRuns.ReconcileIsIdempotent` | internal/apikey/quota.go:400-480 | After a reconciliation, reconciling again with any usage or releasing succeeds and changes nothing: one charge at most |
| `QuotaRuns.CrashEquivalence` | internal/apikey/quota.go:400-420 | A crash between the two transactions of a reconciliation, followed by recovery, gives the same ledger as no crash |
| `QuotaRuns.FinishAllOutcome` | internal/apikey/quota.go:482-621 | Finishing any list of open rows succeeds exactly when all charges together fit, and gives the ledger settled from the finished rows |
| `QuotaRuns.OrderLeavesNoTrace` | internal/apikey/quota.go:482-621 | Two orders of finishing the same rows agree on success and on the whole ledger |
| `QuotaRuns.RecoverConserves` | internal/apikey/quota.go:522-566 | Recovery keeps the sums |
| `QuotaRuns.SettleOne` | internal/apikey/quota.go:543-563 | Each row that the recovery loop settles brings it strictly closer to the recovered ledger, or shows that the whole recovery cannot fit |
| `QuotaRuns.SettledAll` | internal/apikey/quota.go:538-540 | When the loop finds no row left, the ledger is the one that recovery specifies |
| `QuotaRuns.RecoveryResolvesAll` | internal/apikey/quota.go:522-566 | A successful recovery closes every finalizing row under its recorded charge, gives up the pending rows of other processes without a charge, and leaves every other row alone |
| `QuotaCharges.ReconcileIsExact` | internal/apikey/quota.go:400-520 | What reconciling does, in amounts: a usage out of range or an unknown reservation is refused; a pending row is closed, its bucket gives back what was reserved and takes the usage's tokens and images, and the usage's requests and cost or, when it reports none, the reserved ones; a recorded charge is applied instead; a charge past 64 bits stays with the row; a finished row stays; nothing else changes |
| `QuotaCharges.ReleaseIsExact` | internal/apikey/quota.go:456-520 | A release gives a pending row up without a charge, its bucket gives back exactly what was reserved and its key one active request, and leaves any other row as it is |
| `QuotaLimits.LimitsHold` | internal/apikey/quota.go:297-386 | When every admission of a key is under one policy, in every run: the key's open rows stay within the concurrency limit, the reserved plus charged requests of each of its buckets within the request limit, and tokens, images and cost within the limit plus the summed overage of closed rows; `PeriodLimitHolds` says the same of the admissions of each interval |
| `QuotaHistory.AdmissionIsJudged` | internal/apikey/quota.go:263-398 | With the key under one policy and a monotone clock, after every run: what an admission answers, told from the log of all admissions and their rows alone, without any counter or bucket. It is refused for the first failing check in the source's order (name, policy, request, ceilings, concurrency, the rolling window until the first instant with room, the first period limit that what the admissions of the aligned interval hold leaves no room for, until that interval ends), and else adds exactly its row |
| `QuotaHistory.PeriodLimitHolds` | internal/apikey/quota.go:311-386 | In every such run, for every interval that starts at a multiple of the duration and every dimension: what the key's admissions of that interval hold, but for charges beyond what was asked for, stays within the limit |
| `QuotaHistory.RequestLimitHolds` | internal/apikey/quota.go:700-705 | No interval that starts at a multiple of the duration ever holds more unreleased admissions of the key than its request limit |
| `QuotaLimits.LimitChecksStayInRange` | internal/apikey/quota.go:768-811 | The 64-bit sums and differences of the limit checks are exact on every reachable ledger |
| `QuotaRolling.SameDecision` | internal/apikey/quota.go:303-309 | The lazily cleaned counter allows an admission exactly when the exact log of the last window does, although cleanup drops at most 256 rows |
| `QuotaRolling.ResetIsLeast` | internal/apikey/quota.go:688-698 | The reset time of a refusal is the least instant at which the log admits again |
| `QuotaRolling.AdmissionTracks` | internal/apikey/quota.go:365-376 | An admission keeps counter, expiry rows and log in step |
| `QuotaRolling.RollingWindowHolds` | internal/apikey/quota.go:297-309 | When the key's admissions are under one policy (other keys under any) and the clock is monotone, in every run: no half-open window holds more admissions than the policy's count, and counter and log decide alike |
| `QuotaRolling.RateRefusalIsExact` | internal/apikey/quota.go:300-309 | In any state of such a run the admission check refuses for rate if and only if the log is full, and names the first instant at which it is not |
| `QuotaStore.Store.CleanupRollingAdmissions` | internal/apikey/quota.go:661-686 | The cleanup loop drops exactly the first 256 due rows and lowers the count by as many |
| `QuotaStore.Store.CheckBucketLimits` | internal/apikey/quota.go:768-796 | The limit check names the first dimension without room, in the source's order |
| `QuotaStore.Store.AdmitRequest` | internal/apikey/quota.go:263-398 | The admission transaction changes state, bucket, rolling rows and reservation as specified, or nothing at all |
| `QuotaStore.Store.ReconcileUsage` | internal/apikey/quota.go:400-420 | The two transactions of a reconciliation, in place |
| `QuotaStore.Store.ReleaseReservation` | internal/apikey/quota.go:456-480 | A release, in place |
| `QuotaStore.Store.LoadBatch` | internal/apikey/quota.go:529-537 | A batch holds the first unresolved rows by identifier, and is short only when it holds all |
| `QuotaStore.Store.RecoverPending` | internal/apikey/quota.go:522-566 | The loop over batches terminates, because the unresolved rows strictly decrease, and yields exactly the specified recovery |
| `Bytes.U32Inverse` | internal/envelope/envelope.go:112-116 | Four big-endian bytes and a 32-bit number determine each other |
| `Envelope.EncryptDecrypt` | internal/envelope/envelope.go:96-185 | An envelope has header, ciphertext and tag, and opens to its plaintext under every key set that still holds the writing key |
| `Envelope.DecryptIsAuthentic` | internal/envelope/envelope.go:137-185 | Whatever opens is byte for byte what sealing its plaintext gives with exactly this header, domain and a held key of the header's version |
| `EnvelopeBuffers.SealEnvelope` | internal/envelope/envelope.go:96-135 | The header and envelope filled by copies are exactly the specified envelope, or sealing fails for the specified reasons |
| `EnvelopeBuffers.OpenEnvelope` | internal/envelope/envelope.go:137-184 | Taking an envelope apart opens exactly what the specification opens |
| `EnvelopeBuffers.FindKeyByVersion` | internal/envelope/envelope.go:186-196 | The search through active and previous keys finds the first key of the version |
| `EnvelopeBuffers.MakeAssociatedData` | internal/envelope/envelope.go:209-214 | The buffer holds domain tag and header, in this order |
| `Envelope.HeldKeyIsFound` | internal/envelope/envelope.go:186-196 | Looking up the version of a held key finds that very key |
| `Envelope.IdealExists` | internal/envelope/envelope.go:96-185 | The assumption made about the cipher can be met, and by a cipher that tells some keys and some associated data apart |
| `Bindings.SealsExactly` | internal/envelope/envelope.go:96-109 | Sealing succeeds if and only if there are at most five keys of 32 bytes under different nonzero 32-bit versions and the plaintext has at most one mebibyte |
| `Bindings.OpensExactly` | internal/envelope/envelope.go:137-196 | Opening gives a plaintext if and only if the key set is such and one of its keys sealed that plaintext for this domain under some nonce |
| `Bindings.AssociatedDataBinds` | internal/envelope/envelope.go:209-214 | What is authenticated with a plaintext determines the domain, the key version and the nonce |
| `ArtifactCodec.DecodeChunkIsExact` | internal/server/artifact.go:1113-1218 | The chunk decoder accepts exactly the byte string that the encoder writes for this owner, index, total and data |
| `Bindings.ChunkBinds` | internal/server/artifact.go:1113-1143 | The bytes of a chunk determine every field of its owner, its index, the total and its data |
| `ArtifactCodec.PiecesPartition` | internal/server/artifact.go:1089-1110 | The plaintext is cut into the rounded-up number of nonempty pieces that join to it |
| `ArtifactCodec.EncryptionSucceedsExactly` | internal/server/artifact.go:1080-1111 | Encryption succeeds if and only if the key set and metadata are valid and the plaintext needs 1 to 64 chunks of the size that the metadata leaves |
| `ArtifactCodec.AdmittedSizeCanFail` | internal/server/artifact.go:293-333 | The size check before encryption admits 64 MiB, but 64 chunks never hold that much: every plaintext of exactly that size fails, whatever the owner, the keys and the nonces |
| `ArtifactCodec.RecordedSizeIsFileSize` | internal/server/artifact.go:327-333 | The recorded ciphertext size is the length of the written file |
| `ArtifactCodec.WrittenFileHasShape` | internal/server/artifact.go:1019-1064 | Every file that can be written passes the shape check |
| `ArtifactCodec.ArtifactRoundTrip` | internal/server/artifact.go:1042-1186 | Whatever encryption accepts is written with the recorded size, passes the shape check and decrypts to the same plaintext under any later key set that holds the writing key |
| `ArtifactCodec.AcceptedFileIsAuthentic` | internal/server/artifact.go:1145-1186 | Whatever decryption accepts is a written file whose chunks are byte for byte what sealing their pieces gives, in this order and number, for this owner under the recorded key version; the result joins the pieces and has the recorded size |
| `ArtifactFiles.EncodeArtifactChunk` | internal/server/artifact.go:1113-1143 | Filling the buffer by a moving offset writes exactly the specified chunk, or fails for the specified reasons |
| `ArtifactFiles.DecodeArtifactChunk` | internal/server/artifact.go:1188-1218 | The field loop decodes exactly what the specification decodes |
| `ArtifactFiles.EncryptArtifactChunks` | internal/server/artifact.go:1080-1111 | The loop over offsets seals exactly the pieces of the plaintext in order |
| `ArtifactFiles.File.WriteArtifactFile` | internal/server/artifact.go:1042-1078 | A completed write leaves exactly the file encoding; a failed one, even with short writes, leaves a beginning of it |
| `ArtifactFiles.DigestInput` | internal/server/artifact.go:1231-1247 | The bytes fed to the digest are the bytes of the file |
| `ArtifactFiles.ValidArtifactCiphertextShape` | internal/server/artifact.go:1019-1040 | The offset loop accepts exactly the well-shaped files |
| `ArtifactFiles.DecryptArtifactFile` | internal/server/artifact.go:1145-1186 | The offset loop decrypts exactly what the specification decrypts |
| `Buffers.SameMagic` | internal/server/artifact.go:1220-1229 | Gathering the differing bits of all bytes and testing once is equality (the envelope compares in the same way) |
| `ArtifactStore.VisitAllPointwise` | internal/server/artifact.go:846-948 | In any listing order the directory pass leaves each entry, and the row beside it, as one visit on its own would, and everything else as it was |
| `ArtifactStore.SweepAllExact` | internal/server/artifact.go:953-978 | The table pass drops exactly the listed rows whose file is missing |
| `ArtifactStore.SuccessfulReconcileIsClean` | internal/server/artifact.go:833-985 | From any disk whatever, a reconciliation without an error leaves no temporary file, a bijection of final files and rows, every row ready and every file exactly the recorded one |
| `ArtifactStore.CleanIsStable` | internal/server/artifact.go:833-985 | A clean disk is left alone |
| `ArtifactStore.ReconcileIsIdempotent` | internal/server/artifact.go:833-985 | A second reconciliation changes nothing and reports no error |
| `ArtifactStore.ReadyIsKept` | internal/server/artifact.go:923-930 | No ready row whose file is there is dropped, nor its file touched, whatever else fails |
| `ArtifactStore.CompleteWriteIsPublished` | internal/server/artifact.go:905-922 | A file that a crash left behind a writing row is published with its contents |
| `ArtifactOutcomes.EachIsSettled` | internal/server/artifact.go:833-985 | From any disk and with any failing removals and updates, the exact outcome for each identifier: a row without a file goes, a file without a row goes if it has the shape of an artifact, a complete saved file is published, a deletion is carried on (the table pass makes up for an update that failed), anything else stays; temporary files go and unknown names stay |
| `ArtifactOutcomes.FailureIsReportedExactly` | internal/server/artifact.go:833-985 | A reconciliation reports a failure if and only if there is an unknown name, a file that is not what its row records or does not decrypt, a file without a row that is no artifact, or a removal or update that failed |
| `ArtifactRuns.StepKeepsInv` | internal/server/artifact.go:353-567 | Every single step of saving, cleaning up, marking, removing, reconciling or crashing keeps the store's invariant |
| `ArtifactRuns.RunsReconcile` | internal/server/artifact.go:353-985 | After any run cut by crashes anywhere, a reconciliation without input or output faults succeeds and leaves the disk clean |
| `ArtifactRuns.SaveIsAtomic` | internal/server/artifact.go:353-428 | After any run and a successful reconciliation, each identifier has either no row and no file, or the ready row as inserted and exactly its file |
| `ArtifactRuns.ReadyIsDurable` | internal/server/artifact.go:404-567 | A ready artifact keeps its row and file through every run that does not mark it for deletion |
| `ArtifactRuns.RowsComeFromInserts` | internal/server/artifact.go:353-361 | Whatever row a run leaves is one that was inserted, but for its state |
| `ArtifactRuns.UncutSave` | internal/server/artifact.go:353-428 | A save that nothing cuts adds the ready row and its file and no more |
| `ArtifactRuns.SavedIsReadBack` | internal/server/artifact.go:430-498 | A saved image reads back as itself after any run that does not mark it, crashes and later key sets included |
| `ArtifactOutcomes.FailedSaveLeavesNothing` | internal/server/artifact.go:362-428 | A save that fails before its file, while writing it or after publishing it, and whose clean-up works, leaves the disk exactly as it was |
| `ArtifactOutcomes.UncutDeletion` | internal/server/artifact.go:500-567 | Marking changes exactly the ready rows among those asked for; removing one of them then takes exactly its file and its row |
| `ArtifactOutcomes.ReadIsExact` | internal/server/artifact.go:430-498 | After any run, a read gives a plaintext if and only if the row that the run inserted is ready and its file, there as it was written, decrypts to that plaintext; and on no disk from a file that is not the recorded one |
| `ArtifactDirectory.Directory.Save` | internal/server/artifact.go:353-428 | The save in place publishes exactly its row and file; a failed save whose clean-up works leaves the store as it was; no save touches another artifact |
| `ArtifactDirectory.Directory.MarkDeleting` | internal/server/artifact.go:500-535 | Exactly the ready rows among those asked for become deleting, and the rows found are returned as they are afterwards |
| `ArtifactDirectory.Directory.RemoveMarked` | internal/server/artifact.go:537-567 | Success removes file and row of exactly the claimed records |
| `ArtifactDirectory.Directory.VisitDirectory` | internal/server/artifact.go:846-948 | The loop over directory batches is the directory pass |
| `ArtifactDirectory.Directory.QueryRows` | internal/server/artifact.go:958-965 | A batch holds the first rows behind the last identifier, in order |
| `ArtifactDirectory.Directory.SweepTable` | internal/server/artifact.go:953-978 | The loop over batches behind the last identifier visits every row once, terminates and is the table pass |
| `ArtifactDirectory.Directory.ReconcileBody` | internal/server/artifact.go:833-985 | The reconciliation in place is the specified one for the listing order it meets |
| `Journal.BlankIsFirst` | internal/server/journal_http.go:56-57 | The separator found is the first blank line, or there is none |
| `Journal.CuttingDoesNotMatter` | internal/server/journal_http.go:50-69 | For every way of cutting a stream into writes, the forwarded frames, the terminal mark, the failure and (unless failed) the pending bytes are those of one write |
| `Journal.StreamIsConserved` | internal/server/journal_http.go:50-69 | Forwarded frames and pending bytes are together the bytes written, with no blank line left pending; a failed writer stopped at the first frame that could not be delivered, and its frames are what came before |
| `Journal.SplitIsUnique` | internal/server/journal_http.go:55-62 | Frames that end at their only blank line, and a rest without one, are determined by the bytes they make up |
| `Journal.AcceptedExactly` | internal/server/journal_http.go:50-92 | Writing and flushing succeeds if and only if the stream consists of frames with a data prefix and a nonempty payload that the journal takes |
| `Journal.WellFormedStreamPasses` | internal/server/journal_http.go:50-117 | Such a stream is forwarded frame by frame as it is, and its first terminal frame decides the request's state |
| `Journal.SseWriter.Write` | internal/server/journal_http.go:50-69 | The loop that appends and re-slices pending does what the specification does, and reports all bytes written unless it failed |
| `Journal.SseWriter.Flush` | internal/server/journal_http.go:71-80 | Flushing fails the writer if and only if bytes are pending |
| `Journal.SseWriter.ForwardFrame` | internal/server/journal_http.go:82-118 | A frame is forwarded exactly when it is deliverable, and only then may it set the terminal state |
| `SseProofs.RoundTrip` | internal/codex/contracts.go:1088-1187 | Any list of messages, of data lines mixed with comments and unknown fields, every line (blank ones included) with either ending, with or without a last blank line and a final [DONE], parses to the decoding of exactly its trimmed payloads (section 9.2.6 of the WHATWG HTML Living Standard, plus the flush at the end of input) |
| `SseProofs.FinalNewlineIsOptional` | internal/codex/contracts.go:1166-1183 | A missing newline after the last line makes no difference |
| `SseOutcomes.LinesPartition` | internal/codex/contracts.go:1166-1187 | The lines of a text put together again are the text; each but perhaps the last ends in a newline, which takes one return before it along |
| `SseOutcomes.DataIsJoined` | internal/codex/contracts.go:1139-1164 | The payload of a message is its data values, from the first that is not empty, joined by newlines |
| `Trimming.TrimIsExact` | internal/codex/contracts.go:1107-1107 | Trimming takes characters with the property White_Space, in UTF-8, off both ends and leaves none there |
| `SseStreams.FeedExactly` | internal/codex/contracts.go:1249-1290 | The decoder goes on exactly as long as the payloads are in order and within the limits, with [DONE] only after the terminal event, and its state is then a function of the events |
| `SseStreams.AcceptedExactly` | internal/codex/contracts.go:1249-1320 | A list of payloads is accepted if and only if it has exactly one terminal event, last, valid events, at most 8192 of them and at most 4 MiB; the events are kept in order, and it counts as failed exactly when an event carries an error or the terminal event is a failure |
| `SseOutcomes.OutcomeIsTold` | internal/codex/contracts.go:1257-1320 | On the fields of the events: a stream succeeds if and only if it is whole, no event and no response in it reports an error, and it ends as completed, done or incomplete with a response that has not failed; a whole stream that does not reports its last event's kind, its known status, and its code, else its error's, else its response's |
| `SseOutcomes.BrokenStreamIsTold` | internal/codex/contracts.go:1249-1290 | Which error the first payload that cannot be taken gives: a second end for anything after [DONE] or an event after the last, a refused callback, else a malformed stream |
| `SseOutcomes.CutStreamIsTold` | internal/codex/contracts.go:1292-1297 | A stream that was taken so far is reported as cut off if and only if its last payload ends nothing |
| `SseStreams.AcceptedTextIsComplete` | internal/codex/contracts.go:1088-1187 | Whatever bytes arrive, they are accepted if and only if the body ended without a read error, the lines and data keep their limits with only comments and blank lines after a [DONE], and the payloads read off the lines alone are one complete stream; the result is the decoding of exactly those payloads |
| `SseDecoder.StreamDecoder.AddEvent` | internal/codex/contracts.go:1257-1290 | Adding an event in place updates events, terminal event, failure and code as specified |
| `SseDecoder.StreamDecoder.TakeLine` | internal/codex/contracts.go:1139-1164 | A line is consumed in place as specified, with the data cap and the rule for lines after [DONE] |
| `SseDecoder.ReadLine` | internal/codex/contracts.go:1166-1170 | The scan finds the line without its ending and the start of the next, or that it is too long |
| `SseDecoder.ParseResponsesSse` | internal/codex/contracts.go:1088-1187 | The loop over lines parses a body to the specified decoder and error |
| `SseDecoder.FramesAcceptedExactly` | internal/codex/contracts.go:1215-1247 | WebSocket frames are taken to the end if and only if they have the permitted sizes and are, as payloads, one complete stream |
| `SseDecoder.ParseWebSocketFrames` | internal/codex/contracts.go:1215-1247 | The loop over frames is the specified one |
| `Transport.SendIsSingle` | internal/codex/transport.go:386-426 | One send opens one to three attempts, hands over a first part of the last one's events, nothing at all when it ends in a 401, and on success that whole stream |
| `Transport.DeliveryIsSingleAttempt` | internal/codex/transport.go:304-447 | Across WebSocket, its retry, the SSE fallback and the replay after a 401, the caller is handed a first part, in order, of the events of the last attempt opened, and on success all of them, ending in the one terminal event |
| `TransportAttempts.SocketIsTold` | internal/codex/transport.go:484-619 | How every WebSocket attempt ends, told on its messages: what it decoded is the longest first part of proper events within the limits; the caller has nothing of it while all of it were status events (five kinds, no content, for three of them no headers or metadata), else all of it in order up to the first event it refused; it offers SSE or reports a 401 only after nothing but status events, and else gives the error that the message, the connection or the end of the stream calls for |
| `TransportAttempts.SseIsTold` | internal/codex/transport.go:842-905 | Every SSE attempt hands each event over as it is decoded, and ends as its items say, with an optional [DONE] after the last event and nothing behind it |
| `TransportRoutes.SendIsTold` | internal/codex/transport.go:386-426 | Which attempts a send opens: the WebSocket again if and only if the first attempt hit the connection limit after nothing but status events; SSE if and only if the last of them failed in a way that allows it, after nothing but status events, and the caller has not given up; and the outcome is the last attempt's |
| `TransportRoutes.CallIsTold` | internal/codex/transport.go:304-384 | A call sends again if and only if the first send was answered with a 401 and another credential can be had; it succeeds exactly when its last send does |
| `TransportRoutes.GivenUpSaidNothing` | internal/codex/transport.go:762-783 | Every attempt but the last of a call had nothing but status events: no delta, text, arguments, item, part, error, code, message, image or output |
| `TransportRoutes.TellingAttemptIsLast` | internal/codex/transport.go:428-443 | Once an attempt has had any other event, no further attempt is opened, and everything it decoded was handed over in order up to the first event that the caller refused |
| `TransportStream.ReplayBuffer.EmitEvent` | internal/codex/transport.go:428-443 | Emitting holds back, or hands over everything held back and then the event, stopping where the callback refuses |
| `TransportStream.ReadCodexWebSocketStream` | internal/codex/transport.go:536-619 | The read loop with its replay-unsafe flag is the specified attempt |
| `TransportStream.TrySseAttempt` | internal/codex/transport.go:842-905 | The SSE attempt hands each event over as it is decoded |
| `TransportStream.StreamOnce` | internal/codex/transport.go:386-426 | One send, with its retry and fallback, in place |
| `TransportStream.StreamWithHeaders` | internal/codex/transport.go:304-384 | The whole call in place, and its single-attempt delivery |
| `ChatProofs.EventIsGood` | internal/server/chat.go:1289-1468 | Each event, from a state in step: whatever it does, the chunks stay faithful and finished arguments never change; if it is taken, nothing that may be sent is held back |
| `ChatProofs.EveryRunIsFaithful` | internal/server/chat.go:1289-1468 | On every event sequence, up to and including one that is not taken: the role chunk comes first and once, all chunks have one identity, the content deltas make up the tracked text, each tool's metadata comes once and before its fragments, and these are a first part of its arguments |
| `ChatProofs.FinishedStreamReproduces` | internal/server/chat.go:1309-1345 | After a terminal event that was taken: the text is what was read from the terminal response, the finish chunk is last, every tool is complete, and the tool at the place of each call that was read is finished with exactly that call's arguments; `ResponseIsRead` says what is read |
| `ChatResponses.ResponseIsRead` | internal/server/chat.go:982-1044 | A response is read if and only if every item is reasoning, an assistant message of plain text parts or an identified, plainly named call with JSON arguments, and its text is valid and within the limit; the text is then the texts of all parts of all messages in order (or the response's own when that is empty), the calls one per call item in order, with the call's identifier or else the item's, its name and its arguments |
| `ChatResponses.FinishedStreamDelivers` | internal/server/chat.go:1309-1345 | A finished stream delivers the items of its terminal response: the content is their text, each of their calls is answered by the tool at its place with the item's arguments, the usage was accepted, and the last chunk tells the reason (cut at the token limit, filtered, tool calls or stop) |
| `ChatEndings.TerminalIsTakenExactly` | internal/server/chat.go:1313-1350 | A terminal event is taken if and only if its response can be read, its text extends what the client has, its usage is accepted, each call in order fits on the tool at its place (an earlier call's tool only with the same arguments), and every tool is then named, identified, described and has JSON arguments |
| `ChatEvents.FailureIsTold` | internal/server/chat.go:1290-1312 | An event that reports an error, a failed end or a failed response is taken, sends nothing and ends the stream, after which nothing is taken; any other event that is taken leaves the stream going |
| `ChatEvents.TextEventIsTold` | internal/server/chat.go:1351-1500 | Every event about the text (deltas, finished texts, parts, messages, and those that say nothing or cannot be said) is taken if and only if it can be said and agrees with the text so far; the client then has just the longer text |
| `ChatTools.LookupIsTold` | internal/server/chat.go:1525-1575 | The tool found for two identifiers, its name and identifier afterwards, and that exactly these identifiers lead to it from then on |
| `ChatTools.ArgumentsEventIsTold` | internal/server/chat.go:1442-1463 | A part of a tool's arguments, or all of them, is taken if and only if it fits on the tool that its identifier leads to (within the limit, and final ones extend what is there to JSON); that tool then has just these arguments, all sent when it was described, and nothing else changed |
| `ChatTools.CallEventIsTold` | internal/server/chat.go:1424-1438 | A call item is taken if and only if its tool has no unsendable name and its arguments, if any, fit; the tool is then described and has these arguments, and nothing else changed |
| `ChatIdentity.IdentityIsTold` | internal/server/chat.go:1293-1306 | Over every run, all chunks bear the identifier, the model and the time that the responses had named last, each for itself, when the first chunk went out |
| `ChatProofs.ChunksOfFinishedStream` | internal/server/chat.go:1675-1726 | In a finished stream the content chunks join to the response's text and each tool's chunks are one metadata chunk with its index, its identifier and a valid name, and fragments that join to its complete, valid arguments |
| `ChatProofs.ArgumentsAreGood` | internal/server/chat.go:1620-1656 | Final arguments that are taken are there in full and finished; everything that may be sent was sent |
| `ChatProofs.MetadataIsGood` | internal/server/chat.go:1592-1618 | Metadata is sent at most once, with a valid name, and followed by what was held back |
| `ChatProofs.FinishIsGood` | internal/server/chat.go:1702-1726 | The stream finishes only with every tool complete and sent, and the finish reason goes last |
| `ChatPlaces.StepTracks` | internal/server/chat.go:1576-1590 | The tool picked for a call is the one told from the tools and aliases before any call: the first with its identifier, else the one that an earlier call of that identifier made, else the first unfinished one of its name that was not given away, else the aliased one, else a new one; and so on from the state after it |
| `ChatCalls.SeparateIsExact` | internal/server/chat.go:1576-1590 | No two calls are given one tool if and only if each, in order, finds the tool that its identifier leads to unclaimed |
| `ChatCalls.FinishedStreamTells` | internal/server/chat.go:1309-1345 | In a finished stream whose calls find their tools unclaimed, the first chunk about each call's tool is known before the terminal event: metadata that was sent stays, a tool found by its identifier keeps its name, any other is called what the call says; nothing told about any tool is taken back, and no tool is made but for a call |
| `ChatCalls.NamesArriveExactly` | internal/server/chat.go:1576-1618 | In a finished stream every call has a tool of its own and the client was told the call's name for it, if and only if in order each call finds its tool unclaimed and no other name was or would be told for that tool |
| `ChatCalls.CallsArriveExactly` | internal/server/chat.go:1309-1345 | In a finished stream every call of the terminal response reaches the client in chunks of its own that are its identifier, its name and its arguments, if and only if, before the terminal event: the identifiers differ, and each call has a tool with its identifier and name, or no tool and no alias has its identifier and every unfinished tool of its name belongs to an earlier call |
| `ChatFindings.CallIsLost` | internal/server/chat.go:1576-1590 | Two calls of one name with the same arguments, of which the second was announced: the stream finishes without a failure and the client gets one call, because the first takes the tool by name and the second finds it by identifier |
| `ChatFindings.CallIsMisnamed` | internal/server/chat.go:1576-1590 | A call that was announced under another name: the stream finishes without a failure and the client was told the announced name |
| `ChatStream.StreamState.TakeEvent` | internal/server/chat.go:1289-1468 | The event method in place does what is specified, and keeps the chunks faithful |
| `ChatStream.StreamState.LookUpTool` | internal/server/chat.go:1525-1575 | The lookup by item and call identifiers updates names, identifiers and aliases as specified |
| `ChatStream.StreamState.LookUpOutputTool` | internal/server/chat.go:1576-1590 | The two searches and the fallback find the specified tool |
| `ChatStream.StreamState.AddToolArguments` | internal/server/chat.go:1620-1656 | Fragments and final arguments are added, sent and checked in place as specified |
| `ChatStream.StreamState.SendOutput` | internal/server/chat.go:1681-1700 | The terminal text and every call are reconciled in order |
| `ChatStream.StreamState.FinishWith` | internal/server/chat.go:1702-1726 | The loop over tools and the finish chunk, in place |
| `ChatStream.ReadResponseOutput` | internal/server/chat.go:982-1045 | The loop over items yields the response's text and calls, or rejects the response |
| `RefresherProofs.StepKeepsInv` | internal/codex/refresh.go:129-459 | Every step of every thread (caller, refresh, saver, rollback) keeps the protocol's invariant |
| `RefresherProofs.OneRefreshAtATime` | internal/codex/refresh.go:302-317 | At most one refresh is unfinished, and it is the one in flight |
| `RefresherProofs.CallsEndOnce` | internal/codex/refresh.go:423-442 | A call ends while it has no result, so its channel is closed once, and its result never changes |
| `RefresherProofs.ResultsAreFixed` | internal/codex/refresh.go:423-442 | The result of a call never changes over any run |
| `RefresherProofs.NoPostWithRefusedToken` | internal/codex/refresh.go:319-341 | No token request carries the token that is recorded as permanently failed; `RecordIsTold` says when one is |
| `RefresherProofs.CredentialsWereStored` | internal/codex/refresh.go:319-350 | A credential given to waiters was the file's content at some instant of that call; one that a caller read itself was the content at some instant since the caller began |
| `RefresherProofs.WritesRespectOthers` | internal/codex/credentials.go:190-324 | A refresh replaces only the credential whose token it renewed, a rollback only the bytes that its own save wrote, by the bytes that save replaced, and a plain save remembers exactly what it replaced; no other step changes the file |
| `RefresherProofs.RunsAreSound` | internal/codex/refresh.go:129-465 | The invariant, the uniqueness of saved bytes and the knowledge of rollbacks hold in every interleaving |
| `RefresherProofs.ProtocolHolds` | internal/codex/refresh.go:129-465 | From any start and for any interleaving: in every state reached there is one refresh at a time, no request with a refused token, every credential returned was stored at an instant since its caller or its call began, and saved bytes are unique; no step from there ends a call twice or writes over what others stored; and results stay over whatever follows |
| `RefresherRecord.RecordIsTold` | internal/codex/refresh.go:423-459 | Over every run from a start: a permanent or temporary failure is remembered for a token if and only if a call that tried that token ended with it, and since then no call ended otherwise and nobody compared another token that was loaded |
| `RefresherRefusals.RefusedTokenStaysRefused` | internal/codex/refresh.go:129-442 | After a call that tried a token ended with a permanent refusal, in every run that goes on: as long as the path holds nothing but that token, no refresh posts at all, no later call obtains a credential, and every caller that begins afterwards and is not cancelled gets that a login is required (or a temporary error, if the path was missing or a refresh could not load it); provided that at the refusal no caller had loaded another token before and not yet compared it |
| `RefresherFindings.TriedAgainExactly` | internal/codex/refresh.go:287-300 | That proviso is exact: a refused token that stays on the path can be posted again if and only if there was such a caller |
| `RefresherFindings.StaleReaderIsReachable` | internal/codex/refresh.go:287-300 | A run from any start with a stored credential that leads to such a caller and refusal |
| `RefresherOutcomes.CallersAreTold` | internal/codex/refresh.go:129-300 | In every state of every run, what each caller does next: it starts over or waits when anything changed since it looked, and decides on the record as it is otherwise, so that it gives the stored credential only while no refresh is under way and none is needed; after a 401 another stored credential is handed out and the same one is renewed; a call is begun exactly when none is in flight |
| `RefresherOutcomes.RefreshesAreTold` | internal/codex/refresh.go:319-442 | In every state of every run, what each refresh does next: it posts exactly when its token is not refused and the credential is the rejected one (or, unforced, expires), and only the token of a credential that was on the path since its call began; it writes the renewed credential only while the path still holds the old one and gives what the path holds otherwise |
| `RefresherOutcomes.RejectedCredentialIsRenewed` | internal/codex/refresh.go:287-442 | A caller whose stored credential was rejected with a 401, undisturbed: its token is posted, the reply is stored on the path, the record is empty and the caller gets the reply |
| `RefresherOutcomes.UndoRestoresExactly` | internal/codex/credentials.go:228-257 | An undisturbed rollback restores what its save replaced if the path still holds what the save wrote, and otherwise leaves the path alone |
| `RefresherState.Mutexed.ClearChangedFailures` | internal/codex/refresh.go:444-459 | The critical section forgets failures of other tokens and counts a generation only when something changed |
| `RefresherState.Mutexed.JoinOrBegin` | internal/codex/refresh.go:306-315 | The critical section joins the refresh in flight or puts a new one in flight |
| `RefresherState.Mutexed.FinishRefresh` | internal/codex/refresh.go:423-442 | The critical section records the outcome for the token that was tried |
| `RefresherState.CredentialFile.SaveIfUnchanged` | internal/codex/credentials.go:288-324 | The replacement is written only over the expected credential, otherwise what is stored is given back; the method is a run of the refresh's own steps in the protocol, from its comparison to a result that is what the method gives back |
| `RefresherState.CredentialFile.SaveWithRollback` | internal/codex/credentials.go:190-226 | A save remembers what it replaced and what it wrote, and these differ; the method is a run of the saver's own steps in the protocol and ends with the rollback that it returns |
| `RefresherState.CredentialFile.Restore` | internal/codex/credentials.go:228-257 | A rollback puts back what was replaced, unless the path was written since; the method is a run of the rollback's own steps in the protocol |

## Left out

- Restore: flushing and power loss (renames take effect in order, as for a process crash), the checks of paths, file types and the marker's JSON, and locks. The two parent flushes when the marker goes are one step.
- RestoreProcess.Process.RollbackRestoreSet: a second failure during a rollback, and a crash during a rollback, are not modelled. The rollback stops at its first error instead of collecting errors; the two differ only under such double faults.
- Restore: a directory removal that fails half-way without a crash before commit.
- Quota: SQL and its locking (a transaction is one step), timestamps, reasons and request identifiers. A bucket is named by its key and period instead of a random identifier; reservation identifiers are numbers in creation-independent order, and a drawn identifier that is taken is an error.
- Quota: a policy of a key that changes during a run, for the rolling window and the limits of that key; conservation and single charging hold with any policy at every admission.
- Quota: times count from the instant to which the code aligns its periods, so that a period starts at a multiple of its duration.
- Quota: subscription cost allocation and pricing, and the analytics queries.
- Envelope.DecryptIsAuthentic: that an envelope was sealed means that it equals, byte for byte, what sealing gives; which party sealed it is not modelled. Tags have a fixed size, so no cipher can refuse everything that was sealed under any other key, and the assumption does not say so.
- ArtifactCodec.AcceptedFileIsAuthentic: the same holds for the chunks of a file.
- Envelope and artifacts: the cipher is ideal (what opens is exactly a sealing), nonces are given, and the digest is injective (a row's recorded size and digest stand for the file's bytes). Owner fields are byte strings.
- Artifact store: the owner checks, the replay lookup before a save, MIME detection, expiry, symbolic links and link counts, the sentinel's contents, cancellation, and two processes on one directory. Identifiers are numbers, and a drawn identifier is new.
- Artifact store: the keys are the same during a run; an artifact whose key was dropped is reported, not repaired.
- Journal: the database behind `Forward` is a predicate that may refuse any frame; a mark that the database refuses is not retried. JSON decoding is a function from payloads to event types.
- Streams: JSON decoding is a function from payloads to events, and an event's type is blank, one of the terminal types or any other name. Timeouts, cancellation and the aggregate reader are the `broken` end of a body.
- Transport: dialing, headers, request encoding and the mapping of HTTP errors. A failed request write is a connection that fails before its first frame. Error codes are compared as already trimmed and in lower case. Only the streaming call is modelled, not the call that collects the events.
- Transport.DeliveryIsSingleAttempt: the credential refresh between the two sends appears as a second script that may be missing; the refresher itself is modelled separately.
- Chat: tools are values in a list and aliases are positions, instead of shared objects. The usage and quota checks of the terminal event are one verdict; error bodies, the usage chunk, [DONE] and the retry for session affinity are not modelled. A chunk is written whole or not at all.
- ChatProofs.FinishedStreamReproduces: it ties a call to the arguments of the tool at its place, because that is what the code keeps for every stream; a tool's identifier and name may be another call's. `ChatCalls` gives the exact conditions for those.
- Chat: the exact statements about single events take every write to succeed; what a write that fails leaves is part of `EveryRunIsFaithful`.
- Chat: tools that upstream announced and that no call of the terminal response matches stay in the output, as in the code; what is proved of them is that they are complete.
- Refresher: the token endpoint's reply, expiry and file errors are inputs of a step. A write of the credential file takes effect as a whole. Every encryption draws a new nonce. `Snapshot`, login and import are not modelled.
- Configuration, command line, OAuth login, request validation and conversion, model lists, dashboards, telemetry and HTTP plumbing: short checks or input and output.
