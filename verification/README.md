# A verified model of KyVault's protocols

KyVault is a zero-knowledge vault server with a web client and a browser extension. Cryptography is
imported; what the repository itself has to get right are the protocols that keep several stores in
agreement while requests overlap, writes fail and processes die. This project models those protocols in
Dafny 4.11 and proves what they keep. `dafny verify dfyconfig.toml` checks all of it.

## How the model is built

Code that updates objects is a class whose methods take the same branches in the same order and are proved
equal to a function or relation on values; loops are loops with invariants. Runs, crashes and
interleavings are then sequences of steps over those same functions, and the main results are about every
such sequence. The modules named `Laws` say what each operation asks for and leaves in the fields of the data
alone, so that the functions the other results share are themselves held to something.

| part of the system | modules |
|---|---|
| shared-vault membership: rows, roles, suspension, rotation | `SharedVault`, `SharedVaultRuns`, `SharedVaultLaws` |
| a rotation against members replacing their published keys | `KeyReplacement`, `SharedKeys` |
| the versioned vault store, snapshot names, history thinning and what it can lose | `VaultFiles`, `VaultLaws`, `HistoryIds`, `HistoryThinning`, `HistoryLoss` |
| a personal vault over runs of its clients | `PersonalVault` |
| a shared vault across its two stores, with one crash anywhere | `SharedRotation`, `SharedCrashes`, `SharedCrashExamples`, `SharedServer` |
| deleting a shared vault and recovering an interrupted deletion | `SharedDeletion`, `DeletionLaws` |
| the audit chain, log and mark, over torn writes, failed flushes and restarts | `AuditChain`, `AuditLog`, `AuditCodec`, `AuditRuns`, `AuditForks`, `AuditRefinement`, `AuditLaws` |
| the audit budget | `AuditBudget`, `BudgetLaws`, `AuditRates`, `AuditRatesTight` |
| back-channel logout, device pairing, sessions | `LogoutFence`, `DevicePairing`, `SessionServer`, `SessionRuns`, `SessionRefinement`, `SessionSafety`, `SessionReadBack`, `LogoutLaws`, `SessionLaws` |
| the extension's vault state and its saves | `ExtensionVault`, `ExtensionRuns`, `ExtensionSafety`, `ExtensionSaves`, `ExtensionLaws` |
| the CSV writer and reader | `Csv`, `CsvLaws` |

Clocks, random values, the success of a write, whether an account is active and what the server answers are
parameters. A digest is a term that names what it was taken of, so equal digests mean equal inputs. A vault
key is an identity: a shared vault's key is named by its epoch, an extension's by the generation whose
unlock produced it. A clock is read before a lock is taken, so a step may act on any earlier time, and the
time itself never runs backwards. Random IDs and secrets are new.

Several comments promise more than the code does, and one store trusts its callers for something it could
check; the model follows the code:

- `vaultState.ts` line 84 says work that started before a lock must not commit after it. What is fenced is
  the capture of the generation. `ensure` reads the stored key, waits for settings and captures only then
  (lines 195 to 201); `unlock` captures after waiting for the clear of its own lock (lines 163 and 164). A
  lock landing in either wait is not seen. `NoLockSinceCapture` is what holds, `CommitsAcrossLockIff` and
  `CapturedKeyCurrentIff` say exactly when the comment does, and `RequestOutlivesLock` and
  `UnlockOutlivesLock` give the interleavings. `status` locks again when it finds a vault open over an empty
  storage.
- `vaultState.ts` lines 314 and 315 say a failed save drops the in-memory copy, so a later save cannot carry an
  entry the server never stored. A request that took the copy before the failure commits it again afterwards
  (lines 203, 204 and 156). `FailedCopyReturnsIff` says exactly when, `FailedSaveComesBack` gives the
  interleaving; after a save refused as outdated it cannot happen (`RefusedCopyNeverReturns`).
- `sessions.go` lines 46 to 50 call the device record durable on its own, but `revokeDeviceLocked` drops the
  error of the device file's write. `RevocationUndoneIff`: a revoked device's session is live again after a
  restart exactly when neither file was written. `GoneReturnsIff` says when such a device is back in the store, and
  `RevokedDeviceVouches` gives a run in which it then vouches for a new device's session.
- `shared_rotate.go` lines 87 and 88 and `vault.go` lines 414 to 418 say a crash before the record commits leaves the
  pre-rotation snapshot restorable. The pruning of the same write can take it, since it removes the least separated
  interior snapshot: the archive can be that one if the clock was set back into the middle of a full history, or if it
  shares its time with others. And a vault never written has nothing to archive, which does not refuse a rotation: an
  absent `If-Match` names version 0. `CrashLeavesOpenableIff` says exactly when a crash is safe; `FullHistoryCrash` and
  `NeverWrittenCrash` give the inputs on which it is not.
- `audit.go` lines 712 to 718 explain why an append must not fail once its record is on disk: the chain would reuse
  its number. A flush that fails does just that (lines 704 to 707). `UnflushedRestartIff`: a restart heals the log, but
  after one more append every restart is refused.
- `audit_budget.go` lines 18 to 20 give a source up to two windows' worth, 40 records, around a boundary. One bucket
  gives at most 39 within a window (`BucketRate`), but a source swept out of a full table draws on the overflow bucket
  as well: `SourceRate` bounds it by 78, and `SourceRateReached` is a run that reaches the bound.
- `Remove` accepts an empty user ID, and the record it then writes is refused by every later load
  (`StaysReadable`). Whether such a row can exist is decided outside the store.

Other conditions found to be exact rather than unconditional: a shared rotation needs its mark or its clear
to succeed, or no old snapshot to be left (`RotationAgreesIff`, `RotationSureIff`); an audit log with records and
an empty mark is refused (`OpensWhatWasWritten`); envelope and key writes do not advance the version, so two can land on one version
(`SecondWriteIff`, `LandsAgainIff`); envelopes saved before the first vault version decide whether that version can
be opened (`FirstSaveOpenableIff`); a pairing PIN drawn twice leaves a code no cancellation reaches
(`CreateKeepsPairedIff`, `SharedPinOutlivesCancel`); a prune strands a directory whose move never succeeded
(`PruneStrandsIff`); a bar in a field lets two records of the earlier audit format share a digest (`LegacyLineTells`,
`LegacyLineMixes`); an eviction between a late write and its clear keeps a key (`QuietKeyCurrentIff`, `EvictionCutsOff`).

The logout tokens are those of OpenID Connect Back-Channel Logout 1.0, sections 2.4 to 2.7; the CSV format
is section 2 of RFC 4180.

## Model

| member | source | states |
|---|---|---|
| SharedVault.Store.Load | internal/shared/shared.go:255-282 | reads a record, or refuses an unknown, malformed or inconsistent one |
| SharedVault.Store.CountActiveOwners | internal/shared/shared.go:328-336 | the loop counts exactly the set of active owner rows |
| SharedVault.Store.CountPostRotationOwners | internal/shared/shared.go:688-696 | the loop counts exactly the owners a rotation sealing for those named would leave active |
| SharedVault.Store.Invite | internal/shared/shared.go:454-472 | answer and records equal the invitation step: who may invite, the member cap, the row added |
| SharedVault.Store.Reseal | internal/shared/shared.go:480-511 | answer and records equal the re-seal step, self re-seals of stale rows included |
| SharedVault.Store.SetRole | internal/shared/shared.go:513-529 | answer and records equal the role step, the last active owner protected |
| SharedVault.Store.Accept | internal/shared/shared.go:532-549 | answer and records equal the acceptance step; an ownerless vault cannot be joined |
| SharedVault.Store.Remove | internal/shared/shared.go:555-579 | answer and records equal the departure step: last-owner rule, reason, pending rotation |
| SharedVault.Store.PrepareRotation | internal/shared/shared.go:614-647 | which rotations are refused, with which error, in the order the store checks |
| SharedVault.Store.SealNamed | internal/shared/shared.go:658-669 | after the loop every named row holds its last copy and every other row is untouched |
| SharedVault.Store.CommitRotation | internal/shared/shared.go:658-684 | the whole new record: named rows freshly sealed at the next epoch, the rest stale, nothing pending |
| SharedVault.Store.SetSuspended | internal/shared/shared.go:785-821 | every readable record swept, suspending or restoring that user only, up to the first save that fails; it fails exactly when a record it must save cannot be |
| SharedVault.Store.MarkStale | internal/shared/shared.go:823-844 | the same for marking stale that user's rows not sealed to the current key |
| SharedVaultRuns.HoldersAccountedStep | internal/shared/shared.go:454-579 | one operation keeps: with nothing pending, everyone handed the current key is a member; pending exactly when somebody departed since the last rotation |
| SharedVaultRuns.HoldersAccountedAlways | internal/shared/shared.go:555-677 | the same after any sequence of operations from creation |
| SharedVaultRuns.RowsOkStep | internal/shared/shared.go:454-684 | one operation keeps every row's epoch, acceptance and effective state consistent |
| SharedVaultRuns.RowsOkAlways | internal/shared/shared.go:338-844 | the same after any sequence of operations from creation |
| SharedVaultRuns.MembersBoundedAlways | internal/shared/shared.go:461-472 | no sequence of operations takes a vault past 100 members |
| SharedVaultRuns.RotationRows | internal/shared/shared.go:658-677 | what each row is after a rotation: copy, sealer, epoch, effective state, and what never changes |
| SharedVaultRuns.SuspensionCommutes | internal/shared/shared.go:173-184 | suspending before and restoring after a rotation, re-seal or stale-marking gives what the operation alone gives |
| SharedVaultRuns.SuspensionNeverBlocks | internal/shared/shared.go:614-647 | suspending another member never makes a rotation, re-seal or stale-marking fail |
| SharedVaultRuns.RotationLeavesPredictedOwners | internal/shared/shared.go:686-696 | the active owners after a rotation are exactly those counted before it, and there is one |
| SharedVaultRuns.MemberRotationSucceedsIff | internal/shared/shared.go:614-647 | exactly when a member's rotation succeeds; the last-owner refusal is then unreachable and the actor stays an active owner |
| SharedVaultRuns.OwnerSurvives | internal/shared/shared.go:513-579 | one operation by a member leaves an active owner if there was one |
| SharedVaultRuns.OwnerSurvivesAlways | internal/shared/shared.go:513-696 | no sequence of members' operations takes a vault from an active owner to none |
| SharedVaultRuns.StaysReadable | internal/shared/shared.go:278-280 | an operation leaves a readable record unreadable exactly when it removes a row whose user ID is empty |
| SharedVaultLaws.InviteIff | internal/shared/shared.go:454-472 | who may invite, whom, with what, and which refusal otherwise |
| SharedVaultLaws.ResealIff | internal/shared/shared.go:480-511 | who may re-seal, themselves included, and which refusal otherwise |
| SharedVaultLaws.SetRoleIff | internal/shared/shared.go:513-529 | who may change a role, unless nobody would be left to manage the vault |
| SharedVaultLaws.AcceptIff | internal/shared/shared.go:532-549 | who may accept, and when |
| SharedVaultLaws.RemoveIff | internal/shared/shared.go:555-579 | who may remove whom or leave, unless nobody would be left |
| SharedVaultLaws.RotateIff | internal/shared/shared.go:614-647 | which rotations are let through, and which refusal otherwise |
| SharedVaultLaws.VaultStep | internal/shared/shared.go:454-684 | only a rotation moves the epoch and settles a departure; a departure says who, when and how |
| SharedVaultLaws.MembersStep | internal/shared/shared.go:454-579 | rows come by invitation and go by removal |
| SharedVaultLaws.RoleStep | internal/shared/shared.go:468-527 | an operation changes only the role it names, to the one it names |
| SharedVaultLaws.SealStep | internal/shared/shared.go:480-677 | an operation changes only the copies it names, to those it gives, at the epoch it gives them |
| SharedVaultLaws.TimesStep | internal/shared/shared.go:454-549 | when a row was made and when its member accepted |
| SharedVaultLaws.StateStep | internal/shared/shared.go:153-184 | the state of every row after every operation, suspended rows included |
| SharedVaultLaws.InvitedRowIs | internal/shared/shared.go:464-471 | the row an invitation makes: the role, copy, fingerprints, sealer and time named, not accepted; no other row changes |
| SharedVaultLaws.RoleProvenance | internal/shared/shared.go:454-579 | over every run, a member has the role last given to them |
| SharedVaultLaws.SealProvenance | internal/shared/shared.go:454-677 | over every run, a row holds the copy, sealer, key and epoch last given |
| SharedVaultLaws.AcceptanceProvenance | internal/shared/shared.go:454-549 | over every run, only the member accepts for themselves, and an invitation starts over |
| SharedVaultLaws.LoadedIff | internal/shared/shared.go:255-282 | exactly which records are read back |
| SharedVaultLaws.OperationLands | internal/shared/shared.go:255-326 | an operation changes the record it names, if let through, and no other |
| SharedVaultLaws.SweepLands | internal/shared/shared.go:785-844 | a sweep is its operation on every readable record |
| SharedVaultLaws.SweepSaves | internal/shared/shared.go:785-844 | which records a sweep saves |
| SharedVaultLaws.SweepReaches | internal/shared/shared.go:785-844 | a sweep cut short has changed the records it reached and no other |
| KeyReplacement.InvStep | internal/shared/shared.go:604-684 | every step of rotations, publications, stale-markings and membership keeps each sealed copy accounted for |
| KeyReplacement.RotationSealsAreCurrentOrStale | internal/shared/shared.go:604-612 | in every interleaving, once all stale-markings have run, each row a rotation sealed is sealed to the published key or stale |
| SharedServer.Server.CheckWriter | internal/shared/shared.go:703-721 | exactly who may write, at which epoch |
| SharedServer.Server.Upload | internal/api/shared_handlers.go:146-151 | refused by membership, refused by the files (the upload kept as a conflict), or landed as one step of the two-store model; every other vault untouched |
| SharedServer.Server.Rollback | internal/api/shared_handlers.go:146-151 | the same for a rollback |
| SharedServer.Server.Verify | internal/api/shared_rotate.go:66-78 | whether each copy is sealed to the public key its user's directory publishes |
| SharedServer.Server.RetireOldKey | internal/api/shared_rotate.go:96-102 | the epoch marked, then the history cleared as far as its files can be removed, and every state on disk in between |
| SharedServer.Server.Prepare | internal/shared/shared.go:614-648 | which rotations are refused before anything is written, and with which error |
| SharedServer.Server.PrepareAndWrite | internal/api/shared_rotate.go:63-91 | exactly which rotations are refused and with which error, and what the vault's write leaves otherwise |
| SharedServer.Server.Rotate | internal/api/shared_rotate.go:63-103 | a refusal says why and changes neither store; a success is one rotation step, touches this vault only, and every state on disk on the way is one a crash may leave |
| SharedKeys.VerifiedIff | internal/api/shared_rotate.go:66-78 | the check is that of the interleavings, over the map of published keys |
| SharedKeys.PublicationIsStep | internal/api/user_key_handlers.go:36-59 | a publication that lands is their publication step, its stale-marking owed exactly when there was a key before |
| SharedKeys.WritesKeepPublished | internal/vault/vault.go:524-563 | saves, rotations and rollbacks change nobody's published key |
| SharedKeys.OnlyLastPublishedPasses | internal/api/shared_handlers.go:216-224 | after a publication only copies sealed to that very key pass the check |
| SharedKeys.ReplaceThenRotate | internal/api/shared_rotate.go:66-78 | run on the stores: a key replaced, then a rotation naming any other for that user is refused |
| SharedKeys.WriterIff | internal/shared/shared.go:703-721 | who may write: active owners and editors, naming the current epoch |
| SharedKeys.StepsHappen | internal/shared/shared.go:604-684 | the steps of the interleavings happen: a marking is run once, a rotation begun commits |
| SharedKeys.StoreKeysDistinct | internal/shared/shared.go:323-326 | vaults have directories of their own |
| SharedKeys.MarkedFields | internal/vault/vault.go:431-452 | the mark moves to the version just written and changes nothing else |
| SharedRotation.RotationKeepsAgreement | internal/vault/vault.go:423-430 | a rotation followed by a mark or a clear leaves ciphertext and all admissible snapshots under the record's epoch key |
| SharedRotation.StepKeepsAgreement | internal/shared/shared.go:698-721 | each save, rollback, membership change or rotation by writers true to their epoch keeps the stores agreeing |
| SharedRotation.StoresAlwaysAgree | internal/shared/shared.go:854-867 | so in every run the pair captured under the membership lock agrees |
| SharedRotation.RotationAgreesIff | internal/api/shared_rotate.go:86-102 | after any rotation the stores agree exactly when it left no snapshot a rollback would admit, as it does whenever its mark or its clear succeeded |
| SharedRotation.RotationSureIff | internal/api/shared_rotate.go:86-102 | decided before the call: a rotation is sure to leave the stores agreeing exactly when mark or clear succeeds or no admitted snapshot can survive the pruning |
| SharedRotation.ArchiveNameUsable | internal/vault/vault.go:501 | every archive's name is one a rollback accepts |
| SharedCrashes.StopsOpenableIff | internal/api/shared_rotate.go:79-102 | for one outcome of the pruning: every crash leaves a vault that held data openable exactly when some copy of its old ciphertext can still be rolled back to |
| SharedCrashes.NeverWrittenStopsOpenableIff | internal/api/shared_rotate.go:79-102 | for a vault never written: exactly when its files already held the uploaded bytes |
| SharedCrashes.CrashLeavesOpenableIff | internal/shared/shared.go:649-683 | decided before the call, for every accepted rotation: one crash anywhere is sure to leave the vault openable exactly when, of one age, copies of the old ciphertext outnumber the snapshots of that age that pruning removes (or, never written, the bytes were there already) |
| SharedCrashes.ArchiveSurvivesIff | internal/vault/vault.go:413-421 | with a history as every write leaves it, the archive is sure to survive the pruning of its own write exactly when there is room or the least separated snapshot is of another age |
| SharedCrashes.StepKeepsBounded | internal/vault/vault.go:886-896 | every save, rollback and rotation leaves at most 100 snapshots |
| SharedCrashes.CrashLeavesOpenable | internal/api/shared_rotate.go:79-102 | so with room for the archive, or with the archive the newest or the oldest snapshot, every crash leaves old record and old ciphertext, or new record and new ciphertext |
| SharedCrashExamples.FullHistoryCrash | internal/vault/vault.go:886-896 | an accepted rotation with a full history and a clock set back, and a crash that leaves nothing to roll back to |
| SharedCrashExamples.NeverWrittenCrash | internal/vault/vault.go:499-513 | an accepted rotation of a vault never written, and a crash that leaves the old record over ciphertext of the new key |
| SharedCrashes.RollbackRecovers | internal/vault/vault.go:655-718 | the rollback a crash calls for is one an active owner of the old record can make, and puts the old ciphertext back |
| HistoryIds.HistoryVersionRoundTrip | internal/vault/vault.go:758-768 | the version read back out of a snapshot's name is the one written into it, for both kinds of name |
| HistoryIds.ArchiveNamesDistinct | internal/vault/vault.go:501 | archives of different versions or kinds never share a name |
| HistoryThinning.LeastSpanIsLeast | internal/vault/vault.go:887-893 | the position removed has the least neighbour span, the earliest such |
| HistoryThinning.LeastSeparated | internal/vault/vault.go:887-893 | the same in the snapshots' own times |
| HistoryThinning.FindLeastSpan | internal/vault/vault.go:887-893 | the inner loop finds that position |
| HistoryThinning.Thin | internal/vault/vault.go:886-896 | the outer loop removes least-span snapshots until 100 are left |
| HistoryThinning.WithoutKeeps | internal/vault/vault.go:882-885 | one removal keeps order, both endpoints, and never lowers the least interior span |
| HistoryThinning.ThinnedKeeps | internal/vault/vault.go:882-897 | so thinning leaves at most 100, the newest and oldest among them, with no smaller interior span |
| HistoryThinning.ThinnedIsSubsequence | internal/vault/vault.go:886-896 | what is left is a subsequence of the sorted input, at positions that are computed |
| HistoryThinning.Prune | internal/vault/vault.go:857-897 | expired snapshots removed, the rest thinned in some newest-first order |
| HistoryThinning.PruneKeeps | internal/vault/vault.go:857-897 | nothing expired stays, nothing else goes below 100, the newest and the oldest always stay |
| HistoryLoss.OneKeptIff | internal/vault/vault.go:879-896 | however ties in age are ordered, every prune keeps one of a set of snapshots exactly when at some age they outnumber the positions that go |
| HistoryLoss.SomeOrder | internal/vault/vault.go:879-881 | there is always such an order, and the conditions can be read off any |
| HistoryLoss.MayStayIff | internal/vault/vault.go:879-896 | some order of the ties keeps a snapshot exactly when a position of its age stays |
| HistoryLoss.SurvivesIff | internal/vault/vault.go:879-896 | with at most 101 recent snapshots, one survives every prune exactly when there is room or the least separated is of another age |
| VaultFiles.SaveInto | internal/vault/vault.go:456-565 | one save: its refusals, what it leaves, and every state it passes through |
| VaultFiles.RestoreInto | internal/vault/vault.go:655-718 | one rollback: its refusals and what it leaves |
| VaultFiles.ReplaceCurrent | internal/vault/vault.go:499-563 | archive, then the new files; refused only when the archive must and cannot be written |
| VaultFiles.RollBackTo | internal/vault/vault.go:676-717 | the snapshot made current as the next version, the replaced one archived if it can be |
| VaultFiles.PruneOldHistory | internal/vault/vault.go:857-897 | pruning one directory, with every state a crash may leave it in |
| VaultFiles.CommitFiles | internal/vault/vault.go:515-563 | ciphertext replaced, then metadata, then pruning, with each state in between |
| VaultFiles.Store.SaveVault | internal/vault/vault.go:454-565 | a save against the store: conflicts preserved, the version advanced, all other vaults untouched |
| VaultFiles.Store.RotateVault | internal/vault/vault.go:397-411 | a personal rotation needs both envelopes and starts a key epoch in the same write |
| VaultFiles.Store.RestoreHistory | internal/vault/vault.go:655-718 | a rollback against the store, stale-key snapshots refused |
| VaultFiles.Store.MarkKeyEpoch | internal/vault/vault.go:423-452 | the epoch mark is raised, never lowered, never past the version |
| VaultFiles.Store.ClearHistory | internal/vault/vault.go:830-854 | snapshots, then conflicts, gone one file at a time up to the first that cannot be removed, which is reported; the current vault intact |
| VaultFiles.Store.SaveEnvelopes | internal/vault/vault.go:289-317 | envelopes replaced only at the named version |
| VaultFiles.Store.DiscardConflict | internal/vault/vault.go:811-824 | one preserved conflict removed, and nothing else |
| VaultFiles.Store.SaveUserKey | internal/vault/vault.go:567-609 | a key published or replaced only at the named version, never at version 0, at most five previous keys kept |
| VaultFiles.Store.MoveOut | internal/vault/vault.go:899-912 | the directory is taken away and its key retired; a rename that fails leaves both as they were |
| PersonalVault.SaveKeepsSound | internal/vault/vault.go:456-565 | a save under the current key, or one starting an epoch, keeps every admissible snapshot under the current key |
| PersonalVault.RestoreKeepsSound | internal/vault/vault.go:655-718 | a rollback lands only on ciphertext under the current key |
| PersonalVault.RunOrdered | internal/vault/vault.go:423-609 | versions and epoch marks never fall, the mark never exceeds the version, and one version names one ciphertext |
| PersonalVault.AlwaysOpenable | internal/vault/vault.go:289-718 | in every run of honest clients both envelopes, the wrapped seed and all admissible snapshots are under the current key |
| PersonalVault.FirstSaveOpenableIff | internal/vault/vault.go:286-317 | the first save makes the vault openable exactly when envelopes already waiting are replaced or wrap its key |
| PersonalVault.NoSecondWriteOnOneVersion | internal/vault/vault.go:476-488 | once a save or rotation based on a version lands, nothing else based on it lands |
| PersonalVault.SecondWriteIff | internal/vault/vault.go:286-317 | after a write naming a version has landed, another naming it can land exactly when the first was of envelopes or of a user key |
| PersonalVault.LandsAgainIff | internal/vault/vault.go:476-488 | over a run: a write naming a version can land exactly as long as no save, rotation or rollback has landed since |
| PersonalVault.EnvelopeWritesCanCollide | internal/vault/vault.go:286-317 | two envelope writes naming one version, both landing, the second over the first |
| VaultLaws.SaveRefusedIff | internal/vault/vault.go:476-508 | which saves are refused, and with which error |
| VaultLaws.RefusedUploadKept | internal/vault/vault.go:476-488 | a save refused for its version keeps the rejected bytes under the ID it answers with, and changes nothing else |
| VaultLaws.RejectedUploadStays | internal/vault/vault.go:476-488 | over runs, those bytes stay under that ID until a clear, their discarding, or another refusal under the same ID |
| VaultLaws.SavedFields | internal/vault/vault.go:524-558 | every field a save leaves |
| VaultLaws.SavedUserKey | internal/vault/vault.go:539-548 | a save keeps the public key and the previous ones; a rotation takes only the new wrapping |
| VaultLaws.SavedHistory | internal/vault/vault.go:499-508 | the history afterwards: what it held, and the replaced bytes under their own time and version |
| VaultLaws.ReplacedVersionKept | internal/vault/vault.go:499-508 | with room, the replaced version and every recent snapshot are kept |
| VaultLaws.RestoreRefusedIff | internal/vault/vault.go:655-675 | which rollbacks are refused, and with which error |
| VaultLaws.RestoredFields | internal/vault/vault.go:676-717 | every field a rollback leaves |
| VaultLaws.RollbackUndone | internal/vault/vault.go:676-717 | with room, a rollback can be rolled back to the very ciphertext it replaced |
| VaultLaws.EpochMarkedFields | internal/vault/vault.go:431-452 | when a mark is refused, and that it only ever goes up |
| VaultLaws.MarkRefusesOlder | internal/vault/vault.go:660-664 | after a mark exactly the snapshots of earlier versions are refused |
| VaultLaws.EnvelopeFields | internal/vault/vault.go:289-317 | every field an envelope write leaves |
| VaultLaws.ClearedFields | internal/vault/vault.go:830-854 | a clear leaves metadata and ciphertext |
| VaultLaws.DiscardedFields | internal/vault/vault.go:811-824 | a discarding removes one conflict and nothing else |
| VaultLaws.UnwrittenIs | internal/vault/vault.go:358-367 | a directory never written is empty, at version 0 |
| VaultLaws.PublishedIff | internal/vault/vault.go:572-590 | when a publication lands |
| VaultLaws.PublishedFields | internal/vault/vault.go:591-609 | the key and wrapping given, and which previous keys stay |
| VaultLaws.PreviousKeysAre | internal/vault/vault.go:591-609 | after any sequence of publications the previous keys are the last five replaced, in order |
| VaultLaws.ConflictNameUsable | internal/vault/vault.go:220-233 | a conflict's ID is always a name that can be opened and discarded |
| VaultLaws.ConflictNamesDistinct | internal/vault/vault.go:478-480 | refusals at different times never share an ID |
| VaultLaws.DeviceInName | internal/vault/vault.go:220-233 | a device stands in a conflict's ID by its own name, or as web or unknown |
| VaultLaws.ArchiveNamesTell | internal/vault/vault.go:501 | an archive's name tells its second and its version |
| VaultLaws.UnixRoundsDown | internal/vault/vault.go:501 | a name's seconds are the time rounded down |
| VaultLaws.DecimalPlain | internal/vault/vault.go:478-501 | numbers in names carry a sign only if negative, and no leading zeros |
| VaultLaws.ReadsNumber | internal/vault/vault.go:758-768 | which numbers are read back, and how those out of range are |
| VaultLaws.ReadsNothing | internal/vault/vault.go:758-768 | anything else reads as 0 |
| VaultLaws.NoVersionInName | internal/vault/vault.go:758-768 | a name without a version is of version 0 |
| VaultLaws.VersionInName | internal/vault/vault.go:758-768 | otherwise the version is the number behind its first mark |
| SharedDeletion.Store.constructor | internal/shared/shared.go:208-224 | opening the store finishes interrupted deletions and retires their keys |
| SharedDeletion.Store.ReconcileDeleted | internal/shared/shared.go:226-251 | exactly the unfinished deletions whose directory can be moved are finished |
| SharedDeletion.Store.Delete | internal/shared/shared.go:723-753 | what a deletion leaves wherever it stops, and who may start one |
| SharedDeletion.Store.PruneDeleted | internal/shared/shared.go:755-783 | exactly the deletions past retention are removed |
| SharedDeletion.RecoveryDecides | internal/shared/shared.go:226-251 | recovery leaves the vault wholly live or wholly deleted, deleted exactly when the live record had gone |
| SharedDeletion.RecoveryRepeats | internal/shared/shared.go:226-251 | recovering twice is recovering once with whatever became movable |
| SharedDeletion.RecoveryIdempotent | internal/shared/shared.go:226-251 | repeating a recovery changes nothing |
| SharedDeletion.PruneStrandsIff | internal/shared/shared.go:755-783 | a prune strands a directory exactly when an expired deletion's move never succeeded |
| SharedDeletion.ConservedStep | internal/shared/shared.go:723-783 | every step keeps each vault's content in exactly one place |
| SharedDeletion.ContentConserved | internal/shared/shared.go:723-783 | the same in every run |
| SharedDeletion.LiveDataIntact | internal/shared/shared.go:755-783 | a live vault's data is in place and is what was last written |
| SharedDeletion.PrunedOnlyAfterRetention | internal/shared/shared.go:762-775 | a prune destroys only content of finished deletions past retention |
| DeletionLaws.DeleteIff | internal/shared/shared.go:723-736 | who may delete |
| DeletionLaws.DeletedFields | internal/shared/shared.go:737-752 | what a deletion leaves at each stop: the record as it was, dated |
| DeletionLaws.ReconciledFields | internal/shared/shared.go:226-251 | which directories a recovery moves |
| DeletionLaws.PrunedFields | internal/shared/shared.go:762-775 | which deletions a prune removes |
| DeletionLaws.DeletedLives | internal/shared/shared.go:762-775 | a deletion stays for the whole of its retention and goes with the first prune after |
| AuditChain.VerifyStream | internal/audit/audit.go:787-826 | a log verifies exactly when it is chained record by record and ends at its anchor |
| AuditChain.AnchorNamesOneLog | internal/audit/audit.go:133-145 | two logs that verify against one anchor are equal record by record |
| AuditChain.ReplayKeepsContent | internal/audit/audit.go:567-583 | replaying contents mints a chain holding exactly those contents |
| AuditLog.Store.ReadAll | internal/audit/audit.go:402-427 | the loop returns every record up to the first undecodable byte, and that offset |
| AuditLog.Store.PlaceTail | internal/audit/audit.go:329-400 | accepted exactly when log and mark are both empty, or the records past the mark extend it one by one |
| AuditLog.Store.TrimTornTail | internal/audit/audit.go:429-503 | only an unterminated fragment is removed; anything else is refused |
| AuditLog.Store.LegacyChainVerifies | internal/audit/audit.go:592-606 | the loop decides the earlier format's chain |
| AuditLog.Store.Converge | internal/audit/audit.go:548-590 | exactly when the log is converted, and to what |
| AuditLog.Store.ResumeAt | internal/audit/audit.go:306-327 | the chain resumes at the last record exactly when it verifies and is the one the anchor names |
| AuditLog.Store.Open | internal/audit/audit.go:266-327 | exactly which files are refused, and what an accepted and a refused open leave |
| AuditLog.Store.Log | internal/audit/audit.go:641-734 | record first, mark second: the new log, mark, anchor and tail; a write that fails is cut back, a record whose flush fails stays while the chain steps back |
| AuditLog.Store.VerifyIntegrity | internal/audit/audit.go:787-809 | true exactly when the whole file decodes and verifies against the anchor |
| AuditLog.RemintedRecords | internal/audit/audit.go:567-590 | a converted log is chained and is the replay of the old contents |
| AuditRuns.ReadsBack | internal/audit/audit.go:402-503 | reading a written log gives exactly its whole records, and trimming drops exactly the torn fragment |
| AuditCodec.SoundCodecExists | internal/audit/audit.go:666-681 | there is a record format with the properties the log is proved under: self-ending, without newlines |
| AuditRuns.OpensWhatWasWritten | internal/audit/audit.go:339-400 | a log its own writes left is refused exactly when it holds records and its mark counts none |
| AuditRuns.AcceptedKeepsRecords | internal/audit/audit.go:266-327 | otherwise every whole record is kept and the anchor is the log's length and tail |
| AuditRuns.AlwaysWritten | internal/audit/audit.go:641-734 | every run of appends, torn writes and restarts keeps the log in that shape |
| AuditRuns.RestartAfterAnyRun | internal/audit/audit.go:266-327 | so after any run a restart is refused only if records landed and no mark ever did |
| AuditRuns.LiveLogVerifies | internal/audit/audit.go:787-809 | an open log always verifies end to end against its live anchor |
| AuditRuns.AcceptedLogFollowsMark | internal/audit/audit.go:339-400 | opening never accepts fewer records than the mark counts, and extra ones only if they extend it |
| AuditRuns.RefusedOpenEditsIff | internal/audit/audit.go:306-327 | a refused open edits the log exactly when the tail could be placed, was not the marked record, and had a fragment to drop |
| AuditRuns.VerifiedLogsEqual | internal/audit/audit.go:59-68 | two files verifying against one mark agree in time, action, user, device, address and details of every record |
| AuditRuns.EditedLogFails | internal/audit/audit.go:787-826 | a log with any of these changed in any record fails against the anchor of the one it was made from |
| AuditForks.UnflushedStays | internal/audit/audit.go:694-707 | an append whose flush fails leaves its record in the log, which then fails its integrity check until a restart |
| AuditForks.UnflushedRestartIff | internal/audit/audit.go:694-718 | from there a restart is refused exactly when another record was written first, or no mark was ever written |
| AuditRefinement.DoLog | internal/audit/audit.go:641-734 | an append on the store is the step of the runs, or the failed attempt |
| AuditRefinement.DoRestart | internal/audit/audit.go:266-327 | opening the files left is the restart step, or refused exactly as the runs say |
| AuditLaws.AppendedRecord | internal/audit/audit.go:59-68 | a record holds what was logged; its digest is of its place and the six fields in order |
| AuditLaws.AppendedRecordIsUnique | internal/audit/audit.go:59-68 | no record that says anything else carries that digest |
| AuditLaws.LogSaysWhatWasLogged | internal/audit/audit.go:402-427 | over every run the log reads back word for word and in order what was logged |
| AuditLaws.ConvertsIff | internal/audit/audit.go:548-563 | when a log is converted |
| AuditLaws.ConversionKeepsWords | internal/audit/audit.go:565-580 | a conversion changes numbers and digests and no word |
| AuditLaws.LegacyLineTells | internal/audit/audit.go:157-164 | the earlier digest covers every field, as long as none holds the bar it is joined with |
| AuditLaws.LegacyLineMixes | internal/audit/audit.go:157-164 | with a bar, two records that differ share it |
| AuditLaws.TrimmedIff | internal/audit/audit.go:429-503 | exactly what is dropped behind the last record, and what refuses the log |
| AuditLaws.SpacesAre | internal/audit/audit.go:402-427 | which white space the reader passes over |
| AuditLaws.ExtendsIff | internal/audit/audit.go:368-396 | which records past the mark are taken |
| AuditLaws.AcceptedIsChained | internal/audit/audit.go:368-396 | so an accepted log is one chain if its marked part is |
| AuditLaws.OpenedIff | internal/audit/audit.go:266-400 | exactly which logs of the shared format are opened |
| AuditLaws.ConvertedOpens | internal/audit/audit.go:548-590 | a log of the earlier format that its mark attests is opened, and its rewriting reads back |
| AuditLaws.EmptyIntact | internal/audit/audit.go:787-826 | an empty log is intact against a mark that counts nothing |
| AuditBudget.Budget.Take | internal/api/audit_budget.go:71-98 | one call: recorded or counted, and what the passed window is folded into |
| AuditBudget.Budget.Collect | internal/api/audit_budget.go:100-136 | the loop reports and forgets exactly the swept sources |
| AuditBudget.Budget.RecordRejection | internal/api/audit_budget.go:196-208 | what one rejection writes |
| AuditBudget.Budget.Flush | internal/api/audit_budget.go:232-256 | exactly one summary for each count collected |
| AuditBudget.NothingDropped | internal/api/audit_budget.go:71-136 | calls equal records granted plus counts folded, collected and held, in every run |
| AuditBudget.DrainReportsAll | internal/api/audit_budget.go:242-256 | after the shutdown drain nothing is left uncounted |
| AuditBudget.TableBounded | internal/api/audit_budget.go:80-87 | the table never exceeds 1025 entries |
| AuditRates.BucketRate | internal/api/audit_budget.go:88-97 | with a clock that does not run backwards, one bucket grants less than two bursts in any span no longer than its window |
| AuditRates.SourceRate | internal/api/audit_budget.go:79-97 | a source draws on its own bucket and the overflow bucket: at most four bursts less two records in such a span |
| AuditRates.ServerRate | internal/api/audit_budget.go:15-22 | with the server's limits: at most 39 records from one bucket and 78 of one source within a minute |
| AuditRatesTight.SourceRateReached | internal/api/audit_budget.go:79-97 | for any limits, a run in which one source gets exactly that many, within four ticks of the clock |
| BudgetLaws.TakeFields | internal/api/audit_budget.go:71-98 | every field one rejection leaves, and whether it is recorded |
| BudgetLaws.CollectFields | internal/api/audit_budget.go:115-136 | what a collection reports and forgets |
| BudgetLaws.StepBooks | internal/api/audit_budget.go:71-136 | what each rejection, sweep and shutdown adds to the books |
| BudgetLaws.AtMost1025 | internal/api/audit_budget.go:80-87 | the table holds at most 1025 entries |
| BudgetLaws.TwentyThenCounted | internal/api/audit_budget.go:88-98 | with the server's limits a source gets 20 records in one window and the rest are counted |
| LogoutFence.ListOf | internal/sso/logout.go:135-149 | the saved list, in whatever order, loads back to the same events |
| LogoutFence.LogoutLog.constructor | internal/sso/logout.go:73-93 | the loop loads the file into the map |
| LogoutFence.LogoutLog.Admit | internal/sso/logout.go:97-120 | expired events pruned; refused as replayed, at capacity or unsaved; otherwise recorded in memory and file |
| LogoutFence.LogoutLog.Fenced | internal/sso/logout.go:122-133 | true exactly when a retained, unexpired event matches |
| LogoutLaws.FencedIff | internal/sso/logout.go:46-55 | which sign-ons are fenced, in the event's own fields |
| LogoutLaws.LogoutEndsIff | internal/sso/logout.go:43-55 | which sessions a token ends: by session ID, by session ID and subject, or by subject and time |
| LogoutLaws.LogoutAddsNone | internal/api/sso_logout.go:123-150 | a logout makes no session |
| LogoutLaws.NamedLoginRefused | internal/sso/logout.go:122-133 | a login an accepted token names is refused until its replay time has passed |
| LogoutLaws.NamedStayOut | internal/api/sso_logout.go:123-150 | over every run, no live session is one that a retained token names |
| LogoutLaws.RepeatIff | internal/sso/logout.go:95-110 | a token is a repeat exactly when one of its issuer, client and ID is retained |
| LogoutLaws.AcceptedIff | internal/sso/logout.go:99-119 | which other tokens are accepted, and what is recorded |
| LogoutLaws.RetainedAfter | internal/sso/logout.go:103-119 | which events are retained afterwards |
| LogoutLaws.LogoutCancelsCodes | internal/api/sso_logout.go:130-140 | a logout cancels exactly the codes of the users whose sessions it ended |
| LogoutFence.RefusedWhileRetained | internal/sso/logout.go:99-120 | a second admission of one token is a replay exactly until its retention ends |
| DevicePairing.Store.CreatePairingSession | internal/devices/devices.go:107-142 | expired codes pruned, the new pairing filed under PIN and secret |
| DevicePairing.Store.RedeemPairing | internal/devices/devices.go:144-191 | a code redeems once; the device is rolled back if unsaved, the code stays spent |
| DevicePairing.Store.Revoke | internal/devices/devices.go:258-269 | the device leaves memory even when the file still lists it |
| DevicePairing.Store.CancelUserPairings | internal/devices/devices.go:271-281 | the loop deletes each PIN of the user and the secret filed with it |
| DevicePairing.CreateKeepsPairedIff | internal/devices/devices.go:112-139 | PINs and secrets stay in step exactly when the new PIN is not outstanding |
| DevicePairing.CancelLeavesNoneIff | internal/devices/devices.go:271-281 | a cancellation leaves no code of the user exactly when each is filed under a PIN of theirs |
| DevicePairing.SharedPinOutlivesCancel | internal/devices/devices.go:112-139 | two codes with one PIN: the first outlives the cancellation |
| SessionLaws.RedeemIff | internal/devices/devices.go:144-165 | which codes work, until when, and for whom |
| SessionLaws.RedeemLeaves | internal/devices/devices.go:165-191 | a redeem spends its code and adds at most its device |
| SessionLaws.CodeLife | internal/devices/devices.go:107-191 | a code works for 90 seconds, by PIN or secret, once |
| SessionLaws.CreatedFields | internal/devices/devices.go:107-142 | a new code drops the expired ones and adds itself |
| SessionLaws.CancelledFields | internal/devices/devices.go:271-281 | a cancellation drops a user's codes, nobody else's, and no device |
| SessionLaws.RevokedFields | internal/devices/devices.go:258-269 | a revocation drops one device and no code |
| SessionServer.Server.constructor | internal/api/server.go:164-214 | sessions are loaded last, against logout and device records already loaded |
| SessionServer.Server.LoadSessions | internal/api/sessions.go:34-64 | exactly the stored sessions that are unexpired, unfenced and whose device exists |
| SessionServer.Server.SaveSessionsLocked | internal/api/sessions.go:70-89 | a failed write leaves memory as it is and marks it dirty |
| SessionServer.Server.PruneSessions | internal/api/sessions.go:101-121 | expired sessions go; saved if anything went or a write is owed |
| SessionServer.Server.StartSession | internal/api/server.go:390-432 | who is refused a browser session, in order, and what a login leaves |
| SessionServer.Server.StartSessionWithToken | internal/api/device_handlers.go:121-165 | who is refused a device session, in order, and what a mint leaves |
| SessionServer.Server.ApplySSOLogout | internal/api/sso_logout.go:123-150 | the event recorded, every matching session ended, their users' pairings cancelled, failed writes reported |
| SessionServer.Server.LogoutSessionsPending | internal/api/sso_logout.go:152-163 | a pending delivery is reported once |
| SessionServer.Server.RevokeDeviceLocked | internal/api/device_handlers.go:214-223 | the device and every session on it are gone |
| SessionServer.Server.RevokeAllDevices | internal/api/device_handlers.go:225-238 | codes, devices and sessions of the user are gone, others untouched |
| SessionServer.Server.RevokeDirectorySessions | internal/api/scim_handlers.go:233-245 | codes and sessions of a deactivated account are gone, others untouched |
| SessionServer.Server.EndSession | internal/api/sessions.go:165-213 | one session of the caller ended, with its device if it has one; never the current one |
| SessionRuns.FenceStep | internal/api/sso_logout.go:123-150 | every step keeps admitted, unexpired events recorded in memory and file and matching no live session |
| SessionRuns.SoundStep | internal/api/device_handlers.go:121-238 | every step keeps sessions backed by devices, devices in memory in their file, codes consistent, and redeems overtaken by a revocation doomed |
| SessionRefinement.DoMint | internal/api/device_handlers.go:121-165 | the server's mint is the mint step of the runs |
| SessionRefinement.DoLogout | internal/api/sso_logout.go:123-150 | the server's logout is the logout step |
| SessionRefinement.DoRevokeDevice | internal/api/device_handlers.go:214-223 | the server's revocation of a device is the revocation step |
| SessionRefinement.DoPrune | internal/api/sessions.go:101-121 | the server's prune is the prune step, written only if something was removed or owed |
| SessionRefinement.DoEndSession | internal/api/sessions.go:165-213 | ending one session is a revocation step, or the end of that session alone |
| SessionRefinement.DoLogin | internal/api/server.go:390-432 | the same for a login |
| SessionRefinement.DoCreate | internal/devices/devices.go:107-142 | the same for a new code |
| SessionRefinement.DoRedeem | internal/devices/devices.go:144-191 | the same for a redeem |
| SessionRefinement.DoCancel | internal/devices/devices.go:271-281 | the same for the first part of a revocation of all devices |
| SessionRefinement.DoList | internal/api/device_handlers.go:225-238 | the same for its listing of the devices |
| SessionRefinement.DoRevokeNext | internal/api/device_handlers.go:214-223 | the same for each device it revokes |
| SessionRefinement.DoFinish | internal/api/sessions.go:70-89 | the same for the save it ends with |
| SessionRefinement.DoAbandon | internal/api/device_handlers.go:94-98 | the same for the device of a refused mint |
| SessionRefinement.DoRetry | internal/api/sessions.go:92-99 | a retry of an owed save is the retry step, or nothing |
| SessionRefinement.DoRevokeDirectory | internal/api/scim_handlers.go:233-245 | a deactivation is two steps: its codes cancelled, then its sessions ended |
| SessionRefinement.DoRestart | internal/api/server.go:164-214 | a new server over the files left is the restart step |
| SessionSafety.LoggedOutStaysOut | internal/api/sso_logout.go:123-150 | from acceptance until its retention ends, no live session matches a logout, across every interleaving and restart |
| SessionSafety.TokenAcceptedOnce | internal/sso/logout.go:63-66 | a token accepted once is refused as a replay until its retention ends, across restarts |
| SessionSafety.SessionsAlwaysHaveDevices | internal/api/device_handlers.go:137-146 | every session on a device has that device in the store |
| SessionSafety.CancelledNeverMints | internal/api/device_handlers.go:225-230 | no code outstanding, and no redeem in flight, when all devices are revoked ever yields a session |
| SessionSafety.GoneReturnsIff | internal/api/sessions.go:46-60 | a device that is gone is back in the store exactly when a restart read it out of a file its removal never reached and no revocation of it followed |
| SessionSafety.RevokedNeverMints | internal/api/device_handlers.go:137-146 | a revoked device never mints again; it vouches for a pairing only if such a restart has read it back |
| SessionSafety.RevokeAllIsFinal | internal/api/device_handlers.go:225-238 | revoking all devices, with anything in between: every one registered is gone, none ever mints, one vouches only if such a restart has read it back |
| SessionReadBack.RevokedDeviceVouches | internal/api/sessions.go:46-60 | a run from a fresh server in which a device revoked at the sixth step vouches for the session minted at the eleventh |
| SessionSafety.RevocationUndoneIff | internal/api/sessions.go:46-60 | a revoked device's session returns after a restart exactly when neither file was written |
| SessionLaws.LoginIff | internal/api/server.go:410-418 | which logins are let through |
| SessionLaws.MintIff | internal/api/device_handlers.go:128-146 | which mints are let through |
| SessionLaws.LoginLives | internal/api/server.go:419-428 | a login is live for exactly a day |
| SessionLaws.MintLives | internal/api/device_handlers.go:148-162 | a device session is live for exactly ninety days, for the user and sign-on of its pairing |
| SessionLaws.MintsIff | internal/api/device_handlers.go:128-146 | which redeemed devices get their session, and what a refused one leaves |
| SessionLaws.RefusedRedeemLeaves | internal/devices/devices.go:165-191 | a redeem that fails leaves the device file and nothing in flight |
| SessionLaws.CancellationSteps | internal/devices/devices.go:271-281 | which codes the two cancellations drop |
| SessionLaws.LogoutStepFields | internal/api/sso_logout.go:123-150 | which sessions and codes a logout step ends, and what it records |
| SessionLaws.HandlersFields | internal/api/device_handlers.go:94-98 | a handler done with a refused device revokes and forgets it |
| SessionLaws.UpkeepFields | internal/api/sessions.go:91-121 | what pruning, ending sessions and a retried save leave |
| SessionLaws.OthersKept | internal/api/device_handlers.go:148-162 | neither touches other sessions that are still live |
| SessionLaws.RestartedIff | internal/api/sessions.go:34-64 | which sessions a restart brings back |
| SessionLaws.RevokedSessions | internal/api/device_handlers.go:214-223 | which sessions a revocation ends |
| SessionLaws.DirectorySessions | internal/api/scim_handlers.go:233-245 | which sessions a deactivation ends |
| SessionLaws.SessionsBelongToDevices | internal/api/device_handlers.go:121-165 | over every run, a session on a device is one of the device's own user |
| SessionLaws.PairingHandsOn | internal/api/device_handlers.go:19-60 | a pairing hands on the user, sign-on and device of the session that issued it |
| SessionLaws.CodeHandsOn | internal/devices/devices.go:107-142 | so does its code |
| SessionLaws.RedeemHandsOn | internal/devices/devices.go:144-191 | and its redeem |
| ExtensionVault.VaultState.Lock | extension/src/lib/vaultState.ts:102-107 | the first stretch of a lock |
| ExtensionVault.VaultState.BeginRequest | extension/src/lib/vaultState.ts:201-203 | where a request gets its vault, with the generation captured at that point |
| ExtensionVault.VaultState.EndDownload | extension/src/lib/vaultState.ts:122-144 | whether a finished download may be used, and what a wrong key does |
| ExtensionVault.VaultState.FinishCommit | extension/src/lib/vaultState.ts:152-157 | the vault opens only for the current generation |
| ExtensionRuns.SoundStep | extension/src/lib/vaultState.ts:102-207 | every step keeps captured generations, keys and shared downloads consistent |
| ExtensionRuns.DoomedStep | extension/src/lib/vaultState.ts:146-158 | every step that neither rewrites the stored key nor evicts over a stale one keeps: a stale key is one that some waiting task will clear |
| ExtensionSafety.OpenIsCurrent | extension/src/lib/vaultState.ts:152-156 | an open vault was committed by work of the current generation, in every interleaving |
| ExtensionSafety.QuietKeyCurrentIff | extension/src/lib/vaultState.ts:146-158 | with nothing left to run the stored key is stale exactly when an eviction caught a stale key and the storage has been neither cleared nor rewritten since |
| ExtensionSafety.QuietKeyCurrent | extension/src/lib/vaultState.ts:146-158 | so without evictions it is the current generation's |
| ExtensionSafety.NoLockSinceCapture | extension/src/lib/vaultState.ts:84-85 | work that commits saw no lock since it captured its generation |
| ExtensionSafety.CommitsAcrossLockIff | extension/src/lib/vaultState.ts:84-85 | it commits across a lock that landed after its call exactly when it captured a later generation |
| ExtensionSafety.CapturedKeyCurrentIff | extension/src/lib/vaultState.ts:194-203 | a request's key is of the generation it captures exactly when it was not stale when read and no lock came between |
| ExtensionSafety.RequestOutlivesLock | extension/src/lib/vaultState.ts:194-207 | a concrete interleaving in which a request reopens the vault after a lock |
| ExtensionSafety.UnlockOutlivesLock | extension/src/lib/vaultState.ts:160-164 | a concrete interleaving in which an unlock completes after a lock |
| ExtensionSafety.AwakeReached | extension/src/lib/vaultState.ts:152-157 | the state that interleaving starts from is reached from the start |
| ExtensionSafety.EvictionCutsOff | extension/src/lib/vaultState.ts:148-155 | a run from the start in which a key outlives a lock: written late, and the worker evicted before the clear |
| ExtensionVault.VaultState.DropCopy | extension/src/lib/vaultState.ts:338 | a failed save closes the copy it changed, if that is the open one |
| ExtensionSaves.CopiesStep | extension/src/lib/vaultState.ts:316-344 | every step keeps: a copy that is open, handed out or failed has finished downloading |
| ExtensionSaves.FailureReturnsIff | extension/src/lib/vaultState.ts:312-315 | a failed save closes its copy, which can be opened again exactly when a request already held it as the save failed |
| ExtensionSaves.FailedCopyReturnsIff | extension/src/lib/vaultState.ts:312-315 | at any later point its copy can be opened again exactly when a request of the current generation holds it |
| ExtensionSaves.RefusedCopyNeverReturns | extension/src/lib/vaultState.ts:334-337 | the copy of a save refused as outdated never comes back |
| ExtensionSaves.EditableReached | extension/src/lib/vaultState.ts:201-204 | a state in which a copy can be edited is reached from the start |
| ExtensionSaves.FailedSaveComesBack | extension/src/lib/vaultState.ts:203-204 | from there, a concrete interleaving in which a failed save's entry is in the open copy again |
| ExtensionLaws.MemoryFields | extension/src/lib/vaultState.ts:102-157 | what a lock, a commit and a failed save do to the memory |
| ExtensionLaws.UnlockOpens | extension/src/lib/vaultState.ts:160-188 | from any state an undisturbed unlock opens the vault and stores its key |
| ExtensionLaws.RequestReopensVault | extension/src/lib/vaultState.ts:190-207 | an undisturbed request reopens a closed vault with the stored key |
| ExtensionLaws.RequestTakesOpen | extension/src/lib/vaultState.ts:201-207 | and hands out the open copy if there is one |
| ExtensionLaws.RequestJoins | extension/src/lib/vaultState.ts:201-204 | or joins a download under way |
| ExtensionLaws.RequestLocksOut | extension/src/lib/vaultState.ts:195-200 | or locks, if there is no key or the deadline is missed |
| ExtensionLaws.WrongKeyLocks | extension/src/lib/vaultState.ts:122-144 | a key that does not open the vault locks and clears |
| ExtensionLaws.LockCloses | extension/src/lib/vaultState.ts:102-107 | a lock closes and clears |
| ExtensionLaws.LateDownloadDropped | extension/src/lib/vaultState.ts:122-144 | a download that ends in a later generation is thrown away |
| ExtensionLaws.LateCommitClears | extension/src/lib/vaultState.ts:146-158 | a write that ends in a later generation is cleared |
| ExtensionLaws.UploadEnds | extension/src/lib/vaultState.ts:316-344 | what a stored, a failed and an outdated save leave |
| ExtensionLaws.FailuresFree | extension/src/lib/vaultState.ts:110-144 | what a failed task and an eviction leave |
| ExtensionLaws.MayFailIff | extension/src/lib/vaultState.ts:102-207 | where a task may fail |
| Csv.ExportCsv | frontend/src/lib/csvExport.ts:8-29 | the text is the header and one line per entry, printed |
| Csv.ParseCsvRecords | frontend/src/lib/csvImport.ts:47-127 | the character loop computes the scanner's rows |
| Csv.CommaChosen | frontend/src/lib/csvImport.ts:54-67 | a first line of letters and commas makes the reader choose commas |
| Csv.ReadsCell | frontend/src/lib/csvExport.ts:4 | a printed cell, whatever is in it, reads back as its value |
| Csv.ReadsRow | frontend/src/lib/csvImport.ts:77-117 | a printed row reads back as its cells |
| Csv.PrintedParses | frontend/src/lib/csvImport.ts:47-127 | a printed table reads back exactly, less its wholly blank rows |
| Csv.ExportRoundTrip | frontend/src/lib/csvExport.ts:8-29 | reading an export back gives the header and one row per entry, cell for cell |
| CsvLaws.RowColumns | frontend/src/lib/csvExport.ts:13-24 | which field stands in which column |
| CsvLaws.JoinGrows | frontend/src/lib/csvExport.ts:22 | tags and cells are joined by their separator |
| CsvLaws.ExportReadsBack | frontend/src/lib/csvExport.ts:8-29 | reading an export back gives each value in its column under its heading |
| CsvLaws.QuotedIff | frontend/src/lib/csvExport.ts:4 | which cells are quoted, and by how much they grow |
| CsvLaws.WhiteSpaceIs | frontend/src/lib/csvImport.ts:52 | the white space a cell is trimmed of |
| CsvLaws.KeptIff | frontend/src/lib/csvImport.ts:90-117 | which rows are dropped |
| CsvLaws.FirstLineIs | frontend/src/lib/csvImport.ts:55 | the line the separator is chosen from |
| CsvLaws.SeparatorIs | frontend/src/lib/csvImport.ts:54-67 | which separator is chosen |
| CsvLaws.MarkIgnored | frontend/src/lib/csvImport.ts:50-52 | a byte order mark makes no difference |
| CsvLaws.TableUnderHeadingReads | frontend/src/lib/csvImport.ts:47-127 | a plain table under a heading reads back, whatever of the three separators and three line ends it uses |
| CsvLaws.LastLineNeedsNoEnd | frontend/src/lib/csvImport.ts:119-125 | the last line needs no end |

## Left out

- SharedVault.Store.CommitRotation: covers the record only; the caller's verification, vault write and retirement of the old key are in `SharedServer.Server.Rotate`.
- SharedServer.Server.Rotate: its states on disk are those of one crash; a second rotation started from a metadata and ciphertext pair left torn by an earlier crash is not modelled. A record commit that fails after the ciphertext is written leaves what a crash at that point leaves.
- SharedServer.Server.Verify: a fingerprint stands for the whole public key; that it is a shortened digest is not modelled.
- VaultFiles.Store.SaveUserKey: and a rotation take a key record that is already well formed.
- PersonalVault.AlwaysOpenable: device envelopes are outside it, since they are written without a version to name.
- AuditLog.Store.Converge: converting a log of the earlier format is modelled as one step; a crash inside it is not.
- AuditLog.Store.Log: a short write that then cannot be cut back either is not modelled; only a crash leaves a torn record.
- AuditRuns.ReadsBack: the text format of a record is a parameter, of which only self-delimitation and the absence of newlines and leading white space are used; that JSON has these is not proved (`AuditCodec.SoundCodecExists` shows that some format does).
- SessionServer.Server.RevokeAllDevices: is stated without interleaving; its parts are the steps of `SessionRefinement`, and what other requests may do between them is in `SessionSafety.RevokeAllIsFinal`.
- SessionServer.Server.EndSession: when several sessions carry one ID it ends one of them, as the map's order decides.
- DevicePairing.Store.RedeemPairing: takes the presented code already trimmed.
- ExtensionRuns.SoundStep: storage requests in flight at an eviction have either been applied or are lost; a request that fails after having been applied is not modelled.
- ExtensionSaves.FailedCopyReturnsIff: saves are one at a time, as the queue makes them; a save may edit any copy a request has returned.
- Csv.ExportRoundTrip: strings are sequences of characters, without surrogate pairs; an invalid date, which the exporter refuses by throwing, is not modelled.
- KeyReplacement.RotationSealsAreCurrentOrStale: a stale-marking that fails is not retried by the server and counts here as not yet run.
- Creating a shared vault checks a name and a cap on owned vaults; the model starts from the record it writes.
- Names, creators, sizes and other fields no decision depends on.
- Real cryptography: sealing, envelopes, KDBX, digests and key derivation are opaque.
- File errors other than a failed or torn write, a failed removal by a clear, a failed rename and a crash: unreadable metadata, failed flushes outside the audit log, and the deletion errors that pruning ignores.
- HTTP handling, cookies, request limits, fresh-sign-in checks, OIDC discovery and token verification.
- The extension's popup, alarms and settings, beyond their effect on generations; the version a save is uploaded against, and the checks before it.
- The extension's `rearm` and `checkDevice`, which write storage without a key.
- Directory synchronisation and SCIM beyond the sessions they end, reporting, backup upload and restore, and the user interface.
