# Remote host core, modelled and proved in Dafny

This project models the parts of the remote host in which state survives crashes, bytes come from the network, or
requests interleave, and proves what the code is for. Where the source changes fields, the model is a class with those
fields whose methods are proved equal, state and answer, to a specification function; the theorems are about that
function and about whole runs of it. What each operation answers and leaves is stated a second time, without the
function's own branches, in the lemmas called `…Outcome`.

| Part | Files |
|---|---|
| Crash-safe files: a directory with pending operations and unsynced contents | `DurableDisk`, `StoreFiles` |
| Device trust store: write-ahead-logged commit, rollback, recovery, validated load | `TrustJournal*`, `TrustStore*`, `Device*`, `FileDeviceTrustStore` |
| Host identity: generations and keys over crashes | `HostIdentity*` |
| WebSocket framing (sections 5.2 to 5.5 of RFC 6455): incremental parser and encoder | `Bytes`, `WebSocket*` |
| Replay and resume: bounded buffer, session table, ingesting bridge | `ReplayBuffer`, `Session*` |
| At-most-once dispatch and canonical fingerprints | `Canonical*`, `Dispatch*` |
| Pairing tokens, candidates and confirmations | `Pairing*` |
| Connection security states and revocation | `Connection*`, `RevocationWindows`, `LanCarrier` |
| Archived audit chain and undo stack | `AuditChain`, `Checkpoints` |

## How crashes and interleavings are modelled

- A disk is the durable directory, the directory operations since the last directory sync, and the files. A power loss
  keeps any subset of the pending operations, in order, and leaves each unsynced file with its new content, with the
  content it had before it was overwritten, or unreadable. A rename is one operation. The crash theorems cut the list
  of file operations at any point, those of recovery too.
- I/O errors can hit the directory syncs, the writing and renaming of the target, the marker step and the cleanup.
  Errors while the backup or the journal is being written, and errors while an error path removes metadata, are
  excluded: with a torn journal and a torn backup left behind by such errors recovery would trust the wrong file.
- Each `async` function is split at its awaits into atomic steps, and the theorems hold for every interleaving of the
  steps of any number of calls. Clocks, random names and ids, the trust domain seen after an await, and what the store
  answers are parameters of the steps.

## Where the code does not do what one might expect

Each of these is a lemma with the exact condition or a concrete case.

- Error paths of a commit remove their metadata without a directory sync. Over an existing store, the commit after an
  error before the target is replaced, after a failed cleanup that changed the store, or after a rollback whose last
  sync failed, is not atomic under power loss: an open journal or a stale backup can come back
  (`NextCommitIsAtomicIffTidy`, `NextCommitAfterFault`). A restart does not repair this (`RestartRepairsNothing`); a power loss with its recovery does
  (`PowerLossRepairs`), and so does the first directory sync that a later commit gets through (`BarrierSettles`,
  `CompletedIsCurrent`). If the cleanup error left the journal itself, every later change is refused until a restart
  (`LeftoverJournalRefuses`, `BlockedUntilRestart`).
- The store commits records that its own loader rejects when a clock or a recorded timestamp is out of range, so the
  next start fails (`RequestReloads`). A re-enrollment does not look at the trust domain it is given
  (`ReEnrollKeepsDomain`, `ReEnrolledElsewhere`).
- A payload that breaks off at a malformed item has already passed on the events before it, but their position is not
  recorded; sent again, they are refused (`IngestKeepsSync`, `ResendIsRefused`).
- A client that has missed nothing is told to reset when the first event that the buffer went through is not the one
  right after its position, as after a first event with a number above 1 (`ResetIsLossOrGap`).
- A number too large for a double is fingerprinted as null (`InfinityReadsAsNull`).
- A power loss during the first creation of the host identity, or during a recovery that started from a torn journal,
  can leave a journal that the store refuses forever, and in no other case (`CommitSticksIffFirst`,
  `RecoverySticksIffUnparseable`).
- Presenting an expired token again orphans the candidate under review: no pruning removes it, only an attempt to
  confirm or reject it (`StepOrphans`, `OrphanStaysUntilSettled`).
- While a start publishes over mDNS before it subscribes, and while a stop waits for its mDNS advertiser, the carrier
  hears no revocations, so a revoked device stays active until something closes the connection or changes the device
  (`RevokedActiveIffUnheard`, `RevocationIffHeard`, `StartDoesNotHear`, `UnheardRevocationStays`).
- A connection closed by the bytes that came with its upgrade is listed afterwards and keeps its place until a stop
  ends; no other closed connection is listed (`ListedClosedIffByItsHead`, `ClosedByItsHeadStaysListed`).
- The audit log verifies when its tail is cut off (`PrefixValid`) or fields are added to a line (`FurtherIsNotChecked`),
  and loads again only if the writes it lost were its tail (`FileLoadsIffTailLost`).
- An undo to an older checkpoint restores that checkpoint's files only (`UndoToIsExact`).
- The parser goes on after an error callback (`ErrorsAreNotLatched`), so its properties reach up to the first error, and
  it holds back a frame with an empty payload until another byte arrives (`EmptyPayloadIsDelayed`).

## Model

| member | source | states |
|---|---|---|
| TrustJournalCommit.PrepareIsSafe | packages/remote-adapter/src/crypto/file-device-trust.ts:529-580 | While the backup and the journal are written, every directory that a power loss can leave still resolves to the old store; at the end the live directory holds the complete backup and the open journal |
| TrustJournalCommit.ReplaceIsSafe | packages/remote-adapter/src/crypto/file-device-trust.ts:598-619 | The target is replaced by a synced file of its own while every image that can survive keeps the open journal and the backup, so each still resolves to the old or the new store |
| TrustJournalTheorems.CommitIsSafe | packages/remote-adapter/src/crypto/file-device-trust.ts:498-754 | Before and after every file operation of a commit, with any of the modelled I/O errors and its error path, every image that a power loss can leave is one that recovery resolves to the old or the new store |
| TrustJournalTheorems.CommitIsAtomic | packages/remote-adapter/src/crypto/file-device-trust.ts:498-754 | Power lost after any number of operations, keeping any part of the directory operations since the last sync and any part of unsynced contents: what the disk says is the old store or the new one |
| TrustJournalTheorems.CommittedIsDurable | packages/remote-adapter/src/crypto/file-device-trust.ts:664-728 | From the sync of the COMMITTED marker on, also when the cleanup fails at any point, only the new store can survive a power loss, whatever an earlier commit left pending |
| TrustJournalTheorems.BarrierSettles | packages/remote-adapter/src/crypto/file-device-trust.ts:578-580 | The directory sync after the preparation settles whatever an earlier commit left pending: one image, with the old target and the new backup and journal |
| TrustJournalTheorems.BeyondBarrierIsSafe | packages/remote-adapter/src/crypto/file-device-trust.ts:578-754 | Beyond that sync every point of a commit, with any later error, is safe even if the disk was not clean before |
| TrustJournalTheorems.AbortedIsOld | packages/remote-adapter/src/crypto/file-device-trust.ts:578-612 | A commit that fails before the target is touched leaves the old store, and nothing else, after any power loss |
| TrustJournalRecovery.RecoveryIsSteady | packages/remote-adapter/src/crypto/file-device-trust.ts:171-273 | Between any two operations of the start-up recovery, every surviving image still resolves to the same store; when it ends, that store is in the target, the journal is gone and nothing is pending |
| TrustStoreRuns.CrashAtomicity | packages/remote-adapter/src/crypto/file-device-trust.ts:98-141 | A power loss anywhere in a commit, then any number of power losses anywhere in the recoveries that follow: the last recovery ends with exactly the old or exactly the new store, exactly the new one once the marker was durable, and the next commit starts from a clean disk again |
| TrustStoreRuns.CompletedIsCurrent | packages/remote-adapter/src/crypto/file-device-trust.ts:498-728 | A commit without error leaves the new store, no metadata and nothing pending, also on a disk that an earlier error left unclean: it repairs it |
| TrustStoreAftermath.EndedIsSettled | packages/remote-adapter/src/crypto/file-device-trust.ts:498-754 | A commit with any error that leaves no journal in sight: every power loss afterwards leaves exactly the store that the commit leaves, and the disk is clean for the next commit if and only if the commit was tidy, which its error and the two stores decide |
| TrustStoreAftermath.EndedAndRestarted | packages/remote-adapter/src/crypto/file-device-trust.ts:171-754 | A commit with any error, followed by a restart if it left its journal: the old or the new store, kept by every power loss, on a disk that is clean exactly when the commit left a journal or was tidy |
| TrustStoreStories.PowerLossRepairs | packages/remote-adapter/src/crypto/file-device-trust.ts:171-273 | A power loss between two commits and the recoveries after it keep the store and leave a clean disk, whatever an earlier error left pending |
| TrustStoreStories.EmptyDirectoryIsSettled | packages/remote-adapter/src/crypto/file-device-trust.ts:220-240 | An empty directory holds no store, every power loss keeps it so, and it is clean: whole histories can start from it |
| TrustStoreStories.StoryIsSound | packages/remote-adapter/src/crypto/file-device-trust.ts:171-754 | Over whole histories of commits with any modelled error, commits refused because of a leftover journal, restarts, and power losses during commits, during refused ones, between them and during recoveries after them: each state holds one whole store, the one the episode says, every power loss keeps it, and the disk is clean exactly when the episode was tidy; after an untidy commit the next one has to get through its first directory sync |
| TrustStoreReloads.SettledReloads | packages/remote-adapter/src/crypto/file-device-trust.ts:171-478 | Such a state loads its device map through recovery and full validation, and so does whatever a power loss and any recoveries cut short after it leave |
| TrustStoreReloads.StoryReloads | packages/remote-adapter/src/crypto/file-device-trust.ts:171-754 | Over the same histories of device maps that pass validation: after each episode the loader finds exactly the map before it or exactly the map it committed, as its error or the point of its power loss says, and every power loss keeps that map |
| TrustStoreReloads.HostLoadsCommittedMaps | packages/remote-adapter/src/crypto/file-device-trust.ts:171-754 | A host that began on an empty directory always loads the empty map or a map that it committed |
| TrustStoreExactness.AtomicExactlyWhenClean | packages/remote-adapter/src/crypto/file-device-trust.ts:498-754 | A commit over an existing store is atomic under power loss if and only if no stale backup and no open journal can come back on its disk; both directions |
| TrustStoreExactness.NextCommitIsAtomicIffTidy | packages/remote-adapter/src/crypto/file-device-trust.ts:498-754 | The commit after one that left no journal is atomic under power loss if and only if that one was tidy: no error, no store before it, a cleanup error over an equal store, or a rollback that was synced or found the commit marker |
| TrustStoreExactness.NextCommitAfterFault | packages/remote-adapter/src/crypto/file-device-trust.ts:578-754 | After a commit over an existing store that neither poisons nor leaves a journal, the next commit is atomic under power loss if and only if this one had no error, or only its cleanup failed and it committed the store that was there |
| TrustStoreExactness.RestartRepairsNothing | packages/remote-adapter/src/crypto/file-device-trust.ts:220-273 | After an untidy commit a restart without power loss finds no journal, does nothing and leaves the disk unclean |
| TrustStoreExactness.CleanupErrorIsNotClean | packages/remote-adapter/src/crypto/file-device-trust.ts:710-728 | After a cleanup whose directory sync fails, the disk holds the new store but is not clean, and a restart changes nothing about it |
| TrustStoreMemory.CommitAgrees | packages/remote-adapter/src/crypto/file-device-trust.ts:664-728 | A commit that passes its marker leaves a disk whose reload is exactly the staged map, cleaned up or not |
| TrustStoreMemory.AbortAgrees | packages/remote-adapter/src/crypto/file-device-trust.ts:578-612 | A commit that fails before the target is touched leaves a disk that still agrees with the old map |
| TrustStoreMemory.FaultStands | packages/remote-adapter/src/crypto/file-device-trust.ts:498-754 | Whatever error a commit meets, the rollback and its own errors included, a restart finds the old map or the staged one |
| TrustStoreMemory.RestartAgrees | packages/remote-adapter/src/crypto/file-device-trust.ts:220-273 | A restart recovers exactly the map that stands on the disk |
| DeviceRecords.LoadDevices | packages/remote-adapter/src/crypto/file-device-trust.ts:366-472 | The validating loop of the loader computes the specified load: the same accepted maps, the same error for every rejected image |
| DeviceRecords.ReloadsExactly | packages/remote-adapter/src/crypto/file-device-trust.ts:366-472 | A device map reloads from its own serialization to itself if and only if it satisfies the stated conditions on its size, its ids, its keys and its records |
| DeviceRecords.ReloadsOrFails | packages/remote-adapter/src/crypto/file-device-trust.ts:366-472 | A map within capacity never reloads as a different map: it comes back unchanged, or the load fails as corrupted |
| DeviceRecords.HexRoundTrip | packages/remote-adapter/src/crypto/file-device-trust.ts:399-437 | Keys written in hexadecimal pass the format check and are read back byte for byte |
| DeviceLoads.DecodedHex | packages/remote-adapter/src/crypto/file-device-trust.ts:399-437 | Keys in digits of either case are read; what is read prints as the text in lower case |
| DeviceLoads.LoadedIsFaithful | packages/remote-adapter/src/crypto/file-device-trust.ts:366-472 | Whatever is loaded is a storable map that says, record by record and field by field, what the file says |
| DeviceLoads.LoadRefuses | packages/remote-adapter/src/crypto/file-device-trust.ts:366-472 | A file is accepted exactly when it is a device file within the capacity, names no device twice, and each of its records is the text of some storable record; the capacity error is given exactly beyond the capacity |
| DeviceRequests.StagedIsStorable | packages/remote-adapter/src/crypto/file-device-trust.ts:785-932 | The map that a request stages passes the loader if and only if the request is timely: clock and recorded timestamps neither negative nor before the pairing |
| DeviceRequests.AssertAuthorized | packages/remote-adapter/src/crypto/device-trust.ts:287-308 | The check passes exactly for a known, unrevoked device of the same trust domain that holds the capability of the method |
| DeviceRequests.ReEnrollKeepsDomain | packages/remote-adapter/src/crypto/file-device-trust.ts:875-902 | After a re-enrollment the device is authorized for the trust domain that the caller gave if and only if that is empty or was its domain before: the request does not move it |
| DeviceRequests.ReEnrolledElsewhere | packages/remote-adapter/src/crypto/file-device-trust.ts:875-902 | A device of one domain that is re-enrolled for another: the request succeeds and the device stays unauthorized there |
| DispatchRequests.RefusalReason | packages/remote-adapter/src/crypto/device-trust.ts:287-308 | Each of the four reasons for a refusal is given exactly under its condition |
| TrustStoreStates.HandleAgrees | packages/remote-adapter/src/crypto/file-device-trust.ts:498-932 | Every request, with any modelled I/O error, leaves memory and disk in agreement, or the store poisoned |
| TrustStoreStates.RequestReloads | packages/remote-adapter/src/crypto/file-device-trust.ts:785-932 | After a successful change, a reload gives exactly the map in memory if the request was timely and fails as corrupted if it was not |
| TrustStoreStates.EveryStateReloads | packages/remote-adapter/src/crypto/file-device-trust.ts:171-932 | In every reachable state of every run of trust, revoke, re-enroll, remove, recordSeen, I/O errors and restarts, a store that is not poisoned reloads, through the full validation, to exactly the map in memory |
| TrustStoreStates.RestartIsSound | packages/remote-adapter/src/crypto/file-device-trust.ts:149-218 | A restart from any reachable state, poisoned or not, succeeds and is sound again |
| TrustStoreStates.EmptyDirectoryIsSound | packages/remote-adapter/src/crypto/file-device-trust.ts:220-240 | A start on an empty directory is sound, so every run from there is covered |
| TrustStoreStates.LeftoverJournalRefuses | packages/remote-adapter/src/crypto/file-device-trust.ts:529-574 | When a cleanup error left the journal, a change is refused: the map in memory, the target and the journal stay what they were, the backup goes, and memory and disk still agree |
| TrustStoreStates.BlockedUntilRestart | packages/remote-adapter/src/crypto/file-device-trust.ts:529-574 | From such a state on, over every run of requests until a restart, every change is refused, the map in memory stays what it was and the journal stays |
| TrustStoreOutcomes.ChangeOutcome | packages/remote-adapter/src/crypto/file-device-trust.ts:498-932 | A staged change reaches memory and is answered exactly when its commit succeeds; the store is poisoned afterwards exactly when it was, or when the commit met an error that poisons; a poisoned store does nothing |
| TrustStoreOutcomes.FaultOutcome | packages/remote-adapter/src/crypto/file-device-trust.ts:576-754 | Which I/O error leaves what: the old map, the staged one, or the old one in a poisoned store |
| TrustStoreOutcomes.TrustOutcome | packages/remote-adapter/src/crypto/file-device-trust.ts:785-846 | A pairing: every refusal under its condition, and otherwise the new or renewed record field by field; every other device is found as before |
| TrustStoreOutcomes.RevokeOutcome | packages/remote-adapter/src/crypto/file-device-trust.ts:848-873 | A revocation is answered with true exactly for a known, unrevoked device whose commit succeeds; its record then differs in the time of revocation alone, and in every other case nothing changes |
| TrustStoreOutcomes.ReEnrollOutcome | packages/remote-adapter/src/crypto/file-device-trust.ts:875-902 | A re-enrollment succeeds exactly for a known device whose commit succeeds, and leaves that record with the new capabilities, name, time and key version, unrevoked |
| TrustStoreOutcomes.RemoveOutcome | packages/remote-adapter/src/crypto/file-device-trust.ts:904-915 | A removal is answered with true exactly for a known device whose commit succeeds; the device is gone and every other one is found as before |
| TrustStoreOutcomes.RecordSeenOutcome | packages/remote-adapter/src/crypto/file-device-trust.ts:921-932 | A sighting changes the last-seen time of a known device and nothing else |
| TrustStoreOutcomes.RecoveryResolves | packages/remote-adapter/src/crypto/file-device-trust.ts:220-273 | On any disk the operations of the recovery end without a journal and with the store in the target that the metadata calls for |
| TrustStoreOutcomes.StartOutcome | packages/remote-adapter/src/crypto/file-device-trust.ts:149-478 | A start on any disk loads the store that the metadata calls for, or is poisoned with an empty map when that store is unreadable or fails the validation |
| FileDeviceTrustStores.FileDeviceTrustStore.constructor | packages/remote-adapter/src/crypto/file-device-trust.ts:149-218 | Construction is recovery followed by the validated load; on a disk where a storable map stands, the new object is valid, not poisoned, and holds exactly that map |
| FileDeviceTrustStores.FileDeviceTrustStore.LoadFromDisk | packages/remote-adapter/src/crypto/file-device-trust.ts:220-478 | The branches on the files that are found, operation by operation, give the specified start state: the recovered disk, the loaded map, or poison |
| FileDeviceTrustStores.FileDeviceTrustStore.ExecuteInternalRollback | packages/remote-adapter/src/crypto/file-device-trust.ts:98-141 | The file operations chosen from what is found are those of the specified rollback, up to the one that fails |
| FileDeviceTrustStores.FileDeviceTrustStore.CommitDurableTransaction | packages/remote-adapter/src/crypto/file-device-trust.ts:498-754 | Step by step, with the error paths, disk and memory become those of the specified commit; memory changes exactly when the marker is durable, and a poisoned store changes nothing |
| FileDeviceTrustStores.FileDeviceTrustStore.TrustSync | packages/remote-adapter/src/crypto/file-device-trust.ts:785-846 | New state and answer are those of the specified trust request over the durable store |
| FileDeviceTrustStores.FileDeviceTrustStore.RevokeSync | packages/remote-adapter/src/crypto/file-device-trust.ts:848-873 | As specified for a revocation; the listeners hear of it, with device, time and key version, exactly when the device was known and unrevoked before and the map holds it as revoked afterwards, whatever is answered |
| FileDeviceTrustStores.FileDeviceTrustStore.AdminReEnroll | packages/remote-adapter/src/crypto/file-device-trust.ts:875-902 | As specified for a re-enrollment |
| FileDeviceTrustStores.FileDeviceTrustStore.RemoveDevice | packages/remote-adapter/src/crypto/file-device-trust.ts:904-915 | As specified for a removal |
| FileDeviceTrustStores.FileDeviceTrustStore.RecordSeenSync | packages/remote-adapter/src/crypto/file-device-trust.ts:921-932 | As specified for a last-seen update; an unknown device changes nothing |
| HostIdentityJournal.CommitIdentityIsSafe | packages/remote-adapter/src/crypto/file-host-identity.ts:343-423 | At every point of an identity commit each surviving image resolves to the old or the new key pair, and the end is the new one with clean metadata |
| HostIdentityJournal.IdentityRecoveryIsSteady | packages/remote-adapter/src/crypto/file-host-identity.ts:425-506 | A recovery that can read its journal, or has a backup, restores the identity that the metadata calls for, however often it is cut short |
| HostIdentityJournal.RotationNeverSticks | packages/remote-adapter/src/crypto/file-host-identity.ts:343-423 | A power loss anywhere in a rotation never leaves an unreadable journal without a backup, because the backup is durable before the journal is created |
| HostIdentityJournal.CommitSticksIffFirst | packages/remote-adapter/src/crypto/file-host-identity.ts:343-423 | A power loss during a commit can leave a disk that the store refuses forever if and only if there was no identity before |
| HostIdentityJournal.RecoverySticksIffUnparseable | packages/remote-adapter/src/crypto/file-host-identity.ts:425-506 | A power loss during a recovery can leave such a disk if and only if the journal that the recovery started from cannot be parsed |
| HostIdentities.ServeReaches | packages/remote-adapter/src/crypto/file-host-identity.ts:214-247 | A call fails exactly when the store is poisoned or has to read a disk that is stuck; otherwise a load returns at least the largest generation returned so far and a rotation more; an error poisons the store and loses no ground |
| HostIdentities.LossReaches | packages/remote-adapter/src/crypto/file-host-identity.ts:343-506 | A power loss at any point of a load, a rotation or a recovery loses no generation that was ever returned |
| HostIdentities.GenerationsNeverDecrease | packages/remote-adapter/src/crypto/file-host-identity.ts:214-506 | Over every run of loads, rotations, restarts and power losses, once a generation has been returned no later call returns a smaller one, and every later rotation returns a larger one |
| HostIdentities.FileHostIdentityStore.RecoverIfNeeded | packages/remote-adapter/src/crypto/file-host-identity.ts:452-506 | The file operations chosen from the journal that is found are those of the specified recovery; it fails and poisons exactly when the journal cannot be resolved |
| HostIdentities.FileHostIdentityStore.CommitKeyPair | packages/remote-adapter/src/crypto/file-host-identity.ts:343-423 | The operations of a commit, in order, give the specified disk |
| HostIdentities.FileHostIdentityStore.Load | packages/remote-adapter/src/crypto/file-host-identity.ts:214-229 | New state and answer are those of the specified load-or-create |
| HostIdentities.FileHostIdentityStore.RotateKeys | packages/remote-adapter/src/crypto/file-host-identity.ts:236-247 | New state and answer are those of the specified rotation |
| HostIdentityKeys.RotationIsFresh | packages/remote-adapter/src/crypto/file-host-identity.ts:236-304 | A rotation that is answered hands out the key and the time that it drew |
| HostIdentityKeys.ServeOutcome | packages/remote-adapter/src/crypto/file-host-identity.ts:214-287 | A call fails as poisoned exactly when the store was poisoned or has to read a disk that is stuck, and only then is the store poisoned afterwards; the pair that is answered is the one that is cached |
| HostIdentityKeys.RecoveredIdentity | packages/remote-adapter/src/crypto/file-host-identity.ts:425-506 | A recovery that does not stick leaves neither journal nor backup, and in the target what was there, or the backup, or nothing, as the journal says |
| HostIdentityKeys.AnswersWereCommitted | packages/remote-adapter/src/crypto/file-host-identity.ts:214-304 | Over every run each answer is the pair that one earlier call, or this one, drew and committed, also after power losses; a rotation answers with its own |
| HostIdentityKeys.SecretIffGeneration | packages/remote-adapter/src/crypto/file-host-identity.ts:214-506 | Over every run whose calls draw different keys, two answers hold the same secret if and only if they are of the same generation, and then they are the same pair |
| HostIdentityKeys.LoadsRepeat | packages/remote-adapter/src/crypto/file-host-identity.ts:214-229 | Without a rotation in between, a load returns the pair that was returned before, across restarts and power losses |
| WebSocketFrames.StepOf | packages/remote-adapter/src/carrier/websocket-frame.ts:64-269 | Every iteration that goes on lowers the measure, the one that consumes an empty payload included, so draining terminates; nothing but frames is emitted by an iteration that goes on |
| WebSocketFrames.DrainInTwo | packages/remote-adapter/src/carrier/websocket-frame.ts:54-269 | Draining a longer buffer is draining its first part and then the rest, up to the first error |
| WebSocketFrames.ChunkingIsIrrelevant | packages/remote-adapter/src/carrier/websocket-frame.ts:54-269 | For every way of cutting a byte stream into pushes, the callbacks up to the first error are those of one push of the whole stream; without error the parser states agree too |
| WebSocketFrames.ErrorsAreNotLatched | packages/remote-adapter/src/carrier/websocket-frame.ts:78-88 | Behind an error the callbacks do depend on the chunks: one byte pushed after a rejected text header raises the error again, one push of the same bytes raises it once |
| WebSocketFrames.DrainBoundsMemory | packages/remote-adapter/src/carrier/websocket-frame.ts:64-269 | After every error-free push the unread bytes are at most max(7, maxFrameBytes - 1), and the fragments add up to the counted length, within maxFrameBytes |
| WebSocketWire.HeaderChecksAgree | packages/remote-adapter/src/carrier/websocket-frame.ts:78-123 | The ordered checks of a header find an error exactly for the frames that sections 5.1, 5.2, 5.4 and 5.5 of RFC 6455 and the ban on text do not admit, stated about the whole frame, and name a rule that the frame breaks |
| WebSocketLayout.BrokenRuleIs | packages/remote-adapter/src/carrier/websocket-frame.ts:78-123 | Which rule is reported, in the order of the checks |
| WebSocketLayout.ReceiveOutcome | packages/remote-adapter/src/carrier/websocket-frame.ts:202-266 | What the reference receiver makes of a frame that the rules admit: delivered, kept as a fragment, joined to the open message, or refused as too large |
| WebSocketLayout.HeaderLayout | packages/remote-adapter/src/carrier/websocket-frame.ts:272-300 | Where FIN, reserved bits, opcode, mask bit and length lie in the first two bytes (section 5.2 of RFC 6455) |
| WebSocketLayout.ControlExamples | packages/remote-adapter/src/carrier/websocket-frame.ts:272-324 | The ping and the masked pong of section 5.7 of RFC 6455, byte for byte |
| WebSocketLayout.FragmentExample | packages/remote-adapter/src/carrier/websocket-frame.ts:272-324 | The first fragment of a binary message, with FIN clear, byte for byte |
| WebSocketLayout.LongExamples | packages/remote-adapter/src/carrier/websocket-frame.ts:272-324 | The headers of the two long frames of section 5.7 of RFC 6455, byte for byte |
| WebSocketLayout.ForbiddenLength16 | packages/remote-adapter/src/carrier/websocket-frame.ts:141-161 | A 16-bit length below 126 is reported as not minimal, whatever follows |
| WebSocketLayout.ForbiddenLength64 | packages/remote-adapter/src/carrier/websocket-frame.ts:163-192 | A 64-bit length with its highest bit set, or below 65536, is reported, each by its own error |
| WebSocketLayout.ErrorLeaves | packages/remote-adapter/src/carrier/websocket-frame.ts:64-269 | Where an error leaves the parser: how many bytes it has taken, in which state it stays, and what becomes of the fragments |
| WebSocketLayout.NoRunFiresIt | packages/remote-adapter/src/carrier/websocket-frame.ts:223-266 | Over every run of pushes, errors included, the check for nested fragments at delivery never fires, because the header checks come first |
| WebSocketWire.FrameIsParsed | packages/remote-adapter/src/carrier/websocket-frame.ts:64-269 | The parser handles one whole frame, in each of the three length forms, masked or not, as a reference receiver written from section 5 of RFC 6455 does: same deliveries, same error, same rest |
| WebSocketWire.StreamMatchesReference | packages/remote-adapter/src/carrier/websocket-frame.ts:64-269 | For every list of representable frames the callbacks are those of the reference receiver up to its first error, and the parser is left with the bytes behind them |
| WebSocketWire.EmptyPayloadIsDelayed | packages/remote-adapter/src/carrier/websocket-frame.ts:65-66 | A frame with an empty payload at the end of the bytes is not delivered yet |
| WebSocketRoundTrip.RoundTrip | packages/remote-adapter/src/carrier/websocket-frame.ts:64-324 | Parsing the concatenated encodings of any list of sendable frames, with any masks, and one further byte, emits exactly that list; without the further byte exactly the last frame is missing if its payload is empty |
| WebSocketRoundTrip.TrailingEmptyFrame | packages/remote-adapter/src/carrier/websocket-frame.ts:64-324 | The list but its last frame comes out while a trailing empty frame waits |
| WebSocketRoundTrip.FragmentsAreReassembled | packages/remote-adapter/src/carrier/websocket-frame.ts:202-266 | For every split of a binary message within the limit, with control frames anywhere between the fragments, the parser emits the control frames in place and then one frame whose payload is the concatenation (section 5.4 of RFC 6455) |
| WebSocketRoundTrip.FragmentsAreRepresentable | packages/remote-adapter/src/carrier/websocket-frame.ts:90-117 | Every such sequence of fragments and control frames can be put on the wire |
| WebSocketRoundTrip.EncodeWebSocketFrame | packages/remote-adapter/src/carrier/websocket-frame.ts:272-324 | The buffer filled with a moving offset is exactly the wire form of one final frame: two header bytes, length form, key, masked payload |
| Bytes.ReadWritten | packages/remote-adapter/src/carrier/websocket-frame.ts:302-311 | Big-endian writing and reading of a length are inverse for every number of bytes |
| WebSocketParser.WebSocketFrameParser.Push | packages/remote-adapter/src/carrier/websocket-frame.ts:54-58 | Callbacks and fields after a push are those of the specification |
| WebSocketParser.WebSocketFrameParser.DrainBuffer | packages/remote-adapter/src/carrier/websocket-frame.ts:64-269 | The loop over the five states reaches exactly the state and the callbacks of the recursive specification |
| WebSocketParser.WebSocketFrameParser.ReadFrameHeader | packages/remote-adapter/src/carrier/websocket-frame.ts:67-140 | One header iteration: checks in order, at most one error, next state |
| WebSocketParser.WebSocketFrameParser.ReadLength64 | packages/remote-adapter/src/carrier/websocket-frame.ts:163-192 | One iteration for the 64-bit length, with its overflow check |
| WebSocketParser.WebSocketFrameParser.ReadPayload | packages/remote-adapter/src/carrier/websocket-frame.ts:202-266 | One payload iteration: unmask, reset, deliver |
| WebSocketParser.WebSocketFrameParser.DeliverPayload | packages/remote-adapter/src/carrier/websocket-frame.ts:223-266 | Fragment bookkeeping of one complete frame, with its limit and its errors |
| ReplayBuffers.AppendRetainsLongest | packages/remote-adapter/src/replay.ts:49-85 | Appending to the buffer of a history gives the buffer of the longer history: exactly its longest suffix within both limits, oversized events included, with the resume minimum that belongs to it |
| ReplayBuffers.AppendRejects | packages/remote-adapter/src/replay.ts:49-58 | An append is accepted exactly when the sequence number is a safe integer above the last one, and a number out of range is the error reported first |
| ReplayBuffers.MissedBelowMinimum | packages/remote-adapter/src/replay.ts:87-111 | An event newer than a given position has been dropped if and only if the position is below the resume minimum |
| ReplayBuffers.ResumeFromStart | packages/remote-adapter/src/replay.ts:87-93 | Without a position the answer is exactly the longest suffix of the whole history that fits the limits |
| ReplayBuffers.ResumeIsExact | packages/remote-adapter/src/replay.ts:87-111 | A reset is given exactly when something was missed, with the oldest retained and the latest number; otherwise the answer is exactly the newer events of the whole history, in order |
| ReplayBuffers.BoundedReplayBuffer.Append | packages/remote-adapter/src/replay.ts:49-85 | The buffer stays the buffer of everything appended; a rejected event changes nothing |
| ReplayBuffers.BoundedReplayBuffer.EvictOldest | packages/remote-adapter/src/replay.ts:70-85 | The eviction loop is the specified eviction |
| ReplayBuffers.BoundedReplayBuffer.Resume | packages/remote-adapter/src/replay.ts:87-111 | The answer is exact about everything ever appended, with a position and without one |
| SessionEvents.IngestKeepsSync | packages/remote-adapter/src/host-runtime.ts:45-79 | Buffers, logs and positions stay in step over a payload if and only if all its items are well-formed or nothing before the first malformed one is newer than the position of the session; the payload is accepted exactly when all items are well-formed |
| SessionIngestion.IngestOutcome | packages/remote-adapter/src/host-runtime.ts:45-79 | What one payload adds, read off the payload: of the items before the first malformed one those whose number is above the position and above all earlier ones, in order, each with its own fields; with the answer and the position that is recorded |
| SessionIngestion.NoEnvelope | packages/remote-adapter/src/host-runtime.ts:45-52 | A payload without a log, or without a session id, is refused and changes nothing |
| SessionEvents.ResendIsRefused | packages/remote-adapter/src/host-runtime.ts:45-79 | After a payload with a malformed item, a payload that begins with an event above the position but not above an item before the malformed one is refused, and the log stays as it is |
| SessionEvents.AttachIsExact | packages/remote-adapter/src/core.ts:250-264 | An attach that answers with events gives exactly the newer events of the log; it reports a missing window exactly when the session has no buffer, and an exceeded one exactly when the position is before the part of the log that the buffer went through or before an event that the buffer dropped |
| SessionEvents.FirstAttachIsExact | packages/remote-adapter/src/core.ts:250-264 | An attach without a position gets the longest suffix of the buffered part of the log that fits, and no events when the session has no buffer |
| SessionEvents.EveryResumeIsExact | packages/remote-adapter/src/core.ts:142-264 | In every reachable state of every run of ingests of overlapping payloads that keep step, attaches, evictions of sessions and forgets, an events answer is exactly the accepted events after the given position since the last forget |
| SessionResets.EveryAnswerIsExact | packages/remote-adapter/src/core.ts:142-264 | Over every such run each of the three answers is given exactly under its condition, where the buffered part of the log starts at the event that last created the buffer |
| SessionResets.EveryFirstAttachIsExact | packages/remote-adapter/src/core.ts:142-264 | Over every such run an attach without a position gets exactly the longest fitting suffix of the buffered part of the log |
| SessionRecency.StepEvicts | packages/remote-adapter/src/core.ts:142-161 | A session loses its buffer in a step exactly when it is forgotten, or is the least recently used one of a full table and the step uses a session that has none |
| SessionRecency.TableHoldsMostRecent | packages/remote-adapter/src/core.ts:142-264 | Over every run the table holds the most recently used sessions in their order, and never more than it may |
| SessionResets.NeverEvictedIsExact | packages/remote-adapter/src/core.ts:142-264 | A session that was not evicted since it was last forgotten is told to reset if and only if the position misses something of its whole log |
| SessionResets.ResetIsLossOrGap | packages/remote-adapter/src/replay.ts:87-111 | A reset is given exactly when an unseen event is no longer buffered, or numbers are missing between the position and the first event that the buffer went through; only in the second case alone is it needless |
| SessionResets.GaplessResetsAreNeeded | packages/remote-adapter/src/replay.ts:87-111 | When the numbers of a log have no gaps, every reset is needed |
| SessionBridges.RemoteAdapterCore.OnOfficialEvent | packages/remote-adapter/src/core.ts:142-161 | The session map in its recency order becomes the specified table, with least recently used sessions evicted |
| SessionBridges.RemoteAdapterCore.Attach | packages/remote-adapter/src/core.ts:250-264 | New recency order and answer are those of the specified attach |
| SessionBridges.RemoteAdapterCore.ForgetSession | packages/remote-adapter/src/core.ts:163-165 | The buffer of the session is dropped and no other |
| SessionBridges.OfficialSessionEventBridge.Ingest | packages/remote-adapter/src/host-runtime.ts:45-79 | State and answer of the loop over a payload are those of the specified ingestion, the breaking off in the middle included; exactly the events that the log gained are passed on, in order |
| SessionBridges.OfficialSessionEventBridge.Forget | packages/remote-adapter/src/host-runtime.ts:81-84 | Position and buffer of the session are dropped together |
| CanonicalFaithful.Faithful | packages/remote-adapter/src/idempotency.ts:8-19 | For all nested JSON values, two have the same canonical text if and only if they are the same value up to the order of object keys, where -0 counts as 0 and a non-finite number as null |
| CanonicalFaithful.ValueCancels | packages/remote-adapter/src/idempotency.ts:8-19 | A value is determined by its text and what follows it: the encoding is uniquely decodable |
| CanonicalFaithful.SortedIsUnique | packages/remote-adapter/src/idempotency.ts:14-18 | Entries with distinct keys have one sorted order, whatever order they came in |
| CanonicalText.ObjectIsOrdered | packages/remote-adapter/src/idempotency.ts:14-18 | An object is printed as its entries in ascending order of the code units of their keys |
| CanonicalText.EscapedReadsBack | packages/remote-adapter/src/idempotency.ts:8-12 | Every string, with control characters and lone surrogates, reads back as itself by section 7 of RFC 8259 |
| CanonicalText.EscapesInUse | packages/remote-adapter/src/idempotency.ts:8-12 | Which characters are escaped, in which of the two forms, with lower-case digits |
| CanonicalText.Literals | packages/remote-adapter/src/idempotency.ts:9-12 | The spelling of the literals, undefined included |
| CanonicalText.UnprintableNumbers | packages/remote-adapter/src/idempotency.ts:10-12 | A number that is not finite prints as null, and minus zero as zero |
| CanonicalText.ObjectOfTwo | packages/remote-adapter/src/idempotency.ts:14-18 | The punctuation of an object: quoted keys in order, bare colons and commas |
| CanonicalText.ArrayOfTwo | packages/remote-adapter/src/idempotency.ts:13 | The punctuation of an array: items in their own order between brackets, with bare commas |
| CanonicalFaithful.InfinityReadsAsNull | packages/remote-adapter/src/idempotency.ts:8-12 | A number beyond the range of doubles has the text of null, so two different requests share one fingerprint |
| DispatchSafety.EveryStateIsSafe | packages/remote-adapter/src/core.ts:171-318 | The invariant about calls, terminals, grants and sequences holds in every state of every interleaving of request segments, closes and changes of the store |
| DispatchSafety.OperationsRunOnce | packages/remote-adapter/src/idempotency.ts:34-67 | In every interleaving of any number of requests the operation of a (device, method, idempotency key) runs at most once |
| DispatchSafety.InteractionsResolveOnce | packages/remote-adapter/src/core.ts:230-248 | Each call id reaches respondApproval and each question id reaches respondQuestion at most once, across all devices and keys |
| DispatchSafety.CallsFollowAuthorization | packages/remote-adapter/src/core.ts:171-228 | Every call comes after a request with this device, method, key and parameters that passed the authorization against the devices of that moment |
| DispatchRequests.ParsesIffAsked | packages/remote-adapter/src/core.ts:53-78 | For parameters with each key once, parsing yields an operation if and only if the fields name it: non-empty texts, and the text approved or rejected for its own decision |
| DispatchRequests.PayloadParses | packages/remote-adapter/src/core.ts:53-78 | The payload of an operation parses back to it, so a payload determines its operation |
| DispatchRequests.CallsDoWhatWasAsked | packages/remote-adapter/src/core.ts:171-228 | Every call follows a request of the same device and key that passed against the records of that moment and whose fields name exactly this operation: an approval is invoked as approved only if the request said approved |
| DispatchRequests.EnvelopeOutcome | packages/remote-adapter/src/core.ts:286-318 | When a request is accepted, what it changes, and which error every other one gets |
| DispatchRequests.CapabilitiesOpen | packages/remote-adapter/src/crypto/device-trust.ts:6-14 | Which methods each capability opens, besides the ping that needs none |
| DispatchRequests.ContinueOutcome | packages/remote-adapter/src/core.ts:175-228 | When a waiting request is refused, answered, malformed or in need of a key, and that it then reserves nothing |
| DispatchRequests.ReservationOutcome | packages/remote-adapter/src/idempotency.ts:34-67 | An unused key is reserved for exactly the operation that the fields of the request name while there is room, and nothing is reserved otherwise; no other entry changes |
| DispatchRequests.ReservedUnder | packages/remote-adapter/src/core.ts:278-281 | The text under which a key is reserved names device, method and key |
| DispatchRequests.OperationOutcome | packages/remote-adapter/src/core.ts:192-248 | A reserved operation is invoked exactly when it has not been started and its interaction is unclaimed and fits; it is started in any case |
| DispatchSafety.AcceptedSequencesIncrease | packages/remote-adapter/src/core.ts:286-318 | While a (device, epoch) connection stays open, its accepted request sequences strictly increase |
| DispatchSafety.RetryJoins | packages/remote-adapter/src/idempotency.ts:34-67 | A request with a used key joins the first one if it carries the same value and conflicts otherwise; nothing is reserved or run |
| DispatchSafety.KeysAreApart | packages/remote-adapter/src/idempotency.ts:40-41 | For device ids without a colon, the joined texts of two triples of device, method and key are equal if and only if the triples are |
| DispatchSafety.ColonsWouldConfuse | packages/remote-adapter/src/idempotency.ts:40-41 | With colons in device ids two different triples share one text |
| DispatchCores.IdempotencyStore.Run | packages/remote-adapter/src/idempotency.ts:34-67 | Entries and reply are those of the specified run: join, conflict, full or reserve |
| DispatchCores.RemoteAdapterCore.AssertEnvelope | packages/remote-adapter/src/core.ts:286-318 | The checks in order and the recorded sequence are those specified; a refused envelope records nothing |
| DispatchCores.RemoteAdapterCore.Handle | packages/remote-adapter/src/core.ts:171-175 | The first segment of a request, up to the await of the host identity |
| DispatchCores.RemoteAdapterCore.Continue | packages/remote-adapter/src/core.ts:175-228 | The second segment: authorization, then parsing and key reservation without a break, as specified |
| DispatchCores.RemoteAdapterCore.Mutate | packages/remote-adapter/src/core.ts:266-284 | A mutation needs a key, and reserves it for its parsed parameters |
| DispatchCores.RemoteAdapterCore.ClaimInteraction | packages/remote-adapter/src/core.ts:230-248 | An interaction is claimed once; a full set refuses new ones |
| DispatchCores.RemoteAdapterCore.RunOperation | packages/remote-adapter/src/core.ts:192-226 | The third segment runs a reserved operation, once |
| DispatchCores.RemoteAdapterCore.CloseConnection | packages/remote-adapter/src/core.ts:167-169 | The sequence of the connection is forgotten |
| PairingSafety.StepIsSafe | packages/remote-adapter/src/crypto/pairing-token.ts:174-382 | Every step of create, verify, confirm, reject and of the segments of a confirmation keeps the links between tokens, candidates, confirmations and what has happened |
| PairingRuns.OneCandidatePerToken | packages/remote-adapter/src/crypto/pairing-token.ts:243-293 | In every interleaving with fresh random ids each token leads to at most one candidate |
| PairingRuns.OneOutcomePerCandidate | packages/remote-adapter/src/crypto/pairing-token.ts:305-374 | Each candidate is claimed, declined or found expired at most once, and only one of these |
| PairingRuns.OneDevicePerToken | packages/remote-adapter/src/crypto/pairing-coordinator.ts:60-109 | At most one device is enrolled per token, with the key that was verified, capabilities inside the allowlist the token was issued with, and the trust domain of its host |
| PairingOutcomes.EnrolledByItsIssuer | packages/remote-adapter/src/crypto/pairing-coordinator.ts:60-109 | Over every run each enrollment comes from a step that saw the very host that the token was issued by |
| PairingOutcomes.EnrollOutcome | packages/remote-adapter/src/crypto/pairing-coordinator.ts:60-109 | The end of each second segment under its condition: host unavailable, host rotated, escalation denied, refused by the store, not committed, or enrolled with the map and the event that belong to it |
| PairingOutcomes.FinishOutcome | packages/remote-adapter/src/crypto/pairing-coordinator.ts:60-109 | The end of a confirmation passes on what the store said and burns candidate and token |
| PairingOutcomes.CreateOutcome | packages/remote-adapter/src/crypto/pairing-token.ts:185-241 | When a token is created, with which limits, and which error is given otherwise |
| PairingOutcomes.VerifyOutcome | packages/remote-adapter/src/crypto/pairing-token.ts:243-293 | When a token starts a review, what the candidate is, and what each refusal leaves |
| PairingOutcomes.ClaimOutcome | packages/remote-adapter/src/crypto/pairing-token.ts:305-355 | A claim succeeds exactly for a pending, unexpired candidate, and an expired one is burned |
| PairingOutcomes.RejectOutcome | packages/remote-adapter/src/crypto/pairing-token.ts:361-374 | A rejection succeeds exactly for a pending candidate, and burns it with its token |
| PairingOutcomes.PruneOutcome | packages/remote-adapter/src/crypto/pairing-token.ts:174-183 | Exactly the expired tokens go, and exactly the candidates under their review |
| PairingRuns.LiveCandidatesFit | packages/remote-adapter/src/crypto/pairing-token.ts:174-293 | With a clock that does not go back, an unexpired candidate and its token point at each other, so unexpired candidates never exceed maxPending |
| PairingRuns.StepOrphans | packages/remote-adapter/src/crypto/pairing-token.ts:174-382 | After any step a candidate is under review without its token if and only if it was so before and the step does not confirm or reject it, or the step presents its expired token again |
| PairingRuns.OrphanStaysUntilSettled | packages/remote-adapter/src/crypto/pairing-token.ts:174-382 | Over every run such an orphan is still in the table later if and only if nobody has tried to confirm or reject it in between: no pruning removes it |
| PairingRegistries.PairingTokenRegistry.PruneExpired | packages/remote-adapter/src/crypto/pairing-token.ts:174-183 | The loop over the tokens removes exactly the expired ones and the candidates under their review |
| PairingRegistries.PairingTokenRegistry.CreateToken | packages/remote-adapter/src/crypto/pairing-token.ts:185-241 | Tables and answer are those of the specified creation, its checks in order |
| PairingRegistries.PairingTokenRegistry.VerifyCandidate | packages/remote-adapter/src/crypto/pairing-token.ts:243-293 | Tables and answer are those of the specified verification, with the token deleted on each failure as specified |
| PairingRegistries.PairingTokenRegistry.ClaimCandidateForConfirmation | packages/remote-adapter/src/crypto/pairing-token.ts:305-355 | Of concurrent confirmations exactly the first finds the candidate pending |
| PairingRegistries.PairingTokenRegistry.RejectCandidate | packages/remote-adapter/src/crypto/pairing-token.ts:361-374 | A pending candidate and its token go; anything else stays |
| PairingRegistries.PairingTokenRegistry.BurnCandidateAndToken | packages/remote-adapter/src/crypto/pairing-token.ts:376-382 | Candidate and token are removed together |
| PairingRegistries.PairingCoordinator.InitiatePairing | packages/remote-adapter/src/crypto/pairing-coordinator.ts:30-58 | Nothing is verified on a channel that is not authenticated or when the host lookup fails; otherwise the verification step of the protocol and its answer |
| PairingRegistries.PairingCoordinator.BeginConfirmation | packages/remote-adapter/src/crypto/pairing-coordinator.ts:60-66 | First segment: the claim happens before any await |
| PairingRegistries.PairingCoordinator.ContinueConfirmation | packages/remote-adapter/src/crypto/pairing-coordinator.ts:66-96 | Second segment: a failed host lookup, host rotation and capability escalation end the transaction, otherwise the device is enrolled |
| PairingRegistries.PairingCoordinator.EndConfirmation | packages/remote-adapter/src/crypto/pairing-coordinator.ts:98-109 | Third segment: the transaction ends and token and candidate are burned, whatever the store answered |
| PairingRegistries.PairingCoordinator.RejectPairing | packages/remote-adapter/src/crypto/pairing-coordinator.ts:111-113 | The rejection step of the protocol and its answer |
| ConnectionSafety.HandshakeIsSafe | packages/remote-adapter/src/carrier/lan-connection.ts:315-415 | Authenticating, indexing and authorizing in one tick keeps every open authenticated connection indexed and makes no revoked device active |
| ConnectionRuns.StepIsSound | packages/remote-adapter/src/carrier/lan-host.ts:255-436 | Every step keeps the tables sound, and makes no revoked device active unless it is a revocation that nobody hears |
| ConnectionRuns.NoRevokedDeviceStaysConnected | packages/remote-adapter/src/carrier/lan-host.ts:326-379 | In every reachable state without an unheard revocation, an active connection belongs to a device that is not revoked; every open authenticated connection is indexed under its device, and every open one is listed |
| ConnectionActivation.BecomesActiveIff | packages/remote-adapter/src/carrier/lan-connection.ts:237-415 | Over every run a connection becomes active in a step if and only if the step gives it a handshake while it is open and anonymous, nothing in the store or the socket fails, the records of that moment hold an unrevoked record of its peer with the trust domain of the host, and nothing behind it closes it |
| ConnectionActivation.HandshakeOutcome | packages/remote-adapter/src/carrier/lan-connection.ts:315-415 | Where each handshake leaves its connection: active, pairing-pending for an absent record or one of another domain, or closed |
| ConnectionActivation.EvaluationOutcome | packages/remote-adapter/src/carrier/lan-connection.ts:377-415 | The decision of an authenticated channel, case by case, with the last-seen time that it records |
| ConnectionActivation.FrameOutcome | packages/remote-adapter/src/carrier/lan-connection.ts:237-313 | Which frames close a connection, start work or change nothing |
| ConnectionRuns.RevocationCloses | packages/remote-adapter/src/carrier/lan-host.ts:353-365 | A heard revocation closes every connection of the device and touches no other |
| ConnectionRuns.RevocationIffHeard | packages/remote-adapter/src/crypto/device-trust.ts:132-146 | A store request leaves no revoked device active if and only if it is not a committed revocation of an active device while the carrier is not subscribed |
| ConnectionRuns.UnheardRevocationStays | packages/remote-adapter/src/carrier/lan-host.ts:393-436 | Between the unsubscribing of a stop and its end, a revoked device stays active; subscribing again does not help, the end of the stop does |
| RevocationWindows.RevokedActiveIffUnheard | packages/remote-adapter/src/carrier/lan-host.ts:171-436 | Over every run a connection is active for a revoked device if and only if the device was revoked while the connection was active and the carrier not subscribed, and since then nothing has closed the connection, re-enrolled the device or removed it |
| RevocationWindows.StartDoesNotHear | packages/remote-adapter/src/carrier/lan-host.ts:171-210 | In the window of a start, between listening and subscribing, a revocation leaves the device active; subscribing does not help, and revoking again changes nothing |
| ConnectionRuns.StopClosesAll | packages/remote-adapter/src/carrier/lan-host.ts:393-436 | After a stop every connection is closed and both tables are empty |
| ConnectionRuns.ClosedIsFinal | packages/remote-adapter/src/carrier/lan-connection.ts:141-186 | No step reopens a closed connection or gives it another peer |
| ConnectionRuns.ClosedForever | packages/remote-adapter/src/carrier/lan-connection.ts:141-186 | Closed is absorbing over whole runs, the stops included |
| ConnectionRuns.ListedClosedIffByItsHead | packages/remote-adapter/src/carrier/lan-host.ts:300-428 | Over every run a closed connection is listed if and only if the bytes of its own upgrade closed it and no stop has ended since |
| ConnectionRuns.ClosingHeadCloses | packages/remote-adapter/src/carrier/lan-connection.ts:237-278 | A close frame, a slow ping or an unsupported frame anywhere in the bytes of the upgrade leaves the connection closed, whatever the handshakes before it come to |
| ConnectionRuns.ClosedByItsHeadStaysListed | packages/remote-adapter/src/carrier/lan-host.ts:325-350 | A connection accepted with such bytes is closed and listed in every later state until a stop ends, so it keeps its place |
| ConnectionRuns.EpochsIdentify | packages/remote-adapter/src/crypto/epoch.ts:11-20 | A connection that authenticates gets an epoch above that of every connection before it |
| ConnectionRuns.ReleasedExactlyOnce | packages/remote-adapter/src/carrier/lan-connection.ts:141-170 | Each authenticated connection is released at the core exactly once, when it closes |
| LanCarriers.ConnectionEpochAllocator.AllocateNext | packages/remote-adapter/src/crypto/epoch.ts:11-20 | The next epoch, or none when the safe integers are used up |
| LanCarriers.HostLanCarrier.Cleanup | packages/remote-adapter/src/carrier/lan-connection.ts:141-170 | The first close releases the peer and removes the connection from both tables; later ones do nothing |
| LanCarriers.HostLanCarrier.RemoveConnection | packages/remote-adapter/src/carrier/lan-host.ts:367-379 | The connection leaves the list and the set of its device, and an empty set leaves the table |
| LanCarriers.HostLanCarrier.OnRevocation | packages/remote-adapter/src/carrier/lan-host.ts:353-365 | A copy of the set is closed one by one, then the entry is dropped |
| LanCarriers.HostLanCarrier.OnPeerAuthenticated | packages/remote-adapter/src/carrier/lan-host.ts:326-345 | The connection is added to the set of its device |
| LanCarriers.HostLanCarrier.EvaluateAuthorization | packages/remote-adapter/src/carrier/lan-connection.ts:377-415 | Pairing pending, active with its last-seen update, or closed, as specified; the host and the record decide as in ConnectionActivation.EvaluationOutcome |
| LanCarriers.HostLanCarrier.HandleHandshakeMessage | packages/remote-adapter/src/carrier/lan-connection.ts:315-375 | One handshake message, from the epoch to the authorization |
| LanCarriers.HostLanCarrier.HandleFrame | packages/remote-adapter/src/carrier/lan-connection.ts:237-313 | One frame in each security state, with the bound on inbound work |
| LanCarriers.HostLanCarrier.HandleUpgrade | packages/remote-adapter/src/carrier/lan-host.ts:255-351 | The bytes of the upgrade are handled before the connection is listed |
| LanCarriers.HostLanCarrier.StopEnd | packages/remote-adapter/src/carrier/lan-host.ts:412-428 | Everything listed is closed and the tables are emptied |
| AuditChains.LastHashDetermines | archive/deepseek-harness-suite/packages/dsh-bridge/src/security/audit-chain.ts:92-180 | With a collision-free hash, two non-empty valid chains end in the same hash if and only if they agree, record by record, on every field that the hash covers |
| AuditChains.FurtherIsNotChecked | archive/deepseek-harness-suite/packages/dsh-bridge/src/security/audit-chain.ts:137-178 | Verification depends on those fields only: further fields of a loaded line can be added or changed without notice |
| AuditChains.AlteredIsNoticed | archive/deepseek-harness-suite/packages/dsh-bridge/src/security/audit-chain.ts:92-180 | With the last hash known, another log passes if and only if no hashed field of any record was altered and no record dropped, inserted or moved |
| AuditChains.PrefixValid | archive/deepseek-harness-suite/packages/dsh-bridge/src/security/audit-chain.ts:125-159 | A shortened chain verifies too: without the last hash a lost tail is not noticed |
| AuditChains.AppendKeepsValid | archive/deepseek-harness-suite/packages/dsh-bridge/src/security/audit-chain.ts:59-90 | An append, after a load as well, keeps the chain valid |
| AuditChains.FileLoadsIffTailLost | archive/deepseek-harness-suite/packages/dsh-bridge/src/security/audit-chain.ts:59-159 | When writes fail while the chain goes on in memory, the file loads again if and only if the lost writes are its tail |
| AuditChains.CheckLines | archive/deepseek-harness-suite/packages/dsh-bridge/src/security/audit-chain.ts:125-159 | The loading loop accepts exactly the logs whose lines all parse and whose records form a valid chain, and returns them; otherwise it names the first line that is no record or breaks the chain, and which of the two |
| AuditChains.DshAuditChain.Append | archive/deepseek-harness-suite/packages/dsh-bridge/src/security/audit-chain.ts:59-90 | One record with the payload as given and the next number is linked on; a failed write is counted and loses nothing in memory |
| AuditChains.DshAuditChain.Verify | archive/deepseek-harness-suite/packages/dsh-bridge/src/security/audit-chain.ts:92-115 | Accepts exactly the valid chains and otherwise points at the first broken record |
| AuditChains.DshAuditChain.LoadAndVerify | archive/deepseek-harness-suite/packages/dsh-bridge/src/security/audit-chain.ts:125-159 | Loads exactly the logs that verify; a refused log changes nothing and is refused at its first bad line |
| Checkpoints.RestoreOne | archive/deepseek-harness-suite/packages/dsh-bridge/src/checkpoint/checkpoint-engine.ts:148-234 | Restoring a snapshot brings a file back if and only if the file was absent or readable text within the size limit, or it did not change and was not one that a snapshot reads with loss; no other file is touched |
| Checkpoints.UndoInvertsOne | archive/deepseek-harness-suite/packages/dsh-bridge/src/checkpoint/checkpoint-engine.ts:195-234 | Restoring the snapshots of a mutation that touched only announced files gives back the whole file system |
| Checkpoints.UndoInvertsRun | archive/deepseek-harness-suite/packages/dsh-bridge/src/checkpoint/checkpoint-engine.ts:195-234 | k plain undos within the remembered window restore the state before the k-th last mutation |
| Checkpoints.UndoInvertsHistory | archive/deepseek-harness-suite/packages/dsh-bridge/src/checkpoint/checkpoint-engine.ts:148-234 | For every history of mutations and every k up to its length and to maxCheckpoints, k undos restore contents and existence of all files |
| Checkpoints.UndoToIsExact | archive/deepseek-harness-suite/packages/dsh-bridge/src/checkpoint/checkpoint-engine.ts:195-234 | An undo to an older checkpoint gives that older state if and only if everything changed since is among its files |
| Checkpoints.SnapshotsNumberOn | archive/deepseek-harness-suite/packages/dsh-bridge/src/checkpoint/checkpoint-engine.ts:148-190 | Checkpoint numbers strictly increase in the window and are never reused, refused snapshots included |
| Checkpoints.UndoKeepsNumbers | archive/deepseek-harness-suite/packages/dsh-bridge/src/checkpoint/checkpoint-engine.ts:195-234 | An undo, also one that fails half way, keeps the window a prefix of itself and the next number |
| Checkpoints.SnapshotOutcome | archive/deepseek-harness-suite/packages/dsh-bridge/src/checkpoint/checkpoint-engine.ts:148-190 | A snapshot becomes the newest checkpoint with what it records of each file; the oldest checkpoint goes only when the window is full |
| Checkpoints.UndoOutcome | archive/deepseek-harness-suite/packages/dsh-bridge/src/checkpoint/checkpoint-engine.ts:195-234 | Which checkpoints an undo drops, what it answers, and what becomes of each file: decided by the last restored snapshot of it that says anything |
| Checkpoints.UndoRefuses | archive/deepseek-harness-suite/packages/dsh-bridge/src/checkpoint/checkpoint-engine.ts:195-212 | An undo is refused exactly without checkpoints or with an unknown number, and then changes nothing |
| Checkpoints.DshCheckpointEngine.TakeSnapshot | archive/deepseek-harness-suite/packages/dsh-bridge/src/checkpoint/checkpoint-engine.ts:148-190 | The window is shifted and extended as specified; a path outside the workspace adds no checkpoint |
| Checkpoints.DshCheckpointEngine.Undo | archive/deepseek-harness-suite/packages/dsh-bridge/src/checkpoint/checkpoint-engine.ts:195-234 | Files, window and answer are those of the specified undo, a failing write included |

## Left out

- TrustStoreStates.EveryStateReloads: assumes a clock that is positive and does not go back and recorded timestamps not before the pairing, because without them the property is false; `TrustStoreStates.RequestReloads` is the exact condition per request. Restarts here keep what the process saw; the power losses are those of `TrustStoreReloads`.
- TrustStoreStories.StoryIsSound: a power loss during the recovery of a process that was restarted without a power loss is not an episode. After an untidy commit, a commit that does not get through its first directory sync is excluded, because it is then not atomic.
- FileDeviceTrustStores.FileDeviceTrustStore.constructor: promises a valid object only for files in the form that the store writes; for another accepted form, such as upper-case hexadecimal keys, only the loaded map is stated.
- HostIdentities.FileHostIdentityStore.CommitKeyPair: the path of an I/O error, with its rollback and poisoning, is not part of this model; crashes are.
- HostIdentities.GenerationsNeverDecrease: covers crashes only. I/O errors inside a commit, `destroy`, the checksum and the field validation of the stored identity, and the lock between concurrent calls are not part of this model.
- WebSocketRoundTrip.RoundTrip: the frames are those that the parser accepts, binary and control frames of at most maxFrameBytes; lengths of 2^53 and more, where JavaScript numbers are inexact, are treated as exact.
- SessionEvents.EveryResumeIsExact: the payloads of a run are those for which `SessionEvents.IngestKeepsSync` says that the buffers stay in step; with any other payload they do not.
- DispatchSafety.KeysAreApart: assumes device ids without a colon; real ids are hexadecimal fingerprints. The key of a connection's sequence is modelled as the pair of device and epoch, not as its text.
- PairingRuns.OneDevicePerToken: assumes that random token hashes and candidate ids are never drawn twice.
- AuditChains.LastHashDetermines: assumes that the hash has no collisions.
- Checkpoints.UndoInvertsHistory: each mutation touches only the files snapshotted just before it, all of them absent or readable text within the size limit; `Checkpoints.RestoreOne` and `Checkpoints.UndoToIsExact` say what happens otherwise.
- ConnectionRuns.NoRevokedDeviceStaysConnected: assumes no unheard revocation on the way, because with one it is false; `ConnectionRuns.RevocationIffHeard` is the exact condition.
- LanCarriers.HostLanCarrier: connections are values in a table of the carrier, so aliasing between a connection object and the sets that hold it is not captured; outbound queues, timers, sockets and upgrade headers are parameters or absent.
- DispatchCores.RemoteAdapterCore: the answers of the methods that change nothing (listing, attach and acknowledge) are not followed through their awaits here; attach is modelled in `SessionBridges`.
- The JSON text of the device store and of the journals: a file holds the parsed value or nothing readable, and a torn text never parses.
- I/O errors during start-up recovery, file modes, owners and symbolic links, and platforms where a directory cannot be synced.
- The fail-closed recovery mode and the fault injector: the crash points of the model cover what it simulates.
- Noise handshake, ciphers, key generation and SHA-256: functions or parameters.
- HTTP upgrade headers, mDNS, timers, host descriptors and address validation: input, output or flat checks.
- Path sanitizing and symbolic links of the checkpoint engine: paths are abstract, and being inside the workspace is a parameter.
- An audit chain that appends to an existing file without loading it first.
- Constructor argument checks, such as positive capacities.
- Desktop, terminal and phone clients, the launcher, the supervisor and the marketplace.
