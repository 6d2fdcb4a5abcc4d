# A Dafny model of the DVT co-signing node

The node watches operators, slashes violators together with its peers, proves its own liveness and
archives evidence.  This project models the state machines where that can go wrong (crashes between
a confirmed transaction and its record, unreadable chain state, lying peers, late completions,
replaced transactions) and proves what they keep over every run.

Each module stands for one component.  The chain, the peers, the clock, the disk and the event loop
are part of the state; whatever the code cannot rely on is a nondeterministic choice.  Every `await`
is a point where other work may run, an operation may fail and, in the slash pipeline and the
watcher, the process may die.  Each code segment between two awaits is one atomic step.

The slash pipeline and the watcher also know a calm environment, in which answers are true, operations
succeed and the process lives; two further constants of the watcher say whether its listings can be read.
It is used only where it is named: to say that a call then completes, and to give example runs.
Everything else holds for every environment.

| module | component |
|---|---|
| `SlashPipeline` | queue -> createProposal -> execute, its guards, the archive and crashes |
| `GuardianWatcher` | the cursor scan with verified, quarantine and dead-letter stores |
| `Quorum`, `Collector`, `SignerMask` | thresholds, response collection, signer mask and signer order |
| `WalletFifo`, `AttestLoop` | the operator wallet's broadcast queue and the fee-replacement loop |
| `EventReplay` | role members and the pending flag rebuilt from events |
| `HeartbeatLedger`, `Watchdog`, `KeyConsistency` | authenticated heartbeats, attest watchdog, key self-check |
| `GossipFlood` | propagation of one message through any network |
| `CanonicalJson`, `Eip2537` | the proofHash preimage and the point layout |
| `Options`, `Sorting`, `Counting`, `Bytes`, `Javascript` | shared definitions |

The main results:

- **At most one slash.**  In every run of violations, healthy reads, pruning, evictions, restarts and
  crashes at any await, no lookback window ever holds two executed slashes of the operator and level,
  and an execute only follows a confirmed queue or a pending read (`SlashPipeline.AnyRun`,
  `SlashPipeline.AtMostOneSlashPerWindow`, `SlashPipeline.AuditService.HandleViolation`).
- **No stranded operator.**  With true answers, a queued and unexecuted slash is never dropped by the
  dedup gate nor held back by the over-slash guard; outside the cooldown it is resumed without a second
  queue, also after a crash that lost all memory (`HandleViolation`, whose invariant `Restart` keeps),
  and in a calm environment that call completes the slash.
- **Durable records.**  Every stored snapshot is consistent and true of the chain.  As long as no call
  goes on over a record it could not read, the archive only gains, stored transactions and ids keep
  their values unless the call made new ones, and a record with an execute never changes in a later call.
- **Nothing skipped.**  Every finalized log up to the watcher's cursor is terminal or dead-lettered at
  every point of every run; only finalized blocks are read, and a pass of retries takes up every listed
  dead-letter that is not parked, once.
- **Quorum soundness, collector accounting, exact replay, FIFO order, fee replacement, ledger order,
  watchdog bounds, loop generation safety, flooding bound, canonical preimage, point layout**: see the
  table.

Where the code does not meet the plain statement, the model shows it:

- The archive answers a failed read with "absent", and the call then overwrites the record.  The
  evidence write loses progress exactly if the read missed a record with some, or the record was
  executed (`SlashPipeline.EvidenceLoses`, `ArchiveEvidence`); `SlashPipeline.FailedReadErases` is a run
  that erases the `executeTx` of a landed slash.  At most one slash and no stranded operator hold
  regardless.
- A stored record with `executeTx` is rewritten once more inside the call that executed, exactly unless
  the attempt reused a proposal id that the record already held (`SlashPipeline.FinalPutChangesExecutedRecord`,
  `HandleViolation`; `SlashPipeline.FinalPutRewrites` is such a run).  Across calls it is final.
- The watcher's count of a dead-letter starts anew exactly if the listing misses the entry at a write,
  so the cap of ten needs every write to find it, and hasFailure never to deny it
  (`GuardianWatcher.TenAttempts`, `AnyRun`); `GuardianWatcher.NeverParked` has runs with any number of
  writes.  `captureOne` throws exactly if its dead-letter write fails, although its comment says that it
  never throws (`GuardianWatcher.Watcher.CaptureOne`).
- Two confirmed watchdog attests at block 0 are not held apart, because 0 also means "none yet"
  (`Watchdog.GenesisRepeats`); any other recorded head is.
- A negative fanout is no bound: it keeps all but a few peers (`GossipFlood.FanoutBounds`,
  `GossipFlood.NegativeFanoutFloods`); `GossipFlood.OneCopy` says how many forwards there are then.
- `stableStringify` writes an undefined array element as nothing, so `[undefined]` and `[]` collide.
  Every value that holds an `[undefined]` collides with another one
  (`CanonicalJson.UndefinedElementCollides`), and on all others it is injective.
- The 128-byte key parser also accepts white space at the end of a coordinate
  (`Eip2537.WhiteSpaceIsAccepted`, for every point with a coordinate below 16^95); `Eip2537.G1Canonical`
  says exactly when an accepted text is an encoding.

`dafny verify dfyconfig.toml` checks the whole project.

## Model

| member | source | states |
|---|---|---|
| `SlashPipeline.MineOk` | src/modules/audit/audit.service.ts:1429-1512 | New blocks keep the chain invariant and never bring an executed event back into the window. |
| `SlashPipeline.LandQueueOk` | src/modules/audit/audit.service.ts:1652-1698 | A queue that lands with no executed event in the window keeps executes spaced and behind queues. |
| `SlashPipeline.LandExecuteOk` | src/modules/audit/audit.service.ts:1751-1826 | An execute that lands while the flag is set is outside the window of every earlier one. |
| `SlashPipeline.AtMostOneSlashPerWindow` | src/modules/audit/audit.service.ts:1171-1228 | From the invariant: no head ever sees two executed slashes inside its lookback. |
| `SlashPipeline.RewritesIsDurable` | src/modules/audit/audit.service.ts:1335-1377 | Rewriting one unexecuted record, losing nothing, keeps the whole archive durable, with every stored transaction and id kept or replaced by the call's own. |
| `SlashPipeline.PutOk` | src/modules/audit/audit.service.ts:1136-1148 | A put of a true record keeps the archive true, the retry marks justified and a pending slash visible to the next violation. |
| `SlashPipeline.InitialProof` | src/modules/audit/audit.service.ts:1103-1141 | The pre-execution proof claims no execute, carries the stored queue, proposal and id forward unchanged, and without a read record holds no progress. |
| `SlashPipeline.EvidenceLoses` | src/modules/audit/audit.service.ts:1136-1148 | The evidence write is durable exactly unless the record it replaces was executed, or had progress that the read did not see. |
| `SlashPipeline.ExecutedFollows` | src/modules/audit/audit.service.ts:1810-1818 | Adding the execute and its preimage to an unexecuted proof loses nothing and keeps it true of the chain. |
| `SlashPipeline.FinalizeOk` | src/modules/audit/audit.service.ts:1335-1377 | The final record is consistent (executeTx exactly with messageHash), keeps everything stored, replaces the id only by the call's own and names the executed proposal. |
| `SlashPipeline.FinalPutChangesExecutedRecord` | src/modules/audit/audit.service.ts:1335-1377 | The final put leaves the executed snapshot alone exactly if the attempt reused a proposal id that its record already held. |
| `SlashPipeline.ReusedIsKnown` | src/modules/audit/audit.service.ts:1218-1227 | A resume goes on with the id of the unexecuted record it read, else with the in-flight one, and files nothing; it files one only if both are missing. |
| `SlashPipeline.AuditService.Put` | src/modules/audit/audit.service.ts:1147-1147 | An atomic archive write that fails or is stored, possibly just before a crash. |
| `SlashPipeline.AuditService.PersistStep` | src/modules/audit/audit.service.ts:1637-1645 | Re-archiving a landed step loses nothing, whether or not the write succeeds. |
| `SlashPipeline.AuditService.QueueWrite` | src/modules/audit/audit.service.ts:1671-1678 | Reached only with a stored, unexecuted record, nothing executed in the window and a co-signed proof for this very queue; a confirmed queue has set the flag. |
| `SlashPipeline.AuditService.ProposeWrite` | src/modules/audit/audit.service.ts:1718-1727 | Filing changes neither flag nor events; a returned transaction landed. |
| `SlashPipeline.AuditService.ExecuteWrite` | src/modules/audit/audit.service.ts:1786-1794 | Reached only with the flag set, the proof archived and a co-signed proof for this very preimage; adds at most one executed event and then clears the flag. |
| `SlashPipeline.AuditService.RecordCoarseSlashed` | src/modules/audit/audit.service.ts:560-592 | Sets the marker and drops the in-flight id; the durable marker is best effort and never lost here. |
| `SlashPipeline.AuditService.ClearCoarseSlashed` | src/modules/audit/audit.service.ts:595-617 | Forgets marker and id; a failed durable removal leaves the journal as it was. |
| `SlashPipeline.AuditService.ScanTarget` | src/modules/audit/audit.service.ts:1458-1467 | One target's answer: no only with nothing in the window. |
| `SlashPipeline.AuditService.ScanExecuted` | src/modules/audit/audit.service.ts:1451-1473 | "No" over all targets means no executed event in the window; a true hit means no slash is pending. |
| `SlashPipeline.AuditService.ReadJournal` | src/modules/audit/audit.service.ts:1439-1446 | A journal hit becomes the in-memory marker; a failed read counts as no. |
| `SlashPipeline.AuditService.ReadPending` | src/modules/audit/audit.service.ts:1482-1493 | Yes only with the flag set. |
| `SlashPipeline.AuditService.CoSign` | src/modules/audit/audit.service.ts:1660-1669 | A failed co-sign approves nothing; a successful one approves the action it was asked for. |
| `SlashPipeline.AuditService.AssessSlashState` | src/modules/audit/audit.service.ts:1429-1512 | Pending only with the flag set, clear only with nothing executed in the window, blocked only on an incomplete scan; with exact reads a pending slash reads as pending and an unslashed operator as clear; in a calm environment executed exactly if marked or in the window. |
| `SlashPipeline.AuditService.QueueStep` | src/modules/audit/audit.service.ts:1657-1698 | Sends only what was co-signed; unless the process dies, a confirmed queue transaction is offered to the archive before the next step may begin; the record never loses one. |
| `SlashPipeline.AuditService.ProposeStep` | src/modules/audit/audit.service.ts:1716-1740 | An armed node offers the proposal id to the archive before the execute may begin; nothing stored is lost. |
| `SlashPipeline.AuditService.ExecuteStep` | src/modules/audit/audit.service.ts:1764-1825 | executeTx and messageHash enter the record together and are offered to the archive at once, for the proposal that was executed; without a confirmed execute the record has none. |
| `SlashPipeline.AuditService.SendExecute` | src/modules/audit/audit.service.ts:1765-1794 | Sends only what was co-signed; a confirmed execute has landed for this proposal and cleared the flag; at most one lands. |
| `SlashPipeline.AuditService.FindProposal` | src/modules/audit/audit.service.ts:1709-1745 | The carried id is reused as it is; otherwise a proposal is filed unless an armed queue did not confirm; the ids of the call are exactly those. |
| `SlashPipeline.AuditService.ProposeAndExecute` | src/modules/audit/audit.service.ts:1709-1826 | Which of the two steps is asked for, exactly; a new executed event implies an armed node behind the pre-flag. |
| `SlashPipeline.AuditService.RunSteps` | src/modules/audit/audit.service.ts:1652-1838 | The three steps once arming is decided: asked for by the two-step rule, every exit with the record complete up to a failed write. |
| `SlashPipeline.AuditService.CoordinateQuorumCoSign` | src/modules/audit/audit.service.ts:1563-1850 | The two-step rule both ways (queue unless resuming, execute exactly behind a queue or resume with a real id), aborted exactly when armed without execute, records kept at every exit including a crash. |
| `SlashPipeline.AuditService.NoteAttempt` | src/modules/audit/audit.service.ts:1249-1285 | The retry mark, the in-flight id and the cooldown after an attempt; the cooldown is cleared only if nothing landed. |
| `SlashPipeline.AuditService.SettleAttempt` | src/modules/audit/audit.service.ts:1249-1317 | After an execute the marker is set and the id forgotten; otherwise the retry mark says exactly whether it aborted. |
| `SlashPipeline.AuditService.Attempt` | src/modules/audit/audit.service.ts:1207-1317 | An attempt arms the cooldown, resumes with the carried id only, marks the block for retry exactly when it aborted and the marker when it executed. |
| `SlashPipeline.AuditService.ReadArchive` | src/modules/audit/proof-archive.ts:294-311 | Either read of the archive may answer absent although the record is there; a record that is read is the stored one. |
| `SlashPipeline.AuditService.DedupGate` | src/modules/audit/audit.service.ts:1069-1091 | An armed node skips only a slashed key or an executed record; the call misses a record exactly if it goes on without having read it, or over an executed one. |
| `SlashPipeline.AuditService.ArchiveEvidence` | src/modules/audit/audit.service.ts:1103-1148 | The evidence is archived before anything is sent; the write loses progress exactly if the read missed a record with some, or the record was executed; the block counts as handled exactly after a successful write. |
| `SlashPipeline.AuditService.WriteEvidence` | src/modules/audit/audit.service.ts:1143-1148 | The evidence write ends the call if it fails; it is safe unless it loses progress. |
| `SlashPipeline.AuditService.FinalPut` | src/modules/audit/audit.service.ts:1335-1377 | The last write stores the final record and, after an execute, the executed proposal, transaction and preimage. |
| `SlashPipeline.AuditService.Decide` | src/modules/audit/audit.service.ts:1153-1175 | Cooldown exactly by the clock; the state is assessed outside it and, while a slash is in flight, also inside it, so an execute is learnt of; otherwise nothing is read. |
| `SlashPipeline.AuditService.EndWithoutAttempt` | src/modules/audit/audit.service.ts:1177-1201 | A suppressed or guarded call touches only its own record, which stays unexecuted, and sends nothing. |
| `SlashPipeline.AuditService.EndWithAttempt` | src/modules/audit/audit.service.ts:1202-1377 | An attempt with its final put: at most one execute, stored with its proposal; a resume never queues; the executed snapshot is rewritten exactly unless the reused id was already in the record. |
| `SlashPipeline.AuditService.FinishAttempt` | src/modules/audit/audit.service.ts:1326-1377 | The final put of an attempt, with the exact condition for changing an executed record. |
| `SlashPipeline.AuditService.Process` | src/modules/audit/audit.service.ts:1150-1377 | Cooldown, guard or attempt, answered as far as the reads allow; in a calm environment a pending or unslashed operator outside the cooldown is slashed. |
| `SlashPipeline.AuditService.Act` | src/modules/audit/audit.service.ts:1177-1324 | Exactly one of suppression, guard and attempt, by cooldown and slash state; a resume carries the archived id, else the in-flight one. |
| `SlashPipeline.AuditService.StoreEvidence` | src/modules/audit/audit.service.ts:1042-1148 | Skips no pending slash on an armed node with true answers; otherwise the evidence is stored and nothing is lost unless the record was missed. |
| `SlashPipeline.AuditService.Begin` | src/modules/audit/audit.service.ts:1018-1148 | The start of a call: other records untouched, this one safe unless missed, and an early end only for the stated reasons. |
| `SlashPipeline.AuditService.Continue` | src/modules/audit/audit.service.ts:1150-1404 | The rest of the call, with its answer and what it leaves in the archive. |
| `SlashPipeline.AuditService.HandleViolation` | src/modules/audit/audit.service.ts:1018-1404 | Safety at every exit (end, throw, crash), also with an unreadable archive; archive before any landed transaction; stored progress kept with its values unless the call missed the record; a resume files no proposal while the record it read, or else the memory, knows one, and goes on with that one; no stranded operator, completed in a calm environment; when the executed snapshot is rewritten. |
| `SlashPipeline.AuditService.Prune` | src/modules/audit/audit.service.ts:623-640 | Aged entries go and size caps drop retry state, exactly, without breaking any invariant. |
| `SlashPipeline.AuditService.Evict` | src/modules/audit/audit.service.ts:528-535 | Losing a marker or a handled block to the size caps breaks no invariant. |
| `SlashPipeline.AuditService.Restart` | src/modules/audit/audit.service.ts:320-356 | A new process keeps chain, archive and journal, starts with empty memory and keeps every invariant. |
| `SlashPipeline.DurableTransitive` | src/modules/audit/audit.service.ts:1136-1148 | Durability composes over calls. |
| `SlashPipeline.AnyRun` | src/modules/audit/audit.service.ts:1018-1404 | Over every run: at most one executed slash per window, executes never outnumber queues, history grows, and the archive only gains as long as no call missed a record. |
| `SlashPipeline.AnyStep` | src/modules/audit/audit.service.ts:1018-1404 | One step of a run keeps every invariant and, unless a record was missed, every record. |
| `SlashPipeline.FinalPutRewrites` | src/modules/audit/audit.service.ts:1335-1377 | A run in which the snapshot written right after the execute is rewritten by the final put. |
| `SlashPipeline.FailedReadErases` | src/modules/audit/audit.service.ts:1069-1148 | A run in which, after a restart, a failed archive read erases the executeTx of a landed slash. |
| `GuardianWatcher.RewrittenOk` | src/modules/audit/guardian-slash-watcher.service.ts:325-338 | One write: the stored count stays the number of writes exactly if the listing showed the entry as stored. |
| `GuardianWatcher.TenAttempts` | src/modules/audit/guardian-slash-watcher.service.ts:318-347 | The count equals the writes exactly if all of them found the entry; then there are at most ten exactly unless the log was driven while parked. |
| `GuardianWatcher.ReadAll` | src/modules/audit/guardian-signer-store.ts:189-221 | One entry per dead-letter, distinct, as stored or shown as parked when it cannot be parsed. |
| `GuardianWatcher.AttemptsListed` | src/modules/audit/guardian-slash-watcher.service.ts:325-328 | What the listing shows for a position, if anything; the count starts anew without it. |
| `GuardianWatcher.Watcher.HasTerminal` | src/modules/audit/guardian-signer-store.ts:142-152 | Yes only for a verified or quarantined proposal. |
| `GuardianWatcher.Watcher.HasFailure` | src/modules/audit/guardian-signer-store.ts:180-187 | Yes only for a dead-lettered position; a false no is noted. |
| `GuardianWatcher.Watcher.ListFailures` | src/modules/audit/guardian-signer-store.ts:189-221 | Nothing when unreadable, else complete and distinct. |
| `GuardianWatcher.Watcher.DeadLetter` | src/modules/audit/guardian-slash-watcher.service.ts:318-347 | On success the position holds one attempt more than the listing showed, with its history updated; nothing else changes; it throws exactly if the write fails. |
| `GuardianWatcher.Watcher.FindFailure` | src/modules/audit/guardian-slash-watcher.service.ts:325-327 | An entry is found only for a dead-lettered position. |
| `GuardianWatcher.Watcher.PutFailure` | src/modules/audit/guardian-signer-store.ts:172-178 | The write lands, fails without effect or lands before a crash; a failed one is counted. |
| `GuardianWatcher.Watcher.RecordFailure` | src/modules/audit/guardian-signer-store.ts:172-178 | The new dead-letter, parked exactly at ten attempts, with its history. |
| `GuardianWatcher.Watcher.CaptureOne` | src/modules/audit/guardian-slash-watcher.service.ts:276-315 | On success the log is accounted for, and every earlier log stays so; it throws exactly if the dead-letter write fails; in a calm environment the proposal becomes terminal exactly if its record can be built, else the log is recorded once more. |
| `GuardianWatcher.Watcher.BuildAndStore` | src/modules/audit/guardian-slash-watcher.service.ts:282-309 | A record that was built goes to the verified store exactly if its commitment is the one on chain, else to quarantine; a failure leaves the stores alone. |
| `GuardianWatcher.Watcher.StoreRecord` | src/modules/audit/guardian-signer-store.ts:128-140 | The record goes to the verified store or to quarantine, and makes its proposal terminal. |
| `GuardianWatcher.Watcher.RemoveFailure` | src/modules/audit/guardian-signer-store.ts:223-229 | Only the dead-letter of a terminal proposal is removed, so its log stays accounted for. |
| `GuardianWatcher.Watcher.RetryOne` | src/modules/audit/guardian-slash-watcher.service.ts:355-366 | A retry touches one dead-letter, takes it up once and leaves its log accounted for; in a calm environment it is cleared exactly if terminal or buildable, else recorded once more. |
| `GuardianWatcher.Watcher.Redrive` | src/modules/audit/guardian-slash-watcher.service.ts:361-366 | A driven dead-letter is removed only once its proposal is terminal; it throws exactly if the dead-letter write fails. |
| `GuardianWatcher.Watcher.RetryFailures` | src/modules/audit/guardian-slash-watcher.service.ts:350-368 | A pass that completes has taken up every listed unparked dead-letter exactly once and no parked one; in a calm environment with a readable listing every unparked dead-letter is then gone with its proposal terminal, or has exactly one more write; every log stays accounted for. |
| `GuardianWatcher.Watcher.RetryListed` | src/modules/audit/guardian-slash-watcher.service.ts:352-367 | The loop over any listing: every unparked entry once, none after shutdown began. |
| `GuardianWatcher.Watcher.RetryStep` | src/modules/audit/guardian-slash-watcher.service.ts:353-366 | One entry advances the pass by exactly one. |
| `GuardianWatcher.Watcher.RetryEntry` | src/modules/audit/guardian-slash-watcher.service.ts:354-366 | A parked entry is passed over; any other is retried. |
| `GuardianWatcher.Watcher.PassStep` | src/modules/audit/guardian-slash-watcher.service.ts:353-366 | One retried or passed-over entry leaves the earlier and later ones of the pass as they were. |
| `GuardianWatcher.Watcher.ScanRange` | src/modules/audit/guardian-slash-watcher.service.ts:256-273 | Completion means every log of the range is accounted for; in a calm environment only first attempts of open proposals are added; after shutdown began nothing is captured. |
| `GuardianWatcher.Watcher.ScanOne` | src/modules/audit/guardian-slash-watcher.service.ts:263-271 | One log: skipped only if terminal or dead-lettered, else captured. |
| `GuardianWatcher.Watcher.ScanFresh` | src/modules/audit/guardian-slash-watcher.service.ts:268-271 | A log that does not read as terminal: skipped only if dead-lettered, else captured. |
| `GuardianWatcher.Watcher.WriteCursor` | src/modules/audit/guardian-signer-store.ts:241-244 | The cursor moves only over a range that is accounted for. |
| `GuardianWatcher.Watcher.Tick` | src/modules/audit/guardian-slash-watcher.service.ts:215-249 | Single flight; reads only finalized blocks, in consecutive chunks from the cursor; a tick that completes has reached the finalized head and one whose dead-letter write failed throws; in a calm environment every unparked dead-letter is retried once; every invariant holds at every exit. |
| `GuardianWatcher.Watcher.ScanToHead` | src/modules/audit/guardian-slash-watcher.service.ts:225-241 | Chunks of at most logChunk blocks, one after the other from the cursor, or from fromBlock if it cannot be read, never beyond the finalized head; no log is skipped. |
| `GuardianWatcher.Watcher.ScanFrom` | src/modules/audit/guardian-slash-watcher.service.ts:231-240 | The chunk loop: consecutive ranges, each accounted for before the cursor moves over it. |
| `GuardianWatcher.Watcher.ScanChunk` | src/modules/audit/guardian-slash-watcher.service.ts:232-239 | The cursor moves exactly to the end of a chunk whose every log is accounted for. |
| `GuardianWatcher.Watcher.SweptStep` | src/modules/audit/guardian-slash-watcher.service.ts:231-240 | A next chunk keeps the ranges consecutive, of bounded size and finalized. |
| `GuardianWatcher.Watcher.ScannedAfterRetry` | src/modules/audit/guardian-slash-watcher.service.ts:222-240 | The scan after the retries adds first attempts only and drives no dead-letter a second time. |
| `GuardianWatcher.AnyRun` | src/modules/audit/guardian-slash-watcher.service.ts:215-368 | Over every run with crashes and IO errors: everything up to the cursor is accounted for and terminal records stay; a dead-letter's count is exact if and only if every write found it, and then at most ten unless hasFailure denied a dead-letter. |
| `GuardianWatcher.FirstTick` | src/modules/audit/guardian-slash-watcher.service.ts:215-249 | A tick that dead-letters a log which cannot be decoded. |
| `GuardianWatcher.StuckTick` | src/modules/audit/guardian-slash-watcher.service.ts:318-368 | A further tick records it once more and, with the listing failing at the write, still counts it as a first attempt. |
| `GuardianWatcher.NeverParked` | src/modules/audit/guardian-slash-watcher.service.ts:318-368 | For every n, a run of n + 1 ticks with n + 1 recorded failures of one log that still counts as a first attempt. |
| `Quorum.ParseSlashThresholds` | src/config/configuration.ts:427-449 | Each level is the larger of its floor and its last valid setting; never below 2/3/3. |
| `Quorum.ConfiguredQuorum` | src/modules/audit/gossip-quorum-cosigner.ts:446-455 | From settings to threshold for every level, including unknown ones: never below 2/3/3. |
| `Quorum.SeverityRoundTrip` | src/config/configuration.ts:427-449 | A setting is for a level exactly if its key is the level's name. |
| `Quorum.DecimalRoundTrip` | src/config/configuration.ts:427-449 | A setting written in decimal is read as that number. |
| `Quorum.RecomputeBinds` | src/modules/audit/slash-consensus.ts:174-200 | A message exists exactly for the own chain and a known step with the fields it needs; it binds the node's own domain and every field of the request. |
| `Quorum.CoSigner.constructor` | src/modules/audit/gossip-quorum-cosigner.ts:77-97 | The configured slot count if it is between 1 and 13, and else a count in that range. |
| `Quorum.CoSigner.ValidateResponse` | src/modules/audit/gossip-quorum-cosigner.ts:360-405 | Counted exactly when slot, message, signature and the first key read for the slot all hold; a slot's key is read once. |
| `Quorum.CoSigner.EnsureDomainAttested` | src/modules/audit/gossip-quorum-cosigner.ts:134-150 | Attested exactly if it was before or is now; failure is not remembered. |
| `Quorum.CoSigner.ResolveOwnSlot` | src/modules/audit/gossip-quorum-cosigner.ts:416-431 | A found slot never changes; a missing one is read again and found if the chain has it. |
| `Quorum.CoSigner.VerifyAndSign` | src/modules/audit/gossip-quorum-cosigner.ts:166-246 | Signs exactly when armed, attested and registered, over its own recomputation and its own evidence. |
| `Quorum.CoSigner.CountBySlot` | src/modules/audit/gossip-quorum-cosigner.ts:313-320 | The slots kept are exactly those some response proved, each with the signature of the first that counts. |
| `Quorum.CoSigner.Assemble` | src/modules/audit/gossip-quorum-cosigner.ts:331-335 | The mask of the counted slots and their signatures in ascending slot order. |
| `Quorum.CoSigner.ForSelected` | src/modules/audit/gossip-quorum-cosigner.ts:331-335 | Signatures taken slot by slot are those of the selected slots of the mask. |
| `Quorum.CoSigner.SortedSlots` | src/modules/audit/gossip-quorum-cosigner.ts:331-331 | The counted slots, each once, in ascending order. |
| `Quorum.CoSigner.CoSign` | src/modules/audit/gossip-quorum-cosigner.ts:257-341 | For any peer responses in any order: a proof exactly if the node is ready, agrees and enough slots are proved; the mask is below 2^13 and selects exactly the proved slots, and the signatures are, in slot order, those of the first response that counts. |
| `Quorum.ConfiguredCoSign` | src/modules/audit/gossip-quorum-cosigner.ts:257-341 | From settings to mask: a proof has at least 2 (WARNING) or 3 set bits whatever is configured or sent; and a registered, attested node that agrees gets one exactly if enough slots count. |
| `Collector.BudgetLeft` | src/modules/gossip/gossip.service.ts:938-944 | A connection below its cap leaves room in a budget that covers all responding connections. |
| `Collector.PendingCoSign.constructor` | src/modules/gossip/gossip.service.ts:822-866 | Caps are at least 1; a threshold of zero or less resolves at once with nothing. |
| `Collector.PendingCoSign.OnResponse` | src/modules/gossip/gossip.service.ts:923-958 | Exactly when a validation starts, that it is remembered and charged to the connection that responded, and that a fresh response below its connection's cap always starts one while the responding connections fit the budget. |
| `Collector.PendingCoSign.OnVerdict` | src/modules/gossip/gossip.service.ts:949-975 | Only a success with a new key is counted; the threshold resolves, once. |
| `Collector.PendingCoSign.OnTimeout` | src/modules/gossip/gossip.service.ts:840-846 | The timeout resolves with what was validated and never re-resolves. |
| `Collector.AnyOrder` | src/modules/gossip/gossip.service.ts:822-975 | For every arrival and validation order: resolved once, with distinct validated keys, at most the threshold. |
| `SignerMask.SameSlots` | src/modules/audit/slash-consensus.ts:115-129 | A mask is determined by its slots. |
| `SignerMask.SlotCount` | src/modules/audit/slash-consensus.ts:115-129 | The number of set bits is the number of slots. |
| `SignerMask.BuildSignerMask` | src/modules/audit/slash-consensus.ts:115-129 | Throws exactly on a slot outside 1..13; otherwise the mask is below 2^13 and selects exactly the given slots, one bit per distinct slot. |
| `SignerMask.MaskRoundTrip` | src/modules/audit/slash-consensus.ts:115-129 | Building from the slots of any mask below 2^13, in any order and with repetitions, gives the mask back. |
| `SignerMask.AscendingIsSelected` | src/modules/audit/slash-consensus.ts:115-129 | An ascending list of exactly the slots of a mask is the list of its selected slots. |
| `SignerMask.ProofRoundTrip` | src/modules/audit/guardian-fraud-proof.ts:41-47 | Decoding an encoded proof returns the same mask and the same signature. |
| `SignerMask.FillsWords` | src/modules/audit/guardian-fraud-proof.ts:41-47 | The encoding fills whole 32-byte words. |
| `SignerMask.OrderSigners` | src/modules/audit/guardian-fraud-proof.ts:79-111 | Throws exactly on a high bit, a zero slot or two slots with one address; otherwise exactly the selected addresses, strictly ascending, one per bit. |
| `SignerMask.CollectSigners` | src/modules/audit/guardian-fraud-proof.ts:90-98 | The slot loop yields the selected addresses in slot order and stops exactly at a zero slot. |
| `SignerMask.IsStrictlyAscending` | src/modules/audit/guardian-fraud-proof.ts:105-109 | The neighbour check decides strict order of the whole list. |
| `SignerMask.AssertCanonicalSigners` | src/modules/audit/bls-consensus-domain.ts:110-122 | Passes exactly the strictly ascending lists without the zero address. |
| `SignerMask.AssertCanonicalClaimedSigners` | src/modules/audit/guardian-fraud-proof-assembler.ts:45-62 | The same, and between 1 and 13 signers. |
| `SignerMask.BuildGuardianSignerRecord` | src/modules/audit/guardian-slash-watcher.core.ts:42-141 | Built exactly if the call decodes to this proposal and its mask resolves; a record's signers are exactly the addresses its mask selects, in canonical order, and it is verified exactly when the commitment matches. |
| `SignerMask.SignerSetUnique` | src/modules/audit/guardian-slash-watcher.core.ts:42-141 | A strictly ascending list is determined by its addresses, so a source has one canonical signer list. |
| `SignerMask.NonZeroMask` | src/modules/audit/guardian-fraud-proof-assembler.ts:45-62 | A mask below 2^13 is non-zero exactly when it selects a slot. |
| `SignerMask.RecordIsAssemblable` | src/modules/audit/guardian-fraud-proof-assembler.ts:45-62 | A built record passes the assembler's check exactly when its mask is not zero. |
| `EventReplay.ReplayIsLastEvent` | src/modules/blockchain/blockchain.service.ts:1738-1745 | Replaying a sorted log leaves exactly the users whose last event is an add. |
| `EventReplay.ReplayIsMembership` | src/modules/blockchain/blockchain.service.ts:1738-1745 | Whatever order the events were gathered in, sorting and replaying gives the members of the range. |
| `EventReplay.ScanRange` | src/modules/blockchain/blockchain.service.ts:1695-1732 | For every pattern of failures: a scan that does not throw gathers exactly the range, each event once and within the limit; it throws only at a block that fails when asked for alone, or on too many events. |
| `EventReplay.DeriveRoleMembers` | src/modules/blockchain/blockchain.service.ts:1665-1746 | For every chunk size and failure pattern: a derivation that does not throw is exactly the plain replay of the range, and the range then holds no more events than the limit; with no failing single block and no more events it does not throw. |
| `EventReplay.LatestIsReplay` | src/modules/blockchain/blockchain.service.ts:1144-1153 | The latest flip decides the replayed flag. |
| `EventReplay.IsSlashPendingFromEvents` | src/modules/blockchain/blockchain.service.ts:1098-1153 | Determinate exactly if the events can be read; true only if replaying all flips leaves the flag set; a determinate answer is exact up to flags set before the window. |
| `WalletFifo.EarlierEnded` | src/modules/blockchain/blockchain.service.ts:104-113 | When a broadcast may start, every earlier one has ended. |
| `WalletFifo.OneAtATime` | src/modules/blockchain/blockchain.service.ts:104-113 | At most one broadcast body runs at a time. |
| `WalletFifo.NeverStuck` | src/modules/blockchain/blockchain.service.ts:104-113 | A broadcast whose outcome is open always has a step enabled at or before it, whatever earlier ones did. |
| `WalletFifo.NothingRemains` | src/modules/blockchain/blockchain.service.ts:104-113 | The step count is zero exactly when every outcome is in. |
| `WalletFifo.NothingPending` | src/modules/blockchain/blockchain.service.ts:95-97 | No unfinished operation is counted exactly when all slash operations are over. |
| `WalletFifo.OperatorWallet.EnqueueWalletWrite` | src/modules/blockchain/blockchain.service.ts:104-113 | A new broadcast joins the end of the chain. |
| `WalletFifo.OperatorWallet.StartBody` | src/modules/blockchain/blockchain.service.ts:105-105 | Bodies start in enqueue order, alone, after success or failure of the one before. |
| `WalletFifo.OperatorWallet.EndBody` | src/modules/blockchain/blockchain.service.ts:104-113 | A body may end either way; one step less remains. |
| `WalletFifo.OperatorWallet.HideOutcome` | src/modules/blockchain/blockchain.service.ts:108-111 | The chain goes on whatever the outcome; one step less remains. |
| `WalletFifo.OperatorWallet.RunWithSlashPriority` | src/modules/blockchain/blockchain.service.ts:121-131 | Counted before anything else runs. |
| `WalletFifo.OperatorWallet.SlashStep` | src/modules/blockchain/blockchain.service.ts:121-131 | Uncounted exactly once, when the operation's `finally` runs. |
| `WalletFifo.OperatorWallet.HasPendingSlashWrite` | src/modules/blockchain/blockchain.service.ts:95-97 | True exactly while some slash operation is unfinished. |
| `WalletFifo.AnyRun` | src/modules/blockchain/blockchain.service.ts:95-131 | In every interleaving: one body at a time, starts in enqueue order, the counter equal to the unfinished slash operations. |
| `AttestLoop.BumpedFees` | src/utils/gas.util.ts:16-35 | Priority at least the floor and at most the maximum fee, neither below the estimate nor more than 15% above it, except for the floor and twice the priority. |
| `AttestLoop.NextAttestFees` | src/modules/blockchain/blockchain.service.ts:755-771 | A replacement raises both fields by at least 12.5% and strictly, follows the estimate, keeps priority below the maximum and pays no more than either calls for. |
| `AttestLoop.RaisedTransitive` | src/modules/blockchain/blockchain.service.ts:755-771 | Raising composes over several replacements. |
| `AttestLoop.NextTry` | src/modules/blockchain/blockchain.service.ts:855-878 | A try with the next fees outbids every try since the nonce was read, at the same nonce. |
| `AttestLoop.GivesWay` | src/modules/blockchain/blockchain.service.ts:857-869 | Gives way only with nothing broadcast and a pending slash; otherwise the last look before a first send saw none. |
| `AttestLoop.Offer` | src/modules/blockchain/blockchain.service.ts:863-877 | Fees, second look and send keep all fee and priority rules. |
| `AttestLoop.Broadcast` | src/modules/blockchain/blockchain.service.ts:855-878 | The same for the whole part under the lock, with the nonce read once per baseline and two looks at the slash counter before a first send. |
| `AttestLoop.Reconcile` | src/modules/blockchain/blockchain.service.ts:815-826 | A hit was broadcast and had status 1; without a hit none was read. |
| `AttestLoop.MaxSends` | src/modules/blockchain/blockchain.service.ts:806-810 | The setting if it is a positive integer, at most 10, and 3 for anything else. |
| `AttestLoop.Recover` | src/modules/blockchain/blockchain.service.ts:879-903 | Which failures go on, with which nonce and baseline, and which end the loop, exactly. |
| `AttestLoop.AwaitReceipt` | src/modules/blockchain/blockchain.service.ts:904-916 | Goes on exactly after a timeout; a failed receipt is final. |
| `AttestLoop.Iterate` | src/modules/blockchain/blockchain.service.ts:852-916 | One iteration is one more send or one more recovery and keeps the loop invariant. |
| `AttestLoop.AfterSend` | src/modules/blockchain/blockchain.service.ts:904-916 | The wait after a broadcast. |
| `AttestLoop.AfterFault` | src/modules/blockchain/blockchain.service.ts:879-903 | The recovery after a failed step. |
| `AttestLoop.RereadsStep` | src/modules/blockchain/blockchain.service.ts:862-892 | The nonce is read again only after one was consumed. |
| `AttestLoop.AttestLiveness` | src/modules/blockchain/blockchain.service.ts:793-922 | At most maxSends + maxRecoveries + 1 iterations; success exactly when a status-1 receipt was read for a broadcast hash; gives up early only for a reason that occurred, a revert only with a failed receipt of the last send; if all that goes wrong are timeouts, exactly maxSends replacements; a nonce is read again only after one was consumed; fee and priority rules over all tries. |
| `HeartbeatLedger.AdvancedTransitive` | src/modules/gossip/gossip.service.ts:761-776 | Over any number of updates authTs strictly increases and seen never moves back by 5000 ms or more. |
| `HeartbeatLedger.GossipLiveness.AllowHeartbeatVerify` | src/modules/gossip/gossip.service.ts:663-691 | Admits exactly while both windows have room; counts and windows move exactly as stated. |
| `HeartbeatLedger.GossipLiveness.HandleHeartbeat` | src/modules/gossip/gossip.service.ts:607-656 | A verification starts exactly for a heartbeat that is not future-dated, has budget and whose success would change the ledger; anything else changes nothing. |
| `HeartbeatLedger.GossipLiveness.OnVerified` | src/modules/gossip/gossip.service.ts:653-655 | A failed check leaves the ledger alone; a late success sets its own entry to the signed time, seen no later than now, exactly if it is relevant, newer and fits. |
| `HeartbeatLedger.GossipLiveness.RecordLiveness` | src/modules/gossip/gossip.service.ts:761-776 | The entry changes exactly for a relevant node with a newer signature or free room. |
| `HeartbeatLedger.Canonicalize` | src/modules/gossip/gossip.service.ts:710-712 | The relevant set is the set of lower-cased ids. |
| `HeartbeatLedger.Prune` | src/modules/gossip/gossip.service.ts:716-718 | The loop keeps exactly the relevant entries, unchanged. |
| `HeartbeatLedger.GossipLiveness.SetRelevantNodeIds` | src/modules/gossip/gossip.service.ts:709-719 | Replaces the set and prunes the ledger to it. |
| `HeartbeatLedger.GossipLiveness.GetLastSeen` | src/modules/gossip/gossip.service.ts:786-788 | The stored time of the entry, which rests on a verified signature of that node at most 5000 ms ahead of it. |
| `HeartbeatLedger.AnyRun` | src/modules/gossip/gossip.service.ts:607-776 | Over every run with asynchronous checks: keys within the relevant set, at most 4096, and nodes that stay relevant stay and only advance. |
| `Watchdog.DueAfterAThird` | src/modules/audit/liveness-keeper.service.ts:338-346 | An attest is due exactly once more than a third of the window has passed since the registry's last one and since the own recorded one, if any. |
| `Watchdog.PeriodMs` | src/modules/audit/liveness-keeper.service.ts:414-422 | The wished period, clamped between 5 and 60 seconds. |
| `Watchdog.LivenessKeeper.ArmWatchdog` | src/modules/audit/liveness-keeper.service.ts:264-268 | Exactly one timer afterwards, none once stopping. |
| `Watchdog.LivenessKeeper.Shutdown` | src/modules/audit/liveness-keeper.service.ts:192-202 | No watchdog timer survives. |
| `Watchdog.LivenessKeeper.TimerFires` | src/modules/audit/liveness-keeper.service.ts:285-297 | The next timer is armed before any await, with the fallback delay, also when a cycle is already running. |
| `Watchdog.LivenessKeeper.EndCycle` | src/modules/audit/liveness-keeper.service.ts:407-410 | Whatever happened, the cycle ends and the next one is armed. |
| `Watchdog.LivenessKeeper.HeadAnswers` | src/modules/audit/liveness-keeper.service.ts:308-309 | Goes on exactly with a head and without shutdown; a failure is counted. |
| `Watchdog.LivenessKeeper.TickBegins` | src/modules/audit/liveness-keeper.service.ts:214-220 | An attest begins exactly if none is in flight and no shutdown has begun, so at most one is ever in flight, from either timer. |
| `Watchdog.LivenessKeeper.TickEnds` | src/modules/audit/liveness-keeper.service.ts:236-238 | The attest in flight ends and the next may begin. |
| `Watchdog.LivenessKeeper.RegistryAnswers` | src/modules/audit/liveness-keeper.service.ts:310-351 | A plausible sample is recorded with the baseline in force, and attests exactly if its budget is spent and the baseline passed; anything else ends the cycle. |
| `Watchdog.LivenessKeeper.UseSample` | src/modules/audit/liveness-keeper.service.ts:338-351 | The decision on a plausible sample; the attest is the cycle's own unless one is in flight. |
| `Watchdog.LivenessKeeper.AttestAnswers` | src/modules/audit/liveness-keeper.service.ts:351-374 | The head is recorded exactly after a confirmed attest of this cycle. |
| `Watchdog.LivenessKeeper.RecordConfirmed` | src/modules/audit/liveness-keeper.service.ts:368-369 | The head of the confirmed cycle becomes the baseline, far enough from the last one. |
| `Watchdog.TraceConfirm` | src/modules/audit/liveness-keeper.service.ts:368-369 | The baseline moves exactly to the head of a due cycle whose attest confirmed. |
| `Watchdog.RecordedFarApart` | src/modules/audit/liveness-keeper.service.ts:345-346 | A due cycle's head is more than its budget from the last recorded one. |
| `Watchdog.LivenessKeeper.MeasureAnswers` | src/modules/audit/liveness-keeper.service.ts:382-388 | The measurement ends the cycle, arms the next one after the period it calls for and clears the failures; it never decides an attest. |
| `Watchdog.AnyRun` | src/modules/audit/liveness-keeper.service.ts:285-411 | In every interleaving, whatever is read: recorded heads more than the sampled budget (at least 33) apart unless the earlier one is block 0; at most one attest in flight; until shutdown exactly one timer; and if the run's reads were honest and its attests prompt, head minus lastLive at most window/3 + g + d. |
| `Watchdog.GenesisRepeats` | src/modules/audit/liveness-keeper.service.ts:340-374 | A run in which two attests confirmed at block 0 are recorded next to each other. |
| `Watchdog.LastLiveIsLatest` | src/modules/audit/liveness-keeper.service.ts:310-319 | The registry's value at a block is the latest landing by then. |
| `Watchdog.BaselineIsOlder` | src/modules/audit/liveness-keeper.service.ts:351-374 | In a run of the keeper with honest reads the baseline is older than the last attest. |
| `Watchdog.NeverSuppressed` | src/modules/audit/liveness-keeper.service.ts:338-346 | In a run of the keeper with honest reads the suppression never blocks a due attest. |
| `Watchdog.StaysLive` | src/modules/audit/liveness-keeper.service.ts:285-411 | In a run of the keeper, cycles at most g blocks apart and inclusion within d blocks keep head minus lastLive at most window/3 + g + d, once the first cycle had time to attest. |
| `KeyConsistency.Combine` | src/modules/node/node-key-consistency.service.ts:647-658 | A mismatch is never hidden, ok needs both dimensions, unknown only from an unreadable chain without a local mismatch. |
| `KeyConsistency.HeldIsLatestConclusion` | src/modules/node/node-key-consistency.service.ts:347-377 | The held status is that of the latest conclusive attempt. |
| `KeyConsistency.HeldIsUnknown` | src/modules/node/node-key-consistency.service.ts:347-377 | It is unknown only if no attempt was conclusive. |
| `KeyConsistency.NextDelay` | src/modules/node/node-key-consistency.service.ts:297-303 | Between 30 s and 15 min, shorter than the cadence exactly for the first four unknowns in a row. |
| `KeyConsistency.BackoffDoubles` | src/modules/node/node-key-consistency.service.ts:297-303 | The short delays start at 30 s and double. |
| `KeyConsistency.Drive` | src/modules/node/node-key-consistency.service.ts:164-172 | A new attempt is the only driver of its loop. |
| `KeyConsistency.OneDriver` | src/modules/node/node-key-consistency.service.ts:201-244 | Attempts in flight plus pending timers of the current generation number exactly one while running and none once stopped. |
| `KeyConsistency.HandOver` | src/modules/node/node-key-consistency.service.ts:226-239 | A stale attempt leaves the driver alone; the current one hands over to exactly one timer. |
| `KeyConsistency.MergeOk` | src/modules/node/node-key-consistency.service.ts:347-377 | Merging an attempt matches the history of the loop and never replaces a conclusion by unknown. |
| `KeyConsistency.NodeKeyConsistency.Stop` | src/modules/node/node-key-consistency.service.ts:176-183 | No timer nor handle, and every attempt in flight is stale. |
| `KeyConsistency.NodeKeyConsistency.Start` | src/modules/node/node-key-consistency.service.ts:164-172 | A new generation for the new identity, holding nothing, driven by its own attempt. |
| `KeyConsistency.NodeKeyConsistency.ClearResult` | src/modules/node/node-key-consistency.service.ts:191-194 | Forgets the result and leaves the loop running. |
| `KeyConsistency.NodeKeyConsistency.CheckReturns` | src/modules/node/node-key-consistency.service.ts:322-381 | A stale attempt publishes nothing; a current one is merged without a downgrade. |
| `KeyConsistency.NodeKeyConsistency.Publish` | src/modules/node/node-key-consistency.service.ts:347-377 | The held result is the summary of the loop's history. |
| `KeyConsistency.NodeKeyConsistency.RecordCheckerError` | src/modules/node/node-key-consistency.service.ts:256-285 | The conclusion stays and is visibly marked. |
| `KeyConsistency.NodeKeyConsistency.Reschedule` | src/modules/node/node-key-consistency.service.ts:226-239 | Schedules exactly when current and running, after the delay that its unknowns call for. |
| `KeyConsistency.NodeKeyConsistency.CheckThrows` | src/modules/node/node-key-consistency.service.ts:206-239 | A stale throw leaves no trace; a current one is recorded and the loop goes on. |
| `KeyConsistency.NodeKeyConsistency.TimerFires` | src/modules/node/node-key-consistency.service.ts:232-235 | The timer is replaced by the next attempt. |
| `KeyConsistency.AnyRun` | src/modules/node/node-key-consistency.service.ts:164-285 | In every interleaving: exactly one attempt or timer drives a running loop, a held result carries the latest started identity, and without clearResult a conclusion is never replaced by unknown within a generation. |
| `GossipFlood.OneHop` | src/modules/gossip/gossip.service.ts:980-999 | f + ... + f^t is f copies, each worth the sum for one hop less. |
| `GossipFlood.HopPays` | src/modules/gossip/gossip.service.ts:980-999 | Forwarding spends no more than the delivered copy was worth. |
| `GossipFlood.FanoutBounds` | src/modules/gossip/gossip.service.ts:1457-1460 | The copies a delivery makes are bounded over all networks exactly when the fanout is not negative. |
| `GossipFlood.NegativeFanoutFloods` | src/modules/gossip/gossip.service.ts:1457-1460 | A fanout of -1 keeps all peers but one. |
| `GossipFlood.SelectRandomPeers` | src/modules/gossip/gossip.service.ts:1457-1460 | Any choice of the right size, for every fanout, distinct and among the available peers. |
| `GossipFlood.SendAll` | src/modules/gossip/gossip.service.ts:994-998 | One copy per chosen peer with the lowered budget; the peers are remembered. |
| `GossipFlood.Forward` | src/modules/gossip/gossip.service.ts:985-998 | One copy for each chosen peer and for no other. |
| `GossipFlood.Mesh.Propagate` | src/modules/gossip/gossip.service.ts:980-999 | Forwards to as many of the peers that are neither the sender nor served before as the fanout makes of them, and remembers them; forwards plus remaining weight grow by at most the copy's cost. |
| `GossipFlood.Mesh.Accept` | src/modules/gossip/gossip.service.ts:430-438 | A new message is remembered and propagated once. |
| `GossipFlood.Mesh.Deliver` | src/modules/gossip/gossip.service.ts:375-438 | A known, spent or just cleaned message is not forwarded; a new one is, to the exact number of peers; the weight never grows. |
| `GossipFlood.Mesh.Forget` | src/modules/gossip/gossip.service.ts:1198-1215 | Forgetting a message never breaks the hop bound. |
| `GossipFlood.OneCopy` | src/modules/gossip/gossip.service.ts:375-438 | One copy with budget t in any network: at most f + f^2 + ... + f^t forwards and one delivery more, and at most f per node while none forgets; f is the fanout, or for a negative one the connections per node less its amount. |
| `CanonicalJson.TextLeTotal` | src/modules/audit/proof-archive.ts:229-231 | The key order is total and antisymmetric. |
| `CanonicalJson.TextLeByUnits` | src/modules/audit/proof-archive.ts:229-231 | At the first differing unit the smaller one comes first, and a prefix before its extension. |
| `CanonicalJson.OrderedElements` | src/modules/audit/proof-archive.ts:229-231 | The written fields are exactly the defined ones, sorted. |
| `CanonicalJson.AscendingUnique` | src/modules/audit/proof-archive.ts:229-232 | A strictly ascending field list is determined by its elements. |
| `CanonicalJson.CanonDetermines` | src/modules/audit/proof-archive.ts:217-233 | The text depends on the normal form only. |
| `CanonicalJson.SameHasOneCanon` | src/modules/audit/proof-archive.ts:217-233 | Values that agree up to key order and undefined keys have one normal form. |
| `CanonicalJson.CanonIsSame` | src/modules/audit/proof-archive.ts:217-233 | Values with one normal form agree. |
| `CanonicalJson.ExampleText` | src/modules/audit/proof-archive.ts:217-233 | The exact text of an object with two keys in the wrong order. |
| `CanonicalJson.StringRoundTrip` | src/modules/audit/proof-archive.ts:219-219 | Parsing an escaped string gives the string back, surrogates included. |
| `CanonicalJson.NatRoundTrip` | src/modules/audit/proof-archive.ts:219-219 | Parsing printed digits gives the number back. |
| `CanonicalJson.ElemRoundTrip` | src/modules/audit/proof-archive.ts:221-223 | An array element, also an undefined one, is read back from its text. |
| `CanonicalJson.ValueRoundTrip` | src/modules/audit/proof-archive.ts:217-233 | The parser undoes the serialization of every value without an `[undefined]`, whatever follows, and yields the normal form. |
| `CanonicalJson.PreimageIsCanonical` | src/modules/audit/proof-archive.ts:217-244 | Equal texts exactly for values that agree up to key order and undefined-valued keys, for all values without an array that holds undefined alone. |
| `CanonicalJson.PreimageUpToHoles` | src/modules/audit/proof-archive.ts:217-244 | For all values: equal texts exactly if they agree once every `[undefined]` is an `[]`. |
| `CanonicalJson.FillKeepsText` | src/modules/audit/proof-archive.ts:221-223 | Replacing every `[undefined]` by `[]` does not change the text. |
| `CanonicalJson.UndefinedElementCollides` | src/modules/audit/proof-archive.ts:221-223 | Every value that holds an `[undefined]` shares its text with a value that differs. |
| `CanonicalJson.PreimageWellFormed` | src/modules/audit/proof-archive.ts:242-244 | The text never holds a lone surrogate, so its UTF-8 conversion never fails. |
| `Bytes.BigEndianRoundTrip` | src/utils/bls.util.ts:7-10 | A number that fits is recovered from its bytes. |
| `Eip2537.PaddedIsFixed` | src/utils/bls.util.ts:7-10 | `toString(16).padStart` of a number that fits is its fixed-length form. |
| `Eip2537.HexOfBigEndian` | src/modules/bls/bls.service.ts:348-351 | The hex text of a number's bytes is its fixed-length digits. |
| `Eip2537.HexToBytes` | src/utils/bls.util.ts:19-25 | For every text the loop yields the byte that parseInt makes of each pair; an odd last character is ignored. |
| `Eip2537.CoordinateBytes` | src/utils/bls.util.ts:7-10 | The detour over text gives the 48 big-endian bytes of a coordinate. |
| `Eip2537.FourOverlays` | src/utils/bls.util.ts:12-15 | Four coordinates written at their offsets make up the layout. |
| `Eip2537.EncodeG2Point` | src/utils/bls.util.ts:3-17 | The 256-byte layout, c0 before c1, each padded to 64 bytes. |
| `Eip2537.G2ToEip2537` | signer/src/bls.rs:55-68 | The reordered and padded layout of any 192 serialized bytes. |
| `Eip2537.EncodersAgree` | signer/src/bls.rs:49-68 | For all coordinates below 2^384 the TypeScript and Rust encoders give the same 256 bytes. |
| `Eip2537.EncodeG1Point` | src/modules/bls/bls.service.ts:353-363 | The 128-byte layout. |
| `Eip2537.G1RoundTrip` | src/modules/node/node-key-consistency.service.ts:593-611 | The parser's slices recover exactly the coordinates that were written, and its padding check passes. |
| `Eip2537.G1Canonical` | src/modules/node/node-key-consistency.service.ts:593-611 | An accepted text is the encoding of what it parsed to exactly when it holds digits only; its coordinates fit. |
| `Eip2537.WhiteSpaceIsAccepted` | src/modules/node/node-key-consistency.service.ts:603-604 | Every point with a coordinate below 16^95, the generator among them, has a second accepted text with a space in that coordinate, which parses to the same point. |

## Left out

- BLS pairing, hash-to-curve, keccak and ABI coding: abstract functions, injective where a message is rebuilt from its hash.
- The Solidity contracts: only the pending flag, the executed events and the success or failure of a write are modelled; an execute clears the flag.
- Other nodes' queues and executes, owner cancellations, and transactions that land after the process that sent them died: the code itself leaves full prevention to a contract change.
- Dry-run drills, which store a sentinel transaction.
- SlashPipeline.AuditService: projected on one operator, rule and level; other keys act only through evictions, and the clock is read once per call.
- SlashPipeline.AuditService.AssessSlashState: a determinate executed-scan is never falsely negative and a pending read never falsely positive; every other read may fail or, outside `truthful` runs, lie.
- SlashPipeline.AuditService.HandleViolation: assumes that violation blocks do not go back while answers count as truthful.
- GuardianWatcher.AnyRun: an entry that the listing shows as unreadable is parked with an arbitrary count, and says nothing about the number of writes.
- GuardianWatcher.Watcher.ScanToHead: an unreadable cursor restarts at fromBlock, so the cursor itself may move back; coverage does not.
- EventReplay.IsSlashPendingFromEvents: a flag set before the lookback window reads as clear, as in the code.
- Collector.PendingCoSign.OnResponse: the exact-resend key is the response itself; the collector is modelled with a validator and keyed by slot, as the co-signer uses it.
- Quorum.CoSigner.CoSign: the aggregation of the signatures it returns is a library call.
- CanonicalJson.PreimageIsCanonical: numbers are integers that JavaScript prints without an exponent; the hash of the text is not modelled.
- Eip2537.G1RoundTrip: stops at the coordinates; the curve check and the compressed format are library code.
- KeyConsistency.NodeKeyConsistency: the time stamps, `derivedMatches` and `scope` of a result.
- Watchdog.StaysLive: assumes of the environment that reads are honest, heads do not go back, a due attest is included within d blocks, a confirmed one is seen by the next head, and lastLive is the block it landed in.
- GossipFlood.OneCopy: integer hop budgets; handlers that send new messages of their own are not followed.
- Throttle guard, relay limits, price keeper, confirmation tokens, policy decoding, dashboard, endpoint validation, key storage, logging and metrics: smaller or easier claims, or plumbing.
