/**
 * The armed slash pipeline of AuditService (queue -> createProposal -> execute), with crashes.
 *
 * The service is projected on one coarse key `chainId|operator|rule` and its slash level, so the
 * sets and maps keyed by coarse key become single fields and those keyed by stable key become
 * collections of violation blocks.  Other operators reach this projection only through the size
 * caps, which are the free step `Evict`.
 *
 * Every `await` of the source is a call of `Await`: the chain head may grow there, and the process
 * may die there.  A crashed call returns at once; what it leaves in `archive`, `journal` and on the
 * chain is what the next process finds after `Restart`.
 */
module SlashPipeline {
  import opened Options

  type Tx = nat

  /** The 8-field execute preimage; its hash is injective, so the model keeps what it binds. */
  datatype Preimage = Preimage(proposalId: nat, epoch: nat)

  /** What a landed transaction did. */
  datatype Action = QueueSlash(epoch: nat) | CreateProposal | ExecuteSlash(preimage: Preimage)

  /**
   * The chain as seen for this operator and level: the head, the SuperPaymaster pending flag, the
   * blocks of the executed-slash events, the number of landed queues, and every landed transaction.
   */
  datatype Chain = Chain(
    head: nat,
    slashPending: bool,
    execs: seq<nat>,
    queues: nat,
    landed: seq<Action>)

  function Mine(c: Chain, blocks: nat): Chain {
    c.(head := c.head + blocks)
  }

  function LandQueue(c: Chain, epoch: nat): Chain {
    c.(slashPending := true, queues := c.queues + 1, landed := c.landed + [QueueSlash(epoch)])
  }

  function LandProposal(c: Chain): Chain {
    c.(landed := c.landed + [CreateProposal])
  }

  function LandExecute(c: Chain, p: Preimage): Chain {
    c.(slashPending := false, execs := c.execs + [c.head], landed := c.landed + [ExecuteSlash(p)])
  }

  /** Every executed event is older than the `lookback` window that ends at the head. */
  predicate Outside(c: Chain, lookback: nat) {
    forall i | 0 <= i < |c.execs| :: c.execs[i] + lookback < c.head
  }

  /** Every execute landed after all earlier ones had left the lookback window. */
  ghost predicate Spaced(execs: seq<nat>, lookback: nat) {
    forall i, j | 0 <= i < j < |execs| :: execs[i] + lookback < execs[j]
  }

  ghost predicate ChainOk(c: Chain, lookback: nat) {
    && Spaced(c.execs, lookback)
    && (forall i | 0 <= i < |c.execs| :: c.execs[i] <= c.head)
    && (c.slashPending ==> Outside(c, lookback))
    && |c.execs| + (if c.slashPending then 1 else 0) <= c.queues
  }

  /** What has happened on a chain. */
  datatype History = History(execs: seq<nat>, landed: seq<Action>)

  function Past(c: Chain): History {
    History(c.execs, c.landed)
  }

  /** History is permanent. */
  ghost predicate Extends(before: Chain, after: Chain) {
    before.head <= after.head && before.execs <= after.execs && before.landed <= after.landed
  }

  lemma MineOk(c: Chain, blocks: nat, lookback: nat)
    requires ChainOk(c, lookback)
    ensures ChainOk(Mine(c, blocks), lookback) && Extends(c, Mine(c, blocks))
    ensures Outside(c, lookback) ==> Outside(Mine(c, blocks), lookback)
  {
  }

  lemma LandQueueOk(c: Chain, epoch: nat, lookback: nat)
    requires ChainOk(c, lookback) && Outside(c, lookback)
    ensures ChainOk(LandQueue(c, epoch), lookback) && Extends(c, LandQueue(c, epoch))
  {
  }

  lemma LandExecuteOk(c: Chain, p: Preimage, lookback: nat)
    requires ChainOk(c, lookback) && c.slashPending
    ensures ChainOk(LandExecute(c, p), lookback) && Extends(c, LandExecute(c, p))
  {
  }

  /** The executes whose events a scan at `head` sees. */
  ghost function Visible(execs: seq<nat>, lookback: nat, head: nat): set<nat> {
    set i | 0 <= i < |execs| && execs[i] <= head <= execs[i] + lookback
  }

  /** At most one slash per window: no head ever sees two executes inside its lookback. */
  lemma AtMostOneSlashPerWindow(c: Chain, lookback: nat, head: nat)
    requires ChainOk(c, lookback)
    ensures |Visible(c.execs, lookback, head)| <= 1
  {
    var v := Visible(c.execs, lookback, head);
    if v != {} {
      var i :| i in v;
      assert v == {i} by {
        assert forall j | j in v :: j == i;
      }
    }
  }

  // ---- The durable record --------------------------------------------------------------------

  /** The fields of the archived SlashProof that the orchestration changes; None is null, unset or "0x". */
  datatype SlashProof = SlashProof(
    queueTx: Option<Tx>,
    proposalTx: Option<Tx>,
    proposalId: Option<nat>,
    executeTx: Option<Tx>,
    messageHash: Option<Preimage>,
    intendedHash: Option<Preimage>)

  /** A proposal was filed in between. */
  ghost predicate Filed(before: seq<Action>, after: seq<Action>) {
    exists tx :: |before| <= tx < |after| && after[tx] == CreateProposal
  }

  ghost predicate Did(landed: seq<Action>, tx: Tx, a: Action) {
    tx < |landed| && landed[tx] == a
  }

  /** A stored snapshot for violation block `epoch`: internally consistent and true of the chain. */
  ghost predicate RecordOk(p: SlashProof, epoch: nat, landed: seq<Action>) {
    && (p.executeTx.Some? <==> p.messageHash.Some?)
    && (p.queueTx.Some? ==> Did(landed, p.queueTx.value, QueueSlash(epoch)))
    && (p.proposalTx.Some? ==> Did(landed, p.proposalTx.value, CreateProposal))
    && (p.executeTx.Some? ==>
          && p.intendedHash.None?
          && p.messageHash.value.epoch == epoch
          && Did(landed, p.executeTx.value, ExecuteSlash(p.messageHash.value)))
  }

  /** A stored transaction keeps its value unless one that landed at `mark` or later replaces it. */
  predicate KeptTx(before: Option<Tx>, after: Option<Tx>, mark: nat) {
    before.Some? ==> after == before || (after.Some? && after.value >= mark)
  }

  /** Rewriting `before` as `after` loses no durable progress made before `mark`. */
  ghost predicate Keeps(before: SlashProof, after: SlashProof, mark: nat) {
    && KeptTx(before.queueTx, after.queueTx, mark)
    && KeptTx(before.proposalTx, after.proposalTx, mark)
    && (before.proposalId.Some? ==> after.proposalId.Some?)
    && (before.executeTx.Some? ==>
          && after.executeTx == before.executeTx
          && after.messageHash == before.messageHash
          && after.queueTx == before.queueTx)
  }

  /** What a call may write: transactions landed at `mark` or later, and the proposal ids it filed or reused. */
  datatype Call = Call(mark: nat, ids: set<nat>)

  ghost predicate Grows(before: Call, after: Call) {
    before.mark == after.mark && before.ids <= after.ids
  }

  function With(call: Call, id: Option<nat>): (r: Call)
    ensures Grows(call, r)
  {
    if id.Some? then call.(ids := call.ids + {id.value}) else call
  }

  /** `after` loses nothing of `before`, and a proposal id is replaced only by one of the call's own. */
  ghost predicate Follows(before: SlashProof, after: SlashProof, call: Call) {
    && Keeps(before, after, call.mark)
    && (before.proposalId.Some? ==> after.proposalId == before.proposalId || after.proposalId.value in call.ids)
  }

  /** Some durable progress is recorded. */
  predicate HasProgress(p: SlashProof) {
    p.queueTx.Some? || p.proposalTx.Some? || p.proposalId.Some? || p.executeTx.Some?
  }

  /** Whether rewriting `stored` on the strength of the read `archived` loses progress. */
  predicate Loses(stored: SlashProof, archived: Option<SlashProof>) {
    stored.executeTx.Some? || (archived.None? && HasProgress(stored))
  }

  ghost predicate ArchiveOk(archive: map<nat, SlashProof>, landed: seq<Action>) {
    forall b | b in archive :: RecordOk(archive[b], b, landed)
  }

  /** Only the record of `epoch` changed, and it lost nothing. */
  ghost predicate Rewrites(before: map<nat, SlashProof>, after: map<nat, SlashProof>, epoch: nat, call: Call) {
    epoch in before && epoch in after && Follows(before[epoch], after[epoch], call) && Others(before, after, epoch)
  }

  /** Every record but that of `epoch` is unchanged. */
  ghost predicate Others(before: map<nat, SlashProof>, after: map<nat, SlashProof>, epoch: nat) {
    forall b | b in before && b != epoch :: b in after && after[b] == before[b]
  }

  /** No record is ever lost or set back, and a record with an execute never changes again. */
  ghost predicate Durable(before: map<nat, SlashProof>, after: map<nat, SlashProof>, mark: nat) {
    forall b | b in before ::
      && b in after
      && Keeps(before[b], after[b], mark)
      && (before[b].executeTx.Some? ==> after[b] == before[b])
  }

  /** Nothing is lost, and this block's proposal id is replaced only by one of the call's own. */
  ghost predicate Safe(before: map<nat, SlashProof>, after: map<nat, SlashProof>, epoch: nat, call: Call) {
    Durable(before, after, call.mark) && (epoch in before ==> Follows(before[epoch], after[epoch], call))
  }

  lemma RewritesIsDurable(a0: map<nat, SlashProof>, a1: map<nat, SlashProof>, a2: map<nat, SlashProof>, epoch: nat,
                          before: Call, after: Call)
    requires Safe(a0, a1, epoch, before) && Rewrites(a1, a2, epoch, after) && Grows(before, after)
    requires epoch in a0 ==> a0[epoch].executeTx.None?
    ensures Safe(a0, a2, epoch, after)
  {
    forall b | b in a0
      ensures b in a2 && Keeps(a0[b], a2[b], after.mark) && (a0[b].executeTx.Some? ==> a2[b] == a0[b])
    {
      assert b in a1 && Keeps(a0[b], a1[b], after.mark);
      assert b in a2 && (b == epoch || a2[b] == a1[b]);
    }
  }

  lemma RewritesTransitive(a0: map<nat, SlashProof>, a1: map<nat, SlashProof>, a2: map<nat, SlashProof>, epoch: nat,
                           before: Call, after: Call)
    requires Rewrites(a0, a1, epoch, before) && Rewrites(a1, a2, epoch, after) && Grows(before, after)
    ensures Rewrites(a0, a2, epoch, after)
  {
  }

  lemma ArchiveOkExtends(archive: map<nat, SlashProof>, before: seq<Action>, after: seq<Action>)
    requires ArchiveOk(archive, before) && before <= after
    ensures ArchiveOk(archive, after)
  {
  }

  /** A block marked for retry has a stored record without an execute, unless `busy` is just executing it. */
  ghost predicate RetryOk(retryKeys: set<nat>, archive: map<nat, SlashProof>, armed: bool, busy: Option<nat>) {
    forall b | b in retryKeys :: armed && b in archive && (busy == Some(b) || archive[b].executeTx.None?)
  }

  /** Nothing on disk hides a queued but unexecuted slash from a violation at `lastBlock` or later. */
  ghost predicate ResumeOk(archive: map<nat, SlashProof>, lastBlock: nat, slashPending: bool) {
    && (forall b | b in archive :: b <= lastBlock)
    && (slashPending ==> forall b | b in archive && archive[b].executeTx.Some? :: b < lastBlock)
  }

  lemma PutOk(archive: map<nat, SlashProof>, epoch: nat, p: SlashProof, retryKeys: set<nat>, armed: bool,
              landed: seq<Action>, lastBlock: nat, slashPending: bool, call: Call)
    requires ArchiveOk(archive, landed) && RecordOk(p, epoch, landed)
    requires RetryOk(retryKeys, archive, armed, Some(epoch))
    ensures ArchiveOk(archive[epoch := p], landed)
    ensures RetryOk(retryKeys, archive[epoch := p], armed, Some(epoch))
    ensures ResumeOk(archive, lastBlock, slashPending) && epoch <= lastBlock && (slashPending ==> p.executeTx.None?)
            ==> ResumeOk(archive[epoch := p], lastBlock, slashPending)
    ensures epoch in archive && Follows(archive[epoch], p, call) ==> Rewrites(archive, archive[epoch := p], epoch, call)
  {
  }

  /** Adding the execute to an unexecuted proof loses nothing. */
  lemma ExecutedFollows(stored: SlashProof, proof: SlashProof, p: SlashProof, epoch: nat, landed: seq<Action>, call: Call)
    requires Follows(stored, proof, call) && stored.executeTx.None? && RecordOk(proof, epoch, landed)
    requires p == proof.(executeTx := p.executeTx, messageHash := p.messageHash, intendedHash := None)
    requires p.executeTx.Some? && p.messageHash.Some? && p.messageHash.value.epoch == epoch
    requires Did(landed, p.executeTx.value, ExecuteSlash(p.messageHash.value))
    ensures Follows(stored, p, call) && RecordOk(p, epoch, landed)
  {
  }

  /** The pre-execution proof, carrying forward the progress of an archived earlier attempt. */
  function InitialProof(archived: Option<SlashProof>): (p: SlashProof)
    ensures p.executeTx.None? && p.messageHash.None?
    ensures archived.Some? ==>
              p.queueTx == archived.value.queueTx && p.proposalTx == archived.value.proposalTx
              && p.proposalId == archived.value.proposalId
    ensures archived.None? ==> !HasProgress(p)
  {
    match archived
    case None => SlashProof(None, None, None, None, None, None)
    case Some(a) => SlashProof(a.queueTx, a.proposalTx, a.proposalId, None, None, None)
  }

  /** Result of coordinateQuorumCoSign. */
  datatype CoSignResult = CoSignResult(
    proposalTx: Option<Tx>,
    proposalId: Option<nat>,
    queueTx: Option<Tx>,
    executeTx: Option<Tx>,
    aborted: bool,
    asked: Asked)

  /** Which of the three steps the orchestration asked for. */
  datatype Asked = Asked(queue: bool, proposal: bool, execute: bool)

  const NOTHING := CoSignResult(None, None, None, None, false, Asked(false, false, false))

  /**
   * The two-step rule, both ways: queue unless resuming; file a proposal unless an id is reused or an
   * armed queue did not confirm; execute exactly behind a confirmed queue or a resume, with a real id.
   */
  ghost predicate StepsAsked(r: CoSignResult, armed: bool, resume: bool, reused: Option<nat>) {
    && (r.asked.queue <==> armed && !resume)
    && (r.asked.proposal <==> reused.None? && (!armed || r.queueTx.Some? || resume))
    && (r.asked.execute <==> armed && (r.queueTx.Some? || resume) && r.proposalId.Some?)
    && (reused.Some? ==> r.proposalTx.None? && r.proposalId == reused)
  }

  /** The stored record of an executed slash names the executed proposal, its transaction and its preimage. */
  ghost predicate ExecutedAndStored(r: CoSignResult, stored: SlashProof, epoch: nat) {
    && r.executeTx.Some? && r.proposalId.Some?
    && stored.executeTx == r.executeTx
    && stored.proposalId == r.proposalId
    && stored.messageHash == Some(Preimage(r.proposalId.value, epoch))
  }

  /** The last field updates of handleViolation before its final archive write. */
  function Finalize(p: SlashProof, epoch: nat, r: CoSignResult): SlashProof {
    var pre := if r.proposalId.Some? then Some(Preimage(r.proposalId.value, epoch)) else None;
    SlashProof(
      OrElse(r.queueTx, p.queueTx),
      OrElse(r.proposalTx, p.proposalTx),
      OrElse(r.proposalId, p.proposalId),
      OrElse(r.executeTx, p.executeTx),
      if r.executeTx.Some? then pre else None,
      if r.executeTx.Some? || pre.None? then None else pre)
  }

  /** The stored record reports what the attempt did. */
  ghost predicate Reports(r: CoSignResult, stored: SlashProof, epoch: nat) {
    && (r.queueTx.Some? ==> stored.queueTx == r.queueTx)
    && (r.proposalTx.Some? ==> stored.proposalTx == r.proposalTx)
    && (r.proposalId.Some? ==> stored.proposalId == r.proposalId)
    && stored.executeTx == r.executeTx
    && (r.executeTx.Some? && r.proposalId.Some? ==>
          stored.messageHash == Some(Preimage(r.proposalId.value, epoch)) && stored.intendedHash.None?)
    && (r.executeTx.None? && r.proposalId.Some? ==>
          stored.messageHash.None? && stored.intendedHash == Some(Preimage(r.proposalId.value, epoch)))
    && (r.proposalId.None? ==> stored.messageHash.None? && stored.intendedHash.None?)
  }

  /** The final put stores a consistent record that keeps everything stored so far. */
  lemma FinalizeOk(stored: SlashProof, p: SlashProof, epoch: nat, r: CoSignResult, landed: seq<Action>, call: Call)
    requires Follows(stored, p, call) && RecordOk(p, epoch, landed)
    requires p.executeTx == r.executeTx && (r.queueTx.Some? ==> p.queueTx == r.queueTx)
    requires r.executeTx.Some? ==> r.proposalId.Some? && p.messageHash == Some(Preimage(r.proposalId.value, epoch))
    requires r.proposalTx.Some? ==> Did(landed, r.proposalTx.value, CreateProposal) && r.proposalTx.value >= call.mark
    requires r.proposalId.Some? ==> r.proposalId.value in call.ids
    requires r.executeTx.None? ==> stored.executeTx.None?
    ensures RecordOk(Finalize(p, epoch, r), epoch, landed) && Follows(stored, Finalize(p, epoch, r), call)
    ensures Reports(r, Finalize(p, epoch, r), epoch)
  {
  }

  /** The proposal id a resume reuses: that of an incomplete archived attempt, else the one in memory. */
  function Carried(archived: Option<SlashProof>, inFlight: Option<nat>): Option<nat> {
    if archived.Some? && archived.value.queueTx.Some? && archived.value.executeTx.None?
    then OrElse(archived.value.proposalId, inFlight) else inFlight
  }

  /**
   * Inside the call that executed, the snapshot written right after the execute may not be the last
   * one.  `proof` is the record before the attempt and `reused` the proposal id it resumes with.
   */
  ghost predicate KeepsSnapshot(proof: SlashProof, reused: Option<nat>) {
    reused.Some? && reused == proof.proposalId
  }

  /** The final put leaves the executed snapshot alone exactly if the reused id was already in the record. */
  lemma FinalPutChangesExecutedRecord(proof: SlashProof, p: SlashProof, epoch: nat, r: CoSignResult, reused: Option<nat>,
                                      mark: nat)
    requires SnapshotOf(proof, p, epoch, r, reused) && (proof.proposalTx.Some? ==> proof.proposalTx.value < mark)
    requires r.proposalTx.Some? ==> r.proposalTx.value >= mark
    ensures Finalize(p, epoch, r) == p <==> KeepsSnapshot(proof, reused)
  {
  }

  /**
   * What the orchestration leaves: `p` is the mutated proof and `stored` the record on disk, which
   * lacks nothing but what a failed write would have added.
   */
  ghost predicate Progress(proof: SlashProof, p: SlashProof, stored: SlashProof, epoch: nat, r: CoSignResult,
                           reused: Option<nat>, before: Chain, after: Chain, call: Call)
  {
    && Follows(stored, p, call) && RecordOk(p, epoch, after.landed)
    && (stored.executeTx.Some? ==> stored == p)
    && p.executeTx == r.executeTx && (r.executeTx.None? ==> stored.executeTx.None?)
    && p.queueTx == OrElse(r.queueTx, proof.queueTx)
    && (r.executeTx.Some? ==> after.execs != before.execs && SnapshotOf(proof, p, epoch, r, reused))
    && (r.proposalId.Some? ==> r.proposalId.value in call.ids)
    && (r.proposalTx.Some? ==>
          |before.landed| <= r.proposalTx.value && Did(after.landed, r.proposalTx.value, CreateProposal))
    && (reused.Some? ==> !Filed(before.landed, after.landed))
  }

  /** The evidence write is safe exactly if it loses nothing. */
  lemma EvidenceLoses(archive: map<nat, SlashProof>, epoch: nat, archived: Option<SlashProof>, call: Call)
    requires archived.Some? ==> epoch in archive && archived.value == archive[epoch]
    ensures Safe(archive, archive, epoch, call)
    ensures var after := archive[epoch := InitialProof(archived)];
            && (Durable(archive, after, call.mark) <==> !(epoch in archive && Loses(archive[epoch], archived)))
            && (Durable(archive, after, call.mark) ==> Safe(archive, after, epoch, call))
  {
    var after := archive[epoch := InitialProof(archived)];
    assert forall b | b in archive && b != epoch :: after[b] == archive[b];
    if epoch in archive && Loses(archive[epoch], archived) {
      assert !Keeps(archive[epoch], after[epoch], call.mark);
    }
  }

  /** The result of the later steps, completed by the queue step. */
  function WithQueue(r: CoSignResult, queueTx: Option<Tx>, armed: bool, queued: bool): CoSignResult {
    r.(queueTx := queueTx, aborted := armed && r.executeTx.None?, asked := r.asked.(queue := queued))
  }

  lemma QueuedProgress(proof: SlashProof, queued: SlashProof, p: SlashProof, stored: SlashProof, epoch: nat,
                       r: CoSignResult, queueTx: Option<Tx>, reused: Option<nat>, before: Chain, mid: Chain, after: Chain,
                       call: Call, armed: bool, asked: bool)
    requires queued == proof.(queueTx := OrElse(queueTx, proof.queueTx)) && r.queueTx.None?
    requires mid.execs == before.execs && |before.landed| <= |mid.landed|
    requires reused.Some? ==> mid.landed == before.landed
    requires Progress(queued, p, stored, epoch, r, reused, mid, after, call)
    ensures Progress(proof, p, stored, epoch, WithQueue(r, queueTx, armed, asked), reused, before, after, call)
  {
  }

  /** `p` is what the orchestration made of `proof` when it executed. */
  ghost predicate SnapshotOf(proof: SlashProof, p: SlashProof, epoch: nat, r: CoSignResult, reused: Option<nat>) {
    && r.executeTx.Some? && r.proposalId.Some?
    && p.executeTx == r.executeTx && p.messageHash == Some(Preimage(r.proposalId.value, epoch)) && p.intendedHash.None?
    && p.queueTx == OrElse(r.queueTx, proof.queueTx) && p.proposalTx == proof.proposalTx
    && (reused.Some? ==> r.proposalTx.None? && r.proposalId == reused && p.proposalId == proof.proposalId)
    && (reused.None? ==> r.proposalTx.Some? && p.proposalId == r.proposalId)
  }

  // ---- The service ---------------------------------------------------------------------------

  /** A best-effort read: true, false, or null (error or unavailable). */
  datatype Reading = Yes | No | Unknown

  /** Quality of the reads of a call: the pending read gave the flag; every scan target answered. */
  datatype Reads = Reads(exact: bool, scanned: bool)

  datatype SlashState = Executed | Pending | Clear | Blocked

  datatype Outcome =
    | Skipped                // dropped by the dedup gate
    | Crashed                // the process died
    | Threw                  // an archive write failed
    | Suppressed             // inside the cooldown: evidence only
    | Guarded(s: SlashState) // over-slash guard
    | Attempted(resume: bool, armed: bool, res: CoSignResult)

  /** The proposal id an attempt reused. */
  function Reused(r: Outcome, archived: Option<SlashProof>, inFlight: Option<nat>): Option<nat>
    requires r.Attempted?
  {
    if r.resume then Carried(archived, inFlight) else None
  }

  /**
   * An attempt asks for its steps by the two-step rule; an execute lands only armed and behind a queue
   * or a resume, and a confirmed one is stored with its proposal.
   */
  ghost predicate AttemptRule(r: Outcome, reused: Option<nat>, epoch: nat, stored: SlashProof, before: History, after: History)
    requires r.Attempted?
  {
    && StepsAsked(r.res, r.armed, r.resume, reused)
    && (after.execs != before.execs ==> r.armed && (r.resume || r.res.queueTx.Some?))
    && (r.res.executeTx.Some? ==> after.execs != before.execs && ExecutedAndStored(r.res, stored, epoch))
    && Reports(r.res, stored, epoch)
    && (reused.Some? ==> !Filed(before.landed, after.landed))
  }

  /** An incomplete archived attempt that knows its proposal. */
  predicate Incomplete(read: Option<SlashProof>) {
    read.Some? && read.value.queueTx.Some? && read.value.executeTx.None? && read.value.proposalId.Some?
  }

  /**
   * A resume files no second proposal: it reuses the id of the incomplete archived attempt it read, else
   * the one held in memory, and files only if it knows neither.
   */
  ghost predicate ResumesKnownProposal(r: Outcome, read: Option<SlashProof>, inFlight: Option<nat>, before: History, after: History)
    requires r.Attempted?
  {
    r.resume && (Incomplete(read) || inFlight.Some?) ==>
      && r.res.proposalId == (if Incomplete(read) then read.value.proposalId else inFlight)
      && r.res.proposalTx.None? && !Filed(before.landed, after.landed)
  }

  lemma ReusedIsKnown(r: Outcome, read: Option<SlashProof>, inFlight: Option<nat>, epoch: nat, stored: SlashProof,
                      before: History, after: History)
    requires r.Attempted? && AttemptRule(r, Reused(r, read, inFlight), epoch, stored, before, after)
    ensures ResumesKnownProposal(r, read, inFlight, before, after)
  {
  }

  /** What a call finds: arming, cooldown, the pending flag, and no trace of an earlier slash. */
  datatype Situation = Situation(
    executeSlash: bool, fileOnlyRule: bool, cooling: bool, pending: bool, unslashed: bool, journal: bool)

  /**
   * The answer of handleViolation past the dedup gate, as far as the reads allow: a pending slash is
   * resumed and not queued again, an unslashed operator is not held back, and in a calm environment
   * either is `completed` outside the cooldown, while a journalled one is left alone.
   */
  ghost predicate Answers(r: Outcome, seen: Reads, truthful: bool, calm: bool, s: Situation, queued: bool, completed: bool) {
    && (r.Suppressed? ==> s.cooling) && (r.Guarded? || r.Attempted? ==> !s.cooling)
    && (s.pending && truthful && s.executeSlash && seen.exact ==>
          !r.Guarded? && (r.Attempted? ==> r.resume) && !queued)
    && (s.unslashed && truthful && seen.exact && seen.scanned ==> !r.Guarded? && (r.Attempted? ==> !r.resume))
    && (calm ==> seen == Reads(true, true) && !r.Crashed? && !r.Threw?)
    && (calm && truthful && s.executeSlash && !s.fileOnlyRule && !s.cooling && (s.pending || s.unslashed) ==>
          r.Attempted? && r.res.executeTx.Some? && completed)
    && (calm && s.executeSlash && s.journal ==> r.Suppressed? || r.Guarded?)
  }

  /** In a calm environment an assessment learns of an execute exactly if one is marked or in the window. */
  ghost predicate Learned(state: SlashState, assesses: bool, marked: bool, clean0: bool, clean1: bool) {
    assesses ==> (marked || !clean1 ==> state.Executed?) && (state.Executed? ==> marked || !clean0)
  }

  /** What follows from the cooldown and the slash state. */
  predicate Acted(r: Outcome, withinCooldown: bool, state: SlashState) {
    || r.Crashed? || r.Threw?
    || (if withinCooldown then r.Suppressed?
        else if state.Executed? || state.Blocked? then r == Guarded(state)
        else r.Attempted? && r.resume == state.Pending?)
  }

  /** Time only takes an earlier slash out of sight. */
  lemma AnswersEarlier(r: Outcome, seen: Reads, truthful: bool, calm: bool, s: Situation, later: Situation, queued: bool,
                       completed: bool)
    requires Answers(r, seen, truthful, calm, later, queued, completed)
    requires later == s.(unslashed := later.unslashed) && (s.unslashed ==> later.unslashed)
    ensures Answers(r, seen, truthful, calm, s, queued, completed)
  {
  }

  /**
   * What a call saw and left on its way: whether it went on over a record it had `missed`, what the
   * archive read gave, and the record on disk before the final put.
   */
  datatype Trace = Trace(missed: bool, read: Option<SlashProof>, snapshot: SlashProof)

  /** What a call added to its ids: nothing without an attempt, else the id it filed or reused. */
  ghost predicate Wrote(r: Outcome, before: Call, after: Call) {
    && Grows(before, after)
    && (r.Attempted? ==> after == With(before, r.res.proposalId))
    && (r.Skipped? || r.Suppressed? || r.Guarded? ==> after == before)
  }

  /**
   * What a call leaves: the records of other blocks, and this one's unless it was missed; an attempt by
   * the rule; no execute in the record without an attempt; and a snapshot with an execute rewritten
   * exactly unless the reused id was already in the record.
   */
  ghost predicate Leaves(t: Trace, r: Outcome, epoch: nat, before: map<nat, SlashProof>, after: map<nat, SlashProof>,
                         call: Call, inFlight: Option<nat>, c0: History, c1: History)
  {
    && Others(before, after, epoch)
    && (t.missed ==> epoch in before)
    && (!t.missed ==> Safe(before, after, epoch, call))
    && (t.read.Some? ==> epoch in before && t.read.value == before[epoch])
    && (r.Suppressed? || r.Guarded? ==> epoch in after && after[epoch].executeTx.None?)
    && (r.Attempted? ==> epoch in after && AttemptRule(r, Reused(r, t.read, inFlight), epoch, after[epoch], c0, c1))
    && (r.Attempted? ==> ResumesKnownProposal(r, t.read, inFlight, c0, c1))
    && (r.Attempted? && t.snapshot.executeTx.Some? ==>
          (after[epoch] == t.snapshot <==> KeepsSnapshot(InitialProof(t.read), Reused(r, t.read, inFlight))))
  }

  /** The entries that are not older than the cooldown. */
  function Recent(keys: map<nat, int>, now: int, cooldownMs: nat): (r: map<nat, int>)
    ensures forall b | b in r :: b in keys && r[b] == keys[b] && now - r[b] <= cooldownMs
    ensures forall b | b in keys && b !in r :: now - keys[b] > cooldownMs
  {
    map b | b in keys && now - keys[b] <= cooldownMs :: keys[b]
  }

  class AuditService {
    const fileOnlyRule: bool
    const lookback: nat
    const cooldownMs: nat
    const scanTargets: nat
    var executeSlash: bool // AUDIT_EXECUTE_SLASH; may differ after a restart

    // The environment: a calm one answers truly, succeeds and lets the process live; any other does
    // as it likes.  An unreadable archive answers every read with "absent".
    const calm: bool
    var archiveReadable: bool

    // In memory, lost by a crash.
    var slashedMarker: bool
    var retryKeys: set<nat>
    var proposedKeys: map<nat, int>
    var lastProposalAt: Option<int>
    var pendingProposalId: Option<nat>

    // On disk.
    var archive: map<nat, SlashProof>
    var journal: bool

    var chain: Chain

    // The run so far: the highest violation block, whether every answer about the chain and the
    // journal was true, and whether a call went on over a record it could not read.
    ghost var lastBlock: nat
    ghost var truthful: bool
    ghost var missedRead: bool
    ghost var busy: Option<nat> // the violation block a call is handling
    ghost var call: Call        // what that call may write
    ghost var offered: Option<SlashProof> // the record last given to the archive, stored or not
    ghost var approved: Option<Action>    // what the last co-sign was for, until it is sent

    ghost predicate Valid()
      reads this
    {
      && scanTargets >= 1
      && ChainOk(chain, lookback)
      && call.mark <= |chain.landed|
      && ArchiveOk(archive, chain.landed)
      && RetryOk(retryKeys, archive, executeSlash, busy)
      && (truthful ==> ResumeOk(archive, lastBlock, chain.slashPending))
      && (truthful && chain.slashPending ==> !slashedMarker && !journal)
    }

    /** No slash is pending, recorded or visible to the executed-scan. */
    ghost predicate Unslashed()
      reads this
    {
      !chain.slashPending && Outside(chain, lookback) && !slashedMarker && !journal
    }

    ghost function Facing(now: int): Situation
      reads this
    {
      var cooling := lastProposalAt.Some? && now - lastProposalAt.value < cooldownMs;
      Situation(executeSlash, fileOnlyRule, cooling, chain.slashPending, Unslashed(), journal)
    }

    constructor (executeSlash: bool, fileOnlyRule: bool, lookback: nat, cooldownMs: nat, scanTargets: nat, calm: bool)
      requires scanTargets >= 1
      ensures Valid() && chain.execs == [] && archive == map[] && truthful && !missedRead && busy.None?
      ensures Unslashed() && lastBlock == 0 && lastProposalAt.None? && archiveReadable
      ensures this.executeSlash == executeSlash && this.fileOnlyRule == fileOnlyRule && this.calm == calm
    {
      this.executeSlash, this.fileOnlyRule, this.calm := executeSlash, fileOnlyRule, calm;
      this.lookback, this.cooldownMs, this.scanTargets := lookback, cooldownMs, scanTargets;
      slashedMarker, retryKeys, proposedKeys := false, {}, map[];
      lastProposalAt, pendingProposalId := None, None;
      archive, journal, archiveReadable := map[], false, true;
      chain := Chain(0, false, [], 0, []);
      lastBlock, truthful, missedRead, busy, call := 0, true, false, None, Call(0, {});
      offered, approved := None, None;
    }

    // ---- The environment -----------------------------------------------------------------------

    /** An `await`: blocks may be mined and the process may die. */
    method Await() returns (crashed: bool)
      requires Valid()
      modifies this`chain
      ensures Valid() && Extends(old(chain), chain)
      ensures chain == old(chain).(head := chain.head)
      ensures Outside(old(chain), lookback) ==> Outside(chain, lookback)
      ensures calm ==> !crashed
    {
      var blocks :| blocks >= 0;
      MineOk(chain, blocks, lookback);
      chain := Mine(chain, blocks);
      crashed := Chance(false);
    }

    /** An outcome the environment decides; `good` in a calm one. */
    method Chance(good: bool) returns (b: bool)
      ensures calm ==> b == good
    {
      b := *;
      if calm {
        b := good;
      }
    }

    /** archive.put: an atomic write that may fail, or land just before a crash. */
    method Put(epoch: nat, p: SlashProof) returns (ok: bool, crashed: bool)
      requires Valid() && busy == Some(epoch)
      requires RecordOk(p, epoch, chain.landed)
      requires truthful ==> epoch <= lastBlock && (chain.slashPending ==> p.executeTx.None?)
      modifies this`chain, this`archive, this`offered
      ensures Valid() && Extends(old(chain), chain) && chain == old(chain).(head := chain.head)
      ensures Outside(old(chain), lookback) ==> Outside(chain, lookback)
      ensures archive == if ok then old(archive)[epoch := p] else old(archive)
      ensures epoch in old(archive) && Follows(old(archive)[epoch], p, call) ==> Rewrites(old(archive), archive, epoch, call)
      ensures offered == Some(p)
      ensures calm ==> ok && !crashed
    {
      offered := Some(p);
      crashed := Await();
      PutOk(archive, epoch, p, retryKeys, executeSlash, chain.landed, lastBlock, chain.slashPending, call);
      ok := Chance(true);
      if ok {
        archive := archive[epoch := p];
      }
    }

    /** Re-archive after a landed step; a failed write is only logged. */
    method PersistStep(epoch: nat, p: SlashProof) returns (crashed: bool)
      requires Valid() && busy == Some(epoch)
      requires RecordOk(p, epoch, chain.landed) && epoch in archive && Follows(archive[epoch], p, call)
      requires truthful ==> epoch <= lastBlock && (chain.slashPending ==> p.executeTx.None?)
      modifies this`chain, this`archive, this`offered
      ensures Valid() && Extends(old(chain), chain) && chain == old(chain).(head := chain.head)
      ensures Rewrites(old(archive), archive, epoch, call)
      ensures archive[epoch] == p || archive[epoch] == old(archive)[epoch]
      ensures calm ==> archive[epoch] == p && !crashed
      ensures offered == Some(p)
    {
      var _, died := Put(epoch, p);
      crashed := died;
    }

    /**
     * queueSlashWithProof: fails, or sets the pending flag; a landed write may still be reported as
     * failed.  It is reached only with a stored record and no executed event in the window.
     */
    method QueueWrite(epoch: nat) returns (tx: Option<Tx>, crashed: bool)
      requires Valid()
      requires epoch in archive && archive[epoch].executeTx.None?
      requires Outside(chain, lookback)
      requires truthful ==> epoch == lastBlock && !slashedMarker && !journal
      requires approved == Some(QueueSlash(epoch))
      modifies this`chain, this`approved
      ensures Valid() && Extends(old(chain), chain) && chain.execs == old(chain).execs && approved.None?
      ensures tx.Some? ==>
                chain.slashPending && |old(chain).landed| <= tx.value && Did(chain.landed, tx.value, QueueSlash(epoch))
      ensures chain.slashPending == old(chain).slashPending || chain.queues == old(chain).queues + 1
      ensures calm ==> tx.Some? && !crashed
    {
      approved := None;
      crashed := Await();
      tx := None;
      var lands := Chance(true);
      if lands {
        LandQueueOk(chain, epoch, lookback);
        var after := LandQueue(chain, epoch);
        ArchiveOkExtends(archive, chain.landed, after.landed);
        var confirmed := Chance(true);
        tx := if confirmed then Some(|chain.landed|) else None;
        chain := after;
      }
    }

    /** createProposalWithEvidence: may fail, and may confirm without a readable proposal id. */
    method ProposeWrite(epoch: nat) returns (tx: Option<Tx>, id: Option<nat>, crashed: bool)
      requires Valid()
      requires epoch in archive
      modifies this`chain, this`call
      ensures Valid() && Extends(old(chain), chain)
      ensures chain == old(chain).(head := chain.head, landed := chain.landed)
      ensures tx.None? ==> id.None?
      ensures tx.Some? ==> |old(chain).landed| <= tx.value && Did(chain.landed, tx.value, CreateProposal)
      ensures call == With(old(call), id)
      ensures calm ==> id.Some? && !crashed
    {
      crashed := Await();
      tx, id := None, None;
      var lands := Chance(true);
      if lands {
        var after := LandProposal(chain);
        ArchiveOkExtends(archive, chain.landed, after.landed);
        var confirmed := Chance(true);
        if confirmed {
          tx := Some(|chain.landed|);
          var readable := Chance(true);
          if readable {
            var filed :| filed >= 0;
            id := Some(filed);
            call := call.(ids := call.ids + {filed});
          }
        }
        chain := after;
      }
    }

    /** executeSlashWithProof, the irreversible step: never reached without the pending flag. */
    method ExecuteWrite(epoch: nat, id: nat) returns (tx: Option<Tx>, crashed: bool)
      requires Valid()
      requires epoch in archive
      requires chain.slashPending
      requires approved == Some(ExecuteSlash(Preimage(id, epoch)))
      modifies this`chain, this`approved
      ensures Valid() && Extends(old(chain), chain) && chain.queues == old(chain).queues && approved.None?
      ensures |chain.execs| <= |old(chain).execs| + 1
      ensures !Filed(old(chain).landed, chain.landed)
      ensures chain.slashPending <==> chain.execs == old(chain).execs
      ensures tx.Some? ==> !chain.slashPending && Did(chain.landed, tx.value, ExecuteSlash(Preimage(id, epoch)))
      ensures calm ==> tx.Some? && !crashed
    {
      approved := None;
      crashed := Await();
      tx := None;
      var lands := Chance(true);
      if lands {
        var pre := Preimage(id, epoch);
        LandExecuteOk(chain, pre, lookback);
        var after := LandExecute(chain, pre);
        ArchiveOkExtends(archive, chain.landed, after.landed);
        var confirmed := Chance(true);
        tx := if confirmed then Some(|chain.landed|) else None;
        chain := after;
      }
    }

    // ---- The over-slash guard ------------------------------------------------------------------

    /** markCoarseSlashed plus the best-effort durable marker. */
    method RecordCoarseSlashed() returns (crashed: bool)
      requires Valid()
      requires truthful ==> !chain.slashPending
      modifies this`chain, this`slashedMarker, this`pendingProposalId, this`journal
      ensures Valid() && Extends(old(chain), chain) && chain == old(chain).(head := chain.head)
      ensures slashedMarker && pendingProposalId.None?
      ensures journal <== old(journal)
      ensures calm ==> journal && !crashed
    {
      slashedMarker, pendingProposalId := true, None;
      crashed := Await();
      var persisted := Chance(true);
      if persisted {
        journal := true;
      }
    }

    /** A healthy read: forget the marker and the in-flight id; the durable removal may fail. */
    method ClearCoarseSlashed() returns (crashed: bool)
      requires Valid()
      modifies this`chain, this`slashedMarker, this`pendingProposalId, this`journal
      ensures Valid() && Extends(old(chain), chain) && chain == old(chain).(head := chain.head)
      ensures !slashedMarker && pendingProposalId.None?
      ensures journal ==> old(journal)
      ensures calm ==> !journal && !crashed
    {
      slashedMarker, pendingProposalId := false, None;
      crashed := Await();
      var removed := Chance(true);
      if removed {
        journal := false;
      }
    }

    /** getRecentSlashExecuted on one target: no only with nothing in the window; the truth if calm. */
    method ScanTarget() returns (hit: Reading)
      ensures hit.No? ==> Outside(chain, lookback)
      ensures calm ==> hit == if Outside(chain, lookback) then No else Yes
    {
      hit := *;
      if calm || (hit.No? && !Outside(chain, lookback)) {
        hit := if Outside(chain, lookback) then No else Yes;
      }
    }

    /** The executed-event scan over every target: a hit, nothing in the window, or indeterminate. */
    method ScanExecuted() returns (found: Reading, crashed: bool)
      requires Valid()
      modifies this`chain, this`truthful
      ensures Valid() && Extends(old(chain), chain) && chain == old(chain).(head := chain.head)
      ensures truthful ==> old(truthful)
      ensures found.Yes? && truthful ==> !chain.slashPending && !Outside(old(chain), lookback)
      ensures found.No? && !crashed ==> Outside(chain, lookback)
      ensures calm ==> !crashed && !found.Unknown? && truthful == old(truthful)
      ensures calm && found.Yes? ==> !Outside(old(chain), lookback)
      ensures calm && !Outside(chain, lookback) ==> found.Yes?
    {
      found, crashed := No, false;
      var target := 0;
      while target < scanTargets && !crashed
        invariant 0 <= target <= scanTargets
        invariant Valid() && Extends(old(chain), chain) && chain == old(chain).(head := chain.head)
        invariant !found.Yes? && (truthful ==> old(truthful))
        invariant target > 0 && found.No? ==> Outside(chain, lookback)
        invariant Outside(old(chain), lookback) ==> Outside(chain, lookback)
        invariant calm ==> !crashed && !found.Unknown? && truthful == old(truthful)
      {
        crashed := Await();
        var hit := ScanTarget();
        if hit.Yes? {
          truthful := truthful && !Outside(chain, lookback);
          return Yes, crashed;
        }
        if hit.Unknown? {
          found := Unknown;
        }
        target := target + 1;
      }
    }

    /** archive.hasSlashed: a hit is cached in memory; a failed read counts as no. */
    method ReadJournal() returns (marked: bool, crashed: bool)
      requires Valid() && !slashedMarker
      modifies this`chain, this`slashedMarker, this`pendingProposalId, this`truthful
      ensures Valid() && Extends(old(chain), chain) && chain == old(chain).(head := chain.head)
      ensures truthful ==> old(truthful) && marked == journal
      ensures slashedMarker == marked
      ensures pendingProposalId == if marked then None else old(pendingProposalId)
      ensures calm ==> !crashed && marked == journal && truthful == old(truthful)
    {
      crashed := Await();
      marked := Chance(journal);
      truthful := truthful && marked == journal;
      if marked {
        slashedMarker, pendingProposalId := true, None;
      }
    }

    /** isSlashPending: yes only with the flag set; the truth if calm. */
    method ReadPending() returns (pending: Reading)
      ensures pending.Yes? ==> chain.slashPending
      ensures calm ==> pending == if chain.slashPending then Yes else No
    {
      pending := *;
      if calm || (pending.Yes? && !chain.slashPending) {
        pending := if chain.slashPending then Yes else No;
      }
    }

    /**
     * assessSlashState.  Answers may be missing at will; a determinate executed-scan is never falsely
     * negative and a pending read is never falsely positive.  Any other false answer (a wrong
     * journal read, a false scan hit) ends `truthful`.
     */
    method AssessSlashState() returns (state: SlashState, crashed: bool, seen: Reads)
      requires Valid()
      modifies this`chain, this`slashedMarker, this`pendingProposalId, this`journal, this`truthful
      ensures Valid() && Extends(old(chain), chain) && chain == old(chain).(head := chain.head)
      ensures truthful ==> old(truthful)
      ensures state.Executed? ==> slashedMarker || crashed
      ensures !state.Executed? ==> !slashedMarker && pendingProposalId == old(pendingProposalId) && (truthful ==> !journal)
      ensures state.Pending? ==> chain.slashPending
      ensures state.Clear? ==> Outside(chain, lookback)
      ensures !crashed && state.Clear? && seen.exact ==> !chain.slashPending
      ensures !crashed && state.Blocked? ==> !seen.scanned
      ensures !crashed && seen.exact && truthful && chain.slashPending ==> state.Pending?
      ensures !crashed && seen.exact && seen.scanned && truthful && old(Unslashed()) ==> state.Clear?
      ensures calm ==> !crashed && seen == Reads(true, true) && truthful == old(truthful)
      ensures calm && (old(slashedMarker) || old(journal) || !Outside(chain, lookback)) ==> state.Executed?
      ensures calm && state.Executed? ==> old(slashedMarker) || old(journal) || !Outside(old(chain), lookback)
    {
      seen, crashed := Reads(true, true), false;
      // (1) in-memory marker
      if slashedMarker {
        return Executed, crashed, seen;
      }
      // (2) durable journal
      var marked, lost := ReadJournal();
      if marked || lost {
        return if marked then Executed else Blocked, lost, seen;
      }
      // (3) executed events
      var found, died := ScanExecuted();
      crashed, seen := died, Reads(true, !found.Unknown?);
      if found.Yes? {
        if !crashed {
          crashed := RecordCoarseSlashed();
        }
        return Executed, crashed, seen;
      }
      if crashed {
        return Blocked, crashed, seen;
      }
      // (4) pending flag
      crashed := Await();
      var pending := ReadPending();
      seen := seen.(exact := pending == if chain.slashPending then Yes else No);
      if pending.Yes? {
        return Pending, crashed, seen;
      }
      // (5) fail closed on an unreadable executed-scan
      return if found.Unknown? then Blocked else Clear, crashed, seen;
    }

    /** The quorum co-sign of one action, which may fail. */
    method CoSign(action: Action) returns (ok: bool, crashed: bool)
      requires Valid()
      modifies this`chain, this`approved
      ensures Valid() && Extends(old(chain), chain) && chain == old(chain).(head := chain.head)
      ensures Outside(old(chain), lookback) ==> Outside(chain, lookback)
      ensures approved == if ok then Some(action) else None
      ensures calm ==> ok && !crashed
    {
      crashed := Await();
      ok := Chance(true);
      approved := if ok then Some(action) else None;
    }

    // ---- The orchestration ---------------------------------------------------------------------

    /** Step 1: co-sign and queue.  The queue transaction is durable before anything else happens. */
    method QueueStep(epoch: nat, proof: SlashProof) returns (tx: Option<Tx>, p: SlashProof, crashed: bool)
      requires Valid() && busy == Some(epoch)
      requires epoch in archive && archive[epoch] == proof && proof.executeTx.None?
      requires Outside(chain, lookback)
      requires truthful ==> epoch == lastBlock && !slashedMarker && !journal
      requires offered == Some(proof)
      modifies this`chain, this`approved, this`archive, this`offered
      ensures Valid() && Extends(old(chain), chain) && chain.execs == old(chain).execs
      ensures p == proof.(queueTx := OrElse(tx, proof.queueTx))
      ensures Rewrites(old(archive), archive, epoch, call) && Follows(archive[epoch], p, call)
      ensures archive[epoch].executeTx.None? && RecordOk(p, epoch, chain.landed)
      ensures tx.Some? ==> chain.slashPending
      ensures calm ==> tx.Some? && !crashed
      ensures !crashed ==> offered == Some(p)
    {
      tx, p := None, proof;
      var cosigned;
      cosigned, crashed := CoSign(QueueSlash(epoch));
      if cosigned && !crashed {
        tx, crashed := QueueWrite(epoch);
        if tx.Some? {
          p := p.(queueTx := tx);
          if !crashed {
            crashed := PersistStep(epoch, p);
          }
        }
      }
    }

    /** Step 2: file a proposal; an armed node makes its id durable before the execute. */
    method ProposeStep(epoch: nat, proof: SlashProof, armed: bool)
      returns (tx: Option<Tx>, id: Option<nat>, p: SlashProof, crashed: bool)
      requires Valid() && busy == Some(epoch)
      requires epoch in archive && Follows(archive[epoch], proof, call)
      requires proof.executeTx.None? && archive[epoch].executeTx.None?
      requires RecordOk(proof, epoch, chain.landed)
      requires truthful ==> epoch <= lastBlock
      requires offered == Some(proof)
      modifies this`chain, this`archive, this`offered, this`call
      ensures Valid() && Extends(old(chain), chain)
      ensures chain == old(chain).(head := chain.head, landed := chain.landed)
      ensures tx.None? ==> id.None?
      ensures tx.Some? ==> |old(chain).landed| <= tx.value && Did(chain.landed, tx.value, CreateProposal)
      ensures p == proof.(proposalId := if armed then OrElse(id, proof.proposalId) else proof.proposalId)
      ensures Rewrites(old(archive), archive, epoch, call) && Follows(archive[epoch], p, call)
      ensures archive[epoch].executeTx.None? && RecordOk(p, epoch, chain.landed)
      ensures call == With(old(call), id)
      ensures calm ==> id.Some? && !crashed
      ensures !crashed ==> offered == Some(p)
    {
      p := proof;
      tx, id, crashed := ProposeWrite(epoch);
      if armed && id.Some? {
        p := p.(proposalId := id);
        if !crashed {
          crashed := PersistStep(epoch, p);
        }
      }
    }

    /** Step 3: co-sign and execute; executeTx and messageHash become durable in one write. */
    method ExecuteStep(epoch: nat, id: nat, proof: SlashProof)
      returns (tx: Option<Tx>, p: SlashProof, crashed: bool)
      requires Valid() && busy == Some(epoch)
      requires epoch in archive && Follows(archive[epoch], proof, call)
      requires proof.executeTx.None? && archive[epoch].executeTx.None?
      requires RecordOk(proof, epoch, chain.landed)
      requires truthful ==> epoch <= lastBlock
      requires chain.slashPending
      requires offered == Some(proof)
      modifies this`chain, this`approved, this`archive, this`offered
      ensures Valid() && Extends(old(chain), chain) && chain.queues == old(chain).queues
      ensures |chain.execs| <= |old(chain).execs| + 1
      ensures !Filed(old(chain).landed, chain.landed)
      ensures tx.None? ==> p == proof
      ensures tx.Some? ==> p == proof.(executeTx := tx, messageHash := Some(Preimage(id, epoch)), intendedHash := None)
      ensures tx.Some? ==> chain.execs != old(chain).execs && !chain.slashPending
      ensures Rewrites(old(archive), archive, epoch, call) && Follows(archive[epoch], p, call)
      ensures archive[epoch].executeTx.Some? ==> archive[epoch] == p
      ensures tx.None? ==> archive[epoch].executeTx.None?
      ensures RecordOk(p, epoch, chain.landed)
      ensures calm ==> tx.Some? && archive[epoch] == p && !crashed
      ensures !crashed ==> offered == Some(p)
    {
      p := proof;
      tx, crashed := SendExecute(epoch, id);
      if tx.Some? {
        p := p.(executeTx := tx, messageHash := Some(Preimage(id, epoch)), intendedHash := None);
        ExecutedFollows(archive[epoch], proof, p, epoch, chain.landed, call);
        if !crashed {
          crashed := PersistStep(epoch, p);
        }
      }
    }

    method SendExecute(epoch: nat, id: nat) returns (tx: Option<Tx>, crashed: bool)
      requires Valid() && epoch in archive && chain.slashPending
      modifies this`chain, this`approved
      ensures Valid() && Extends(old(chain), chain) && chain.queues == old(chain).queues
      ensures |chain.execs| <= |old(chain).execs| + 1
      ensures !Filed(old(chain).landed, chain.landed)
      ensures tx.Some? ==> chain.execs != old(chain).execs && !chain.slashPending
      ensures tx.Some? ==> Did(chain.landed, tx.value, ExecuteSlash(Preimage(id, epoch)))
      ensures calm ==> tx.Some? && !crashed
    {
      tx := None;
      var cosigned;
      cosigned, crashed := CoSign(ExecuteSlash(Preimage(id, epoch)));
      if cosigned && !crashed {
        tx, crashed := ExecuteWrite(epoch, id);
      }
    }

    /** Steps 2 and 3.  `preflag`: queued in this call or resuming, so the pending flag is set. */
    method ProposeAndExecute(epoch: nat, proof: SlashProof, armed: bool, preflag: bool, resumeId: Option<nat>)
      returns (res: CoSignResult, p: SlashProof, crashed: bool)
      requires Valid() && busy == Some(epoch)
      requires epoch in archive && Follows(archive[epoch], proof, call)
      requires proof.executeTx.None? && archive[epoch].executeTx.None?
      requires RecordOk(proof, epoch, chain.landed)
      requires truthful ==> epoch <= lastBlock
      requires preflag ==> chain.slashPending
      requires resumeId.Some? ==> resumeId.value in call.ids
      requires offered == Some(proof)
      modifies this`chain, this`approved, this`archive, this`offered, this`call
      ensures Valid() && Extends(old(chain), chain) && chain.queues == old(chain).queues
      ensures call == With(old(call), res.proposalId) && Rewrites(old(archive), archive, epoch, call)
      ensures Progress(proof, p, archive[epoch], epoch, res, resumeId, old(chain), chain, call)
      ensures |chain.execs| <= |old(chain).execs| + 1
      ensures chain.execs != old(chain).execs ==> armed && preflag
      ensures res.executeTx.Some? ==> !chain.slashPending
      ensures res.queueTx.None? && !res.aborted
      ensures !crashed ==>
                res.asked == Asked(false, resumeId.None? && (!armed || preflag), armed && preflag && res.proposalId.Some?)
      ensures resumeId.Some? ==> res.proposalTx.None? && res.proposalId == resumeId
      ensures calm ==> !crashed && (armed && preflag ==> res.executeTx.Some? && archive[epoch] == p)
      ensures !crashed ==> offered == Some(p)
    {
      var proposalTx, id;
      proposalTx, id, p, crashed := FindProposal(epoch, proof, armed, preflag, resumeId);
      res := NOTHING.(proposalTx := proposalTx, proposalId := id, asked := Asked(false, resumeId.None? && (!armed || preflag), false));
      // Two-step safety: only behind the queue pre-flag, and only with a real proposal id.
      if armed && preflag && id.Some? && !crashed {
        ghost var a1 := archive;
        var executeTx;
        executeTx, p, crashed := ExecuteStep(epoch, id.value, p);
        RewritesTransitive(old(archive), a1, archive, epoch, call, call);
        res := res.(executeTx := executeTx, asked := res.asked.(execute := true));
      }
    }

    /** Reuse the carried proposal, or file one unless an armed queue did not confirm. */
    method FindProposal(epoch: nat, proof: SlashProof, armed: bool, preflag: bool, resumeId: Option<nat>)
      returns (tx: Option<Tx>, id: Option<nat>, p: SlashProof, crashed: bool)
      requires Valid() && busy == Some(epoch)
      requires epoch in archive && Follows(archive[epoch], proof, call)
      requires proof.executeTx.None? && archive[epoch].executeTx.None?
      requires RecordOk(proof, epoch, chain.landed)
      requires truthful ==> epoch <= lastBlock
      requires resumeId.Some? ==> resumeId.value in call.ids
      requires offered == Some(proof)
      modifies this`chain, this`archive, this`offered, this`call
      ensures Valid() && Extends(old(chain), chain)
      ensures chain == old(chain).(head := chain.head, landed := chain.landed)
      ensures resumeId.Some? ==> chain == old(chain)
      ensures resumeId.Some? ==> tx.None? && id == resumeId && p == proof
      ensures resumeId.None? ==> (tx.None? ==> id.None?)
      ensures resumeId.None? ==> p == proof.(proposalId := if armed then OrElse(id, proof.proposalId) else proof.proposalId)
      ensures tx.Some? ==> |old(chain).landed| <= tx.value && Did(chain.landed, tx.value, CreateProposal)
      ensures id.Some? ==> id.value in call.ids
      ensures call == With(old(call), id) && Rewrites(old(archive), archive, epoch, call) && Follows(archive[epoch], p, call)
      ensures archive[epoch].executeTx.None? && RecordOk(p, epoch, chain.landed)
      ensures calm ==> !crashed && (!armed || preflag || resumeId.Some? ==> id.Some?)
      ensures !crashed ==> offered == Some(p)
    {
      tx, id, p, crashed := None, resumeId, proof, false;
      if resumeId.None? && (!armed || preflag) {
        tx, id, p, crashed := ProposeStep(epoch, p, armed);
      }
    }

    /** The three steps of a node whose arming is decided. */
    method RunSteps(epoch: nat, proof: SlashProof, armed: bool, resume: bool, resumeId: Option<nat>)
      returns (res: CoSignResult, p: SlashProof, crashed: bool)
      requires Valid() && busy == Some(epoch)
      requires epoch in archive && archive[epoch] == proof && proof.executeTx.None?
      requires resume ==> chain.slashPending
      requires resumeId.Some? ==> resume && resumeId.value in call.ids
      requires armed && !resume ==> Outside(chain, lookback)
      requires truthful ==> epoch == lastBlock
      requires truthful && armed ==> !slashedMarker && !journal
      requires offered == Some(proof)
      modifies this`chain, this`approved, this`archive, this`offered, this`call
      ensures Valid() && Extends(old(chain), chain)
      ensures call == With(old(call), res.proposalId) && Rewrites(old(archive), archive, epoch, call)
      ensures Progress(proof, p, archive[epoch], epoch, res, resumeId, old(chain), chain, call)
      ensures resumeId.Some? ==> res.proposalId == resumeId
      ensures |chain.execs| <= |old(chain).execs| + 1
      ensures resume || !armed ==> chain.queues == old(chain).queues
      ensures chain.execs != old(chain).execs ==> armed && (resume || res.queueTx.Some?)
      ensures res.executeTx.Some? ==> !chain.slashPending
      ensures !crashed ==> (res.aborted <==> armed && res.executeTx.None?) && StepsAsked(res, armed, resume, resumeId)
      ensures calm ==> !crashed && (armed ==> res.executeTx.Some? && archive[epoch] == p)
      ensures !crashed ==> offered == Some(p)
    {
      var queueTx: Option<Tx>;
      queueTx, p, crashed := None, proof, false;
      if armed && !resume {
        queueTx, p, crashed := QueueStep(epoch, proof);
      }
      ghost var queued, mid, a1, before := p, chain, archive, call;
      if crashed {
        res := NOTHING;
      } else {
        res, p, crashed := ProposeAndExecute(epoch, p, armed, queueTx.Some? || resume, resumeId);
        RewritesTransitive(old(archive), a1, archive, epoch, before, call);
      }
      QueuedProgress(proof, queued, p, archive[epoch], epoch, res, queueTx, resumeId, old(chain), mid, chain, call, armed,
                     armed && !resume);
      res := WithQueue(res, queueTx, armed, armed && !resume);
    }

    /** coordinateQuorumCoSign.  `proof` is the stored snapshot; `p` is the mutated proof on return. */
    method CoordinateQuorumCoSign(epoch: nat, proof: SlashProof, resume: bool, resumeId: Option<nat>)
      returns (res: CoSignResult, p: SlashProof, armed: bool, crashed: bool)
      requires Valid() && busy == Some(epoch)
      requires epoch in archive && archive[epoch] == proof && proof.executeTx.None?
      requires resume ==> executeSlash && chain.slashPending
      requires resumeId.Some? ==> resume
      requires executeSlash && !resume ==> Outside(chain, lookback)
      requires truthful ==> epoch == lastBlock
      requires truthful && executeSlash ==> !slashedMarker && !journal
      requires offered == Some(proof)
      modifies this`chain, this`approved, this`archive, this`offered, this`call
      ensures Valid() && Extends(old(chain), chain)
      ensures call == With(old(call), res.proposalId) && Rewrites(old(archive), archive, epoch, call)
      ensures Progress(proof, p, archive[epoch], epoch, res, resumeId, old(chain), chain, call)
      ensures |chain.execs| <= |old(chain).execs| + 1
      ensures resume || !armed ==> chain.queues == old(chain).queues
      ensures armed ==> executeSlash && !fileOnlyRule
      ensures chain.execs != old(chain).execs ==> armed && (resume || res.queueTx.Some?)
      ensures res.executeTx.Some? ==> !chain.slashPending
      ensures !crashed ==> (res.aborted <==> armed && res.executeTx.None?) && StepsAsked(res, armed, resume, resumeId)
      ensures calm ==> !crashed && armed == (executeSlash && !fileOnlyRule)
      ensures calm && armed ==> res.executeTx.Some? && archive[epoch] == p
      ensures !crashed ==> offered == Some(p)
    {
      crashed := Await();
      var confirmedMember := Chance(true);
      armed := executeSlash && !fileOnlyRule && confirmedMember;
      if crashed {
        res, p := NOTHING, proof;
        return;
      }
      if resumeId.Some? {
        call := call.(ids := call.ids + {resumeId.value});
      }
      res, p, crashed := RunSteps(epoch, proof, armed, resume, resumeId);
    }

    // ---- handleViolation -----------------------------------------------------------------------

    /** In-memory bookkeeping of an attempt: the in-flight id, the retry mark and the cooldown. */
    method NoteAttempt(epoch: nat, resume: bool, res: CoSignResult)
      requires Valid() && busy == Some(epoch) && epoch in archive
      requires res.aborted ==> executeSlash
      modifies this`pendingProposalId, this`retryKeys, this`lastProposalAt
      ensures Valid()
      ensures retryKeys == if res.aborted then old(retryKeys) + {epoch} else old(retryKeys) - {epoch}
      ensures pendingProposalId ==
              if res.executeTx.Some? then None else OrElse(res.proposalId, old(pendingProposalId))
      ensures lastProposalAt ==
              if res.aborted && res.queueTx.None? && !resume then None else old(lastProposalAt)
    {
      if res.proposalId.Some? && res.executeTx.None? {
        pendingProposalId := res.proposalId;
      } else if res.executeTx.Some? {
        pendingProposalId := None;
      }
      if res.aborted {
        retryKeys := retryKeys + {epoch};
        if res.queueTx.None? && !resume {
          lastProposalAt := None; // nothing landed: retry on the next tick
        }
      } else {
        retryKeys := retryKeys - {epoch};
      }
    }

    /** The on-chain attempt and the in-memory bookkeeping that follows it. */
    method Attempt(epoch: nat, now: int, proof: SlashProof, resume: bool, reused: Option<nat>)
      returns (res: CoSignResult, p: SlashProof, armed: bool, crashed: bool)
      requires Valid() && busy == Some(epoch)
      requires epoch in archive && archive[epoch] == proof && proof.executeTx.None?
      requires resume ==> executeSlash && chain.slashPending
      requires reused.Some? ==> resume
      requires executeSlash && !resume ==> Outside(chain, lookback)
      requires truthful ==> epoch == lastBlock
      requires truthful && executeSlash ==> !slashedMarker && !journal
      requires offered == Some(proof)
      modifies this`chain, this`approved, this`archive, this`offered, this`lastProposalAt, this`pendingProposalId, this`retryKeys,
               this`slashedMarker, this`journal, this`call
      ensures Valid() && Extends(old(chain), chain)
      ensures call == With(old(call), res.proposalId) && Rewrites(old(archive), archive, epoch, call)
      ensures Progress(proof, p, archive[epoch], epoch, res, reused, old(chain), chain, call)
      ensures |chain.execs| <= |old(chain).execs| + 1
      ensures resume || !armed ==> chain.queues == old(chain).queues
      ensures armed ==> executeSlash && !fileOnlyRule
      ensures chain.execs != old(chain).execs ==> armed && (resume || res.queueTx.Some?)
      ensures truthful && chain.slashPending ==> p.executeTx.None?
      ensures !crashed ==> (epoch in retryKeys <==> res.aborted) && (res.aborted <==> armed && res.executeTx.None?)
      ensures !crashed && res.executeTx.Some? ==> slashedMarker && pendingProposalId.None?
      ensures !crashed ==> StepsAsked(res, armed, resume, reused)
      ensures !crashed && res.aborted && (resume || res.queueTx.Some?) ==> lastProposalAt == Some(now)
      ensures !crashed && res.aborted && !resume && res.queueTx.None? ==> lastProposalAt.None?
      ensures calm ==> !crashed && armed == (executeSlash && !fileOnlyRule)
      ensures calm && armed ==> res.executeTx.Some? && archive[epoch] == p && journal
      ensures !crashed ==> offered == Some(p)
    {
      lastProposalAt := Some(now); // armed on the attempt, whatever its result
      res, p, armed, crashed := CoordinateQuorumCoSign(epoch, proof, resume, reused);
      if crashed {
        return;
      }
      crashed := SettleAttempt(epoch, resume, res);
    }

    /** The bookkeeping and, after an execute, the over-slash marker. */
    method SettleAttempt(epoch: nat, resume: bool, res: CoSignResult) returns (crashed: bool)
      requires Valid() && busy == Some(epoch) && epoch in archive
      requires res.aborted ==> executeSlash
      requires truthful && res.executeTx.Some? ==> !chain.slashPending
      modifies this`chain, this`pendingProposalId, this`retryKeys, this`lastProposalAt, this`slashedMarker, this`journal
      ensures Valid() && Extends(old(chain), chain) && chain == old(chain).(head := chain.head)
      ensures epoch in retryKeys <==> res.aborted
      ensures res.executeTx.Some? ==> slashedMarker && pendingProposalId.None?
      ensures lastProposalAt == if res.aborted && res.queueTx.None? && !resume then None else old(lastProposalAt)
      ensures calm ==> !crashed && (res.executeTx.Some? ==> journal)
    {
      crashed := false;
      NoteAttempt(epoch, resume, res);
      if res.executeTx.Some? {
        crashed := RecordCoarseSlashed();
      }
    }

    /** The archive's reads of this block's record: either may answer "absent" although it is there. */
    method ReadArchive(epoch: nat) returns (archived: Option<SlashProof>, present: bool)
      ensures archived.Some? ==> epoch in archive && archived.value == archive[epoch]
      ensures present ==> epoch in archive && archiveReadable
      ensures calm && archiveReadable ==> archived.Some? == present == (epoch in archive)
    {
      var get := Chance(true);
      var has := Chance(true);
      archived := if epoch in archive && get && archiveReadable then Some(archive[epoch]) else None;
      present := epoch in archive && has && archiveReadable;
    }

    /**
     * The dedup gate.  `archived` is the stored record of this block as an armed node read it; `missed`
     * if the call goes on over a record that it did not see, or did not see to be executed.
     */
    method DedupGate(epoch: nat) returns (skip: bool, archived: Option<SlashProof>, crashed: bool, ghost missed: bool)
      requires Valid()
      requires epoch in retryKeys ==> archive[epoch].executeTx.None?
      modifies this`chain, this`missedRead
      ensures Valid() && Extends(old(chain), chain) && chain == old(chain).(head := chain.head)
      ensures Outside(old(chain), lookback) ==> Outside(chain, lookback)
      ensures archived.Some? ==> executeSlash && epoch in archive && archived.value == archive[epoch]
      ensures skip ==> epoch in proposedKeys || (epoch in archive && archiveReadable)
      ensures skip && executeSlash ==> slashedMarker || (epoch in archive && archive[epoch].executeTx.Some?)
      ensures missed <==> !skip && epoch in archive && (archived.None? || archive[epoch].executeTx.Some?)
      ensures missedRead == (old(missedRead) || missed)
      ensures calm ==> !crashed && (archiveReadable ==> !missed)
    {
      crashed := Await();
      var read, present := ReadArchive(epoch);
      archived := if executeSlash then read else None;
      var armedUnfinished := executeSlash && !slashedMarker && (archived.None? || archived.value.executeTx.None?);
      skip := epoch !in retryKeys && !armedUnfinished && (epoch in proposedKeys || present);
      missed := !skip && epoch in archive && (archived.None? || archive[epoch].executeTx.Some?);
      missedRead := missedRead || missed;
    }

    /**
     * Archive-before-execute: nothing is sent before this write has succeeded.  It loses progress exactly
     * if the read behind it missed a record with some, or the record was executed.
     */
    method ArchiveEvidence(epoch: nat, now: int, archived: Option<SlashProof>)
      returns (proof: SlashProof, ok: bool, crashed: bool)
      requires Valid() && busy == Some(epoch)
      requires truthful ==> epoch == lastBlock
      requires archived.Some? ==> epoch in archive && archived.value == archive[epoch]
      modifies this`chain, this`archive, this`offered, this`proposedKeys
      ensures Valid() && Extends(old(chain), chain) && chain == old(chain).(head := chain.head)
      ensures Outside(old(chain), lookback) ==> Outside(chain, lookback)
      ensures proof == InitialProof(archived)
      ensures archive == if ok then old(archive)[epoch := proof] else old(archive)
      ensures proposedKeys == if ok then old(proposedKeys)[epoch := now] else old(proposedKeys)
      ensures offered == Some(proof)
      ensures Durable(old(archive), archive, call.mark) <==>
                !(ok && epoch in old(archive) && Loses(old(archive)[epoch], archived))
      ensures Durable(old(archive), archive, call.mark) ==> Safe(old(archive), archive, epoch, call)
      ensures calm ==> ok && !crashed
    {
      proof := InitialProof(archived);
      assert RecordOk(proof, epoch, chain.landed) by {
        if archived.Some? {
          assert RecordOk(archived.value, epoch, chain.landed);
        }
      }
      ok, crashed := Put(epoch, proof);
      EvidenceLoses(old(archive), epoch, archived, call);
      if ok {
        proposedKeys := proposedKeys[epoch := now];
      }
    }

    /** Ghost bookkeeping at the end of a call that did not crash. */
    ghost method Leave(epoch: nat)
      requires Valid() && busy == Some(epoch)
      requires epoch in retryKeys ==> epoch in archive && archive[epoch].executeTx.None?
      modifies this`busy
      ensures Valid() && busy.None?
    {
      busy := None;
    }

    /** The last archive write of a call. */
    method FinalPut(epoch: nat, proof: SlashProof, p: SlashProof, res: CoSignResult, ghost reused: Option<nat>,
                    ghost before: Chain) returns (ok: bool, crashed: bool)
      requires Valid() && busy == Some(epoch)
      requires epoch in archive && Progress(proof, p, archive[epoch], epoch, res, reused, before, chain, call)
      requires call.mark <= |before.landed|
      requires truthful ==> epoch == lastBlock && (chain.slashPending ==> p.executeTx.None?)
      modifies this`chain, this`archive, this`offered
      ensures Valid() && Extends(old(chain), chain) && chain == old(chain).(head := chain.head)
      ensures Rewrites(old(archive), archive, epoch, call)
      ensures res.executeTx.None? ==> archive[epoch].executeTx.None?
      ensures ok ==> archive[epoch] == Finalize(p, epoch, res)
      ensures ok ==> Reports(res, archive[epoch], epoch)
      ensures ok && res.executeTx.Some? ==> ExecutedAndStored(res, archive[epoch], epoch)
      ensures calm ==> ok && !crashed
    {
      FinalizeOk(archive[epoch], p, epoch, res, chain.landed, call);
      ok, crashed := Put(epoch, Finalize(p, epoch, res));
    }

    /** Whether the last attempt is still cooling down. */
    predicate Cooling(now: int)
      reads this`lastProposalAt
    {
      lastProposalAt.Some? && now - lastProposalAt.value < cooldownMs
    }

    /** An armed node assesses the slash state outside the cooldown, and inside it while a slash is in flight. */
    ghost predicate Assesses(epoch: nat, cooling: bool)
      reads this
    {
      executeSlash && (!cooling || pendingProposalId.Some? || epoch in retryKeys)
    }

    /** The cooldown and the slash state; a node with a slash in flight assesses even inside the cooldown. */
    method Decide(epoch: nat, now: int) returns (withinCooldown: bool, state: SlashState, crashed: bool, seen: Reads)
      requires Valid()
      modifies this`chain, this`slashedMarker, this`pendingProposalId, this`journal, this`truthful
      ensures Valid() && Extends(old(chain), chain) && chain == old(chain).(head := chain.head)
      ensures truthful ==> old(truthful)
      ensures withinCooldown == Cooling(now)
      ensures state.Pending? ==> executeSlash && chain.slashPending
      ensures !state.Executed? ==> pendingProposalId == old(pendingProposalId)
      ensures !withinCooldown && executeSlash && state.Clear? ==> Outside(chain, lookback)
      ensures !withinCooldown && executeSlash && !state.Executed? ==> !slashedMarker && (truthful ==> !journal)
      ensures !withinCooldown && executeSlash && !crashed && seen.exact && truthful && chain.slashPending ==> state.Pending?
      ensures !crashed && state.Blocked? ==> !seen.scanned
      ensures !crashed && seen.exact && seen.scanned && truthful && old(Unslashed()) ==> state.Clear?
      ensures !executeSlash ==> state.Clear?
      ensures calm ==> !crashed && seen == Reads(true, true) && truthful == old(truthful)
      ensures calm ==> Learned(state, old(Assesses(epoch, Cooling(now))), old(slashedMarker) || old(journal),
                               old(Outside(chain, lookback)), Outside(chain, lookback))
      ensures state.Executed? && !crashed ==> slashedMarker
      ensures !old(Assesses(epoch, Cooling(now))) ==> state.Clear? && !crashed && slashedMarker == old(slashedMarker)
    {
      withinCooldown := Cooling(now);
      var inFlight := pendingProposalId.Some? || epoch in retryKeys;
      state, crashed, seen := Clear, false, Reads(true, true);
      if executeSlash && (!withinCooldown || inFlight) {
        state, crashed, seen := AssessSlashState();
      }
    }

    /** A call that ends without an attempt only stores its evidence. */
    method EndWithoutAttempt(epoch: nat, proof: SlashProof, why: Outcome) returns (r: Outcome)
      requires Valid() && busy == Some(epoch)
      requires epoch in archive && archive[epoch] == proof && proof.executeTx.None?
      requires truthful ==> epoch == lastBlock
      modifies this`chain, this`archive, this`offered, this`busy
      ensures Valid() && Extends(old(chain), chain) && chain == old(chain).(head := chain.head)
      ensures Rewrites(old(archive), archive, epoch, call) && archive[epoch].executeTx.None?
      ensures busy.None? || r.Crashed?
      ensures r == why || r.Crashed? || r.Threw?
      ensures calm ==> r == why
    {
      assert Progress(proof, proof, proof, epoch, NOTHING, None, chain, chain, call);
      var ok, crashed := FinalPut(epoch, proof, proof, NOTHING, None, chain);
      if crashed {
        return Crashed;
      }
      Leave(epoch);
      r := if ok then why else Threw;
    }

    /**
     * An attempt followed by the final put.  `snapshot` is the record on disk before that put; one that
     * holds an execute is rewritten exactly unless the attempt reused the id it already holds.
     */
    method EndWithAttempt(epoch: nat, now: int, proof: SlashProof, resume: bool, reused: Option<nat>)
      returns (r: Outcome, ghost snapshot: SlashProof)
      requires Valid() && busy == Some(epoch) && call.mark == |chain.landed|
      requires epoch in archive && archive[epoch] == proof && proof.executeTx.None?
      requires resume ==> executeSlash && chain.slashPending
      requires reused.Some? ==> resume
      requires executeSlash && !resume ==> Outside(chain, lookback)
      requires truthful ==> epoch == lastBlock
      requires truthful && executeSlash ==> !slashedMarker && !journal
      requires offered == Some(proof)
      modifies this`chain, this`approved, this`archive, this`offered, this`lastProposalAt, this`pendingProposalId, this`retryKeys,
               this`slashedMarker, this`journal, this`busy, this`call
      ensures Valid() && Extends(old(chain), chain) && |chain.execs| <= |old(chain).execs| + 1
      ensures Wrote(r, old(call), call) && Rewrites(old(archive), archive, epoch, call)
      ensures busy.None? || r.Crashed?
      ensures r.Crashed? || r.Threw? || (r.Attempted? && r.resume == resume)
      ensures resume ==> chain.queues == old(chain).queues
      ensures chain.execs != old(chain).execs ==> executeSlash && !fileOnlyRule
      ensures r.Attempted? ==> AttemptRule(r, reused, epoch, archive[epoch], Past(old(chain)), Past(chain))
      ensures r.Attempted? && r.res.executeTx.Some? ==> slashedMarker
      ensures r.Attempted? ==> (epoch in retryKeys <==> r.armed && r.res.executeTx.None?)
      ensures r.Attempted? && snapshot.executeTx.Some? ==> (archive[epoch] == snapshot <==> KeepsSnapshot(proof, reused))
      ensures calm ==> r.Attempted?
      ensures calm && executeSlash && !fileOnlyRule ==>
                r.Attempted? && r.res.executeTx.Some? && snapshot.executeTx.Some? && journal
    {
      assert RecordOk(proof, epoch, chain.landed);
      var res, p, armed, crashed := Attempt(epoch, now, proof, resume, reused);
      snapshot := archive[epoch];
      r := FinishAttempt(epoch, proof, p, if crashed then Crashed else Attempted(resume, armed, res), reused, old(chain),
                         old(archive));
    }

    /** The final put of an attempt. */
    method FinishAttempt(epoch: nat, proof: SlashProof, p: SlashProof, done: Outcome, ghost reused: Option<nat>,
                         ghost before: Chain, ghost first: map<nat, SlashProof>) returns (r: Outcome)
      requires Valid() && busy == Some(epoch) && call.mark == |before.landed| && (done.Attempted? || done.Crashed?)
      requires Rewrites(first, archive, epoch, call)
      requires done.Attempted? ==> Progress(proof, p, archive[epoch], epoch, done.res, reused, before, chain, call)
      requires proof.proposalTx.Some? ==> proof.proposalTx.value < |before.landed|
      requires done.Attempted? && epoch in retryKeys ==> done.res.executeTx.None?
      requires truthful ==> epoch == lastBlock && (chain.slashPending ==> p.executeTx.None?)
      modifies this`chain, this`archive, this`offered, this`busy
      ensures Valid() && Extends(old(chain), chain) && chain == old(chain).(head := chain.head)
      ensures Rewrites(first, archive, epoch, call)
      ensures busy.None? || r.Crashed?
      ensures r == done || r.Crashed? || r.Threw?
      ensures calm ==> r == done
      ensures r.Attempted? ==> r == done
      ensures r.Attempted? ==> Reports(done.res, archive[epoch], epoch)
      ensures r.Attempted? && done.res.executeTx.Some? ==> ExecutedAndStored(done.res, archive[epoch], epoch)
      ensures r.Attempted? && old(archive)[epoch].executeTx.Some? ==>
                (archive[epoch] == old(archive)[epoch] <==> KeepsSnapshot(proof, reused))
    {
      if done.Crashed? {
        return Crashed;
      }
      if done.res.executeTx.Some? {
        FinalPutChangesExecutedRecord(proof, p, epoch, done.res, reused, call.mark);
      }
      ghost var a1 := archive;
      var ok, died := FinalPut(epoch, proof, p, done.res, reused, before);
      RewritesTransitive(first, a1, archive, epoch, call, call);
      if died {
        return Crashed;
      }
      Leave(epoch);
      r := if ok then done else Threw;
    }

    /** handleViolation once the evidence is stored. */
    method Process(epoch: nat, now: int, proof: SlashProof, archived: Option<SlashProof>)
      returns (r: Outcome, seen: Reads, ghost snapshot: SlashProof)
      requires Valid() && busy == Some(epoch) && call.mark == |chain.landed|
      requires epoch in archive && archive[epoch] == proof && proof.executeTx.None?
      requires truthful ==> epoch == lastBlock
      requires offered == Some(proof)
      modifies this`chain, this`approved, this`archive, this`offered, this`lastProposalAt, this`pendingProposalId, this`retryKeys,
               this`slashedMarker, this`journal, this`busy, this`truthful, this`call
      ensures Valid() && Extends(old(chain), chain) && |chain.execs| <= |old(chain).execs| + 1
      ensures Wrote(r, old(call), call) && Rewrites(old(archive), archive, epoch, call)
      ensures busy.None? || r.Crashed?
      ensures !r.Skipped? && (truthful ==> old(truthful))
      ensures chain.execs != old(chain).execs ==> executeSlash && !fileOnlyRule && !r.Suppressed? && !r.Guarded?
      ensures r.Attempted? ==>
                AttemptRule(r, Reused(r, archived, old(pendingProposalId)), epoch, archive[epoch], Past(old(chain)), Past(chain))
      ensures r.Attempted? && r.res.executeTx.Some? ==> slashedMarker
      ensures r.Attempted? && snapshot.executeTx.Some? ==>
                (archive[epoch] == snapshot <==> KeepsSnapshot(proof, Reused(r, archived, old(pendingProposalId))))
      ensures r.Suppressed? || r.Guarded? ==> archive[epoch].executeTx.None?
      ensures calm ==> truthful == old(truthful)
      ensures Answers(r, seen, truthful, calm, old(Facing(now)), chain.queues != old(chain).queues,
                      snapshot.executeTx.Some? && journal)
    {
      snapshot := proof;
      var withinCooldown, state, crashed, quality := Decide(epoch, now);
      seen := quality;
      if crashed {
        return Crashed, seen, snapshot;
      }
      r, snapshot := Act(epoch, now, proof, archived, withinCooldown, state);
    }

    /** Cooldown, guard or attempt. */
    method Act(epoch: nat, now: int, proof: SlashProof, archived: Option<SlashProof>, withinCooldown: bool, state: SlashState)
      returns (r: Outcome, ghost snapshot: SlashProof)
      requires Valid() && busy == Some(epoch) && call.mark == |chain.landed|
      requires epoch in archive && archive[epoch] == proof && proof.executeTx.None?
      requires truthful ==> epoch == lastBlock
      requires state.Pending? ==> executeSlash && chain.slashPending
      requires !withinCooldown && executeSlash && state.Clear? ==> Outside(chain, lookback)
      requires !withinCooldown && executeSlash && !state.Executed? ==> !slashedMarker && (truthful ==> !journal)
      requires offered == Some(proof)
      modifies this`chain, this`approved, this`archive, this`offered, this`lastProposalAt, this`pendingProposalId, this`retryKeys,
               this`slashedMarker, this`journal, this`busy, this`call
      ensures Valid() && Extends(old(chain), chain) && |chain.execs| <= |old(chain).execs| + 1
      ensures Wrote(r, old(call), call) && Rewrites(old(archive), archive, epoch, call)
      ensures busy.None? || r.Crashed?
      ensures Acted(r, withinCooldown, state)
      ensures chain.execs != old(chain).execs ==> executeSlash && !fileOnlyRule
      ensures withinCooldown || !state.Clear? ==> chain.queues == old(chain).queues
      ensures r.Suppressed? || r.Guarded? ==> chain.execs == old(chain).execs && archive[epoch].executeTx.None?
      ensures r.Attempted? ==>
                AttemptRule(r, Reused(r, archived, old(pendingProposalId)), epoch, archive[epoch], Past(old(chain)), Past(chain))
      ensures r.Attempted? && r.res.executeTx.Some? ==> slashedMarker
      ensures r.Attempted? && snapshot.executeTx.Some? ==>
                (archive[epoch] == snapshot <==> KeepsSnapshot(proof, Reused(r, archived, old(pendingProposalId))))
      ensures calm ==> !r.Crashed? && !r.Threw?
      ensures calm && r.Attempted? && executeSlash && !fileOnlyRule ==>
                r.res.executeTx.Some? && snapshot.executeTx.Some? && journal
    {
      snapshot := proof;
      if withinCooldown {
        r := EndWithoutAttempt(epoch, proof, Suppressed);
      } else if state.Executed? || state.Blocked? {
        r := EndWithoutAttempt(epoch, proof, Guarded(state));
      } else {
        var reused := if state.Pending? then Carried(archived, pendingProposalId) else None;
        r, snapshot := EndWithAttempt(epoch, now, proof, state.Pending?, reused);
      }
    }

    /** Ghost bookkeeping at the start of a call. */
    ghost method Enter(epoch: nat)
      requires Valid() && busy.None?
      modifies this`lastBlock, this`truthful, this`busy, this`call
      ensures Valid() && busy == Some(epoch) && call == Call(|chain.landed|, {})
      ensures truthful <==> old(truthful) && old(lastBlock) <= epoch
      ensures truthful ==> lastBlock == epoch
      ensures epoch in retryKeys ==> epoch in archive && archive[epoch].executeTx.None?
    {
      truthful := truthful && lastBlock <= epoch;
      lastBlock := if epoch < lastBlock then lastBlock else epoch;
      busy := Some(epoch);
      call := Call(|chain.landed|, {});
    }

    /** Dedup gate, then the evidence. */
    method StoreEvidence(epoch: nat, now: int)
      returns (early: Option<Outcome>, proof: SlashProof, archived: Option<SlashProof>, ghost missed: bool)
      requires Valid() && busy == Some(epoch)
      requires truthful ==> epoch == lastBlock
      requires epoch in retryKeys ==> archive[epoch].executeTx.None?
      modifies this`chain, this`archive, this`offered, this`proposedKeys, this`busy, this`missedRead
      ensures Valid() && Extends(old(chain), chain) && chain == old(chain).(head := chain.head)
      ensures Others(old(archive), archive, epoch)
      ensures !missed ==> Safe(old(archive), archive, epoch, call)
      ensures missed ==> epoch in old(archive)
      ensures missedRead == (old(missedRead) || missed)
      ensures archived.Some? ==> executeSlash && epoch in old(archive) && archived.value == old(archive)[epoch]
      ensures early.Some? ==> early.value in {Skipped, Threw, Crashed} && (busy.None? || early.value.Crashed?)
      ensures early == Some(Skipped) ==>
                epoch in old(proposedKeys) || (epoch in old(archive) && archiveReadable)
      ensures early == Some(Skipped) && executeSlash && truthful ==> !chain.slashPending
      ensures early == Some(Skipped) && executeSlash ==>
                slashedMarker || (epoch in archive && archive[epoch].executeTx.Some?)
      ensures early == Some(Skipped) ==> archive == old(archive)
      ensures early.None? ==> busy == Some(epoch) && epoch in archive && archive[epoch] == proof && proof == InitialProof(archived)
      ensures early.None? && !missed && epoch in old(archive) ==> archived == Some(old(archive)[epoch]) && archived.value.executeTx.None?
      ensures calm ==> early.None? || early == Some(Skipped)
      ensures Outside(old(chain), lookback) ==> Outside(chain, lookback)
      ensures early.None? ==> offered == Some(proof)
    {
      proof, archived := InitialProof(None), None;
      var skip, crashed;
      skip, archived, crashed, missed := DedupGate(epoch);
      EvidenceLoses(archive, epoch, archived, call);
      if crashed {
        early := Some(Crashed);
      } else if skip {
        early := Some(Skipped);
        Leave(epoch);
      } else {
        early, proof := WriteEvidence(epoch, now, archived);
      }
    }

    /** The evidence write, which ends the call if it fails. */
    method WriteEvidence(epoch: nat, now: int, archived: Option<SlashProof>) returns (early: Option<Outcome>, proof: SlashProof)
      requires Valid() && busy == Some(epoch)
      requires truthful ==> epoch == lastBlock
      requires archived.Some? ==> epoch in archive && archived.value == archive[epoch]
      requires epoch in retryKeys ==> epoch in archive && archive[epoch].executeTx.None?
      modifies this`chain, this`archive, this`offered, this`proposedKeys, this`busy
      ensures Valid() && Extends(old(chain), chain) && chain == old(chain).(head := chain.head)
      ensures Outside(old(chain), lookback) ==> Outside(chain, lookback)
      ensures Others(old(archive), archive, epoch)
      ensures !(epoch in old(archive) && Loses(old(archive)[epoch], archived)) ==> Safe(old(archive), archive, epoch, call)
      ensures early.Some? ==> early.value in {Threw, Crashed} && (busy.None? || early.value.Crashed?)
      ensures early.None? ==> busy == Some(epoch) && epoch in archive && archive[epoch] == proof && offered == Some(proof)
      ensures proof == InitialProof(archived)
      ensures early == Some(Threw) ==> proposedKeys == old(proposedKeys)
      ensures early.None? ==> proposedKeys == old(proposedKeys)[epoch := now]
      ensures calm ==> early.None?
    {
      var ok, died;
      proof, ok, died := ArchiveEvidence(epoch, now, archived);
      if died {
        return Some(Crashed), proof;
      }
      if !ok {
        Leave(epoch);
        return Some(Threw), proof;
      }
      early := None;
    }

    /**
     * handleViolation for a violation at finalized block `epoch`.
     *
     * Safety: `Valid` holds whether the call ends, throws or crashes; an execute lands only in an armed
     * attempt that queued itself or resumed a pending slash.  Records of other blocks never change, and
     * this block's loses nothing unless the call `missed` it, reading the archive.
     *
     * No stranded operator: with true answers, a pending slash is not dropped by the dedup gate and
     * not held back by the over-slash guard; outside the cooldown the call resumes it, and never
     * queues a second time.  In a calm environment it completes the slash.
     *
     * `snapshot` is the record before the final put; an executed one is rewritten exactly unless the
     * attempt reused the proposal id that the record held before the call.
     */
    method HandleViolation(epoch: nat, now: int) returns (r: Outcome, seen: Reads, ghost t: Trace)
      requires Valid() && busy.None?
      modifies this`chain, this`approved, this`archive, this`offered, this`proposedKeys, this`lastProposalAt, this`pendingProposalId, this`retryKeys,
               this`slashedMarker, this`journal, this`busy, this`missedRead, this`lastBlock, this`truthful, this`call
      ensures Valid()
      ensures busy.None? || r.Crashed?
      ensures Extends(old(chain), chain) && |chain.execs| <= |old(chain).execs| + 1
      ensures call.mark == |old(chain).landed| && Wrote(r, Call(call.mark, {}), call)
      ensures Leaves(t, r, epoch, old(archive), archive, call, old(pendingProposalId), Past(old(chain)), Past(chain))
      ensures missedRead == (old(missedRead) || t.missed)
      ensures truthful ==> old(truthful) && epoch >= old(lastBlock)
      ensures chain.landed != old(chain).landed ==> epoch in archive
      ensures chain.execs != old(chain).execs ==>
                executeSlash && !fileOnlyRule && (r.Crashed? || r.Threw? || r.Attempted?)
      ensures r.Attempted? && r.res.executeTx.Some? ==> slashedMarker
      ensures r.Skipped? ==>
                && (epoch in old(proposedKeys) || (epoch in old(archive) && archiveReadable))
                && (executeSlash ==> !(old(chain).slashPending && truthful) && (old(Unslashed()) ==> epoch in old(archive)))
      ensures r.Skipped? || Answers(r, seen, truthful, calm, old(Facing(now)), chain.queues != old(chain).queues,
                                    t.snapshot.executeTx.Some? && journal)
      ensures calm ==> truthful == (old(truthful) && epoch >= old(lastBlock))
      ensures r.Attempted? && executeSlash && !t.missed && epoch in old(archive) ==> t.read.Some?
    {
      var early, proof, archived;
      ghost var missed;
      early, proof, archived, missed := Begin(epoch, now);
      r, seen, t := Continue(epoch, now, early, proof, archived, old(archive), missed, old(Facing(now)));
    }

    /** The start of a call, up to its stored evidence. */
    method Begin(epoch: nat, now: int)
      returns (early: Option<Outcome>, proof: SlashProof, archived: Option<SlashProof>, ghost missed: bool)
      requires Valid() && busy.None?
      modifies this`chain, this`archive, this`offered, this`proposedKeys, this`busy, this`missedRead, this`lastBlock, this`truthful, this`call
      ensures Valid() && Extends(old(chain), chain) && chain == old(chain).(head := chain.head)
      ensures call == Call(|chain.landed|, {})
      ensures Others(old(archive), archive, epoch)
      ensures !missed ==> Safe(old(archive), archive, epoch, call)
      ensures missed ==> epoch in old(archive)
      ensures missedRead == (old(missedRead) || missed)
      ensures truthful <==> old(truthful) && epoch >= old(lastBlock)
      ensures truthful ==> epoch == lastBlock
      ensures archived.Some? ==> epoch in old(archive) && archived.value == old(archive)[epoch]
      ensures early.Some? ==> early.value in {Skipped, Threw, Crashed} && (busy.None? || early.value.Crashed?)
      ensures early == Some(Skipped) ==> epoch in old(proposedKeys) || (epoch in old(archive) && archiveReadable)
      ensures early == Some(Skipped) && executeSlash ==>
                !(old(chain).slashPending && truthful) && (old(Unslashed()) ==> epoch in old(archive))
      ensures early.None? ==> busy == Some(epoch) && epoch in archive && archive[epoch] == proof && proof == InitialProof(archived)
      ensures early.None? && executeSlash && !missed && epoch in old(archive) ==> archived.Some?
      ensures early.None? && !missed && epoch in old(archive) ==> old(archive)[epoch].executeTx.None?
      ensures calm ==> early.None? || early == Some(Skipped)
      ensures Facing(now) == old(Facing(now)).(unslashed := Unslashed()) && (old(Unslashed()) ==> Unslashed())
      ensures early.None? ==> offered == Some(proof)
    {
      Enter(epoch);
      early, proof, archived, missed := StoreEvidence(epoch, now);
    }

    /** The rest of a call that was not ended early. */
    method Continue(epoch: nat, now: int, early: Option<Outcome>, proof: SlashProof, archived: Option<SlashProof>,
                    ghost first: map<nat, SlashProof>, ghost missed: bool, ghost s: Situation)
      returns (r: Outcome, seen: Reads, ghost t: Trace)
      requires Valid() && call.mark == |chain.landed|
      requires early.Some? ==> early.value in {Skipped, Threw, Crashed} && (busy.None? || early.value.Crashed?)
      requires calm ==> early.None? || early == Some(Skipped)
      requires early.None? ==> busy == Some(epoch) && epoch in archive && archive[epoch] == proof && proof.executeTx.None?
      requires early.None? && truthful ==> epoch == lastBlock
      requires Others(first, archive, epoch) && (missed ==> epoch in first)
      requires !missed ==> Safe(first, archive, epoch, call)
      requires archived.Some? ==> epoch in first && archived.value == first[epoch]
      requires early.None? ==> proof == InitialProof(archived)
      requires early.None? && !missed && epoch in first ==> first[epoch].executeTx.None?
      requires Facing(now) == s.(unslashed := Unslashed()) && (s.unslashed ==> Unslashed())
      requires early.None? ==> offered == Some(proof)
      modifies this`chain, this`approved, this`archive, this`offered, this`lastProposalAt, this`pendingProposalId, this`retryKeys,
               this`slashedMarker, this`journal, this`busy, this`truthful, this`call
      ensures Valid() && Extends(old(chain), chain) && |chain.execs| <= |old(chain).execs| + 1
      ensures Wrote(r, old(call), call)
      ensures early.Some? ==> r == early.value && chain == old(chain) && archive == old(archive) && truthful == old(truthful)
      ensures early.None? ==> !r.Skipped? && epoch in archive
      ensures t.missed == missed && t.read == archived
      ensures Leaves(t, r, epoch, first, archive, call, old(pendingProposalId), Past(old(chain)), Past(chain))
      ensures busy.None? || r.Crashed?
      ensures truthful ==> old(truthful)
      ensures chain.execs != old(chain).execs ==>
                executeSlash && !fileOnlyRule && (r.Crashed? || r.Threw? || r.Attempted?)
      ensures r.Attempted? && r.res.executeTx.Some? ==> slashedMarker
      ensures calm ==> truthful == old(truthful)
      ensures r.Skipped? || Answers(r, seen, truthful, calm, s, chain.queues != old(chain).queues,
                                    t.snapshot.executeTx.Some? && journal)
    {
      t := Trace(missed, archived, proof);
      if early.Some? {
        return early.value, Reads(true, true), t;
      }
      ghost var stored, facing, snapshot := archive, Facing(now), proof;
      r, seen, snapshot := Process(epoch, now, proof, archived);
      AnswersEarlier(r, seen, truthful, calm, s, facing, chain.queues != old(chain).queues,
                     snapshot.executeTx.Some? && journal);
      t := t.(snapshot := snapshot);
      if r.Attempted? {
        ReusedIsKnown(r, archived, old(pendingProposalId), epoch, archive[epoch], Past(old(chain)), Past(chain));
      }
      if !missed {
        RewritesIsDurable(first, stored, archive, epoch, old(call), call);
      }
    }

    /** pruneDedupState: aged entries go; the retry set and the in-flight ids are dropped at the size cap. */
    method Prune(now: int, retryCapHit: bool, idCapHit: bool)
      requires Valid() && busy.None?
      modifies this`proposedKeys, this`lastProposalAt, this`retryKeys, this`pendingProposalId
      ensures Valid()
      ensures proposedKeys == Recent(old(proposedKeys), now, cooldownMs)
      ensures lastProposalAt == if old(lastProposalAt).Some? && now - old(lastProposalAt).value > cooldownMs
                                then None else old(lastProposalAt)
      ensures retryKeys == if retryCapHit then {} else old(retryKeys)
      ensures pendingProposalId == if idCapHit then None else old(pendingProposalId)
    {
      proposedKeys := Recent(proposedKeys, now, cooldownMs);
      if lastProposalAt.Some? && now - lastProposalAt.value > cooldownMs {
        lastProposalAt := None;
      }
      if retryCapHit {
        retryKeys := {};
      }
      if idCapHit {
        pendingProposalId := None;
      }
    }

    /** The marker or a handled block is evicted by the entries of other operators. */
    method Evict(marker: bool, block: nat)
      requires Valid() && busy.None?
      modifies this`slashedMarker, this`proposedKeys
      ensures Valid()
      ensures slashedMarker == (old(slashedMarker) && !marker)
      ensures proposedKeys == old(proposedKeys) - {block}
    {
      if marker {
        slashedMarker := false;
      }
      proposedKeys := proposedKeys - {block};
    }

    /** A new process, possibly rearmed, on the same disk and chain: all in-memory state is gone. */
    method Restart(armed: bool)
      requires Valid()
      modifies this`executeSlash, this`slashedMarker, this`retryKeys, this`proposedKeys, this`lastProposalAt,
               this`pendingProposalId, this`busy
      ensures Valid() && busy.None? && executeSlash == armed
      ensures !slashedMarker && retryKeys == {} && proposedKeys == map[] && lastProposalAt.None? && pendingProposalId.None?
    {
      slashedMarker, retryKeys, proposedKeys := false, {}, map[];
      lastProposalAt, pendingProposalId := None, None;
      executeSlash, busy := armed, None;
    }
  }
  lemma DurableTransitive(a0: map<nat, SlashProof>, a1: map<nat, SlashProof>, a2: map<nat, SlashProof>, mark: nat, later: nat)
    requires Durable(a0, a1, mark) && Durable(a1, a2, later) && mark <= later
    ensures Durable(a0, a2, mark)
  {
    forall b | b in a0
      ensures b in a2 && Keeps(a0[b], a2[b], mark) && (a0[b].executeTx.Some? ==> a2[b] == a0[b])
    {
      assert b in a1 && b in a2;
    }
  }

  /**
   * Every run of the node: violations, healthy reads, pruning, evictions, archive outages, restarts and
   * crashes at any await, in any order.  No lookback window ever holds two executed slashes, executes
   * never outnumber queues, and the archive only gains as long as no call missed a record.
   */
  method AnyRun(s: AuditService, steps: nat)
    requires s.Valid() && s.busy.None?
    modifies s
    ensures s.Valid()
    ensures Extends(old(s.chain), s.chain)
    ensures forall head: nat :: |Visible(s.chain.execs, s.lookback, head)| <= 1
    ensures |s.chain.execs| <= s.chain.queues
    ensures !s.missedRead ==> Durable(old(s.archive), s.archive, |old(s.chain).landed|)
  {
    for i := 0 to steps
      invariant s.Valid() && s.busy.None?
      invariant Extends(old(s.chain), s.chain)
      invariant !s.missedRead ==> Durable(old(s.archive), s.archive, |old(s.chain).landed|)
    {
      ghost var before, landed := s.archive, s.chain.landed;
      AnyStep(s);
      if !s.missedRead {
        DurableTransitive(old(s.archive), before, s.archive, |old(s.chain).landed|, |landed|);
      }
    }
    forall head: nat
      ensures |Visible(s.chain.execs, s.lookback, head)| <= 1
    {
      AtMostOneSlashPerWindow(s.chain, s.lookback, head);
    }
  }

  /** One thing that may happen to a node. */
  method AnyStep(s: AuditService)
    requires s.Valid() && s.busy.None?
    modifies s
    ensures s.Valid() && s.busy.None?
    ensures Extends(old(s.chain), s.chain)
    ensures old(s.missedRead) ==> s.missedRead
    ensures !s.missedRead ==> Durable(old(s.archive), s.archive, |old(s.chain).landed|)
  {
    var now: int := *;
    var crashed := false;
    if {
      case true =>
        var epoch :| epoch >= 0;
        var r, _, _ := s.HandleViolation(epoch, now);
        crashed := r.Crashed?;
      case true => crashed := s.ClearCoarseSlashed();
      case true => var a, b: bool := *, *; s.Prune(now, a, b);
      case true => var m: bool, b :| b >= 0; s.Evict(m, b);
      case true => s.archiveReadable := *;
      case true => crashed := true;
    }
    if crashed {
      var armed: bool := *;
      s.Restart(armed);
    }
  }

  /** A first violation in a calm environment: it is slashed, and its executed snapshot is rewritten. */
  method FinalPutRewrites() returns (s: AuditService, ghost snapshot: SlashProof)
    ensures s.Valid() && s.busy.None? && s.calm && s.executeSlash && s.journal && fresh(s)
    ensures 7 in s.archive && s.archive[7].executeTx.Some? && |s.chain.execs| == 1
    ensures snapshot.executeTx.Some? && s.archive[7] != snapshot
  {
    s := new AuditService(true, false, 100, 60000, 1, true);
    var r, seen;
    ghost var t;
    r, seen, t := s.HandleViolation(7, 0);
    snapshot := t.snapshot;
  }

  /** A restart and an unreadable archive later, the same violation erases the record of its slash. */
  method FailedReadErases() returns (s: AuditService)
    ensures s.Valid() && |s.chain.execs| >= 1
    ensures 7 in s.archive && s.archive[7].executeTx.None? && s.missedRead
  {
    ghost var snapshot;
    s, snapshot := FinalPutRewrites();
    s.Restart(true);
    s.archiveReadable := false;
    var r, _, _ := s.HandleViolation(7, 1000);
  }
}
