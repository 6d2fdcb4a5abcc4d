/**
 * The guardian-slash watcher and its durable store.
 *
 * `chainLogs` holds every finalized SlashExecuted log of the aggregator; finalized logs never change,
 * so a successful getLogs over a finalized range returns exactly its part of `chainLogs`.  Any RPC or
 * file operation may fail, shutdown may begin at any await, and the process may die at any await; a
 * crashed call returns `Died` and leaves the store as it is.
 */
module GuardianWatcher {
  import opened Options
  import opened Javascript
  import opened SignerMask

  /** One SlashExecuted log; (block, index) identifies it. */
  datatype Log = Log(block: nat, index: nat, proposalId: nat)

  datatype Position = Position(block: nat, index: nat)

  function At(l: Log): Position {
    Position(l.block, l.index)
  }

  /** The log a dead-letter is about. */
  function LogAt(p: Position, f: Failure): Log {
    Log(p.block, p.index, f.proposalId)
  }

  /** A dead-letter; `parked` entries are kept but no longer retried. */
  datatype Failure = Failure(proposalId: nat, attempts: nat, parked: bool)

  datatype Listed = Listed(at: Position, failure: Failure)

  /** How an asynchronous call ended. */
  datatype Status = Done | Stopped | Threw | Died

  const MAX_CAPTURE_ATTEMPTS: nat := 10

  ghost predicate DistinctPositions(logs: seq<Log>) {
    forall i, j | 0 <= i < |logs| && 0 <= j < |logs| && At(logs[i]) == At(logs[j]) :: logs[i] == logs[j]
  }

  /** Only the dead-letter at `at` differs. */
  ghost predicate OnlyAt(before: map<Position, Failure>, after: map<Position, Failure>, at: Position) {
    forall p | p != at :: (p in before <==> p in after) && (p in before ==> after[p] == before[p])
  }

  /** Parked dead-letters are still there, unchanged. */
  ghost predicate ParkedKept(before: map<Position, Failure>, after: map<Position, Failure>) {
    forall p | p in before && before[p].parked :: p in after && after[p] == before[p]
  }

  /**
   * The history of one dead-letter, from its first write to its removal: its writes, whether one of
   * them did not find the entry in the listing, or found it unreadable, and whether the log was driven
   * although it was parked.
   */
  datatype Life = Life(writes: nat, unlisted: bool, garbled: bool, overdriven: bool)

  const FIRST := Life(1, false, false, false)

  /** The stored count is that of the writes exactly if all of them found the entry. */
  ghost predicate LifeOk(f: Failure, v: Life) {
    && 1 <= f.attempts && 1 <= v.writes
    && (f.parked <==> f.attempts >= MAX_CAPTURE_ATTEMPTS)
    && (!v.garbled ==> f.attempts <= v.writes && (f.attempts == v.writes <==> !v.unlisted))
    && (!v.garbled && !v.unlisted ==> (v.writes > MAX_CAPTURE_ATTEMPTS <==> v.overdriven))
  }

  /** The history after one more write; `listed` is what the listing shows for the position. */
  function Rewritten(f: Failure, v: Life, listed: Option<nat>): Life {
    if listed.None? then Life(v.writes + 1, true, false, v.overdriven)
    else if listed.value != f.attempts then Life(v.writes + 1, v.unlisted, true, v.overdriven)
    else Life(v.writes + 1, v.unlisted, v.garbled, v.overdriven || f.parked)
  }

  /** What deadLetter stores. */
  function NextFailure(proposalId: nat, listed: Option<nat>): Failure {
    var attempts := listed.GetOr(0) + 1;
    Failure(proposalId, attempts, attempts >= MAX_CAPTURE_ATTEMPTS)
  }

  lemma RewrittenOk(f: Failure, v: Life, listed: Option<nat>, proposalId: nat)
    requires LifeOk(f, v)
    ensures LifeOk(NextFailure(proposalId, listed), Rewritten(f, v, listed))
    ensures LifeOk(NextFailure(proposalId, None), FIRST)
  {
  }

  /** The history at a position after a write. */
  function NextLife(p: Position, failures: map<Position, Failure>, lives: map<Position, Life>, listed: Option<nat>): Life {
    if p in failures && p in lives then Rewritten(failures[p], lives[p], listed) else FIRST
  }

  lemma LivesUpdate(failures: map<Position, Failure>, lives: map<Position, Life>, p: Position, listed: Option<nat>,
                    proposalId: nat)
    requires LivesOk(failures, lives) && (p !in failures ==> listed.None?)
    ensures LivesOk(failures[p := NextFailure(proposalId, listed)], lives[p := NextLife(p, failures, lives, listed)])
  {
    if p in failures {
      RewrittenOk(failures[p], lives[p], listed, proposalId);
    }
  }

  ghost predicate LivesOk(failures: map<Position, Failure>, lives: map<Position, Life>) {
    lives.Keys == failures.Keys && forall p | p in failures :: LifeOk(failures[p], lives[p])
  }

  /**
   * The cap: a dead-letter whose writes all found it readable in the listing is recorded at most ten
   * times, exactly unless it was driven while parked.
   */
  lemma TenAttempts(failures: map<Position, Failure>, lives: map<Position, Life>, p: Position)
    requires LivesOk(failures, lives) && p in failures && !lives[p].garbled
    ensures failures[p].attempts == lives[p].writes <==> !lives[p].unlisted
    ensures !lives[p].unlisted ==> (lives[p].writes <= MAX_CAPTURE_ATTEMPTS <==> !lives[p].overdriven)
  {
  }

  /** A range that was asked of getLogs. */
  datatype Range = Range(from: nat, to: nat)

  /** The part of the store that captures change. */
  datatype State = State(failures: map<Position, Failure>, lives: map<Position, Life>, terminal: set<nat>)

  /** The unparked ones of the first n listed dead-letters were taken up, once, and no others. */
  ghost predicate TookUp(list: seq<Listed>, n: nat, before: multiset<Position>, after: multiset<Position>)
    requires n <= |list|
  {
    && before <= after
    && (forall i | 0 <= i < |list| ::
          after[list[i].at] == before[list[i].at] + if i < n && !list[i].failure.parked then 1 else 0)
  }

  lemma TookUpStep(list: seq<Listed>, n: nat, before: multiset<Position>, now: multiset<Position>, after: multiset<Position>)
    requires n < |list| && TookUp(list, n, before, now)
    requires forall i, j | 0 <= i < j < |list| :: list[i].at != list[j].at
    requires after == now + if list[n].failure.parked then multiset{} else multiset{list[n].at}
    ensures TookUp(list, n + 1, before, after)
  {
  }

  /** The listed dead-letters from the n-th on are as they were. */
  ghost predicate Untouched(list: seq<Listed>, n: nat, before: map<Position, Failure>, after: map<Position, Failure>)
    requires n <= |list|
  {
    forall i | n <= i < |list| && list[i].at in before :: list[i].at in after && after[list[i].at] == before[list[i].at]
  }

  lemma EntryStep(list: seq<Listed>, n: nat, before: map<Position, Failure>, now: map<Position, Failure>,
                  after: map<Position, Failure>)
    requires n < |list| && Untouched(list, n, before, now) && ParkedKept(before, now)
    requires forall i, j | 0 <= i < j < |list| :: list[i].at != list[j].at
    requires OnlyAt(now, after, list[n].at) && list[n].at in before && (before[list[n].at].parked ==> after == now)
    ensures Untouched(list, n + 1, before, after) && ParkedKept(before, after)
  {
  }

  /** A listed entry is a dead-letter as stored, or an unreadable one shown as parked. */
  ghost predicate Shows(e: Listed, failures: map<Position, Failure>) {
    && e.at in failures
    && (e.failure == failures[e.at] || (e.failure.parked && e.failure.attempts == MAX_SAFE_INTEGER))
  }

  /** The count that the listing shows for a dead-letter. */
  predicate ReadAs(f: Failure, attempts: nat) {
    attempts == f.attempts || attempts == MAX_SAFE_INTEGER
  }

  /** The listing is complete and every entry is as stored. */
  ghost predicate Exactly(list: seq<Listed>, failures: map<Position, Failure>) {
    && (forall i | 0 <= i < |list| :: list[i].at in failures && list[i].failure == failures[list[i].at])
    && (forall p | p in failures :: exists i :: 0 <= i < |list| && list[i].at == p)
  }

  /** The files of the dead-letter directory, one by one; each can be parsed if `calm`. */
  method ReadAll(failures: map<Position, Failure>, calm: bool) returns (list: seq<Listed>)
    ensures forall i | 0 <= i < |list| :: Shows(list[i], failures)
    ensures forall i, j | 0 <= i < j < |list| :: list[i].at != list[j].at
    ensures forall p | p in failures :: exists e :: e in list && e.at == p
    ensures calm ==> Exactly(list, failures)
  {
    list := [];
    var todo := failures.Keys;
    while todo != {}
      invariant todo <= failures.Keys
      invariant forall i | 0 <= i < |list| :: Shows(list[i], failures) && list[i].at !in todo
      invariant calm ==> forall i | 0 <= i < |list| :: list[i].failure == failures[list[i].at]
      invariant forall i, j | 0 <= i < j < |list| :: list[i].at != list[j].at
      invariant forall p | p in failures && p !in todo :: exists i :: 0 <= i < |list| && list[i].at == p
      decreases |todo|
    {
      var p :| p in todo;
      var corrupt: bool := *;
      ghost var before := list;
      list := list + [Listed(p, if corrupt && !calm then Failure(0, MAX_SAFE_INTEGER, true) else failures[p])];
      assert list[|before|].at == p && forall i | 0 <= i < |before| :: list[i] == before[i];
      todo := todo - {p};
    }
    forall p | p in failures ensures exists e :: e in list && e.at == p {
      var i :| 0 <= i < |list| && list[i].at == p;
      assert list[i] in list;
    }
  }

  /** What the listing shows for a position, if anything. */
  method AttemptsListed(list: seq<Listed>, at: Position) returns (n: Option<nat>)
    ensures n.Some? <==> exists i :: 0 <= i < |list| && list[i].at == at
    ensures n.Some? ==> exists i :: 0 <= i < |list| && list[i].at == at && n.value == list[i].failure.attempts
  {
    for i := 0 to |list|
      invariant forall k | 0 <= k < i :: list[k].at != at
    {
      if list[i].at == at {
        return Some(list[i].failure.attempts);
      }
    }
    return None;
  }

  class Watcher {
    const chainLogs: seq<Log>
    const fromBlock: nat
    const finalityConfirmations: nat
    const logChunk: nat

    // The store on disk.
    var verified: set<nat>
    var unverified: set<nat>
    var failures: map<Position, Failure>
    var cursor: Option<nat>

    // In memory.
    var inFlight: bool
    var stopping: bool

    // What the record of a log is built from, and the commitment hash.
    const source: Log -> Source
    const commit: (nat, nat, nat, seq<nat>) -> nat

    // The environment: a calm one lets every operation succeed, except that the dead-letters can be listed
    // for the retries and for a dead-letter write only if the respective constant says so.
    const calm: bool
    const retryListable: bool
    const writeListable: bool

    ghost var lives: map<Position, Life>   // the history of each dead-letter
    ghost var misscanned: bool             // hasFailure denied a dead-letter
    ghost var failedWrites: nat            // dead-letter writes that failed
    ghost var failedListings: nat          // listings that showed nothing for an unreadable directory
    ghost var driven: multiset<Position>   // dead-letters taken up by the retries
    ghost var asked: seq<Range>            // ranges read from the chain

    ghost function Terminal(): set<nat>
      reads this
    {
      verified + unverified
    }

    /** A log is accounted for: its proposal is verified or quarantined, or its position is dead-lettered. */
    ghost predicate Covered(l: Log)
      reads this
    {
      l.proposalId in verified || l.proposalId in unverified || At(l) in failures
    }

    /** No log is ever skipped past: everything from `fromBlock` up to `through` is accounted for. */
    ghost predicate CoveredThrough(through: nat)
      reads this
    {
      forall l | l in chainLogs && fromBlock <= l.block <= through :: Covered(l)
    }

    ghost predicate FailuresOk()
      reads this
    {
      && LivesOk(failures, lives)
      && (forall p | p in failures :: Log(p.block, p.index, failures[p].proposalId) in chainLogs)
      && (!misscanned ==> forall p | p in lives :: !lives[p].overdriven)
    }

    ghost predicate Valid()
      reads this
    {
      && logChunk >= 1
      && DistinctPositions(chainLogs)
      && FailuresOk()
      && (cursor.Some? ==> CoveredThrough(cursor.value))
    }

    /** What any step may do to the store: terminal records stay, and a log stays accounted for. */
    twostate predicate Kept()
      reads this
    {
      && old(verified) <= verified
      && old(unverified) <= unverified
      && (old(misscanned) ==> misscanned)
      && forall l | l in chainLogs && old(Covered(l)) :: Covered(l)
    }

    constructor (chainLogs: seq<Log>, fromBlock: nat, finalityConfirmations: nat, logChunk: nat,
                 source: Log -> Source, commit: (nat, nat, nat, seq<nat>) -> nat,
                 calm: bool, retryListable: bool, writeListable: bool)
      requires logChunk >= 1 && DistinctPositions(chainLogs)
      ensures Valid() && cursor.None? && !inFlight && !stopping
      ensures verified == unverified == {} && failures == map[]
      ensures this.chainLogs == chainLogs && this.fromBlock == fromBlock && this.logChunk == logChunk
      ensures this.finalityConfirmations == finalityConfirmations && this.source == source && this.commit == commit
      ensures this.calm == calm && this.retryListable == retryListable && this.writeListable == writeListable
    {
      this.calm, this.retryListable, this.writeListable := calm, retryListable, writeListable;
      this.chainLogs, this.fromBlock, this.source, this.commit := chainLogs, fromBlock, source, commit;
      this.finalityConfirmations, this.logChunk := finalityConfirmations, logChunk;
      verified, unverified, failures, cursor := {}, {}, map[], None;
      inFlight, stopping := false, false;
      lives, misscanned, failedWrites, failedListings, driven, asked := map[], false, 0, 0, multiset{}, [];
    }

    /** The new ranges are chunks, one after the other from `start` up to the head at most. */
    ghost predicate Swept(before: seq<Range>, after: seq<Range>, start: nat, head: int) {
      && before <= after
      && forall i | |before| <= i < |after| ::
           && after[i].from <= after[i].to <= head && after[i].to < after[i].from + logChunk
           && after[i].from == if i > |before| then after[i - 1].to + 1 else start
    }

    lemma SweptStep(before: seq<Range>, after: seq<Range>, start: nat, head: int, next: Range)
      requires Swept(before, after, start, head)
      requires next.from == if |after| > |before| then after[|after| - 1].to + 1 else start
      requires next.from <= next.to <= head && next.to < next.from + logChunk
      ensures Swept(before, after + [next], start, head)
    {
    }

    /** A scan starts after the cursor, or at `fromBlock` if there is none or it cannot be read. */
    ghost predicate Resumes(before: seq<Range>, after: seq<Range>, cursor: Option<nat>, head: int) {
      || (cursor.Some? && Swept(before, after, cursor.value + 1, head))
      || ((calm ==> cursor.None?) && Swept(before, after, fromBlock, head))
    }

    // ---- What a calm environment does ----------------------------------------------------------

    ghost predicate CanBuild(l: Log) {
      Buildable(source(l), l.proposalId)
    }

    /** What deadLetter finds in its listing. */
    ghost function CalmListed(at: Position, failures: map<Position, Failure>): Option<nat> {
      if writeListable && at in failures then Some(failures[at].attempts) else None
    }

    /** A log that cannot be built is recorded once more. */
    ghost predicate Recorded(l: Log, s0: State, s1: State) {
      && s1.terminal == s0.terminal
      && s1.failures == s0.failures[At(l) := NextFailure(l.proposalId, CalmListed(At(l), s0.failures))]
      && s1.lives == s0.lives[At(l) := NextLife(At(l), s0.failures, s0.lives, CalmListed(At(l), s0.failures))]
    }

    /** captureOne: the proposal becomes terminal, or its log is recorded as failed. */
    ghost predicate Captured(l: Log, s0: State, s1: State) {
      if CanBuild(l) then s1 == s0.(terminal := s0.terminal + {l.proposalId}) else Recorded(l, s0, s1)
    }

    /** A retry: cleared if the proposal is terminal or can be built, else recorded once more. */
    ghost predicate Retried(l: Log, s0: State, s1: State) {
      if CanBuild(l) || l.proposalId in s0.terminal
      then s1 == State(s0.failures - {At(l)}, s0.lives - {At(l)}, s0.terminal + {l.proposalId})
      else Recorded(l, s0, s1)
    }

    /** What a pass of retries makes of one unparked dead-letter. */
    ghost predicate RetriedAt(p: Position, s0: State, s1: State)
      requires p in s0.failures && p in s0.lives
    {
      var f := s0.failures[p];
      && (CanBuild(LogAt(p, f)) || f.proposalId in s0.terminal ==> p !in s1.failures)
      && (p !in s1.failures ==> f.proposalId in s1.terminal)
      && (p in s1.failures ==>
            && p in s1.lives && s1.lives[p].writes == s0.lives[p].writes + 1
            && s1.failures[p] == NextFailure(f.proposalId, CalmListed(p, s0.failures)))
    }

    ghost predicate SameAt(p: Position, s0: State, s1: State)
      requires p in s0.failures && p in s0.lives
    {
      p in s1.failures && p in s1.lives && s1.failures[p] == s0.failures[p] && s1.lives[p] == s0.lives[p]
    }

    /** A pass of retries takes up every unparked dead-letter, once, and leaves the parked ones alone. */
    ghost predicate RetriedAll(s0: State, s1: State) {
      && (forall p | p in s0.failures && p in s0.lives && !s0.failures[p].parked :: RetriedAt(p, s0, s1))
      && (forall p | p in s0.failures && p in s0.lives && s0.failures[p].parked :: SameAt(p, s0, s1))
    }

    /** The first n listed dead-letters are through, the others untouched. */
    ghost predicate Passed(list: seq<Listed>, n: nat, s0: State, s1: State)
      requires n <= |list|
    {
      && s0.terminal <= s1.terminal
      && (forall i | 0 <= i < |list| && list[i].at in s0.failures && list[i].at in s0.lives ::
            if i < n && !list[i].failure.parked then RetriedAt(list[i].at, s0, s1) else SameAt(list[i].at, s0, s1))
    }

    lemma PassStep(list: seq<Listed>, n: nat, s0: State, s: State, s1: State)
      requires n < |list| && Passed(list, n, s0, s)
      requires forall i, j | 0 <= i < j < |list| :: list[i].at != list[j].at
      requires forall i | 0 <= i < |list| ::
                 list[i].at in s0.failures && list[i].at in s0.lives && list[i].failure == s0.failures[list[i].at]
      requires if list[n].failure.parked then s1 == s else Retried(LogAt(list[n].at, list[n].failure), s, s1)
      ensures Passed(list, n + 1, s0, s1)
    {
      var p := list[n].at;
      assert SameAt(p, s0, s);
      forall i | 0 <= i < |list|
        ensures if i < n + 1 && !list[i].failure.parked then RetriedAt(list[i].at, s0, s1) else SameAt(list[i].at, s0, s1)
      {
        if i != n {
          assert list[i].at != p;
        }
      }
    }

    /** A scan leaves the dead-letters alone and adds first attempts of proposals that were not terminal. */
    ghost predicate ScanAdds(s0: State, s1: State) {
      && s0.terminal <= s1.terminal
      && (forall p | p in s0.failures && p in s0.lives :: SameAt(p, s0, s1))
      && (forall p | p in s1.failures && p !in s0.failures ::
            && p in s1.lives && s1.lives[p] == FIRST && s1.failures[p].attempts == 1 && !s1.failures[p].parked
            && s1.failures[p].proposalId !in s0.terminal)
    }

    lemma ScanAddsNothing(s: State)
      ensures ScanAdds(s, s)
    {
    }

    lemma CapturedAdds(l: Log, s0: State, s1: State)
      requires Captured(l, s0, s1) && At(l) !in s0.failures && l.proposalId !in s0.terminal
      ensures ScanAdds(s0, s1)
    {
    }

    lemma ScanAddsTransitive(s0: State, s1: State, s2: State)
      requires ScanAdds(s0, s1) && ScanAdds(s1, s2) && s1.failures.Keys == s1.lives.Keys
      ensures ScanAdds(s0, s2)
    {
      forall p | p in s0.failures && p in s0.lives ensures SameAt(p, s0, s2) {
        assert SameAt(p, s0, s1);
      }
      forall p | p in s2.failures && p !in s0.failures
        ensures p in s2.lives && s2.lives[p] == FIRST && s2.failures[p].attempts == 1 && !s2.failures[p].parked
        ensures s2.failures[p].proposalId !in s0.terminal
      {
        if p in s1.failures {
          assert SameAt(p, s1, s2);
        }
      }
    }

    /** A tick: the retries, and then first attempts at most. */
    ghost predicate Ticked(s0: State, s1: State) {
      && RetriedAll(s0, s1)
      && (forall p | p in s1.failures && p !in s0.failures ::
            p in s1.lives && s1.lives[p] == FIRST && s1.failures[p].attempts == 1 && !s1.failures[p].parked)
    }

    lemma ScannedAfterRetry(s0: State, s1: State, s2: State)
      requires RetriedAll(s0, s1) && (s1 == s2 || ScanAdds(s1, s2)) && s1.failures.Keys <= s0.failures.Keys
      requires s1.failures.Keys == s1.lives.Keys && s0.failures.Keys == s0.lives.Keys
      requires forall p | p in s0.failures && p in s2.failures :: s2.failures[p].proposalId == s0.failures[p].proposalId
      ensures Ticked(s0, s2)
    {
      if s1 != s2 {
        forall p | p in s0.failures && !s0.failures[p].parked ensures RetriedAt(p, s0, s2) {
          assert RetriedAt(p, s0, s1);
          if p in s1.failures {
            assert SameAt(p, s1, s2);
          }
        }
        forall p | p in s0.failures && s0.failures[p].parked ensures SameAt(p, s0, s2) {
          assert SameAt(p, s0, s1) && SameAt(p, s1, s2);
        }
      }
    }

    /** Without a log that can be built nothing becomes terminal. */
    ghost predicate NoneBuildable() {
      forall l | l in chainLogs :: !CanBuild(l)
    }

    ghost function Store(): State
      reads this
    {
      State(failures, lives, Terminal())
    }

    /** An await: shutdown may begin, the operation may fail, the process may die. */
    method Await() returns (status: Status)
      modifies this`stopping
      ensures old(stopping) ==> stopping
      ensures status in {Done, Threw, Died}
      ensures calm ==> status.Done? && stopping == old(stopping)
    {
      if calm {
        return Done;
      }
      var shutdown: bool := *;
      stopping := stopping || shutdown;
      status :| status in {Done, Threw, Died};
    }

    // ---- Store reads ---------------------------------------------------------------------------

    /** hasTerminal: an unreadable file counts as absent, so only a yes is certain. */
    method HasTerminal(proposalId: nat) returns (yes: bool, died: bool)
      modifies this`stopping
      ensures old(stopping) ==> stopping
      ensures yes ==> proposalId in Terminal()
      ensures calm ==> !died && stopping == old(stopping) && (yes <==> proposalId in Terminal())
    {
      var status := Await();
      died := status.Died?;
      yes := (proposalId in verified || proposalId in unverified) && status.Done?;
    }

    /** hasFailure: likewise, only a yes is certain; a false no is noted. */
    method HasFailure(at: Position) returns (yes: bool, died: bool)
      requires Valid()
      modifies this`stopping, this`misscanned
      ensures Valid() && Kept() && (old(stopping) ==> stopping)
      ensures yes ==> at in failures
      ensures misscanned == (old(misscanned) || (!yes && at in failures))
      ensures calm ==> !died && stopping == old(stopping) && (yes <==> at in failures)
    {
      var status := Await();
      died := status.Died?;
      yes := at in failures && status.Done?;
      misscanned := misscanned || (!yes && at in failures);
    }

    /**
     * listFailures: nothing when the directory is unreadable; otherwise one entry per dead-letter, an
     * unreadable one surfacing as parked.
     */
    method ListFailures(listable: bool) returns (list: seq<Listed>, died: bool)
      modifies this`stopping, this`failedListings
      ensures old(stopping) ==> stopping
      ensures forall i | 0 <= i < |list| :: Shows(list[i], failures)
      ensures forall i, j | 0 <= i < j < |list| :: list[i].at != list[j].at
      ensures failedListings == old(failedListings) || (failedListings == old(failedListings) + 1 && list == [])
      ensures failedListings == old(failedListings) ==> forall p | p in failures :: exists i :: 0 <= i < |list| && list[i].at == p
      ensures calm ==> !died && stopping == old(stopping)
      ensures calm && !listable ==> list == []
      ensures calm && listable ==> Exactly(list, failures)
    {
      var status := Await();
      died := status.Died?;
      var readable: bool := *;
      if calm {
        readable := listable;
      }
      list := [];
      if readable {
        list := ReadAll(failures, calm);
      } else {
        failedListings := failedListings + 1;
      }
    }

    /** provider.getLogs over a finalized range. */
    method GetLogs(from: nat, to: nat) returns (logs: seq<Log>, status: Status)
      modifies this`stopping, this`asked
      ensures asked == old(asked) + [Range(from, to)]
      ensures old(stopping) ==> stopping
      ensures status in {Done, Threw, Died}
      ensures status.Done? ==> forall l :: l in logs <==> l in chainLogs && from <= l.block <= to
      ensures calm ==> status.Done? && stopping == old(stopping)
    {
      asked := asked + [Range(from, to)];
      status := Await();
      logs := [];
      var i := 0;
      while i < |chainLogs|
        invariant 0 <= i <= |chainLogs|
        invariant forall l :: l in logs <==> l in chainLogs[..i] && from <= l.block <= to
      {
        if from <= chainLogs[i].block <= to {
          logs := logs + [chainLogs[i]];
        }
        assert chainLogs[..i + 1] == chainLogs[..i] + [chainLogs[i]];
        i := i + 1;
      }
      assert chainLogs[..i] == chainLogs;
    }

    // ---- Capture -------------------------------------------------------------------------------

    /**
     * deadLetter: bumps the attempts that the listing shows, and parks at the cap; it throws exactly if
     * the write fails.  The count starts anew exactly if the listing misses an existing entry.
     */
    method DeadLetter(l: Log) returns (status: Status, ghost listed: Option<nat>)
      requires Valid() && l in chainLogs
      requires At(l) in failures && failures[At(l)].parked ==> misscanned
      modifies this`stopping, this`failures, this`lives, this`failedWrites, this`failedListings
      ensures Valid() && Kept() && (old(stopping) ==> stopping)
      ensures status in {Done, Threw, Died}
      ensures OnlyAt(old(failures), failures, At(l))
      ensures failures == old(failures) || failures == old(failures)[At(l) := NextFailure(l.proposalId, listed)]
      ensures At(l) !in old(failures) ==> listed.None?
      ensures status.Done? ==> failures == old(failures)[At(l) := NextFailure(l.proposalId, listed)]
      ensures status.Done? ==> lives == old(lives)[At(l) := NextLife(At(l), old(failures), old(lives), listed)]
      ensures failedWrites == old(failedWrites) + if status.Threw? then 1 else 0
      ensures listed.None? && At(l) in old(failures) ==> failedListings == old(failedListings) + 1
      ensures listed.Some? ==> At(l) in old(failures) && ReadAs(old(failures)[At(l)], listed.value)
      ensures calm ==> status.Done? && stopping == old(stopping) && listed == CalmListed(At(l), old(failures))
    {
      var existing, died := FindFailure(At(l));
      listed := existing;
      if died {
        return Died, listed;
      }
      status := PutFailure(l, existing);
    }

    /** The listing's entry for a position. */
    method FindFailure(at: Position) returns (listed: Option<nat>, died: bool)
      modifies this`stopping, this`failedListings
      ensures old(stopping) ==> stopping
      ensures listed.Some? ==> at in failures && ReadAs(failures[at], listed.value)
      ensures listed.None? && at in failures ==> failedListings == old(failedListings) + 1
      ensures calm ==> !died && stopping == old(stopping) && listed == CalmListed(at, failures)
    {
      var list;
      list, died := ListFailures(writeListable);
      listed := AttemptsListed(list, at);
    }

    /** putFailure, which may fail or land just before a crash. */
    method PutFailure(l: Log, listed: Option<nat>) returns (status: Status)
      requires Valid() && l in chainLogs
      requires At(l) in failures && failures[At(l)].parked ==> misscanned
      requires At(l) !in failures ==> listed.None?
      modifies this`stopping, this`failures, this`lives, this`failedWrites
      ensures Valid() && Kept() && (old(stopping) ==> stopping)
      ensures status in {Done, Threw, Died}
      ensures failures == old(failures) || failures == old(failures)[At(l) := NextFailure(l.proposalId, listed)]
      ensures status.Done? ==> failures == old(failures)[At(l) := NextFailure(l.proposalId, listed)]
      ensures status.Done? ==> lives == old(lives)[At(l) := NextLife(At(l), old(failures), old(lives), listed)]
      ensures status.Threw? ==> failures == old(failures) && lives == old(lives)
      ensures failedWrites == old(failedWrites) + if status.Threw? then 1 else 0
      ensures calm ==> status.Done? && stopping == old(stopping)
    {
      status := Await();
      var landed: bool := *;
      if status.Done? || (status.Died? && landed) {
        RecordFailure(l, listed);
      }
      failedWrites := failedWrites + if status.Threw? then 1 else 0;
    }

    /** The effect of putFailure. */
    method RecordFailure(l: Log, listed: Option<nat>)
      requires Valid() && l in chainLogs
      requires At(l) in failures && failures[At(l)].parked ==> misscanned
      requires At(l) !in failures ==> listed.None?
      modifies this`failures, this`lives
      ensures Valid() && Kept()
      ensures failures == old(failures)[At(l) := NextFailure(l.proposalId, listed)]
      ensures lives == old(lives)[At(l) := NextLife(At(l), old(failures), old(lives), listed)]
    {
      LivesUpdate(failures, lives, At(l), listed, l.proposalId);
      lives := lives[At(l) := NextLife(At(l), failures, lives, listed)];
      failures := failures[At(l) := NextFailure(l.proposalId, listed)];
    }

    /**
     * captureOne: build the record, then verified store, quarantine, or dead-letter.  A store error
     * is a capture failure too; it throws exactly if the dead-letter write fails.
     */
    method CaptureOne(l: Log) returns (status: Status)
      requires Valid() && l in chainLogs
      requires At(l) in failures && failures[At(l)].parked ==> misscanned
      modifies this`stopping, this`verified, this`unverified, this`failures, this`lives, this`failedWrites,
               this`failedListings
      ensures Valid() && Kept() && (old(stopping) ==> stopping)
      ensures status in {Done, Threw, Died}
      ensures OnlyAt(old(failures), failures, At(l))
      ensures status.Done? ==> Covered(l)
      ensures failedWrites == old(failedWrites) + if status.Threw? then 1 else 0
      ensures calm ==> status.Done? && stopping == old(stopping) && Captured(l, old(Store()), Store())
    {
      status := BuildAndStore(l);
      if status.Threw? {
        ghost var listed;
        status, listed := DeadLetter(l);
      }
    }

    /**
     * The `try` of captureOne: a record that can be built goes to the verified store exactly if its
     * commitment is the one on chain, else to quarantine.
     */
    method BuildAndStore(l: Log) returns (status: Status)
      requires Valid() && l in chainLogs
      modifies this`stopping, this`verified, this`unverified
      ensures Valid() && Kept() && (old(stopping) ==> stopping)
      ensures status in {Done, Threw, Died}
      ensures status.Done? ==> CanBuild(l)
      ensures status.Done? ==> Stored(l, old(verified), old(unverified))
      ensures status.Threw? ==> verified == old(verified) && unverified == old(unverified)
      ensures calm ==> stopping == old(stopping) && (status.Done? <==> CanBuild(l)) && !status.Died?
    {
      status := Await();
      if status.Done? {
        var record := BuildGuardianSignerRecord(source(l), l.proposalId, commit);
        if record.None? {
          return Threw;
        }
        status := Await();
        var landed: bool := *;
        if status.Done? || (status.Died? && landed) {
          StoreRecord(l, record.value.commitmentVerified);
        }
      }
    }

    /** The record of a log is where its commitment check sends it. */
    ghost predicate Stored(l: Log, verified0: set<nat>, unverified0: set<nat>)
      requires CanBuild(l)
      reads this
    {
      if Verifies(source(l), l.proposalId, commit)
      then verified == verified0 + {l.proposalId} && unverified == unverified0
      else verified == verified0 && unverified == unverified0 + {l.proposalId}
    }

    /** putVerified or putUnverified. */
    method StoreRecord(l: Log, commitmentVerified: bool)
      requires Valid()
      modifies this`verified, this`unverified
      ensures Valid() && Kept() && l.proposalId in Terminal()
      ensures verified == if commitmentVerified then old(verified) + {l.proposalId} else old(verified)
      ensures unverified == if commitmentVerified then old(unverified) else old(unverified) + {l.proposalId}
    {
      if commitmentVerified {
        verified := verified + {l.proposalId};
      } else {
        unverified := unverified + {l.proposalId};
      }
      assert Terminal() == old(Terminal()) + {l.proposalId};
    }

    /** removeFailure for a log whose proposal is terminal; a failing removal is swallowed. */
    method RemoveFailure(l: Log) returns (status: Status)
      requires Valid() && l in chainLogs
      requires l.proposalId in Terminal()
      modifies this`stopping, this`failures, this`lives
      ensures Valid() && Kept() && (old(stopping) ==> stopping)
      ensures status in {Done, Died}
      ensures OnlyAt(old(failures), failures, At(l))
      ensures calm ==> status.Done? && stopping == old(stopping)
      ensures calm ==> failures == old(failures) - {At(l)} && lives == old(lives) - {At(l)}
    {
      status := Await();
      if status.Done? {
        failures, lives := failures - {At(l)}, lives - {At(l)};
      } else if status.Threw? {
        status := Done;
      }
    }

    /** Retry one dead-letter: clear it when its proposal is terminal, else capture again. */
    method RetryOne(l: Log) returns (status: Status)
      requires Valid() && l in chainLogs && (At(l) in failures ==> !failures[At(l)].parked)
      modifies this`stopping, this`verified, this`unverified, this`failures, this`lives,
               this`failedWrites, this`failedListings, this`driven
      ensures Valid() && Kept() && (old(stopping) ==> stopping)
      ensures status in {Done, Threw, Died}
      ensures OnlyAt(old(failures), failures, At(l))
      ensures driven == old(driven) + multiset{At(l)}
      ensures failedWrites == old(failedWrites) + if status.Threw? then 1 else 0
      ensures calm ==> status.Done? && stopping == old(stopping) && Retried(l, old(Store()), Store())
    {
      driven := driven + multiset{At(l)};
      var terminal, died := HasTerminal(l.proposalId);
      if died {
        status := Died;
      } else if terminal {
        status := RemoveFailure(l);
      } else {
        status := Redrive(l);
      }
    }

    /** Capture again, and clear the dead-letter if that made the proposal terminal. */
    method Redrive(l: Log) returns (status: Status)
      requires Valid() && l in chainLogs && (At(l) in failures ==> !failures[At(l)].parked)
      modifies this`stopping, this`verified, this`unverified, this`failures, this`lives, this`failedWrites,
               this`failedListings
      ensures Valid() && Kept() && (old(stopping) ==> stopping)
      ensures status in {Done, Threw, Died}
      ensures OnlyAt(old(failures), failures, At(l))
      ensures failedWrites == old(failedWrites) + if status.Threw? then 1 else 0
      ensures calm && l.proposalId !in old(Terminal()) ==>
                status.Done? && stopping == old(stopping) && Retried(l, old(Store()), Store())
    {
      status := CaptureOne(l);
      if status.Done? {
        var terminal, died := HasTerminal(l.proposalId);
        if died {
          status := Died;
        } else if terminal {
          status := RemoveFailure(l);
        }
      }
    }

    /**
     * retryFailures: every listed dead-letter that is not parked is taken up, once, and the parked ones
     * are never driven again.
     */
    method RetryFailures() returns (status: Status, ghost listed: seq<Listed>)
      requires Valid()
      modifies this`stopping, this`verified, this`unverified, this`failures, this`lives,
               this`failedWrites, this`failedListings, this`driven
      ensures Valid() && Kept() && (old(stopping) ==> stopping)
      ensures status.Stopped? ==> stopping
      ensures failedWrites == old(failedWrites) || status.Threw?
      ensures ParkedKept(old(failures), failures)
      ensures forall i | 0 <= i < |listed| :: Shows(listed[i], old(failures))
      ensures failures.Keys <= old(failures).Keys
      ensures calm ==> stopping == old(stopping)
      ensures calm && NoneBuildable() ==> Terminal() == old(Terminal())
      ensures status.Done? ==> TookUp(listed, |listed|, old(driven), driven)
      ensures calm && retryListable && !old(stopping) ==>
                status.Done? && !stopping && Exactly(listed, old(failures)) && RetriedAll(old(Store()), Store())
    {
      var list, died := ListFailures(retryListable);
      listed := list;
      if died {
        return Died, listed;
      }
      status := RetryListed(list);
    }

    /** The loop over the listing. */
    method RetryListed(list: seq<Listed>) returns (status: Status)
      requires Valid()
      requires forall i | 0 <= i < |list| :: Shows(list[i], failures) && (calm ==> list[i].failure == failures[list[i].at])
      requires forall i, j | 0 <= i < j < |list| :: list[i].at != list[j].at
      modifies this`stopping, this`verified, this`unverified, this`failures, this`lives,
               this`failedWrites, this`failedListings, this`driven
      ensures Valid() && Kept() && (old(stopping) ==> stopping)
      ensures status.Stopped? ==> stopping
      ensures failedWrites == old(failedWrites) || status.Threw?
      ensures ParkedKept(old(failures), failures) && failures.Keys <= old(failures).Keys
      ensures status.Done? ==> TookUp(list, |list|, old(driven), driven)
      ensures old(stopping) && list != [] ==> status.Stopped? && driven == old(driven) && Store() == old(Store())
      ensures calm ==> stopping == old(stopping) && (!stopping ==> status.Done?)
      ensures calm && !stopping ==> Passed(list, |list|, old(Store()), Store())
      ensures calm && NoneBuildable() ==> Terminal() == old(Terminal())
    {
      ghost var s0, d0 := Store(), driven;
      var i := 0;
      status := Done;
      while i < |list| && status.Done?
        invariant 0 <= i <= |list| && (old(stopping) ==> stopping) && (status.Stopped? ==> stopping)
        invariant Valid() && Kept() && Midway(list, i, s0, d0, status)
        invariant failedWrites == old(failedWrites) || status.Threw?
        invariant old(stopping) ==> i == 0 && status in {Done, Stopped} && driven == d0 && Store() == s0
        invariant calm ==> stopping == old(stopping) && (!stopping ==> status.Done?)
        decreases |list| - i, status.Done?
      {
        if stopping {
          status := Stopped;
        } else {
          status := RetryStep(list, i, s0, d0);
          i := i + 1;
        }
      }
    }

    /** How far a pass has come: `s0` and `d0` are the store and the taken-up dead-letters at its start. */
    ghost predicate Midway(list: seq<Listed>, n: nat, s0: State, d0: multiset<Position>, status: Status)
      requires n <= |list|
      reads this
    {
      && ParkedKept(s0.failures, failures) && failures.Keys <= s0.failures.Keys
      && (status.Done? ==> Untouched(list, n, s0.failures, failures) && TookUp(list, n, d0, driven))
      && (calm && status.Done? ==> Passed(list, n, s0, Store()))
      && (calm && NoneBuildable() ==> Terminal() == s0.terminal)
    }

    method RetryStep(list: seq<Listed>, i: nat, ghost s0: State, ghost d0: multiset<Position>) returns (status: Status)
      requires Valid() && i < |list| && Midway(list, i, s0, d0, Done)
      requires forall k | 0 <= k < |list| ::
                 Shows(list[k], s0.failures) && list[k].at in s0.lives && (calm ==> list[k].failure == s0.failures[list[k].at])
      requires forall j, k | 0 <= j < k < |list| :: list[j].at != list[k].at
      modifies this`stopping, this`verified, this`unverified, this`failures, this`lives,
               this`failedWrites, this`failedListings, this`driven
      ensures Valid() && Kept() && (old(stopping) ==> stopping)
      ensures status in {Done, Threw, Died}
      ensures failedWrites == old(failedWrites) || status.Threw?
      ensures calm ==> status.Done? && stopping == old(stopping)
      ensures Midway(list, i + 1, s0, d0, status)
    {
      ghost var s1, d1 := Store(), driven;
      assert Shows(list[i], s0.failures) && Shows(list[i], failures);
      status := RetryEntry(list[i]);
      EntryStep(list, i, s0.failures, s1.failures, failures);
      TookUpStep(list, i, d0, d1, driven);
      if calm {
        PassStep(list, i, s0, s1, Store());
      }
    }

    /** One entry of the listing. */
    method RetryEntry(e: Listed) returns (status: Status)
      requires Valid() && Shows(e, failures)
      modifies this`stopping, this`verified, this`unverified, this`failures, this`lives,
               this`failedWrites, this`failedListings, this`driven
      ensures Valid() && Kept() && (old(stopping) ==> stopping)
      ensures status in {Done, Threw, Died}
      ensures failedWrites == old(failedWrites) || status.Threw?
      ensures OnlyAt(old(failures), failures, e.at) && failures.Keys <= old(failures).Keys
      ensures old(failures)[e.at].parked ==> failures == old(failures)
      ensures driven == old(driven) + if e.failure.parked then multiset{} else multiset{e.at}
      ensures calm ==> status.Done? && stopping == old(stopping)
      ensures calm ==> if e.failure.parked then Store() == old(Store()) else Retried(LogAt(e.at, e.failure), old(Store()), Store())
    {
      status := Done;
      if !e.failure.parked {
        status := RetryOne(LogAt(e.at, e.failure));
      }
    }

    // ---- Scan ----------------------------------------------------------------------------------

    /** scanRange: `Done` means every log of the range is accounted for. */
    method ScanRange(from: nat, to: nat) returns (status: Status)
      requires Valid()
      modifies this`stopping, this`verified, this`unverified, this`failures, this`lives,
               this`misscanned, this`failedWrites, this`failedListings, this`asked
      ensures Valid() && Kept() && (old(stopping) ==> stopping)
      ensures status.Stopped? ==> stopping
      ensures asked == old(asked) + [Range(from, to)]
      ensures failedWrites == old(failedWrites) || status.Threw?
      ensures calm ==> stopping == old(stopping) && ScanAdds(old(Store()), Store())
      ensures calm && NoneBuildable() ==> Terminal() == old(Terminal())
      ensures calm && !old(stopping) ==> status.Done?
      ensures old(stopping) ==> Store() == old(Store())
      ensures status.Done? ==> forall l | l in chainLogs && from <= l.block <= to :: Covered(l)
    {
      var logs;
      logs, status := GetLogs(from, to);
      if !status.Done? {
        return;
      }
      var i := 0;
      while i < |logs|
        invariant 0 <= i <= |logs|
        invariant Valid() && Kept() && (old(stopping) ==> stopping) && status.Done?
        invariant forall l | l in logs[..i] :: Covered(l)
        invariant old(stopping) ==> Store() == old(Store())
        invariant failedWrites == old(failedWrites) && asked == old(asked) + [Range(from, to)]
        invariant calm ==> stopping == old(stopping) && ScanAdds(old(Store()), Store())
        invariant calm && NoneBuildable() ==> Terminal() == old(Terminal())
      {
        if stopping {
          return Stopped;
        }
        var l := logs[i];
        assert l in logs;
        ghost var before := Store();
        status := ScanOne(l);
        if calm {
          ScanAddsTransitive(old(Store()), before, Store());
        }
        if !status.Done? {
          return;
        }
        assert logs[..i + 1] == logs[..i] + [l];
        i := i + 1;
      }
      assert logs[..i] == logs;
    }

    /** One log of a scan: skip it when terminal or already dead-lettered, else capture it. */
    method ScanOne(l: Log) returns (status: Status)
      requires Valid() && l in chainLogs
      modifies this`stopping, this`verified, this`unverified, this`failures, this`lives,
               this`misscanned, this`failedWrites, this`failedListings
      ensures Valid() && Kept() && (old(stopping) ==> stopping)
      ensures status in {Done, Threw, Died}
      ensures failedWrites == old(failedWrites) || status.Threw?
      ensures calm ==> stopping == old(stopping) && ScanAdds(old(Store()), Store())
      ensures calm && NoneBuildable() ==> Terminal() == old(Terminal())
      ensures calm ==> status.Done?
      ensures status.Done? ==> Covered(l)
    {
      ScanAddsNothing(Store());
      var terminal, died := HasTerminal(l.proposalId);
      if died {
        status := Died;
      } else if terminal {
        status := Done;
      } else {
        status := ScanFresh(l);
      }
    }

    /** A log that does not read as terminal. */
    method ScanFresh(l: Log) returns (status: Status)
      requires Valid() && l in chainLogs && (calm ==> l.proposalId !in Terminal())
      modifies this`stopping, this`verified, this`unverified, this`failures, this`lives,
               this`misscanned, this`failedWrites, this`failedListings
      ensures Valid() && Kept() && (old(stopping) ==> stopping)
      ensures status in {Done, Threw, Died}
      ensures failedWrites == old(failedWrites) || status.Threw?
      ensures calm ==> status.Done? && stopping == old(stopping) && ScanAdds(old(Store()), Store())
      ensures calm && NoneBuildable() ==> Terminal() == old(Terminal())
      ensures status.Done? ==> Covered(l)
    {
      ScanAddsNothing(Store());
      var failed, died := HasFailure(At(l));
      if died {
        status := Died;
      } else if failed {
        status := Done;
      } else {
        status := CaptureOne(l);
        if calm {
          CapturedAdds(l, old(Store()), Store());
        }
      }
    }

    /** writeCursor, only after the whole range up to `to` is accounted for. */
    method WriteCursor(to: nat) returns (status: Status)
      requires Valid() && CoveredThrough(to)
      modifies this`stopping, this`cursor
      ensures Valid() && (old(stopping) ==> stopping)
      ensures status in {Done, Threw, Died}
      ensures cursor == old(cursor) || (cursor == Some(to) && !status.Threw?)
      ensures calm ==> status.Done? && stopping == old(stopping)
      ensures status.Done? ==> cursor == Some(to)
    {
      status := Await();
      var landed: bool := *;
      if status.Done? || (status.Died? && landed) {
        cursor := Some(to);
      }
    }

    /**
     * One tick, single-flight.  `head` is the block number read; a tick that ends `Done` without
     * shutdown has moved the cursor to the finalized head.
     */
    method Tick(head: nat) returns (status: Status)
      requires Valid()
      modifies this
      ensures Valid() && Kept() && (old(stopping) ==> stopping)
      ensures inFlight <==> old(inFlight) || status.Died?
      ensures old(stopping) || old(inFlight) ==> status.Stopped? && unchanged(this)
      ensures calm && retryListable && !old(stopping) && !old(inFlight) ==> status.Done? && Ticked(old(Store()), Store())
      ensures calm && NoneBuildable() ==> Terminal() == old(Terminal())
      ensures calm ==> stopping == old(stopping)
      ensures Resumes(old(asked), asked, old(cursor), head - finalityConfirmations)
      ensures cursor == old(cursor) || (cursor.Some? && cursor.value <= head - finalityConfirmations)
      ensures failedWrites == old(failedWrites) || status.Threw?
      ensures status.Done? && !stopping && head >= finalityConfirmations + fromBlock ==>
                cursor.Some? && cursor.value >= head - finalityConfirmations
    {
      if stopping || inFlight {
        return Stopped;
      }
      inFlight := true;
      status := Pass(head);
      inFlight := status.Died?;
    }

    /** The body of a tick: retries first, then the scan. */
    method Pass(head: nat) returns (status: Status)
      requires Valid() && inFlight
      modifies this`stopping, this`verified, this`unverified, this`failures, this`lives,
               this`misscanned, this`failedWrites, this`failedListings, this`driven, this`cursor, this`asked
      ensures Valid() && Kept() && (old(stopping) ==> stopping)
      ensures calm && retryListable && !old(stopping) ==> Ticked(old(Store()), Store())
      ensures calm && NoneBuildable() ==> Terminal() == old(Terminal())
      ensures calm ==> stopping == old(stopping)
      ensures calm && retryListable && !old(stopping) ==> status.Done?
      ensures Resumes(old(asked), asked, old(cursor), head - finalityConfirmations)
      ensures cursor == old(cursor) || (cursor.Some? && cursor.value <= head - finalityConfirmations)
      ensures failedWrites == old(failedWrites) || status.Threw?
      ensures status.Done? && !stopping && head >= finalityConfirmations + fromBlock ==>
                cursor.Some? && cursor.value >= head - finalityConfirmations
    {
      ghost var listed;
      status, listed := RetryFailures();
      ghost var retried := Store();
      if status.Done? {
        status := Await(); // getBlockNumber
        if status.Done? && head >= finalityConfirmations + fromBlock {
          status := ScanToHead(head - finalityConfirmations);
        }
      }
      if calm && retryListable && !old(stopping) {
        ScannedAfterRetry(old(Store()), retried, Store());
      }
    }

    /** The scan up to a finalized head.  An unreadable cursor only restarts it at `fromBlock`. */
    method ScanToHead(safeHead: nat) returns (status: Status)
      requires Valid() && fromBlock <= safeHead
      modifies this`stopping, this`verified, this`unverified, this`failures, this`lives,
               this`misscanned, this`failedWrites, this`failedListings, this`cursor, this`asked
      ensures Valid() && Kept() && (old(stopping) ==> stopping)
      ensures status.Stopped? ==> stopping
      ensures Resumes(old(asked), asked, old(cursor), safeHead)
      ensures cursor == old(cursor) || (cursor.Some? && cursor.value <= safeHead)
      ensures failedWrites == old(failedWrites) || status.Threw?
      ensures calm ==> stopping == old(stopping) && ScanAdds(old(Store()), Store())
      ensures calm && NoneBuildable() ==> Terminal() == old(Terminal())
      ensures calm ==> status.Done?
      ensures status.Done? && !stopping ==> cursor.Some? && cursor.value >= safeHead
    {
      var readable := Await();
      if readable.Died? {
        return Died;
      }
      status := ScanFrom(if readable.Done? && cursor.Some? then cursor.value + 1 else fromBlock, safeHead);
    }

    /** The chunk loop. */
    method ScanFrom(start: nat, safeHead: nat) returns (status: Status)
      requires Valid() && fromBlock <= safeHead
      requires start == fromBlock || (cursor.Some? && start == cursor.value + 1)
      modifies this`stopping, this`verified, this`unverified, this`failures, this`lives,
               this`misscanned, this`failedWrites, this`failedListings, this`cursor, this`asked
      ensures Valid() && Kept() && (old(stopping) ==> stopping)
      ensures status.Stopped? ==> stopping
      ensures Swept(old(asked), asked, start, safeHead)
      ensures cursor == old(cursor) || (cursor.Some? && cursor.value <= safeHead)
      ensures failedWrites == old(failedWrites) || status.Threw?
      ensures calm ==> stopping == old(stopping) && ScanAdds(old(Store()), Store())
      ensures calm && NoneBuildable() ==> Terminal() == old(Terminal())
      ensures calm ==> status.Done?
      ensures status.Done? && !stopping ==> cursor.Some? && cursor.value >= safeHead
    {
      var from := start;
      status := Done;
      while from <= safeHead && !stopping
        invariant Valid() && Kept() && (old(stopping) ==> stopping) && status.Done?
        invariant from > fromBlock ==> CoveredThrough(from - 1)
        invariant from > safeHead ==> cursor.Some? && cursor.value >= safeHead
        invariant Swept(old(asked), asked, start, safeHead)
        invariant from == if |asked| > |old(asked)| then asked[|asked| - 1].to + 1 else start
        invariant cursor == old(cursor) || (cursor.Some? && cursor.value <= safeHead)
        invariant failedWrites == old(failedWrites)
        invariant calm ==> stopping == old(stopping) && ScanAdds(old(Store()), Store())
        invariant calm && NoneBuildable() ==> Terminal() == old(Terminal())
        decreases safeHead + 1 - from
      {
        var to := if from + logChunk - 1 < safeHead then from + logChunk - 1 else safeHead;
        ghost var before := Store();
        SweptStep(old(asked), asked, start, safeHead, Range(from, to));
        status := ScanChunk(from, to);
        if calm {
          ScanAddsTransitive(old(Store()), before, Store());
        }
        if !status.Done? {
          return;
        }
        from := to + 1;
      }
    }

    /** One chunk: the scan, and then the cursor. */
    method ScanChunk(from: nat, to: nat) returns (status: Status)
      requires Valid() && (from > fromBlock ==> CoveredThrough(from - 1))
      modifies this`stopping, this`verified, this`unverified, this`failures, this`lives,
               this`misscanned, this`failedWrites, this`failedListings, this`cursor, this`asked
      ensures Valid() && Kept() && (old(stopping) ==> stopping)
      ensures status.Stopped? ==> stopping
      ensures asked == old(asked) + [Range(from, to)] && (cursor == old(cursor) || cursor == Some(to))
      ensures failedWrites == old(failedWrites) || status.Threw?
      ensures calm ==> stopping == old(stopping) && ScanAdds(old(Store()), Store())
      ensures calm && !stopping ==> status.Done?
      ensures calm && NoneBuildable() ==> Terminal() == old(Terminal())
      ensures status.Done? ==> cursor == Some(to) && CoveredThrough(to)
    {
      status := ScanRange(from, to);
      if status.Done? {
        status := WriteCursor(to);
      }
    }

    /** A new process on the same store. */
    method Restart()
      requires Valid()
      modifies this`inFlight, this`stopping
      ensures Valid() && !inFlight && !stopping
    {
      inFlight, stopping := false, false;
    }
  }

  /**
   * Every run of ticks, shutdowns, crashes and restarts keeps every scanned log accounted for.  A
   * dead-letter's count is that of its writes exactly if each of them found it in the listing, and then
   * it is written at most ten times unless hasFailure denied a dead-letter.
   */
  method AnyRun(w: Watcher, steps: nat)
    requires w.Valid() && !w.inFlight
    modifies w
    ensures w.Valid()
    ensures w.cursor.Some? ==> w.CoveredThrough(w.cursor.value)
    ensures forall l | l in w.chainLogs && old(w.Covered(l)) :: w.Covered(l)
    ensures old(w.verified) <= w.verified
    ensures forall p | p in w.failures && !w.lives[p].garbled ::
              && (w.failures[p].attempts == w.lives[p].writes <==> !w.lives[p].unlisted)
              && (!w.lives[p].unlisted && !w.misscanned ==> w.lives[p].writes <= MAX_CAPTURE_ATTEMPTS)
  {
    for i := 0 to steps
      invariant w.Valid() && !w.inFlight
      invariant old(w.verified) <= w.verified
      invariant forall l | l in w.chainLogs && old(w.Covered(l)) :: w.Covered(l)
    {
      var head :| head >= 0;
      var status := w.Tick(head);
      if status.Died? || w.stopping {
        w.Restart();
      }
    }
  }

  /** A log whose transaction cannot be decoded. */
  function NoCall(l: Log): Source {
    Source(None, _ => 0, 0)
  }

  /** One such log, in a store that can be listed by retryFailures and not by deadLetter, counted as a first attempt. */
  ghost predicate Stuck(w: Watcher, l: Log, writes: nat)
    reads w
  {
    && w.Valid() && !w.stopping && !w.inFlight && w.chainLogs == [l] && w.source == NoCall
    && w.calm && w.retryListable && !w.writeListable && w.Terminal() == {}
    && w.failures.Keys == {At(l)} && w.failures[At(l)] == Failure(l.proposalId, 1, false)
    && w.lives[At(l)].writes == writes
  }

  method StuckTick(w: Watcher, ghost l: Log, ghost writes: nat)
    requires Stuck(w, l, writes)
    modifies w
    ensures Stuck(w, l, writes + 1)
  {
    var status := w.Tick(20);
    forall p | p in w.failures ensures p == At(l) {
      assert LogAt(p, w.failures[p]) in w.chainLogs;
    }
  }

  method FirstTick(log: Log) returns (w: Watcher)
    requires log.block <= 20
    ensures fresh(w) && Stuck(w, log, 1)
  {
    w := new Watcher([log], 0, 0, 10, NoCall, (_, _, _, _) => 0, true, true, false);
    var status := w.Tick(20);
    assert w.Covered(log);
    forall p | p in w.failures ensures p == At(log) {
      assert LogAt(p, w.failures[p]) in w.chainLogs;
    }
  }

  /**
   * One log that cannot be captured, in a store where the listing fails whenever deadLetter reads it
   * and works whenever retryFailures does: after n + 1 ticks the log has been recorded n + 1 times and
   * still counts as a first attempt.
   */
  method NeverParked(n: nat) returns (w: Watcher, ghost l: Log)
    ensures w.Valid() && l in w.chainLogs && At(l) in w.failures
    ensures w.lives[At(l)].writes == n + 1 && w.failures[At(l)].attempts == 1 && !w.failures[At(l)].parked
  {
    var log := Log(5, 0, 1);
    l := log;
    w := FirstTick(log);
    for i := 0 to n
      invariant Stuck(w, log, i + 1) && fresh(w)
    {
      StuckTick(w, log, i + 1);
    }
  }
}
