/**
 * The key-consistency self-check loop: start, stop, attempts that finish late or throw, and timers.
 *
 * The event loop is part of the state: loop() calls in flight and timers not yet fired.  The code
 * after the key comparison and the code after check() returns are two steps, since other work may
 * run between them.
 */
module KeyConsistency {
  import opened Options

  type NodeId = string

  datatype Local = LocalOk | LocalMismatch | NoPrivateKey | RemoteSigner

  datatype Onchain = OnchainOk | OnchainMismatch | Unregistered | Unreadable

  datatype Status =
    | Ok | MismatchLocal | MismatchOnchain | NotRegistered | SkippedNoPrivateKey | SkippedRemoteSigner | Unknown

  /** combine: a proven mismatch is never hidden, and ok needs both dimensions. */
  function Combine(local: Local, onchain: Onchain): (s: Status)
    ensures s == Ok <==> local == LocalOk && onchain == OnchainOk
    ensures s in {MismatchLocal, MismatchOnchain} <==> local == LocalMismatch || onchain == OnchainMismatch
    ensures s == Unknown <==> onchain == Unreadable && local != LocalMismatch
  {
    if local == LocalMismatch then MismatchLocal
    else match onchain
      case OnchainMismatch => MismatchOnchain
      case Unregistered => NotRegistered
      case Unreadable => Unknown
      case OnchainOk =>
        match local
        case NoPrivateKey => SkippedNoPrivateKey
        case RemoteSigner => SkippedRemoteSigner
        case _ => Ok
  }

  /** The held result; checkerError marks a conclusion that an internal throw left unverified. */
  datatype Result = Result(status: Status, nodeId: NodeId, checkerError: bool)

  // ---- What the held result means ----------------------------------------------------------------

  /** How an attempt of the current loop ended. */
  datatype Outcome = Checked(status: Status) | Threw

  predicate Conclusive(o: Outcome) {
    o.Checked? && o.status != Unknown
  }

  /** The status to hold after these attempts. */
  function Held(h: seq<Outcome>): Option<Status> {
    if h == [] then None
    else
      var last := h[|h| - 1];
      if Conclusive(last) then Some(last.status) else Some(Held(h[..|h| - 1]).GetOr(Unknown))
  }

  /** The unknown attempts since the last conclusive one. */
  function Trailing(h: seq<Outcome>): nat {
    if h == [] || Conclusive(h[|h| - 1]) then 0
    else Trailing(h[..|h| - 1]) + if h[|h| - 1].Threw? then 0 else 1
  }

  /** The i-th attempt is the latest conclusive one. */
  predicate LatestConclusion(h: seq<Outcome>, i: nat) {
    i < |h| && Conclusive(h[i]) && forall j | i < j < |h| :: !Conclusive(h[j])
  }

  /** The held status is that of the latest conclusive attempt. */
  lemma {:induction false} HeldIsLatestConclusion(h: seq<Outcome>, i: nat)
    requires LatestConclusion(h, i)
    ensures Held(h) == Some(h[i].status)
  {
    var n := |h| - 1;
    if i < n {
      assert LatestConclusion(h[..n], i);
      HeldIsLatestConclusion(h[..n], i);
    }
  }

  /** It is unknown only if no attempt was conclusive. */
  lemma {:induction false} HeldIsUnknown(h: seq<Outcome>)
    requires h != [] && forall i | 0 <= i < |h| :: !Conclusive(h[i])
    ensures Held(h) == Some(Unknown)
  {
    if |h| > 1 {
      HeldIsUnknown(h[..|h| - 1]);
    }
  }

  const BACKOFF: seq<nat> := [30000, 60000, 120000, 240000]
  const RECHECK: nat := 900000

  /** nextDelayMs. */
  function NextDelay(consecutiveUnknown: nat): (d: nat)
    ensures 30000 <= d <= RECHECK
    ensures d < RECHECK <==> 1 <= consecutiveUnknown <= 4
    ensures consecutiveUnknown == 1 ==> d == 30000
  {
    if 0 < consecutiveUnknown <= |BACKOFF| then BACKOFF[consecutiveUnknown - 1] else RECHECK
  }

  /** The backoff doubles up to the fourth unknown in a row. */
  lemma BackoffDoubles(n: nat)
    requires 1 <= n < 4
    ensures NextDelay(n + 1) == 2 * NextDelay(n)
  {
    assert BACKOFF[n] == 2 * BACKOFF[n - 1];
  }

  // ---- The state machine -------------------------------------------------------------------------

  /** A loop() call in flight; Returned once its check() has resolved. */
  datatype Attempt = Attempt(generation: nat, node: NodeId, returned: bool)

  /** A timer not yet fired. */
  datatype Timer = Timer(generation: nat, node: NodeId)

  /** Attempts of the current generation. */
  predicate Current(attempts: map<nat, Attempt>, generation: nat, id: nat) {
    id in attempts && attempts[id].generation == generation
  }

  /** Exactly one attempt or timer drives a running loop, for the identity it was started with. */
  ghost predicate Driven(attempts: map<nat, Attempt>, timers: map<nat, Timer>, timer: Option<nat>,
                         generation: nat, stopped: bool, identity: Option<NodeId>, nextHandle: nat)
  {
    && (forall id | id in attempts :: id < nextHandle && attempts[id].generation <= generation)
    && (forall t | t in timers :: t < nextHandle && timer == Some(t))
    && (forall id | Current(attempts, generation, id) :: !stopped && identity == Some(attempts[id].node))
    && (forall t | t in timers :: !stopped && timers[t].generation == generation && identity == Some(timers[t].node))
    && (forall i, j | Current(attempts, generation, i) && Current(attempts, generation, j) :: i == j)
    && (forall i | Current(attempts, generation, i) :: timers == map[])
    && (!stopped ==> timers != map[] || exists i :: Current(attempts, generation, i))
  }

  /** The attempts that belong to the current generation. */
  function CurrentIds(attempts: map<nat, Attempt>, generation: nat): set<nat> {
    set id | id in attempts && attempts[id].generation == generation
  }

  /** At every point one attempt in flight or one pending timer, and none once stopped. */
  lemma OneDriver(attempts: map<nat, Attempt>, timers: map<nat, Timer>, timer: Option<nat>, generation: nat,
                  stopped: bool, identity: Option<NodeId>, nextHandle: nat)
    requires Driven(attempts, timers, timer, generation, stopped, identity, nextHandle)
    ensures |CurrentIds(attempts, generation)| + |timers| == if stopped then 0 else 1
  {
    var ids := CurrentIds(attempts, generation);
    assert forall id | id in ids :: Current(attempts, generation, id);
    if stopped {
      assert ids == {} && timers == map[];
    } else if timers != map[] {
      var t :| t in timers;
      assert timers.Keys == {t};
      assert ids == {};
    } else {
      var i: nat :| Current(attempts, generation, i);
      assert i in ids && forall j | j in ids :: j == i;
      assert ids == {i};
    }
  }

  ghost predicate HeldOk(lastResult: Option<Result>, consecutiveUnknown: nat, identity: Option<NodeId>,
                         history: seq<Outcome>)
  {
    && consecutiveUnknown == Trailing(history)
    && (lastResult.None? <==> history == [])
    && (lastResult.Some? ==>
          && identity == Some(lastResult.value.nodeId)
          && Held(history) == Some(lastResult.value.status)
          && lastResult.value.checkerError == history[|history| - 1].Threw?)
  }

  /** A conclusive status is not replaced by unknown, nor dropped. */
  predicate NoDowngrade(before: Option<Result>, after: Option<Result>) {
    before.Some? && before.value.status != Unknown ==> after.Some? && after.value.status != Unknown
  }

  lemma HistoryStep(h: seq<Outcome>, o: Outcome)
    ensures Trailing(h + [o]) == if Conclusive(o) then 0 else Trailing(h) + (if o.Threw? then 0 else 1)
    ensures Held(h + [o]) == Some(if Conclusive(o) then o.status else Held(h).GetOr(Unknown))
  {
    assert (h + [o])[..|h|] == h;
  }

  /** A new attempt takes over from nothing, or from the timer that fired. */
  lemma Drive(attempts: map<nat, Attempt>, timer: Option<nat>, generation: nat, node: NodeId, handle: nat)
    requires forall id | id in attempts :: id < handle && attempts[id].generation < generation
    ensures Driven(attempts[handle := Attempt(generation, node, false)], map[], timer, generation, false,
                   Some(node), handle + 1)
  {
    assert Current(attempts[handle := Attempt(generation, node, false)], generation, handle);
  }

  /** The end of an attempt: a stale one leaves the driver alone, the current one hands over to a timer. */
  lemma HandOver(attempts: map<nat, Attempt>, timers: map<nat, Timer>, timer: Option<nat>, generation: nat,
                 stopped: bool, identity: Option<NodeId>, handle: nat, id: nat)
    requires Driven(attempts, timers, timer, generation, stopped, identity, handle) && id in attempts
    ensures stopped || attempts[id].generation != generation ==>
              Driven(attempts - {id}, timers, timer, generation, stopped, identity, handle)
    ensures !stopped && attempts[id].generation == generation ==>
              && timers == map[]
              && Driven(attempts - {id}, map[handle := Timer(generation, attempts[id].node)], Some(handle),
                        generation, stopped, identity, handle + 1)
  {
    assert attempts[id].generation == generation <==> Current(attempts, generation, id);
    assert forall i :: Current(attempts - {id}, generation, i) <==> i != id && Current(attempts, generation, i);
  }

  /** The merge rule of check: a fresh unknown never overwrites a conclusion. */
  function Merge(held: Option<Result>, node: NodeId, status: Status): Result {
    if status == Unknown && held.Some? && held.value.status != Unknown then held.value.(checkerError := false)
    else Result(status, node, false)
  }

  lemma MergeOk(held: Option<Result>, unknowns: nat, identity: Option<NodeId>, history: seq<Outcome>, node: NodeId,
                status: Status)
    requires HeldOk(held, unknowns, identity, history) && identity == Some(node)
    ensures HeldOk(Some(Merge(held, node, status)), if status == Unknown then unknowns + 1 else 0, identity,
                   history + [Checked(status)])
    ensures NoDowngrade(held, Some(Merge(held, node, status)))
  {
    HistoryStep(history, Checked(status));
  }

  class NodeKeyConsistency {
    var lastResult: Option<Result>
    var consecutiveUnknown: nat
    var timer: Option<nat>           // the handle last assigned; it stays set after the timer fires
    var stopped: bool
    var generation: nat

    var attempts: map<nat, Attempt>
    var timers: map<nat, Timer>
    var nextHandle: nat                   // handles not used yet

    ghost var identity: Option<NodeId>   // the latest started
    ghost var history: seq<Outcome>      // since the latest start or clearResult

    ghost predicate Valid()
      reads this
    {
      && Driven(attempts, timers, timer, generation, stopped, identity, nextHandle)
      && HeldOk(lastResult, consecutiveUnknown, identity, history)
    }

    constructor ()
      ensures Valid() && lastResult.None? && stopped && timers == map[] && attempts == map[]
    {
      lastResult, consecutiveUnknown, timer, stopped, generation := None, 0, None, true, 0;
      attempts, timers, nextHandle := map[], map[], 0;
      identity, history := None, [];
    }

    /** stop: nothing drives the loop any more and every attempt in flight is stale. */
    method Stop()
      requires Valid()
      modifies this`stopped, this`generation, this`timer, this`timers
      ensures Valid()
      ensures stopped && generation == old(generation) + 1 && timers == map[] && timer.None?
      ensures forall id | id in attempts :: attempts[id].generation < generation
    {
      stopped := true;
      generation := generation + 1;
      if timer.Some? {
        timers := timers - {timer.value};
        timer := None;
      }
      assert timers == map[];
    }

    /** start: a new loop, driven by its own first attempt, holding nothing. */
    method Start(node: NodeId)
      requires Valid()
      modifies this
      ensures Valid()
      ensures lastResult.None? && identity == Some(node) && !stopped
      ensures generation == old(generation) + 2 && timers == map[]
    {
      Stop();
      Begin(node);
    }

    method Begin(node: NodeId)
      requires timers == map[]
      requires forall id | id in attempts :: id < nextHandle && attempts[id].generation < generation
      modifies this
      ensures Valid()
      ensures lastResult.None? && identity == Some(node) && !stopped
      ensures generation == old(generation) + 1 && timers == map[]
    {
      lastResult, consecutiveUnknown := None, 0;
      generation := generation + 1;
      stopped := false;
      identity, history := Some(node), [];
      Drive(attempts, timer, generation, node, nextHandle);
      attempts := attempts[nextHandle := Attempt(generation, node, false)];
      nextHandle := nextHandle + 1;
    }

    /** clearResult forgets the result; the loop goes on. */
    method ClearResult()
      requires Valid()
      modifies this`lastResult, this`consecutiveUnknown, this`history
      ensures Valid() && lastResult.None?
    {
      lastResult, consecutiveUnknown, history := None, 0, [];
    }

    /** check after its comparison: a stale attempt publishes nothing. */
    method CheckReturns(id: nat, local: Local, onchain: Onchain)
      requires Valid() && id in attempts && !attempts[id].returned
      modifies this`lastResult, this`consecutiveUnknown, this`attempts, this`history
      ensures Valid()
      ensures attempts == old(attempts)[id := old(attempts)[id].(returned := true)]
      ensures NoDowngrade(old(lastResult), lastResult)
      ensures old(attempts)[id].generation != generation ==>
                lastResult == old(lastResult) && history == old(history)
      ensures old(attempts)[id].generation == generation ==>
                history == old(history) + [Checked(Combine(local, onchain))]
    {
      var a := attempts[id];
      assert attempts[id].generation == generation <==> Current(attempts, generation, id);
      MarkReturned(id);
      if a.generation != generation {
        return;
      }
      var status := Combine(local, onchain);
      Publish(a.node, status);
    }

    method MarkReturned(id: nat)
      requires Valid() && id in attempts
      modifies this`attempts
      ensures Valid()
      ensures attempts == old(attempts)[id := old(attempts)[id].(returned := true)]
    {
      ghost var before := attempts;
      attempts := attempts[id := attempts[id].(returned := true)];
      assert forall i :: Current(attempts, generation, i) <==> Current(before, generation, i);
    }

    /** The merge rule: a fresh unknown never overwrites a conclusion. */
    method Publish(node: NodeId, status: Status)
      requires Valid() && identity == Some(node)
      modifies this`lastResult, this`consecutiveUnknown, this`history
      ensures Valid() && history == old(history) + [Checked(status)]
      ensures NoDowngrade(old(lastResult), lastResult)
    {
      MergeOk(lastResult, consecutiveUnknown, identity, history, node, status);
      if status == Unknown {
        consecutiveUnknown := consecutiveUnknown + 1;
        if lastResult.Some? && lastResult.value.status != Unknown {
          lastResult := Some(lastResult.value.(checkerError := false));
        } else {
          lastResult := Some(Result(Unknown, node, false));
        }
      } else {
        consecutiveUnknown := 0;
        lastResult := Some(Result(status, node, false));
      }
      history := history + [Checked(status)];
    }

    /** recordCheckerError: the conclusion stays, visibly marked. */
    method RecordCheckerError(node: NodeId)
      requires Valid() && identity == Some(node)
      modifies this`lastResult, this`history
      ensures Valid() && history == old(history) + [Threw]
      ensures NoDowngrade(old(lastResult), lastResult) && lastResult.Some? && lastResult.value.checkerError
    {
      HistoryStep(history, Threw);
      var base := lastResult.GetOr(Result(Unknown, node, false));
      lastResult := Some(base.(checkerError := true));
      history := history + [Threw];
    }

    /** The end of loop(): the attempt is over and, unless stale, the next one is scheduled. */
    method Reschedule(id: nat) returns (delay: Option<nat>)
      requires Valid() && id in attempts
      modifies this`attempts, this`timer, this`timers, this`nextHandle
      ensures Valid() && attempts == old(attempts) - {id}
      ensures delay == if !stopped && old(attempts)[id].generation == generation
                       then Some(NextDelay(Trailing(history))) else None
      ensures delay.Some? ==> |timers| == 1
      ensures delay.None? ==> timers == old(timers)
    {
      var a := attempts[id];
      HandOver(attempts, timers, timer, generation, stopped, identity, nextHandle, id);
      attempts := attempts - {id};
      if stopped || a.generation != generation {
        return None;
      }
      delay := Some(NextDelay(consecutiveUnknown));
      timer := Some(nextHandle);
      timers := timers[nextHandle := Timer(a.generation, a.node)];
      assert timers == map[nextHandle := Timer(a.generation, a.node)];
      nextHandle := nextHandle + 1;
    }

    /** loop() after check() resolved. */
    method LoopContinues(id: nat)
      requires Valid() && id in attempts && attempts[id].returned
      modifies this`attempts, this`timer, this`timers, this`nextHandle
      ensures Valid() && attempts == old(attempts) - {id}
      ensures if stopped || old(attempts)[id].generation != generation then timers == old(timers) else |timers| == 1
    {
      var _ := Reschedule(id);
    }

    /** loop() after check() threw: a stale attempt leaves no trace. */
    method CheckThrows(id: nat)
      requires Valid() && id in attempts && !attempts[id].returned
      modifies this`lastResult, this`history, this`attempts, this`timer, this`timers, this`nextHandle
      ensures Valid() && attempts == old(attempts) - {id}
      ensures NoDowngrade(old(lastResult), lastResult)
      ensures if stopped || old(attempts)[id].generation != generation
              then lastResult == old(lastResult) && history == old(history) && timers == old(timers)
              else lastResult.Some? && lastResult.value.checkerError && history == old(history) + [Threw] && |timers| == 1
    {
      var a := attempts[id];
      assert a.generation == generation <==> Current(attempts, generation, id);
      if !stopped && a.generation == generation {
        RecordCheckerError(a.node);
      }
      var _ := Reschedule(id);
    }

    /** A timer fires and the next attempt begins. */
    method TimerFires(t: nat)
      requires Valid() && t in timers
      modifies this`attempts, this`timers, this`nextHandle
      ensures Valid() && timers == map[]
    {
      var due := timers[t];
      assert forall id | id in attempts :: attempts[id].generation < generation || Current(attempts, generation, id);
      Drive(attempts, timer, due.generation, due.node, nextHandle);
      timers := timers - {t};
      attempts := attempts[nextHandle := Attempt(due.generation, due.node, false)];
      nextHandle := nextHandle + 1;
    }
  }

  /**
   * Every interleaving: a held result carries the latest started identity, exactly one attempt or
   * timer drives a running loop, and without a clearResult a conclusion outlives its generation's
   * failures.
   */
  method AnyRun(k: NodeKeyConsistency, steps: nat, clears: bool)
    requires k.Valid()
    modifies k
    ensures k.Valid()
    ensures k.lastResult.Some? ==> k.identity == Some(k.lastResult.value.nodeId)
    ensures k.generation >= old(k.generation)
    ensures !clears && k.generation == old(k.generation) ==> NoDowngrade(old(k.lastResult), k.lastResult)
  {
    for n := 0 to steps
      invariant k.Valid() && k.generation >= old(k.generation)
      invariant !clears && k.generation == old(k.generation) ==> NoDowngrade(old(k.lastResult), k.lastResult)
    {
      if {
        case true => var node: NodeId := *; k.Start(node);
        case true => k.Stop();
        case clears => k.ClearResult();
        case exists id :: id in k.attempts && !k.attempts[id].returned =>
          var id :| id in k.attempts && !k.attempts[id].returned;
          var local: Local, onchain: Onchain := *, *;
          k.CheckReturns(id, local, onchain);
        case exists id :: id in k.attempts && !k.attempts[id].returned =>
          var id :| id in k.attempts && !k.attempts[id].returned;
          k.CheckThrows(id);
        case exists id :: id in k.attempts && k.attempts[id].returned =>
          var id :| id in k.attempts && k.attempts[id].returned;
          k.LoopContinues(id);
        case k.timers != map[] =>
          var t :| t in k.timers;
          k.TimerFires(t);
      }
    }
  }
}
