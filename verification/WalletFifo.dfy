/**
 * The operator wallet's broadcast queue and its slash-priority counter.
 *
 * enqueueWalletWrite chains promises.  The promises are part of the state; a reaction may run at any
 * time once the promise it waits for has settled, in any order among those that may run, and a body
 * may take any time and end either way.
 */
module WalletFifo {
  datatype Promise = Pending | Fulfilled | Rejected

  /** One enqueued broadcast: the promise it waits for, its own, and the one that hides its outcome. */
  datatype Broadcast = Broadcast(waitsOn: nat, run: nat, tail: nat, started: bool)

  predicate Settled(promises: seq<Promise>, p: nat) {
    p < |promises| && !promises[p].Pending?
  }

  predicate Running(b: Broadcast, promises: seq<Promise>) {
    b.started && !Settled(promises, b.run)
  }

  /** The shape of the chain and what has happened along it. */
  ghost predicate ChainOk(queue: seq<Broadcast>, promises: seq<Promise>, chain: nat) {
    && |promises| == 2 * |queue| + 1 && chain == 2 * |queue| && promises[0] == Fulfilled
    && (forall i | 0 <= i < |queue| ::
          queue[i].waitsOn == 2 * i && queue[i].run == 2 * i + 1 && queue[i].tail == 2 * i + 2)
    && (forall i | 0 <= i < |queue| ::
          && (queue[i].started ==> Settled(promises, queue[i].waitsOn))
          && (Settled(promises, queue[i].run) ==> queue[i].started)
          && (Settled(promises, queue[i].tail) ==> Settled(promises, queue[i].run)))
  }

  /** Once a broadcast has started, every earlier one has ended. */
  lemma {:induction false} EarlierEnded(queue: seq<Broadcast>, promises: seq<Promise>, chain: nat, i: nat, j: nat)
    requires ChainOk(queue, promises, chain)
    requires i < j < |queue| && Settled(promises, queue[j].waitsOn)
    ensures queue[i].started && Settled(promises, queue[i].run)
    decreases j
  {
    assert queue[j].waitsOn == queue[j - 1].tail;
    if i < j - 1 {
      EarlierEnded(queue, promises, chain, i, j - 1);
    }
  }

  /** At most one broadcast body runs at a time. */
  lemma OneAtATime(queue: seq<Broadcast>, promises: seq<Promise>, chain: nat, i: nat, j: nat)
    requires ChainOk(queue, promises, chain)
    requires i < |queue| && j < |queue| && Running(queue[i], promises) && Running(queue[j], promises)
    ensures i == j
  {
    if i < j {
      EarlierEnded(queue, promises, chain, i, j);
    } else if j < i {
      EarlierEnded(queue, promises, chain, j, i);
    }
  }

  /** Bodies start in the order they were enqueued. */
  ghost predicate StartsOk(queue: seq<Broadcast>, starts: seq<nat>) {
    && |starts| <= |queue|
    && (forall k | 0 <= k < |starts| :: starts[k] == k)
    && (forall i | 0 <= i < |queue| :: queue[i].started <==> i < |starts|)
  }

  // ---- Progress --------------------------------------------------------------------------------

  /** A step the event loop can take by itself, or a body that is running. */
  predicate CanStart(queue: seq<Broadcast>, promises: seq<Promise>, i: nat) {
    i < |queue| && !queue[i].started && Settled(promises, queue[i].waitsOn)
  }

  predicate CanHide(queue: seq<Broadcast>, promises: seq<Promise>, i: nat) {
    i < |queue| && Settled(promises, queue[i].run) && !Settled(promises, queue[i].tail)
  }

  ghost predicate Moves(queue: seq<Broadcast>, promises: seq<Promise>, i: nat) {
    CanStart(queue, promises, i) || CanHide(queue, promises, i) || (i < |queue| && Running(queue[i], promises))
  }

  /** No broadcast is ever stuck behind another that has ended: something at or before it moves. */
  lemma {:induction false} NeverStuck(queue: seq<Broadcast>, promises: seq<Promise>, chain: nat, i: nat)
    requires ChainOk(queue, promises, chain)
    requires i < |queue| && !Settled(promises, queue[i].tail)
    ensures exists j: nat :: j <= i && Moves(queue, promises, j)
  {
    if !queue[i].started && !Settled(promises, queue[i].waitsOn) {
      assert queue[i].waitsOn == if i == 0 then 0 else queue[i - 1].tail;
      NeverStuck(queue, promises, chain, i - 1);
    } else {
      assert Moves(queue, promises, i);
    }
  }

  /** The steps one broadcast, and the whole queue, still have to take. */
  function Left(b: Broadcast, promises: seq<Promise>): nat {
    (if b.started then 0 else 1) + (if Settled(promises, b.run) then 0 else 1)
    + (if Settled(promises, b.tail) then 0 else 1)
  }

  function Remaining(queue: seq<Broadcast>, promises: seq<Promise>): nat {
    if queue == [] then 0
    else Remaining(queue[..|queue| - 1], promises) + Left(queue[|queue| - 1], promises)
  }

  /** Nothing remains exactly when every outcome is in. */
  lemma {:induction false} NothingRemains(queue: seq<Broadcast>, promises: seq<Promise>)
    ensures Remaining(queue, promises) == 0 <==> forall i | 0 <= i < |queue| :: Left(queue[i], promises) == 0
  {
    if queue != [] {
      var init := queue[..|queue| - 1];
      NothingRemains(init, promises);
      assert forall i | 0 <= i < |init| :: init[i] == queue[i];
    }
  }

  lemma {:induction false} SameRemains(q: seq<Broadcast>, p: seq<Promise>, q': seq<Broadcast>, p': seq<Promise>)
    requires |q| == |q'| && forall j | 0 <= j < |q| :: Left(q[j], p) == Left(q'[j], p')
    ensures Remaining(q, p) == Remaining(q', p')
  {
    if q != [] {
      SameRemains(q[..|q| - 1], p, q'[..|q| - 1], p');
    }
  }

  /** A step of one broadcast is a step of the queue. */
  lemma {:induction false} OneLess(q: seq<Broadcast>, p: seq<Promise>, q': seq<Broadcast>, p': seq<Promise>, i: nat)
    requires |q| == |q'| && i < |q| && Left(q[i], p) == Left(q'[i], p') + 1
    requires forall j | 0 <= j < |q| && j != i :: Left(q[j], p) == Left(q'[j], p')
    ensures Remaining(q, p) == Remaining(q', p') + 1
  {
    var n := |q| - 1;
    if i < n {
      OneLess(q[..n], p, q'[..n], p', i);
    } else {
      SameRemains(q[..n], p, q'[..n], p');
    }
  }

  lemma SettleOne(queue: seq<Broadcast>, p: seq<Promise>, chain: nat, i: nat, p': seq<Promise>)
    requires ChainOk(queue, p, chain) && i < |queue| && |p'| == |p|
    requires forall k | 0 <= k < |p| && k != queue[i].run && k != queue[i].tail :: p'[k] == p[k]
    requires Left(queue[i], p) == Left(queue[i], p') + 1
    ensures Remaining(queue, p) == Remaining(queue, p') + 1
  {
    forall j | 0 <= j < |queue| && j != i ensures Left(queue[j], p) == Left(queue[j], p') {
      assert queue[j].run != queue[i].run && queue[j].run != queue[i].tail;
      assert queue[j].tail != queue[i].run && queue[j].tail != queue[i].tail;
    }
    OneLess(queue, p, queue, p', i);
  }

  lemma RunSettles(queue: seq<Broadcast>, p: seq<Promise>, chain: nat, i: nat, p': seq<Promise>)
    requires ChainOk(queue, p, chain) && i < |queue| && queue[i].started && |p'| == |p|
    requires forall k | 0 <= k < |p| && k != queue[i].run :: p'[k] == p[k]
    requires Settled(p', queue[i].run)
    ensures ChainOk(queue, p', chain)
  {
    assert forall j | 0 <= j < |queue| :: queue[j].waitsOn != queue[i].run && queue[j].tail != queue[i].run;
    assert forall j | 0 <= j < |queue| && j != i :: queue[j].run != queue[i].run;
  }

  // ---- Slash priority --------------------------------------------------------------------------

  /** A slash operation: counted on entry, run later, uncounted whatever it did. */
  datatype SlashPhase = Scheduled | Body | Ended | Finished

  function Unfinished(ops: seq<SlashPhase>): nat {
    if ops == [] then 0
    else Unfinished(ops[..|ops| - 1]) + if ops[|ops| - 1].Finished? then 0 else 1
  }

  lemma UnfinishedAppend(ops: seq<SlashPhase>, op: SlashPhase)
    ensures Unfinished(ops + [op]) == Unfinished(ops) + if op.Finished? then 0 else 1
  {
    assert (ops + [op])[..|ops|] == ops;
  }

  lemma {:induction false} UnfinishedUpdate(ops: seq<SlashPhase>, i: nat, op: SlashPhase)
    requires i < |ops|
    ensures Unfinished(ops[i := op])
         == Unfinished(ops) + (if op.Finished? then 0 else 1) - (if ops[i].Finished? then 0 else 1)
  {
    var n := |ops| - 1;
    if i < n {
      UnfinishedUpdate(ops[..n], i, op);
      assert ops[i := op][..n] == ops[..n][i := op];
    } else {
      assert ops[i := op][..n] == ops[..n];
    }
  }

  /** What the attest loop reads: nothing pending means every slash operation is over. */
  lemma {:induction false} NothingPending(ops: seq<SlashPhase>)
    ensures Unfinished(ops) == 0 <==> forall i | 0 <= i < |ops| :: ops[i].Finished?
  {
    if ops != [] {
      var init := ops[..|ops| - 1];
      NothingPending(init);
      assert forall i | 0 <= i < |init| :: init[i] == ops[i];
    }
  }

  class OperatorWallet {
    var walletChain: nat
    var slashPending: int

    var promises: seq<Promise>
    var queue: seq<Broadcast>
    var slashes: seq<SlashPhase>
    ghost var starts: seq<nat>

    ghost predicate Valid()
      reads this
    {
      && ChainOk(queue, promises, walletChain)
      && StartsOk(queue, starts)
      && slashPending == Unfinished(slashes)
    }

    constructor ()
      ensures Valid() && queue == [] && slashPending == 0
    {
      promises, walletChain, queue := [Fulfilled], 0, [];
      slashPending, slashes, starts := 0, [], [];
    }

    /** enqueueWalletWrite. */
    method EnqueueWalletWrite()
      requires Valid()
      modifies this`promises, this`queue, this`walletChain
      ensures Valid()
      ensures |queue| == |old(queue)| + 1 && queue[..|old(queue)|] == old(queue) && !queue[|old(queue)|].started
      ensures promises == old(promises) + [Pending, Pending]
    {
      var run, tail := |promises|, |promises| + 1;
      promises := promises + [Pending, Pending];
      queue := queue + [Broadcast(walletChain, run, tail, false)];
      walletChain := tail;
    }

    /** The chain's reaction: `then(fn, fn)` starts the body whatever became of the one before. */
    method StartBody(i: nat)
      requires Valid() && CanStart(queue, promises, i)
      modifies this`queue, this`starts
      ensures Valid()
      ensures i == |old(starts)| && starts == old(starts) + [i]
      ensures queue == old(queue)[i := old(queue)[i].(started := true)]
      ensures forall j | 0 <= j < |queue| && j != i :: !Running(queue[j], promises)
      ensures Remaining(queue, promises) == old(Remaining(queue, promises)) - 1
    {
      forall j | 0 <= j < i ensures queue[j].started && Settled(promises, queue[j].run) {
        EarlierEnded(queue, promises, walletChain, j, i);
      }
      assert i > 0 ==> queue[i - 1].started;
      OneLess(queue, promises, queue[i := queue[i].(started := true)], promises, i);
      queue := queue[i := queue[i].(started := true)];
      starts := starts + [i];
    }

    /** A body ends, successfully or not. */
    method EndBody(i: nat, ok: bool)
      requires Valid() && i < |queue| && Running(queue[i], promises)
      modifies this`promises
      ensures Valid()
      ensures promises == old(promises)[queue[i].run := if ok then Fulfilled else Rejected]
      ensures Remaining(queue, promises) == old(Remaining(queue, promises)) - 1
    {
      var next := promises[queue[i].run := if ok then Fulfilled else Rejected];
      SettleOne(queue, promises, walletChain, i, next);
      RunSettles(queue, promises, walletChain, i, next);
      promises := next;
    }

    /** The chain goes on regardless: the outcome is hidden from whoever waits next. */
    method HideOutcome(i: nat)
      requires Valid() && CanHide(queue, promises, i)
      modifies this`promises
      ensures Valid() && promises == old(promises)[queue[i].tail := Fulfilled]
      ensures Remaining(queue, promises) == old(Remaining(queue, promises)) - 1
    {
      var next := promises[queue[i].tail := Fulfilled];
      SettleOne(queue, promises, walletChain, i, next);
      promises := next;
    }

    /** runWithSlashPriority: counted before anything else runs. */
    method RunWithSlashPriority()
      requires Valid()
      modifies this`slashPending, this`slashes
      ensures Valid() && slashes == old(slashes) + [Scheduled] && slashPending > 0
    {
      UnfinishedAppend(slashes, Scheduled);
      slashPending := slashPending + 1;
      slashes := slashes + [Scheduled];
    }

    /** The operation begins, ends (also by a throw), and is uncounted in its `finally`. */
    method SlashStep(i: nat)
      requires Valid() && i < |slashes| && !slashes[i].Finished?
      modifies this`slashPending, this`slashes
      ensures Valid()
      ensures slashes == old(slashes)[i := match old(slashes)[i]
                                           case Scheduled => Body
                                           case Body => Ended
                                           case _ => Finished]
      ensures slashPending == old(slashPending) - if old(slashes)[i].Ended? then 1 else 0
    {
      var next := match slashes[i] case Scheduled => Body case Body => Ended case _ => Finished;
      UnfinishedUpdate(slashes, i, next);
      if next.Finished? {
        slashPending := slashPending - 1;
      }
      slashes := slashes[i := next];
    }

    /** hasPendingSlashWrite. */
    method HasPendingSlashWrite() returns (pending: bool)
      requires Valid()
      ensures pending <==> exists i :: 0 <= i < |slashes| && !slashes[i].Finished?
    {
      NothingPending(slashes);
      pending := slashPending > 0;
    }
  }

  /** Every interleaving of enqueues, starts, ends and slash operations. */
  method AnyRun(w: OperatorWallet, steps: nat)
    requires w.Valid()
    modifies w
    ensures w.Valid()
    ensures |w.starts| >= |old(w.starts)| && w.starts[..|old(w.starts)|] == old(w.starts)
    ensures forall i, j | 0 <= i < |w.queue| && 0 <= j < |w.queue| ::
              Running(w.queue[i], w.promises) && Running(w.queue[j], w.promises) ==> i == j
  {
    for n := 0 to steps
      invariant w.Valid()
      invariant |w.starts| >= |old(w.starts)| && w.starts[..|old(w.starts)|] == old(w.starts)
    {
      var i :| i >= 0;
      if {
        case true => w.EnqueueWalletWrite();
        case CanStart(w.queue, w.promises, i) => w.StartBody(i);
        case i < |w.queue| && Running(w.queue[i], w.promises) =>
          var ok: bool := *;
          w.EndBody(i, ok);
        case CanHide(w.queue, w.promises, i) => w.HideOutcome(i);
        case true => w.RunWithSlashPriority();
        case i < |w.slashes| && !w.slashes[i].Finished? => w.SlashStep(i);
      }
    }
    forall i, j | 0 <= i < |w.queue| && 0 <= j < |w.queue| && Running(w.queue[i], w.promises)
                  && Running(w.queue[j], w.promises)
      ensures i == j
    {
      OneAtATime(w.queue, w.promises, w.walletChain, i, j);
    }
  }
}
