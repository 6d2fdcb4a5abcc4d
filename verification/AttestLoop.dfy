/**
 * The same-nonce fee-replacement loop of attestLiveness.
 *
 * The network is an object that answers at will, and records what was asked of it: every send that
 * was tried, with the nonce read it followed and the last look at the slash counter before it.
 */
module AttestLoop {
  import opened Options

  type Hash = nat

  datatype Fees = Fees(maxFee: nat, priority: nat)

  /** What the provider estimates; either field may be missing. */
  datatype FeeData = FeeData(maxFee: Option<nat>, priority: Option<nat>)

  const BUMP_PCT: nat := 15
  const PRIORITY_FLOOR: nat := 1500000000

  /** bumpedFees: EIP-1559 requires the priority fee not to exceed the maximum fee. */
  function BumpedFees(fd: FeeData): (r: Fees)
    ensures PRIORITY_FLOOR <= r.priority <= r.maxFee
    ensures fd.priority.Some? ==> r.priority >= fd.priority.value
    ensures fd.maxFee.Some? ==> r.maxFee >= fd.maxFee.value
    ensures r.priority == PRIORITY_FLOOR || (fd.priority.Some? && 100 * r.priority <= 115 * fd.priority.value)
    ensures fd.priority.Some? ==> 100 * r.priority > 115 * fd.priority.value - 100
    ensures r.maxFee == 2 * r.priority || (fd.maxFee.Some? && 100 * r.maxFee <= 115 * fd.maxFee.value)
    ensures fd.maxFee.Some? ==> 100 * r.maxFee > 115 * fd.maxFee.value - 100
    ensures fd.maxFee.Some? && 115 * fd.maxFee.value >= 100 * r.priority ==> 100 * r.maxFee <= 115 * fd.maxFee.value
  {
    var bump := (x: nat) => x * (100 + BUMP_PCT) / 100;
    var estimate := if fd.priority.Some? then bump(fd.priority.value) else PRIORITY_FLOOR;
    var priority := if estimate < PRIORITY_FLOOR then PRIORITY_FLOOR else estimate;
    var maxFee := if fd.maxFee.Some? then bump(fd.maxFee.value) else 0;
    Fees(if fd.maxFee.None? || maxFee < priority then priority * 2 else maxFee, priority)
  }

  /** At least 12.5% more, and strictly more. */
  predicate Above(x: nat, y: nat) {
    y > x && 1000 * y >= 1125 * x
  }

  predicate Raised(a: Fees, b: Fees) {
    Above(a.maxFee, b.maxFee) && Above(a.priority, b.priority)
  }

  function Bump(x: nat): (r: nat)
    ensures Above(x, r)
    ensures r == x + 1 || 1000 * r < 1125 * x + 1000
  {
    var b := (x * 1125 + 999) / 1000;
    if b > x then b else x + 1
  }

  lemma BumpMonotone(x: nat, y: nat)
    requires x <= y
    ensures Bump(x) <= Bump(y)
  {
    assert (x * 1125 + 999) / 1000 <= (y * 1125 + 999) / 1000;
  }

  function Max(a: nat, b: nat): nat {
    if a > b then a else b
  }

  /** nextAttestFees: a replacement outbids the previous try on both fields and follows the estimate. */
  function NextAttestFees(prev: Option<Fees>, fd: FeeData): (r: Fees)
    requires prev.Some? ==> prev.value.priority <= prev.value.maxFee
    ensures r.priority <= r.maxFee
    ensures prev.Some? ==> Raised(prev.value, r)
    ensures r.maxFee >= BumpedFees(fd).maxFee && r.priority >= BumpedFees(fd).priority
    ensures r.maxFee == BumpedFees(fd).maxFee || (prev.Some? && r.maxFee == Bump(prev.value.maxFee))
    ensures r.priority == BumpedFees(fd).priority || (prev.Some? && r.priority == Bump(prev.value.priority))
  {
    var estimate := BumpedFees(fd);
    if prev.None? then estimate
    else
      BumpMonotone(prev.value.priority, prev.value.maxFee);
      Fees(Max(estimate.maxFee, Bump(prev.value.maxFee)), Max(estimate.priority, Bump(prev.value.priority)))
  }

  lemma RaisedTransitive(a: Fees, b: Fees, c: Fees)
    requires Raised(a, b) && Raised(b, c)
    ensures Raised(a, c)
  {
  }

  // ---- The network -----------------------------------------------------------------------------

  /**
   * A send that was tried: the nonce read it belongs to, whether nothing had been broadcast before,
   * and what the last look at the slash counter saw.
   */
  datatype Try = Try(epoch: nat, nonce: nat, fees: Fees, first: bool, sawSlash: bool)

  /** How a step under the lock failed, as the catch block tells them apart. */
  datatype Failure = Yielded | NonceConsumed | Underpriced | OtherError

  datatype Reply<+T> = Answer(value: T) | Fails(failure: Failure)

  class Network {
    ghost var epoch: nat
    ghost var sawSlash: bool
    ghost var looks: nat              // looks at the slash counter
    ghost var tries: seq<Try>
    ghost var broadcast: seq<Hash>
    ghost var confirmed: set<Hash>    // hashes whose receipt was read with status 1
    ghost var reverted: set<Hash>     // hashes whose wait ended with another status
    ghost var timeouts: nat           // waits that ended without a receipt
    ghost var faults: seq<Failure>    // failed steps under the lock
    ghost var preflightReverted: bool

    constructor ()
      ensures Untouched()
    {
      epoch, sawSlash, looks, tries, broadcast, confirmed := 0, false, 0, [], [], {};
      reverted, timeouts, faults, preflightReverted := {}, 0, [], false;
    }

    /** Nothing was asked yet. */
    ghost predicate Untouched()
      reads this
    {
      && tries == [] && broadcast == [] && confirmed == {} && reverted == {}
      && timeouts == 0 && faults == [] && !preflightReverted
    }

    /** hasPendingSlashWrite: slashes come and go at every await. */
    method HasPendingSlashWrite() returns (pending: bool)
      modifies this`sawSlash, this`looks
      ensures sawSlash == pending && looks == old(looks) + 1
    {
      pending := *;
      sawSlash, looks := pending, looks + 1;
    }

    /** getTransactionCount. */
    method PendingNonce() returns (r: Reply<nat>)
      modifies this`epoch, this`faults
      ensures epoch == old(epoch) + if r.Answer? then 1 else 0
      ensures faults == if r.Answer? then old(faults) else old(faults) + [r.failure]
      ensures r.Answer? || !r.failure.Yielded?
    {
      var answers: bool := *;
      if answers {
        var nonce: nat :| nonce >= 0;
        epoch := epoch + 1;
        return Answer(nonce);
      }
      var f: Failure :| !f.Yielded?;
      faults := faults + [f];
      return Fails(f);
    }

    method GetFeeData() returns (r: Reply<FeeData>)
      modifies this`faults
      ensures faults == if r.Answer? then old(faults) else old(faults) + [r.failure]
      ensures r.Answer? || !r.failure.Yielded?
    {
      var answers: bool := *;
      if answers {
        var m: Option<nat> :| m.None? || m.value >= 0;
        var p: Option<nat> :| p.None? || p.value >= 0;
        return Answer(FeeData(m, p));
      }
      var f: Failure :| !f.Yielded?;
      faults := faults + [f];
      return Fails(f);
    }

    method Send(nonce: nat, fees: Fees) returns (r: Reply<Hash>)
      modifies this`tries, this`broadcast, this`faults
      ensures faults == if r.Answer? then old(faults) else old(faults) + [r.failure]
      ensures tries == old(tries) + [Try(epoch, nonce, fees, old(broadcast) == [], sawSlash)]
      ensures broadcast == if r.Answer? then old(broadcast) + [r.value] else old(broadcast)
      ensures r.Answer? || !r.failure.Yielded?
    {
      tries := tries + [Try(epoch, nonce, fees, broadcast == [], sawSlash)];
      var answers: bool := *;
      if answers {
        var h: Hash :| h >= 0;
        broadcast := broadcast + [h];
        return Answer(h);
      }
      var f: Failure :| !f.Yielded?;
      faults := faults + [f];
      return Fails(f);
    }

    /** The static call before any nonce is taken. */
    method Preflight() returns (ok: bool)
      modifies this`preflightReverted
      ensures preflightReverted == (old(preflightReverted) || !ok)
    {
      ok := *;
      preflightReverted := preflightReverted || !ok;
    }

    /** tx.wait: None if it times out, else the status in the receipt, if there is one. */
    method Wait(h: Hash) returns (mined: Option<Option<int>>)
      modifies this`confirmed, this`reverted, this`timeouts
      ensures confirmed == if mined == Some(Some(1)) then old(confirmed) + {h} else old(confirmed)
      ensures reverted == if mined.Some? && mined.value != Some(1) then old(reverted) + {h} else old(reverted)
      ensures timeouts == old(timeouts) + if mined.None? then 1 else 0
    {
      var late: bool, status: Option<int> := *, *;
      if late {
        timeouts := timeouts + 1;
        return None;
      }
      if status == Some(1) {
        confirmed := confirmed + {h};
      } else {
        reverted := reverted + {h};
      }
      return Some(status);
    }

    /** A receipt read: None when it is missing or unreadable. */
    method Receipt(h: Hash) returns (status: Option<int>)
      modifies this`confirmed
      ensures confirmed == if status == Some(1) then old(confirmed) + {h} else old(confirmed)
    {
      status := *;
      if status == Some(1) {
        confirmed := confirmed + {h};
      }
    }
  }

  // ---- Properties of the tries -----------------------------------------------------------------

  /** Fee rules over the whole call; between nonce reads every try outbids all earlier ones. */
  ghost predicate TriesOk(tries: seq<Try>) {
    && (forall i | 0 <= i < |tries| ::
          && tries[i].fees.priority <= tries[i].fees.maxFee
          && (tries[i].first ==> !tries[i].sawSlash))
    && (forall i, j | 0 <= i < j < |tries| && tries[i].epoch == tries[j].epoch ::
          tries[i].nonce == tries[j].nonce && Raised(tries[i].fees, tries[j].fees))
  }

  /** The nonce and fee baseline carried between iterations. */
  datatype Plan = Plan(nonce: Option<nat>, prevFees: Option<Fees>)

  ghost predicate PlanOk(plan: Plan, tries: seq<Try>, epoch: nat) {
    && (forall i | 0 <= i < |tries| :: tries[i].epoch <= epoch)
    && (plan.prevFees.Some? ==> plan.nonce.Some? && plan.prevFees.value.priority <= plan.prevFees.value.maxFee)
    && (plan.nonce.Some? ==>
          forall i | 0 <= i < |tries| && tries[i].epoch == epoch ::
            && tries[i].nonce == plan.nonce.value && plan.prevFees.Some?
            && (tries[i].fees == plan.prevFees.value || Raised(tries[i].fees, plan.prevFees.value)))
  }

  /** The next try outbids every try since the nonce was read. */
  lemma NextTry(tries: seq<Try>, plan: Plan, epoch: nat, fees: Fees, t: Try)
    requires TriesOk(tries) && PlanOk(plan, tries, epoch) && plan.nonce.Some?
    requires fees.priority <= fees.maxFee && (plan.prevFees.Some? ==> Raised(plan.prevFees.value, fees))
    requires t.epoch == epoch && t.nonce == plan.nonce.value && t.fees == fees && (t.first ==> !t.sawSlash)
    ensures TriesOk(tries + [t])
    ensures PlanOk(plan.(prevFees := Some(fees)), tries + [t], epoch)
  {
    forall i | 0 <= i < |tries| && tries[i].epoch == epoch
      ensures tries[i].nonce == t.nonce && Raised(tries[i].fees, fees)
    {
      if tries[i].fees != plan.prevFees.value {
        RaisedTransitive(tries[i].fees, plan.prevFees.value, fees);
      }
    }
  }

  /** The same without a try: the fees were computed and the send was not reached. */
  lemma NextFees(tries: seq<Try>, plan: Plan, epoch: nat, fees: Fees)
    requires PlanOk(plan, tries, epoch) && plan.nonce.Some?
    requires fees.priority <= fees.maxFee && (plan.prevFees.Some? ==> Raised(plan.prevFees.value, fees))
    ensures PlanOk(plan.(prevFees := Some(fees)), tries, epoch)
  {
    forall i | 0 <= i < |tries| && tries[i].epoch == epoch ensures Raised(tries[i].fees, fees) {
      if tries[i].fees != plan.prevFees.value {
        RaisedTransitive(tries[i].fees, plan.prevFees.value, fees);
      }
    }
  }

  // ---- attestLiveness ----------------------------------------------------------------------------

  /** Why the loop was left before its send budget was spent. */
  datatype Why = GaveWay | PreflightReverted | TooManyRecoveries | SendError | Reverted

  datatype Result = Confirmed(hash: Hash) | NotConfirmed(why: Option<Why>)

  /** The failures that made the nonce worthless. */
  function Consumed(faults: seq<Failure>): nat {
    if faults == [] then 0 else Consumed(faults[..|faults| - 1]) + if faults[|faults| - 1].NonceConsumed? then 1 else 0
  }

  lemma ConsumedAppend(faults: seq<Failure>, f: Failure)
    ensures Consumed(faults + [f]) == Consumed(faults) + if f.NonceConsumed? then 1 else 0
  {
    assert (faults + [f])[..|faults|] == faults;
  }

  /** A nonce is read again only after one was consumed. */
  ghost predicate Rereads(before: nat, after: nat, plan: Plan, faults: seq<Failure>) {
    after + (if plan.nonce.Some? then 0 else 1) <= before + 1 + Consumed(faults)
  }

  lemma RereadsStep(epoch: nat, e0: nat, e1: nat, plan: Plan, offered: Plan, next: Plan, faults: seq<Failure>, tx: Reply<Hash>)
    requires Rereads(epoch, e0, plan, faults)
    requires plan.nonce.Some? ==> e1 == e0 && offered.nonce == plan.nonce
    requires plan.nonce.None? ==> e1 == e0 + if offered.nonce.Some? then 1 else 0
    requires next.nonce.None? && offered.nonce.Some? ==> tx == Fails(NonceConsumed)
    ensures Rereads(epoch, e1, next, if tx.Answer? || tx.failure.Yielded? then faults else faults + [tx.failure])
  {
    if tx.Fails? {
      ConsumedAppend(faults, tx.failure);
    }
  }

  ghost predicate NetworkOk(net: Network, plan: Plan, sent: seq<Hash>)
    reads net
  {
    TriesOk(net.tries) && PlanOk(plan, net.tries, net.epoch) && net.broadcast == sent
  }

  /** The check before the first send; later sends go on whatever is pending. */
  method GivesWay(net: Network, sent: seq<Hash>) returns (yes: bool)
    requires net.broadcast == sent
    modifies net`sawSlash, net`looks
    ensures yes ==> net.sawSlash && sent == []
    ensures !yes && sent == [] ==> !net.sawSlash
    ensures net.looks == old(net.looks) + if sent == [] then 1 else 0
  {
    yes := false;
    if |sent| == 0 {
      yes := net.HasPendingSlashWrite();
    }
  }

  /** Fees, the second check and the send. */
  method Offer(net: Network, plan: Plan, sent: seq<Hash>) returns (r: Reply<Hash>, next: Plan)
    requires NetworkOk(net, plan, sent) && plan.nonce.Some?
    modifies net`sawSlash, net`looks, net`tries, net`broadcast, net`faults
    ensures NetworkOk(net, next, if r.Answer? then sent + [r.value] else sent)
    ensures next.nonce == plan.nonce
    ensures sent == [] && net.tries != old(net.tries) ==> net.looks == old(net.looks) + 1
    ensures r == Fails(Yielded) ==> net.sawSlash && sent == [] && net.tries == old(net.tries)
    ensures net.faults == if r.Answer? || r.failure.Yielded? then old(net.faults) else old(net.faults) + [r.failure]
  {
    var fd := net.GetFeeData();
    if fd.Fails? {
      return Fails(fd.failure), plan;
    }
    var fees := NextAttestFees(plan.prevFees, fd.value);
    next := plan.(prevFees := Some(fees));
    NextFees(net.tries, plan, net.epoch, fees);
    var slash := GivesWay(net, sent);
    if slash {
      return Fails(Yielded), next;
    }
    NextTry(net.tries, plan, net.epoch, fees, Try(net.epoch, plan.nonce.value, fees, net.broadcast == [], net.sawSlash));
    r := net.Send(plan.nonce.value, fees);
  }

  /** The part of an iteration that runs under the wallet lock. */
  method Broadcast(net: Network, plan: Plan, sent: seq<Hash>) returns (r: Reply<Hash>, next: Plan)
    requires NetworkOk(net, plan, sent)
    modifies net`sawSlash, net`looks, net`epoch, net`tries, net`broadcast, net`faults
    ensures NetworkOk(net, next, if r.Answer? then sent + [r.value] else sent)
    ensures r == Fails(Yielded) ==> net.sawSlash && sent == [] && net.tries == old(net.tries)
    ensures net.faults == if r.Answer? || r.failure.Yielded? then old(net.faults) else old(net.faults) + [r.failure]
    ensures plan.nonce.Some? ==> net.epoch == old(net.epoch) && next.nonce == plan.nonce
    ensures plan.nonce.None? ==> net.epoch == old(net.epoch) + if next.nonce.Some? then 1 else 0
    ensures sent == [] && net.tries != old(net.tries) ==> net.looks == old(net.looks) + 2
  {
    var slash := GivesWay(net, sent);
    if slash {
      return Fails(Yielded), plan;
    }
    next := plan;
    if plan.nonce.None? {
      var n := net.PendingNonce();
      if n.Fails? {
        return Fails(n.failure), plan;
      }
      next := plan.(nonce := Some(n.value));
    }
    r, next := Offer(net, next, sent);
  }

  /** reconcile: the first broadcast hash with a successful receipt, as far as receipts can be read. */
  method Reconcile(net: Network, sent: seq<Hash>) returns (hit: Option<Hash>)
    modifies net`confirmed
    ensures hit.Some? ==> hit.value in sent && hit.value in net.confirmed
    ensures hit.None? ==> net.confirmed == old(net.confirmed)
  {
    for i := 0 to |sent|
      invariant net.confirmed == old(net.confirmed)
    {
      var status := net.Receipt(sent[i]);
      if status == Some(1) {
        return Some(sent[i]);
      }
    }
    return None;
  }

  /** The send budget: a positive integer, capped, and 3 for anything else. */
  function MaxSends(maxAttempts: Option<int>): (n: nat)
    ensures 1 <= n <= 10
    ensures n == 3 || (maxAttempts.Some? && n <= maxAttempts.value && n in {maxAttempts.value, 10})
    ensures maxAttempts.Some? && maxAttempts.value > 0 ==> n in {maxAttempts.value, 10}
  {
    if maxAttempts.None? || maxAttempts.value <= 0 then 3
    else if maxAttempts.value > 10 then 10 else maxAttempts.value
  }

  /** Where the loop stands after one more iteration. */
  datatype Next = GoOn | Stop(why: Why) | Done(hash: Hash)

  /**
   * The catch block.  A consumed nonce is refetched unless one of our own sends turns out confirmed;
   * an underpriced replacement is tried again at the same nonce; everything else ends the loop.
   */
  method Recover(net: Network, f: Failure, plan: Plan, sent: seq<Hash>, recoveries: nat, maxRecoveries: nat)
    returns (next: Next, plan': Plan)
    requires NetworkOk(net, plan, sent)
    modifies net`confirmed
    ensures NetworkOk(net, plan', sent)
    ensures next.Done? ==> next.hash in sent && next.hash in net.confirmed
    ensures next.GoOn? ==> recoveries < maxRecoveries && (f.NonceConsumed? || f.Underpriced?)
    ensures plan'.nonce.None? ==> plan.nonce.None? || f.NonceConsumed?
    ensures f.Underpriced? && recoveries < maxRecoveries ==> next.GoOn? && plan' == plan
    ensures next.GoOn? && f.NonceConsumed? ==> plan' == Plan(None, None)
    ensures !next.Done? ==> net.confirmed == old(net.confirmed)
    ensures next == Stop(GaveWay) <==> f.Yielded?
    ensures next == Stop(TooManyRecoveries) <==> !f.Yielded? && recoveries >= maxRecoveries
    ensures next == Stop(SendError) <==> f.OtherError? && recoveries < maxRecoveries
    ensures next != Stop(Reverted) && next != Stop(PreflightReverted)
  {
    plan' := plan;
    if f.Yielded? {
      return Stop(GaveWay), plan';
    }
    if recoveries + 1 > maxRecoveries {
      return Stop(TooManyRecoveries), plan';
    }
    if f.NonceConsumed? {
      var hit := Reconcile(net, sent);
      if hit.Some? {
        return Done(hit.value), plan';
      }
      return GoOn, Plan(None, None);
    }
    return if f.Underpriced? then GoOn else Stop(SendError), plan';
  }

  /** The wait for the receipt, outside the lock: a revert is final, and exactly a timeout goes on. */
  method AwaitReceipt(net: Network, h: Hash) returns (next: Next)
    modifies net`confirmed, net`reverted, net`timeouts
    ensures next.GoOn? <==> net.timeouts == old(net.timeouts) + 1
    ensures next.GoOn? ==> net.confirmed == old(net.confirmed) && net.reverted == old(net.reverted)
    ensures next.Done? ==> next.hash == h && h in net.confirmed && net.reverted == old(net.reverted)
    ensures next.Stop? ==> next.why.Reverted? && h in net.reverted && net.confirmed == old(net.confirmed)
  {
    var mined := net.Wait(h);
    next := if mined.None? then GoOn else if mined.value == Some(1) then Done(h) else Stop(Reverted);
  }

  /** Each reason for giving up rests on something that happened. */
  ghost predicate Reason(why: Why, net: Network, sent: seq<Hash>, maxRecoveries: nat)
    reads net
  {
    match why
    case GaveWay => sent == [] && net.sawSlash
    case PreflightReverted => sent == [] && net.tries == [] && net.preflightReverted
    case TooManyRecoveries => |net.faults| > maxRecoveries
    case SendError => net.faults != [] && net.faults[|net.faults| - 1] == OtherError
    case Reverted => sent != [] && sent[|sent| - 1] in net.reverted
  }

  /** Where the loop stands. */
  ghost predicate LoopOk(net: Network, next: Next, plan: Plan, sent: seq<Hash>, recoveries: nat, maxRecoveries: nat)
    reads net
  {
    && NetworkOk(net, plan, sent)
    && recoveries <= maxRecoveries + 1
    && (next.GoOn? ==>
          recoveries <= maxRecoveries && recoveries == |net.faults| && net.timeouts == |sent| && net.reverted == {})
    && (if next.Done? then next.hash in sent && next.hash in net.confirmed else net.confirmed == {})
    && (next.Stop? ==> Reason(next.why, net, sent, maxRecoveries))
  }

  /** One iteration: broadcast under the lock, then wait or recover. */
  method Iterate(net: Network, plan: Plan, sent: seq<Hash>, recoveries: nat, maxRecoveries: nat, ghost epoch: nat)
    returns (next: Next, plan': Plan, sent': seq<Hash>, recoveries': nat)
    requires LoopOk(net, GoOn, plan, sent, recoveries, maxRecoveries)
    requires Rereads(epoch, net.epoch, plan, net.faults)
    modifies net`sawSlash, net`looks, net`epoch, net`tries, net`broadcast, net`faults, net`confirmed, net`reverted, net`timeouts
    ensures LoopOk(net, next, plan', sent', recoveries', maxRecoveries)
    ensures Rereads(epoch, net.epoch, plan', net.faults)
    ensures |sent'| + recoveries' == |sent| + recoveries + 1 && |sent| <= |sent'| && recoveries <= recoveries'
  {
    ghost var faults, e := net.faults, net.epoch;
    var tx;
    tx, plan' := Broadcast(net, plan, sent);
    ghost var offered := plan';
    if tx.Answer? {
      sent', recoveries' := sent + [tx.value], recoveries;
      next := AfterSend(net, plan', sent', recoveries, maxRecoveries);
    } else {
      sent', recoveries' := sent, recoveries + 1;
      next, plan' := AfterFault(net, tx.failure, plan', sent, recoveries, maxRecoveries);
    }
    RereadsStep(epoch, e, net.epoch, plan, offered, plan', faults, tx);
  }

  method AfterSend(net: Network, plan: Plan, sent: seq<Hash>, recoveries: nat, maxRecoveries: nat) returns (next: Next)
    requires NetworkOk(net, plan, sent) && sent != [] && net.confirmed == {} && net.reverted == {}
    requires recoveries <= maxRecoveries && recoveries == |net.faults| && net.timeouts == |sent| - 1
    modifies net`confirmed, net`reverted, net`timeouts
    ensures LoopOk(net, next, plan, sent, recoveries, maxRecoveries)
  {
    next := AwaitReceipt(net, sent[|sent| - 1]);
  }

  method AfterFault(net: Network, f: Failure, plan: Plan, sent: seq<Hash>, recoveries: nat, maxRecoveries: nat)
    returns (next: Next, plan': Plan)
    requires NetworkOk(net, plan, sent) && net.confirmed == {} && net.reverted == {}
    requires recoveries <= maxRecoveries && net.timeouts == |sent|
    requires f.Yielded? ==> sent == [] && net.sawSlash && recoveries == |net.faults|
    requires !f.Yielded? ==> recoveries + 1 == |net.faults| && net.faults[recoveries] == f
    modifies net`confirmed
    ensures LoopOk(net, next, plan', sent, recoveries + 1, maxRecoveries)
    ensures plan'.nonce.None? ==> plan.nonce.None? || f.NonceConsumed?
  {
    next, plan' := Recover(net, f, plan, sent, recoveries, maxRecoveries);
  }

  /**
   * attestLiveness.  It ends within maxSends + maxRecoveries + 1 iterations, broadcasts at most
   * maxSends times, reports success exactly when it read a receipt with status 1, for a hash it
   * broadcast, never sends first when its last look saw a pending slash, and gives up early only for a
   * reason that occurred.  It reads a nonce once, and again only after one was consumed.  Recoveries do
   * not use up the send budget: if all that goes wrong are waits that time out, it sends maxSends times.
   */
  method AttestLiveness(net: Network, maxAttempts: Option<int>) returns (r: Result, sent: seq<Hash>, iterations: nat)
    requires net.Untouched()
    modifies net
    ensures TriesOk(net.tries)
    ensures sent == net.broadcast && |sent| <= MaxSends(maxAttempts)
    ensures iterations <= MaxSends(maxAttempts) + (2 * MaxSends(maxAttempts) + 2) + 1
    ensures r.Confirmed? <==> net.confirmed != {}
    ensures r.Confirmed? ==> r.hash in sent && r.hash in net.confirmed
    ensures r == NotConfirmed(None) ==> |sent| == MaxSends(maxAttempts)
    ensures r.NotConfirmed? && r.why.Some? ==> Reason(r.why.value, net, sent, 2 * MaxSends(maxAttempts) + 2)
    ensures net.epoch <= old(net.epoch) + 1 + Consumed(net.faults)
    ensures !net.sawSlash && !net.preflightReverted && net.faults == [] && net.reverted == {} && net.confirmed == {} ==>
              |sent| == MaxSends(maxAttempts) == net.timeouts
  {
    sent, iterations := [], 0;
    var plan := Plan(None, None);
    var maxSends := MaxSends(maxAttempts);
    var maxRecoveries := maxSends * 2 + 2;
    var recoveries := 0;
    var slash := GivesWay(net, sent);
    if slash {
      return NotConfirmed(Some(GaveWay)), sent, 0;
    }
    var preflight := net.Preflight();
    if !preflight {
      return NotConfirmed(Some(PreflightReverted)), sent, 0;
    }
    var next := GoOn;
    while |sent| < maxSends && next.GoOn?
      invariant |sent| <= maxSends
      invariant iterations == |sent| + recoveries
      invariant LoopOk(net, next, plan, sent, recoveries, maxRecoveries)
      invariant Rereads(old(net.epoch), net.epoch, plan, net.faults)
      decreases next.GoOn?, maxSends - |sent| + maxRecoveries - recoveries
    {
      iterations := iterations + 1;
      next, plan, sent, recoveries := Iterate(net, plan, sent, recoveries, maxRecoveries, old(net.epoch));
    }
    if next.Done? {
      return Confirmed(next.hash), sent, iterations;
    }
    var hit := Reconcile(net, sent);
    r := if hit.Some? then Confirmed(hit.value) else NotConfirmed(if next.Stop? then Some(next.why) else None);
  }
}
