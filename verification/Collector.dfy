/**
 * The co-sign response collector of one request (requestCoSignatures, handleCoSignResponse,
 * countValidatedResponse).  Responses arrive in any order on any connection, validations run
 * concurrently and finish in any order, and the timeout may fire at any time.
 */
module Collector {
  import opened Options
  import opened Counting

  /** The parts of a response the collector looks at; the slot is the dedup key. */
  datatype Response = Response(signer: nat, slot: int, signature: nat)

  type Connection = nat

  /** The sum of a map's values. */
  ghost function Sum(m: map<Connection, nat>): nat {
    if m == map[] then 0 else
      var c :| c in m;
      m[c] + Sum(m - {c})
  }

  lemma {:induction false} SumRemove(m: map<Connection, nat>, c: Connection)
    requires c in m
    ensures Sum(m) == m[c] + Sum(m - {c})
    decreases |m|
  {
    var d :| d in m && Sum(m) == m[d] + Sum(m - {d});
    if d != c {
      SumRemove(m - {d}, c);
      SumRemove(m - {c}, d);
      assert m - {d} - {c} == m - {c} - {d};
    }
  }

  lemma SumUpdate(m: map<Connection, nat>, c: Connection, n: nat)
    ensures Sum(m[c := n]) == Sum(m) + n - if c in m then m[c] else 0
  {
    SumRemove(m[c := n], c);
    assert m[c := n] - {c} == m - {c};
    if c in m {
      SumRemove(m, c);
    } else {
      assert m - {c} == m;
    }
  }

  lemma {:induction false} SumBound(m: map<Connection, nat>, cap: nat)
    requires forall c | c in m :: m[c] <= cap
    ensures Sum(m) <= Capacity(|m|, cap)
    decreases |m|
  {
    if m != map[] {
      var c :| c in m;
      SumRemove(m, c);
      SumBound(m - {c}, cap);
      assert |m - {c}| == |m| - 1 by {
        assert (m - {c}).Keys == m.Keys - {c};
      }
    }
  }

  lemma KeyCount(m: map<Connection, nat>, c: Connection)
    ensures |m.Keys + {c}| == |(m - {c}).Keys| + 1
  {
    assert m.Keys + {c} == (m - {c}).Keys + {c};
  }

  lemma SumOthers(m: map<Connection, nat>, cap: nat, c: Connection)
    requires cap >= 1 && (c in m ==> m[c] < cap)
    ensures Sum(m) < Sum(m - {c}) + cap
  {
    if c in m {
      SumRemove(m, c);
    } else {
      assert m - {c} == m;
    }
  }

  /** A connection below its cap leaves room in a budget that covers every responding connection. */
  lemma BudgetLeft(m: map<Connection, nat>, cap: nat, c: Connection)
    requires forall d | d in m :: m[d] <= cap
    requires cap >= 1 && (c in m ==> m[c] < cap)
    ensures Sum(m) < Capacity(|m.Keys + {c}|, cap)
  {
    var others := m - {c};
    KeyCount(m, c);
    SumBound(others, cap);
    SumOthers(m, cap, c);
  }

  ghost predicate DistinctSlots(rs: seq<Response>) {
    forall i, j | 0 <= i < j < |rs| :: rs[i].slot != rs[j].slot
  }

  /** One validation more on the responding connection, and on no other. */
  ghost function Charged(perConn: map<Connection, nat>, conn: Option<Connection>): (r: map<Connection, nat>)
    ensures forall c | c in perConn && conn != Some(c) :: c in r && r[c] == perConn[c]
    ensures forall c | c in r && c !in perConn :: conn == Some(c) && r[c] == 1
    ensures conn.Some? && conn.value in perConn ==> conn.value in r && r[conn.value] == perConn[conn.value] + 1
  {
    if conn.None? then perConn
    else perConn[conn.value := if conn.value in perConn then perConn[conn.value] + 1 else 1]
  }

  predicate BelowCap(perConn: map<Connection, nat>, conn: Option<Connection>, cap: nat) {
    conn.Some? && conn.value in perConn ==> perConn[conn.value] < cap
  }

  class PendingCoSign {
    const threshold: int
    const maxValidations: nat
    const perConnCap: nat

    var validated: seq<Response>      // insertion order
    var resolved: Option<seq<Response>>
    var seenExact: set<Response>
    var validationsStarted: nat
    var perConn: map<Connection, nat>
    var running: multiset<Response>   // validations in progress

    ghost var passed: set<Response>   // responses whose validation succeeded
    ghost var anonymous: nat          // validations of responses without a connection

    ghost predicate Valid()
      reads this
    {
      && maxValidations >= 1 && perConnCap >= 1
      && DistinctSlots(validated)
      && (forall r | r in validated :: r in passed)
      && (resolved.None? ==> |validated| < threshold)
      && (resolved.Some? ==>
            && resolved.value == validated
            && |validated| <= (if threshold < 0 then 0 else threshold))
      && validationsStarted == Sum(perConn) + anonymous <= maxValidations
      && (forall c | c in perConn :: perConn[c] <= perConnCap)
    }

    /** requestCoSignatures: a threshold of zero or less resolves at once with nothing. */
    constructor (threshold: int, maxValidations: int, perConnCap: int)
      ensures Valid()
      ensures this.threshold == threshold
      ensures this.maxValidations == (if maxValidations < 1 then 1 else maxValidations)
      ensures this.perConnCap == (if perConnCap < 1 then 1 else perConnCap)
      ensures resolved == if threshold <= 0 then Some([]) else None
      ensures validated == [] && perConn == map[] && running == multiset{} && anonymous == 0
    {
      this.threshold := threshold;
      this.maxValidations := if maxValidations < 1 then 1 else maxValidations;
      this.perConnCap := if perConnCap < 1 then 1 else perConnCap;
      validated, seenExact, validationsStarted, perConn, running := [], {}, 0, map[], multiset{};
      resolved := if threshold <= 0 then Some([]) else None;
      passed, anonymous := {}, 0;
    }

    /** Connections that would have started a validation once this one has. */
    ghost function Responding(c: Connection): set<Connection>
      reads this
    {
      perConn.Keys + {c}
    }

    /**
     * handleCoSignResponse.  A fresh response on a connection below its cap is always validated while
     * the responding connections together cannot exhaust the global budget.
     */
    method OnResponse(r: Response, conn: Option<Connection>) returns (started: bool)
      requires Valid()
      modifies this`seenExact, this`validationsStarted, this`perConn, this`running, this`anonymous
      ensures Valid()
      ensures started <==>
                && resolved.None? && r !in old(seenExact) && old(validationsStarted) < maxValidations
                && BelowCap(old(perConn), conn, perConnCap)
      ensures running == if started then old(running) + multiset{r} else old(running)
      ensures validationsStarted == old(validationsStarted) + (if started then 1 else 0)
      ensures resolved.None? && conn.Some? && r !in old(seenExact) && old(anonymous) == 0
              && BelowCap(old(perConn), conn, perConnCap)
              && Capacity(|old(Responding(conn.value))|, perConnCap) <= maxValidations
              ==> started
      ensures conn.Some? ==> anonymous == old(anonymous)
      ensures resolved.Some? ==> unchanged(this)
      ensures resolved.None? ==> seenExact == old(seenExact) + {r}
      ensures perConn == if started then Charged(old(perConn), conn) else old(perConn)
    {
      started := false;
      if resolved.Some? || r in seenExact {
        return;
      }
      seenExact := seenExact + {r};
      var below := BelowCap(perConn, conn, perConnCap);
      if below && conn.Some? {
        BudgetLeft(perConn, perConnCap, conn.value);
      }
      if below && validationsStarted < maxValidations {
        StartValidation(r, conn);
        started := true;
      }
    }

    method StartValidation(r: Response, conn: Option<Connection>)
      requires Valid() && validationsStarted < maxValidations && BelowCap(perConn, conn, perConnCap)
      modifies this`validationsStarted, this`perConn, this`running, this`anonymous
      ensures Valid()
      ensures running == old(running) + multiset{r} && validationsStarted == old(validationsStarted) + 1
      ensures perConn == Charged(old(perConn), conn)
      ensures conn.Some? ==> anonymous == old(anonymous)
    {
      if conn.Some? {
        var n := if conn.value in perConn then perConn[conn.value] else 0;
        SumUpdate(perConn, conn.value, n + 1);
        perConn := perConn[conn.value := n + 1];
      } else {
        anonymous := anonymous + 1;
      }
      validationsStarted := validationsStarted + 1;
      running := running + multiset{r};
    }

    /** A validation finishes; only a success is counted, once per slot, and the threshold resolves. */
    method OnVerdict(r: Response, ok: bool)
      requires Valid() && r in running
      modifies this`running, this`validated, this`resolved, this`passed
      ensures Valid()
      ensures running == old(running) - multiset{r}
      ensures validated == if ok && old(resolved).None? && (forall v | v in old(validated) :: v.slot != r.slot)
                           then old(validated) + [r] else old(validated)
      ensures old(resolved).Some? ==> resolved == old(resolved)
      ensures old(resolved).None? ==>
                resolved == if |validated| >= threshold then Some(validated) else None
    {
      running := running - multiset{r};
      if !ok {
        return;
      }
      passed := passed + {r};
      if resolved.Some? {
        return;
      }
      if exists v :: v in validated && v.slot == r.slot {
        return;
      }
      validated := validated + [r];
      if |validated| >= threshold {
        resolved := Some(validated);
      }
    }

    /** The timeout resolves with whatever was validated; it does nothing once resolved. */
    method OnTimeout()
      requires Valid()
      modifies this`resolved
      ensures Valid()
      ensures resolved == if old(resolved).Some? then old(resolved) else Some(validated)
    {
      if resolved.None? {
        resolved := Some(validated);
      }
    }
  }

  /** Every arrival and validation order: the result is resolved once, distinct, validated and bounded. */
  method AnyOrder(p: PendingCoSign, steps: nat)
    requires p.Valid()
    modifies p
    ensures p.Valid()
    ensures old(p.resolved).Some? ==> p.resolved == old(p.resolved)
    ensures p.resolved.Some? ==>
              && DistinctSlots(p.resolved.value)
              && (forall r | r in p.resolved.value :: r in p.passed)
              && |p.resolved.value| <= if p.threshold < 0 then 0 else p.threshold
  {
    for i := 0 to steps
      invariant p.Valid()
      invariant old(p.resolved).Some? ==> p.resolved == old(p.resolved)
    {
      if {
        case true =>
          var r: Response := *;
          var c: Option<Connection> :| c.None? || c.value >= 0;
          var _ := p.OnResponse(r, c);
        case p.running != multiset{} =>
          var r :| r in p.running;
          var ok: bool := *;
          p.OnVerdict(r, ok);
        case true => p.OnTimeout();
      }
    }
  }
}
