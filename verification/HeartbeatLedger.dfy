/**
 * The authenticated heartbeat ledger of the offline audit.
 *
 * A heartbeat passes the cheap gates, waits in `verifying` for an asynchronous signature check of
 * any length, and is recorded afterwards, when the relevant set and the ledger may have changed.
 * Times are milliseconds; the clock may jump either way.
 */
module HeartbeatLedger {
  import opened Options
  import opened Counting
  import opened Javascript

  type NodeId = string

  type Connection = nat

  const MAX_LIVENESS_LEDGER: nat := 4096
  const MAX_HEARTBEAT_SKEW_MS: real := 5000.0
  const HEARTBEAT_VERIFY_PER_CONN: nat := 5
  const HEARTBEAT_VERIFY_WINDOW_MS: int := 10000
  const HEARTBEAT_VERIFY_GLOBAL_FLOOR: nat := 128
  const HEARTBEAT_VERIFY_PER_RELEVANT: nat := 8

  datatype Entry = Entry(authTs: real, seen: real)

  /** A heartbeat past the gates; `now` is the clock at its receipt. */
  datatype Verifying = Verifying(nodeId: NodeId, authTs: real, now: int)

  datatype Budget = Budget(count: nat, windowStart: int)

  predicate LowerHex(c: char) {
    '0' <= c <= '9' || 'a' <= c <= 'f'
  }

  /** `0x` and 64 lower-case hexadecimal digits. */
  predicate CanonicalId(s: NodeId) {
    |s| == 66 && s[0] == '0' && s[1] == 'x' && forall i | 2 <= i < 66 :: LowerHex(s[i])
  }

  function Min(a: real, b: real): (r: real)
    ensures r <= a && r <= b && (r == a || r == b)
  {
    if a <= b then a else b
  }

  function GlobalCap(relevant: nat): nat {
    HEARTBEAT_VERIFY_GLOBAL_FLOOR + relevant * HEARTBEAT_VERIFY_PER_RELEVANT
  }

  /** Whether the window a budget belongs to is over; 0 means it never began. */
  predicate GlobalWindowOver(b: Budget, now: int) {
    b.windowStart == 0 || now - b.windowStart >= HEARTBEAT_VERIFY_WINDOW_MS
  }

  /** Whether both budgets, each counted in its own window, leave room for one more verification. */
  predicate RoomFor(global: Budget, conns: map<Connection, Budget>, ws: Option<Connection>, now: int, relevant: nat) {
    && (if GlobalWindowOver(global, now) then 0 else global.count) < GlobalCap(relevant)
    && (ws.Some? && ws.value in conns && now - conns[ws.value].windowStart < HEARTBEAT_VERIFY_WINDOW_MS ==>
          conns[ws.value].count < HEARTBEAT_VERIFY_PER_CONN)
  }

  /** What a ledger may hold: audited nodes only, boundedly many, each entry signed and not ahead. */
  ghost predicate LedgerOk(ledger: map<NodeId, Entry>, relevant: set<NodeId>, proved: set<(NodeId, real)>) {
    && ledger.Keys <= relevant
    && |ledger| <= MAX_LIVENESS_LEDGER
    && (forall id | id in ledger ::
          && CanonicalId(id)
          && (id, ledger[id].authTs) in proved
          && ledger[id].authTs - MAX_HEARTBEAT_SKEW_MS <= ledger[id].seen <= ledger[id].authTs)
  }

  ghost predicate VerifyingOk(v: Verifying) {
    && CanonicalId(v.nodeId)
    && 0.0 < v.authTs <= v.now as real + MAX_HEARTBEAT_SKEW_MS
  }

  /** How an entry may change while its node stays relevant. */
  predicate Advanced(before: Entry, after: Entry) {
    after == before || (after.authTs > before.authTs && after.seen > before.seen - MAX_HEARTBEAT_SKEW_MS)
  }

  ghost predicate AllAdvanced(before: map<NodeId, Entry>, after: map<NodeId, Entry>, kept: set<NodeId>) {
    forall id | id in before && id in kept :: id in after && Advanced(before[id], after[id])
  }

  /**
   * Over a whole run an entry that changed carries a later signature, so the seen time, which lags
   * its signature by at most the skew, never moves back by the skew or more.
   */
  lemma AdvancedTransitive(a: map<NodeId, Entry>, b: map<NodeId, Entry>, c: map<NodeId, Entry>, kept: set<NodeId>)
    requires AllAdvanced(a, b, kept) && AllAdvanced(b, c, kept)
    requires forall id | id in a :: a[id].seen <= a[id].authTs
    requires forall id | id in c :: c[id].authTs - MAX_HEARTBEAT_SKEW_MS <= c[id].seen
    ensures AllAdvanced(a, c, kept)
  {
    forall id | id in a && id in kept ensures id in c && Advanced(a[id], c[id]) {
      assert id in b && Advanced(a[id], b[id]) && Advanced(b[id], c[id]);
    }
  }

  /** The ledger after a verified heartbeat: relevant nodes only, newer signatures only, within the capacity. */
  ghost function Noted(ledger: map<NodeId, Entry>, relevant: set<NodeId>, id: NodeId, e: Entry): map<NodeId, Entry> {
    if CanonicalId(id) && id in relevant
       && (if id in ledger then e.authTs > ledger[id].authTs else |ledger| < MAX_LIVENESS_LEDGER)
    then ledger[id := e] else ledger
  }

  /** A heartbeat is worth a check: not future-dated, and a valid signature would change the ledger. */
  ghost predicate Worthwhile(ledger: map<NodeId, Entry>, relevant: set<NodeId>, id: NodeId, authTs: real, now: int) {
    && 0.0 < authTs <= now as real + MAX_HEARTBEAT_SKEW_MS
    && Noted(ledger, relevant, id, Entry(authTs, Min(authTs, now as real))) != ledger
  }

  function Lowered(ids: seq<NodeId>): set<NodeId> {
    set n | n in ids :: Lower(n)
  }

  method Canonicalize(ids: seq<NodeId>) returns (next: set<NodeId>)
    ensures next == Lowered(ids)
  {
    next := {};
    for i := 0 to |ids|
      invariant next == Lowered(ids[..i])
    {
      next := next + {Lower(ids[i])};
      assert ids[..i + 1] == ids[..i] + [ids[i]];
    }
    assert ids[..|ids|] == ids;
  }

  /** Deletes the entries outside `next`, key by key. */
  method Prune(ledger: map<NodeId, Entry>, next: set<NodeId>) returns (kept: map<NodeId, Entry>)
    ensures kept.Keys == ledger.Keys * next
    ensures forall id | id in kept :: kept[id] == ledger[id]
  {
    kept := ledger;
    var keys := ledger.Keys;
    while keys != {}
      invariant keys <= ledger.Keys
      invariant kept.Keys == keys + (ledger.Keys - keys) * next
      invariant forall id | id in kept :: kept[id] == ledger[id]
    {
      var key :| key in keys;
      keys := keys - {key};
      if key !in next {
        kept := kept - {key};
      }
    }
  }

  lemma PruneOk(ledger: map<NodeId, Entry>, kept: map<NodeId, Entry>, relevant: set<NodeId>, next: set<NodeId>,
                proved: set<(NodeId, real)>)
    requires LedgerOk(ledger, relevant, proved)
    requires kept.Keys <= ledger.Keys && kept.Keys <= next
    requires forall id | id in kept :: kept[id] == ledger[id]
    ensures LedgerOk(kept, next, proved)
  {
    SubsetCount(kept.Keys, ledger.Keys);
    forall id | id in kept ensures id in ledger {
      assert id in kept.Keys;
    }
  }

  class GossipLiveness {
    var ledger: map<NodeId, Entry>
    var relevant: set<NodeId>
    var verifying: multiset<Verifying>
    var globalBudget: Budget
    var connBudget: map<Connection, Budget>

    ghost var proved: set<(NodeId, real)>   // signatures that verified
    ghost var peak: nat                     // the largest relevant set of the current window

    ghost predicate Valid()
      reads this
    {
      && LedgerOk(ledger, relevant, proved)
      && (forall v | v in verifying :: VerifyingOk(v))
      && |relevant| <= peak && globalBudget.count <= GlobalCap(peak)
      && (forall c | c in connBudget :: connBudget[c].count <= HEARTBEAT_VERIFY_PER_CONN)
    }

    constructor ()
      ensures Valid() && ledger == map[] && relevant == {} && verifying == multiset{}
    {
      ledger, relevant, verifying := map[], {}, multiset{};
      globalBudget, connBudget := Budget(0, 0), map[];
      proved, peak := {}, 0;
    }

    /** allowHeartbeatVerify: a window admits at most its cap, globally and per connection. */
    method AllowHeartbeatVerify(ws: Option<Connection>, now: int) returns (ok: bool)
      requires Valid()
      modifies this`globalBudget, this`connBudget, this`peak
      ensures Valid()
      ensures ok <==> RoomFor(old(globalBudget), old(connBudget), ws, now, |relevant|)
      ensures ok ==> 1 <= globalBudget.count <= GlobalCap(|relevant|)
      ensures ok && ws.Some? ==> ws.value in connBudget && connBudget[ws.value].count >= 1
      ensures forall c | c in old(connBudget) && Some(c) != ws :: c in connBudget && connBudget[c] == old(connBudget)[c]
      ensures var reset := GlobalWindowOver(old(globalBudget), now);
              globalBudget == Budget((if reset then 0 else old(globalBudget).count) + (if ok then 1 else 0),
                                     if reset then now else old(globalBudget).windowStart)
    {
      if GlobalWindowOver(globalBudget, now) {
        globalBudget := Budget(0, now);
        peak := |relevant|;
      }
      if globalBudget.count >= GlobalCap(|relevant|) {
        return false;
      }
      if ws.Some? {
        var c := ws.value;
        if c !in connBudget || now - connBudget[c].windowStart >= HEARTBEAT_VERIFY_WINDOW_MS {
          connBudget := connBudget[c := Budget(1, now)];
        } else if connBudget[c].count >= HEARTBEAT_VERIFY_PER_CONN {
          return false;
        } else {
          connBudget := connBudget[c := connBudget[c].(count := connBudget[c].count + 1)];
        }
      }
      globalBudget := globalBudget.(count := globalBudget.count + 1);
      return true;
    }

    /** The gates that need no state: shape, canonical identity, future-dating. */
    predicate Admissible(nodeId: NodeId, authTs: Option<real>, now: int)
      reads this`ledger, this`relevant
    {
      && authTs.Some? && authTs.value > 0.0
      && CanonicalId(nodeId) && nodeId in relevant
      && authTs.value <= now as real + MAX_HEARTBEAT_SKEW_MS
      && (if nodeId in ledger then authTs.value > ledger[nodeId].authTs else |ledger| < MAX_LIVENESS_LEDGER)
    }

    /** handleHeartbeatMessage up to the signature check; a missing or malformed authTs is None. */
    method HandleHeartbeat(from: string, authTs: Option<real>, ws: Option<Connection>, now: int)
      returns (started: bool)
      requires Valid()
      modifies this`verifying, this`globalBudget, this`connBudget, this`peak
      ensures Valid()
      ensures started <==> authTs.Some? && Worthwhile(ledger, relevant, Lower(from), authTs.value, now)
                           && RoomFor(old(globalBudget), old(connBudget), ws, now, |relevant|)
      ensures started ==> verifying == old(verifying) + multiset{Verifying(Lower(from), authTs.value, now)}
      ensures !started ==> verifying == old(verifying)
      ensures authTs.None? || !Worthwhile(ledger, relevant, Lower(from), authTs.value, now) ==> unchanged(this)
    {
      var nodeId := Lower(from);
      assert Admissible(nodeId, authTs, now) ==>
               var e := Entry(authTs.value, Min(authTs.value, now as real));
               Noted(ledger, relevant, nodeId, e)[nodeId] == e;
      if !Admissible(nodeId, authTs, now) {
        return false;
      }
      started := AllowHeartbeatVerify(ws, now);
      if started {
        verifying := verifying + multiset{Verifying(nodeId, authTs.value, now)};
      }
    }

    /** The signature check ends; only a valid signature reaches the ledger. */
    method OnVerified(v: Verifying, ok: bool)
      requires Valid() && v in verifying
      modifies this`verifying, this`ledger, this`proved
      ensures Valid() && verifying == old(verifying) - multiset{v}
      ensures AllAdvanced(old(ledger), ledger, relevant)
      ensures ledger == if ok then Noted(old(ledger), relevant, v.nodeId, Entry(v.authTs, Min(v.authTs, v.now as real)))
                        else old(ledger)
      ensures ok && v.nodeId in relevant && (v.nodeId in old(ledger) || |old(ledger)| < MAX_LIVENESS_LEDGER) ==>
                v.nodeId in ledger && ledger[v.nodeId].authTs >= v.authTs
    {
      assert VerifyingOk(v);
      verifying := verifying - multiset{v};
      if ok {
        proved := proved + {(v.nodeId, v.authTs)};
        RecordLiveness(v.nodeId, v.authTs, Min(v.authTs, v.now as real));
      }
    }

    /** recordLiveness re-checks relevance, order and capacity. */
    method RecordLiveness(nodeId: NodeId, authTs: real, seen: real)
      requires Valid() && (nodeId, authTs) in proved
      requires authTs - MAX_HEARTBEAT_SKEW_MS <= seen <= authTs
      modifies this`ledger
      ensures Valid()
      ensures ledger == Noted(old(ledger), relevant, nodeId, Entry(authTs, seen))
    {
      if !CanonicalId(nodeId) || nodeId !in relevant {
        return;
      }
      if nodeId in ledger {
        if authTs > ledger[nodeId].authTs {
          UpdateSize(ledger, nodeId, Entry(authTs, seen));
          ledger := ledger[nodeId := Entry(authTs, seen)];
        }
        return;
      }
      if |ledger| >= MAX_LIVENESS_LEDGER {
        return;
      }
      UpdateSize(ledger, nodeId, Entry(authTs, seen));
      ledger := ledger[nodeId := Entry(authTs, seen)];
    }

    /** setRelevantNodeIds replaces the audited set and prunes the ledger to it. */
    method SetRelevantNodeIds(ids: seq<NodeId>)
      requires Valid()
      modifies this`relevant, this`ledger, this`peak
      ensures Valid()
      ensures relevant == Lowered(ids)
      ensures ledger.Keys == old(ledger).Keys * relevant
      ensures forall id | id in ledger :: ledger[id] == old(ledger)[id]
    {
      var next := Canonicalize(ids);
      var kept := Prune(ledger, next);
      PruneOk(ledger, kept, relevant, next, proved);
      Replace(next, kept);
    }

    method Replace(next: set<NodeId>, kept: map<NodeId, Entry>)
      requires Valid() && LedgerOk(kept, next, proved)
      modifies this`relevant, this`ledger, this`peak
      ensures Valid() && relevant == next && ledger == kept
    {
      relevant, ledger := next, kept;
      if |next| > peak {
        peak := |next|;
      }
    }

    /** getLastSeen. */
    method GetLastSeen(nodeId: NodeId) returns (seen: Option<real>)
      requires Valid()
      ensures seen == if Lower(nodeId) in ledger then Some(ledger[Lower(nodeId)].seen) else None
      ensures seen.Some? ==> exists authTs ::
                (Lower(nodeId), authTs) in proved && authTs - MAX_HEARTBEAT_SKEW_MS <= seen.value <= authTs
    {
      var id := Lower(nodeId);
      seen := if id in ledger then Some(ledger[id].seen) else None;
      assert id in ledger ==> (id, ledger[id].authTs) in proved;
    }
  }

  lemma UpdateSize(m: map<NodeId, Entry>, k: NodeId, e: Entry)
    ensures |m[k := e]| == |m| + if k in m then 0 else 1
  {
    assert m[k := e].Keys == m.Keys + {k};
  }

  /** Every run: nodes that stay relevant stay in the ledger and only advance. */
  method AnyRun(g: GossipLiveness, steps: nat, kept: set<NodeId>)
    requires g.Valid() && kept <= g.relevant
    modifies g
    ensures g.Valid() && kept <= g.relevant
    ensures AllAdvanced(old(g.ledger), g.ledger, kept)
  {
    for n := 0 to steps
      invariant g.Valid() && kept <= g.relevant
      invariant AllAdvanced(old(g.ledger), g.ledger, kept)
    {
      ghost var before := g.ledger;
      if {
        case true =>
          var from: string, now: int := *, *;
          var authTs: Option<real> := *;
          var ws: Option<Connection> :| ws.None? || ws.value >= 0;
          var _ := g.HandleHeartbeat(from, authTs, ws, now);
        case g.verifying != multiset{} =>
          var v :| v in g.verifying;
          var ok: bool := *;
          g.OnVerified(v, ok);
        case true =>
          var ids: seq<NodeId> := *;
          if kept <= Lowered(ids) {
            g.SetRelevantNodeIds(ids);
          }
      }
      AdvancedTransitive(old(g.ledger), before, g.ledger, kept);
    }
  }
}
