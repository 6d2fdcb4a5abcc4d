/**
 * Flooding of one gossip message: how often it is forwarded in a network of any size and topology.
 *
 * Copies travel for any time, arrive in any order and may be lost; connections open and close, and a
 * node may forget a message when it cleans its history.
 */
module GossipFlood {
  import opened Bytes
  import opened Counting

  type Node = nat

  type Endpoint = string

  type Socket = nat

  /** A copy of the message on its way: its receiver, the receiver's socket for it, its hop budget. */
  datatype Copy = Copy(to: Node, socket: Socket, ttl: int)

  /** A node's connection: its own socket, who is at the other end, and whether it is open. */
  datatype Connection = Connection(socket: Socket, peer: Node, open: bool)

  // ---- The bound -------------------------------------------------------------------------------

  /** f + f^2 + ... + f^t. */
  function GeometricSum(f: nat, t: nat): nat {
    if t == 0 then 0 else GeometricSum(f, t - 1) + Pow(f, t)
  }

  /** One hop: f copies, each of which may cause as much as one with a budget less by one. */
  lemma {:induction false} OneHop(f: nat, t: nat)
    requires t >= 1
    ensures GeometricSum(f, t) == f * (1 + GeometricSum(f, t - 1))
  {
    assert Pow(f, t) == f * Pow(f, t - 1);
    if t > 1 {
      OneHop(f, t - 1);
      assert f * (1 + GeometricSum(f, t - 2)) + f * Pow(f, t - 1)
          == f * (1 + (GeometricSum(f, t - 2) + Pow(f, t - 1)));
    }
  }

  /** The forwards a copy may still cause. */
  function Cost(f: nat, ttl: int): nat {
    if ttl <= 0 then 0 else GeometricSum(f, ttl)
  }

  function Weight(f: nat, copies: seq<Copy>): nat {
    if copies == [] then 0 else Weight(f, copies[..|copies| - 1]) + Cost(f, copies[|copies| - 1].ttl)
  }

  lemma WeightAppend(f: nat, copies: seq<Copy>, c: Copy)
    ensures Weight(f, copies + [c]) == Weight(f, copies) + Cost(f, c.ttl)
  {
    assert (copies + [c])[..|copies|] == copies;
  }

  lemma {:induction false} WeightRemove(f: nat, copies: seq<Copy>, i: nat)
    requires i < |copies|
    ensures Weight(f, copies) == Weight(f, copies[..i] + copies[i + 1..]) + Cost(f, copies[i].ttl)
  {
    var n := |copies| - 1;
    if i == n {
      assert copies[..i] + copies[i + 1..] == copies[..n];
    } else {
      WeightRemove(f, copies[..n], i);
      assert copies[..i] + copies[i + 1..] == (copies[..n][..i] + copies[..n][i + 1..]) + [copies[n]];
      WeightAppend(f, copies[..n][..i] + copies[..n][i + 1..], copies[n]);
    }
  }

  // ---- Choosing peers ----------------------------------------------------------------------------

  /** How many of n peers `slice(0, Math.min(fanout, n))` keeps. */
  function Chosen(fanout: int, n: nat): (k: nat)
    ensures k <= n
    ensures fanout >= 0 ==> k <= fanout && (k == n || k == fanout)
    ensures fanout < 0 ==> k == 0 || n - k == -fanout
    ensures fanout < 0 && n >= -fanout ==> n - k == -fanout
  {
    if fanout >= n then n
    else if fanout >= 0 then fanout
    else if n + fanout >= 0 then n + fanout else 0
  }

  ghost predicate Bounds(fanout: int, w: nat) {
    forall n: nat :: Chosen(fanout, n) <= w
  }

  /** The copies a delivery makes are bounded over all networks exactly when the fanout is not negative. */
  lemma FanoutBounds(fanout: int)
    ensures (exists w: nat :: Bounds(fanout, w)) <==> fanout >= 0
  {
    if fanout >= 0 {
      assert Bounds(fanout, fanout);
    } else {
      forall w: nat ensures !Bounds(fanout, w) {
        assert Chosen(fanout, w - fanout + 1) == w + 1;
      }
    }
  }

  /** The most a delivery forwards where no node has more than `degree` connections. */
  function Width(fanout: int, degree: nat): nat {
    if fanout >= 0 then fanout else Chosen(fanout, degree)
  }

  /** The degree matters only for a negative fanout. */
  predicate DegreesOk(connections: map<Node, map<Endpoint, Connection>>, fanout: int, degree: nat) {
    fanout < 0 ==> forall n | n in connections :: |connections[n]| <= degree
  }

  lemma NegativeFanoutFloods(n: nat)
    requires n >= 1
    ensures Chosen(-1, n) == n - 1
  {
  }

  /** selectRandomPeers: any choice of the right size, without repetition. */
  method SelectRandomPeers(peers: set<Endpoint>, fanout: int) returns (picks: seq<Endpoint>)
    ensures |picks| == Chosen(fanout, |peers|)
    ensures forall e | e in picks :: e in peers
    ensures forall i, j | 0 <= i < j < |picks| :: picks[i] != picks[j]
  {
    picks := [];
    var left := peers;
    while |picks| < Chosen(fanout, |peers|)
      invariant left <= peers && |left| == |peers| - |picks|
      invariant |picks| <= Chosen(fanout, |peers|)
      invariant forall e | e in picks :: e in peers && e !in left
      invariant forall i, j | 0 <= i < j < |picks| :: picks[i] != picks[j]
    {
      var e :| e in left;
      picks, left := picks + [e], left - {e};
    }
  }

  function Elements(picks: seq<Endpoint>): set<Endpoint> {
    set e | e in picks
  }

  /** The sends of propagateMessage: one copy to each chosen peer, which is remembered. */
  method SendAll(connections: map<Endpoint, Connection>, picks: seq<Endpoint>, ttl: int, before: set<Endpoint>)
    returns (copies: seq<Copy>, propagatedTo: set<Endpoint>)
    requires forall e | e in picks :: e in connections
    ensures |copies| == |picks| && propagatedTo == before + Elements(picks)
    ensures forall k | 0 <= k < |copies| :: copies[k].ttl == ttl && copies[k].to == connections[picks[k]].peer
  {
    copies, propagatedTo := [], before;
    for j := 0 to |picks|
      invariant |copies| == j && propagatedTo == before + Elements(picks[..j])
      invariant forall k | 0 <= k < j :: copies[k].ttl == ttl && copies[k].to == connections[picks[k]].peer
    {
      var socket :| socket >= 0;
      copies := copies + [Copy(connections[picks[j]].peer, socket, ttl)];
      propagatedTo := propagatedTo + {picks[j]};
      assert picks[..j + 1] == picks[..j] + [picks[j]];
    }
    assert picks[..|picks|] == picks;
  }

  /** An open peer that is not the sender and was not served before, and now counts as served. */
  predicate Served(e: Endpoint, links: map<Endpoint, Connection>, sender: Socket, before: set<Endpoint>, after: set<Endpoint>) {
    e in links && links[e].open && links[e].socket != sender && e !in before && e in after
  }

  /** Every copy goes to such a peer with the lowered hop budget. */
  ghost predicate AllForwarded(copies: seq<Copy>, links: map<Endpoint, Connection>, sender: Socket, ttl: int,
                               before: set<Endpoint>, after: set<Endpoint>)
  {
    forall c | c in copies ::
      c.ttl == ttl && exists e :: Served(e, links, sender, before, after) && links[e].peer == c.to
  }

  /** Choosing among the available peers and sending to them. */
  method Forward(links: map<Endpoint, Connection>, available: set<Endpoint>, sender: Socket, fanout: int, ttl: int,
                 before: set<Endpoint>) returns (copies: seq<Copy>, propagatedTo: set<Endpoint>)
    requires forall e | e in available :: e in links && links[e].open && links[e].socket != sender && e !in before
    ensures |copies| == Chosen(fanout, |available|)
    ensures forall k | 0 <= k < |copies| :: copies[k].ttl == ttl
    ensures AllForwarded(copies, links, sender, ttl, before, propagatedTo)
  {
    var picks := SelectRandomPeers(available, fanout);
    copies, propagatedTo := SendAll(links, picks, ttl, before);
    forall k | 0 <= k < |copies|
      ensures exists e :: Served(e, links, sender, before, propagatedTo) && links[e].peer == copies[k].to
    {
      assert Served(picks[k], links, sender, before, propagatedTo);
    }
  }

  lemma Times(n: nat, c: nat)
    ensures (n + 1) * c == n * c + c
  {
  }

  /** Copies with one hop budget weigh the same. */
  lemma {:induction false} WeightUniform(f: nat, copies: seq<Copy>, more: seq<Copy>, ttl: int)
    requires forall k | 0 <= k < |more| :: more[k].ttl == ttl
    ensures Weight(f, copies + more) == Weight(f, copies) + |more| * Cost(f, ttl)
  {
    if more == [] {
      assert copies + more == copies;
    } else {
      var n := |more| - 1;
      WeightUniform(f, copies, more[..n], ttl);
      assert copies + more == (copies + more[..n]) + [more[n]];
      WeightAppend(f, copies + more[..n], more[n]);
      Times(n, Cost(f, ttl));
    }
  }

  /** Forwarding spends no more than the delivered copy was worth. */
  lemma HopPays(f: nat, ttl: int, sent: nat)
    requires ttl > 0 && sent <= f
    ensures sent + sent * Cost(f, ttl - 1) <= Cost(f, ttl)
  {
    OneHop(f, ttl);
    var c := Cost(f, ttl - 1);
    assert GeometricSum(f, ttl) == f * (1 + c);
    assert sent + sent * c == sent * (1 + c) <= f * (1 + c);
  }

  class Mesh {
    const fanout: int
    const degree: nat
    ghost const width: nat

    var connections: map<Node, map<Endpoint, Connection>>
    var history: map<Node, set<Endpoint>>   // propagatedTo, at the nodes that remember the message
    var inFlight: seq<Copy>
    var forwards: nat
    var deliveries: nat

    ghost const budget: nat
    ghost const initial: nat
    ghost var lost: nat
    ghost var forgot: bool

    ghost predicate Valid()
      reads this
    {
      && width == Width(fanout, degree) && DegreesOk(connections, fanout, degree)
      && forwards + Weight(width, inFlight) <= budget
      && deliveries + lost + |inFlight| == initial + forwards
      && (!forgot ==> forwards <= Capacity(|history|, width))
    }

    /** The first copies, as a broadcast or a gossip round sends them. */
    constructor (fanout: int, degree: nat, connections: map<Node, map<Endpoint, Connection>>, copies: seq<Copy>)
      requires DegreesOk(connections, fanout, degree)
      ensures Valid() && this.fanout == fanout && this.degree == degree && inFlight == copies && forwards == 0
      ensures budget == Weight(Width(fanout, degree), copies) && initial == |copies|
      ensures !forgot && deliveries == 0
    {
      this.fanout, this.connections, inFlight := fanout, connections, copies;
      this.degree, width := degree, Width(fanout, degree);
      history, forwards, deliveries := map[], 0, 0;
      budget, initial, lost, forgot := Weight(Width(fanout, degree), copies), |copies|, 0, false;
    }

    /** Peers a node may forward to: open, not the sender's socket, not forwarded to before. */
    function Available(node: Node, sender: Socket): set<Endpoint>
      reads this
    {
      if node !in connections then {}
      else
        set e | e in connections[node] && connections[node][e].open && connections[node][e].socket != sender
                && (node in history ==> e !in history[node])
    }

    ghost function Links(node: Node): map<Endpoint, Connection>
      reads this
    {
      if node in connections then connections[node] else map[]
    }

    lemma AvailableBound(node: Node, sender: Socket)
      requires width == Width(fanout, degree) && DegreesOk(connections, fanout, degree)
      ensures Chosen(fanout, |Available(node, sender)|) <= width
    {
      if node in connections {
        SubsetCount(Available(node, sender), connections[node].Keys);
      }
    }

    /** A copy leaves the network, delivered or lost. */
    method Take(i: nat) returns (c: Copy)
      requires i < |inFlight|
      modifies this`inFlight
      ensures c == old(inFlight)[i] && |inFlight| == |old(inFlight)| - 1
      ensures old(Weight(width, inFlight)) == Weight(width, inFlight) + Cost(width, c.ttl)
    {
      c := inFlight[i];
      WeightRemove(width, inFlight, i);
      inFlight := inFlight[..i] + inFlight[i + 1..];
    }

    /** propagateMessage at a node that remembers the message. */
    method Propagate(node: Node, sender: Socket, ttl: int) returns (sent: nat)
      requires node in history && ttl > 0
      requires width == Width(fanout, degree) && DegreesOk(connections, fanout, degree)
      modifies this`inFlight, this`history, this`forwards
      ensures sent == Chosen(fanout, |old(Available(node, sender))|) <= width
      ensures forwards + Weight(width, inFlight) <= old(forwards + Weight(width, inFlight)) + Cost(width, ttl)
      ensures forwards == old(forwards) + sent && |inFlight| == |old(inFlight)| + sent
      ensures history.Keys == old(history).Keys && |history| == |old(history)|
      ensures exists copies :: inFlight == old(inFlight) + copies
                && AllForwarded(copies, Links(node), sender, ttl - 1, old(history)[node], history[node])
    {
      AvailableBound(node, sender);
      var links := if node in connections then connections[node] else map[];
      var copies, propagatedTo := Forward(links, Available(node, sender), sender, fanout, ttl - 1, history[node]);
      WeightUniform(width, inFlight, copies, ttl - 1);
      HopPays(width, ttl, |copies|);
      inFlight := inFlight + copies;
      assert history[node := propagatedTo].Keys == history.Keys;
      history := history[node := propagatedTo];
      forwards := forwards + |copies|;
      sent := |copies|;
    }

    /**
     * handleGossipMessage at the receiver.  A known message is dropped; a new one is remembered, unless
     * the clean-up that follows removes it again, and forwarded while its budget lasts.
     */
    method Deliver(i: nat, cleaned: bool) returns (sent: nat)
      requires Valid() && i < |inFlight|
      modifies this`inFlight, this`history, this`forwards, this`deliveries
      ensures Valid()
      ensures deliveries == old(deliveries) + 1 && forwards == old(forwards) + sent
      ensures sent > 0 ==> old(inFlight)[i].ttl > 0 && old(inFlight)[i].to !in old(history) && !cleaned
      ensures sent <= width
      ensures old(inFlight)[i].ttl > 0 && old(inFlight)[i].to !in old(history) && !cleaned ==>
                sent == Chosen(fanout, |old(Available(inFlight[i].to, inFlight[i].socket))|)
      ensures old(inFlight)[i].to !in old(history) && !cleaned ==> old(inFlight)[i].to in history
    {
      ghost var candidates := Available(inFlight[i].to, inFlight[i].socket);
      var c := Take(i);
      deliveries := deliveries + 1;
      sent := 0;
      if c.to !in history && !cleaned {
        sent := Accept(c);
        assert old(Available(inFlight[i].to, inFlight[i].socket)) == candidates;
      }
    }

    /** A new message is remembered and forwarded while its budget lasts. */
    method Accept(c: Copy) returns (sent: nat)
      requires c.to !in history
      requires width == Width(fanout, degree) && DegreesOk(connections, fanout, degree)
      modifies this`inFlight, this`history, this`forwards
      ensures forwards + Weight(width, inFlight) <= old(forwards + Weight(width, inFlight)) + Cost(width, c.ttl)
      ensures forwards == old(forwards) + sent && |inFlight| == |old(inFlight)| + sent
      ensures |history| == |old(history)| + 1 && c.to in history
      ensures sent == if c.ttl > 0 then Chosen(fanout, |old(Available(c.to, c.socket))|) else 0
      ensures sent <= width
    {
      ghost var candidates := Available(c.to, c.socket);
      NewKey(history, c.to);
      history := history[c.to := {}];
      assert Available(c.to, c.socket) == candidates;
      sent := 0;
      if c.ttl > 0 {
        sent := Propagate(c.to, c.socket, c.ttl);
      }
    }

    method Lose(i: nat)
      requires Valid() && i < |inFlight|
      modifies this`inFlight, this`lost
      ensures Valid()
    {
      var _ := Take(i);
      lost := lost + 1;
    }

    /** cleanupMessageHistory at some node. */
    method Forget(node: Node)
      requires Valid()
      modifies this`history, this`forgot
      ensures Valid() && history == old(history) - {node}
      ensures forgot == (old(forgot) || node in old(history))
    {
      forgot := forgot || node in history;
      assert node !in history ==> history - {node} == history;
      history := history - {node};
    }

    /** Peers connect, disconnect and reconnect. */
    method Reconnect(connections: map<Node, map<Endpoint, Connection>>)
      requires Valid() && DegreesOk(connections, fanout, degree)
      modifies this`connections
      ensures Valid() && this.connections == connections
    {
      this.connections := connections;
    }
  }

  lemma NewKey(m: map<Node, set<Endpoint>>, n: Node)
    requires n !in m
    ensures |m[n := {}]| == |m| + 1
  {
    assert m[n := {}].Keys == m.Keys + {n};
  }

  /**
   * One copy with hop budget t: at most f + f^2 + ... + f^t forwards and one delivery more, over any
   * run; and f per node while no node forgets the message.  Here f is the fanout; a negative one leaves
   * only the bound by the number of connections per node, less the fanout's amount.
   */
  method OneCopy(fanout: int, degree: nat, connections: map<Node, map<Endpoint, Connection>>, c: Copy, steps: nat)
    returns (m: Mesh)
    requires DegreesOk(connections, fanout, degree)
    ensures m.deliveries <= 1 + m.forwards
    ensures c.ttl > 0 ==> m.forwards <= GeometricSum(Width(fanout, degree), c.ttl)
    ensures c.ttl <= 0 ==> m.forwards == 0
    ensures !m.forgot ==> m.forwards <= |m.history| * Width(fanout, degree)
  {
    m := new Mesh(fanout, degree, connections, [c]);
    ghost var f := Width(fanout, degree);
    assert Weight(f, [c]) == Cost(f, c.ttl) by {
      WeightAppend(f, [], c);
      assert [] + [c] == [c];
    }
    for n := 0 to steps
      invariant m.Valid() && m.fanout == fanout && m.degree == degree
      invariant m.budget == Cost(f, c.ttl) && m.initial == 1
      invariant fresh(m)
    {
      var i :| i >= 0;
      if {
        case i < |m.inFlight| =>
          var cleaned: bool := *;
          var _ := m.Deliver(i, cleaned);
        case i < |m.inFlight| => m.Lose(i);
        case true => m.Forget(i);
        case true =>
          var conns := AnyConnections(fanout, degree);
          m.Reconnect(conns);
      }
    }
    CapacityIsProduct(|m.history|, f);
  }

  /** Any topology within the degree. */
  method AnyConnections(fanout: int, degree: nat) returns (conns: map<Node, map<Endpoint, Connection>>)
    ensures DegreesOk(conns, fanout, degree)
  {
    conns := *;
    if !DegreesOk(conns, fanout, degree) {
      conns := map[];
    }
  }
}
