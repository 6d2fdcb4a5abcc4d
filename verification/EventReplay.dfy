/**
 * State rebuilt from events: role members (deriveRoleMembersFromEvents, with its chunked, adaptively
 * halved scan) and the pending-slash flag (isSlashPendingFromEvents).
 *
 * An event is identified by its block and log index.  getLogs over a range either fails or returns
 * exactly the events of that range, in any order; which calls fail is arbitrary.
 */
module EventReplay {
  import opened Options
  import opened Sorting
  import opened Counting

  /** RoleRegistered and RoleGranted add a user, RoleExited and RoleRevoked remove it. */
  datatype Event = Event(block: nat, index: nat, user: nat, add: bool)

  const MAX_ROLE_EVENTS: nat := 100000

  /** (block, logIndex) order. */
  predicate EventLe(a: Event, b: Event) {
    a.block < b.block || (a.block == b.block && a.index <= b.index)
  }

  ghost predicate Positions(events: seq<Event>) {
    forall a, b | a in events && b in events && a.block == b.block && a.index == b.index :: a == b
  }

  predicate InRange(e: Event, lo: int, hi: int) {
    lo <= e.block <= hi
  }

  /** The specification: the user's last event in [lo, hi] is an add. */
  ghost predicate IsMember(chain: seq<Event>, lo: int, hi: int, user: nat) {
    exists e :: e in chain && InRange(e, lo, hi) && e.user == user && e.add
      && forall f | f in chain && InRange(f, lo, hi) && f.user == user :: EventLe(f, e)
  }

  // ---- Replay --------------------------------------------------------------------------------

  function Replay(s: seq<Event>): set<nat> {
    if s == [] then {} else
      var e := s[|s| - 1];
      if e.add then Replay(s[..|s| - 1]) + {e.user} else Replay(s[..|s| - 1]) - {e.user}
  }

  /** Replaying a sorted log leaves exactly the users whose last event is an add. */
  lemma {:induction false} ReplayIsLastEvent(s: seq<Event>, user: nat)
    requires SortedBy(EventLe, s) && Positions(s)
    ensures user in Replay(s) <==>
              exists e :: e in s && e.user == user && e.add && forall f | f in s && f.user == user :: EventLe(f, e)
  {
    if s != [] {
      var init, last := s[..|s| - 1], s[|s| - 1];
      assert s == init + [last];
      assert forall e :: e in s <==> e in init || e == last;
      assert forall e | e in init :: EventLe(e, last);
      ReplayIsLastEvent(init, user);
      if last.user == user && !last.add {
        forall e | e in s && e.user == user && e.add ensures !EventLe(last, e) {
          assert EventLe(e, last);
        }
      }
    }
  }

  /** Whatever order the events were gathered in, replaying them sorted gives the members. */
  lemma ReplayIsMembership(chain: seq<Event>, lo: int, hi: int, gathered: seq<Event>, user: nat)
    requires Positions(chain)
    requires forall e :: e in gathered <==> e in chain && InRange(e, lo, hi)
    ensures user in Replay(Sort(EventLe, gathered)) <==> IsMember(chain, lo, hi, user)
  {
    SortOk(EventLe, gathered);
    ReplayIsLastEvent(Sort(EventLe, gathered), user);
  }

  // ---- The scan ------------------------------------------------------------------------------

  /** Why a derivation gave up. */
  datatype ScanResult = Gathered(events: seq<Event>) | Unscannable(block: nat) | TooMany

  ghost predicate NoRepeats(s: seq<Event>) {
    forall i, j | 0 <= i < j < |s| :: s[i] != s[j]
  }

  /** Which ranges getLogs fails on; every range is asked for once, so any pattern of failures is one. */
  type Faults = (nat, nat) -> bool

  /** provider.getLogs. */
  method GetLogs(chain: seq<Event>, fails: Faults, lo: nat, hi: nat) returns (logs: Option<seq<Event>>)
    requires NoRepeats(chain)
    ensures logs.None? <==> fails(lo, hi)
    ensures logs.Some? ==> NoRepeats(logs.value) && forall e :: e in logs.value <==> e in chain && InRange(e, lo, hi)
  {
    if fails(lo, hi) {
      return None;
    }
    var out: seq<Event> := [];
    for i := 0 to |chain|
      invariant forall e :: e in out <==> e in chain[..i] && InRange(e, lo, hi)
      invariant NoRepeats(out)
    {
      assert chain[..i + 1] == chain[..i] + [chain[i]];
      if InRange(chain[i], lo, hi) {
        assert chain[i] !in out by {
          assert chain[i] !in chain[..i];
        }
        out := out + [chain[i]];
      }
    }
    assert chain[..|chain|] == chain;
    logs := Some(out);
  }

  /** `acc` holds exactly the events of [lo, hi), each once. */
  ghost predicate Scanned(chain: seq<Event>, lo: int, hi: int, acc: seq<Event>) {
    NoRepeats(acc) && forall e :: e in acc <==> e in chain && lo <= e.block < hi
  }

  /**
   * scanRange: append the events of [lo, hi]; a failing range is halved down to a single block, and
   * only a failing single block gives up.
   */
  method ScanRange(chain: seq<Event>, fails: Faults, ghost start: int, lo: nat, hi: nat, acc: seq<Event>)
    returns (r: ScanResult)
    requires NoRepeats(chain) && start <= lo <= hi
    requires Scanned(chain, start, lo, acc) && |acc| <= MAX_ROLE_EVENTS
    ensures r.Gathered? ==> Scanned(chain, start, hi + 1, r.events) && |r.events| <= MAX_ROLE_EVENTS
    ensures r.Unscannable? ==> lo <= r.block <= hi && fails(r.block, r.block)
    ensures r.TooMany? ==> |set e | e in chain && start <= e.block <= hi| > MAX_ROLE_EVENTS
    decreases hi - lo
  {
    var logs := GetLogs(chain, fails, lo, hi);
    if logs.None? {
      if hi > lo {
        var mid := (lo + hi) / 2;
        r := ScanRange(chain, fails, start, lo, mid, acc);
        if r.Gathered? {
          r := ScanRange(chain, fails, start, mid + 1, hi, r.events);
        } else if r.TooMany? {
          Widen(chain, start, mid, hi);
        }
        return;
      }
      return Unscannable(lo);
    }
    var events := acc;
    for i := 0 to |logs.value|
      invariant NoRepeats(events) && |events| <= MAX_ROLE_EVENTS
      invariant forall e :: e in events <==> e in acc || e in logs.value[..i]
    {
      var log := logs.value[i];
      assert log in logs.value && log !in logs.value[..i];
      if |events| >= MAX_ROLE_EVENTS {
        assert forall e | e in events :: e in acc || e in logs.value;
        OneMore(chain, start, hi, events, log);
        return TooMany;
      }
      assert logs.value[..i + 1] == logs.value[..i] + [log];
      events := events + [log];
    }
    assert logs.value[..|logs.value|] == logs.value;
    r := Gathered(events);
  }

  lemma Widen(chain: seq<Event>, start: int, mid: int, hi: int)
    requires mid <= hi
    ensures |set e | e in chain && start <= e.block <= mid| <= |set e | e in chain && start <= e.block <= hi|
  {
    SubsetCount(set e | e in chain && start <= e.block <= mid, set e | e in chain && start <= e.block <= hi);
  }

  lemma {:induction false} ElementCount(s: seq<Event>)
    requires NoRepeats(s)
    ensures |set e | e in s| == |s|
  {
    if s != [] {
      var init, last := s[..|s| - 1], s[|s| - 1];
      ElementCount(init);
      assert s == init + [last] && last !in init;
      assert (set e | e in s) == (set e | e in init) + {last};
    }
  }

  lemma OneMore(chain: seq<Event>, start: int, hi: int, events: seq<Event>, log: Event)
    requires NoRepeats(events) && log !in events && |events| >= MAX_ROLE_EVENTS
    requires log in chain && start <= log.block <= hi
    requires forall e | e in events :: e in chain && start <= e.block <= hi
    ensures |set e | e in chain && start <= e.block <= hi| > MAX_ROLE_EVENTS
  {
    ElementCount(events);
    var seen := set e | e in events;
    SubsetCount(seen + {log}, set e | e in chain && start <= e.block <= hi);
  }

  /** Members, or the error that keeps the caller's previous set. */
  datatype Derived = Members(users: set<nat>) | Failed(why: ScanResult)

  /**
   * deriveRoleMembersFromEvents: for every chunk size and every pattern of getLogs failures, a
   * derivation that does not throw is exactly the plain replay of [max(0, fromBlock), toBlock]; and it
   * throws only at a single block that cannot be read, or on too many events.
   */
  method DeriveRoleMembers(chain: seq<Event>, fails: Faults, fromBlock: int, toBlock: int, chunkSize: int)
    returns (r: Derived)
    requires NoRepeats(chain) && Positions(chain)
    ensures r.Members? ==> forall u :: u in r.users <==> IsMember(chain, fromBlock, toBlock, u)
    ensures r.Members? ==> |set e | e in chain && fromBlock <= e.block <= toBlock| <= MAX_ROLE_EVENTS
    ensures r.Failed? ==> !r.why.Gathered?
    ensures r.Failed? && r.why.Unscannable? ==>
              fromBlock <= r.why.block <= toBlock && fails(r.why.block, r.why.block)
    ensures r.Failed? && r.why.TooMany? ==> |set e | e in chain && fromBlock <= e.block <= toBlock| > MAX_ROLE_EVENTS
    ensures r.Members? || |set e | e in chain && fromBlock <= e.block <= toBlock| > MAX_ROLE_EVENTS
            || exists b: nat :: fromBlock <= b <= toBlock && fails(b, b)
  {
    var step := if chunkSize < 1 then 1 else chunkSize;
    var start: nat := if fromBlock < 0 then 0 else fromBlock;
    var next := start;
    var events: seq<Event> := [];
    while next <= toBlock
      invariant start <= next && |events| <= MAX_ROLE_EVENTS
      invariant Scanned(chain, start, next, events) || next > toBlock
      invariant next > toBlock ==> Scanned(chain, start, if start <= toBlock then toBlock + 1 else start, events)
      decreases toBlock - next
    {
      var hi := if next + step - 1 < toBlock then next + step - 1 else toBlock;
      var scan := ScanRange(chain, fails, start, next, hi, events);
      if !scan.Gathered? {
        if scan.TooMany? {
          SubsetCount(set e | e in chain && start <= e.block <= hi, set e | e in chain && fromBlock <= e.block <= toBlock);
        }
        return Failed(scan);
      }
      events := scan.events;
      next := next + step;
    }
    forall u ensures u in Replay(Sort(EventLe, events)) <==> IsMember(chain, fromBlock, toBlock, u) {
      assert forall e :: e in events <==> e in chain && InRange(e, fromBlock, toBlock);
      ReplayIsMembership(chain, fromBlock, toBlock, events, u);
    }
    ElementCount(events);
    assert (set e | e in events) == set e | e in chain && fromBlock <= e.block <= toBlock;
    var sorted := Sort(EventLe, events);
    var live: set<nat> := {};
    for i := 0 to |sorted|
      invariant live == Replay(sorted[..i])
    {
      assert sorted[..i + 1][..i] == sorted[..i];
      var e := sorted[i];
      live := if e.add then live + {e.user} else live - {e.user};
    }
    assert sorted[..|sorted|] == sorted;
    r := Members(live);
  }

  // ---- The pending-slash flag ----------------------------------------------------------------

  /** SlashQueued sets the flag; SlashCancelled and OperatorSlashed clear it. */
  datatype Flip = Flip(block: nat, index: nat, sets: bool)

  predicate FlipLe(a: Flip, b: Flip) {
    a.block < b.block || (a.block == b.block && a.index <= b.index)
  }

  ghost predicate FlipPositions(flips: seq<Flip>) {
    forall a, b | a in flips && b in flips && a.block == b.block && a.index == b.index :: a == b
  }

  /** The flag after replaying flips in order, from clear. */
  function ReplayFlag(s: seq<Flip>): bool {
    s != [] && s[|s| - 1].sets
  }

  ghost predicate Latest(f: Flip, flips: seq<Flip>) {
    f in flips && forall g | g in flips :: FlipLe(g, f)
  }

  /** The flag of the whole history, replayed in chain order. */
  function Flag(history: seq<Flip>): bool {
    ReplayFlag(Sort(FlipLe, history))
  }

  lemma LatestIsReplay(history: seq<Flip>, f: Flip)
    requires FlipPositions(history) && Latest(f, history)
    ensures Flag(history) == f.sets
  {
    SortOk(FlipLe, history);
    LatestIsLast(Sort(FlipLe, history), history, f);
  }

  lemma LatestIsLast(s: seq<Flip>, history: seq<Flip>, f: Flip)
    requires FlipPositions(history) && Latest(f, history) && SortedBy(FlipLe, s)
    requires forall x :: x in s <==> x in history
    ensures s != [] && s[|s| - 1] == f
  {
    var k :| 0 <= k < |s| && s[k] == f;
    var last := s[|s| - 1];
    assert last in s;
    assert k < |s| - 1 ==> FlipLe(s[k], last);
    assert FlipLe(last, f);
  }

  /**
   * isSlashPendingFromEvents over the last `lookback` blocks before `latest`; None is indeterminate,
   * exactly if the head or the logs cannot be read.
   * A determinate answer is the true flag, except that a flag set before the window reads as clear.
   */
  method IsSlashPendingFromEvents(history: seq<Flip>, latest: nat, lookback: int, readable: bool)
    returns (r: Option<bool>)
    requires FlipPositions(history) && forall f | f in history :: f.block <= latest
    ensures r.Some? <==> readable
    ensures r == Some(true) ==> Flag(history)
    ensures r.Some? ==>
              (r.value <==> Flag(history) && exists f :: f in history && f.block >= latest - (if lookback < 0 then 0 else lookback))
  {
    if !readable {
      return None;
    }
    var window := if lookback < 0 then 0 else lookback;
    var fromBlock := if latest < window then 0 else latest - window;
    var best: Option<Flip> := None;
    for i := 0 to |history|
      invariant best.None? ==> forall f | f in history[..i] :: f.block < fromBlock
      invariant best.Some? ==> best.value in history && best.value.block >= fromBlock
                               && forall f | f in history[..i] && f.block >= fromBlock :: FlipLe(f, best.value)
    {
      var log := history[i];
      assert history[..i + 1] == history[..i] + [log];
      // getLogs returns only the logs of the window; the order does not matter.
      if log.block >= fromBlock {
        if best.None? || log.block > best.value.block
           || (log.block == best.value.block && log.index > best.value.index) {
          best := Some(log);
        }
      }
    }
    assert history[..|history|] == history;
    if best.Some? {
      assert Latest(best.value, history);
      LatestIsReplay(history, best.value);
    }
    r := Some(best.Some? && best.value.sets);
  }
}
