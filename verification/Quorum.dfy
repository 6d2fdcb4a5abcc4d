/**
 * The quorum co-signer: configured thresholds, the responder gate, response validation and coSign.
 *
 * BLS verification and point decompression are arbitrary functions; a message hash is injective, so a
 * hash is the message it binds.  On-chain key reads answer anything, at most once per slot and call.
 */
module Quorum {
  import opened Options
  import opened Javascript
  import opened SignerMask

  // ---- Thresholds ----------------------------------------------------------------------------

  datatype Severity = Warning | Minor | Major

  datatype Thresholds = Thresholds(warning: nat, minor: nat, major: nat) {
    function Get(s: Severity): nat {
      match s
      case Warning => warning
      case Minor => minor
      case Major => major
    }

    function Set(s: Severity, n: nat): Thresholds {
      match s
      case Warning => this.(warning := n)
      case Minor => this.(minor := n)
      case Major => this.(major := n)
    }
  }

  const FLOOR := Thresholds(2, 3, 3)

  /** One `KEY:value` item of AUDIT_SLASH_THRESHOLDS, split and trimmed. */
  datatype Entry = Entry(key: string, value: string)

  predicate AllDigits(v: string) {
    v != "" && forall i | 0 <= i < |v| :: '0' <= v[i] <= '9'
  }

  function Decimal(v: string): nat
    requires v == "" || AllDigits(v)
  {
    if v == "" then 0 else 10 * Decimal(v[..|v| - 1]) + (v[|v| - 1] - '0') as nat
  }

  function SeverityOf(key: string): Option<Severity> {
    if key == "WARNING" then Some(Warning)
    else if key == "MINOR" then Some(Minor)
    else if key == "MAJOR" then Some(Major)
    else None
  }

  function NameOf(s: Severity): string {
    match s
    case Warning => "WARNING"
    case Minor => "MINOR"
    case Major => "MAJOR"
  }

  lemma SeverityRoundTrip(key: string, s: Severity)
    ensures SeverityOf(key) == Some(s) <==> key == NameOf(s)
  {
    assert "WARNING"[1] == 'A' && "MINOR"[1] == 'I' && "MAJOR"[1] == 'A' && "WARNING"[0] == 'W' && "MAJOR"[0] == 'M';
  }

  /** A number as it is written. */
  function Show(n: nat): string {
    if n < 10 then [n as char + '0'] else Show(n / 10) + [(n % 10) as char + '0']
  }

  lemma {:induction false} DecimalRoundTrip(n: nat)
    ensures AllDigits(Show(n)) && Decimal(Show(n)) == n
  {
    if n >= 10 {
      DecimalRoundTrip(n / 10);
      assert Show(n)[..|Show(n)| - 1] == Show(n / 10);
    }
  }

  predicate Accepted(e: Entry) {
    SeverityOf(e.key).Some? && AllDigits(e.value) && 0 < Decimal(e.value) <= MAX_SAFE_INTEGER
  }

  /** The value of the last accepted entry for a severity. */
  function LastSetting(entries: seq<Entry>, s: Severity): Option<nat> {
    if entries == [] then None
    else
      var e := entries[|entries| - 1];
      if Accepted(e) && SeverityOf(e.key) == Some(s) then Some(Decimal(e.value))
      else LastSetting(entries[..|entries| - 1], s)
  }

  function Max(a: nat, b: nat): nat {
    if a < b then b else a
  }

  /** parseSlashThresholds: a setting can raise a threshold, never lower it below the floor. */
  method ParseSlashThresholds(entries: seq<Entry>) returns (out: Thresholds)
    ensures forall s :: out.Get(s) == Max(FLOOR.Get(s), LastSetting(entries, s).GetOr(0))
    ensures out.warning >= 2 && out.minor >= 3 && out.major >= 3
  {
    out := FLOOR;
    for i := 0 to |entries|
      invariant forall s :: out.Get(s) == Max(FLOOR.Get(s), LastSetting(entries[..i], s).GetOr(0))
    {
      var e := entries[i];
      assert entries[..i + 1][..i] == entries[..i];
      if Accepted(e) {
        var s, n := SeverityOf(e.key).value, Decimal(e.value);
        out := out.Set(s, if n < FLOOR.Get(s) then FLOOR.Get(s) else n);
      }
    }
    assert entries[..|entries|] == entries;
    assert out.Get(Warning) >= 2 && out.Get(Minor) >= 3 && out.Get(Major) >= 3;
  }

  /** thresholdFor: WARNING is level 0, MINOR 1, MAJOR 2; anything else takes the defensive default. */
  function ThresholdFor(table: Thresholds, level: int): nat {
    var configured := if level == 0 then table.warning else if level == 1 then table.minor
                      else if level == 2 then table.major else 0;
    if configured > 0 then configured else if level == 0 then 2 else 3
  }

  /** No configuration brings a quorum below 2/3/3, and a positive table entry is used as it is. */
  method ConfiguredQuorum(entries: seq<Entry>, level: int) returns (threshold: nat)
    ensures threshold >= if level == 0 then 2 else 3
    ensures level == 0 ==> threshold == Max(2, LastSetting(entries, Warning).GetOr(0))
    ensures level == 1 ==> threshold == Max(3, LastSetting(entries, Minor).GetOr(0))
    ensures level == 2 ==> threshold == Max(3, LastSetting(entries, Major).GetOr(0))
  {
    var table := ParseSlashThresholds(entries);
    assert table.Get(Warning) == table.warning && table.Get(Minor) == table.minor && table.Get(Major) == table.major;
    threshold := ThresholdFor(table, level);
  }

  // ---- Requests and responses ----------------------------------------------------------------

  datatype Domain = Domain(chainId: int, aggregator: nat, registry: nat)

  datatype Message =
    | QueueMessage(domain: Domain, operator: nat, level: int, epoch: nat)
    | ExecuteMessage(domain: Domain, proposalId: nat, operator: nat, level: int, epoch: nat, evidence: nat)

  datatype Step = Queue | Execute | UnknownStep

  datatype Request = Request(
    schemaVersion: int, step: Step, operator: nat, level: int, epoch: nat, chainId: int,
    proposalId: Option<nat>, evidence: Option<nat>, message: Message)

  datatype Response = Response(slot: int, publicKey: nat, signature: nat, message: Message)

  const PROOF_SCHEMA_VERSION: int := 2

  /** recomputeMessageHash over the local domain; None is a throw. */
  function Recompute(req: Request, domain: Domain): Option<Message> {
    if req.chainId != domain.chainId then None
    else match req.step
      case Queue => Some(QueueMessage(domain, req.operator, req.level, req.epoch))
      case Execute =>
        if req.proposalId.None? || req.evidence.None? then None
        else Some(ExecuteMessage(domain, req.proposalId.value, req.operator, req.level, req.epoch, req.evidence.value))
      case UnknownStep => None
  }

  /** The message binds the node's own domain and every field of the request; without them there is none. */
  lemma RecomputeBinds(req: Request, domain: Domain)
    ensures Recompute(req, domain).None? <==>
              || req.chainId != domain.chainId || req.step.UnknownStep?
              || (req.step.Execute? && (req.proposalId.None? || req.evidence.None?))
    ensures Recompute(req, domain).Some? ==>
              var m := Recompute(req, domain).value;
              && m.domain == domain && m.operator == req.operator && m.level == req.level && m.epoch == req.epoch
              && (m.QueueMessage? <==> req.step.Queue?)
              && (m.ExecuteMessage? ==> req.proposalId == Some(m.proposalId) && req.evidence == Some(m.evidence))
  {
  }

  /** The key that the chain shows for a slot, each time it is read in a call. */
  type Keys = (int, nat) -> Option<nat>

  /** What the chain answers in a call, if it is asked. */
  datatype Answers = Answers(attests: bool, slot: Option<nat>, keyAt: Keys)

  class CoSigner {
    const domain: Domain
    const executeSlash: bool
    const maxSlots: nat
    const table: Thresholds
    const verify: (nat, Message, nat) -> bool // signature, message, public key
    const uncompress: nat -> Option<nat>      // compressed key to the on-chain form; None: not a point

    var verifierWired: bool
    var domainAttested: bool
    var ownSlot: Option<nat>
    var keyCache: map<int, Option<nat>> // slot to on-chain key, one per coSign call
    var keyReads: multiset<int>         // slots whose key was read in this call

    /** An out-of-range slot count falls back to the contract's 13. */
    constructor (domain: Domain, executeSlash: bool, configuredSlots: int, table: Thresholds,
                 verify: (nat, Message, nat) -> bool, uncompress: nat -> Option<nat>)
      ensures this.domain == domain && this.executeSlash == executeSlash && this.table == table
      ensures this.verify == verify && this.uncompress == uncompress
      ensures 1 <= this.maxSlots <= MAX_VALIDATORS
      ensures 1 <= configuredSlots <= MAX_VALIDATORS ==> this.maxSlots == configuredSlots
      ensures !domainAttested && ownSlot.None? && !verifierWired
    {
      this.domain, this.executeSlash, this.table := domain, executeSlash, table;
      maxSlots := if 0 < configuredSlots <= MAX_VALIDATORS then configuredSlots else MAX_VALIDATORS;
      this.verify, this.uncompress := verify, uncompress;
      verifierWired, domainAttested, ownSlot, keyCache, keyReads := false, false, None, map[], multiset{};
    }

    /** A valid signature over the locally recomputed message, for a slot in range. */
    ghost predicate Signed(req: Request, resp: Response) {
      && 1 <= resp.slot <= maxSlots
      && Recompute(req, domain) == Some(resp.message)
      && verify(resp.signature, resp.message, resp.publicKey)
    }

    /** What a counted response has proved, given the first answer for its slot. */
    ghost predicate Counts(req: Request, resp: Response, keyAt: Keys) {
      && Signed(req, resp)
      && keyAt(resp.slot, 0).Some?
      && uncompress(resp.publicKey) == keyAt(resp.slot, 0)
    }

    /** A slot's key is read once, and the first answer is kept. */
    ghost predicate CacheOk(keyAt: Keys)
      reads this
    {
      forall s :: keyReads[s] == (if s in keyCache then 1 else 0) && (s in keyCache ==> keyCache[s] == keyAt(s, 0))
    }

    /** validateResponse: counted exactly when every check holds. */
    method ValidateResponse(req: Request, resp: Response, keyAt: Keys) returns (ok: bool)
      requires CacheOk(keyAt)
      modifies this`keyCache, this`keyReads
      ensures CacheOk(keyAt)
      ensures ok <==> Counts(req, resp, keyAt)
    {
      if resp.slot < 1 || resp.slot > maxSlots {
        return false;
      }
      var expected := Recompute(req, domain);
      if expected.None? || resp.message != expected.value {
        return false;
      }
      if !verify(resp.signature, expected.value, resp.publicKey) {
        return false;
      }
      if resp.slot !in keyCache {
        keyCache := keyCache[resp.slot := keyAt(resp.slot, keyReads[resp.slot])];
        keyReads := keyReads + multiset{resp.slot};
      }
      ok := keyCache[resp.slot].Some? && uncompress(resp.publicKey) == keyCache[resp.slot];
    }

    /** ensureDomainAttested: success is remembered, failure is not. */
    method EnsureDomainAttested(attests: bool) returns (ok: bool)
      modifies this`domainAttested
      ensures ok == domainAttested == (old(domainAttested) || attests)
    {
      if !domainAttested {
        domainAttested := attests;
      }
      ok := domainAttested;
    }

    /** resolveOwnSlot: a positive answer is remembered, a missing one is read again. */
    method ResolveOwnSlot(read: Option<nat>) returns (slot: Option<nat>)
      modifies this`ownSlot
      ensures slot == ownSlot && ownSlot in {old(ownSlot), read}
      ensures old(ownSlot).Some? ==> ownSlot == old(ownSlot)
      ensures read.Some? ==> ownSlot.Some?
    {
      if ownSlot.None? {
        ownSlot := read;
      }
      slot := ownSlot;
    }

    /** The request is for the message that this node recomputes, on evidence that it found itself. */
    ghost predicate Agrees(req: Request, confirmed: Option<nat>) {
      && req.schemaVersion == PROOF_SCHEMA_VERSION
      && Recompute(req, domain) == Some(req.message)
      && confirmed.Some? && req.evidence == confirmed
    }

    /**
     * verifyAndSign: `confirmed` is the proof hash of the node's own violation check (None: not
     * confirmed).  A signature is given only over the locally recomputed message, and only when the
     * evidence in the request is the node's own.
     */
    method VerifyAndSign(req: Request, confirmed: Option<nat>, publicKey: nat, sign: Message -> nat, answers: Answers)
      returns (r: Option<Response>)
      modifies this`domainAttested, this`ownSlot
      ensures domainAttested == (old(domainAttested) || (executeSlash && verifierWired && answers.attests))
      ensures ownSlot in {old(ownSlot), answers.slot} && (old(ownSlot).Some? ==> ownSlot == old(ownSlot))
      ensures r.Some? <==>
                && executeSlash && verifierWired && (old(domainAttested) || answers.attests)
                && (old(ownSlot).Some? || answers.slot.Some?)
                && Agrees(req, confirmed)
      ensures r.Some? ==> ownSlot.Some? && r.value == Response(ownSlot.value, publicKey, sign(req.message), req.message)
    {
      if !executeSlash || !verifierWired {
        return None;
      }
      var attested := EnsureDomainAttested(answers.attests);
      if !attested || req.schemaVersion != PROOF_SCHEMA_VERSION {
        return None;
      }
      var local := Recompute(req, domain);
      if local.None? || local.value != req.message {
        return None;
      }
      if confirmed.None? || req.evidence.None? || req.evidence.value != confirmed.value {
        return None;
      }
      var slot := ResolveOwnSlot(answers.slot);
      if slot.None? {
        return None;
      }
      r := Some(Response(slot.value, publicKey, sign(local.value), local.value));
    }

    /** The i-th response is the first that counts for a slot. */
    ghost predicate FirstFor(req: Request, rs: seq<Response>, keyAt: Keys, slot: int, i: nat) {
      && i < |rs| && rs[i].slot == slot && Counts(req, rs[i], keyAt)
      && forall j | 0 <= j < i && rs[j].slot == slot :: !Counts(req, rs[j], keyAt)
    }

    /** The signature of that response. */
    ghost predicate FromFirst(req: Request, rs: seq<Response>, keyAt: Keys, slot: int, signature: nat) {
      exists i: nat :: FirstFor(req, rs, keyAt, slot, i) && rs[i].signature == signature
    }

    /** The slots for which some response of `rs` counts. */
    ghost function CountedSlots(req: Request, rs: seq<Response>, keyAt: Keys): set<int> {
      set i | 0 <= i < |rs| && Counts(req, rs[i], keyAt) :: rs[i].slot
    }

    /** The counting loop of coSign: one signature per slot, the first that counts. */
    method CountBySlot(req: Request, rs: seq<Response>, keyAt: Keys) returns (bySlot: map<int, nat>)
      requires CacheOk(keyAt)
      modifies this`keyCache, this`keyReads
      ensures CacheOk(keyAt)
      ensures bySlot.Keys == CountedSlots(req, rs, keyAt)
      ensures forall s | s in bySlot :: FromFirst(req, rs, keyAt, s, bySlot[s])
      ensures forall s | s in bySlot :: 1 <= s <= maxSlots
    {
      bySlot := map[];
      var k := 0;
      while k < |rs|
        invariant 0 <= k <= |rs| && CacheOk(keyAt)
        invariant forall i | 0 <= i < k :: Counts(req, rs[i], keyAt) ==> rs[i].slot in bySlot
        invariant forall s | s in bySlot :: 1 <= s <= maxSlots && exists i: nat ::
                    i < k && FirstFor(req, rs, keyAt, s, i) && rs[i].signature == bySlot[s]
      {
        var ok := ValidateResponse(req, rs[k], keyAt);
        if ok && rs[k].slot !in bySlot {
          bySlot := bySlot[rs[k].slot := rs[k].signature];
          assert FirstFor(req, rs, keyAt, rs[k].slot, k);
        }
        k := k + 1;
      }
      forall s | s in CountedSlots(req, rs, keyAt) ensures s in bySlot.Keys {
        var i :| 0 <= i < |rs| && Counts(req, rs[i], keyAt) && rs[i].slot == s;
      }
      assert forall s | s in bySlot.Keys :: s in CountedSlots(req, rs, keyAt);
    }

    /** One signature per slot, in the order of the slots: that of the first response that counts. */
    ghost predicate FirstOfEach(req: Request, rs: seq<Response>, keyAt: Keys, slots: seq<int>, sigs: seq<nat>) {
      && |sigs| == |slots|
      && forall k | 0 <= k < |sigs| :: FromFirst(req, rs, keyAt, slots[k], sigs[k])
    }

    /** The signatures of the selected slots in ascending order. */
    ghost predicate SignaturesOk(req: Request, rs: seq<Response>, keyAt: Keys, mask: nat, sigs: seq<nat>) {
      FirstOfEach(req, rs, keyAt, SelectedSlots(mask, MAX_VALIDATORS), sigs)
    }

    lemma ForSelected(req: Request, rs: seq<Response>, keyAt: Keys, bySlot: map<int, nat>, slots: seq<int>,
                      mask: nat, sigs: seq<nat>)
      requires forall i, j | 0 <= i < j < |slots| :: slots[i] < slots[j]
      requires forall s :: s in slots <==> s in bySlot
      requires forall s :: Has(mask, s) <==> s in slots
      requires forall s | s in slots :: 1 <= s <= MAX_VALIDATORS
      requires forall s | s in bySlot :: FromFirst(req, rs, keyAt, s, bySlot[s])
      requires |sigs| == |slots| && forall k | 0 <= k < |slots| :: slots[k] in bySlot && sigs[k] == bySlot[slots[k]]
      ensures SignaturesOk(req, rs, keyAt, mask, sigs)
    {
      AscendingIsSelected(slots, mask, MAX_VALIDATORS);
      forall k | 0 <= k < |sigs|
        ensures FromFirst(req, rs, keyAt, slots[k], sigs[k])
      {
        assert slots[k] in bySlot;
      }
    }

    /** The counted slots in ascending order. */
    method SortedSlots(bySlot: map<int, nat>) returns (slots: seq<int>)
      requires forall s | s in bySlot :: 1 <= s <= maxSlots
      ensures forall i, j | 0 <= i < j < |slots| :: slots[i] < slots[j]
      ensures forall s :: s in slots <==> s in bySlot
      ensures (set s | s in slots) == bySlot.Keys
    {
      slots := [];
      for s := 1 to maxSlots + 1
        invariant forall i, j | 0 <= i < j < |slots| :: slots[i] < slots[j]
        invariant forall i | 0 <= i < |slots| :: slots[i] < s
        invariant forall t :: t in slots <==> t in bySlot && t < s
      {
        if s in bySlot {
          slots := slots + [s];
        }
      }
    }

    /** The node's own response and what the collector returned. */
    ghost function Responses(req: Request, publicKey: nat, sign: Message -> nat, peers: seq<Response>): seq<Response>
      requires ownSlot.Some?
      reads this
    {
      [Response(ownSlot.value, publicKey, sign(req.message), req.message)] + peers
    }

    ghost predicate Ready(req: Request, confirmed: Option<nat>, peerCount: nat)
      reads this
    {
      executeSlash && verifierWired && domainAttested && ownSlot.Some? && peerCount > 0 && Agrees(req, confirmed)
    }

    /**
     * coSign: `peers` is whatever the collector returned.  A proof is returned exactly when the node is
     * ready and enough distinct slots count; its mask then selects exactly those slots, and its
     * signatures are theirs.
     */
    method CoSign(req: Request, confirmed: Option<nat>, publicKey: nat, sign: Message -> nat,
                  peerCount: nat, peers: seq<Response>, answers: Answers)
      returns (r: Option<(nat, seq<nat>)>)
      requires maxSlots <= MAX_VALIDATORS
      modifies this`domainAttested, this`ownSlot, this`keyCache, this`keyReads
      ensures domainAttested == (old(domainAttested) || (executeSlash && verifierWired && answers.attests))
      ensures ownSlot == if old(ownSlot).None? && executeSlash && verifierWired && domainAttested
                         then answers.slot else old(ownSlot)
      ensures r.Some? <==>
                && Ready(req, confirmed, peerCount)
                && |CountedSlots(req, Responses(req, publicKey, sign, peers), answers.keyAt)| >= ThresholdFor(table, req.level)
      ensures r.Some? ==>
                var counted := CountedSlots(req, Responses(req, publicKey, sign, peers), answers.keyAt);
                && r.value.0 < 8192
                && (forall s :: Has(r.value.0, s) <==> s in counted)
                && BitCount(r.value.0, MAX_VALIDATORS) == |counted| == |r.value.1|
      ensures r.Some? ==> SignaturesOk(req, Responses(req, publicKey, sign, peers), answers.keyAt, r.value.0, r.value.1)
    {
      if !executeSlash || !verifierWired {
        return None;
      }
      var attested := EnsureDomainAttested(answers.attests);
      if !attested {
        return None;
      }
      var slot := ResolveOwnSlot(answers.slot);
      if slot.None? || peerCount == 0 {
        return None;
      }
      var threshold := ThresholdFor(table, req.level);
      var own := VerifyAndSign(req, confirmed, publicKey, sign, answers);
      if own.None? {
        return None;
      }
      keyCache, keyReads := map[], multiset{};
      var bySlot := CountBySlot(req, [own.value] + peers, answers.keyAt);
      if |bySlot| < threshold {
        return None;
      }
      var mask, signatures := Assemble(req, [own.value] + peers, answers.keyAt, bySlot);
      r := Some((mask, signatures));
    }

    /** The signatures to aggregate and the mask of their slots. */
    method Assemble(req: Request, rs: seq<Response>, keyAt: Keys, bySlot: map<int, nat>)
      returns (mask: nat, signatures: seq<nat>)
      requires maxSlots <= MAX_VALIDATORS
      requires forall s | s in bySlot :: 1 <= s <= maxSlots
      requires forall s | s in bySlot :: FromFirst(req, rs, keyAt, s, bySlot[s])
      ensures mask < 8192 && (forall s :: Has(mask, s) <==> s in bySlot)
      ensures BitCount(mask, MAX_VALIDATORS) == |bySlot| == |signatures|
      ensures SignaturesOk(req, rs, keyAt, mask, signatures)
    {
      var slots := SortedSlots(bySlot);
      signatures := seq(|slots|, i requires 0 <= i < |slots| => bySlot[slots[i]]);
      var built := BuildSignerMask(slots);
      mask := built.value;
      AscendingCount(slots);
      ForSelected(req, rs, keyAt, bySlot, slots, mask, signatures);
    }
  }

  /**
   * Quorum soundness from configuration to mask: whatever the settings and whatever the peers send, a
   * co-sign that returns has at least 2 (WARNING) or 3 set bits, all below 2^13; and a node that is
   * registered, attested and agrees returns as soon as enough slots count.
   */
  method ConfiguredCoSign(entries: seq<Entry>, configuredSlots: int, domain: Domain,
                          verify: (nat, Message, nat) -> bool, uncompress: nat -> Option<nat>,
                          req: Request, confirmed: Option<nat>, publicKey: nat, sign: Message -> nat,
                          peerCount: nat, peers: seq<Response>, answers: Answers)
    returns (r: Option<(nat, seq<nat>)>, c: CoSigner)
    ensures r.Some? ==> r.value.0 < 8192
    ensures r.Some? ==> BitCount(r.value.0, MAX_VALIDATORS) >= if req.level == 0 then 2 else 3
    ensures c.ownSlot == if answers.attests then answers.slot else None
    ensures r.Some? <==>
              && answers.attests && answers.slot.Some? && peerCount > 0 && c.Agrees(req, confirmed)
              && |c.CountedSlots(req, c.Responses(req, publicKey, sign, peers), answers.keyAt)| >= ThresholdFor(c.table, req.level)
  {
    var table := ParseSlashThresholds(entries);
    c := new CoSigner(domain, true, configuredSlots, table, verify, uncompress);
    c.verifierWired := true;
    r := c.CoSign(req, confirmed, publicKey, sign, peerCount, peers, answers);
  }

  lemma {:induction false} AscendingCount(s: seq<int>)
    requires forall i, j | 0 <= i < j < |s| :: s[i] < s[j]
    ensures |set x | x in s| == |s|
  {
    if s != [] {
      var init, last := s[..|s| - 1], s[|s| - 1];
      AscendingCount(init);
      assert (set x | x in s) == (set x | x in init) + {last} by {
        assert s == init + [last];
      }
      assert last !in init;
    }
  }
}
