/**
 * Signer mask, slots and signers: buildSignerMask, the wire proof, orderSignersFromSlotMap, the two
 * canonical-order checks and the watcher's record builder.  Slot `s` (1-based) is bit `s - 1`;
 * addresses are uint160 numbers and 0 is the zero address.
 */
module SignerMask {
  import opened Options
  import opened Bytes
  import opened Sorting

  const MAX_VALIDATORS: nat := 13

  /** `m >> n`. */
  function Shr(m: nat, n: nat): nat {
    if n == 0 then m else Shr(m / 2, n - 1)
  }

  predicate Bit(m: nat, i: nat) {
    Shr(m, i) % 2 == 1
  }

  /** Slot `s` is selected. */
  predicate Has(m: nat, s: int) {
    s >= 1 && Bit(m, s - 1)
  }

  /** `m | (1 << i)`. */
  function SetBit(m: nat, i: nat): nat {
    if i == 0 then m - m % 2 + 1 else 2 * SetBit(m / 2, i - 1) + m % 2
  }

  /** The number of set bits among the `n` lowest. */
  function BitCount(m: nat, n: nat): nat {
    if n == 0 then 0 else BitCount(m, n - 1) + if Has(m, n) then 1 else 0
  }

  lemma {:induction false} ShrZero(n: nat)
    ensures Shr(0, n) == 0
  {
    if n > 0 {
      ShrZero(n - 1);
    }
  }

  /** `m >> n` is zero exactly when m is below 2^n. */
  lemma {:induction false} ShrBound(m: nat, n: nat)
    ensures Shr(m, n) == 0 <==> m < Pow(2, n)
  {
    if n > 0 {
      ShrBound(m / 2, n - 1);
    }
  }

  lemma {:induction false} SetBitBits(m: nat, i: nat, j: nat)
    ensures Bit(SetBit(m, i), j) <==> i == j || Bit(m, j)
  {
    if i > 0 && j > 0 {
      SetBitBits(m / 2, i - 1, j - 1);
    }
  }

  /** A mask is determined by its slots. */
  lemma {:induction false} SameSlots(a: nat, b: nat)
    requires forall s :: Has(a, s) <==> Has(b, s)
    ensures a == b
    decreases a + b
  {
    if a + b > 0 {
      assert Has(a, 1) <==> Has(b, 1);
      forall s
        ensures Has(a / 2, s) <==> Has(b / 2, s)
      {
        assert Has(a, s + 1) <==> Has(b, s + 1);
      }
      SameSlots(a / 2, b / 2);
    }
  }

  lemma {:induction false} NoHighSlots(m: nat, n: nat, s: int)
    requires Shr(m, n) == 0 && n < s
    ensures !Has(m, s)
    decreases n
  {
    if n == 0 {
      ShrZero(s - 1);
    } else {
      NoHighSlots(m / 2, n - 1, s - 1);
    }
  }

  lemma {:induction false} SetBitBelow(m: nat, i: nat, n: nat)
    requires Shr(m, n) == 0 && i < n
    ensures Shr(SetBit(m, i), n) == 0
    decreases n
  {
    if i > 0 {
      SetBitBelow(m / 2, i - 1, n - 1);
    }
  }

  /** The slots up to `n` selected by a mask. */
  function Slots(mask: nat, n: nat): set<int> {
    set s | 1 <= s <= n && Has(mask, s)
  }

  lemma {:induction false} SlotCount(mask: nat, n: nat)
    ensures |Slots(mask, n)| == BitCount(mask, n) <= n
  {
    if n == 0 {
      assert Slots(mask, n) == {};
    } else {
      SlotCount(mask, n - 1);
      assert Slots(mask, n) == Slots(mask, n - 1) + if Has(mask, n) then {n as int} else {};
    }
  }

  /** The selected slots in ascending order. */
  function SelectedSlots(mask: nat, n: nat): seq<int> {
    if n == 0 then [] else SelectedSlots(mask, n - 1) + if Has(mask, n) then [n] else []
  }

  /** An ascending list of the selected slots is that list. */
  lemma {:induction false} AscendingIsSelected(s: seq<int>, mask: nat, n: nat)
    requires forall i, j | 0 <= i < j < |s| :: s[i] < s[j]
    requires forall x :: x in s <==> x in Slots(mask, n)
    ensures s == SelectedSlots(mask, n)
  {
    forall i | 0 <= i < |s| ensures 1 <= s[i] <= n {
      assert s[i] in s;
    }
    assert |s| > 0 ==> 1 <= s[0] <= n && s[|s| - 1] <= n;
    if n > 0 {
      if Has(mask, n) {
        assert n in Slots(mask, n);
        var k :| 0 <= k < |s| && s[k] == n;
        assert k == |s| - 1;
        var init := s[..k];
        forall x ensures x in init <==> x in Slots(mask, n - 1) {
          assert x in init ==> x in s;
          assert x in s ==> x == n || x in init;
          assert x in s <==> x in Slots(mask, n);
        }
        AscendingIsSelected(init, mask, n - 1);
        assert s == init + [n];
      } else {
        assert Slots(mask, n) == Slots(mask, n - 1);
        AscendingIsSelected(s, mask, n - 1);
      }
    }
  }

  predicate InRange(slot: int) {
    1 <= slot <= MAX_VALIDATORS
  }

  /** buildSignerMask; None is the thrown range error. */
  method BuildSignerMask(slots: seq<int>) returns (r: Option<nat>)
    ensures r.None? <==> exists slot :: slot in slots && !InRange(slot)
    ensures r.Some? ==> r.value < 8192
    ensures r.Some? ==> forall s :: Has(r.value, s) <==> s in slots
    ensures r.Some? ==> BitCount(r.value, MAX_VALIDATORS) == |set slot | slot in slots|
  {
    var mask := 0;
    var seen: set<int> := {};
    forall n: nat ensures Shr(0, n) == 0 { ShrZero(n); }
    for k := 0 to |slots|
      invariant seen == set slot | slot in slots[..k]
      invariant forall slot | slot in seen :: InRange(slot)
      invariant Shr(mask, MAX_VALIDATORS) == 0
      invariant forall s :: Has(mask, s) <==> s in seen
    {
      var slot := slots[k];
      assert slots[..k + 1] == slots[..k] + [slot];
      if !InRange(slot) {
        assert slot in slots;
        return None;
      }
      if slot !in seen {
        SetBitBelow(mask, slot - 1, MAX_VALIDATORS);
        forall s | s >= 1 ensures Has(SetBit(mask, slot - 1), s) <==> slot == s || Has(mask, s) {
          SetBitBits(mask, slot - 1, s - 1);
        }
        seen := seen + {slot};
        mask := SetBit(mask, slot - 1);
      }
    }
    assert slots[..|slots|] == slots;
    ShrBound(mask, MAX_VALIDATORS);
    assert Pow(2, MAX_VALIDATORS) == 8192;
    SlotCount(mask, MAX_VALIDATORS);
    assert Slots(mask, MAX_VALIDATORS) == seen;
    r := Some(mask);
  }

  /** For every mask below 2^13, buildSignerMask of its slots, in any order and repetition, is the mask. */
  method MaskRoundTrip(mask: nat, slots: seq<int>) returns (back: Option<nat>)
    requires mask < 8192
    requires forall slot :: slot in slots <==> slot in Slots(mask, MAX_VALIDATORS)
    ensures back == Some(mask)
  {
    back := BuildSignerMask(slots);
    ShrBound(mask, MAX_VALIDATORS);
    assert Pow(2, MAX_VALIDATORS) == 8192;
    forall s ensures Has(back.value, s) <==> Has(mask, s) {
      if s > MAX_VALIDATORS {
        NoHighSlots(mask, MAX_VALIDATORS, s);
      }
    }
    SameSlots(back.value, mask);
  }

  // ---- The wire proof ------------------------------------------------------------------------

  const WORD: nat := 32

  /** A 32-byte word. */
  function Word(n: nat): (r: seq<Byte>)
    ensures |r| == 32
  {
    BigEndian(n, WORD)
  }

  /** A head of two words, the second of which is the offset of the dynamic part. */
  function Encoded(mask: nat, offset: nat, sigG2: seq<Byte>): seq<Byte> {
    Word(mask) + (Word(offset) + Word(|sigG2|) + sigG2 + Zeros((32 - |sigG2| % 32) % 32))
  }

  /** abi.encode(uint256 signerMask, bytes sigG2). */
  function EncodeProof(mask: nat, sigG2: seq<Byte>): seq<Byte> {
    Encoded(mask, 64, sigG2)
  }

  /** The mask is the first 32-byte word; None is a proof too short to hold it. */
  function DecodeSignerMask(proof: seq<Byte>): Option<nat> {
    if |proof| < 32 then None else Some(FromBigEndian(proof[..32]))
  }

  /** The signature as an ABI decoder finds it: the second word is its offset, its length comes first there. */
  function DecodeSignature(proof: seq<Byte>): Option<seq<Byte>> {
    if |proof| < 64 then None
    else
      var at := FromBigEndian(proof[32..64]);
      if |proof| < at + 32 then None
      else
        var len := FromBigEndian(proof[at..at + 32]);
        if |proof| < at + 32 + len then None else Some(proof[at + 32..at + 32 + len])
  }

  /** Both parts of an encoded proof are read back. */
  lemma ProofRoundTrip(mask: nat, sigG2: seq<Byte>)
    requires mask < Pow(256, WORD) && |sigG2| < Pow(256, WORD)
    ensures DecodeSignerMask(EncodeProof(mask, sigG2)) == Some(mask)
    ensures DecodeSignature(EncodeProof(mask, sigG2)) == Some(sigG2)
  {
    EncodedRoundTrip(mask, 64, sigG2);
  }

  lemma EncodedRoundTrip(mask: nat, offset: nat, sigG2: seq<Byte>)
    requires mask < Pow(256, WORD) && |sigG2| < Pow(256, WORD) && offset == 64
    ensures DecodeSignerMask(Encoded(mask, offset, sigG2)) == Some(mask)
    ensures DecodeSignature(Encoded(mask, offset, sigG2)) == Some(sigG2)
  {
    var t := Encoded(mask, offset, sigG2);
    EncodedParts(mask, offset, sigG2, t);
    WordRoundTrip(mask);
    OffsetAndLength(offset, |sigG2|);
    SignatureAt(t, sigG2);
  }

  lemma OffsetAndLength(offset: nat, len: nat)
    requires offset == 64 && len < Pow(256, WORD)
    ensures FromBigEndian(Word(offset)) == 64 && FromBigEndian(Word(len)) == len
  {
    WordRoundTrip(offset);
    WordRoundTrip(len);
  }

  lemma EncodedParts(mask: nat, offset: nat, sigG2: seq<Byte>, t: seq<Byte>)
    requires t == Encoded(mask, offset, sigG2)
    ensures |t| == 96 + |sigG2| + (32 - |sigG2| % 32) % 32
    ensures t[..32] == Word(mask) && t[32..64] == Word(offset) && t[64..96] == Word(|sigG2|)
    ensures t[96..96 + |sigG2|] == sigG2
  {
    WordSlices(Word(mask), Word(offset), Word(|sigG2|), sigG2, Zeros((32 - |sigG2| % 32) % 32));
  }

  /** The padding fills the last word. */
  lemma FillsWords(mask: nat, offset: nat, sigG2: seq<Byte>)
    ensures |Encoded(mask, offset, sigG2)| % 32 == 0
  {
    var n := |sigG2|;
    assert |Encoded(mask, offset, sigG2)| == 96 + n + (32 - n % 32) % 32;
    assert n == 32 * (n / 32) + n % 32;
  }

  lemma SignatureAt(t: seq<Byte>, sig: seq<Byte>)
    requires |t| >= 96 + |sig| && FromBigEndian(t[32..64]) == 64 && FromBigEndian(t[64..96]) == |sig|
    requires t[96..96 + |sig|] == sig
    ensures DecodeSignature(t) == Some(sig)
  {
  }

  lemma WordSlices(a: seq<Byte>, b: seq<Byte>, c: seq<Byte>, sig: seq<Byte>, pad: seq<Byte>)
    requires |a| == |b| == |c| == 32
    ensures var t := a + (b + c + sig + pad);
            && |t| == 96 + |sig| + |pad|
            && t[..32] == a && t[32..64] == b && t[64..96] == c && t[96..96 + |sig|] == sig
  {
  }

  lemma WordRoundTrip(n: nat)
    requires n < 256 || n < Pow(256, WORD)
    ensures FromBigEndian(Word(n)) == n
  {
    if n < 256 {
      SmallFits(n, WORD);
    }
    BigEndianRoundTrip(n, WORD);
  }

  lemma {:induction false} SmallFits(n: nat, len: nat)
    requires n < 256 && len >= 1
    ensures n < Pow(256, len)
  {
    if len > 1 {
      SmallFits(n, len - 1);
    }
  }

  // ---- Signers in canonical order ------------------------------------------------------------

  predicate AddressLe(a: nat, b: nat) {
    a <= b
  }

  ghost predicate StrictlyAscending(s: seq<nat>) {
    forall i, j | 0 <= i < j < |s| :: s[i] < s[j]
  }

  ghost predicate Distinct(s: seq<nat>) {
    forall i, j | 0 <= i < j < |s| :: s[i] != s[j]
  }

  /** The ascending sort by uint160. */
  function SortAddresses(s: seq<nat>): seq<nat> {
    Sort(AddressLe, s)
  }

  function Elements(s: seq<nat>): set<nat> {
    set x | x in s
  }

  lemma DistinctAppend(s: seq<nat>, x: nat)
    ensures Distinct(s + [x]) <==> Distinct(s) && x !in s
  {
    var t := s + [x];
    assert forall i | 0 <= i < |s| :: t[i] == s[i];
    assert t[|s|] == x;
  }

  lemma {:induction false} DistinctCount(s: seq<nat>)
    ensures |Elements(s)| <= |s|
    ensures |Elements(s)| == |s| <==> Distinct(s)
  {
    if s != [] {
      var init, last := s[..|s| - 1], s[|s| - 1];
      DistinctCount(init);
      assert s == init + [last];
      assert Elements(s) == Elements(init) + {last};
      DistinctAppend(init, last);
    }
  }

  /** Sorting neither hides nor makes duplicates. */
  lemma SortDistinct(s: seq<nat>)
    ensures |SortAddresses(s)| == |s| && Elements(SortAddresses(s)) == Elements(s)
    ensures Distinct(s) <==> StrictlyAscending(SortAddresses(s))
  {
    var r := SortAddresses(s);
    SortOk(AddressLe, s);
    assert Elements(r) == Elements(s);
    DistinctCount(s);
    DistinctCount(r);
    assert forall i, j | 0 <= i < j < |r| :: AddressLe(r[i], r[j]);
    assert Distinct(r) <==> StrictlyAscending(r);
  }

  /** The selected addresses in slot order. */
  function Resolved(mask: nat, n: nat, resolve: nat -> nat): seq<nat> {
    if n == 0 then [] else Resolved(mask, n - 1, resolve) + if Has(mask, n) then [resolve(n)] else []
  }

  /** Two selected slots hold the same address. */
  ghost predicate Clash(mask: nat, n: nat, resolve: nat -> nat) {
    exists s: nat, t: nat | s < t :: s in Slots(mask, n) && t in Slots(mask, n) && resolve(s) == resolve(t)
  }

  lemma {:induction false} ResolvedElements(mask: nat, n: nat, resolve: nat -> nat)
    ensures |Resolved(mask, n, resolve)| == BitCount(mask, n)
    ensures forall a :: a in Resolved(mask, n, resolve) <==> exists s: nat :: s in Slots(mask, n) && resolve(s) == a
  {
    if n > 0 {
      ResolvedElements(mask, n - 1, resolve);
      assert forall s: nat :: s in Slots(mask, n) <==> s in Slots(mask, n - 1) || (s == n && Has(mask, n));
    }
  }

  lemma {:induction false} ResolvedDistinct(mask: nat, n: nat, resolve: nat -> nat)
    ensures Distinct(Resolved(mask, n, resolve)) <==> !Clash(mask, n, resolve)
  {
    if n > 0 {
      ResolvedDistinct(mask, n - 1, resolve);
      ResolvedElements(mask, n - 1, resolve);
      var before := Resolved(mask, n - 1, resolve);
      if Has(mask, n) {
        DistinctAppend(before, resolve(n));
        assert Slots(mask, n) == Slots(mask, n - 1) + {n as int};
      } else {
        assert Slots(mask, n) == Slots(mask, n - 1);
        assert Resolved(mask, n, resolve) == before;
      }
    }
  }

  /**
   * orderSignersFromSlotMap: exactly the selected addresses, strictly ascending, one per set bit.  It
   * throws (None) exactly on a bit above slot 13, a selected zero slot or a clash.
   */
  method OrderSigners(mask: nat, resolve: nat -> nat) returns (r: Option<seq<nat>>)
    ensures r.Some? <==>
              && mask < 8192
              && (forall s: nat | s in Slots(mask, MAX_VALIDATORS) :: resolve(s) != 0)
              && !Clash(mask, MAX_VALIDATORS, resolve)
    ensures r.Some? ==> StrictlyAscending(r.value) && |r.value| == BitCount(mask, MAX_VALIDATORS)
    ensures r.Some? ==>
              forall a :: a in r.value <==> exists s: nat :: s in Slots(mask, MAX_VALIDATORS) && resolve(s) == a
  {
    ShrBound(mask, MAX_VALIDATORS);
    assert Pow(2, MAX_VALIDATORS) == 8192;
    if Shr(mask, MAX_VALIDATORS) != 0 {
      return None;
    }
    var signers := CollectSigners(mask, resolve);
    if signers.None? {
      return None;
    }
    ResolvedElements(mask, MAX_VALIDATORS, resolve);
    ResolvedDistinct(mask, MAX_VALIDATORS, resolve);
    SortDistinct(signers.value);
    var sorted := SortAddresses(signers.value);
    assert forall a :: a in sorted <==> a in Elements(signers.value);
    var strict := IsStrictlyAscending(sorted);
    r := if strict then Some(sorted) else None;
  }

  /** The slot loop: the selected addresses in slot order, or None at a zero slot. */
  method CollectSigners(mask: nat, resolve: nat -> nat) returns (r: Option<seq<nat>>)
    ensures r.Some? ==> r.value == Resolved(mask, MAX_VALIDATORS, resolve)
    ensures r.None? <==> exists s: nat :: s in Slots(mask, MAX_VALIDATORS) && resolve(s) == 0
  {
    var signers: seq<nat> := [];
    var slot := 1;
    while slot <= MAX_VALIDATORS
      invariant 1 <= slot <= MAX_VALIDATORS + 1
      invariant signers == Resolved(mask, slot - 1, resolve)
      invariant forall s: nat | s in Slots(mask, slot - 1) :: resolve(s) != 0
    {
      if Has(mask, slot) {
        var addr := resolve(slot);
        if addr == 0 {
          assert slot in Slots(mask, MAX_VALIDATORS);
          return None;
        }
        signers := signers + [addr];
      }
      slot := slot + 1;
    }
    r := Some(signers);
  }

  method IsStrictlyAscending(s: seq<nat>) returns (ok: bool)
    ensures ok <==> StrictlyAscending(s)
  {
    var i := 1;
    while i < |s|
      invariant 1 <= i
      invariant forall k | 1 <= k < i && k < |s| :: s[k - 1] < s[k]
    {
      if s[i - 1] >= s[i] {
        return false;
      }
      i := i + 1;
    }
    AdjacentAscending(s);
    ok := true;
  }

  lemma {:induction false} AdjacentAscending(s: seq<nat>)
    requires forall k | 1 <= k < |s| :: s[k - 1] < s[k]
    ensures StrictlyAscending(s)
  {
    if |s| > 1 {
      var init := s[..|s| - 1];
      AdjacentAscending(init);
      assert s[|s| - 2] < s[|s| - 1];
      forall i, j | 0 <= i < j < |s| ensures s[i] < s[j] {
        if j < |s| - 1 {
          assert init[i] < init[j];
        } else if i < |s| - 2 {
          assert init[i] < init[|s| - 2];
        }
      }
    }
  }

  /** assertCanonicalSigners of the commitment builder. */
  method AssertCanonicalSigners(signers: seq<nat>) returns (ok: bool)
    ensures ok <==> StrictlyAscending(signers) && 0 !in signers
  {
    for i := 0 to |signers|
      invariant forall k | 0 <= k < i :: signers[k] != 0
      invariant forall k | 1 <= k < i :: signers[k - 1] < signers[k]
    {
      if signers[i] == 0 {
        return false;
      }
      if i > 0 && signers[i - 1] >= signers[i] {
        return false;
      }
    }
    AdjacentAscending(signers);
    ok := true;
  }

  /** assertCanonicalClaimedSigners of the fraud-proof assembler: also non-empty and at most 13. */
  method AssertCanonicalClaimedSigners(claimed: seq<nat>) returns (ok: bool)
    ensures ok <==> 1 <= |claimed| <= MAX_VALIDATORS && StrictlyAscending(claimed) && 0 !in claimed
  {
    if |claimed| == 0 || |claimed| > MAX_VALIDATORS {
      return false;
    }
    ok := AssertCanonicalSigners(claimed);
  }

  // ---- The watcher's record ------------------------------------------------------------------

  /** The decoded verifyAndExecute call, as far as the signer set needs it. */
  datatype Call = Call(proposalId: nat, signerMask: nat, messageHash: nat)

  datatype SignerRecord = SignerRecord(
    proposalId: nat,
    signerMask: nat,
    claimedSigners: seq<nat>,
    commitment: nat,
    commitmentVerified: bool)

  /** What the builder reads: the decoded transaction, the slot map at the execution block, the stored commitment. */
  datatype Source = Source(call: Option<Call>, slotAt: nat -> nat, onChain: nat)

  /** A record can be built: the call is this proposal's and its mask selects distinct, registered signers. */
  ghost predicate Buildable(src: Source, proposalId: nat) {
    && src.call.Some? && src.call.value.proposalId == proposalId && src.call.value.signerMask < 8192
    && !Clash(src.call.value.signerMask, MAX_VALIDATORS, src.slotAt)
    && forall s: nat | s in Slots(src.call.value.signerMask, MAX_VALIDATORS) :: src.slotAt(s) != 0
  }

  /** A list is the canonical signer set of a call. */
  ghost predicate IsSignerSet(src: Source, signers: seq<nat>)
    requires src.call.Some?
  {
    && StrictlyAscending(signers)
    && forall a :: a in signers <==>
         exists s: nat :: s in Slots(src.call.value.signerMask, MAX_VALIDATORS) && src.slotAt(s) == a
  }

  /** The stored commitment is the one over the canonical signer set. */
  ghost predicate Verifies(src: Source, proposalId: nat, commit: (nat, nat, nat, seq<nat>) -> nat)
    requires src.call.Some?
  {
    && src.onChain != 0
    && exists signers :: IsSignerSet(src, signers)
         && commit(proposalId, src.call.value.messageHash, src.call.value.signerMask, signers) == src.onChain
  }

  lemma {:induction false} SignerSetUnique(a: seq<nat>, b: seq<nat>)
    requires StrictlyAscending(a) && StrictlyAscending(b) && forall x :: x in a <==> x in b
    ensures a == b
  {
    assert forall i | 0 <= i < |a| :: a[i] in b;
    assert forall i | 0 <= i < |b| :: b[i] in a;
    if a != [] && b != [] {
      assert a[0] in b && b[0] in a && a[0] == b[0];
      forall x ensures x in a[1..] <==> x in b[1..] {
        assert x in a <==> x == a[0] || x in a[1..];
        assert x in b <==> x == b[0] || x in b[1..];
      }
      SignerSetUnique(a[1..], b[1..]);
      assert a == [a[0]] + a[1..] && b == [b[0]] + b[1..];
    }
  }

  /**
   * buildGuardianSignerRecord: a missing call is a transaction that was not found or not decodable, a
   * commitment of 0 is none, and `commit` is the commitment hash.
   */
  method BuildGuardianSignerRecord(src: Source, eventProposalId: nat, commit: (nat, nat, nat, seq<nat>) -> nat)
    returns (r: Option<SignerRecord>)
    ensures r.Some? <==> Buildable(src, eventProposalId)
    ensures r.Some? ==>
              && r.value.proposalId == eventProposalId
              && r.value.signerMask == src.call.value.signerMask
              && StrictlyAscending(r.value.claimedSigners) && 0 !in r.value.claimedSigners
              && |r.value.claimedSigners| == BitCount(r.value.signerMask, MAX_VALIDATORS)
              && IsSignerSet(src, r.value.claimedSigners)
              && r.value.commitment == src.onChain
              && (r.value.commitmentVerified <==> Verifies(src, eventProposalId, commit))
  {
    if src.call.None? || src.call.value.proposalId != eventProposalId {
      return None;
    }
    var mask := src.call.value.signerMask;
    var signers := OrderSigners(mask, src.slotAt);
    if signers.None? {
      return None;
    }
    var canonical := AssertCanonicalSigners(signers.value); // made by signersCommitment; never fails here
    assert canonical;
    var local := commit(eventProposalId, src.call.value.messageHash, mask, signers.value);
    assert IsSignerSet(src, signers.value);
    forall other | IsSignerSet(src, other) ensures other == signers.value {
      SignerSetUnique(other, signers.value);
    }
    r := Some(SignerRecord(eventProposalId, mask, signers.value, src.onChain, src.onChain != 0 && local == src.onChain));
  }

  /** A mask below 2^13 is non-zero exactly when it selects a slot. */
  lemma NonZeroMask(mask: nat)
    requires mask < 8192
    ensures mask != 0 <==> BitCount(mask, MAX_VALIDATORS) >= 1
  {
    SlotCount(mask, MAX_VALIDATORS);
    ShrBound(mask, MAX_VALIDATORS);
    assert Pow(2, MAX_VALIDATORS) == 8192;
    forall n: nat ensures Shr(0, n) == 0 { ShrZero(n); }
    if BitCount(mask, MAX_VALIDATORS) == 0 {
      forall s ensures Has(mask, s) <==> Has(0, s) {
        if s > MAX_VALIDATORS {
          NoHighSlots(mask, MAX_VALIDATORS, s);
        } else {
          assert s !in Slots(mask, MAX_VALIDATORS);
        }
      }
      SameSlots(mask, 0);
    } else {
      var s :| s in Slots(mask, MAX_VALIDATORS);
    }
  }

  /** Every record built from a non-zero mask passes the assembler's check; one from mask 0 never does. */
  method RecordIsAssemblable(r: SignerRecord) returns (ok: bool)
    requires r.signerMask < 8192
    requires StrictlyAscending(r.claimedSigners) && 0 !in r.claimedSigners
    requires |r.claimedSigners| == BitCount(r.signerMask, MAX_VALIDATORS)
    ensures ok <==> r.signerMask != 0
  {
    ok := AssertCanonicalClaimedSigners(r.claimedSigners);
    NonZeroMask(r.signerMask);
    SlotCount(r.signerMask, MAX_VALIDATORS);
  }
}
