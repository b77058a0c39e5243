// The signature verification session of one payload: slots, saturating weight, and the jump to the maximum.
module VerificationSession {
  import opened Prelude
  import opened Merkle
  import opened AxelarStd

  datatype SessionError =
    | SlotIsOutOfBounds
    | SlotAlreadyVerified
    | InvalidMerkleProof
    | SignatureVerificationFailed
    | InvalidDigitalSignature

  const SLOT_BYTES: nat := 32
  const SLOTS: nat := 256

  // ---------- The bit field ----------

  function Mask(bit: nat): bv8
    requires bit < 8
  {
    [1 as bv8, 2, 4, 8, 16, 32, 64, 128][bit]
  }

  predicate SlotDone(slots: seq<bv8>, position: nat)
    requires |slots| == SLOT_BYTES && position < SLOTS
  {
    slots[position / 8] & Mask(position % 8) != 0
  }

  function MarkSlot(slots: seq<bv8>, position: nat): seq<bv8>
    requires |slots| == SLOT_BYTES && position < SLOTS
  {
    slots[position / 8 := slots[position / 8] | Mask(position % 8)]
  }

  ghost function DoneSlots(slots: seq<bv8>): set<nat>
    requires |slots| == SLOT_BYTES
  {
    set p: nat | p < SLOTS && SlotDone(slots, p)
  }

  lemma MaskedBits(byte: bv8, i: nat, j: nat)
    requires i < 8 && j < 8
    ensures ((byte | Mask(i)) & Mask(j) != 0) <==> (i == j || byte & Mask(j) != 0)
  {}

  /** The slot of a position is one bit of one byte: byte position / 8, bit position % 8 counted from the lowest. */
  lemma SlotsAreBits(slots: seq<bv8>, position: nat)
    requires |slots| == SLOT_BYTES && position < 256
    ensures SlotDone(slots, position) <==> (slots[position / 8] >> (position % 8)) & 1 == 1
  {
    BitIsShift(slots[position / 8], position % 8);
  }

  lemma BitIsShift(byte: bv8, bit: nat)
    requires bit < 8
    ensures byte & Mask(bit) != 0 <==> (byte >> bit) & 1 == 1
  {
    match bit
    case 0 => assert byte & 1 != 0 <==> (byte >> 0) & 1 == 1;
    case 1 => assert byte & 2 != 0 <==> (byte >> 1) & 1 == 1;
    case 2 => assert byte & 4 != 0 <==> (byte >> 2) & 1 == 1;
    case 3 => assert byte & 8 != 0 <==> (byte >> 3) & 1 == 1;
    case 4 => assert byte & 16 != 0 <==> (byte >> 4) & 1 == 1;
    case 5 => assert byte & 32 != 0 <==> (byte >> 5) & 1 == 1;
    case 6 => assert byte & 64 != 0 <==> (byte >> 6) & 1 == 1;
    case 7 => assert byte & 128 != 0 <==> (byte >> 7) & 1 == 1;
  }

  /** Setting a bit adds that position to the done ones and no other. */
  lemma MarkSlotAddsPosition(slots: seq<bv8>, position: nat)
    requires |slots| == SLOT_BYTES && position < SLOTS
    ensures DoneSlots(MarkSlot(slots, position)) == DoneSlots(slots) + {position}
  {
    forall p: nat | p < SLOTS
      ensures SlotDone(MarkSlot(slots, position), p) <==> p == position || SlotDone(slots, p)
    {
      MarkedSlot(slots, position, p);
    }
  }

  lemma MarkedSlot(slots: seq<bv8>, position: nat, p: nat)
    requires |slots| == SLOT_BYTES && position < SLOTS && p < SLOTS
    ensures SlotDone(MarkSlot(slots, position), p) <==> p == position || SlotDone(slots, p)
  {
    if p / 8 == position / 8 {
      MarkedByte(slots[p / 8], MarkSlot(slots, position)[p / 8], position % 8, p % 8);
      PositionsInOneByte(position, p);
    }
  }

  lemma MarkedByte(before: bv8, after: bv8, i: nat, j: nat)
    requires i < 8 && j < 8 && after == before | Mask(i)
    ensures after & Mask(j) != 0 <==> i == j || before & Mask(j) != 0
  {
    MaskedBits(before, i, j);
  }

  lemma PositionsInOneByte(position: nat, p: nat)
    requires p / 8 == position / 8
    ensures p % 8 == position % 8 <==> p == position
  {}

  lemma ByteFromBits(a: bv8, b: bv8)
    requires forall i :: 0 <= i < 8 ==> (a & Mask(i) != 0 <==> b & Mask(i) != 0)
    ensures a == b
  {
    assert a & Mask(0) != 0 <==> b & Mask(0) != 0;
    assert a & Mask(1) != 0 <==> b & Mask(1) != 0;
    assert a & Mask(2) != 0 <==> b & Mask(2) != 0;
    assert a & Mask(3) != 0 <==> b & Mask(3) != 0;
    assert a & Mask(4) != 0 <==> b & Mask(4) != 0;
    assert a & Mask(5) != 0 <==> b & Mask(5) != 0;
    assert a & Mask(6) != 0 <==> b & Mask(6) != 0;
    assert a & Mask(7) != 0 <==> b & Mask(7) != 0;
  }

  lemma DoneSlotsDetermineSlots(a: seq<bv8>, b: seq<bv8>)
    requires |a| == |b| == SLOT_BYTES && DoneSlots(a) == DoneSlots(b)
    ensures a == b
  {
    forall k | 0 <= k < SLOT_BYTES
      ensures a[k] == b[k]
    {
      forall i | 0 <= i < 8
        ensures a[k] & Mask(i) != 0 <==> b[k] & Mask(i) != 0
      {
        DoneSlotIsBit(a, k, i);
        DoneSlotIsBit(b, k, i);
      }
      ByteFromBits(a[k], b[k]);
    }
  }

  lemma DoneSlotIsBit(slots: seq<bv8>, byte: nat, bit: nat)
    requires |slots| == SLOT_BYTES && byte < SLOT_BYTES && bit < 8
    ensures 8 * byte + bit in DoneSlots(slots) <==> slots[byte] & Mask(bit) != 0
  {
    assert (8 * byte + bit) / 8 == byte && (8 * byte + bit) % 8 == bit;
  }

  // ---------- What processing a signature does to a session ----------

  datatype SessionData = SessionData(
    accumulatedThreshold: u128, signatureSlots: seq<bv8>, signingVerifierSetHash: Hash)
  {
    predicate IsValid() {
      accumulatedThreshold == U128_MAX
    }
  }

  function ZeroSlots(): (slots: seq<bv8>)
    ensures |slots| == SLOT_BYTES
  {
    seq(SLOT_BYTES, i => 0)
  }

  function Fresh(setHash: Hash): SessionData {
    SessionData(0, ZeroSlots(), setHash)
  }

  lemma FreshHasNoSlots(setHash: Hash)
    ensures DoneSlots(Fresh(setHash).signatureSlots) == {}
  {
    forall p: nat | p < SLOTS
      ensures !SlotDone(ZeroSlots(), p)
    {
      assert ZeroSlots()[p / 8] == 0;
    }
  }

  // Saturating addition, then the jump to the maximum once the quorum is met.
  function AddWeight(accumulated: u128, weight: u128, quorum: u128): u128 {
    var sum := Min(accumulated + weight, U128_MAX);
    if sum >= quorum then U128_MAX else sum
  }

  function Record(s: SessionData, leaf: VerifierSetLeaf): SessionData
    requires |s.signatureSlots| == SLOT_BYTES && leaf.position < SLOTS
  {
    s.(accumulatedThreshold := AddWeight(s.accumulatedThreshold, leaf.signerWeight, leaf.quorum),
       signatureSlots := MarkSlot(s.signatureSlots, leaf.position))
  }

  function ProcessedBy(s: SessionData, payloadRoot: Hash, setRoot: Hash, info: SigningVerifierSetInfo)
    : Result<SessionData, SessionError>
    requires |s.signatureSlots| == SLOT_BYTES
  {
    if info.leaf.position >= SLOTS then Err(SlotIsOutOfBounds)
    else if SlotDone(s.signatureSlots, info.leaf.position) then Err(SlotAlreadyVerified)
    else if !VerifyLeaf(setRoot, SetLeaf(info.leaf), info.merkleProof) then Err(InvalidMerkleProof)
    else if !VerifyEcdsaSignature(info.leaf.signerPubkey, info.signature, info.payloadType, payloadRoot) then
      Err(SignatureVerificationFailed)
    else if s.signingVerifierSetHash != setRoot then Err(InvalidDigitalSignature)
    else Ok(Record(s, info.leaf))
  }

  // ---------- The session account, updated in place ----------

  class SignatureVerificationSession {
    var accumulatedThreshold: u128
    const signatureSlots: array<bv8>
    var signingVerifierSetHash: Hash

    ghost predicate Valid() {
      signatureSlots.Length == SLOT_BYTES
    }

    function View(): SessionData
      reads this, signatureSlots
    {
      SessionData(accumulatedThreshold, signatureSlots[..], signingVerifierSetHash)
    }

    // Loads the account's data.
    constructor (data: SessionData)
      requires |data.signatureSlots| == SLOT_BYTES
      ensures Valid() && fresh(signatureSlots) && View() == data
    {
      accumulatedThreshold := data.accumulatedThreshold;
      signingVerifierSetHash := data.signingVerifierSetHash;
      var slots := new bv8[SLOT_BYTES](i requires 0 <= i < SLOT_BYTES => data.signatureSlots[i]);
      signatureSlots := slots;
      new;
      assert signatureSlots[..] == data.signatureSlots;
    }

    method CheckSlotIsDone(leaf: VerifierSetLeaf) returns (r: Result<(), SessionError>)
      requires Valid()
      ensures r == if leaf.position >= SLOTS then Err(SlotIsOutOfBounds)
                   else if SlotDone(signatureSlots[..], leaf.position) then Err(SlotAlreadyVerified)
                   else Ok(())
    {
      if leaf.position >= SLOTS {
        return Err(SlotIsOutOfBounds);
      }
      var done := signatureSlots[leaf.position / 8] & Mask(leaf.position % 8) != 0;
      r := if done then Err(SlotAlreadyVerified) else Ok(());
    }

    method MarkSlotDone(leaf: VerifierSetLeaf) returns (r: Result<(), SessionError>)
      requires Valid()
      modifies signatureSlots
      ensures r.Ok? <==> leaf.position < SLOTS && !SlotDone(old(signatureSlots[..]), leaf.position)
      ensures r.Ok? ==> signatureSlots[..] == MarkSlot(old(signatureSlots[..]), leaf.position)
      ensures r.Err? ==> signatureSlots[..] == old(signatureSlots[..])
    {
      if leaf.position >= SLOTS {
        return Err(SlotIsOutOfBounds);
      }
      var byte, mask := leaf.position / 8, Mask(leaf.position % 8);
      if signatureSlots[byte] & mask != 0 {
        return Err(SlotAlreadyVerified);
      }
      signatureSlots[byte] := signatureSlots[byte] | mask;
      r := Ok(());
    }

    method AccumulateThreshold(leaf: VerifierSetLeaf)
      modifies this`accumulatedThreshold
      ensures accumulatedThreshold == AddWeight(old(accumulatedThreshold), leaf.signerWeight, leaf.quorum)
    {
      accumulatedThreshold := if leaf.signerWeight <= U128_MAX - accumulatedThreshold
        then accumulatedThreshold + leaf.signerWeight else U128_MAX;
      if accumulatedThreshold >= leaf.quorum {
        accumulatedThreshold := U128_MAX;
      }
    }

    /** Every error but the last leaves the session as it was; after the last the caller's transaction is undone. */
    method ProcessSignature(payloadRoot: Hash, setRoot: Hash, info: SigningVerifierSetInfo)
      returns (r: Result<(), SessionError>)
      requires Valid()
      modifies this`accumulatedThreshold, signatureSlots
      ensures var spec := ProcessedBy(old(View()), payloadRoot, setRoot, info);
        if spec.Ok? then r == Ok(()) && View() == spec.value
        else r == Err(spec.error) && (spec.error != InvalidDigitalSignature ==> View() == old(View()))
    {
      var checked := CheckSlotIsDone(info.leaf);
      if checked.Err? {
        return checked;
      }
      if info.merkleProof.None? {
        return Err(InvalidMerkleProof);
      }
      if !Verify(setRoot, info.leaf.position, Leaf(SetLeaf(info.leaf)), info.leaf.setSize, info.merkleProof.value) {
        return Err(InvalidMerkleProof);
      }
      if !VerifyEcdsaSignature(info.leaf.signerPubkey, info.signature, info.payloadType, payloadRoot) {
        return Err(SignatureVerificationFailed);
      }
      AccumulateThreshold(info.leaf);
      var marked := MarkSlotDone(info.leaf);
      if marked.Err? {
        return marked;
      }
      r := if signingVerifierSetHash != setRoot then Err(InvalidDigitalSignature) else Ok(());
    }
  }

  // ---------- Sessions over one verifier set ----------

  // The weight of the leaves among the first n whose positions are done.
  ghost function WeightOf(leaves: seq<VerifierSetLeaf>, done: set<nat>, n: nat): nat
    requires n <= |leaves|
  {
    if n == 0 then 0
    else WeightOf(leaves, done, n - 1) + (if n - 1 in done then leaves[n - 1].signerWeight else 0)
  }

  lemma {:induction false} WeightOfOneMore(leaves: seq<VerifierSetLeaf>, done: set<nat>, p: nat, n: nat)
    requires n <= |leaves| && p !in done
    ensures WeightOf(leaves, done + {p}, n)
         == WeightOf(leaves, done, n) + (if p < n then leaves[p].signerWeight else 0)
  {
    if n == 0 {
    } else {
      WeightOfOneMore(leaves, done, p, n - 1);
    }
  }

  /** The session's whole state as a function of which verifiers signed: order and saturation have left no trace. */
  ghost predicate Tallied(s: SessionData, vs: VerifierSet, domain: Bytes32, done: set<nat>)
    requires SetLeaves(vs, domain).Ok?
  {
    var leaves := SetLeaves(vs, domain).value;
    var weight := WeightOf(leaves, done, |leaves|);
    && |s.signatureSlots| == SLOT_BYTES
    && DoneSlots(s.signatureSlots) == done
    && (forall p :: p in done ==> p < |leaves|)
    && s.accumulatedThreshold == if done != {} && weight >= vs.quorum then U128_MAX else weight
  }

  lemma {:induction false} WeightOfNone(leaves: seq<VerifierSetLeaf>, n: nat)
    requires n <= |leaves|
    ensures WeightOf(leaves, {}, n) == 0
  {
    if n == 0 {
    } else {
      WeightOfNone(leaves, n - 1);
    }
  }

  lemma FreshIsTallied(vs: VerifierSet, domain: Bytes32, setHash: Hash)
    requires SetLeaves(vs, domain).Ok?
    ensures Tallied(Fresh(setHash), vs, domain, {})
  {
    FreshHasNoSlots(setHash);
    WeightOfNone(SetLeaves(vs, domain).value, |vs.signers|);
  }

  lemma RecordKeepsTally(s: SessionData, vs: VerifierSet, domain: Bytes32, done: set<nat>, leaf: VerifierSetLeaf)
    requires SetLeaves(vs, domain).Ok? && Tallied(s, vs, domain, done)
    requires leaf.position < |vs.signers| && leaf == SetLeaves(vs, domain).value[leaf.position]
    requires leaf.position < SLOTS && leaf.position !in done
    ensures Tallied(Record(s, leaf), vs, domain, done + {leaf.position})
  {
    MarkSlotAddsPosition(s.signatureSlots, leaf.position);
    WeightOfOneMore(SetLeaves(vs, domain).value, done, leaf.position, |vs.signers|);
  }

  // ---------- A whole session, one signature after another ----------

  ghost function ProcessAll(s: SessionData, payloadRoot: Hash, setRoot: Hash, infos: seq<SigningVerifierSetInfo>)
    : (r: Result<SessionData, SessionError>)
    requires |s.signatureSlots| == SLOT_BYTES
    ensures r.Ok? ==> |r.value.signatureSlots| == SLOT_BYTES
    ensures r.Ok? ==> r.value.signingVerifierSetHash == s.signingVerifierSetHash
  {
    if |infos| == 0 then Ok(s)
    else
      var before :- ProcessAll(s, payloadRoot, setRoot, infos[..|infos| - 1]);
      ProcessedBy(before, payloadRoot, setRoot, infos[|infos| - 1])
  }

  // What one signature needs, whatever came before it.
  predicate Acceptable(payloadRoot: Hash, setRoot: Hash, info: SigningVerifierSetInfo) {
    && info.leaf.position < SLOTS
    && VerifyLeaf(setRoot, SetLeaf(info.leaf), info.merkleProof)
    && VerifyEcdsaSignature(info.leaf.signerPubkey, info.signature, info.payloadType, payloadRoot)
  }

  ghost predicate DistinctPositions(infos: seq<SigningVerifierSetInfo>) {
    forall i, j :: 0 <= i < j < |infos| ==> infos[i].leaf.position != infos[j].leaf.position
  }

  ghost predicate DistinctSigners(infos: seq<SigningVerifierSetInfo>) {
    forall i, j :: 0 <= i < j < |infos| ==> infos[i].leaf.signerPubkey != infos[j].leaf.signerPubkey
  }

  ghost function Positions(infos: seq<SigningVerifierSetInfo>): set<nat> {
    set info | info in infos :: info.leaf.position
  }

  // The unbounded sum of the weights the infos carry.
  ghost function TotalWeight(infos: seq<SigningVerifierSetInfo>): nat {
    if |infos| == 0 then 0
    else TotalWeight(infos[..|infos| - 1]) + infos[|infos| - 1].leaf.signerWeight
  }

  lemma PositionsOfPrefix(infos: seq<SigningVerifierSetInfo>)
    requires |infos| > 0
    ensures Positions(infos) == Positions(infos[..|infos| - 1]) + {infos[|infos| - 1].leaf.position}
  {
    var before, last := infos[..|infos| - 1], infos[|infos| - 1];
    assert infos == before + [last];
  }

  /** The slots of a session are the positions of the signatures it accepted, whatever set they are of. */
  lemma {:induction false} SlotsAreThePositions(setRoot: Hash, payloadRoot: Hash, infos: seq<SigningVerifierSetInfo>)
    requires ProcessAll(Fresh(setRoot), payloadRoot, setRoot, infos).Ok?
    ensures DoneSlots(ProcessAll(Fresh(setRoot), payloadRoot, setRoot, infos).value.signatureSlots) == Positions(infos)
  {
    if |infos| == 0 {
      FreshHasNoSlots(setRoot);
      assert Positions(infos) == {};
    } else {
      var before, last := infos[..|infos| - 1], infos[|infos| - 1];
      SlotsAreThePositions(setRoot, payloadRoot, before);
      var s := ProcessAll(Fresh(setRoot), payloadRoot, setRoot, before).value;
      MarkSlotAddsPosition(s.signatureSlots, last.leaf.position);
      PositionsOfPrefix(infos);
    }
  }

  // What AcceptedExactlyWhenDistinct says of one list.
  ghost predicate AcceptedIffDistinct(
    vs: VerifierSet, domain: Bytes32, payloadRoot: Hash, infos: seq<SigningVerifierSetInfo>)
    requires VerifierSetHash(vs, domain).Ok?
  {
    var setRoot := VerifierSetHash(vs, domain).value;
    var end := ProcessAll(Fresh(setRoot), payloadRoot, setRoot, infos);
    && (end.Ok? <==> DistinctPositions(infos) && forall info :: info in infos ==>
      Acceptable(payloadRoot, setRoot, info))
    && (end.Ok? ==>
          && Tallied(end.value, vs, domain, Positions(infos))
          && WeightOf(SetLeaves(vs, domain).value, Positions(infos), |vs.signers|) == TotalWeight(infos))
  }

  lemma OneMoreIsDistinct(before: seq<SigningVerifierSetInfo>, last: SigningVerifierSetInfo)
    ensures DistinctPositions(before + [last]) <==>
      DistinctPositions(before) && last.leaf.position !in Positions(before)
  {
    var infos := before + [last];
    if DistinctPositions(infos) {
      assert forall i :: 0 <= i < |before| ==>
        infos[i] == before[i] && infos[i].leaf.position != infos[|before|].leaf.position;
    }
    if DistinctPositions(before) && last.leaf.position !in Positions(before) {
      forall i, j | 0 <= i < j < |infos|
        ensures infos[i].leaf.position != infos[j].leaf.position
      {
        assert infos[i] in before && infos[i].leaf.position in Positions(before);
      }
    }
  }

  lemma OneMoreIsTallied(
    vs: VerifierSet, domain: Bytes32, payloadRoot: Hash, s: SessionData,
    before: seq<SigningVerifierSetInfo>, last: SigningVerifierSetInfo)
    requires VerifierSetHash(vs, domain).Ok? && Tallied(s, vs, domain, Positions(before))
    requires Acceptable(payloadRoot, VerifierSetHash(vs, domain).value, last)
      && last.leaf.position !in Positions(before)
    ensures Tallied(Record(s, last.leaf), vs, domain, Positions(before + [last]))
    ensures var leaves := SetLeaves(vs, domain).value;
      WeightOf(leaves, Positions(before + [last]), |leaves|)
        == WeightOf(leaves, Positions(before), |leaves|) + last.leaf.signerWeight
  {
    var leaves, infos := SetLeaves(vs, domain).value, before + [last];
    assert infos[..|infos| - 1] == before;
    PositionsOfPrefix(infos);
    SetMembership(vs, domain, SetLeaf(last.leaf), last.merkleProof);
    RecordKeepsTally(s, vs, domain, Positions(before), last.leaf);
    WeightOfOneMore(leaves, Positions(before), last.leaf.position, |leaves|);
  }

  lemma ProcessOneMore(
    s: SessionData, payloadRoot: Hash, setRoot: Hash, before: seq<SigningVerifierSetInfo>, last: SigningVerifierSetInfo)
    requires |s.signatureSlots| == SLOT_BYTES
    ensures var start := ProcessAll(s, payloadRoot, setRoot, before);
      ProcessAll(s, payloadRoot, setRoot, before + [last])
      == if start.Err? then start else ProcessedBy(start.value, payloadRoot, setRoot, last)
  {
    assert (before + [last])[..|before|] == before;
  }

  // A tallied session takes one more signature if it is acceptable and its position is new.
  lemma TalliedTakesOneMore(
    vs: VerifierSet, domain: Bytes32, payloadRoot: Hash, s: SessionData,
    before: seq<SigningVerifierSetInfo>, last: SigningVerifierSetInfo)
    requires VerifierSetHash(vs, domain).Ok? && Tallied(s, vs, domain, Positions(before))
    requires s.signingVerifierSetHash == VerifierSetHash(vs, domain).value
    ensures var setRoot := VerifierSetHash(vs, domain).value;
      var next := ProcessedBy(s, payloadRoot, setRoot, last);
      && (next.Ok? <==> Acceptable(payloadRoot, setRoot, last) && last.leaf.position !in Positions(before))
      && (next.Ok? ==> next.value == Record(s, last.leaf))
  {}

  lemma OneMoreIsAccepted(
    vs: VerifierSet, domain: Bytes32, payloadRoot: Hash,
    before: seq<SigningVerifierSetInfo>, last: SigningVerifierSetInfo)
    requires VerifierSetHash(vs, domain).Ok? && AcceptedIffDistinct(vs, domain, payloadRoot, before)
    ensures AcceptedIffDistinct(vs, domain, payloadRoot, before + [last])
  {
    var setRoot := VerifierSetHash(vs, domain).value;
    var infos := before + [last];
    OneMoreIsDistinct(before, last);
    ProcessOneMore(Fresh(setRoot), payloadRoot, setRoot, before, last);
    var start := ProcessAll(Fresh(setRoot), payloadRoot, setRoot, before);
    assert (forall info :: info in infos ==> Acceptable(payloadRoot, setRoot, info)) <==>
      (forall info :: info in before ==> Acceptable(payloadRoot, setRoot, info))
      && Acceptable(payloadRoot, setRoot, last);
    if start.Ok? {
      TalliedTakesOneMore(vs, domain, payloadRoot, start.value, before, last);
      if Acceptable(payloadRoot, setRoot, last) && last.leaf.position !in Positions(before) {
        OneMoreIsTallied(vs, domain, payloadRoot, start.value, before, last);
        assert infos[..|infos| - 1] == before;
      }
    }
  }

  /** A fresh session accepts a list exactly when each signature is acceptable by itself and no position repeats;
      its state is then the tally of those positions. */
  lemma {:induction false} AcceptedExactlyWhenDistinct(
    vs: VerifierSet, domain: Bytes32, payloadRoot: Hash, infos: seq<SigningVerifierSetInfo>)
    requires VerifierSetHash(vs, domain).Ok?
    ensures AcceptedIffDistinct(vs, domain, payloadRoot, infos)
  {
    if |infos| == 0 {
      FreshIsTallied(vs, domain, VerifierSetHash(vs, domain).value);
      WeightOfNone(SetLeaves(vs, domain).value, |vs.signers|);
      assert Positions(infos) == {};
    } else {
      var before, last := infos[..|infos| - 1], infos[|infos| - 1];
      AcceptedExactlyWhenDistinct(vs, domain, payloadRoot, before);
      OneMoreIsAccepted(vs, domain, payloadRoot, before, last);
      assert infos == before + [last];
    }
  }

  /** The quorum is exact: a session that accepted these signatures is valid if and only if there was at least one
      and their weights, summed without bound, reach the quorum; its slots are the positions of the signers, who are
      distinct members of the set. */
  lemma QuorumIsExact(
    vs: VerifierSet, domain: Bytes32, payloadRoot: Hash, infos: seq<SigningVerifierSetInfo>, end: SessionData)
    requires VerifierSetHash(vs, domain).Ok?
    requires var setRoot := VerifierSetHash(vs, domain).value;
      ProcessAll(Fresh(setRoot), payloadRoot, setRoot, infos) == Ok(end)
    ensures end.IsValid() <==> |infos| > 0 && TotalWeight(infos) >= vs.quorum
    ensures |end.signatureSlots| == SLOT_BYTES && DoneSlots(end.signatureSlots) == Positions(infos)
    ensures DistinctPositions(infos) && (vs.Valid() ==> DistinctSigners(infos))
    ensures forall info :: info in infos ==>
      && info.leaf.position < |vs.signers|
      && info.leaf == SetLeaves(vs, domain).value[info.leaf.position]
      && info.signature == Signed(info.leaf.signerPubkey, info.payloadType, payloadRoot)
  {
    AcceptedExactlyWhenDistinct(vs, domain, payloadRoot, infos);
    if |infos| > 0 {
      assert infos[0].leaf.position in Positions(infos);
    }
    forall info | info in infos
      ensures info.leaf.position < |vs.signers|
      ensures info.leaf == SetLeaves(vs, domain).value[info.leaf.position]
    {
      SetMembership(vs, domain, SetLeaf(info.leaf), info.merkleProof);
    }
    if vs.Valid() {
      DistinctMembersHaveDistinctKeys(vs, domain, infos);
    }
  }

  // In a set that is a map from keys, distinct positions are distinct keys.
  lemma DistinctMembersHaveDistinctKeys(vs: VerifierSet, domain: Bytes32, infos: seq<SigningVerifierSetInfo>)
    requires SetLeaves(vs, domain).Ok? && vs.Valid() && DistinctPositions(infos)
    requires forall info :: info in infos ==>
      info.leaf.position < |vs.signers| && info.leaf == SetLeaves(vs, domain).value[info.leaf.position]
    ensures DistinctSigners(infos)
  {
    forall i, j | 0 <= i < j < |infos|
      ensures infos[i].leaf.signerPubkey != infos[j].leaf.signerPubkey
    {
      var p, q := infos[i].leaf.position, infos[j].leaf.position;
      assert infos[i] in infos && infos[j] in infos && p != q;
      assert vs.signers[if p < q then p else q].pubkey < vs.signers[if p < q then q else p].pubkey;
    }
  }

  lemma TwiceMeansTwoPlaces<T>(s: seq<T>, x: T) returns (i: nat, j: nat)
    requires multiset(s)[x] >= 2
    ensures i < j < |s| && s[i] == s[j] == x
  {
    assert x in s;
    i :| 0 <= i < |s| && s[i] == x;
    var rest := s[..i] + s[i + 1..];
    assert s == s[..i] + [x] + s[i + 1..];
    assert x in multiset(rest);
    assert x in rest;
    var k :| 0 <= k < |rest| && rest[k] == x;
    i, j := if k < i then k else i, if k < i then i else k + 1;
  }

  lemma RearrangedStayDistinct(a: seq<SigningVerifierSetInfo>, b: seq<SigningVerifierSetInfo>)
    requires multiset(a) == multiset(b) && DistinctPositions(a)
    ensures DistinctPositions(b)
  {
    forall i, j | 0 <= i < j < |b|
      ensures b[i].leaf.position != b[j].leaf.position
    {
      assert b[i] in multiset(a) && b[j] in multiset(a);
      if b[i] == b[j] {
        assert b == b[..i] + [b[i]] + b[i + 1..j] + [b[j]] + b[j + 1..];
        assert multiset(b)[b[i]] >= 2;
        var k, l := TwiceMeansTwoPlaces(a, b[i]);
        assert false;
      }
    }
  }

  /** The order of the signatures does not matter: any rearrangement of an accepted list is accepted and leaves the
      same session, byte for byte. */
  lemma OrderDoesNotMatter(
    vs: VerifierSet, domain: Bytes32, payloadRoot: Hash,
    a: seq<SigningVerifierSetInfo>, b: seq<SigningVerifierSetInfo>)
    requires VerifierSetHash(vs, domain).Ok? && multiset(a) == multiset(b)
    requires var setRoot := VerifierSetHash(vs, domain).value;
      ProcessAll(Fresh(setRoot), payloadRoot, setRoot, a).Ok?
    ensures var setRoot := VerifierSetHash(vs, domain).value;
      ProcessAll(Fresh(setRoot), payloadRoot, setRoot, b) == ProcessAll(Fresh(setRoot), payloadRoot, setRoot, a)
  {
    var setRoot := VerifierSetHash(vs, domain).value;
    AcceptedExactlyWhenDistinct(vs, domain, payloadRoot, a);
    AcceptedExactlyWhenDistinct(vs, domain, payloadRoot, b);
    RearrangedStayDistinct(a, b);
    forall info
      ensures info in a <==> info in b
    {
      assert info in a <==> info in multiset(a);
      assert info in b <==> info in multiset(b);
    }
    assert Positions(a) == Positions(b);
    DoneSlotsDetermineSlots(
      ProcessAll(Fresh(setRoot), payloadRoot, setRoot, a).value.signatureSlots,
      ProcessAll(Fresh(setRoot), payloadRoot, setRoot, b).value.signatureSlots);
  }

  // ---------- Honest relayers succeed ----------

  // The combined weight of the first n verifiers of the set that have signed.
  ghost function SignedWeight(vs: VerifierSet, signatures: map<PublicKey, Signature>, n: nat): nat
    requires n <= |vs.signers|
  {
    if n == 0 then 0
    else
      SignedWeight(vs, signatures, n - 1)
      + if vs.signers[n - 1].pubkey in signatures then vs.signers[n - 1].weight else 0
  }

  lemma {:induction false} EmittedWeight(
    vs: VerifierSet, signatures: map<PublicKey, Signature>, domain: Bytes32, payloadType: PayloadType, n: nat)
    requires SetLeaves(vs, domain).Ok? && n <= |vs.signers|
    ensures TotalWeight(SignerInfos(SetLeaves(vs, domain).value, signatures, payloadType, n))
         == SignedWeight(vs, signatures, n)
  {
    if n == 0 {
    } else {
      EmittedWeight(vs, signatures, domain, payloadType, n - 1);
      var leaves := SetLeaves(vs, domain).value;
      var before, infos := SignerInfos(leaves, signatures, payloadType, n - 1),
        SignerInfos(leaves, signatures, payloadType, n);
      if vs.signers[n - 1].pubkey in signatures {
        assert infos[..|infos| - 1] == before;
      }
    }
  }

  lemma SomeoneSignedIffEmitted(
    vs: VerifierSet, signatures: map<PublicKey, Signature>, domain: Bytes32, payloadType: PayloadType)
    requires SetLeaves(vs, domain).Ok?
    ensures |SignerInfos(SetLeaves(vs, domain).value, signatures, payloadType, |vs.signers|)| > 0 <==>
      exists i :: 0 <= i < |vs.signers| && vs.signers[i].pubkey in signatures
  {
    var leaves := SetLeaves(vs, domain).value;
    var infos := SignerInfos(leaves, signatures, payloadType, |leaves|);
    SignerInfosAreEmittedInOrder(leaves, signatures, payloadType, |leaves|);
    if i :| 0 <= i < |vs.signers| && vs.signers[i].pubkey in signatures {
      assert leaves[i].signerPubkey in signatures;
      var info :| info in infos && info.leaf == leaves[i];
    }
    if |infos| > 0 {
      assert infos[0] in infos && vs.signers[infos[0].leaf.position].pubkey in signatures;
    }
  }

  lemma EmittedInfosAreAcceptable(
    vs: VerifierSet, signatures: map<PublicKey, Signature>, domain: Bytes32, payload: Payload, data: ExecuteData)
    requires |vs.signers| <= SLOTS && Encode(vs, signatures, domain, payload) == Ok(data)
    requires forall key :: key in signatures ==>
      signatures[key] == Signed(key, TypeOfPayload(payload), data.payloadMerkleRoot)
    ensures DistinctPositions(data.signingVerifierSetLeaves)
    ensures forall info :: info in data.signingVerifierSetLeaves ==>
      Acceptable(data.payloadMerkleRoot, data.signingVerifierSetMerkleRoot, info)
  {
    EncodedProofsVerify(vs, signatures, domain, payload, data);
    SignerInfosAreEmittedInOrder(SetLeaves(vs, domain).value, signatures, TypeOfPayload(payload), |vs.signers|);
  }

  /** Honest completeness: for a set of at most 256 verifiers whose signatures are genuine, all infos the encoder
      emits are accepted by a fresh session, which is then valid exactly when someone signed and the weight of those
      who signed reaches the quorum. */
  lemma EncodedSessionSucceeds(
    vs: VerifierSet, signatures: map<PublicKey, Signature>, domain: Bytes32, payload: Payload, data: ExecuteData)
    requires |vs.signers| <= SLOTS && Encode(vs, signatures, domain, payload) == Ok(data)
    requires forall key :: key in signatures ==>
      signatures[key] == Signed(key, TypeOfPayload(payload), data.payloadMerkleRoot)
    ensures var end := ProcessAll(Fresh(data.signingVerifierSetMerkleRoot), data.payloadMerkleRoot,
                                  data.signingVerifierSetMerkleRoot, data.signingVerifierSetLeaves);
      && end.Ok?
      && (end.value.IsValid() <==>
            && (exists i :: 0 <= i < |vs.signers| && vs.signers[i].pubkey in signatures)
            && SignedWeight(vs, signatures, |vs.signers|) >= vs.quorum)
  {
    var setRoot := data.signingVerifierSetMerkleRoot;
    EmittedInfosAreAcceptable(vs, signatures, domain, payload, data);
    AcceptedExactlyWhenDistinct(vs, domain, data.payloadMerkleRoot, data.signingVerifierSetLeaves);
    var end := ProcessAll(Fresh(setRoot), data.payloadMerkleRoot, setRoot, data.signingVerifierSetLeaves);
    QuorumIsExact(vs, domain, data.payloadMerkleRoot, data.signingVerifierSetLeaves, end.value);
    EmittedWeight(vs, signatures, domain, TypeOfPayload(payload), |vs.signers|);
    SomeoneSignedIffEmitted(vs, signatures, domain, TypeOfPayload(payload));
  }
}
