// Verifier sets, messages, the leaves they are merklized into, and the relayer's encoder.
//
// The 33 bytes of a verifier key are read as a number, whose order is the key order of the BTreeMap.
// Domain separators, Solana keys and payload hashes are 32-byte strings read as numbers.
module AxelarStd {
  import opened Prelude
  import opened Merkle

  type PublicKey = nat
  type Pubkey = nat
  type Bytes32 = nat

  datatype PayloadType = ApproveMessages | RotateSigners

  datatype EncodingError = CannotMerklizeEmptyVerifierSet | CannotMerklizeEmptyMessageSet | SetSizeTooLarge

  // ---------- Verifier sets ----------

  datatype Signer = Signer(pubkey: PublicKey, weight: u128)

  datatype VerifierSet = VerifierSet(nonce: u64, signers: seq<Signer>, quorum: u128)
  {
    /** The signers are the entries of a BTreeMap, in key order. */
    ghost predicate Valid() {
      forall i, j :: 0 <= i < j < |signers| ==> signers[i].pubkey < signers[j].pubkey
    }
  }

  datatype VerifierSetLeaf = VerifierSetLeaf(
    nonce: u64, quorum: u128, signerPubkey: PublicKey, signerWeight: u128,
    position: u16, setSize: u16, domainSeparator: Bytes32)

  // ---------- Messages ----------

  datatype CrossChainId = CrossChainId(chain: string, id: string)

  // A destination either reads as a Solana key or is some text that does not.
  datatype Address = Key(key: Pubkey) | Text(text: string)

  datatype Message = Message(
    ccId: CrossChainId, sourceAddress: string, destinationChain: string, destinationAddress: Address,
    payloadHash: Bytes32)

  datatype MessageLeaf = MessageLeaf(message: Message, position: u16, setSize: u16, domainSeparator: Bytes32)

  // The command id is the hash of this joined text, so the text itself stands for it.
  type CommandId = string

  function CommandIdOf(message: Message): CommandId {
    message.ccId.chain + "-" + message.ccId.id
  }

  // ---------- Hashes ----------

  datatype Content = SetLeaf(verifier: VerifierSetLeaf) | MsgLeaf(item: MessageLeaf) | Msg(message: Message)
  {
    function Position(): nat {
      match this
      case SetLeaf(v) => v.position
      case MsgLeaf(m) => m.position
      case Msg(_) => 0
    }

    function SetSize(): nat {
      match this
      case SetLeaf(v) => v.setSize
      case MsgLeaf(m) => m.setSize
      case Msg(_) => 0
    }
  }

  type Hash = Digest<Content>

  // Proof bytes: None when their length is not a multiple of the hash size.
  type ProofBytes = Option<seq<Hash>>

  predicate VerifyLeaf(root: Hash, content: Content, proof: ProofBytes) {
    proof.Some? && Verify(root, content.Position(), Leaf(content), content.SetSize(), proof.value)
  }

  // ---------- Leaves and roots ----------

  function SetLeaves(vs: VerifierSet, domain: Bytes32): Result<seq<VerifierSetLeaf>, EncodingError> {
    if |vs.signers| > U16_MAX then Err(SetSizeTooLarge)
    else
      Ok(seq(|vs.signers|, i requires 0 <= i < |vs.signers| =>
        VerifierSetLeaf(vs.nonce, vs.quorum, vs.signers[i].pubkey, vs.signers[i].weight, i, |vs.signers|, domain)))
  }

  function MessageLeaves(messages: seq<Message>, domain: Bytes32): Result<seq<MessageLeaf>, EncodingError> {
    if |messages| > U16_MAX then Err(SetSizeTooLarge)
    else
      Ok(seq(|messages|, i requires 0 <= i < |messages| => MessageLeaf(messages[i], i, |messages|, domain)))
  }

  function SetContents(leaves: seq<VerifierSetLeaf>): seq<Content> {
    seq(|leaves|, i requires 0 <= i < |leaves| => SetLeaf(leaves[i]))
  }

  function MessageContents(leaves: seq<MessageLeaf>): seq<Content> {
    seq(|leaves|, i requires 0 <= i < |leaves| => MsgLeaf(leaves[i]))
  }

  function VerifierSetHash(vs: VerifierSet, domain: Bytes32): Result<Hash, EncodingError> {
    var leaves :- SetLeaves(vs, domain);
    match Root(SetContents(leaves))
    case None => Err(CannotMerklizeEmptyVerifierSet)
    case Some(root) => Ok(root)
  }

  function MessagesRoot(messages: seq<Message>, domain: Bytes32): Result<Hash, EncodingError> {
    var leaves :- MessageLeaves(messages, domain);
    match Root(MessageContents(leaves))
    case None => Err(CannotMerklizeEmptyMessageSet)
    case Some(root) => Ok(root)
  }

  /** A leaf that verifies against the hash of a verifier set is the leaf of that set at its position. */
  lemma SetMembership(vs: VerifierSet, domain: Bytes32, content: Content, proof: ProofBytes)
    requires VerifierSetHash(vs, domain).Ok? && VerifyLeaf(VerifierSetHash(vs, domain).value, content, proof)
    ensures content.SetLeaf? && content.verifier.position < |vs.signers|
    ensures content.verifier == SetLeaves(vs, domain).value[content.verifier.position]
  {
    var contents := SetContents(SetLeaves(vs, domain).value);
    VerifiedLeafIsTheOneAtItsPosition(
      contents, (c: Content) => c.Position(), (c: Content) => c.SetSize(), content, proof.value);
  }

  /** A leaf that verifies against the root of a message batch is the leaf of that batch at its position. */
  lemma MessageMembership(messages: seq<Message>, domain: Bytes32, content: Content, proof: ProofBytes)
    requires MessagesRoot(messages, domain).Ok? && VerifyLeaf(MessagesRoot(messages, domain).value, content, proof)
    ensures content.MsgLeaf? && content.item.position < |messages|
    ensures content.item == MessageLeaves(messages, domain).value[content.item.position]
  {
    var contents := MessageContents(MessageLeaves(messages, domain).value);
    VerifiedLeafIsTheOneAtItsPosition(
      contents, (c: Content) => c.Position(), (c: Content) => c.SetSize(), content, proof.value);
  }

  /** A verifier set hash determines the whole set and its domain. */
  lemma VerifierSetHashIsInjective(a: VerifierSet, domainA: Bytes32, b: VerifierSet, domainB: Bytes32)
    requires VerifierSetHash(a, domainA).Ok? && VerifierSetHash(a, domainA) == VerifierSetHash(b, domainB)
    ensures a == b && domainA == domainB
  {
    var as', bs := SetContents(SetLeaves(a, domainA).value), SetContents(SetLeaves(b, domainB).value);
    EqualRootsMeanEqualLeaves(as', bs, (c: Content) => c.Position(), (c: Content) => c.SetSize());
    assert as'[0] == bs[0];
    forall i | 0 <= i < |a.signers|
      ensures a.signers[i] == b.signers[i]
    {
      assert as'[i] == bs[i];
    }
    assert a.signers == b.signers;
  }

  /** A message root determines the batch, its order and its domain. */
  lemma MessagesRootIsInjective(a: seq<Message>, domainA: Bytes32, b: seq<Message>, domainB: Bytes32)
    requires MessagesRoot(a, domainA).Ok? && MessagesRoot(a, domainA) == MessagesRoot(b, domainB)
    ensures a == b && domainA == domainB
  {
    var as', bs := MessageContents(MessageLeaves(a, domainA).value), MessageContents(MessageLeaves(b, domainB).value);
    EqualRootsMeanEqualLeaves(as', bs, (c: Content) => c.Position(), (c: Content) => c.SetSize());
    assert as'[0] == bs[0];
    forall i | 0 <= i < |a|
      ensures a[i] == b[i]
    {
      assert as'[i] == bs[i];
    }
  }

  // ---------- Signatures ----------

  // A recoverable signature is one key's signature over a payload type and a payload root, or no signature at all.
  datatype Signature = Signed(signer: PublicKey, payloadType: PayloadType, payloadRoot: Hash) | Garbage(id: nat)

  predicate VerifyEcdsaSignature(pubkey: PublicKey, signature: Signature, payloadType: PayloadType, payloadRoot: Hash) {
    signature == Signed(pubkey, payloadType, payloadRoot)
  }

  // ---------- The encoder ----------

  datatype SigningVerifierSetInfo = SigningVerifierSetInfo(
    signature: Signature, leaf: VerifierSetLeaf, merkleProof: ProofBytes, payloadType: PayloadType)

  datatype MerklizedMessage = MerklizedMessage(leaf: MessageLeaf, proof: ProofBytes)

  datatype Payload = Messages(messages: seq<Message>) | NewVerifierSet(verifierSet: VerifierSet)

  datatype MerklizedPayload =
    | VerifierSetRotation(newVerifierSetMerkleRoot: Hash)
    | NewMessages(items: seq<MerklizedMessage>)

  datatype ExecuteData = ExecuteData(
    signingVerifierSetMerkleRoot: Hash, signingVerifierSetLeaves: seq<SigningVerifierSetInfo>,
    payloadMerkleRoot: Hash, payloadItems: MerklizedPayload)

  function TypeOfPayload(payload: Payload): PayloadType {
    if payload.Messages? then ApproveMessages else RotateSigners
  }

  // The infos of the first n leaves whose verifier has signed.
  function SignerInfos(
    leaves: seq<VerifierSetLeaf>, signatures: map<PublicKey, Signature>, payloadType: PayloadType, n: nat)
    : seq<SigningVerifierSetInfo>
    requires n <= |leaves|
  {
    if n == 0 then []
    else
      var leaf := leaves[n - 1];
      var before := SignerInfos(leaves, signatures, payloadType, n - 1);
      if leaf.signerPubkey in signatures then
        before + [SigningVerifierSetInfo(
          signatures[leaf.signerPubkey], leaf, Some(Proof(SetContents(leaves), n - 1)), payloadType)]
      else before
  }

  function HashPayload(payload: Payload, domain: Bytes32): Result<(Hash, MerklizedPayload), EncodingError> {
    match payload
    case Messages(messages) =>
      var root :- MessagesRoot(messages, domain);
      var leaves :- MessageLeaves(messages, domain);
      Ok((root, NewMessages(seq(|leaves|, i requires 0 <= i < |leaves| =>
        MerklizedMessage(leaves[i], Some(Proof(MessageContents(leaves), i)))))))
    case NewVerifierSet(vs) =>
      var root :- VerifierSetHash(vs, domain);
      Ok((root, VerifierSetRotation(root)))
  }

  function Encode(vs: VerifierSet, signatures: map<PublicKey, Signature>, domain: Bytes32, payload: Payload)
    : Result<ExecuteData, EncodingError>
  {
    var leaves :- SetLeaves(vs, domain);
    var setRoot :- VerifierSetHash(vs, domain);
    var (payloadRoot, items) :- HashPayload(payload, domain);
    Ok(ExecuteData(
      setRoot, SignerInfos(leaves, signatures, TypeOfPayload(payload), |leaves|), payloadRoot, items))
  }

  /** The encoder fails exactly on an empty set, an empty payload, or one with more than 65535 entries;
      a position never fails to convert. */
  lemma EncodeSucceedsIff(vs: VerifierSet, signatures: map<PublicKey, Signature>, domain: Bytes32, payload: Payload)
    ensures Encode(vs, signatures, domain, payload).Ok? <==>
      && 0 < |vs.signers| <= U16_MAX
      && 0 < (if payload.Messages? then |payload.messages| else |payload.verifierSet.signers|) <= U16_MAX
  {}

  // An emitted info is a signer's leaf with the proof generated for its place.
  ghost predicate EmittedFor(
    info: SigningVerifierSetInfo, leaves: seq<VerifierSetLeaf>, signatures: map<PublicKey, Signature>,
    payloadType: PayloadType)
  {
    var i := info.leaf.position;
    && i < |leaves| && info.leaf == leaves[i] && leaves[i].signerPubkey in signatures
    && info.signature == signatures[leaves[i].signerPubkey]
    && info.merkleProof == Some(Proof(SetContents(leaves), i)) && info.payloadType == payloadType
  }

  ghost predicate InLeafOrder(infos: seq<SigningVerifierSetInfo>) {
    forall j, k :: 0 <= j < k < |infos| ==> infos[j].leaf.position < infos[k].leaf.position
  }

  lemma {:induction false} EmittedInfosAreOfSigners(
    leaves: seq<VerifierSetLeaf>, signatures: map<PublicKey, Signature>, payloadType: PayloadType, n: nat)
    requires n <= |leaves| && forall i :: 0 <= i < |leaves| ==> leaves[i].position == i
    ensures forall info :: info in SignerInfos(leaves, signatures, payloadType, n) ==>
      info.leaf.position < n && EmittedFor(info, leaves, signatures, payloadType)
  {
    if n == 0 {
    } else {
      EmittedInfosAreOfSigners(leaves, signatures, payloadType, n - 1);
      var before := SignerInfos(leaves, signatures, payloadType, n - 1);
      forall info | info in SignerInfos(leaves, signatures, payloadType, n)
        ensures info.leaf.position < n && EmittedFor(info, leaves, signatures, payloadType)
      {
        assert info in before || info.leaf == leaves[n - 1];
      }
    }
  }

  lemma {:induction false} SignersAreEmitted(
    leaves: seq<VerifierSetLeaf>, signatures: map<PublicKey, Signature>, payloadType: PayloadType, n: nat, i: nat)
    requires i < n <= |leaves| && leaves[i].signerPubkey in signatures
    ensures exists info :: info in SignerInfos(leaves, signatures, payloadType, n) && info.leaf == leaves[i]
  {
    var before := SignerInfos(leaves, signatures, payloadType, n - 1);
    var infos := SignerInfos(leaves, signatures, payloadType, n);
    if i == n - 1 {
      assert infos[|before|].leaf == leaves[i];
    } else {
      SignersAreEmitted(leaves, signatures, payloadType, n - 1, i);
      var info :| info in before && info.leaf == leaves[i];
      assert info in infos;
    }
  }

  lemma {:induction false} EmittedInOrder(
    leaves: seq<VerifierSetLeaf>, signatures: map<PublicKey, Signature>, payloadType: PayloadType, n: nat)
    requires n <= |leaves| && forall i :: 0 <= i < |leaves| ==> leaves[i].position == i
    ensures InLeafOrder(SignerInfos(leaves, signatures, payloadType, n))
  {
    if n == 0 {
    } else {
      EmittedInOrder(leaves, signatures, payloadType, n - 1);
      EmittedInfosAreOfSigners(leaves, signatures, payloadType, n - 1);
      var before := SignerInfos(leaves, signatures, payloadType, n - 1);
      var infos := SignerInfos(leaves, signatures, payloadType, n);
      forall j, k | 0 <= j < k < |infos|
        ensures infos[j].leaf.position < infos[k].leaf.position
      {
        assert infos[j] in before;
      }
    }
  }

  /** The emitted infos are exactly the leaves of those who signed, once each and in leaf order. */
  lemma SignerInfosAreEmittedInOrder(
    leaves: seq<VerifierSetLeaf>, signatures: map<PublicKey, Signature>, payloadType: PayloadType, n: nat)
    requires n <= |leaves| && forall i :: 0 <= i < |leaves| ==> leaves[i].position == i
    ensures forall info :: info in SignerInfos(leaves, signatures, payloadType, n) ==>
      info.leaf.position < n && EmittedFor(info, leaves, signatures, payloadType)
    ensures forall i :: 0 <= i < n && leaves[i].signerPubkey in signatures ==>
      exists info :: info in SignerInfos(leaves, signatures, payloadType, n) && info.leaf == leaves[i]
    ensures InLeafOrder(SignerInfos(leaves, signatures, payloadType, n))
  {
    EmittedInfosAreOfSigners(leaves, signatures, payloadType, n);
    EmittedInOrder(leaves, signatures, payloadType, n);
    forall i | 0 <= i < n && leaves[i].signerPubkey in signatures
      ensures exists info :: info in SignerInfos(leaves, signatures, payloadType, n) && info.leaf == leaves[i]
    {
      SignersAreEmitted(leaves, signatures, payloadType, n, i);
    }
  }

  /** Every proof the encoder emits verifies: signer leaves against the set hash, message leaves against the payload
      root. */
  lemma EncodedProofsVerify(
    vs: VerifierSet, signatures: map<PublicKey, Signature>, domain: Bytes32, payload: Payload, data: ExecuteData)
    requires Encode(vs, signatures, domain, payload) == Ok(data)
    ensures VerifierSetHash(vs, domain) == Ok(data.signingVerifierSetMerkleRoot)
    ensures forall info :: info in data.signingVerifierSetLeaves ==>
      VerifyLeaf(data.signingVerifierSetMerkleRoot, SetLeaf(info.leaf), info.merkleProof)
    ensures payload.Messages? ==>
      && data.payloadItems.NewMessages? && |data.payloadItems.items| == |payload.messages|
      && forall i :: 0 <= i < |payload.messages| ==>
        && data.payloadItems.items[i].leaf.message == payload.messages[i]
        && VerifyLeaf(data.payloadMerkleRoot, MsgLeaf(data.payloadItems.items[i].leaf),
            data.payloadItems.items[i].proof)
    ensures payload.NewVerifierSet? ==> VerifierSetHash(payload.verifierSet, domain) == Ok(data.payloadMerkleRoot)
  {
    var leaves := SetLeaves(vs, domain).value;
    SignerInfosAreEmittedInOrder(leaves, signatures, TypeOfPayload(payload), |leaves|);
    forall info | info in data.signingVerifierSetLeaves
      ensures VerifyLeaf(data.signingVerifierSetMerkleRoot, SetLeaf(info.leaf), info.merkleProof)
    {
      ProofVerifies(SetContents(leaves), info.leaf.position);
    }
    if payload.Messages? {
      var items := MessageLeaves(payload.messages, domain).value;
      forall i | 0 <= i < |items|
        ensures VerifyLeaf(data.payloadMerkleRoot, MsgLeaf(items[i]), Some(Proof(MessageContents(items), i)))
      {
        ProofVerifies(MessageContents(items), i);
      }
    }
  }
}
