// What the relayer's encoder produces is accepted by the gateway: from the encoded data to executed messages or a new
// verifier set.
module GatewayLiveness {
  import opened Prelude
  import opened Merkle
  import opened AxelarStd
  import opened VerificationSession
  import opened Gateway
  import opened GatewayRuns
  import opened GatewayInstructions

  // ---------- The relayer's transactions ----------

  function TypeOf(data: ExecuteData): PayloadType {
    if data.payloadItems.NewMessages? then ApproveMessages else RotateSigners
  }

  function KeyOf(data: ExecuteData): SessionKey {
    SessionKey(data.payloadMerkleRoot, TypeOf(data), data.signingVerifierSetMerkleRoot)
  }

  function Opening(data: ExecuteData, now: i64): Transaction {
    Transaction(OpenSession(data.payloadMerkleRoot, TypeOf(data), data.signingVerifierSetMerkleRoot), now)
  }

  function Verification(data: ExecuteData, info: SigningVerifierSetInfo, now: i64): Transaction {
    var setHash := data.signingVerifierSetMerkleRoot;
    Transaction(VerifySignature(data.payloadMerkleRoot, info, setHash, setHash), now)
  }

  function Verifications(data: ExecuteData, now: i64): seq<Transaction> {
    var infos := data.signingVerifierSetLeaves;
    seq(|infos|, i requires 0 <= i < |infos| => Verification(data, infos[i], now))
  }

  function Approval(data: ExecuteData, item: MerklizedMessage, now: i64): Transaction {
    Transaction(Approve(item, data.payloadMerkleRoot, data.signingVerifierSetMerkleRoot), now)
  }

  function Approvals(data: ExecuteData, now: i64): seq<Transaction>
    requires data.payloadItems.NewMessages?
  {
    var items := data.payloadItems.items;
    seq(|items|, i requires 0 <= i < |items| => Approval(data, items[i], now))
  }

  // Opening the session and sending every signature.
  function Signing(data: ExecuteData, now: i64): seq<Transaction> {
    [Opening(data, now)] + Verifications(data, now)
  }

  function Rotation(data: ExecuteData, operator: Option<Pubkey>, now: i64): Transaction {
    Transaction(Rotate(data.payloadMerkleRoot, data.signingVerifierSetMerkleRoot, operator), now)
  }

  lemma {:induction false} RunInTwoParts(s: State, a: seq<Transaction>, b: seq<Transaction>)
    ensures Run(s, a + b) == Run(Run(s, a), b)
  {
    if |b| == 0 {
      assert a + b == a;
    } else {
      var n := |b| - 1;
      assert (a + b)[..|a + b| - 1] == a + b[..n];
      RunInTwoParts(s, a, b[..n]);
    }
  }

  // ---------- Completing a session ----------

  // The set is registered, still retained, and of this gateway's domain.
  predicate CanSign(s: State, setHash: Hash, domain: Bytes32) {
    && setHash in s.trackers && s.trackers[setHash].verifierSetHash == setHash
    && AssertValidEpoch(s.config, s.trackers[setHash].epoch).Ok? && s.config.domainSeparator == domain
  }

  // What the session makes of these signatures.
  ghost function Tally(data: ExecuteData, infos: seq<SigningVerifierSetInfo>): Result<SessionData, SessionError> {
    var setHash := data.signingVerifierSetMerkleRoot;
    ProcessAll(Fresh(setHash), data.payloadMerkleRoot, setHash, infos)
  }

  // The session has processed these signatures and nothing else changed.
  ghost predicate Processed(s: State, after: State, data: ExecuteData, infos: seq<SigningVerifierSetInfo>) {
    && after.config == s.config && after.trackers == s.trackers && after.messages == s.messages
    && KeyOf(data) in after.sessions
    && Tally(data, infos) == Ok(after.sessions[KeyOf(data)])
  }

  lemma OneMoreSignature(s: State, after: State, data: ExecuteData, infos: seq<SigningVerifierSetInfo>,
                         info: SigningVerifierSetInfo, domain: Bytes32, now: i64)
    requires CanSign(s, data.signingVerifierSetMerkleRoot, domain) && Processed(s, after, data, infos)
    requires info.payloadType == TypeOf(data) && info.leaf.domainSeparator == domain
    requires Tally(data, infos + [info]).Ok?
    ensures Processed(s, Step(after, Verification(data, info, now)), data, infos + [info])
  {
    assert (infos + [info])[..|infos|] == infos;
  }

  lemma NextSignature(s: State, inSession: State, data: ExecuteData, n: nat, domain: Bytes32, now: i64)
    requires n < |data.signingVerifierSetLeaves| && CanSign(s, data.signingVerifierSetMerkleRoot, domain)
    requires Processed(s, Run(inSession, Verifications(data, now)[..n]), data, data.signingVerifierSetLeaves[..n])
    requires data.signingVerifierSetLeaves[n].payloadType == TypeOf(data)
    requires data.signingVerifierSetLeaves[n].leaf.domainSeparator == domain
    requires Tally(data, data.signingVerifierSetLeaves[..n + 1]).Ok?
    ensures Processed(s, Run(inSession, Verifications(data, now)[..n + 1]), data,
                      data.signingVerifierSetLeaves[..n + 1])
  {
    var infos, txs := data.signingVerifierSetLeaves, Verifications(data, now);
    assert infos[..n + 1] == infos[..n] + [infos[n]];
    assert txs[..n + 1][..n] == txs[..n];
    OneMoreSignature(s, Run(inSession, txs[..n]), data, infos[..n], infos[n], domain, now);
  }

  lemma {:induction false} SignaturesAreProcessed(
    s: State, inSession: State, data: ExecuteData, n: nat, domain: Bytes32, now: i64)
    requires n <= |data.signingVerifierSetLeaves|
    requires CanSign(s, data.signingVerifierSetMerkleRoot, domain) && Processed(s, inSession, data, [])
    requires forall info :: info in data.signingVerifierSetLeaves ==>
      info.payloadType == TypeOf(data) && info.leaf.domainSeparator == domain
    requires Tally(data, data.signingVerifierSetLeaves[..n]).Ok?
    ensures Processed(s, Run(inSession, Verifications(data, now)[..n]), data, data.signingVerifierSetLeaves[..n])
  {
    if n == 0 {
    } else {
      var infos := data.signingVerifierSetLeaves;
      assert infos[..n][..n - 1] == infos[..n - 1];
      SignaturesAreProcessed(s, inSession, data, n - 1, domain, now);
      NextSignature(s, inSession, data, n - 1, domain, now);
    }
  }

  // Valid signatures of a retained set of at most 256 verifiers that together meet its quorum, over an encoded payload.
  ghost predicate HonestlySigned(
    s: State, vs: VerifierSet, signatures: map<PublicKey, Signature>, payload: Payload, data: ExecuteData)
  {
    && |vs.signers| <= SLOTS && Encode(vs, signatures, s.config.domainSeparator, payload) == Ok(data)
    && (forall key :: key in signatures ==>
      signatures[key] == Signed(key, TypeOfPayload(payload), data.payloadMerkleRoot))
    && (exists i :: 0 <= i < |vs.signers| && vs.signers[i].pubkey in signatures)
    && SignedWeight(vs, signatures, |vs.signers|) >= vs.quorum
    && CanSign(s, data.signingVerifierSetMerkleRoot, s.config.domainSeparator)
  }

  // The session is complete, and it is all that changed.
  ghost predicate SessionCompleted(s: State, after: State, data: ExecuteData) {
    && after.config == s.config && after.trackers == s.trackers && after.messages == s.messages
    && KeyOf(data) in after.sessions && after.sessions[KeyOf(data)].IsValid()
    && after.sessions[KeyOf(data)].signingVerifierSetHash == data.signingVerifierSetMerkleRoot
  }

  lemma EncodedSessionsComplete(
    s: State, vs: VerifierSet, signatures: map<PublicKey, Signature>, payload: Payload, data: ExecuteData, now: i64)
    requires HonestlySigned(s, vs, signatures, payload, data) && KeyOf(data) !in s.sessions
    ensures SessionCompleted(s, Run(s, Signing(data, now)), data)
  {
    var domain, infos := s.config.domainSeparator, data.signingVerifierSetLeaves;
    var inSession, verifications := Step(s, Opening(data, now)), Verifications(data, now);
    assert Processed(s, inSession, data, []);
    EmittedInfosFitTheGateway(vs, signatures, domain, payload, data);
    EncodedSessionSucceeds(vs, signatures, domain, payload, data);
    assert infos[..|infos|] == infos && verifications[..|infos|] == verifications;
    SignaturesAreProcessed(s, inSession, data, |infos|, domain, now);
    assert [Opening(data, now)][..0] == [];
    assert Run(s, [Opening(data, now)]) == inSession;
    RunInTwoParts(s, [Opening(data, now)], verifications);
  }

  lemma EmittedInfosFitTheGateway(
    vs: VerifierSet, signatures: map<PublicKey, Signature>, domain: Bytes32, payload: Payload, data: ExecuteData)
    requires Encode(vs, signatures, domain, payload) == Ok(data)
    ensures TypeOf(data) == TypeOfPayload(payload)
    ensures forall info :: info in data.signingVerifierSetLeaves ==>
      info.payloadType == TypeOf(data) && info.leaf.domainSeparator == domain
  {
    var leaves := SetLeaves(vs, domain).value;
    SignerInfosAreEmittedInOrder(leaves, signatures, TypeOfPayload(payload), |leaves|);
  }

  // ---------- Approving the items of a batch ----------

  function ApprovedEntry(message: Message): IncomingMessage {
    IncomingMessage(Approved, Leaf(Msg(message)), message.payloadHash)
  }

  // The accounts after the first n items: whoever comes first takes a command id nobody had.
  function AfterBatch(accounts: map<CommandId, IncomingMessage>, messages: seq<Message>, n: nat)
    : map<CommandId, IncomingMessage>
    requires n <= |messages|
  {
    if n == 0 then accounts
    else
      var before, id := AfterBatch(accounts, messages, n - 1), CommandIdOf(messages[n - 1]);
      if id in before then before else before[id := ApprovedEntry(messages[n - 1])]
  }

  // The session is complete and the encoded items carry these messages with proofs that verify.
  ghost predicate ReadyToApprove(s: State, data: ExecuteData, messages: seq<Message>) {
    && KeyOf(data) in s.sessions && s.sessions[KeyOf(data)].IsValid()
    && s.sessions[KeyOf(data)].signingVerifierSetHash == data.signingVerifierSetMerkleRoot
    && data.payloadItems.NewMessages? && |data.payloadItems.items| == |messages|
    && forall i :: 0 <= i < |messages| ==>
      ItemFits(s.config.domainSeparator, data.payloadMerkleRoot, data.payloadItems.items[i], messages[i])
  }

  ghost predicate ItemFits(domain: Bytes32, payloadRoot: Hash, item: MerklizedMessage, message: Message) {
    && item.leaf.message == message && item.leaf.domainSeparator == domain
    && VerifyLeaf(payloadRoot, MsgLeaf(item.leaf), item.proof)
  }

  lemma {:induction false} ItemsAreApprovedInOrder(s: State, data: ExecuteData, messages: seq<Message>, n: nat,
      now: i64)
    requires n <= |messages| && ReadyToApprove(s, data, messages)
    ensures var after := Run(s, Approvals(data, now)[..n]);
      && after.messages == AfterBatch(s.messages, messages, n)
      && after.config == s.config && after.sessions == s.sessions
  {
    if n == 0 {
    } else {
      var txs := Approvals(data, now);
      assert txs[..n][..n - 1] == txs[..n - 1];
      ItemsAreApprovedInOrder(s, data, messages, n - 1, now);
      var before := Run(s, txs[..n - 1]);
      OneMoreItem(before, data, data.payloadItems.items[n - 1], messages[n - 1], now);
    }
  }

  lemma OneMoreItem(s: State, data: ExecuteData, item: MerklizedMessage, message: Message, now: i64)
    requires KeyOf(data) in s.sessions && s.sessions[KeyOf(data)].IsValid() && TypeOf(data) == ApproveMessages
    requires s.sessions[KeyOf(data)].signingVerifierSetHash == data.signingVerifierSetMerkleRoot
    requires ItemFits(s.config.domainSeparator, data.payloadMerkleRoot, item, message)
    ensures var after, id := Step(s, Approval(data, item, now)), CommandIdOf(message);
      && after.config == s.config && after.sessions == s.sessions
      && after.messages == if id in s.messages then s.messages else s.messages[id := ApprovedEntry(message)]
  {}

  // The first message with that command id, or n when there is none among the first n.
  function FirstUse(messages: seq<Message>, id: CommandId, n: nat): (j: nat)
    requires n <= |messages|
    ensures j <= n && (j < n ==> CommandIdOf(messages[j]) == id)
    ensures forall k :: 0 <= k < j ==> CommandIdOf(messages[k]) != id
  {
    if n == 0 then 0
    else
      var j := FirstUse(messages, id, n - 1);
      if j < n - 1 || CommandIdOf(messages[n - 1]) == id then j else n
  }

  lemma {:induction false} FirstUseTakesTheId(
    accounts: map<CommandId, IncomingMessage>, messages: seq<Message>, id: CommandId, n: nat)
    requires n <= |messages|
    ensures var j, after := FirstUse(messages, id, n), AfterBatch(accounts, messages, n);
      if id in accounts then id in after && after[id] == accounts[id]
      else (id in after <==> j < n) && (j < n ==> after[id] == ApprovedEntry(messages[j]))
  {
    if n == 0 {
    } else {
      FirstUseTakesTheId(accounts, messages, id, n - 1);
    }
  }

  predicate ApprovedAs(s: State, message: Message) {
    CommandIdOf(message) in s.messages && s.messages[CommandIdOf(message)] == ApprovedEntry(message)
  }

  // ---------- From encoding to approval and rotation ----------

  /** Whatever the encoder emits for an honestly signed batch is accepted. After opening a session, sending every
      signature and approving every item, a message whose command id was new is approved exactly as encoded if and only
      if it is the first one of the batch with that id; ids that were in use keep their message. */
  lemma EncodedBatchesAreApproved(
    s: State, vs: VerifierSet, signatures: map<PublicKey, Signature>, messages: seq<Message>, data: ExecuteData,
        now: i64)
    requires HonestlySigned(s, vs, signatures, Messages(messages), data) && KeyOf(data) !in s.sessions
    ensures data.payloadItems.NewMessages?
    ensures forall i :: 0 <= i < |messages| ==>
      BatchOutcome(s, Run(s, Signing(data, now) + Approvals(data, now)), messages, i)
  {
    var domain := s.config.domainSeparator;
    EncodedProofsVerify(vs, signatures, domain, Messages(messages), data);
    EncodedSessionsComplete(s, vs, signatures, Messages(messages), data, now);
    var signed, approvals := Run(s, Signing(data, now)), Approvals(data, now);
    ItemsAreApprovedInOrder(signed, data, messages, |messages|, now);
    assert approvals[..|messages|] == approvals;
    RunInTwoParts(s, Signing(data, now), approvals);
    forall i | 0 <= i < |messages|
      ensures BatchOutcome(s, Run(signed, approvals), messages, i)
    {
      FirstUseTakesTheId(s.messages, messages, CommandIdOf(messages[i]), |messages|);
    }
  }

  ghost predicate BatchOutcome(s: State, after: State, messages: seq<Message>, i: nat)
    requires i < |messages|
  {
    var id := CommandIdOf(messages[i]);
    && id in after.messages
    && (id in s.messages ==> after.messages[id] == s.messages[id])
    && (id !in s.messages ==>
          (ApprovedAs(after, messages[i]) <==> messages[FirstUse(messages, id, |messages|)] == messages[i]))
  }

  // ---------- From approval to execution ----------

  // The destination program of a message asks for it; a destination that is no key has no program to ask.
  function Delivery(message: Message, now: i64): Transaction {
    var caller := match message.destinationAddress
      case Key(program) => SigningPda(CommandIdOf(message), program)
      case Text(_) => OtherAccount(0);
    Transaction(Validate(message, caller), now)
  }

  function Deliveries(messages: seq<Message>, now: i64): seq<Transaction> {
    seq(|messages|, i requires 0 <= i < |messages| => Delivery(messages[i], now))
  }

  predicate AsksFor(message: Message, id: CommandId, messageHash: Hash) {
    CommandIdOf(message) == id && message.destinationAddress.Key? && messageHash == Leaf(Msg(message))
  }

  // Among the first n messages is the one approved under this command id, and it is addressed to a program.
  ghost predicate AskedFor(accounts: map<CommandId, IncomingMessage>, messages: seq<Message>, n: nat, id: CommandId)
    requires n <= |messages|
  {
    && id in accounts && accounts[id].status == Approved
    && exists k :: 0 <= k < n && AsksFor(messages[k], id, accounts[id].messageHash)
  }

  function DeliveredEntry(entry: IncomingMessage, asked: bool): IncomingMessage {
    if asked then entry.(status := Executed) else entry
  }

  // Exactly the messages asked for so far are executed.
  ghost predicate Delivered(s: State, after: State, messages: seq<Message>, n: nat)
    requires n <= |messages|
  {
    && after.messages.Keys == s.messages.Keys
    && forall id :: id in s.messages ==>
      after.messages[id] == DeliveredEntry(s.messages[id], AskedFor(s.messages, messages, n, id))
  }

  lemma OneMoreAsks(accounts: map<CommandId, IncomingMessage>, messages: seq<Message>, n: nat, id: CommandId)
    requires n < |messages| && id in accounts
    ensures AskedFor(accounts, messages, n + 1, id) <==>
      || AskedFor(accounts, messages, n, id)
      || (accounts[id].status == Approved && AsksFor(messages[n], id, accounts[id].messageHash))
  {}

  lemma OneMoreDelivery(s: State, before: State, messages: seq<Message>, n: nat, now: i64)
    requires n < |messages| && Delivered(s, before, messages, n)
    ensures Delivered(s, Step(before, Delivery(messages[n], now)), messages, n + 1)
  {
    var message, id, tx := messages[n], CommandIdOf(messages[n]), Delivery(messages[n], now);
    var after := Step(before, tx);
    ApprovedMessagesExecute(before, message, tx.instruction.caller, now);
    forall other | other in s.messages
      ensures after.messages[other] == DeliveredEntry(s.messages[other], AskedFor(s.messages, messages, n + 1, other))
    {
      OneMoreAsks(s.messages, messages, n, other);
    }
  }

  lemma {:induction false} MessagesAreDelivered(s: State, messages: seq<Message>, n: nat, now: i64)
    requires n <= |messages|
    ensures Delivered(s, Run(s, Deliveries(messages, now)[..n]), messages, n)
  {
    if n == 0 {
    } else {
      var txs := Deliveries(messages, now);
      assert txs[..n][..n - 1] == txs[..n - 1];
      MessagesAreDelivered(s, messages, n - 1, now);
      OneMoreDelivery(s, Run(s, txs[..n - 1]), messages, n - 1, now);
    }
  }

  /** From the encoder to the destination: after opening a session, sending every signature, approving every item and
      letting every destination program ask, a message with a new command id is executed, with the hashes it was encoded
      with, if and only if it is the first of the batch with that id and addressed to a program. */
  lemma EncodedMessagesAreExecuted(
    s: State, vs: VerifierSet, signatures: map<PublicKey, Signature>, messages: seq<Message>, data: ExecuteData,
    now: i64)
    requires HonestlySigned(s, vs, signatures, Messages(messages), data) && KeyOf(data) !in s.sessions
    ensures data.payloadItems.NewMessages?
    ensures var after := Run(s, Signing(data, now) + Approvals(data, now) + Deliveries(messages, now));
      forall i :: 0 <= i < |messages| ==> DeliveryOutcome(s, after, messages, i)
  {
    EncodedBatchesAreApproved(s, vs, signatures, messages, data, now);
    var approving, deliveries := Signing(data, now) + Approvals(data, now), Deliveries(messages, now);
    var approved := Run(s, approving);
    RunInTwoParts(s, approving, deliveries);
    MessagesAreDelivered(approved, messages, |messages|, now);
    assert deliveries[..|messages|] == deliveries;
    forall i | 0 <= i < |messages|
      ensures DeliveryOutcome(s, Run(approved, deliveries), messages, i)
    {
      assert BatchOutcome(s, approved, messages, i);
      assert BatchOutcome(s, approved, messages, FirstUse(messages, CommandIdOf(messages[i]), |messages|));
      FirstIsExecuted(s, approved, Run(approved, deliveries), messages, i);
    }
  }

  lemma FirstIsExecuted(s: State, approved: State, after: State, messages: seq<Message>, i: nat)
    requires i < |messages| && Delivered(approved, after, messages, |messages|)
    requires BatchOutcome(s, approved, messages, i)
    requires BatchOutcome(s, approved, messages, FirstUse(messages, CommandIdOf(messages[i]), |messages|))
    ensures DeliveryOutcome(s, after, messages, i)
  {
    var id := CommandIdOf(messages[i]);
    var first := FirstUse(messages, id, |messages|);
    if id !in s.messages {
      assert FirstUse(messages, CommandIdOf(messages[first]), |messages|) == first;
      ApprovedAreAskedFor(approved, messages, first);
    }
  }

  lemma ApprovedAreAskedFor(approved: State, messages: seq<Message>, i: nat)
    requires i < |messages| && ApprovedAs(approved, messages[i])
    ensures AskedFor(approved.messages, messages, |messages|, CommandIdOf(messages[i]))
      <==> messages[i].destinationAddress.Key?
  {
    if messages[i].destinationAddress.Key? {
      assert AsksFor(messages[i], CommandIdOf(messages[i]), approved.messages[CommandIdOf(messages[i])].messageHash);
    }
  }

  // The message is the first of the batch with its command id and addressed to a program.
  predicate IsDeliverable(s: State, messages: seq<Message>, i: nat)
    requires i < |messages|
  {
    var id := CommandIdOf(messages[i]);
    messages[i].destinationAddress.Key? && messages[FirstUse(messages, id, |messages|)] == messages[i]
  }

  ghost predicate DeliveryOutcome(s: State, after: State, messages: seq<Message>, i: nat)
    requires i < |messages|
  {
    var id := CommandIdOf(messages[i]);
    && id in after.messages
    && (id !in s.messages ==>
          (after.messages[id] == IncomingMessage(Executed, Leaf(Msg(messages[i])), messages[i].payloadHash)
           <==> IsDeliverable(s, messages, i)))
  }

  // The new set is unknown, and either the operator signs or the latest set has waited out the delay.
  predicate MayRotate(s: State, data: ExecuteData, operator: Option<Pubkey>, now: i64)
    requires data.signingVerifierSetMerkleRoot in s.trackers
  {
    && data.payloadMerkleRoot !in s.trackers && now >= 0 && s.config.currentEpoch < U256_MAX
    && (operator == Some(s.config.operator) ||
        (s.trackers[data.signingVerifierSetMerkleRoot].epoch == s.config.currentEpoch
         && s.config.lastRotationTimestamp + s.config.minimumRotationDelay <= now))
  }

  /** Whatever the encoder emits for an honestly signed verifier set is accepted. After opening a session and sending
      every signature, the rotation succeeds if and only if the set is new and either the operator signs or the signing
      set is the latest and the delay has passed; it then registers the hash of the new set under the next epoch. */
  lemma EncodedRotationsSucceed(
    s: State, vs: VerifierSet, signatures: map<PublicKey, Signature>, newSet: VerifierSet, data: ExecuteData,
    operator: Option<Pubkey>, now: i64)
    requires HonestlySigned(s, vs, signatures, NewVerifierSet(newSet), data) && KeyOf(data) !in s.sessions
    ensures VerifierSetHash(newSet, s.config.domainSeparator) == Ok(data.payloadMerkleRoot)
    ensures var rotated := Execute(Run(s, Signing(data, now)), Rotation(data, operator, now));
      && (rotated.Ok? <==> MayRotate(s, data, operator, now))
      && (rotated.Ok? ==> RotatedTo(s, rotated.value, data.payloadMerkleRoot, now))
  {
    EncodedProofsVerify(vs, signatures, s.config.domainSeparator, NewVerifierSet(newSet), data);
    EncodedSessionsComplete(s, vs, signatures, NewVerifierSet(newSet), data, now);
    CompletedRotation(s, Run(s, Signing(data, now)), data, operator, now);
  }

  predicate RotatedTo(s: State, after: State, newHash: Hash, now: i64) {
    && s.config.currentEpoch < U256_MAX && 0 <= now
    && after.trackers == s.trackers[newHash := VerifierSetTracker(s.config.currentEpoch + 1, newHash)]
    && after.config == s.config.(currentEpoch := s.config.currentEpoch + 1, lastRotationTimestamp := now)
  }

  lemma CompletedRotation(s: State, signed: State, data: ExecuteData, operator: Option<Pubkey>, now: i64)
    requires SessionCompleted(s, signed, data) && TypeOf(data) == RotateSigners
    requires CanSign(s, data.signingVerifierSetMerkleRoot, s.config.domainSeparator)
    ensures var rotated := Execute(signed, Rotation(data, operator, now));
      && (rotated.Ok? <==> MayRotate(s, data, operator, now))
      && (rotated.Ok? ==> RotatedTo(s, rotated.value, data.payloadMerkleRoot, now))
  {}
}
