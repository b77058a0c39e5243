// Whole runs of the gateway: any sequence of instructions, failed ones included, under a clock that does not go back.
module GatewayRuns {
  import opened Prelude
  import opened Merkle
  import opened AxelarStd
  import opened VerificationSession
  import opened Gateway

  datatype Instruction =
    | Rotate(newSet: Hash, sessionSet: Hash, operator: Option<Pubkey>)
    | OpenSession(payloadRoot: Hash, payloadType: PayloadType, setHash: Hash)
    | VerifySignature(payloadRoot: Hash, info: SigningVerifierSetInfo, sessionSet: Hash, trackerSet: Hash)
    | Approve(merklized: MerklizedMessage, payloadRoot: Hash, sessionSet: Hash)
    | Validate(message: Message, caller: Caller)
    | TransferOperator(signer: Pubkey, upgradeAuthority: Option<Pubkey>, newOperator: Pubkey)

  datatype Transaction = Transaction(instruction: Instruction, now: i64)

  function Execute(s: State, tx: Transaction): Result<State, GatewayError> {
    match tx.instruction
    case Rotate(newSet, sessionSet, operator) => RotateSignersSpec(s, newSet, sessionSet, operator, tx.now)
    case OpenSession(root, payloadType, setHash) => OpenSessionSpec(s, root, payloadType, setHash)
    case VerifySignature(root, info, sessionSet, trackerSet) =>
      VerifySignatureSpec(s, root, info, sessionSet, trackerSet)
    case Approve(merklized, root, sessionSet) => ApproveMessageSpec(s, merklized, root, sessionSet)
    case Validate(message, caller) => ValidateMessageSpec(s, message, caller)
    case TransferOperator(signer, authority, newOperator) => TransferOperatorshipSpec(s, signer, authority, newOperator)
  }

  function Step(s: State, tx: Transaction): State {
    match Execute(s, tx)
    case Ok(after) => after
    case Err(_) => s
  }

  function Run(s: State, txs: seq<Transaction>): State {
    if |txs| == 0 then s else Step(Run(s, txs[..|txs| - 1]), txs[|txs| - 1])
  }

  /** Block times start no earlier than the given time and never go back. */
  ghost predicate ClockFrom(start: i64, txs: seq<Transaction>) {
    && (forall i :: 0 <= i < |txs| ==> start <= txs[i].now)
    && (forall i, j :: 0 <= i < j < |txs| ==> txs[i].now <= txs[j].now)
  }

  // ---------- What a log says ----------

  // The registered sets in order of their epochs, the first one being epoch 1.
  function Registry(first: Hash, log: seq<Event>): (sets: seq<Hash>)
    ensures |sets| > 0
  {
    if |log| == 0 then [first]
    else
      var before := Registry(first, log[..|log| - 1]);
      match log[|log| - 1]
      case VerifierSetRotated(newSet, _, _, _, _, _) => before + [newSet]
      case _ => before
  }

  // The signatures one session has accepted, in order.
  function Accepted(log: seq<Event>, key: SessionKey): seq<SigningVerifierSetInfo> {
    if |log| == 0 then []
    else
      var before := Accepted(log[..|log| - 1], key);
      match log[|log| - 1]
      case SignatureAccepted(k, info, _, _) => if k == key then before + [info] else before
      case _ => before
  }

  ghost predicate ApprovedIn(log: seq<Event>, id: CommandId) {
    exists i :: 0 <= i < |log| && log[i].MessageApproved? && CommandIdOf(log[i].merklized.leaf.message) == id
  }

  ghost predicate ExecutedIn(log: seq<Event>, id: CommandId) {
    exists i :: 0 <= i < |log| && log[i].MessageExecuted? && CommandIdOf(log[i].message) == id
  }

  // Replaying the session's accepted signatures from scratch.
  ghost function Replay(log: seq<Event>, key: SessionKey): Result<SessionData, SessionError> {
    ProcessAll(Fresh(key.signingVerifierSetHash), key.payloadMerkleRoot, key.signingVerifierSetHash, Accepted(log, key))
  }

  ghost predicate Completed(log: seq<Event>, key: SessionKey) {
    Replay(log, key).Ok? && Replay(log, key).value.IsValid()
  }

  // The set is registered with that epoch and the epoch is one of the latest `retention`.
  ghost predicate Retained(config: Config, sets: seq<Hash>, setHash: Hash, epoch: nat) {
    && 1 <= epoch <= |sets| && sets[epoch - 1] == setHash
    && |sets| - epoch < config.previousVerifierSetRetention
  }

  /** Why an event was allowed, told from the events before it alone. */
  ghost predicate Justified(config: Config, first: Hash, before: seq<Event>, e: Event) {
    var sets := Registry(first, before);
    match e
    case SignatureAccepted(key, info, setEpoch, currentEpoch) =>
      && info.payloadType == key.payloadType && info.leaf.domainSeparator == config.domainSeparator
      && Acceptable(key.payloadMerkleRoot, key.signingVerifierSetHash, info)
      && currentEpoch == |sets| && Retained(config, sets, key.signingVerifierSetHash, setEpoch)
    case VerifierSetRotated(newSet, signedBy, signerEpoch, epoch, at, delayEnforced) =>
      && epoch == |sets| + 1 && newSet !in sets
      && Retained(config, sets, signedBy, signerEpoch)
      && Completed(before, SessionKey(newSet, RotateSigners, signedBy))
      && (delayEnforced ==> signerEpoch == |sets|)
      && (forall i :: 0 <= i < |before| && before[i].VerifierSetRotated? ==>
            before[i].at + (if delayEnforced then config.minimumRotationDelay else 0) <= at)
      && config.lastRotationTimestamp + (if delayEnforced then config.minimumRotationDelay else 0) <= at
    case MessageApproved(key, merklized) =>
      && key.payloadType == ApproveMessages && Completed(before, key)
      && VerifyLeaf(key.payloadMerkleRoot, MsgLeaf(merklized.leaf), merklized.proof)
      && merklized.leaf.domainSeparator == config.domainSeparator
      && !ApprovedIn(before, CommandIdOf(merklized.leaf.message))
    case MessageExecuted(message, caller) =>
      && (exists i :: 0 <= i < |before| && before[i].MessageApproved? && before[i].merklized.leaf.message == message)
      && !ExecutedIn(before, CommandIdOf(message)) && message.destinationAddress.Key?
      && caller == SigningPda(CommandIdOf(message), message.destinationAddress.key)
    case OperatorshipTransferred(_) => true
  }

  // ---------- The invariant ----------

  ghost predicate TrackersMatch(first: Hash, s: State) {
    var sets := Registry(first, s.log);
    && |sets| == s.config.currentEpoch
    && (forall i, j :: 0 <= i < j < |sets| ==> sets[i] != sets[j])
    && (forall h :: h in s.trackers <==> h in sets)
    && (forall i :: 0 <= i < |sets| ==> s.trackers[sets[i]] == VerifierSetTracker(i + 1, sets[i]))
  }

  ghost predicate SessionsMatch(s: State) {
    && (forall key :: key in s.sessions ==> Replay(s.log, key) == Ok(s.sessions[key]))
    && (forall key :: key !in s.sessions ==> Accepted(s.log, key) == [])
  }

  ghost predicate MessagesMatch(s: State) {
    forall id :: MessageMatches(s, id)
  }

  ghost predicate MessageMatches(s: State, id: CommandId) {
    && (id in s.messages <==> ApprovedIn(s.log, id))
    && (id in s.messages ==>
          && (s.messages[id].status == Executed <==> ExecutedIn(s.log, id))
          && exists i :: 0 <= i < |s.log| && s.log[i].MessageApproved? &&
               CommandIdOf(s.log[i].merklized.leaf.message) == id &&
               s.messages[id].messageHash == Leaf(Msg(s.log[i].merklized.leaf.message)) &&
               s.messages[id].payloadHash == s.log[i].merklized.leaf.message.payloadHash)
  }

  ghost predicate LogJustified(config: Config, first: Hash, log: seq<Event>) {
    forall k :: 0 <= k < |log| ==> Justified(config, first, log[..k], log[k])
  }

  ghost predicate TimesMatch(s: State, now: i64) {
    && s.config.lastRotationTimestamp <= now
    && forall i :: 0 <= i < |s.log| && s.log[i].VerifierSetRotated? ==> s.log[i].at <= s.config.lastRotationTimestamp
  }

  // The parts of the configuration no instruction changes.
  ghost predicate SameRules(a: Config, b: Config) {
    && a.previousVerifierSetRetention == b.previousVerifierSetRetention
    && a.minimumRotationDelay == b.minimumRotationDelay
    && a.domainSeparator == b.domainSeparator
  }

  ghost predicate Inv(config: Config, first: Hash, s: State, now: i64) {
    && SameRules(config, s.config)
    && TrackersMatch(first, s)
    && SessionsMatch(s)
    && MessagesMatch(s)
    && LogJustified(config, first, s.log)
    && TimesMatch(s, now) && config.lastRotationTimestamp <= s.config.lastRotationTimestamp
  }

  // ---------- Each instruction keeps the invariant ----------

  lemma OneMoreEvent(config: Config, first: Hash, log: seq<Event>, e: Event)
    ensures (log + [e])[..|log|] == log
    ensures LogJustified(config, first, log) && Justified(config, first, log, e) ==>
      LogJustified(config, first, log + [e])
  {
    var more := log + [e];
    assert more[..|log|] == log;
    forall k | 0 <= k < |log|
      ensures more[..k] == log[..k]
    {}
  }

  // An event about neither messages nor sessions leaves both matching.
  lemma QuietEvent(s: State, after: State, e: Event)
    requires SessionsMatch(s) && MessagesMatch(s)
    requires e.VerifierSetRotated? || e.OperatorshipTransferred?
    requires after.log == s.log + [e] && after.sessions == s.sessions && after.messages == s.messages
    ensures SessionsMatch(after) && MessagesMatch(after)
  {
    assert after.log[..|s.log|] == s.log;
    forall key
      ensures Accepted(after.log, key) == Accepted(s.log, key)
    {}
    forall id
      ensures MessageMatches(after, id)
    {
      assert MessageMatches(s, id);
      SameMessageEvents(s, after, e, id);
    }
  }

  lemma SameMessageEvents(s: State, after: State, e: Event, id: CommandId)
    requires MessageMatches(s, id) && after.log == s.log + [e]
    requires id in after.messages <==> id in s.messages
    requires id in s.messages ==> after.messages[id] == s.messages[id]
    requires e.MessageApproved? ==> CommandIdOf(e.merklized.leaf.message) != id
    requires e.MessageExecuted? ==> CommandIdOf(e.message) != id
    ensures MessageMatches(after, id)
  {
    assert forall i :: 0 <= i < |s.log| ==> after.log[i] == s.log[i];
    if id in s.messages {
      var i :| 0 <= i < |s.log| && s.log[i].MessageApproved? &&
               CommandIdOf(s.log[i].merklized.leaf.message) == id &&
               s.messages[id].messageHash == Leaf(Msg(s.log[i].merklized.leaf.message)) &&
               s.messages[id].payloadHash == s.log[i].merklized.leaf.message.payloadHash;
      assert after.log[i] == s.log[i];
      if ExecutedIn(s.log, id) {
        var j :| 0 <= j < |s.log| && s.log[j].MessageExecuted? && CommandIdOf(s.log[j].message) == id;
        assert after.log[j] == s.log[j];
      }
    }
  }

  lemma TrackerSaysWhenRegistered(first: Hash, s: State, setHash: Hash)
    requires TrackersMatch(first, s) && setHash in s.trackers
    ensures var epoch := s.trackers[setHash].epoch;
      1 <= epoch <= |Registry(first, s.log)| && Registry(first, s.log)[epoch - 1] == setHash
  {
    var sets := Registry(first, s.log);
    var i :| 0 <= i < |sets| && sets[i] == setHash;
  }

  // What an accepted rotation has checked, in one place.
  lemma AcceptedRotation(s: State, newSet: Hash, sessionSet: Hash, operator: Option<Pubkey>, now: i64)
    requires CheckRotation(s, newSet, sessionSet, operator, now).Ok?
    ensures var key := SessionKey(newSet, RotateSigners, sessionSet);
      key in s.sessions && s.sessions[key].IsValid()
    ensures sessionSet in s.trackers && newSet !in s.trackers && now >= 0
    ensures var epoch := CheckRotation(s, newSet, sessionSet, operator, now).value;
      && epoch == s.trackers[sessionSet].epoch <= s.config.currentEpoch
      && s.config.currentEpoch - epoch < s.config.previousVerifierSetRetention
      && (EnforcesDelay(s.config, operator) ==>
            epoch == s.config.currentEpoch && s.config.lastRotationTimestamp + s.config.minimumRotationDelay <= now)
  {}

  lemma RotationIsJustified(
    config: Config, first: Hash, s: State, newSet: Hash, sessionSet: Hash, operator: Option<Pubkey>, now: i64)
    requires Inv(config, first, s, now) && CheckRotation(s, newSet, sessionSet, operator, now).Ok?
    ensures Justified(config, first, s.log, VerifierSetRotated(
      newSet, sessionSet, CheckRotation(s, newSet, sessionSet, operator, now).value,
      s.config.currentEpoch + 1, now, EnforcesDelay(s.config, operator)))
  {
    AcceptedRotation(s, newSet, sessionSet, operator, now);
    TrackerSaysWhenRegistered(first, s, sessionSet);
    CompletedInLog(s, SessionKey(newSet, RotateSigners, sessionSet));
  }

  lemma CompletedInLog(s: State, key: SessionKey)
    requires SessionsMatch(s) && key in s.sessions && s.sessions[key].IsValid()
    ensures Completed(s.log, key)
  {}

  // Any event but a rotation leaves the trackers and the rotation times matching.
  lemma KeepsTrackers(first: Hash, s: State, after: State, e: Event, now: i64)
    requires TrackersMatch(first, s) && TimesMatch(s, now)
    requires !e.VerifierSetRotated? && after.log == s.log + [e] && after.trackers == s.trackers
    requires after.config.currentEpoch == s.config.currentEpoch
    requires after.config.lastRotationTimestamp == s.config.lastRotationTimestamp
    ensures TrackersMatch(first, after) && TimesMatch(after, now)
  {
    assert after.log[..|s.log|] == s.log;
    assert Registry(first, after.log) == Registry(first, s.log);
  }

  lemma RotateKeepsInv(
    config: Config, first: Hash, s: State, newSet: Hash, sessionSet: Hash, operator: Option<Pubkey>, now: i64)
    requires Inv(config, first, s, now) && RotateSignersSpec(s, newSet, sessionSet, operator, now).Ok?
    ensures Inv(config, first, RotateSignersSpec(s, newSet, sessionSet, operator, now).value, now)
  {
    var after := RotateSignersSpec(s, newSet, sessionSet, operator, now).value;
    var e := after.log[|s.log|];
    OneMoreEvent(config, first, s.log, e);
    QuietEvent(s, after, e);
    RotationIsJustified(config, first, s, newSet, sessionSet, operator, now);
    RotationExtendsRegistry(first, s, after, e);
  }

  lemma RotationExtendsRegistry(first: Hash, s: State, after: State, e: Event)
    requires TrackersMatch(first, s) && e.VerifierSetRotated? && e.newSet !in s.trackers
    requires after.log == s.log + [e] && after.config.currentEpoch == s.config.currentEpoch + 1
    requires after.trackers == s.trackers[e.newSet := VerifierSetTracker(after.config.currentEpoch, e.newSet)]
    ensures TrackersMatch(first, after)
  {
    assert after.log[..|s.log|] == s.log;
    assert Registry(first, after.log) == Registry(first, s.log) + [e.newSet];
  }

  lemma OpenSessionKeepsInv(
    config: Config, first: Hash, s: State, payloadRoot: Hash, payloadType: PayloadType, setHash: Hash, now: i64)
    requires Inv(config, first, s, now) && OpenSessionSpec(s, payloadRoot, payloadType, setHash).Ok?
    ensures Inv(config, first, OpenSessionSpec(s, payloadRoot, payloadType, setHash).value, now)
  {
    var after := OpenSessionSpec(s, payloadRoot, payloadType, setHash).value;
    forall id
      ensures MessageMatches(after, id)
    {
      assert MessageMatches(s, id);
    }
  }

  // What an accepted signature has checked, in one place.
  lemma AcceptedSignature(
    s: State, payloadRoot: Hash, info: SigningVerifierSetInfo, sessionSet: Hash, trackerSet: Hash)
    requires VerifySignatureSpec(s, payloadRoot, info, sessionSet, trackerSet).Ok?
    ensures trackerSet == sessionSet && trackerSet in s.trackers
    ensures var key := SessionKey(payloadRoot, info.payloadType, sessionSet);
      && key in s.sessions && |s.sessions[key].signatureSlots| == SLOT_BYTES
      && var processed := ProcessedBy(s.sessions[key], payloadRoot, sessionSet, info);
      && processed.Ok?
      && VerifySignatureSpec(s, payloadRoot, info, sessionSet, trackerSet).value == s.(
           sessions := s.sessions[key := processed.value],
           log := s.log + [SignatureAccepted(key, info, s.trackers[trackerSet].epoch, s.config.currentEpoch)])
    ensures Acceptable(payloadRoot, sessionSet, info) && info.leaf.domainSeparator == s.config.domainSeparator
    ensures var epoch := s.trackers[trackerSet].epoch;
      && epoch <= s.config.currentEpoch
      && s.config.currentEpoch - epoch < s.config.previousVerifierSetRetention
  {}

  lemma VerifySignatureKeepsInv(
    config: Config, first: Hash, s: State,
    payloadRoot: Hash, info: SigningVerifierSetInfo, sessionSet: Hash, trackerSet: Hash, now: i64)
    requires Inv(config, first, s, now) && VerifySignatureSpec(s, payloadRoot, info, sessionSet, trackerSet).Ok?
    ensures Inv(config, first, VerifySignatureSpec(s, payloadRoot, info, sessionSet, trackerSet).value, now)
  {
    AcceptedSignature(s, payloadRoot, info, sessionSet, trackerSet);
    var key := SessionKey(payloadRoot, info.payloadType, sessionSet);
    var processed := ProcessedBy(s.sessions[key], payloadRoot, sessionSet, info).value;
    var e := SignatureAccepted(key, info, s.trackers[trackerSet].epoch, s.config.currentEpoch);
    var after := s.(sessions := s.sessions[key := processed], log := s.log + [e]);
    OneMoreEvent(config, first, s.log, e);
    TrackerSaysWhenRegistered(first, s, trackerSet);
    AcceptedSignatureKeepsSessions(s, after, key, info, e);
    KeepsTrackers(first, s, after, e, now);
    forall id
      ensures MessageMatches(after, id)
    {
      assert MessageMatches(s, id);
      SameMessageEvents(s, after, e, id);
    }
  }

  lemma AcceptedSignatureKeepsSessions(
    s: State, after: State, key: SessionKey, info: SigningVerifierSetInfo, e: Event)
    requires SessionsMatch(s) && key in s.sessions && |s.sessions[key].signatureSlots| == SLOT_BYTES
    requires e.SignatureAccepted? && e.key == key && e.info == info && after.log == s.log + [e]
    requires var processed := ProcessedBy(s.sessions[key], key.payloadMerkleRoot, key.signingVerifierSetHash, info);
      processed.Ok? && after.sessions == s.sessions[key := processed.value]
    ensures SessionsMatch(after)
  {
    assert after.log[..|s.log|] == s.log;
    var infos := Accepted(s.log, key);
    assert Accepted(after.log, key) == infos + [info];
    assert (infos + [info])[..|infos|] == infos;
    assert Replay(after.log, key) == Ok(after.sessions[key]);
    forall other | other != key
      ensures Accepted(after.log, other) == Accepted(s.log, other)
    {}
  }

  lemma MessageEventKeepsSessions(s: State, after: State, e: Event)
    requires SessionsMatch(s) && after.log == s.log + [e] && after.sessions == s.sessions
    requires e.MessageApproved? || e.MessageExecuted?
    ensures SessionsMatch(after)
  {
    assert after.log[..|s.log|] == s.log;
    forall key
      ensures Accepted(after.log, key) == Accepted(s.log, key)
    {}
  }

  lemma ApproveKeepsInv(
    config: Config, first: Hash, s: State, merklized: MerklizedMessage, payloadRoot: Hash, sessionSet: Hash, now: i64)
    requires Inv(config, first, s, now) && ApproveMessageSpec(s, merklized, payloadRoot, sessionSet).Ok?
    ensures Inv(config, first, ApproveMessageSpec(s, merklized, payloadRoot, sessionSet).value, now)
  {
    var after := ApproveMessageSpec(s, merklized, payloadRoot, sessionSet).value;
    var e := after.log[|s.log|];
    var approved := CommandIdOf(merklized.leaf.message);
    OneMoreEvent(config, first, s.log, e);
    MessageEventKeepsSessions(s, after, e);
    KeepsTrackers(first, s, after, e, now);
    assert MessageMatches(s, approved);
    assert Justified(config, first, s.log, e);
    forall id
      ensures MessageMatches(after, id)
    {
      assert MessageMatches(s, id);
      if id != approved {
        SameMessageEvents(s, after, e, id);
      } else {
        assert after.log[|s.log|] == e;
        if ExecutedIn(s.log, id) {
          ExecutedWereApproved(config, first, s.log, id);
        }
      }
    }
  }

  lemma ExecutedWereApproved(config: Config, first: Hash, log: seq<Event>, id: CommandId)
    requires LogJustified(config, first, log) && ExecutedIn(log, id)
    ensures ApprovedIn(log, id)
  {
    var j :| 0 <= j < |log| && log[j].MessageExecuted? && CommandIdOf(log[j].message) == id;
    assert Justified(config, first, log[..j], log[j]);
    var i :| 0 <= i < j && log[..j][i].MessageApproved? && log[..j][i].merklized.leaf.message == log[j].message;
    assert log[i].MessageApproved?;
  }

  lemma ValidationIsJustified(config: Config, first: Hash, s: State, message: Message, caller: Caller)
    requires MessagesMatch(s) && ValidateMessageSpec(s, message, caller).Ok?
    ensures Justified(config, first, s.log, MessageExecuted(message, caller))
  {
    assert MessageMatches(s, CommandIdOf(message));
  }

  lemma ValidateKeepsInv(config: Config, first: Hash, s: State, message: Message, caller: Caller, now: i64)
    requires Inv(config, first, s, now) && ValidateMessageSpec(s, message, caller).Ok?
    ensures Inv(config, first, ValidateMessageSpec(s, message, caller).value, now)
  {
    var e, executed := MessageExecuted(message, caller), CommandIdOf(message);
    var after := s.(messages := s.messages[executed := s.messages[executed].(status := Executed)], log := s.log + [e]);
    ValidationIsJustified(config, first, s, message, caller);
    JustifiedExecutionKeepsInv(config, first, s, after, e, executed, now);
  }

  lemma JustifiedExecutionKeepsInv(
    config: Config, first: Hash, s: State, after: State, e: Event, executed: CommandId, now: i64)
    requires Inv(config, first, s, now) && executed in s.messages
    requires e.MessageExecuted? && CommandIdOf(e.message) == executed && Justified(config, first, s.log, e)
    requires after.messages == s.messages[executed := s.messages[executed].(status := Executed)]
    requires after.log == s.log + [e]
    requires after.config == s.config && after.trackers == s.trackers && after.sessions == s.sessions
    ensures Inv(config, first, after, now)
  {
    OneMoreEvent(config, first, s.log, e);
    MessageEventKeepsSessions(s, after, e);
    KeepsTrackers(first, s, after, e, now);
    ExecutionKeepsMessages(s, after, e, executed);
  }

  lemma ExecutionKeepsMessages(s: State, after: State, e: Event, executed: CommandId)
    requires MessagesMatch(s) && executed in s.messages && after.log == s.log + [e]
    requires e.MessageExecuted? && CommandIdOf(e.message) == executed
    requires after.messages == s.messages[executed := s.messages[executed].(status := Executed)]
    ensures MessagesMatch(after)
  {
    forall id
      ensures MessageMatches(after, id)
    {
      assert MessageMatches(s, id);
      if id != executed {
        SameMessageEvents(s, after, e, id);
      } else {
        ExecutedMessageMatches(s, after, e, id);
      }
    }
  }

  lemma ExecutedMessageMatches(s: State, after: State, e: Event, id: CommandId)
    requires MessageMatches(s, id) && id in s.messages && after.log == s.log + [e]
    requires e.MessageExecuted? && CommandIdOf(e.message) == id
    requires after.messages == s.messages[id := s.messages[id].(status := Executed)]
    ensures MessageMatches(after, id)
  {
    var i :| 0 <= i < |s.log| && s.log[i].MessageApproved? &&
             CommandIdOf(s.log[i].merklized.leaf.message) == id &&
             s.messages[id].messageHash == Leaf(Msg(s.log[i].merklized.leaf.message)) &&
             s.messages[id].payloadHash == s.log[i].merklized.leaf.message.payloadHash;
    assert after.log[i] == s.log[i] && after.log[|s.log|] == e;
  }

  lemma TransferKeepsInv(
    config: Config, first: Hash, s: State, signer: Pubkey, authority: Option<Pubkey>, newOperator: Pubkey, now: i64)
    requires Inv(config, first, s, now) && TransferOperatorshipSpec(s, signer, authority, newOperator).Ok?
    ensures Inv(config, first, TransferOperatorshipSpec(s, signer, authority, newOperator).value, now)
  {
    var e := OperatorshipTransferred(newOperator);
    var after := s.(config := s.config.(operator := newOperator), log := s.log + [e]);
    OneMoreEvent(config, first, s.log, e);
    QuietEvent(s, after, e);
    KeepsTrackers(first, s, after, e, now);
  }

  lemma StepKeepsInv(config: Config, first: Hash, s: State, tx: Transaction, before: i64)
    requires Inv(config, first, s, before) && before <= tx.now
    ensures Inv(config, first, Step(s, tx), tx.now)
  {
    assert Inv(config, first, s, tx.now);
    if Execute(s, tx).Ok? {
      match tx.instruction
      case Rotate(newSet, sessionSet, operator) =>
        RotateKeepsInv(config, first, s, newSet, sessionSet, operator, tx.now);
      case OpenSession(root, ty, setHash) => OpenSessionKeepsInv(config, first, s, root, ty, setHash, tx.now);
      case VerifySignature(root, info, sessionSet, trackerSet) =>
        VerifySignatureKeepsInv(config, first, s, root, info, sessionSet, trackerSet, tx.now);
      case Approve(merklized, root, sessionSet) =>
        ApproveKeepsInv(config, first, s, merklized, root, sessionSet, tx.now);
      case Validate(message, caller) => ValidateKeepsInv(config, first, s, message, caller, tx.now);
      case TransferOperator(signer, authority, op) => TransferKeepsInv(config, first, s, signer, authority, op, tx.now);
    }
  }

  function LastTime(start: i64, txs: seq<Transaction>): i64 {
    if |txs| == 0 then start else txs[|txs| - 1].now
  }

  // A configuration that initialization accepts, and a run from it.
  ghost predicate IsRun(params: InitializeConfigParams, start: i64, txs: seq<Transaction>) {
    start >= 0 && ClockFrom(start, txs)
  }

  function Start(params: InitializeConfigParams, start: i64): State
    requires start >= 0
  {
    InitializeConfig(params, start).value
  }

  function After(params: InitializeConfigParams, start: i64, txs: seq<Transaction>): State
    requires start >= 0
  {
    Run(Start(params, start), txs)
  }

  /** The invariant over whole runs: accounts are what the log says, and every event is justified by the events before
      it. */
  lemma {:induction false} RunKeepsInv(params: InitializeConfigParams, start: i64, txs: seq<Transaction>)
    requires IsRun(params, start, txs)
    ensures Inv(Start(params, start).config, params.initialVerifierSet, After(params, start, txs), LastTime(start, txs))
  {
    var first, init := params.initialVerifierSet, Start(params, start);
    if |txs| == 0 {
      assert Registry(first, []) == [first];
      forall id
        ensures MessageMatches(init, id)
      {}
    } else {
      var before, tx := txs[..|txs| - 1], txs[|txs| - 1];
      RunKeepsInv(params, start, before);
      assert LastTime(start, before) <= tx.now;
      StepKeepsInv(init.config, first, After(params, start, before), tx, LastTime(start, before));
    }
  }
}
