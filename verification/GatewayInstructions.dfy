// Exactly when each instruction of the gateway goes through, told from the log of the run, and what it changes.
module GatewayInstructions {
  import opened Prelude
  import opened Merkle
  import opened AxelarStd
  import opened VerificationSession
  import opened Gateway
  import opened GatewayRuns
  import opened GatewaySafety

  // ---------- What an instruction leaves alone ----------

  predicate OnlyMessageChanges(s: State, after: State, id: CommandId) {
    && after.config == s.config && after.trackers == s.trackers && after.sessions == s.sessions
    && id in after.messages && after.messages.Keys == s.messages.Keys + {id}
    && forall other :: other in s.messages && other != id ==> after.messages[other] == s.messages[other]
  }

  predicate OnlySessionChanges(s: State, after: State, key: SessionKey) {
    && after.config == s.config && after.trackers == s.trackers && after.messages == s.messages
    && key in after.sessions && after.sessions.Keys == s.sessions.Keys + {key}
    && forall other :: other in s.sessions && other != key ==> after.sessions[other] == s.sessions[other]
  }

  // ---------- Executing messages ----------

  // The message is approved as it is and not yet executed, and its destination program asks for it.
  predicate MayExecute(s: State, message: Message, caller: Caller) {
    var id := CommandIdOf(message);
    && id in s.messages && s.messages[id].status == Approved && s.messages[id].messageHash == Leaf(Msg(message))
    && message.destinationAddress.Key? && caller == SigningPda(id, message.destinationAddress.key)
  }

  // The message is executed, and nothing else changed.
  predicate ExecutedAlone(s: State, after: State, message: Message) {
    var id := CommandIdOf(message);
    && OnlyMessageChanges(s, after, id) && id in s.messages
    && after.messages[id] == IncomingMessage(Executed, s.messages[id].messageHash, s.messages[id].payloadHash)
  }

  /** From any state: an approved message can be executed by the signing account of its destination program, and by
      nobody else and nothing else. */
  lemma ApprovedMessagesExecute(s: State, message: Message, caller: Caller, now: i64)
    ensures var executed := Execute(s, Transaction(Validate(message, caller), now));
      && (executed.Ok? <==> MayExecute(s, message, caller))
      && (executed.Ok? ==> ExecutedAlone(s, executed.value, message))
  {}

  ghost predicate ApprovedWithContents(log: seq<Event>, message: Message) {
    exists i :: 0 <= i < |log| && log[i].MessageApproved? && log[i].merklized.leaf.message == message
  }

  /** In every run a message can be executed exactly if this very message was approved, its command id was not executed
      before, and the caller is the signing account of its destination program. */
  lemma MessagesExecuteExactlyWhenApproved(
    params: InitializeConfigParams, start: i64, txs: seq<Transaction>, message: Message, caller: Caller, now: i64)
    requires IsRun(params, start, txs)
    ensures var s := After(params, start, txs);
      Execute(s, Transaction(Validate(message, caller), now)).Ok? <==>
        && ApprovedWithContents(s.log, message) && !ExecutedIn(s.log, CommandIdOf(message))
        && message.destinationAddress.Key?
        && caller == SigningPda(CommandIdOf(message), message.destinationAddress.key)
  {
    var s, id := After(params, start, txs), CommandIdOf(message);
    RunKeepsInv(params, start, txs);
    assert MessageMatches(s, id);
    ApprovedMessagesExecute(s, message, caller, now);
    if ApprovedWithContents(s.log, message) {
      ApprovedIsStored(Start(params, start).config, params.initialVerifierSet, s, message);
    }
  }

  lemma ApprovedIsStored(config: Config, first: Hash, s: State, message: Message)
    requires MessagesMatch(s) && LogJustified(config, first, s.log) && ApprovedWithContents(s.log, message)
    ensures CommandIdOf(message) in s.messages
    ensures s.messages[CommandIdOf(message)].messageHash == Leaf(Msg(message))
  {
    var id := CommandIdOf(message);
    assert MessageMatches(s, id);
    var i :| 0 <= i < |s.log| && s.log[i].MessageApproved? && s.log[i].merklized.leaf.message == message;
    OneApprovalPerCommandId(config, first, s.log, i);
  }

  // ---------- Approving messages ----------

  lemma CompletedSessions(s: State, key: SessionKey)
    requires SessionsMatch(s)
    ensures Completed(s.log, key) <==> LoadSession(s, key).Ok? && s.sessions[key].IsValid()
  {
    if key !in s.sessions {
      assert Replay(s.log, key) == Ok(Fresh(key.signingVerifierSetHash));
    }
  }

  // The message is approved with its hashes, and nothing else changed.
  predicate ApprovedAlone(s: State, after: State, message: Message) {
    && OnlyMessageChanges(s, after, CommandIdOf(message))
    && after.messages[CommandIdOf(message)] == IncomingMessage(Approved, Leaf(Msg(message)), message.payloadHash)
  }

  /** In every run a message is approved exactly if the log completes an approval session over the payload root, no
      message with that command id was approved before, and its leaf is of this domain and proved part of the root. */
  lemma MessagesAreApprovedExactlyWhenSigned(
    params: InitializeConfigParams, start: i64, txs: seq<Transaction>, merklized: MerklizedMessage, payloadRoot: Hash,
    sessionSet: Hash, now: i64)
    requires IsRun(params, start, txs)
    ensures var s, leaf := After(params, start, txs), merklized.leaf;
      var approved := Execute(s, Transaction(Approve(merklized, payloadRoot, sessionSet), now));
      && (approved.Ok? <==>
            && Completed(s.log, SessionKey(payloadRoot, ApproveMessages, sessionSet))
            && !ApprovedIn(s.log, CommandIdOf(leaf.message)) && leaf.domainSeparator == params.domainSeparator
            && merklized.proof.Some?
            && Verify(payloadRoot, leaf.position, Leaf(MsgLeaf(leaf)), leaf.setSize, merklized.proof.value))
      && (approved.Ok? ==> ApprovedAlone(s, approved.value, leaf.message))
  {
    var s := After(params, start, txs);
    RunKeepsInv(params, start, txs);
    assert MessageMatches(s, CommandIdOf(merklized.leaf.message));
    CompletedSessions(s, SessionKey(payloadRoot, ApproveMessages, sessionSet));
  }

  // ---------- Opening sessions and sending signatures ----------

  /** In every run a session is opened exactly for a set within retention and a payload that has none yet; it starts
      with no weight and no slot done. */
  lemma SessionsOpenExactlyWhenRetained(
    params: InitializeConfigParams, start: i64, txs: seq<Transaction>, payloadRoot: Hash, payloadType: PayloadType,
    setHash: Hash, now: i64)
    requires IsRun(params, start, txs)
    ensures var s, key := After(params, start, txs), SessionKey(payloadRoot, payloadType, setHash);
      var result := Execute(s, Transaction(OpenSession(payloadRoot, payloadType, setHash), now));
      && (result.Ok? <==> setHash in ValidSets(s) && key !in s.sessions)
      && (result.Ok? ==>
            && OnlySessionChanges(s, result.value, key) && result.value.log == s.log
            && StartsEmpty(result.value.sessions[key], setHash))
  {
    RunKeepsInv(params, start, txs);
    if setHash in After(params, start, txs).trackers {
      TrackersNameTheirSet(params.initialVerifierSet, After(params, start, txs), setHash);
    }
  }

  predicate StartsEmpty(session: SessionData, setHash: Hash) {
    && session.accumulatedThreshold == 0 && session.signingVerifierSetHash == setHash
    && |session.signatureSlots| == 32 && forall i :: 0 <= i < 32 ==> session.signatureSlots[i] == 0
  }

  lemma TrackersNameTheirSet(first: Hash, s: State, setHash: Hash)
    requires TrackersMatch(first, s) && setHash in s.trackers
    ensures s.trackers[setHash].verifierSetHash == setHash
  {
    TrackerSaysWhenRegistered(first, s, setHash);
  }

  // The signature is one of a member over this very payload, with a proof that it is a member.
  predicate GenuineSignature(payloadRoot: Hash, setHash: Hash, info: SigningVerifierSetInfo) {
    && info.leaf.position < 256 && info.merkleProof.Some?
    && Verify(setHash, info.leaf.position, Leaf(SetLeaf(info.leaf)), info.leaf.setSize, info.merkleProof.value)
    && info.signature == Signed(info.leaf.signerPubkey, info.payloadType, payloadRoot)
  }

  /** In every run a signature is taken exactly if its session is open, its set is within retention, it is genuine and
      of this domain, and no signature of the same position was taken by that session before. */
  lemma SignaturesAreTakenExactlyOnce(
    params: InitializeConfigParams, start: i64, txs: seq<Transaction>, payloadRoot: Hash, info: SigningVerifierSetInfo,
    sessionSet: Hash, trackerSet: Hash, now: i64)
    requires IsRun(params, start, txs)
    ensures var s, key := After(params, start, txs), SessionKey(payloadRoot, info.payloadType, sessionSet);
      var taken := Execute(s, Transaction(VerifySignature(payloadRoot, info, sessionSet, trackerSet), now));
      && (taken.Ok? <==>
            && key in s.sessions && trackerSet == sessionSet && sessionSet in ValidSets(s)
            && info.leaf.domainSeparator == params.domainSeparator
            && GenuineSignature(payloadRoot, sessionSet, info)
            && forall earlier :: earlier in Accepted(s.log, key) ==> earlier.leaf.position != info.leaf.position)
      && (taken.Ok? ==>
            && OnlySessionChanges(s, taken.value, key)
            && Accepted(taken.value.log, key) == Accepted(s.log, key) + [info])
  {
    var s, key := After(params, start, txs), SessionKey(payloadRoot, info.payloadType, sessionSet);
    RunKeepsInv(params, start, txs);
    if trackerSet in s.trackers {
      TrackersNameTheirSet(params.initialVerifierSet, s, trackerSet);
    }
    if key in s.sessions {
      SlotsAreThePositions(sessionSet, payloadRoot, Accepted(s.log, key));
      SignatureIsTaken(s, payloadRoot, info, sessionSet, trackerSet);
    }
  }

  lemma SignatureIsTaken(
    s: State, payloadRoot: Hash, info: SigningVerifierSetInfo, sessionSet: Hash, trackerSet: Hash)
    requires var key := SessionKey(payloadRoot, info.payloadType, sessionSet);
      && key in s.sessions && s.sessions[key].signingVerifierSetHash == sessionSet
      && |s.sessions[key].signatureSlots| == SLOT_BYTES
      && DoneSlots(s.sessions[key].signatureSlots) == Positions(Accepted(s.log, key))
    requires trackerSet in s.trackers ==> s.trackers[trackerSet].verifierSetHash == trackerSet
    ensures var key := SessionKey(payloadRoot, info.payloadType, sessionSet);
      var taken := VerifySignatureSpec(s, payloadRoot, info, sessionSet, trackerSet);
      && (taken.Ok? <==>
            && trackerSet == sessionSet && sessionSet in ValidSets(s)
            && info.leaf.domainSeparator == s.config.domainSeparator
            && GenuineSignature(payloadRoot, sessionSet, info)
            && info.leaf.position !in Positions(Accepted(s.log, key)))
      && (taken.Ok? ==>
            && OnlySessionChanges(s, taken.value, key)
            && Accepted(taken.value.log, key) == Accepted(s.log, key) + [info])
  {
    var taken := VerifySignatureSpec(s, payloadRoot, info, sessionSet, trackerSet);
    if taken.Ok? {
      assert taken.value.log[..|s.log|] == s.log;
    }
  }

  // ---------- Rotating the signers ----------

  // The operator signs, or the latest set has waited out the delay.
  predicate MayRotateNow(s: State, signedBy: Hash, operator: Option<Pubkey>, now: i64)
    requires signedBy in s.trackers
  {
    || operator == Some(s.config.operator)
    || (s.trackers[signedBy].epoch == s.config.currentEpoch
        && s.config.lastRotationTimestamp + s.config.minimumRotationDelay <= now)
  }

  // The new set has the next epoch, the clock restarts, and nothing else changed.
  ghost predicate RotatedAlone(s: State, after: State, newSet: Hash, now: i64) {
    && after.sessions == s.sessions && after.messages == s.messages
    && after.config.currentEpoch == s.config.currentEpoch + 1 && after.config.lastRotationTimestamp == now
    && after.config.operator == s.config.operator && SameRules(s.config, after.config)
    && after.trackers.Keys == s.trackers.Keys + {newSet}
    && (forall h :: h in s.trackers && h != newSet ==> after.trackers[h] == s.trackers[h])
    && after.trackers[newSet].epoch == s.config.currentEpoch + 1
  }

  /** In every run a rotation goes through exactly if the log completes a rotation session over the new set by a set
      within retention, the new set is unknown, and the operator signs or the latest set has waited out the delay. */
  lemma RotationsGoThroughExactlyWhenDue(
    params: InitializeConfigParams, start: i64, txs: seq<Transaction>, newSet: Hash, signedBy: Hash,
    operator: Option<Pubkey>, now: i64)
    requires IsRun(params, start, txs)
    ensures var s := After(params, start, txs);
      var rotated := Execute(s, Transaction(Rotate(newSet, signedBy, operator), now));
      && (rotated.Ok? <==>
            && Completed(s.log, SessionKey(newSet, RotateSigners, signedBy))
            && signedBy in ValidSets(s) && newSet !in s.trackers && now >= 0 && s.config.currentEpoch < U256_MAX
            && MayRotateNow(s, signedBy, operator, now))
      && (rotated.Ok? ==> RotatedAlone(s, rotated.value, newSet, now))
  {
    var s := After(params, start, txs);
    RunKeepsInv(params, start, txs);
    CompletedSessions(s, SessionKey(newSet, RotateSigners, signedBy));
    if signedBy in s.trackers {
      TrackersNameTheirSet(params.initialVerifierSet, s, signedBy);
    }
  }

  // ---------- The operator ----------

  /** The operator or the upgrade authority names a different operator, nobody else does, and nothing else changes. */
  lemma OperatorshipIsHandedOver(
    s: State, signer: Pubkey, upgradeAuthority: Option<Pubkey>, newOperator: Pubkey, now: i64)
    ensures var transferred := Execute(s, Transaction(TransferOperator(signer, upgradeAuthority, newOperator), now));
      && (transferred.Ok? <==>
            (signer == s.config.operator || upgradeAuthority == Some(signer)) && newOperator != s.config.operator)
      && (transferred.Ok? ==>
            && transferred.value.trackers == s.trackers && transferred.value.sessions == s.sessions
            && transferred.value.messages == s.messages
            && transferred.value.config == s.config.(operator := newOperator))
  {}

  // The transaction names this operator, signed by the one it finds or by the upgrade authority.
  ghost predicate Appoints(s: State, tx: Transaction, operator: Pubkey) {
    && tx.instruction.TransferOperator? && tx.instruction.newOperator == operator
    && (tx.instruction.signer == s.config.operator || tx.instruction.upgradeAuthority == Some(tx.instruction.signer))
  }

  lemma OthersKeepTheOperator(s: State, tx: Transaction)
    requires !tx.instruction.TransferOperator?
    ensures Step(s, tx).config.operator == s.config.operator
  {}

  /** In every run the operator is the one the gateway was initialized with, or was appointed by the operator before
      him or the upgrade authority. */
  lemma {:induction false} OperatorsAreAppointed(params: InitializeConfigParams, start: i64, txs: seq<Transaction>)
    returns (k: nat)
    requires start >= 0 && After(params, start, txs).config.operator != params.operator
    ensures k < |txs| && Appoints(After(params, start, txs[..k]), txs[k], After(params, start, txs).config.operator)
  {
    var n := |txs| - 1;
    var before, i := After(params, start, txs[..n]), txs[n].instruction;
    if i.TransferOperator? {
      OperatorshipIsHandedOver(before, i.signer, i.upgradeAuthority, i.newOperator, txs[n].now);
    } else {
      OthersKeepTheOperator(before, txs[n]);
    }
    if i.TransferOperator? && Execute(before, txs[n]).Ok? {
      k := n;
    } else {
      k := OperatorsAreAppointed(params, start, txs[..n]);
      assert txs[..n][..k] == txs[..k];
    }
  }

  // ---------- Which transaction an event comes from ----------

  // What a transaction logs when it goes through: the arguments it came with and the time the clock shows.
  predicate Logs(s: State, tx: Transaction, e: Event) {
    match tx.instruction
    case Rotate(newSet, sessionSet, operator) =>
      && e.VerifierSetRotated? && e.newSet == newSet && e.signedBy == sessionSet && e.at == tx.now
      && e.epoch == s.config.currentEpoch + 1 && (e.delayEnforced <==> operator != Some(s.config.operator))
    case OpenSession(_, _, _) => false
    case VerifySignature(root, info, sessionSet, _) =>
      e.SignatureAccepted? && e.info == info && e.key == SessionKey(root, info.payloadType, sessionSet)
    case Approve(merklized, root, sessionSet) =>
      e == MessageApproved(SessionKey(root, ApproveMessages, sessionSet), merklized)
    case Validate(message, caller) => e == MessageExecuted(message, caller)
    case TransferOperator(_, _, newOperator) => e == OperatorshipTransferred(newOperator)
  }

  // One event that says so, or none for the opening of a session and for failures.
  lemma StepsLogWhatTheyDo(s: State, tx: Transaction)
    ensures var after := Step(s, tx);
      if Execute(s, tx).Ok? && !tx.instruction.OpenSession? then
        |after.log| == |s.log| + 1 && s.log <= after.log && Logs(s, tx, after.log[|s.log|])
      else after.log == s.log
  {}

  ghost predicate LoggedAt(s: State, txs: seq<Transaction>, j: nat, k: nat) {
    && k < |txs| && j < |Run(s, txs).log| && Run(s, txs[..k]).log == Run(s, txs).log[..j]
    && Execute(Run(s, txs[..k]), txs[k]).Ok? && Logs(Run(s, txs[..k]), txs[k], Run(s, txs).log[j])
  }

  /** Every event of a run was logged by one of its transactions, which went through and is of that kind. */
  lemma {:induction false} EventsComeFromTransactions(s: State, txs: seq<Transaction>, j: nat) returns (k: nat)
    requires |s.log| <= j < |Run(s, txs).log|
    ensures LoggedAt(s, txs, j, k)
  {
    var n := |txs| - 1;
    StepsLogWhatTheyDo(Run(s, txs[..n]), txs[n]);
    if j < |Run(s, txs[..n]).log| {
      k := EventsComeFromTransactions(s, txs[..n], j);
      assert txs[..n][..k] == txs[..k];
    } else {
      k := n;
    }
  }

  // ---------- Rotations by the clock ----------

  ghost predicate RotatesAt(params: InitializeConfigParams, start: i64, txs: seq<Transaction>, k: nat)
    requires start >= 0
  {
    k < |txs| && txs[k].instruction.Rotate? && Execute(After(params, start, txs[..k]), txs[k]).Ok?
  }

  // The operator of that moment did not sign, so the delay is enforced.
  ghost predicate EnforcedAt(params: InitializeConfigParams, start: i64, txs: seq<Transaction>, k: nat)
    requires start >= 0
  {
    && RotatesAt(params, start, txs, k)
    && txs[k].instruction.operator != Some(After(params, start, txs[..k]).config.operator)
  }

  lemma OneStepKeepsTheTime(params: InitializeConfigParams, start: i64, txs: seq<Transaction>)
    requires IsRun(params, start, txs) && |txs| > 0
    ensures var n := |txs| - 1;
      var before, after := After(params, start, txs[..n]).config, After(params, start, txs).config;
      && before.lastRotationTimestamp <= after.lastRotationTimestamp
      && (RotatesAt(params, start, txs, n) ==> after.lastRotationTimestamp == txs[n].now)
  {
    var n := |txs| - 1;
    RunKeepsInv(params, start, txs[..n]);
    assert LastTime(start, txs[..n]) <= txs[n].now;
    RotationsRestartTheClock(After(params, start, txs[..n]), txs[n]);
  }

  lemma RotationsRestartTheClock(s: State, tx: Transaction)
    ensures Step(s, tx).config.lastRotationTimestamp ==
      if tx.instruction.Rotate? && Execute(s, tx).Ok? then tx.now else s.config.lastRotationTimestamp
  {}

  // The gateway remembers the start and every rotation since, or a later time.
  lemma {:induction false} RotationsAreRemembered(
    params: InitializeConfigParams, start: i64, txs: seq<Transaction>, k: nat)
    requires IsRun(params, start, txs)
    ensures start <= After(params, start, txs).config.lastRotationTimestamp
    ensures RotatesAt(params, start, txs, k) ==>
      txs[k].now <= After(params, start, txs).config.lastRotationTimestamp
  {
    if |txs| == 0 {
    } else {
      var n := |txs| - 1;
      RotationsAreRemembered(params, start, txs[..n], k);
      OneStepKeepsTheTime(params, start, txs);
      if k < n {
        assert txs[..n][..k] == txs[..k];
      }
    }
  }

  lemma EnforcedRotationsWait(params: InitializeConfigParams, start: i64, txs: seq<Transaction>, k: nat)
    requires IsRun(params, start, txs) && EnforcedAt(params, start, txs, k)
    ensures After(params, start, txs[..k]).config.lastRotationTimestamp + params.minimumRotationDelay <= txs[k].now
  {
    var rotation := txs[k].instruction;
    RunKeepsInv(params, start, txs[..k]);
    RotationsGoThroughExactlyWhenDue(
      params, start, txs[..k], rotation.newSet, rotation.sessionSet, rotation.operator, txs[k].now);
  }

  lemma FirstRotationWaits(params: InitializeConfigParams, start: i64, txs: seq<Transaction>, k: nat)
    requires IsRun(params, start, txs) && EnforcedAt(params, start, txs, k)
    ensures start + params.minimumRotationDelay <= txs[k].now
  {
    EnforcedRotationsWait(params, start, txs, k);
    RotationsAreRemembered(params, start, txs[..k], k);
  }

  lemma NextRotationWaits(params: InitializeConfigParams, start: i64, txs: seq<Transaction>, j: nat, k: nat)
    requires IsRun(params, start, txs) && j < k && RotatesAt(params, start, txs, j) && EnforcedAt(params, start, txs, k)
    ensures txs[j].now + params.minimumRotationDelay <= txs[k].now
  {
    EnforcedRotationsWait(params, start, txs, k);
    assert txs[..k][..j] == txs[..j];
    RotationsAreRemembered(params, start, txs[..k], j);
  }

  /** By the clock of the transactions: m rotations without the operator's signature take at least m delays from
      initialization on, and m - 1 from the first to the last of them, whatever the operator rotates in between. */
  lemma {:induction false} RotationsWaitByTheClock(
    params: InitializeConfigParams, start: i64, txs: seq<Transaction>, rotations: seq<nat>)
    requires IsRun(params, start, txs) && |rotations| > 0
    requires forall m :: 0 <= m < |rotations| ==>
      rotations[m] < |txs| && EnforcedAt(params, start, txs, rotations[m])
    requires forall m, n :: 0 <= m < n < |rotations| ==> rotations[m] < rotations[n]
    ensures txs[rotations[|rotations| - 1]].now - start >= |rotations| * params.minimumRotationDelay
    ensures txs[rotations[|rotations| - 1]].now - txs[rotations[0]].now
         >= (|rotations| - 1) * params.minimumRotationDelay
  {
    var m := |rotations| - 1;
    if m == 0 {
      FirstRotationWaits(params, start, txs, rotations[0]);
    } else {
      RotationsWaitByTheClock(params, start, txs, rotations[..m]);
      NextRotationWaits(params, start, txs, rotations[m - 1], rotations[m]);
      var before, last := txs[rotations[m - 1]].now, txs[rotations[m]].now;
      DistancesAddUp(start, before, last, m + 1, params.minimumRotationDelay);
      DistancesAddUp(txs[rotations[0]].now, before, last, m, params.minimumRotationDelay);
    }
  }
}
