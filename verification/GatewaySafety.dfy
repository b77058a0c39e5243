// What whole runs of the gateway guarantee: authentic messages, a chain of trust between verifier sets, epochs that
// number the sets, and rotations that keep their distance in time.
module GatewaySafety {
  import opened Prelude
  import opened Merkle
  import opened AxelarStd
  import opened VerificationSession
  import opened Gateway
  import opened GatewayRuns

  // ---------- What a completed session means ----------

  /** The signatures the session had accepted before log position i: distinct members of the set with distinct keys,
      each over this very payload type and root, and together at least the quorum. */
  ghost predicate SignedByQuorum(log: seq<Event>, i: nat, key: SessionKey, vs: VerifierSet, domain: Bytes32)
    requires i <= |log|
  {
    var infos := Accepted(log[..i], key);
    && |infos| > 0 && TotalWeight(infos) >= vs.quorum
    && DistinctPositions(infos) && (vs.Valid() ==> DistinctSigners(infos))
    && forall info :: info in infos ==> MemberSignature(info, key, vs, domain)
  }

  ghost predicate MemberSignature(info: SigningVerifierSetInfo, key: SessionKey, vs: VerifierSet, domain: Bytes32) {
    && info.leaf.position < |vs.signers| <= U16_MAX
    && info.leaf == SetLeaves(vs, domain).value[info.leaf.position]
    && info.signature == Signed(info.leaf.signerPubkey, key.payloadType, key.payloadMerkleRoot)
  }

  /** Each of them was accepted while its set was still within retention. */
  ghost predicate AcceptedWithinRetention(
    config: Config, first: Hash, log: seq<Event>, i: nat, key: SessionKey, info: SigningVerifierSetInfo)
    requires i <= |log|
  {
    exists k :: 0 <= k < i && log[k].SignatureAccepted? && log[k].key == key && log[k].info == info &&
      Retained(config, Registry(first, log[..k]), key.signingVerifierSetHash, log[k].setEpoch)
  }

  lemma {:induction false} AcceptedComeFromTheLog(log: seq<Event>, key: SessionKey, info: SigningVerifierSetInfo)
    returns (k: nat)
    requires info in Accepted(log, key)
    ensures k < |log| && log[k].SignatureAccepted? && log[k].key == key && log[k].info == info
  {
    var n := |log| - 1;
    var before := Accepted(log[..n], key);
    if info in before {
      k := AcceptedComeFromTheLog(log[..n], key, info);
    } else {
      k := n;
    }
  }

  lemma CompletedMeansSignedByQuorum(log: seq<Event>, i: nat, key: SessionKey, vs: VerifierSet, domain: Bytes32)
    requires i <= |log| && Completed(log[..i], key)
    requires VerifierSetHash(vs, domain) == Ok(key.signingVerifierSetHash)
    requires forall info :: info in Accepted(log[..i], key) ==> info.payloadType == key.payloadType
    ensures SignedByQuorum(log, i, key, vs, domain)
  {
    QuorumIsExact(vs, domain, key.payloadMerkleRoot, Accepted(log[..i], key), Replay(log[..i], key).value);
  }

  // What the invariant says of the signatures behind a completed session.
  lemma SignaturesAreJustified(config: Config, first: Hash, log: seq<Event>, i: nat, key: SessionKey)
    requires i <= |log| && LogJustified(config, first, log)
    ensures forall info :: info in Accepted(log[..i], key) ==>
      info.payloadType == key.payloadType && AcceptedWithinRetention(config, first, log, i, key, info)
  {
    forall info | info in Accepted(log[..i], key)
      ensures info.payloadType == key.payloadType && AcceptedWithinRetention(config, first, log, i, key, info)
    {
      var k := AcceptedComeFromTheLog(log[..i], key, info);
      assert Justified(config, first, log[..k], log[k]);
    }
  }

  // ---------- Messages ----------

  /** Everything behind an executed message, in any run: it is the message of one earlier approval and the only
      execution and approval of its command id; it is a leaf of the approved payload root for this domain; and the
      session that vouched for that root was an approval session signed by a quorum of a retained set. Who executed it
      signed with the account that only the destination program has for this command id. */
  lemma ExecutedMessagesAreAuthentic(params: InitializeConfigParams, start: i64, txs: seq<Transaction>, j: nat)
    returns (i: nat)
    requires IsRun(params, start, txs)
    requires j < |After(params, start, txs).log| && After(params, start, txs).log[j].MessageExecuted?
    ensures i < j && After(params, start, txs).log[i].MessageApproved?
    ensures OnlyApprovalAndExecution(After(params, start, txs).log, i, j)
    ensures ExecutedByDestination(After(params, start, txs).log[j])
    ensures AuthenticApproval(params, start, After(params, start, txs).log, i)
  {
    var config, first, log := Start(params, start).config, params.initialVerifierSet, After(params, start, txs).log;
    RunKeepsInv(params, start, txs);
    assert Justified(config, first, log[..j], log[j]);
    i :| 0 <= i < j && log[..j][i].MessageApproved? && log[..j][i].merklized.leaf.message == log[j].message;
    OneApprovalPerCommandId(config, first, log, i);
    OneExecutionPerCommandId(config, first, log, j);
    ApprovalsAreAuthentic(params, start, log, i);
  }

  predicate ExecutedByDestination(e: Event)
    requires e.MessageExecuted?
  {
    && e.message.destinationAddress.Key?
    && e.caller == SigningPda(CommandIdOf(e.message), e.message.destinationAddress.key)
  }

  ghost predicate OnlyApprovalAndExecution(log: seq<Event>, i: nat, j: nat)
    requires i < |log| && j < |log| && log[i].MessageApproved? && log[j].MessageExecuted?
  {
    var id := CommandIdOf(log[j].message);
    && log[i].merklized.leaf.message == log[j].message
    && (forall k :: 0 <= k < |log| && k != i && log[k].MessageApproved? ==>
          CommandIdOf(log[k].merklized.leaf.message) != id)
    && (forall k :: 0 <= k < |log| && k != j && log[k].MessageExecuted? ==> CommandIdOf(log[k].message) != id)
  }

  ghost predicate AuthenticApproval(params: InitializeConfigParams, start: i64, log: seq<Event>, i: nat)
    requires start >= 0 && i < |log| && log[i].MessageApproved?
  {
    var key, merklized := log[i].key, log[i].merklized;
    && key.payloadType == ApproveMessages
    && VerifyLeaf(key.payloadMerkleRoot, MsgLeaf(merklized.leaf), merklized.proof)
    && merklized.leaf.domainSeparator == params.domainSeparator
    && SignedByRetainedQuorum(params, start, log, i, key)
  }

  ghost predicate SignedByRetainedQuorum(
    params: InitializeConfigParams, start: i64, log: seq<Event>, i: nat, key: SessionKey)
    requires start >= 0 && i <= |log|
  {
    && (forall vs :: VerifierSetHash(vs, params.domainSeparator) == Ok(key.signingVerifierSetHash) ==>
          SignedByQuorum(log, i, key, vs, params.domainSeparator))
    && (forall info :: info in Accepted(log[..i], key) ==>
          AcceptedWithinRetention(Start(params, start).config, params.initialVerifierSet, log, i, key, info))
  }

  lemma CompletedMeansRetainedQuorum(
    params: InitializeConfigParams, start: i64, log: seq<Event>, i: nat, key: SessionKey)
    requires start >= 0 && i <= |log| && Completed(log[..i], key)
    requires LogJustified(Start(params, start).config, params.initialVerifierSet, log)
    ensures SignedByRetainedQuorum(params, start, log, i, key)
  {
    SignaturesAreJustified(Start(params, start).config, params.initialVerifierSet, log, i, key);
    forall vs | VerifierSetHash(vs, params.domainSeparator) == Ok(key.signingVerifierSetHash)
      ensures SignedByQuorum(log, i, key, vs, params.domainSeparator)
    {
      CompletedMeansSignedByQuorum(log, i, key, vs, params.domainSeparator);
    }
  }

  lemma ApprovalsAreAuthentic(params: InitializeConfigParams, start: i64, log: seq<Event>, i: nat)
    requires start >= 0 && i < |log| && log[i].MessageApproved?
    requires LogJustified(Start(params, start).config, params.initialVerifierSet, log)
    ensures AuthenticApproval(params, start, log, i)
  {
    assert Justified(Start(params, start).config, params.initialVerifierSet, log[..i], log[i]);
    CompletedMeansRetainedQuorum(params, start, log, i, log[i].key);
  }

  lemma OneApprovalPerCommandId(config: Config, first: Hash, log: seq<Event>, i: nat)
    requires LogJustified(config, first, log) && i < |log| && log[i].MessageApproved?
    ensures forall k :: 0 <= k < |log| && k != i && log[k].MessageApproved? ==>
      CommandIdOf(log[k].merklized.leaf.message) != CommandIdOf(log[i].merklized.leaf.message)
  {
    forall k | 0 <= k < |log| && k != i && log[k].MessageApproved?
      ensures CommandIdOf(log[k].merklized.leaf.message) != CommandIdOf(log[i].merklized.leaf.message)
    {
      var early, late := if k < i then k else i, if k < i then i else k;
      assert Justified(config, first, log[..late], log[late]);
      assert log[..late][early] == log[early];
    }
  }

  lemma OneExecutionPerCommandId(config: Config, first: Hash, log: seq<Event>, j: nat)
    requires LogJustified(config, first, log) && j < |log| && log[j].MessageExecuted?
    ensures forall k :: 0 <= k < |log| && k != j && log[k].MessageExecuted? ==>
      CommandIdOf(log[k].message) != CommandIdOf(log[j].message)
  {
    forall k | 0 <= k < |log| && k != j && log[k].MessageExecuted?
      ensures CommandIdOf(log[k].message) != CommandIdOf(log[j].message)
    {
      var early, late := if k < j then k else j, if k < j then j else k;
      assert Justified(config, first, log[..late], log[late]);
      assert log[..late][early] == log[early];
    }
  }

  /** When the signed root is that of a message batch, the executed message is the batch's message at the leaf's
      position. */
  lemma ExecutedMessagesComeFromTheBatch(
    params: InitializeConfigParams, start: i64, txs: seq<Transaction>, j: nat, batch: seq<Message>) returns (i: nat)
    requires IsRun(params, start, txs)
    requires j < |After(params, start, txs).log| && After(params, start, txs).log[j].MessageExecuted?
    ensures i < j && After(params, start, txs).log[i].MessageApproved?
    ensures MessagesRoot(batch, params.domainSeparator) == Ok(After(params, start,
        txs).log[i].key.payloadMerkleRoot) ==>
      && After(params, start, txs).log[i].merklized.leaf.position < |batch|
      && batch[After(params, start, txs).log[i].merklized.leaf.position] == After(params, start, txs).log[j].message
  {
    i := ExecutedMessagesAreAuthentic(params, start, txs, j);
    var log := After(params, start, txs).log;
    if MessagesRoot(batch, params.domainSeparator) == Ok(log[i].key.payloadMerkleRoot) {
      MessageMembership(batch, params.domainSeparator, MsgLeaf(log[i].merklized.leaf), log[i].merklized.proof);
    }
  }

  /** The chain and the id are joined without escaping, so different cross-chain ids can be one command id. */
  lemma CommandIdsCanCoincide(m: Message) returns (a: Message, b: Message)
    ensures a.ccId != b.ccId && CommandIdOf(a) == CommandIdOf(b)
  {
    a := m.(ccId := CrossChainId("eth-x", "1"));
    b := m.(ccId := CrossChainId("eth", "x-1"));
    assert "eth-x" + "-" + "1" == "eth" + "-" + "x-1";
    assert a.ccId.chain[..] != b.ccId.chain[..] by {
      assert |a.ccId.chain| != |b.ccId.chain|;
    }
  }

  // Every message with this command id has the same chain and id.
  ghost predicate CommandIdIsUnambiguous(m: Message) {
    forall o: Message :: CommandIdOf(o) == CommandIdOf(m) ==> o.ccId == m.ccId
  }

  /** Exactly when it cannot: a command id determines the chain and the id it joins if and only if neither contains the
      joining dash. */
  lemma CommandIdsAreUnambiguousWithoutDashes(m: Message)
    ensures CommandIdIsUnambiguous(m) <==> '-' !in m.ccId.chain && '-' !in m.ccId.id
  {
    if '-' in m.ccId.chain {
      DashInChainIsAmbiguous(m);
    } else if '-' in m.ccId.id {
      DashInIdIsAmbiguous(m);
    } else {
      forall o: Message | CommandIdOf(o) == CommandIdOf(m)
        ensures o.ccId == m.ccId
      {
        OneDashSplitsOneWay(m, o);
      }
    }
  }

  lemma DashInChainIsAmbiguous(m: Message)
    requires '-' in m.ccId.chain
    ensures !CommandIdIsUnambiguous(m)
  {
    var chain, id := m.ccId.chain, m.ccId.id;
    var k :| 0 <= k < |chain| && chain[k] == '-';
    var o := m.(ccId := CrossChainId(chain[..k], chain[k + 1..] + "-" + id));
    assert chain == chain[..k] + "-" + chain[k + 1..];
    assert CommandIdOf(o) == CommandIdOf(m);
    assert |o.ccId.chain| != |m.ccId.chain|;
  }

  lemma DashInIdIsAmbiguous(m: Message)
    requires '-' in m.ccId.id
    ensures !CommandIdIsUnambiguous(m)
  {
    var chain, id := m.ccId.chain, m.ccId.id;
    var k :| 0 <= k < |id| && id[k] == '-';
    var o := m.(ccId := CrossChainId(chain + "-" + id[..k], id[k + 1..]));
    assert id == id[..k] + "-" + id[k + 1..];
    assert CommandIdOf(o) == CommandIdOf(m);
    assert |o.ccId.chain| != |m.ccId.chain|;
  }

  lemma OneDashSplitsOneWay(m: Message, o: Message)
    requires '-' !in m.ccId.chain && '-' !in m.ccId.id && CommandIdOf(o) == CommandIdOf(m)
    ensures o.ccId == m.ccId
  {
    var text, n := CommandIdOf(m), |m.ccId.chain|;
    var k := |o.ccId.chain|;
    assert text[k] == '-' by {
      assert CommandIdOf(o)[k] == '-';
    }
    forall i | 0 <= i < |text| && i != n
      ensures text[i] != '-'
    {
      assert text[i] == if i < n then m.ccId.chain[i] else m.ccId.id[i - n - 1];
    }
    assert m.ccId.chain == text[..n] && m.ccId.id == text[n + 1..];
    assert o.ccId.chain == CommandIdOf(o)[..n] && o.ccId.id == CommandIdOf(o)[n + 1..];
  }

  /** What follows from it: once a command id is approved, no other message that shares it is ever approved, whatever
      the run and whoever signed for it; a complete session and a valid proof end in AccountAlreadyInUse. */
  lemma CollidingMessagesAreNeverApproved(
    s: State, txs: seq<Transaction>, merklized: MerklizedMessage, payloadRoot: Hash, sessionSet: Hash)
    requires CommandIdOf(merklized.leaf.message) in s.messages
    ensures var after := Run(s, txs);
      var attempt := ApproveMessageSpec(after, merklized, payloadRoot, sessionSet);
      && attempt.Err?
      && (attempt == Err(AccountAlreadyInUse) <==>
            var session := LoadSession(after, SessionKey(payloadRoot, ApproveMessages, sessionSet));
            session.Ok? && session.value.IsValid())
  {
    MessagesOnlyAdvance(s, txs, CommandIdOf(merklized.leaf.message));
  }

  // 0 when absent, 1 when approved, 2 when executed.
  function Progress(s: State, id: CommandId): nat {
    if id !in s.messages then 0 else if s.messages[id].status == Approved then 1 else 2
  }

  /** In any run from any state a command id only advances, one stage at a time, and what was approved stays the same.
      */
  lemma {:induction false} MessagesOnlyAdvance(s: State, txs: seq<Transaction>, id: CommandId)
    ensures Progress(s, id) <= Progress(Run(s, txs), id) <= Progress(s, id) + |txs|
    ensures id in s.messages ==>
      && Run(s, txs).messages[id].messageHash == s.messages[id].messageHash
      && Run(s, txs).messages[id].payloadHash == s.messages[id].payloadHash
  {
    if |txs| == 0 {
    } else {
      MessagesOnlyAdvance(s, txs[..|txs| - 1], id);
      OneStageAtATime(Run(s, txs[..|txs| - 1]), txs[|txs| - 1], id);
    }
  }

  lemma OneStageAtATime(s: State, tx: Transaction, id: CommandId)
    ensures Progress(s, id) <= Progress(Step(s, tx), id) <= Progress(s, id) + 1
    ensures id in s.messages ==>
      && Step(s, tx).messages[id].messageHash == s.messages[id].messageHash
      && Step(s, tx).messages[id].payloadHash == s.messages[id].payloadHash
  {}

  // ---------- The chain of trust ----------

  /** Every set but the first was put in place by a rotation whose session a quorum of an earlier set signed. That set
      was within retention, and it was the latest one whenever the delay was enforced. The session counts only
      signatures over (RotateSigners, the new set), so no approval session can stand in for it. */
  lemma RotationsAreAuthorised(params: InitializeConfigParams, start: i64, txs: seq<Transaction>, setHash: Hash)
    returns (k: nat)
    requires IsRun(params, start, txs)
    requires setHash in After(params, start, txs).trackers && After(params, start, txs).trackers[setHash].epoch > 1
    ensures k < |After(params, start, txs).log|
    ensures AuthorisedRotation(params, start, After(params, start, txs), k, setHash)
  {
    RunKeepsInv(params, start, txs);
    k := RegistrationsAreAuthorised(params, start, After(params, start, txs), setHash);
  }

  lemma RegistrationsAreAuthorised(params: InitializeConfigParams, start: i64, s: State, setHash: Hash)
    returns (k: nat)
    requires start >= 0 && TrackersMatch(params.initialVerifierSet, s)
    requires LogJustified(Start(params, start).config, params.initialVerifierSet, s.log)
    requires setHash in s.trackers && s.trackers[setHash].epoch > 1
    ensures k < |s.log| && AuthorisedRotation(params, start, s, k, setHash)
  {
    TrackerSaysWhenRegistered(params.initialVerifierSet, s, setHash);
    k := RegisteredByRotation(params.initialVerifierSet, s.log, s.trackers[setHash].epoch);
    RotationIsAuthorised(params, start, s, k);
  }

  lemma RotationIsAuthorised(params: InitializeConfigParams, start: i64, s: State, k: nat)
    requires start >= 0 && TrackersMatch(params.initialVerifierSet, s)
    requires LogJustified(Start(params, start).config, params.initialVerifierSet, s.log)
    requires k < |s.log| && s.log[k].VerifierSetRotated? && s.log[k].newSet in s.trackers
    requires |Registry(params.initialVerifierSet, s.log[..k])| + 1 == s.trackers[s.log[k].newSet].epoch
    ensures AuthorisedRotation(params, start, s, k, s.log[k].newSet)
  {
    SignerWasRetained(Start(params, start).config, params.initialVerifierSet, s, k);
    RotationWasSigned(params, start, s.log, k);
  }

  lemma SignerWasRetained(config: Config, first: Hash, s: State, k: nat)
    requires TrackersMatch(first, s) && LogJustified(config, first, s.log)
    requires k < |s.log| && s.log[k].VerifierSetRotated?
    ensures s.log[k].epoch == |Registry(first, s.log[..k])| + 1
    ensures SignedWithinRetention(config.previousVerifierSetRetention, s, k)
  {
    RotationWasJustified(config, first, s.log, k);
    RetainedSignerIsRegistered(config, first, s, k);
  }

  lemma RetainedSignerIsRegistered(config: Config, first: Hash, s: State, k: nat)
    requires TrackersMatch(first, s) && k < |s.log| && s.log[k].VerifierSetRotated?
    requires s.log[k].epoch == |Registry(first, s.log[..k])| + 1
    requires Retained(config, Registry(first, s.log[..k]), s.log[k].signedBy, s.log[k].signerEpoch)
    requires s.log[k].delayEnforced ==> s.log[k].signerEpoch == s.log[k].epoch - 1
    ensures SignedWithinRetention(config.previousVerifierSetRetention, s, k)
  {
    SignerIsStillRegistered(first, s, k, s.log[k].signerEpoch);
  }

  lemma RotationWasSigned(params: InitializeConfigParams, start: i64, log: seq<Event>, k: nat)
    requires start >= 0 && LogJustified(Start(params, start).config, params.initialVerifierSet, log)
    requires k < |log| && log[k].VerifierSetRotated?
    ensures SignedByRetainedQuorum(params, start, log, k, SessionKey(log[k].newSet, RotateSigners, log[k].signedBy))
  {
    RotationWasJustified(Start(params, start).config, params.initialVerifierSet, log, k);
    CompletedMeansRetainedQuorum(params, start, log, k, SessionKey(log[k].newSet, RotateSigners, log[k].signedBy));
  }

  lemma RotationWasJustified(config: Config, first: Hash, log: seq<Event>, k: nat)
    requires LogJustified(config, first, log) && k < |log| && log[k].VerifierSetRotated?
    ensures log[k].epoch == |Registry(first, log[..k])| + 1
    ensures Retained(config, Registry(first, log[..k]), log[k].signedBy, log[k].signerEpoch)
    ensures log[k].delayEnforced ==> log[k].signerEpoch == log[k].epoch - 1
    ensures Completed(log[..k], SessionKey(log[k].newSet, RotateSigners, log[k].signedBy))
  {
    assert Justified(config, first, log[..k], log[k]);
  }

  lemma SignerIsStillRegistered(first: Hash, s: State, k: nat, epoch: nat)
    requires TrackersMatch(first, s) && k <= |s.log| && 1 <= epoch <= |Registry(first, s.log[..k])|
    ensures var setHash := Registry(first, s.log[..k])[epoch - 1];
      setHash in s.trackers && s.trackers[setHash].epoch == epoch
  {
    RegistryOnlyGrows(first, s.log, k);
    assert Registry(first, s.log)[epoch - 1] == Registry(first, s.log[..k])[epoch - 1];
  }

  ghost predicate AuthorisedRotation(
    params: InitializeConfigParams, start: i64, s: State, k: nat, setHash: Hash)
    requires start >= 0 && k < |s.log| && setHash in s.trackers
  {
    && s.log[k].VerifierSetRotated? && s.log[k].newSet == setHash && s.log[k].epoch == s.trackers[setHash].epoch
    && SignedWithinRetention(params.previousVerifierRetention, s, k)
    && SignedByRetainedQuorum(params, start, s.log, k, SessionKey(setHash, RotateSigners, s.log[k].signedBy))
  }

  // The signing set was registered earlier and not too long before; under the delay it was the latest.
  ghost predicate SignedWithinRetention(retention: nat, s: State, k: nat)
    requires k < |s.log| && s.log[k].VerifierSetRotated?
  {
    var e := s.log[k];
    && e.signedBy in s.trackers && s.trackers[e.signedBy].epoch == e.signerEpoch < e.epoch
    && e.epoch - 1 - e.signerEpoch < retention
    && (e.delayEnforced ==> e.signerEpoch == e.epoch - 1)
  }

  lemma {:induction false} RegisteredByRotation(first: Hash, log: seq<Event>, epoch: nat) returns (k: nat)
    requires 1 < epoch <= |Registry(first, log)|
    ensures k < |log| && log[k].VerifierSetRotated? && log[k].newSet == Registry(first, log)[epoch - 1]
    ensures |Registry(first, log[..k])| == epoch - 1
  {
    var n := |log| - 1;
    if epoch <= |Registry(first, log[..n])| {
      k := RegisteredByRotation(first, log[..n], epoch);
      assert log[..n][..k] == log[..k];
    } else {
      k := n;
    }
  }

  lemma {:induction false} RegistryOnlyGrows(first: Hash, log: seq<Event>, k: nat)
    requires k <= |log|
    ensures Registry(first, log[..k]) <= Registry(first, log)
  {
    if k < |log| {
      RegistryOnlyGrows(first, log[..|log| - 1], k);
      assert log[..|log| - 1][..k] == log[..k];
    } else {
      assert log[..k] == log;
    }
  }

  // A rotation authorised by one set put the other in place.
  ghost predicate Succeeds(params: InitializeConfigParams, start: i64, s: State, signer: Hash, newSet: Hash)
    requires start >= 0
  {
    newSet in s.trackers &&
    exists k :: 0 <= k < |s.log| && AuthorisedRotation(params, start, s, k, newSet) && s.log[k].signedBy == signer
  }

  ghost predicate TrustChain(params: InitializeConfigParams, start: i64, s: State, chain: seq<Hash>)
    requires start >= 0
  {
    && |chain| > 0 && chain[0] == params.initialVerifierSet
    && forall i :: 0 < i < |chain| ==> Succeeds(params, start, s, chain[i - 1], chain[i])
  }

  /** Every registered set is reached from the initial one by a chain of authorised rotations. */
  lemma {:induction false} EverySetDescendsFromTheFirst(
    params: InitializeConfigParams, start: i64, txs: seq<Transaction>, setHash: Hash) returns (chain: seq<Hash>)
    requires IsRun(params, start, txs) && setHash in After(params, start, txs).trackers
    ensures TrustChain(params, start, After(params, start, txs), chain) && chain[|chain| - 1] == setHash
    decreases After(params, start, txs).trackers[setHash].epoch
  {
    var s := After(params, start, txs);
    EpochOneIsTheFirst(params, start, txs, setHash);
    if s.trackers[setHash].epoch == 1 {
      chain := [setHash];
    } else {
      var k := RotationsAreAuthorised(params, start, txs, setHash);
      var before := EverySetDescendsFromTheFirst(params, start, txs, s.log[k].signedBy);
      assert Succeeds(params, start, s, s.log[k].signedBy, setHash);
      chain := before + [setHash];
    }
  }

  lemma EpochOneIsTheFirst(params: InitializeConfigParams, start: i64, txs: seq<Transaction>, setHash: Hash)
    requires IsRun(params, start, txs) && setHash in After(params, start, txs).trackers
    ensures After(params, start, txs).trackers[setHash].epoch >= 1
    ensures After(params, start, txs).trackers[setHash].epoch == 1 ==> setHash == params.initialVerifierSet
  {
    RunKeepsInv(params, start, txs);
    TrackerSaysWhenRegistered(params.initialVerifierSet, After(params, start, txs), setHash);
    RegistryStartsWithFirst(params.initialVerifierSet, After(params, start, txs).log);
  }

  lemma RegistryStartsWithFirst(first: Hash, log: seq<Event>)
    ensures Registry(first, log)[0] == first
  {
    RegistryOnlyGrows(first, log, 0);
    assert log[..0] == [];
  }

  // ---------- Epochs ----------

  ghost function ValidSets(s: State): set<Hash> {
    set h | h in s.trackers && AssertValidEpoch(s.config, s.trackers[h].epoch).Ok?
  }

  ghost predicate IsTaken(s: State, epoch: nat) {
    exists h :: h in s.trackers && s.trackers[h].epoch == epoch
  }

  ghost predicate EpochsAreABijection(s: State) {
    && (forall h :: h in s.trackers ==> 1 <= s.trackers[h].epoch <= s.config.currentEpoch)
    && (forall g, h :: g in s.trackers && h in s.trackers && s.trackers[g].epoch == s.trackers[h].epoch ==> g == h)
    && (forall e :: 1 <= e <= s.config.currentEpoch ==> IsTaken(s, e))
  }

  lemma TrackersAreABijection(first: Hash, s: State)
    requires TrackersMatch(first, s)
    ensures EpochsAreABijection(s)
  {
    forall h | h in s.trackers
      ensures 1 <= s.trackers[h].epoch <= s.config.currentEpoch
    {
      TrackerSaysWhenRegistered(first, s, h);
    }
    forall g, h | g in s.trackers && h in s.trackers && s.trackers[g].epoch == s.trackers[h].epoch
      ensures g == h
    {
      TrackerSaysWhenRegistered(first, s, g);
      TrackerSaysWhenRegistered(first, s, h);
    }
    forall e | 1 <= e <= s.config.currentEpoch
      ensures IsTaken(s, e)
    {
      EveryEpochIsTaken(first, s, e);
    }
  }

  lemma EveryEpochIsTaken(first: Hash, s: State, e: nat)
    requires TrackersMatch(first, s) && 1 <= e <= s.config.currentEpoch
    ensures IsTaken(s, e)
  {
    var h := Registry(first, s.log)[e - 1];
    assert h in s.trackers && s.trackers[h].epoch == e;
  }

  // A set is valid when it is among the latest ones of the registry.
  lemma ValidMeansLate(first: Hash, s: State, h: Hash)
    requires TrackersMatch(first, s)
    ensures h in ValidSets(s) <==>
      exists i :: 0 <= i < |Registry(first, s.log)| && Registry(first, s.log)[i] == h
        && |Registry(first, s.log)| - (i + 1) < s.config.previousVerifierSetRetention
  {
    if h in s.trackers {
      TrackerSaysWhenRegistered(first, s, h);
    }
  }

  lemma ValidSetsAreTheLatest(first: Hash, s: State)
    requires TrackersMatch(first, s)
    ensures |ValidSets(s)| == Min(s.config.previousVerifierSetRetention, s.config.currentEpoch)
  {
    var sets := Registry(first, s.log);
    var older := |sets| - Min(s.config.previousVerifierSetRetention, |sets|);
    var latest := sets[older..];
    forall h
      ensures h in ValidSets(s) <==> h in latest
    {
      ValidMeansLate(first, s, h);
      LateMeansAmongTheLast(sets, s.config.previousVerifierSetRetention, h);
    }
    DistinctElementsCount(latest, ValidSets(s));
  }

  lemma LateMeansAmongTheLast(sets: seq<Hash>, retention: nat, h: Hash)
    ensures h in sets[|sets| - Min(retention, |sets|)..] <==>
      exists i :: 0 <= i < |sets| && sets[i] == h && |sets| - (i + 1) < retention
  {
    var older := |sets| - Min(retention, |sets|);
    if i :| 0 <= i < |sets| && sets[i] == h && |sets| - (i + 1) < retention {
      assert sets[older..][i - older] == h;
    }
    if h in sets[older..] {
      var i :| 0 <= i < |sets[older..]| && sets[older..][i] == h;
      assert sets[older + i] == h;
    }
  }

  /** In every run the epochs of the trackers are a bijection onto 1..current_epoch, the epoch subtraction never
      underflows, and exactly min(retention, current_epoch) sets are valid. */
  lemma EpochsNumberTheSets(params: InitializeConfigParams, start: i64, txs: seq<Transaction>)
    requires IsRun(params, start, txs)
    ensures EpochsAreABijection(After(params, start, txs))
    ensures forall h :: h in After(params, start, txs).trackers ==>
      AssertValidEpoch(After(params, start, txs).config, After(params, start, txs).trackers[h].epoch)
        != Err(EpochCalculationOverflow)
    ensures |ValidSets(After(params, start, txs))|
         == Min(params.previousVerifierRetention, After(params, start, txs).config.currentEpoch)
  {
    RunKeepsInv(params, start, txs);
    TrackersAreABijection(params.initialVerifierSet, After(params, start, txs));
    ValidSetsAreTheLatest(params.initialVerifierSet, After(params, start, txs));
  }

  lemma {:induction false} DistinctElementsCount<T>(s: seq<T>, elements: set<T>)
    requires forall i, j :: 0 <= i < j < |s| ==> s[i] != s[j]
    requires forall x :: x in elements <==> x in s
    ensures |elements| == |s|
  {
    if |s| == 0 {
      assert elements == {};
    } else {
      var last := s[|s| - 1];
      DistinctElementsCount(s[..|s| - 1], elements - {last});
    }
  }

  lemma EpochsOnlyGrow(s: State, tx: Transaction)
    ensures s.config.currentEpoch <= Step(s, tx).config.currentEpoch
    ensures s.config.previousVerifierSetRetention == Step(s, tx).config.previousVerifierSetRetention
    ensures forall h :: h in s.trackers ==> h in Step(s, tx).trackers && Step(s, tx).trackers[h] == s.trackers[h]
  {}

  /** A set that has expired never becomes valid again, and a set keeps its epoch: from any state, through any run. */
  lemma {:induction false} ExpiredStaysExpired(s: State, txs: seq<Transaction>, h: Hash)
    requires h in s.trackers
    ensures h in Run(s, txs).trackers && Run(s, txs).trackers[h] == s.trackers[h]
    ensures s.config.currentEpoch <= Run(s, txs).config.currentEpoch
    ensures s.config.previousVerifierSetRetention == Run(s, txs).config.previousVerifierSetRetention
    ensures AssertValidEpoch(s.config, s.trackers[h].epoch) == Err(VerifierSetTooOld) ==>
      AssertValidEpoch(Run(s, txs).config, Run(s, txs).trackers[h].epoch) == Err(VerifierSetTooOld)
  {
    if |txs| == 0 {
    } else {
      ExpiredStaysExpired(s, txs[..|txs| - 1], h);
      EpochsOnlyGrow(Run(s, txs[..|txs| - 1]), txs[|txs| - 1]);
    }
  }

  // ---------- Rotation times ----------

  ghost predicate EnforcedRotations(log: seq<Event>, indices: seq<nat>) {
    && (forall m :: 0 <= m < |indices| ==>
          indices[m] < |log| && log[indices[m]].VerifierSetRotated? && log[indices[m]].delayEnforced)
    && (forall m, n :: 0 <= m < n < |indices| ==> indices[m] < indices[n])
  }

  /** Any m rotations under the enforced delay span at least m - 1 delays, whatever operator rotations lie between, and
      the last of them comes at least m delays after initialization. */
  lemma EnforcedRotationsKeepTheirDistance(
    params: InitializeConfigParams, start: i64, txs: seq<Transaction>, indices: seq<nat>)
    requires IsRun(params, start, txs)
    requires |indices| > 0 && EnforcedRotations(After(params, start, txs).log, indices)
    ensures var log := After(params, start, txs).log;
      && log[indices[|indices| - 1]].at - log[indices[0]].at >= (|indices| - 1) * params.minimumRotationDelay
      && log[indices[|indices| - 1]].at - start >= |indices| * params.minimumRotationDelay
  {
    RunKeepsInv(params, start, txs);
    var config, first, log := Start(params, start).config, params.initialVerifierSet, After(params, start, txs).log;
    JustifiedRotationsKeepTheirDistance(config, first, log, indices);
    assert Justified(config, first, log[..indices[0]], log[indices[0]]);
    OneMoreDelay(|indices|, params.minimumRotationDelay);
  }

  lemma TwoRotationsKeepTheirDistance(config: Config, first: Hash, log: seq<Event>, i: nat, j: nat)
    requires LogJustified(config, first, log) && i < j < |log|
    requires log[i].VerifierSetRotated? && log[j].VerifierSetRotated? && log[j].delayEnforced
    ensures log[j].at >= log[i].at + config.minimumRotationDelay
  {
    assert Justified(config, first, log[..j], log[j]);
    assert log[..j][i] == log[i];
  }

  lemma PrefixIsEnforced(log: seq<Event>, indices: seq<nat>)
    requires |indices| > 1 && EnforcedRotations(log, indices)
    ensures EnforcedRotations(log, indices[..|indices| - 1])
    ensures indices[|indices| - 2] < indices[|indices| - 1]
  {}

  lemma {:induction false} JustifiedRotationsKeepTheirDistance(
    config: Config, first: Hash, log: seq<Event>, indices: seq<nat>)
    requires LogJustified(config, first, log) && |indices| > 0 && EnforcedRotations(log, indices)
    ensures log[indices[|indices| - 1]].at - log[indices[0]].at >= (|indices| - 1) * config.minimumRotationDelay
  {
    var m := |indices| - 1;
    if m == 0 {
    } else {
      PrefixIsEnforced(log, indices);
      JustifiedRotationsKeepTheirDistance(config, first, log, indices[..m]);
      TwoRotationsKeepTheirDistance(config, first, log, indices[m - 1], indices[m]);
      DistancesAddUp(log[indices[0]].at, log[indices[m - 1]].at, log[indices[m]].at, m, config.minimumRotationDelay);
    }
  }

  lemma OneMoreDelay(m: nat, delay: nat)
    requires m > 0
    ensures (m - 1) * delay + delay == m * delay
  {}

  lemma DistancesAddUp(first: int, before: int, last: int, m: nat, delay: nat)
    requires m > 0 && before - first >= (m - 1) * delay && last >= before + delay
    ensures last - first >= m * delay
  {
    OneMoreDelay(m, delay);
  }

  lemma PanicNeedsAnOldClock(s: State, tx: Transaction)
    requires Execute(s, tx) == Err(ClockUnderflowPanic)
    ensures tx.now < s.config.lastRotationTimestamp
  {}

  /** The panic on a clock before the last rotation is unreachable as long as the clock does not go back. */
  lemma ClockNeverUnderflows(params: InitializeConfigParams, start: i64, txs: seq<Transaction>, next: Transaction)
    requires IsRun(params, start, txs) && LastTime(start, txs) <= next.now
    ensures Execute(After(params, start, txs), next) != Err(ClockUnderflowPanic)
  {
    RunKeepsInv(params, start, txs);
    if Execute(After(params, start, txs), next) == Err(ClockUnderflowPanic) {
      PanicNeedsAnOldClock(After(params, start, txs), next);
    }
  }
}
