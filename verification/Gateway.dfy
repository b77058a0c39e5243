// The gateway: verifier set trackers, verification sessions and incoming messages, one function per instruction.
//
// Accounts are maps keyed the way their addresses are derived. A failed instruction changes nothing, since the
// runtime undoes its transaction. The log holds the emitted events and one entry per accepted signature.
module Gateway {
  import opened Prelude
  import opened Merkle
  import opened AxelarStd
  import opened VerificationSession

  datatype GatewayError =
    | AccountNotInitialized
    | AccountAlreadyInUse
    | ConstraintSeeds
    | InvalidTimestamp
    | InvalidDomainSeparator
    | VerifierSetTooOld
    | EpochCalculationOverflow
    | Session(error: SessionError)
    | SigningSessionNotValid
    | InvalidVerifierSetTrackerProvided
    | DuplicateVerifierSetRotation
    | ProofNotSignedByLatestVerifierSet
    | RotationCooldownNotDone
    | ClockUnderflowPanic
    | MalformedMerkleProof
    | LeafNodeNotPartOfMerkleRoot
    | MessageNotApproved
    | InvalidMessageHash
    | InvalidDestinationAddress
    | InvalidSigningPda
    | InvalidOperatorOrAuthorityAccount
    | InvalidInstructionData

  type u256 = n: nat | n <= U256_MAX

  // ---------- Accounts ----------

  datatype Config = Config(
    currentEpoch: u256, previousVerifierSetRetention: u256, minimumRotationDelay: u64,
    lastRotationTimestamp: u64, operator: Pubkey, domainSeparator: Bytes32)

  datatype VerifierSetTracker = VerifierSetTracker(epoch: u256, verifierSetHash: Hash)

  datatype SessionKey = SessionKey(payloadMerkleRoot: Hash, payloadType: PayloadType, signingVerifierSetHash: Hash)

  datatype MessageStatus = Approved | Executed

  datatype IncomingMessage = IncomingMessage(status: MessageStatus, messageHash: Hash, payloadHash: Bytes32)

  // The signing account a destination program derives from a command id, or any other account.
  datatype Caller = SigningPda(commandId: CommandId, program: Pubkey) | OtherAccount(key: Pubkey)

  datatype Event =
    | SignatureAccepted(key: SessionKey, info: SigningVerifierSetInfo, setEpoch: nat, currentEpoch: nat)
    | VerifierSetRotated(newSet: Hash, signedBy: Hash, signerEpoch: nat, epoch: nat, at: nat, delayEnforced: bool)
    | MessageApproved(key: SessionKey, merklized: MerklizedMessage)
    | MessageExecuted(message: Message, caller: Caller)
    | OperatorshipTransferred(newOperator: Pubkey)

  datatype State = State(
    config: Config, trackers: map<Hash, VerifierSetTracker>, sessions: map<SessionKey, SessionData>,
    messages: map<CommandId, IncomingMessage>, log: seq<Event>)

  datatype InitializeConfigParams = InitializeConfigParams(
    domainSeparator: Bytes32, initialVerifierSet: Hash, minimumRotationDelay: u64, operator: Pubkey,
    previousVerifierRetention: u256)

  // ---------- Instructions ----------

  function AssertValidEpoch(config: Config, epoch: u256): Result<(), GatewayError> {
    if epoch > config.currentEpoch then Err(EpochCalculationOverflow)
    else if config.currentEpoch - epoch >= config.previousVerifierSetRetention then Err(VerifierSetTooOld)
    else Ok(())
  }

  function InitializeConfig(params: InitializeConfigParams, now: i64): Result<State, GatewayError> {
    if now < 0 then Err(InvalidTimestamp)
    else
      Ok(State(
        Config(1, params.previousVerifierRetention, params.minimumRotationDelay, now, params.operator,
               params.domainSeparator),
        map[params.initialVerifierSet := VerifierSetTracker(1, params.initialVerifierSet)],
        map[], map[], []))
  }

  // The session account must sit at the address derived from the set hash it stores.
  function LoadSession(s: State, key: SessionKey): Result<SessionData, GatewayError> {
    if key !in s.sessions then Err(AccountNotInitialized)
    else if s.sessions[key].signingVerifierSetHash != key.signingVerifierSetHash then Err(ConstraintSeeds)
    else Ok(s.sessions[key])
  }

  function LoadTracker(s: State, setHash: Hash): Result<VerifierSetTracker, GatewayError> {
    if setHash !in s.trackers then Err(AccountNotInitialized)
    else if s.trackers[setHash].verifierSetHash != setHash then Err(ConstraintSeeds)
    else Ok(s.trackers[setHash])
  }

  function EnoughTimeTillNextRotation(config: Config, now: nat): Result<bool, GatewayError> {
    if now < config.lastRotationTimestamp then Err(ClockUnderflowPanic)
    else Ok(now - config.lastRotationTimestamp >= config.minimumRotationDelay)
  }

  // Everything RotateSigners checks; the result says at which epoch the signing set was registered.
  function CheckRotation(s: State, newSet: Hash, sessionSet: Hash, operator: Option<Pubkey>, now: i64)
    : Result<nat, GatewayError>
  {
    var session :- LoadSession(s, SessionKey(newSet, PayloadType.RotateSigners, sessionSet));
    if !session.IsValid() then Err(SigningSessionNotValid)
    else
      var tracker :- LoadTracker(s, session.signingVerifierSetHash);
      if tracker.verifierSetHash == newSet then Err(DuplicateVerifierSetRotation)
      else if newSet in s.trackers then Err(AccountAlreadyInUse)
      else
        var _ :- AssertValidEpoch(s.config, tracker.epoch);
        if EnforcesDelay(s.config, operator) && tracker.epoch != s.config.currentEpoch then
          Err(ProofNotSignedByLatestVerifierSet)
        else if now < 0 then Err(InvalidTimestamp)
        else
          var enough :- if EnforcesDelay(s.config, operator) then EnoughTimeTillNextRotation(s.config, now)
            else Ok(true);
          if !enough then Err(RotationCooldownNotDone)
          else if s.config.currentEpoch == U256_MAX then Err(EpochCalculationOverflow)
          else Ok(tracker.epoch)
  }

  predicate EnforcesDelay(config: Config, operator: Option<Pubkey>) {
    operator != Some(config.operator)
  }

  function RotateSignersSpec(s: State, newSet: Hash, sessionSet: Hash, operator: Option<Pubkey>, now: i64)
    : Result<State, GatewayError>
  {
    var signerEpoch :- CheckRotation(s, newSet, sessionSet, operator, now);
    var epoch := s.config.currentEpoch + 1;
    Ok(s.(
      config := s.config.(lastRotationTimestamp := now, currentEpoch := epoch),
      trackers := s.trackers[newSet := VerifierSetTracker(epoch, newSet)],
      log := s.log + [VerifierSetRotated(newSet, sessionSet, signerEpoch, epoch, now,
                                         EnforcesDelay(s.config, operator))]))
  }

  function OpenSessionSpec(s: State, payloadRoot: Hash, payloadType: PayloadType, setHash: Hash)
    : Result<State, GatewayError>
  {
    var tracker :- LoadTracker(s, setHash);
    var key := SessionKey(payloadRoot, payloadType, setHash);
    if AssertValidEpoch(s.config, tracker.epoch).Err? then Err(VerifierSetTooOld)
    else if key in s.sessions then Err(AccountAlreadyInUse)
    else Ok(s.(sessions := s.sessions[key := Fresh(setHash)]))
  }

  function VerifySignatureSpec(
    s: State, payloadRoot: Hash, info: SigningVerifierSetInfo, sessionSet: Hash, trackerSet: Hash)
    : Result<State, GatewayError>
  {
    var key := SessionKey(payloadRoot, info.payloadType, sessionSet);
    var session :- LoadSession(s, key);
    var tracker :- LoadTracker(s, trackerSet);
    if s.config.domainSeparator != info.leaf.domainSeparator then Err(InvalidDomainSeparator)
    else if AssertValidEpoch(s.config, tracker.epoch).Err? then Err(VerifierSetTooOld)
    else if |session.signatureSlots| != SLOT_BYTES then Err(AccountNotInitialized)
    else
      match ProcessedBy(session, payloadRoot, tracker.verifierSetHash, info)
      case Err(e) => Err(Session(e))
      case Ok(processed) =>
        Ok(s.(sessions := s.sessions[key := processed],
              log := s.log + [SignatureAccepted(key, info, tracker.epoch, s.config.currentEpoch)]))
  }

  function ApproveMessageSpec(s: State, merklized: MerklizedMessage, payloadRoot: Hash, sessionSet: Hash)
    : Result<State, GatewayError>
  {
    var key := SessionKey(payloadRoot, ApproveMessages, sessionSet);
    var session :- LoadSession(s, key);
    var leaf, message := merklized.leaf, merklized.leaf.message;
    if !session.IsValid() then Err(SigningSessionNotValid)
    else if CommandIdOf(message) in s.messages then Err(AccountAlreadyInUse)
    else if leaf.domainSeparator != s.config.domainSeparator then Err(InvalidDomainSeparator)
    else if merklized.proof.None? then Err(MalformedMerkleProof)
    else if !VerifyLeaf(payloadRoot, MsgLeaf(leaf), merklized.proof) then Err(LeafNodeNotPartOfMerkleRoot)
    else
      var incoming := IncomingMessage(Approved, Leaf(Msg(message)), message.payloadHash);
      Ok(s.(messages := s.messages[CommandIdOf(message) := incoming], log := s.log + [MessageApproved(key, merklized)]))
  }

  function ValidateMessageSpec(s: State, message: Message, caller: Caller): Result<State, GatewayError> {
    var id := CommandIdOf(message);
    if id !in s.messages then Err(AccountNotInitialized)
    else if s.messages[id].status != Approved then Err(MessageNotApproved)
    else if s.messages[id].messageHash != Leaf(Msg(message)) then Err(InvalidMessageHash)
    else if message.destinationAddress.Text? then Err(InvalidDestinationAddress)
    else if caller != SigningPda(id, message.destinationAddress.key) then Err(InvalidSigningPda)
    else
      Ok(s.(messages := s.messages[id := s.messages[id].(status := Executed)],
            log := s.log + [MessageExecuted(message, caller)]))
  }

  function TransferOperatorshipSpec(s: State, signer: Pubkey, upgradeAuthority: Option<Pubkey>, newOperator: Pubkey)
    : Result<State, GatewayError>
  {
    if signer != s.config.operator && upgradeAuthority != Some(signer) then Err(InvalidOperatorOrAuthorityAccount)
    else if newOperator == s.config.operator then Err(InvalidInstructionData)
    else Ok(s.(config := s.config.(operator := newOperator), log := s.log + [OperatorshipTransferred(newOperator)]))
  }

  // ---------- The program over its accounts ----------

  class GatewayProgram {
    var config: Config
    var trackers: map<Hash, VerifierSetTracker>
    var sessions: map<SessionKey, SessionData>
    var messages: map<CommandId, IncomingMessage>
    ghost var log: seq<Event>

    ghost function View(): State
      reads this
    {
      State(config, trackers, sessions, messages, log)
    }

    constructor (params: InitializeConfigParams, now: i64)
      requires now >= 0
      ensures InitializeConfig(params, now) == Ok(View())
    {
      config := Config(1, params.previousVerifierRetention, params.minimumRotationDelay, now, params.operator,
                       params.domainSeparator);
      trackers := map[params.initialVerifierSet := VerifierSetTracker(1, params.initialVerifierSet)];
      sessions, messages, log := map[], map[], [];
    }

    method RotateSigners(newSet: Hash, sessionSet: Hash, operator: Option<Pubkey>, now: i64)
      returns (r: Result<(), GatewayError>)
      modifies this
      ensures Follows(old(View()), View(), r, RotateSignersSpec(old(View()), newSet, sessionSet, operator, now))
    {
      var key := SessionKey(newSet, PayloadType.RotateSigners, sessionSet);
      if key !in sessions {
        return Err(AccountNotInitialized);
      }
      var signingSet := sessions[key].signingVerifierSetHash;
      if signingSet != sessionSet {
        return Err(ConstraintSeeds);
      }
      if !sessions[key].IsValid() {
        return Err(SigningSessionNotValid);
      }
      if signingSet !in trackers {
        return Err(AccountNotInitialized);
      }
      var tracker := trackers[signingSet];
      if tracker.verifierSetHash != signingSet {
        return Err(ConstraintSeeds);
      }
      if tracker.verifierSetHash == newSet {
        return Err(DuplicateVerifierSetRotation);
      }
      if newSet in trackers {
        return Err(AccountAlreadyInUse);
      }
      // The current verifier set must not be expired.
      var valid := AssertValidEpoch(config, tracker.epoch);
      if valid.Err? {
        return valid;
      }
      var enforceRotationDelay := operator.None? || operator.value != config.operator;
      var isLatest := config.currentEpoch == tracker.epoch;
      if enforceRotationDelay && !isLatest {
        return Err(ProofNotSignedByLatestVerifierSet);
      }
      if now < 0 {
        return Err(InvalidTimestamp);
      }
      if enforceRotationDelay {
        var enough := EnoughTimeTillNextRotation(config, now);
        if enough.Err? {
          return Err(enough.error);
        }
        if !enough.value {
          return Err(RotationCooldownNotDone);
        }
      }
      if config.currentEpoch == U256_MAX {
        return Err(EpochCalculationOverflow);
      }
      config := config.(lastRotationTimestamp := now);
      config := config.(currentEpoch := config.currentEpoch + 1);
      trackers := trackers[newSet := VerifierSetTracker(config.currentEpoch, newSet)];
      log := log + [VerifierSetRotated(newSet, sessionSet, tracker.epoch, config.currentEpoch, now,
          enforceRotationDelay)];
      r := Ok(());
    }

    method InitializePayloadVerificationSession(payloadRoot: Hash, payloadType: PayloadType, setHash: Hash)
      returns (r: Result<(), GatewayError>)
      modifies this`sessions
      ensures Follows(old(View()), View(), r, OpenSessionSpec(old(View()), payloadRoot, payloadType, setHash))
    {
      if setHash !in trackers {
        return Err(AccountNotInitialized);
      }
      var tracker := trackers[setHash];
      if tracker.verifierSetHash != setHash {
        return Err(ConstraintSeeds);
      }
      if AssertValidEpoch(config, tracker.epoch).Err? {
        return Err(VerifierSetTooOld);
      }
      var key := SessionKey(payloadRoot, payloadType, tracker.verifierSetHash);
      if key in sessions {
        return Err(AccountAlreadyInUse);
      }
      var account := SessionData(0, ZeroSlots(), Raw(0));
      account := account.(signingVerifierSetHash := tracker.verifierSetHash);
      sessions := sessions[key := account];
      r := Ok(());
    }

    method VerifySignature(payloadRoot: Hash, info: SigningVerifierSetInfo, sessionSet: Hash, trackerSet: Hash)
      returns (r: Result<(), GatewayError>)
      modifies this`sessions, this`log
      ensures Follows(old(View()), View(), r, VerifySignatureSpec(old(View()), payloadRoot, info, sessionSet,
          trackerSet))
    {
      var key := SessionKey(payloadRoot, info.payloadType, sessionSet);
      if key !in sessions {
        return Err(AccountNotInitialized);
      }
      if sessions[key].signingVerifierSetHash != sessionSet {
        return Err(ConstraintSeeds);
      }
      if trackerSet !in trackers {
        return Err(AccountNotInitialized);
      }
      var tracker := trackers[trackerSet];
      if tracker.verifierSetHash != trackerSet {
        return Err(ConstraintSeeds);
      }
      if config.domainSeparator != info.leaf.domainSeparator {
        return Err(InvalidDomainSeparator);
      }
      if AssertValidEpoch(config, tracker.epoch).Err? {
        return Err(VerifierSetTooOld);
      }
      if |sessions[key].signatureSlots| != SLOT_BYTES {
        return Err(AccountNotInitialized);
      }
      var session := new SignatureVerificationSession(sessions[key]);
      var processed := session.ProcessSignature(payloadRoot, tracker.verifierSetHash, info);
      if processed.Err? {
        return Err(Session(processed.error));
      }
      sessions := sessions[key := session.View()];
      log := log + [SignatureAccepted(key, info, tracker.epoch, config.currentEpoch)];
      r := Ok(());
    }

    method ApproveMessage(merklized: MerklizedMessage, payloadRoot: Hash, sessionSet: Hash)
      returns (r: Result<(), GatewayError>)
      modifies this`messages, this`log
      ensures Follows(old(View()), View(), r, ApproveMessageSpec(old(View()), merklized, payloadRoot, sessionSet))
    {
      var key := SessionKey(payloadRoot, ApproveMessages, sessionSet);
      if key !in sessions {
        return Err(AccountNotInitialized);
      }
      if sessions[key].signingVerifierSetHash != sessionSet {
        return Err(ConstraintSeeds);
      }
      if !sessions[key].IsValid() {
        return Err(SigningSessionNotValid);
      }
      var message := merklized.leaf.message;
      var commandId := CommandIdOf(message);
      if commandId in messages {
        return Err(AccountAlreadyInUse);
      }
      if merklized.leaf.domainSeparator != config.domainSeparator {
        return Err(InvalidDomainSeparator);
      }
      if merklized.proof.None? {
        return Err(MalformedMerkleProof);
      }
      if !Verify(payloadRoot, merklized.leaf.position, Leaf(MsgLeaf(merklized.leaf)), merklized.leaf.setSize,
                 merklized.proof.value) {
        return Err(LeafNodeNotPartOfMerkleRoot);
      }
      messages := messages[commandId := IncomingMessage(Approved, Leaf(Msg(message)), message.payloadHash)];
      log := log + [MessageApproved(key, merklized)];
      r := Ok(());
    }

    method ValidateCallerPda(caller: Caller, message: Message) returns (r: Result<bool, GatewayError>)
      ensures r == if message.destinationAddress.Text? then Err(InvalidDestinationAddress)
                   else Ok(caller == SigningPda(CommandIdOf(message), message.destinationAddress.key))
    {
      match message.destinationAddress
      case Text(_) => r := Err(InvalidDestinationAddress);
      case Key(program) => r := Ok(caller == SigningPda(CommandIdOf(message), program));
    }

    method ValidateMessage(message: Message, caller: Caller) returns (r: Result<(), GatewayError>)
      modifies this`messages, this`log
      ensures Follows(old(View()), View(), r, ValidateMessageSpec(old(View()), message, caller))
    {
      var commandId := CommandIdOf(message);
      if commandId !in messages {
        return Err(AccountNotInitialized);
      }
      var incoming := messages[commandId];
      if incoming.status != Approved {
        return Err(MessageNotApproved);
      }
      if incoming.messageHash != Leaf(Msg(message)) {
        return Err(InvalidMessageHash);
      }
      var callerIsValid := ValidateCallerPda(caller, message);
      if callerIsValid.Err? {
        return Err(callerIsValid.error);
      }
      if !callerIsValid.value {
        return Err(InvalidSigningPda);
      }
      messages := messages[commandId := incoming.(status := Executed)];
      log := log + [MessageExecuted(message, caller)];
      r := Ok(());
    }

    method TransferOperatorship(signer: Pubkey, upgradeAuthority: Option<Pubkey>, newOperator: Pubkey)
      returns (r: Result<(), GatewayError>)
      modifies this`config, this`log
      ensures Follows(old(View()), View(), r, TransferOperatorshipSpec(old(View()), signer, upgradeAuthority,
          newOperator))
    {
      if signer != config.operator && upgradeAuthority != Some(signer) {
        return Err(InvalidOperatorOrAuthorityAccount);
      }
      if newOperator == config.operator {
        return Err(InvalidInstructionData);
      }
      config := config.(operator := newOperator);
      log := log + [OperatorshipTransferred(newOperator)];
      r := Ok(());
    }
  }
}
