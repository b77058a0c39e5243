// Governance: proposals under a timelock, markers that let the operator run them early, one function per instruction.
//
// A proposal is keyed by its hash, for which the hashed bytes stand; likewise the texts of the governance chain and
// contract stand for their hashes. A failed instruction changes nothing.
module Governance {
  import opened Prelude
  import opened Bytes
  import opened ProposalHash

  type Hash = Bytes

  datatype GovernanceError =
    | AccountNotInitialized
    | AccountAlreadyInUse
    | InvalidArgument
    | NotOperator
    | ArithmeticOverflow
    | UnauthorizedChain
    | UnauthorizedAddress
    | InvalidInstructionData
    | ProposalNotReady
    | InvalidTargetProgram
    | TargetAccountNotFound
    | MissingNativeValueReceiver
    | InvalidNativeValue
    | UnauthorizedOperator
    | MissingRequiredSignature
    | GovernanceConfigMissing
    | InsufficientFunds
    | CallFailed
    | TimestampPanic
    | SerializationPanic

  // ---------- Accounts ----------

  const MIN_DELAY: u32 := 3600
  const MAX_DELAY: u32 := 86400

  datatype GovernanceConfig = GovernanceConfig(chain: string, address: string, minimumProposalEtaDelay: u32,
      operator: Key32)
  {
    predicate Valid() {
      MIN_DELAY <= minimumProposalEtaDelay <= MAX_DELAY
    }
  }

  datatype ConfigUpdate = ConfigUpdate(chain: Option<string>, address: Option<string>,
      minimumProposalEtaDelay: Option<u32>)

  datatype Command =
    ScheduleTimelockProposal | CancelTimelockProposal | ApproveOperatorProposal | CancelOperatorProposal

  // A command of the governance contract, as its message carries it.
  datatype GmpCommand = GmpCommand(sourceChain: string, sourceAddress: string, command: Command,
      proposal: ExecuteProposalData, eta: nat)

  datatype Event =
    | Scheduled(proposal: ExecuteProposalData, at: u64, delay: u32, eta: u64)
    | Cancelled(proposal: ExecuteProposalData)
    | OperatorApproved(proposal: ExecuteProposalData)
    | OperatorCancelled(proposal: ExecuteProposalData)
    | TimelockExecuted(proposal: ExecuteProposalData, at: u64)
    | OperatorExecuted(proposal: ExecuteProposalData, operator: Key32)
    | FundsChanged(received: nat, spent: nat)

  // `key` is the address of the configuration account, which also holds the funds.
  datatype State = State(
    key: Key32, config: GovernanceConfig, proposals: map<Hash, u64>, markers: set<Hash>, funds: nat, log: seq<Event>)

  function InitializeConfig(key: Key32, config: GovernanceConfig): Result<State, GovernanceError> {
    if !config.Valid() then Err(InvalidArgument) else Ok(State(key, config, map[], {}, 0, []))
  }

  // ---------- Commands of the governance contract ----------

  function AsU64(now: i64): u64 {
    if now < 0 then now + U64_MAX + 1 else now
  }

  function AtLeastDefaultEtaDelay(eta: u64, delay: u32, now: i64): Result<u64, GovernanceError> {
    var earliest := AsU64(now) + delay;
    if earliest > U64_MAX then Err(ArithmeticOverflow) else Ok(if eta < earliest then earliest else eta)
  }

  function ScheduleSpec(s: State, d: ExecuteProposalData, hash: Hash, eta: u64, now: i64)
    : Result<State, GovernanceError>
  {
    if hash in s.proposals then Err(AccountAlreadyInUse)
    else
      var delay := s.config.minimumProposalEtaDelay;
      var finalEta :- AtLeastDefaultEtaDelay(eta, delay, now);
      Ok(s.(proposals := s.proposals[hash := finalEta], log := s.log + [Scheduled(d, AsU64(now), delay, finalEta)]))
  }

  function CancelSpec(s: State, d: ExecuteProposalData, hash: Hash, eta: u64): Result<State, GovernanceError> {
    if hash !in s.proposals then Err(AccountNotInitialized)
    else if eta != s.proposals[hash] then Err(InvalidArgument)
    else Ok(s.(proposals := s.proposals - {hash}, log := s.log + [Cancelled(d)]))
  }

  function ApproveOperatorSpec(s: State, d: ExecuteProposalData, hash: Hash): Result<State, GovernanceError> {
    if hash !in s.proposals then Err(AccountNotInitialized)
    else if hash in s.markers then Err(AccountAlreadyInUse)
    else Ok(s.(markers := s.markers + {hash}, log := s.log + [OperatorApproved(d)]))
  }

  function CancelOperatorSpec(s: State, d: ExecuteProposalData, hash: Hash): Result<State, GovernanceError> {
    if hash !in s.proposals || hash !in s.markers then Err(AccountNotInitialized)
    else Ok(s.(markers := s.markers - {hash}, log := s.log + [OperatorCancelled(d)]))
  }

  function ProcessGmpSpec(s: State, c: GmpCommand, now: i64): Result<State, GovernanceError> {
    if c.sourceAddress != s.config.address then Err(UnauthorizedAddress)
    else if c.sourceChain != s.config.chain then Err(UnauthorizedChain)
    else
      match Preimage(c.proposal)
      case None => Err(SerializationPanic)
      case Some(hash) =>
        if c.eta > U64_MAX then Err(InvalidInstructionData)
        else
          match c.command
          case ScheduleTimelockProposal => ScheduleSpec(s, c.proposal, hash, c.eta, now)
          case CancelTimelockProposal => CancelSpec(s, c.proposal, hash, c.eta)
          case ApproveOperatorProposal => ApproveOperatorSpec(s, c.proposal, hash)
          case CancelOperatorProposal => CancelOperatorSpec(s, c.proposal, hash)
  }

  // ---------- Execution ----------

  function CheckedFromU256LeBytesToU64(b: Key32): Result<u64, GovernanceError> {
    if !AllZero(b[8..32]) then Err(InvalidNativeValue)
    else
      ValuesOfWidths();
      Ok(FromLittleEndian(b[..8]))
  }

  // The accounts handed to the call, and whether the called program succeeded.
  datatype Call = Call(accounts: seq<Key32>, succeeds: bool)

  function CheckPresence(s: State, d: ExecuteProposalData, call: Call): Result<(), GovernanceError> {
    if s.key !in call.accounts then Err(GovernanceConfigMissing)
    else if forall a :: a in d.callData.solanaAccounts ==> a.pubkey != s.key then Err(GovernanceConfigMissing)
    else if d.targetAddress !in call.accounts then Err(InvalidTargetProgram)
    else Ok(())
  }

  // The funds left after paying the receiver. A payment to the configuration account itself leaves them as they are.
  function PayNativeValue(s: State, d: ExecuteProposalData, call: Call): Result<nat, GovernanceError> {
    var value :- CheckedFromU256LeBytesToU64(d.nativeValue);
    if value == 0 then Ok(s.funds)
    else
      match d.callData.solanaNativeValueReceiverAccount
      case None => Err(MissingNativeValueReceiver)
      case Some(receiver) =>
        if receiver.pubkey !in call.accounts then Err(TargetAccountNotFound)
        else if s.funds < value then Err(InsufficientFunds)
        else Ok(if receiver.pubkey == s.key then s.funds else s.funds - value)
  }

  function MakeCall(s: State, d: ExecuteProposalData, call: Call): Result<nat, GovernanceError> {
    var _ :- CheckPresence(s, d, call);
    var funds :- PayNativeValue(s, d, call);
    if !call.succeeds then Err(CallFailed) else Ok(funds)
  }

  function ExecuteTimelockSpec(s: State, d: ExecuteProposalData, call: Call, now: i64): Result<State, GovernanceError> {
    match Preimage(d)
    case None => Err(SerializationPanic)
    case Some(hash) =>
      if hash !in s.proposals then Err(AccountNotInitialized)
      else if now < 0 then Err(TimestampPanic)
      else if now < s.proposals[hash] then Err(ProposalNotReady)
      else
        var funds :- MakeCall(s, d, call);
        Ok(s.(proposals := s.proposals - {hash}, funds := funds,
              log := s.log + [TimelockExecuted(d, now)]))
  }

  function ExecuteOperatorSpec(s: State, d: ExecuteProposalData, signer: Key32, call: Call)
    : Result<State, GovernanceError>
  {
    match Preimage(d)
    case None => Err(SerializationPanic)
    case Some(hash) =>
      if hash !in s.proposals then Err(AccountNotInitialized)
      else if signer != s.config.operator then Err(UnauthorizedOperator)
      else if hash !in s.markers then Err(AccountNotInitialized)
      else
        var funds :- MakeCall(s, d, call);
        Ok(s.(proposals := s.proposals - {hash}, markers := s.markers - {hash}, funds := funds,
              log := s.log + [OperatorExecuted(d, signer)]))
  }

  // ---------- Configuration ----------

  function Updated(c: GovernanceConfig, update: ConfigUpdate): GovernanceConfig {
    c.(chain := update.chain.GetOr(c.chain), address := update.address.GetOr(c.address),
       minimumProposalEtaDelay := update.minimumProposalEtaDelay.GetOr(c.minimumProposalEtaDelay))
  }

  function UpdateConfigSpec(s: State, signer: Key32, update: ConfigUpdate): Result<State, GovernanceError> {
    if signer != s.config.operator then Err(NotOperator)
    else if !Updated(s.config, update).Valid() then Err(InvalidArgument)
    else Ok(s.(config := Updated(s.config, update)))
  }

  // Either the operator signs or the configuration account does, which takes a proposal.
  function TransferOperatorshipSpec(s: State, signer: Option<Key32>, governanceSigns: bool, newOperator: Key32)
    : Result<State, GovernanceError>
  {
    if signer.Some? && signer.value != s.config.operator then Err(MissingRequiredSignature)
    else if signer.None? && !governanceSigns then Err(MissingRequiredSignature)
    else Ok(s.(config := s.config.(operator := newOperator)))
  }

  // ---------- Facts about single steps ----------

  lemma {:induction false} ZeroBytesAddNothing(b: Bytes, low: nat)
    requires low <= |b|
    ensures FromLittleEndian(b[..low]) <= FromLittleEndian(b)
    ensures AllZero(b[low..]) ==> FromLittleEndian(b) == FromLittleEndian(b[..low])
    ensures !AllZero(b[low..]) ==> FromLittleEndian(b) >= Values(low)
    decreases |b|
  {
    if low == 0 {
      if |b| > 0 {
        ZeroBytesAddNothing(b[1..], 0);
        assert b[0..] == b && b[1..][0..] == b[1..];
        assert AllZero(b) <==> b[0] == 0 && AllZero(b[1..]);
      }
    } else {
      ZeroBytesAddNothing(b[1..], low - 1);
      assert b[..low][1..] == b[1..][..low - 1] && b[1..][low - 1..] == b[low..];
    }
  }

  /** The checked conversion accepts exactly the values below 2^64 and returns them unchanged. */
  lemma ConversionIsExact(b: Key32)
    ensures CheckedFromU256LeBytesToU64(b).Ok? <==> FromLittleEndian(b) <= U64_MAX
    ensures CheckedFromU256LeBytesToU64(b).Ok? ==> CheckedFromU256LeBytesToU64(b).value == FromLittleEndian(b)
  {
    ValuesOfWidths();
    var low: nat := 8;
    ZeroBytesAddNothing(b, low);
    assert b[8..32] == b[low..];
  }

  // What a proposal costs the configuration account: its native value as written, unless it is its own receiver.
  function NativePayment(key: Key32, d: ExecuteProposalData): nat {
    var receiver := d.callData.solanaNativeValueReceiverAccount;
    if receiver.Some? && receiver.value.pubkey == key then 0 else FromLittleEndian(d.nativeValue)
  }

  /** A call that goes through pays exactly the native value the proposal names, once, and to a receiver it names; and
      only values below 2^64 that the funds cover go through. */
  lemma CallsPayTheNativeValue(s: State, d: ExecuteProposalData, call: Call)
    requires MakeCall(s, d, call).Ok?
    ensures MakeCall(s, d, call).value == s.funds - NativePayment(s.key, d)
    ensures FromLittleEndian(d.nativeValue) <= Min(U64_MAX, s.funds)
    ensures FromLittleEndian(d.nativeValue) > 0 ==>
      d.callData.solanaNativeValueReceiverAccount.Some?
      && d.callData.solanaNativeValueReceiverAccount.value.pubkey in call.accounts
  {
    ConversionIsExact(d.nativeValue);
  }

  /** A proposal gets the time asked for or the earliest one the delay allows, whichever is later. */
  lemma EtaIsTheLaterOne(eta: u64, delay: u32, now: i64)
    ensures var r := AtLeastDefaultEtaDelay(eta, delay, now);
      if AsU64(now) + delay > U64_MAX then r == Err(ArithmeticOverflow)
      else r.Ok? && r.value >= eta && r.value >= AsU64(now) + delay && (r.value == eta || r.value == AsU64(now) + delay)
  {}
}
