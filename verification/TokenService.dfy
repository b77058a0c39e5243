// The interchain token service: token managers, transfers in both directions, and roles, one function per instruction.
//
// Accounts are maps keyed the way their addresses are derived. A failed instruction changes nothing. The log holds the
// transfer events of the service and what happens to the tokens outside it.
module TokenService {
  import opened Prelude
  import opened FlowLimits
  import opened UserRoles
  import opened TokenLedger
  import AxelarStd

  type CommandId = AxelarStd.CommandId

  datatype ItsError =
    | AccountNotInitialized
    | AccountAlreadyInUse
    | MissingRequiredSignature
    | InvalidAmount
    | InvalidArgument
    | InvalidInstructionData
    | InvalidDestinationAddress
    | InvalidDestinationTokenAuthority
    | InvalidTokenManagerType
    | TokenManagerMintExtensionMismatch
    | MissingFeeExtension
    | ConstraintMintAuthority
    | ZeroSupplyToken
    | MissingRole(role: Role)
    | MessageNotApproved
    | Flow(flow: FlowError)
    | Ledger(ledger: LedgerError)

  // ---------- Accounts ----------

  datatype ManagerType = NativeInterchainToken | MintBurnFrom | LockUnlock | LockUnlockFee | MintBurn
  {
    predicate Locks() {
      LockUnlock? || LockUnlockFee?
    }

    predicate SupportsMint(m: Mint) {
      !(LockUnlock? && m.hasTransferFee) && !(LockUnlockFee? && !m.hasTransferFee)
    }
  }

  // A mint deployed by the service for a token id, or any other mint.
  datatype MintKey = InterchainToken(tokenId: TokenId) | OtherMint(key: Pubkey)

  datatype TokenManager = TokenManager(ty: ManagerType, mint: MintKey, flowSlot: FlowState)

  // Roles are held on the service as a whole or on one token manager.
  datatype Resource = Root | Manager(tokenId: TokenId)

  datatype RolesKey = RolesKey(resource: Resource, user: Address)

  datatype HubMessage =
    | InterchainTransfer(tokenId: TokenId, destination: Address, amount: u64)
    | DeployInterchainToken(tokenId: TokenId, minter: Option<Address>)
    | LinkToken(tokenId: TokenId, mint: MintKey, ty: ManagerType, operator: Option<Address>)

  // A message the gateway approved for the service, and whether the service consumed it.
  datatype IncomingMessage = IncomingMessage(fromHub: bool, payload: HubMessage, executed: bool)

  datatype Event =
    | TransferSent(tokenId: TokenId, amount: nat)
    | TransferReceived(commandId: CommandId, tokenId: TokenId, mint: MintKey, to: Address, gross: nat, arriving: nat)
    | MessageApproved(commandId: CommandId, fromHub: bool, payload: HubMessage)
    | TokensMoved(mint: MintKey, to: Address, arriving: nat)
    | TokensIssued(mint: MintKey, to: Address, amount: nat)
    | TokensBurned(mint: MintKey, amount: nat)

  datatype State = State(
    managers: map<TokenId, TokenManager>, mints: map<MintKey, Mint>, roles: map<RolesKey, bv8>,
    inbox: map<CommandId, IncomingMessage>, log: seq<Event>)

  function Genesis(operator: Address): State {
    State(map[], map[], map[RolesKey(Root, operator) := OPERATOR], map[], [])
  }

  function MaskOf(s: State, resource: Resource, user: Address): bv8 {
    if RolesKey(resource, user) in s.roles then s.roles[RolesKey(resource, user)] else EMPTY
  }

  predicate HasRole(s: State, resource: Resource, user: Address, role: Role) {
    Contains(MaskOf(s, resource, user), Bit(role))
  }

  // ---------- Creating token managers ----------

  // The manager account and, if someone is to hold roles on it, the roles account are created.
  function AddManager(s: State, id: TokenId, ty: ManagerType, mint: MintKey, holder: Option<Address>, mask: bv8)
    : Result<State, ItsError>
  {
    if id in s.managers then Err(AccountAlreadyInUse)
    else if holder.Some? && RolesKey(Manager(id), holder.value) in s.roles then Err(AccountAlreadyInUse)
    else
      Ok(s.(
        managers := s.managers[id := TokenManager(ty, mint, FlowState(None, 0, 0, 0))],
        roles := if holder.Some? then s.roles[RolesKey(Manager(id), holder.value) := mask] else s.roles))
  }

  function RegisterCanonicalSpec(s: State, id: TokenId, mint: MintKey): Result<State, ItsError> {
    if mint !in s.mints then Err(AccountNotInitialized)
    else AddManager(s, id, if s.mints[mint].hasTransferFee then LockUnlockFee else LockUnlock, mint, None, EMPTY)
  }

  // Registering a custom token here, or linking one on request of another chain.
  function RegisterCustomSpec(s: State, id: TokenId, mint: MintKey, ty: ManagerType, operator: Option<Address>)
    : Result<State, ItsError>
  {
    if mint !in s.mints then Err(AccountNotInitialized)
    else if ty == NativeInterchainToken then Err(InvalidInstructionData)
    else if !ty.SupportsMint(s.mints[mint]) then Err(TokenManagerMintExtensionMismatch)
    else AddManager(s, id, ty, mint, operator, OPERATOR | FLOW_LIMITER)
  }

  function NewMint(id: TokenId, supply: u64, holder: Address): Mint {
    Mint(false, Some(TokenManagerPda(id)), supply, multiset{}[holder := supply], 0)
  }

  // A token deployed on request of another chain.
  function DeployRemoteSpec(s: State, id: TokenId, minter: Option<Address>): Result<State, ItsError> {
    if InterchainToken(id) in s.mints then Err(AccountAlreadyInUse)
    else
      AddManager(s.(mints := s.mints[InterchainToken(id) := NewMint(id, 0, TokenManagerPda(id))]),
                 id, NativeInterchainToken, InterchainToken(id), minter, OPERATOR | FLOW_LIMITER | MINTER)
  }

  // A token deployed here, its initial supply going to the deployer.
  function DeploySpec(s: State, id: TokenId, deployer: Address, supply: u64, minter: Option<Address>)
    : Result<State, ItsError>
  {
    if deployer.TokenManagerPda? then Err(MissingRequiredSignature)
    else if InterchainToken(id) in s.mints then Err(AccountAlreadyInUse)
    else if minter.None? && supply == 0 then Err(ZeroSupplyToken)
    else
      AddManager(s.(mints := s.mints[InterchainToken(id) := NewMint(id, supply, deployer)],
                    log := s.log + [TokensIssued(InterchainToken(id), deployer, supply)]),
                 id, NativeInterchainToken, InterchainToken(id), minter, OPERATOR | FLOW_LIMITER | MINTER)
  }

  // ---------- Transfers ----------

  // Minting managers only work while they hold the mint authority.
  function ValidateTokenManagerType(ty: ManagerType, m: Mint, id: TokenId): Result<(), ItsError> {
    if !ty.Locks() && m.authority != Some(TokenManagerPda(id)) then Err(InvalidInstructionData) else Ok(())
  }

  // The mint after taking tokens from the sender, and the amount that counts as transferred.
  function TakeToken(m: Mint, ty: ManagerType, id: TokenId, sender: Address, amount: u64, fee: u64)
    : Result<(Mint, u64), ItsError>
  {
    var _ :- ValidateTokenManagerType(ty, m, id);
    match ty
    case LockUnlock =>
      var moved :- AsIts(Moved(m, sender, TokenManagerPda(id), amount, fee));
      Ok((moved, amount))
    case LockUnlockFee =>
      if !m.hasTransferFee then Err(MissingFeeExtension)
      else
        var moved :- AsIts(Moved(m, sender, TokenManagerPda(id), amount, fee));
        Ok((moved, amount - fee))
    case _ =>
      var burned :- AsIts(Burned(m, sender, amount));
      Ok((burned, amount))
  }

  // The mint after giving tokens to the receiver.
  function GiveToken(m: Mint, ty: ManagerType, id: TokenId, receiver: Address, amount: u64, fee: u64)
    : Result<Mint, ItsError>
  {
    var _ :- ValidateTokenManagerType(ty, m, id);
    match ty
    case LockUnlock => AsIts(Moved(m, TokenManagerPda(id), receiver, amount, fee))
    case LockUnlockFee =>
      if !m.hasTransferFee then Err(MissingFeeExtension)
      else AsIts(Moved(m, TokenManagerPda(id), receiver, amount, fee))
    case _ => AsIts(Minted(m, receiver, amount))
  }

  // What of the amount given reaches the receiver's token account.
  function Given(m: Mint, ty: ManagerType, id: TokenId, receiver: Address, amount: u64, fee: u64): nat {
    if ty.Locks() && fee <= amount then Arriving(m, TokenManagerPda(id), receiver, amount, fee) else amount
  }

  function AsIts<T>(r: Result<T, LedgerError>): Result<T, ItsError> {
    match r
    case Ok(v) => Ok(v)
    case Err(e) => Err(Ledger(e))
  }

  function TrackFlow(m: TokenManager, amount: u64, direction: FlowDirection, now: i64): Result<TokenManager, ItsError> {
    match TrackSpec(m.flowSlot, amount, direction, now)
    case Ok(f) => Ok(m.(flowSlot := f))
    case Err(e) => Err(Flow(e))
  }

  // The fee is the one the mint's fee schedule asks for this amount in the current epoch.
  function InterchainTransferSpec(
    s: State, id: TokenId, authority: Address, destinationAddress: seq<u8>, amount: u64, fee: u64, now: i64)
    : Result<State, ItsError>
  {
    if authority.TokenManagerPda? then Err(MissingRequiredSignature)
    else if id !in s.managers || s.managers[id].mint !in s.mints then Err(AccountNotInitialized)
    else if amount == 0 then Err(InvalidAmount)
    else if destinationAddress == [] then Err(InvalidDestinationAddress)
    else
      var manager := s.managers[id];
      var taken :- TakeToken(s.mints[manager.mint], manager.ty, id, authority, amount, fee);
      var tracked :- TrackFlow(manager, taken.1, Out, now);
      Ok(s.(managers := s.managers[id := tracked],
            mints := s.mints[manager.mint := taken.0],
            log := s.log + [TransferSent(id, taken.1)]))
  }

  // A program receives tokens under the authority it can sign for; everyone else receives them himself.
  function ExpectedAuthority(destination: Address): Address {
    if destination.Program? then TokenAuthority(destination.key) else destination
  }

  function ReceiveTransferSpec(
    s: State, commandId: CommandId, t: HubMessage, destinationAuthority: Address, fee: u64, now: i64)
    : Result<State, ItsError>
    requires t.InterchainTransfer?
  {
    var id := t.tokenId;
    if id !in s.managers || s.managers[id].mint !in s.mints then Err(AccountNotInitialized)
    else if t.amount == 0 then Err(InvalidAmount)
    else if destinationAuthority != ExpectedAuthority(t.destination) then Err(InvalidDestinationTokenAuthority)
    else
      var manager := s.managers[id];
      var m := s.mints[manager.mint];
      var _ :- ValidateTokenManagerType(manager.ty, m, id);
      var tracked :- TrackFlow(manager, t.amount, In, now);
      var given :- GiveToken(m, manager.ty, id, destinationAuthority, t.amount, fee);
      Ok(s.(managers := s.managers[id := tracked],
            mints := s.mints[manager.mint := given],
            log := s.log + [TransferReceived(commandId, id, manager.mint, destinationAuthority, t.amount,
                                             Given(m, manager.ty, id, destinationAuthority, t.amount, fee))]))
  }

  // Consumes a message of the hub and does what it asks.
  function ExecuteSpec(s: State, commandId: CommandId, destinationAuthority: Address, fee: u64, now: i64)
    : Result<State, ItsError>
  {
    if commandId !in s.inbox then Err(AccountNotInitialized)
    else
      var message := s.inbox[commandId];
      if !message.fromHub then Err(InvalidInstructionData)
      else if message.executed then Err(MessageNotApproved)
      else
        var consumed := s.(inbox := s.inbox[commandId := message.(executed := true)]);
        match message.payload
        case InterchainTransfer(_, _, _) =>
          ReceiveTransferSpec(consumed, commandId, message.payload, destinationAuthority, fee, now)
        case DeployInterchainToken(id, minter) => DeployRemoteSpec(consumed, id, minter)
        case LinkToken(id, mint, ty, operator) => RegisterCustomSpec(consumed, id, mint, ty, operator)
  }

  function MintInterchainTokenSpec(s: State, id: TokenId, minter: Address, destination: Address, amount: u64)
    : Result<State, ItsError>
  {
    if minter.TokenManagerPda? then Err(MissingRequiredSignature)
    else if id !in s.managers || s.managers[id].mint !in s.mints then Err(AccountNotInitialized)
    else if !HasRole(s, Manager(id), minter, Minter) then Err(MissingRole(Minter))
    else if amount == 0 then Err(InvalidAmount)
    else
      var mint := s.managers[id].mint;
      if s.mints[mint].authority != Some(TokenManagerPda(id)) then Err(ConstraintMintAuthority)
      else
        var issued :- AsIts(Minted(s.mints[mint], destination, amount));
        Ok(s.(mints := s.mints[mint := issued], log := s.log + [TokensIssued(mint, destination, amount)]))
  }

  // ---------- Roles ----------

  predicate ResourceExists(s: State, resource: Resource) {
    resource == Root || resource.tokenId in s.managers
  }

  // A roles account without roles is closed.
  function Stored(roles: map<RolesKey, bv8>, key: RolesKey, mask: bv8): map<RolesKey, bv8> {
    if mask == EMPTY then roles - {key} else roles[key := mask]
  }

  function MoveRole(s: State, resource: Resource, role: Role, origin: Address, destination: Address)
    : Result<State, ItsError>
  {
    var from, to := RolesKey(resource, origin), RolesKey(resource, destination);
    if origin.TokenManagerPda? then Err(MissingRequiredSignature)
    else if !ResourceExists(s, resource) || from !in s.roles then Err(AccountNotInitialized)
    else if !HasRole(s, resource, origin, role) then Err(MissingRole(role))
    else if destination == origin then Err(InvalidArgument)
    else
      var granted := s.roles[to := Insert(MaskOf(s, resource, destination), Bit(role))];
      Ok(s.(roles := Stored(granted, from, Remove(s.roles[from], Bit(role)))))
  }

  function TransferOperatorshipSpec(s: State, resource: Resource, origin: Address, destination: Address)
    : Result<State, ItsError>
  {
    MoveRole(s, resource, Operator, origin, destination)
  }

  function TransferMintershipSpec(s: State, id: TokenId, sender: Address, destination: Address)
    : Result<State, ItsError>
  {
    MoveRole(s, Manager(id), Minter, sender, destination)
  }

  function HandoverMintAuthoritySpec(s: State, id: TokenId, authority: Address): Result<State, ItsError> {
    if authority.TokenManagerPda? then Err(MissingRequiredSignature)
    else if id !in s.managers || s.managers[id].mint !in s.mints then Err(AccountNotInitialized)
    else
      var manager := s.managers[id];
      var m := s.mints[manager.mint];
      if m.authority != Some(authority) then Err(ConstraintMintAuthority)
      else if manager.ty != MintBurn && manager.ty != MintBurnFrom then Err(InvalidTokenManagerType)
      else
        Ok(s.(mints := s.mints[manager.mint := m.(authority := Some(TokenManagerPda(id)))],
              roles := s.roles[RolesKey(Manager(id), authority) := Insert(MaskOf(s, Manager(id), authority), MINTER)]))
  }

  function AddFlowLimiterSpec(s: State, id: TokenId, authority: Address, target: Address): Result<State, ItsError> {
    if authority.TokenManagerPda? then Err(MissingRequiredSignature)
    else if id !in s.managers then Err(AccountNotInitialized)
    else if !HasRole(s, Manager(id), authority, Operator) then Err(MissingRole(Operator))
    else if HasRole(s, Manager(id), target, FlowLimiter) then Err(InvalidArgument)
    else
      Ok(s.(roles := s.roles[RolesKey(Manager(id), target) := Insert(MaskOf(s, Manager(id), target), FLOW_LIMITER)]))
  }

  function RemoveFlowLimiterSpec(s: State, id: TokenId, authority: Address, target: Address): Result<State, ItsError> {
    if authority.TokenManagerPda? then Err(MissingRequiredSignature)
    else if id !in s.managers then Err(AccountNotInitialized)
    else if !HasRole(s, Manager(id), authority, Operator) then Err(MissingRole(Operator))
    else if !HasRole(s, Manager(id), target, FlowLimiter) then Err(MissingRole(FlowLimiter))
    else
      Ok(s.(roles := Stored(s.roles, RolesKey(Manager(id), target), Remove(MaskOf(s, Manager(id), target),
          FLOW_LIMITER))))
  }

  // The limit set by the operator of the service must differ from the current one.
  function SetFlowLimitSpec(s: State, id: TokenId, operator: Address, limit: Option<u64>): Result<State, ItsError> {
    if operator.TokenManagerPda? then Err(MissingRequiredSignature)
    else if id !in s.managers then Err(AccountNotInitialized)
    else if !HasRole(s, Root, operator, Operator) then Err(MissingRole(Operator))
    else if s.managers[id].flowSlot.flowLimit == limit then Err(InvalidArgument)
    else Ok(s.(managers := s.managers[id := WithLimit(s.managers[id], limit)]))
  }

  function SetTokenManagerFlowLimitSpec(s: State, id: TokenId, flowLimiter: Address, limit: Option<u64>)
    : Result<State, ItsError>
  {
    if flowLimiter.TokenManagerPda? then Err(MissingRequiredSignature)
    else if id !in s.managers then Err(AccountNotInitialized)
    else if !HasRole(s, Manager(id), flowLimiter, FlowLimiter) then Err(MissingRole(FlowLimiter))
    else Ok(s.(managers := s.managers[id := WithLimit(s.managers[id], limit)]))
  }

  function WithLimit(m: TokenManager, limit: Option<u64>): TokenManager {
    m.(flowSlot := m.flowSlot.(flowLimit := limit))
  }
}
