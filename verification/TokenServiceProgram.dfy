// The token service as the program runs it: accounts loaded, updated in place and stored back.
//
// A method that fails leaves everything as it was; where the program has written something before failing, the method
// puts it back, as the runtime does with the rest of the transaction.
module TokenServiceProgram {
  import opened Prelude
  import opened FlowLimits
  import opened UserRoles
  import opened TokenLedger
  import opened TokenService

  class InterchainTokenService {
    var managers: map<TokenId, TokenManager>
    var mints: map<MintKey, Mint>
    var roles: map<RolesKey, bv8>
    var inbox: map<CommandId, IncomingMessage>
    var log: seq<Event>

    function View(): State
      reads this
    {
      State(managers, mints, roles, inbox, log)
    }

    constructor (operator: Address)
      ensures View() == Genesis(operator)
    {
      managers, mints, inbox, log := map[], map[], map[], [];
      roles := map[RolesKey(Root, operator) := OPERATOR];
    }

    // ---------- Token managers ----------

    method InitTokenManager(id: TokenId, ty: ManagerType, mint: MintKey, holder: Option<Address>, mask: bv8)
      returns (r: Result<(), ItsError>)
      modifies this`managers, this`roles
      ensures Follows(old(View()), View(), r, AddManager(old(View()), id, ty, mint, holder, mask))
    {
      if id in managers {
        return Err(AccountAlreadyInUse);
      }
      if holder.Some? {
        if RolesKey(Manager(id), holder.value) in roles {
          return Err(AccountAlreadyInUse);
        }
        roles := roles[RolesKey(Manager(id), holder.value) := mask];
      }
      managers := managers[id := TokenManager(ty, mint, FlowState(None, 0, 0, 0))];
      r := Ok(());
    }

    method RegisterCanonicalInterchainToken(id: TokenId, mint: MintKey) returns (r: Result<(), ItsError>)
      modifies this`managers, this`roles
      ensures Follows(old(View()), View(), r, RegisterCanonicalSpec(old(View()), id, mint))
    {
      if mint !in mints {
        return Err(AccountNotInitialized);
      }
      var ty := if mints[mint].hasTransferFee then LockUnlockFee else LockUnlock;
      r := InitTokenManager(id, ty, mint, None, EMPTY);
    }

    method RegisterCustomToken(id: TokenId, mint: MintKey, ty: ManagerType, operator: Option<Address>)
      returns (r: Result<(), ItsError>)
      modifies this`managers, this`roles
      ensures Follows(old(View()), View(), r, RegisterCustomSpec(old(View()), id, mint, ty, operator))
    {
      if mint !in mints {
        return Err(AccountNotInitialized);
      }
      if ty == NativeInterchainToken {
        return Err(InvalidInstructionData);
      }
      if !ty.SupportsMint(mints[mint]) {
        return Err(TokenManagerMintExtensionMismatch);
      }
      r := InitTokenManager(id, ty, mint, operator, OPERATOR | FLOW_LIMITER);
    }

    method DeployInterchainToken(id: TokenId, deployer: Address, supply: u64, minter: Option<Address>)
      returns (r: Result<(), ItsError>)
      modifies this`managers, this`mints, this`roles, this`log
      ensures Follows(old(View()), View(), r, DeploySpec(old(View()), id, deployer, supply, minter))
    {
      if deployer.TokenManagerPda? {
        return Err(MissingRequiredSignature);
      }
      if InterchainToken(id) in mints {
        return Err(AccountAlreadyInUse);
      }
      if minter.None? && supply == 0 {
        return Err(ZeroSupplyToken);
      }
      r := InitTokenManager(id, NativeInterchainToken, InterchainToken(id), minter, OPERATOR | FLOW_LIMITER | MINTER);
      if r.Ok? {
        mints := mints[InterchainToken(id) := NewMint(id, supply, deployer)];
        log := log + [TokensIssued(InterchainToken(id), deployer, supply)];
      }
    }

    method ExecuteDeployInterchainToken(id: TokenId, minter: Option<Address>) returns (r: Result<(), ItsError>)
      modifies this`managers, this`mints, this`roles
      ensures Follows(old(View()), View(), r, DeployRemoteSpec(old(View()), id, minter))
    {
      if InterchainToken(id) in mints {
        return Err(AccountAlreadyInUse);
      }
      r := InitTokenManager(id, NativeInterchainToken, InterchainToken(id), minter, OPERATOR | FLOW_LIMITER | MINTER);
      if r.Ok? {
        mints := mints[InterchainToken(id) := NewMint(id, 0, TokenManagerPda(id))];
      }
    }

    // ---------- Transfers ----------

    method TrackTokenFlow(id: TokenId, amount: u64, direction: FlowDirection, now: i64)
      returns (r: Result<(), ItsError>)
      requires id in managers
      modifies this`managers
      ensures var tracked := TrackFlow(old(managers)[id], amount, direction, now);
        if tracked.Ok? then r == Ok(()) && managers == old(managers)[id := tracked.value]
        else r == Err(tracked.error) && managers == old(managers)
    {
      var slot := new FlowSlot(managers[id].flowSlot);
      var tracked := slot.Track(amount, direction, now);
      if tracked.Err? {
        return Err(Flow(tracked.error));
      }
      managers := managers[id := managers[id].(flowSlot := slot.View())];
      r := Ok(());
    }

    // Returns the amount that counts as transferred.
    method TakeTokens(id: TokenId, sender: Address, amount: u64, fee: u64) returns (r: Result<u64, ItsError>)
      requires id in managers && managers[id].mint in mints
      modifies this`mints
      ensures var mint := managers[id].mint;
        var taken := TakeToken(old(mints)[mint], managers[id].ty, id, sender, amount, fee);
        if taken.Ok? then r == Ok(taken.value.1) && mints == old(mints)[mint := taken.value.0]
        else r == Err(taken.error) && mints == old(mints)
    {
      var manager := managers[id];
      var m := mints[manager.mint];
      if ValidateTokenManagerType(manager.ty, m, id).Err? {
        return Err(InvalidInstructionData);
      }
      var moved: Result<Mint, LedgerError>;
      var transferred := amount;
      match manager.ty {
        case LockUnlock =>
          moved := Moved(m, sender, TokenManagerPda(id), amount, fee);
        case LockUnlockFee =>
          if !m.hasTransferFee {
            return Err(MissingFeeExtension);
          }
          moved := Moved(m, sender, TokenManagerPda(id), amount, fee);
          if moved.Ok? {
            transferred := amount - fee;
          }
        case _ =>
          moved := Burned(m, sender, amount);
      }
      if moved.Err? {
        return Err(Ledger(moved.error));
      }
      mints := mints[manager.mint := moved.value];
      r := Ok(transferred);
    }

    method GiveTokens(id: TokenId, receiver: Address, amount: u64, fee: u64) returns (r: Result<(), ItsError>)
      requires id in managers && managers[id].mint in mints
      modifies this`mints
      ensures var mint := managers[id].mint;
        var given := GiveToken(old(mints)[mint], managers[id].ty, id, receiver, amount, fee);
        if given.Ok? then r == Ok(()) && mints == old(mints)[mint := given.value]
        else r == Err(given.error) && mints == old(mints)
    {
      var manager := managers[id];
      var m := mints[manager.mint];
      if ValidateTokenManagerType(manager.ty, m, id).Err? {
        return Err(InvalidInstructionData);
      }
      if manager.ty == LockUnlockFee && !m.hasTransferFee {
        return Err(MissingFeeExtension);
      }
      var moved := if manager.ty.Locks() then Moved(m, TokenManagerPda(id), receiver, amount, fee)
        else Minted(m, receiver, amount);
      if moved.Err? {
        return Err(Ledger(moved.error));
      }
      mints := mints[manager.mint := moved.value];
      r := Ok(());
    }

    method InterchainTransfer(id: TokenId, authority: Address, destinationAddress: seq<u8>, amount: u64, fee: u64,
        now: i64)
      returns (r: Result<(), ItsError>)
      modifies this`managers, this`mints, this`log
      ensures Follows(old(View()), View(), r,
                      InterchainTransferSpec(old(View()), id, authority, destinationAddress, amount, fee, now))
    {
      if authority.TokenManagerPda? {
        return Err(MissingRequiredSignature);
      }
      if id !in managers || managers[id].mint !in mints {
        return Err(AccountNotInitialized);
      }
      if amount == 0 {
        return Err(InvalidAmount);
      }
      if destinationAddress == [] {
        return Err(InvalidDestinationAddress);
      }
      var before := mints;
      var taken := TakeTokens(id, authority, amount, fee);
      if taken.Err? {
        return Err(taken.error);
      }
      r := TrackTokenFlow(id, taken.value, Out, now);
      if r.Err? {
        mints := before;
        return;
      }
      log := log + [TransferSent(id, taken.value)];
    }

    method CheckDestinationAuthority(destination: Address, destinationAuthority: Address)
      returns (r: Result<(), ItsError>)
      ensures r == if destinationAuthority == ExpectedAuthority(destination) then Ok(())
        else Err(InvalidDestinationTokenAuthority)
    {
      var expected := match destination case Program(p) => TokenAuthority(p) case _ => destination;
      r := if destinationAuthority == expected then Ok(()) else Err(InvalidDestinationTokenAuthority);
    }

    method ExecuteInterchainTransfer(
      commandId: CommandId, t: HubMessage, destinationAuthority: Address, fee: u64, now: i64)
      returns (r: Result<(), ItsError>)
      requires t.InterchainTransfer?
      modifies this`managers, this`mints, this`log
      ensures Follows(old(View()), View(), r, ReceiveTransferSpec(old(View()), commandId, t, destinationAuthority,
          fee, now))
    {
      var id := t.tokenId;
      if id !in managers || managers[id].mint !in mints {
        return Err(AccountNotInitialized);
      }
      if t.amount == 0 {
        return Err(InvalidAmount);
      }
      r := CheckDestinationAuthority(t.destination, destinationAuthority);
      if r.Err? {
        return;
      }
      var manager := managers[id];
      var m := mints[manager.mint];
      if ValidateTokenManagerType(manager.ty, m, id).Err? {
        return Err(InvalidInstructionData);
      }
      var before := managers;
      r := TrackTokenFlow(id, t.amount, In, now);
      if r.Err? {
        return;
      }
      r := GiveTokens(id, destinationAuthority, t.amount, fee);
      if r.Err? {
        managers := before;
        return;
      }
      log := log + [TransferReceived(commandId, id, manager.mint, destinationAuthority, t.amount,
                                     Given(m, manager.ty, id, destinationAuthority, t.amount, fee))];
    }

    method Execute(commandId: CommandId, destinationAuthority: Address, fee: u64, now: i64)
      returns (r: Result<(), ItsError>)
      modifies this
      ensures Follows(old(View()), View(), r, ExecuteSpec(old(View()), commandId, destinationAuthority, fee, now))
    {
      if commandId !in inbox {
        return Err(AccountNotInitialized);
      }
      var message := inbox[commandId];
      if !message.fromHub {
        return Err(InvalidInstructionData);
      }
      if message.executed {
        return Err(MessageNotApproved);
      }
      var before := inbox;
      inbox := inbox[commandId := message.(executed := true)];
      match message.payload {
        case InterchainTransfer(_, _, _) =>
          r := ExecuteInterchainTransfer(commandId, message.payload, destinationAuthority, fee, now);
        case DeployInterchainToken(id, minter) =>
          r := ExecuteDeployInterchainToken(id, minter);
        case LinkToken(id, mint, ty, operator) =>
          r := RegisterCustomToken(id, mint, ty, operator);
      }
      if r.Err? {
        inbox := before;
      }
    }

    method MintInterchainToken(id: TokenId, minter: Address, destination: Address, amount: u64)
      returns (r: Result<(), ItsError>)
      modifies this`mints, this`log
      ensures Follows(old(View()), View(), r, MintInterchainTokenSpec(old(View()), id, minter, destination, amount))
    {
      if minter.TokenManagerPda? {
        return Err(MissingRequiredSignature);
      }
      if id !in managers || managers[id].mint !in mints {
        return Err(AccountNotInitialized);
      }
      var account := new UserRolesAccount(MaskOf(View(), Manager(id), minter));
      var isMinter := account.Has(Minter);
      if !isMinter {
        return Err(MissingRole(Minter));
      }
      if amount == 0 {
        return Err(InvalidAmount);
      }
      var mint := managers[id].mint;
      if mints[mint].authority != Some(TokenManagerPda(id)) {
        return Err(ConstraintMintAuthority);
      }
      var issued := Minted(mints[mint], destination, amount);
      if issued.Err? {
        return Err(Ledger(issued.error));
      }
      mints := mints[mint := issued.value];
      log := log + [TokensIssued(mint, destination, amount)];
      r := Ok(());
    }

    // ---------- Roles ----------

    method StoreOrClose(key: RolesKey, account: UserRolesAccount)
      modifies this`roles
      ensures roles == Stored(old(roles), key, account.roles)
    {
      if account.HasRoles() {
        roles := roles[key := account.roles];
      } else {
        roles := roles - {key};
      }
    }

    // Takes a role out of one roles account and puts it into another, and closes the former when it is empty.
    method RehomeRole(role: Role, from: RolesKey, to: RolesKey)
      requires from in roles
      modifies this`roles
      ensures var held := if to in old(roles) then old(roles)[to] else EMPTY;
        roles == Stored(old(roles)[to := Insert(held, Bit(role))], from, Remove(old(roles)[from], Bit(role)))
    {
      var originRoles := new UserRolesAccount(roles[from]);
      var destinationRoles := new UserRolesAccount(if to in roles then roles[to] else EMPTY);
      originRoles.Drop(role);
      destinationRoles.Add(role);
      roles := roles[to := destinationRoles.roles];
      StoreOrClose(from, originRoles);
    }

    method TransferRole(resource: Resource, role: Role, origin: Address, destination: Address)
      returns (r: Result<(), ItsError>)
      modifies this`roles
      ensures Follows(old(View()), View(), r, MoveRole(old(View()), resource, role, origin, destination))
    {
      if origin.TokenManagerPda? {
        return Err(MissingRequiredSignature);
      }
      if (resource.Manager? && resource.tokenId !in managers) || RolesKey(resource, origin) !in roles {
        return Err(AccountNotInitialized);
      }
      var originRoles := new UserRolesAccount(roles[RolesKey(resource, origin)]);
      var hasRole := originRoles.Has(role);
      if !hasRole {
        return Err(MissingRole(role));
      }
      if destination == origin {
        return Err(InvalidArgument);
      }
      RehomeRole(role, RolesKey(resource, origin), RolesKey(resource, destination));
      r := Ok(());
    }

    method TransferOperatorship(origin: Address, destination: Address) returns (r: Result<(), ItsError>)
      modifies this`roles
      ensures Follows(old(View()), View(), r, TransferOperatorshipSpec(old(View()), Root, origin, destination))
    {
      r := TransferRole(Root, Operator, origin, destination);
    }

    method TransferTokenManagerOperatorship(id: TokenId, origin: Address, destination: Address)
      returns (r: Result<(), ItsError>)
      modifies this`roles
      ensures Follows(old(View()), View(), r, TransferOperatorshipSpec(old(View()), Manager(id), origin, destination))
    {
      r := TransferRole(Manager(id), Operator, origin, destination);
    }

    method TransferInterchainTokenMintership(id: TokenId, sender: Address, destination: Address)
      returns (r: Result<(), ItsError>)
      modifies this`roles
      ensures Follows(old(View()), View(), r, TransferMintershipSpec(old(View()), id, sender, destination))
    {
      r := TransferRole(Manager(id), Minter, sender, destination);
    }

    method HandoverMintAuthority(id: TokenId, authority: Address) returns (r: Result<(), ItsError>)
      modifies this`mints, this`roles
      ensures Follows(old(View()), View(), r, HandoverMintAuthoritySpec(old(View()), id, authority))
    {
      if authority.TokenManagerPda? {
        return Err(MissingRequiredSignature);
      }
      if id !in managers || managers[id].mint !in mints {
        return Err(AccountNotInitialized);
      }
      var manager := managers[id];
      var m := mints[manager.mint];
      if m.authority != Some(authority) {
        return Err(ConstraintMintAuthority);
      }
      if manager.ty != MintBurn && manager.ty != MintBurnFrom {
        return Err(InvalidTokenManagerType);
      }
      var minterRoles := new UserRolesAccount(MaskOf(View(), Manager(id), authority));
      mints := mints[manager.mint := m.(authority := Some(TokenManagerPda(id)))];
      minterRoles.Add(Minter);
      roles := roles[RolesKey(Manager(id), authority) := minterRoles.roles];
      r := Ok(());
    }

    method AddTokenManagerFlowLimiter(id: TokenId, authority: Address, target: Address)
      returns (r: Result<(), ItsError>)
      modifies this`roles
      ensures Follows(old(View()), View(), r, AddFlowLimiterSpec(old(View()), id, authority, target))
    {
      if authority.TokenManagerPda? {
        return Err(MissingRequiredSignature);
      }
      if id !in managers {
        return Err(AccountNotInitialized);
      }
      var authorityRoles := new UserRolesAccount(MaskOf(View(), Manager(id), authority));
      var isOperator := authorityRoles.Has(Operator);
      if !isOperator {
        return Err(MissingRole(Operator));
      }
      var targetRoles := new UserRolesAccount(MaskOf(View(), Manager(id), target));
      var already := targetRoles.Has(FlowLimiter);
      if already {
        return Err(InvalidArgument);
      }
      targetRoles.Add(FlowLimiter);
      roles := roles[RolesKey(Manager(id), target) := targetRoles.roles];
      r := Ok(());
    }

    method RemoveTokenManagerFlowLimiter(id: TokenId, authority: Address, target: Address)
      returns (r: Result<(), ItsError>)
      modifies this`roles
      ensures Follows(old(View()), View(), r, RemoveFlowLimiterSpec(old(View()), id, authority, target))
    {
      if authority.TokenManagerPda? {
        return Err(MissingRequiredSignature);
      }
      if id !in managers {
        return Err(AccountNotInitialized);
      }
      var authorityRoles := new UserRolesAccount(MaskOf(View(), Manager(id), authority));
      var isOperator := authorityRoles.Has(Operator);
      if !isOperator {
        return Err(MissingRole(Operator));
      }
      var targetRoles := new UserRolesAccount(MaskOf(View(), Manager(id), target));
      var has := targetRoles.Has(FlowLimiter);
      if !has {
        return Err(MissingRole(FlowLimiter));
      }
      targetRoles.Drop(FlowLimiter);
      StoreOrClose(RolesKey(Manager(id), target), targetRoles);
      r := Ok(());
    }

    method SetFlowLimit(id: TokenId, operator: Address, limit: Option<u64>) returns (r: Result<(), ItsError>)
      modifies this`managers
      ensures Follows(old(View()), View(), r, SetFlowLimitSpec(old(View()), id, operator, limit))
    {
      if operator.TokenManagerPda? {
        return Err(MissingRequiredSignature);
      }
      if id !in managers {
        return Err(AccountNotInitialized);
      }
      var operatorRoles := new UserRolesAccount(MaskOf(View(), Root, operator));
      var isOperator := operatorRoles.Has(Operator);
      if !isOperator {
        return Err(MissingRole(Operator));
      }
      if managers[id].flowSlot.flowLimit == limit {
        return Err(InvalidArgument);
      }
      managers := managers[id := managers[id].(flowSlot := managers[id].flowSlot.(flowLimit := limit))];
      r := Ok(());
    }

    method SetTokenManagerFlowLimit(id: TokenId, flowLimiter: Address, limit: Option<u64>)
      returns (r: Result<(), ItsError>)
      modifies this`managers
      ensures Follows(old(View()), View(), r, SetTokenManagerFlowLimitSpec(old(View()), id, flowLimiter, limit))
    {
      if flowLimiter.TokenManagerPda? {
        return Err(MissingRequiredSignature);
      }
      if id !in managers {
        return Err(AccountNotInitialized);
      }
      var limiterRoles := new UserRolesAccount(MaskOf(View(), Manager(id), flowLimiter));
      var isLimiter := limiterRoles.Has(FlowLimiter);
      if !isLimiter {
        return Err(MissingRole(FlowLimiter));
      }
      managers := managers[id := managers[id].(flowSlot := managers[id].flowSlot.(flowLimit := limit))];
      r := Ok(());
    }
  }
}
