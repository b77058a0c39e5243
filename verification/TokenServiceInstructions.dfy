// Who may use each instruction that creates token managers or changes roles, limits and mint authorities, and exactly
// what it changes.
module TokenServiceInstructions {
  import opened Prelude
  import opened FlowLimits
  import opened UserRoles
  import opened TokenLedger
  import opened TokenService
  import opened TokenServiceRuns
  import opened TokenServiceLedger
  import opened TokenServiceSafety
  import opened TokenServiceBalances
  import opened TokenServiceRoles

  // Token managers sign only through the service, so no instruction is signed by one.
  predicate CanSign(a: Address) {
    !a.TokenManagerPda?
  }

  predicate OnlyRolesChange(s: State, after: State) {
    after.managers == s.managers && after.mints == s.mints && after.inbox == s.inbox && after.log == s.log
  }

  // ---------- Creating token managers ----------

  // The new manager has this type and mint, no flow limit and nothing counted; the other managers stay.
  predicate AddsManager(s: State, after: State, id: TokenId, ty: ManagerType, mint: MintKey) {
    && id !in s.managers && after.managers.Keys == s.managers.Keys + {id}
    && after.managers[id].ty == ty && after.managers[id].mint == mint
    && after.managers[id].flowSlot.flowLimit == None
    && after.managers[id].flowSlot.flowIn == 0 && after.managers[id].flowSlot.flowOut == 0
    && forall other :: other in s.managers ==> after.managers[other] == s.managers[other]
  }

  // The holder, if any, has exactly these roles on the new manager, and nobody's other roles change.
  ghost predicate GrantsOnly(s: State, after: State, id: TokenId, holder: Option<Address>, roles: set<Role>) {
    match holder
    case None => SameRoles(s, after)
    case Some(user) => Granted(s, after, Manager(id), user, roles)
  }

  /** A canonical token is any existing mint; it is locked, with fees exactly if the mint takes them, and nobody gets a
      role on its manager. */
  lemma CanonicalTokensAreLocked(s: State, id: TokenId, mint: MintKey, now: i64)
    ensures var registered := Attempt(s, Transaction(RegisterCanonical(id, mint), now));
      && (registered.Ok? <==> mint in s.mints && id !in s.managers)
      && (registered.Ok? ==>
            && AddsManager(s, registered.value, id,
                           if s.mints[mint].hasTransferFee then LockUnlockFee else LockUnlock, mint)
            && SameRoles(s, registered.value) && registered.value.mints == s.mints
            && registered.value.inbox == s.inbox && registered.value.log == s.log)
  {}

  lemma MasksOfHolders()
    ensures RolesOf(OPERATOR | FLOW_LIMITER) == {Operator, FlowLimiter}
    ensures RolesOf(OPERATOR | FLOW_LIMITER | MINTER) == {Operator, FlowLimiter, Minter}
  {
    OneRolePerBit(Operator);
    OneRolePerBit(FlowLimiter);
    OneRolePerBit(Minter);
    MasksAreSets(OPERATOR, FLOW_LIMITER);
    MasksAreSets(OPERATOR | FLOW_LIMITER, MINTER);
  }

  // A manager of the two locking types goes with mints that take fees exactly as its type says.
  predicate FitsMint(ty: ManagerType, m: Mint) {
    match ty
    case LockUnlock => !m.hasTransferFee
    case LockUnlockFee => m.hasTransferFee
    case _ => true
  }

  lemma NewManagerGrants(
    s: State, prepared: State, id: TokenId, ty: ManagerType, mint: MintKey, holder: Option<Address>, mask: bv8)
    requires RolesHaveResources(s) && prepared.roles == s.roles && prepared.managers == s.managers
    ensures AddManager(prepared, id, ty, mint, holder, mask).Ok? <==> id !in s.managers
    ensures AddManager(prepared, id, ty, mint, holder, mask).Ok? ==>
      var after := AddManager(prepared, id, ty, mint, holder, mask).value;
      && AddsManager(s, after, id, ty, mint) && GrantsOnly(s, after, id, holder, RolesOf(mask))
      && after.mints == prepared.mints && after.inbox == prepared.inbox && after.log == prepared.log
  {
    if id !in s.managers && holder.Some? {
      assert RolesKey(Manager(id), holder.value) !in s.roles;
      CreatingRoles(s, AddManager(prepared, id, ty, mint, holder, mask).value, Manager(id), holder.value, mask);
    }
  }

  // What registering a custom token does, here or on request of another chain.
  ghost predicate RegistersCustom(s: State, after: State, id: TokenId, mint: MintKey, ty: ManagerType,
      operator: Option<Address>)
  {
    && AddsManager(s, after, id, ty, mint) && GrantsOnly(s, after, id, operator, {Operator, FlowLimiter})
    && after.mints == s.mints && after.log == s.log
  }

  predicate CanRegisterCustom(s: State, id: TokenId, mint: MintKey, ty: ManagerType) {
    mint in s.mints && id !in s.managers && ty != NativeInterchainToken && FitsMint(ty, s.mints[mint])
  }

  /** A custom token is any existing mint under any type but the native one that fits it; its operator becomes operator
      and flow limiter of the manager, and nothing else. */
  lemma CustomTokensHaveAnOperator(
    s: State, id: TokenId, mint: MintKey, ty: ManagerType, operator: Option<Address>, now: i64)
    requires RolesHaveResources(s)
    ensures var registered := Attempt(s, Transaction(RegisterCustom(id, mint, ty, operator), now));
      && (registered.Ok? <==> CanRegisterCustom(s, id, mint, ty))
      && (registered.Ok? ==>
            RegistersCustom(s, registered.value, id, mint, ty, operator) && registered.value.inbox == s.inbox)
  {
    MasksOfHolders();
    NewManagerGrants(s, s, id, ty, mint, operator, OPERATOR | FLOW_LIMITER);
  }

  // A mint of no fee under the authority of its manager; all its units are the holder's.
  ghost predicate IsNewToken(m: Mint, id: TokenId, supply: nat, holder: Address) {
    && !m.hasTransferFee && m.authority == Some(TokenManagerPda(id)) && m.supply == supply && m.withheld == 0
    && forall a :: m.holdings[a] == if a == holder then supply else 0
  }

  ghost predicate DeploysToken(s: State, after: State, id: TokenId, supply: nat, holder: Address,
      minter: Option<Address>)
  {
    && AddsManager(s, after, id, NativeInterchainToken, InterchainToken(id))
    && GrantsOnly(s, after, id, minter, {Operator, FlowLimiter, Minter})
    && InterchainToken(id) !in s.mints && after.mints.Keys == s.mints.Keys + {InterchainToken(id)}
    && (forall key :: key in s.mints ==> after.mints[key] == s.mints[key])
    && IsNewToken(after.mints[InterchainToken(id)], id, supply, holder)
  }

  /** A token is deployed under its manager, which alone can mint it: the deployer gets the whole initial supply, the
      minter all three roles; without a minter the supply must not be zero. */
  lemma DeployedTokensAreTheManagers(
    s: State, id: TokenId, deployer: Address, supply: u64, minter: Option<Address>, now: i64)
    requires RolesHaveResources(s)
    ensures var deployed := Attempt(s, Transaction(Deploy(id, deployer, supply, minter), now));
      && (deployed.Ok? <==>
            && CanSign(deployer) && id !in s.managers && InterchainToken(id) !in s.mints
            && (minter.Some? || supply > 0))
      && (deployed.Ok? ==>
            && DeploysToken(s, deployed.value, id, supply, deployer, minter) && deployed.value.inbox == s.inbox
            && deployed.value.log == s.log + [TokensIssued(InterchainToken(id), deployer, supply)])
  {
    var prepared := s.(mints := s.mints[InterchainToken(id) := NewMint(id, supply, deployer)],
                       log := s.log + [TokensIssued(InterchainToken(id), deployer, supply)]);
    MasksOfHolders();
    NewManagerGrants(s, prepared, id, NativeInterchainToken, InterchainToken(id), minter,
                     OPERATOR | FLOW_LIMITER | MINTER);
  }

  /** A deployment the hub asks for needs its pending message, starts with no supply, gives the minter all three roles
      and consumes the message. */
  lemma RemoteDeploymentsNeedAnApproval(s: State, commandId: CommandId, authority: Address, fee: u64, now: i64)
    requires RolesHaveResources(s) && commandId in s.inbox && s.inbox[commandId].payload.DeployInterchainToken?
    ensures var t := s.inbox[commandId].payload;
      var deployed := Attempt(s, Transaction(Execute(commandId, authority, fee), now));
      && (deployed.Ok? <==>
            Pending(s, commandId) && t.tokenId !in s.managers && InterchainToken(t.tokenId) !in s.mints)
      && (deployed.Ok? ==>
            && DeploysToken(s, deployed.value, t.tokenId, 0, TokenManagerPda(t.tokenId), t.minter)
            && OnlyConsumes(s, deployed.value, commandId) && deployed.value.log == s.log)
  {
    var id, minter := s.inbox[commandId].payload.tokenId, s.inbox[commandId].payload.minter;
    var prepared := s.(inbox := s.inbox[commandId := s.inbox[commandId].(executed := true)],
                       mints := s.mints[InterchainToken(id) := NewMint(id, 0, TokenManagerPda(id))]);
    MasksOfHolders();
    NewManagerGrants(s, prepared, id, NativeInterchainToken, InterchainToken(id), minter,
                     OPERATOR | FLOW_LIMITER | MINTER);
  }

  /** Linking a token the hub asks for needs its pending message, does what registering it here would, and consumes the
      message. */
  lemma RemoteLinksNeedAnApproval(s: State, commandId: CommandId, authority: Address, fee: u64, now: i64)
    requires RolesHaveResources(s) && commandId in s.inbox && s.inbox[commandId].payload.LinkToken?
    ensures var t := s.inbox[commandId].payload;
      var linked := Attempt(s, Transaction(Execute(commandId, authority, fee), now));
      && (linked.Ok? <==> Pending(s, commandId) && CanRegisterCustom(s, t.tokenId, t.mint, t.ty))
      && (linked.Ok? ==>
            && RegistersCustom(s, linked.value, t.tokenId, t.mint, t.ty, t.operator)
            && OnlyConsumes(s, linked.value, commandId))
  {
    var t := s.inbox[commandId].payload;
    var consumed := s.(inbox := s.inbox[commandId := s.inbox[commandId].(executed := true)]);
    MasksOfHolders();
    NewManagerGrants(s, consumed, t.tokenId, t.ty, t.mint, t.operator, OPERATOR | FLOW_LIMITER);
  }

  // ---------- Minting ----------

  /** Only a minter mints, only through a manager that holds the mint authority, and only the named account gains. */
  lemma MintersMint(s: State, id: TokenId, minter: Address, destination: Address, amount: u64, now: i64)
    ensures var minted := Attempt(s, Transaction(MintTokens(id, minter, destination, amount), now));
      && (minted.Ok? <==>
            && CanSign(minter) && HasRole(s, Manager(id), minter, Minter) && HoldsAuthority(s, id)
            && amount > 0 && s.mints[s.managers[id].mint].supply + amount <= U64_MAX)
      && (minted.Ok? ==>
            && BalancesShift(s, minted.value, s.managers[id].mint, None, 0, Some(destination), amount)
            && minted.value.managers == s.managers && minted.value.roles == s.roles && minted.value.inbox == s.inbox
            && minted.value.log == s.log + [TokensIssued(s.managers[id].mint, destination, amount)])
  {
    var tx := Transaction(MintTokens(id, minter, destination, amount), now);
    if id in s.managers && s.managers[id].mint in s.mints {
      MintingShifts(s.mints[s.managers[id].mint], destination, amount);
    }
    if Attempt(s, tx).Ok? {
      StepsMoveExactly(s, tx);
    }
  }

  // ---------- Handing roles over ----------

  lemma MovingNeedsTheHolder(s: State, resource: Resource, role: Role, origin: Address, destination: Address)
    requires RolesHaveResources(s)
    ensures var moved := MoveRole(s, resource, role, origin, destination);
      && (moved.Ok? <==> CanSign(origin) && HasRole(s, resource, origin, role) && destination != origin)
      && (moved.Ok? ==>
            && RoleMoved(s, moved.value, resource, role, origin, destination) && OnlyRolesChange(s, moved.value))
  {
    NobodyHoldsWithoutAccount(s, resource, origin, role);
    if MoveRole(s, resource, role, origin, destination).Ok? {
      MovingARole(s, resource, role, origin, destination);
    }
  }

  lemma NobodyHoldsWithoutAccount(s: State, resource: Resource, user: Address, role: Role)
    requires RolesHaveResources(s)
    ensures HasRole(s, resource, user, role) ==> RolesKey(resource, user) in s.roles && ResourceExists(s, resource)
  {
    assert !Contains(EMPTY, Bit(role));
  }

  /** The operator, and nobody else, hands the operator role of the service or of a manager to someone else. */
  lemma OperatorsHandOver(s: State, resource: Resource, origin: Address, destination: Address, now: i64)
    requires RolesHaveResources(s)
    ensures var moved := Attempt(s, Transaction(TransferOperatorship(resource, origin, destination), now));
      && (moved.Ok? <==> CanSign(origin) && HasRole(s, resource, origin, Operator) && destination != origin)
      && (moved.Ok? ==>
            && RoleMoved(s, moved.value, resource, Operator, origin, destination) && OnlyRolesChange(s, moved.value))
  {
    MovingNeedsTheHolder(s, resource, Operator, origin, destination);
  }

  /** The minter, and nobody else, hands the minter role of a manager to someone else. */
  lemma MintersHandOver(s: State, id: TokenId, origin: Address, destination: Address, now: i64)
    requires RolesHaveResources(s)
    ensures var moved := Attempt(s, Transaction(TransferMintership(id, origin, destination), now));
      && (moved.Ok? <==> CanSign(origin) && HasRole(s, Manager(id), origin, Minter) && destination != origin)
      && (moved.Ok? ==>
            && RoleMoved(s, moved.value, Manager(id), Minter, origin, destination) && OnlyRolesChange(s, moved.value))
  {
    MovingNeedsTheHolder(s, Manager(id), Minter, origin, destination);
  }

  // The mint's authority becomes its manager, and no other account changes.
  predicate HandsOver(s: State, after: State, id: TokenId)
    requires id in s.managers && s.managers[id].mint in s.mints
  {
    var mint := s.managers[id].mint;
    && after.managers == s.managers && after.inbox == s.inbox && after.log == s.log
    && after.mints.Keys == s.mints.Keys
    && after.mints[mint] == s.mints[mint].(authority := Some(TokenManagerPda(id)))
    && forall key :: key in s.mints && key != mint ==> after.mints[key] == s.mints[key]
  }

  /** The mint authority of a burning manager's token, and nobody else, hands the authority to that manager, and becomes
      its minter in return. */
  lemma AuthoritiesBecomeMinters(s: State, id: TokenId, authority: Address, now: i64)
    ensures var handed := Attempt(s, Transaction(Instruction.HandoverMintAuthority(id, authority), now));
      && (handed.Ok? <==>
            && CanSign(authority) && id in s.managers && s.managers[id].mint in s.mints
            && s.mints[s.managers[id].mint].authority == Some(authority)
            && (s.managers[id].ty == MintBurn || s.managers[id].ty == MintBurnFrom))
      && (handed.Ok? ==>
            HandsOver(s, handed.value, id) && Granted(s, handed.value, Manager(id), authority, {Minter}))
  {
    var handed := Attempt(s, Transaction(Instruction.HandoverMintAuthority(id, authority), now));
    if handed.Ok? {
      GrantingARole(s, handed.value, Manager(id), authority, Minter);
    }
  }

  // ---------- Flow limiters and limits ----------

  /** The operator of a manager, and nobody else, makes someone a flow limiter who is none. */
  lemma OperatorsAddFlowLimiters(s: State, id: TokenId, operator: Address, target: Address, now: i64)
    requires RolesHaveResources(s)
    ensures var added := Attempt(s, Transaction(AddFlowLimiter(id, operator, target), now));
      && (added.Ok? <==>
            && CanSign(operator) && HasRole(s, Manager(id), operator, Operator)
            && !HasRole(s, Manager(id), target, FlowLimiter))
      && (added.Ok? ==>
            Granted(s, added.value, Manager(id), target, {FlowLimiter}) && OnlyRolesChange(s, added.value))
  {
    NobodyHoldsWithoutAccount(s, Manager(id), operator, Operator);
    var added := Attempt(s, Transaction(AddFlowLimiter(id, operator, target), now));
    if added.Ok? {
      GrantingARole(s, added.value, Manager(id), target, FlowLimiter);
    }
  }

  /** The operator of a manager, and nobody else, takes the role away from a flow limiter. */
  lemma OperatorsRemoveFlowLimiters(s: State, id: TokenId, operator: Address, target: Address, now: i64)
    requires RolesHaveResources(s)
    ensures var removed := Attempt(s, Transaction(RemoveFlowLimiter(id, operator, target), now));
      && (removed.Ok? <==>
            && CanSign(operator) && HasRole(s, Manager(id), operator, Operator)
            && HasRole(s, Manager(id), target, FlowLimiter))
      && (removed.Ok? ==>
            Taken(s, removed.value, Manager(id), target, FlowLimiter) && OnlyRolesChange(s, removed.value))
  {
    NobodyHoldsWithoutAccount(s, Manager(id), operator, Operator);
    var removed := Attempt(s, Transaction(RemoveFlowLimiter(id, operator, target), now));
    if removed.Ok? {
      TakingARole(s, removed.value, Manager(id), target, FlowLimiter);
    }
  }

  // The limit of one manager is set; its counters and everything else stay.
  predicate OnlyLimitChanges(s: State, after: State, id: TokenId, limit: Option<u64>) {
    && id in s.managers && after.managers.Keys == s.managers.Keys
    && after.managers[id].ty == s.managers[id].ty && after.managers[id].mint == s.managers[id].mint
    && after.managers[id].flowSlot.flowLimit == limit
    && after.managers[id].flowSlot.flowIn == s.managers[id].flowSlot.flowIn
    && after.managers[id].flowSlot.flowOut == s.managers[id].flowSlot.flowOut
    && after.managers[id].flowSlot.epoch == s.managers[id].flowSlot.epoch
    && (forall other :: other in s.managers && other != id ==> after.managers[other] == s.managers[other])
    && after.mints == s.mints && after.roles == s.roles && after.inbox == s.inbox && after.log == s.log
  }

  /** The operator of the service, and nobody else, sets the limit of any manager to a different one. */
  lemma ServiceOperatorSetsLimits(s: State, id: TokenId, operator: Address, limit: Option<u64>, now: i64)
    ensures var set' := Attempt(s, Transaction(Instruction.SetFlowLimit(id, operator, limit), now));
      && (set'.Ok? <==>
            && CanSign(operator) && HasRole(s, Root, operator, Operator)
            && id in s.managers && s.managers[id].flowSlot.flowLimit != limit)
      && (set'.Ok? ==> OnlyLimitChanges(s, set'.value, id, limit))
  {}

  /** A flow limiter of a manager, and nobody else, sets its limit, to the current one if he likes. */
  lemma FlowLimitersSetLimits(s: State, id: TokenId, limiter: Address, limit: Option<u64>, now: i64)
    requires RolesHaveResources(s)
    ensures var set' := Attempt(s, Transaction(Instruction.SetTokenManagerFlowLimit(id, limiter, limit), now));
      && (set'.Ok? <==> CanSign(limiter) && HasRole(s, Manager(id), limiter, FlowLimiter))
      && (set'.Ok? ==> OnlyLimitChanges(s, set'.value, id, limit))
  {
    NobodyHoldsWithoutAccount(s, Manager(id), limiter, FlowLimiter);
  }

  // ---------- Over whole runs ----------

  /** In every run nobody holds a role on a manager that does not exist, so the lemmas above speak of every run. */
  lemma RolesAlwaysHaveResources(operator: Address, txs: seq<Transaction>)
    ensures RolesHaveResources(After(operator, txs))
  {
    GenesisHasOneOperator(operator);
    RunKeepsRolesInv(Genesis(operator), txs);
  }

  function LimitOf(s: State, id: TokenId): Option<u64> {
    if id in s.managers then s.managers[id].flowSlot.flowLimit else None
  }

  // The transaction sets the limit, signed by the operator of the service or a flow limiter of the manager.
  predicate SetsLimit(s: State, tx: Transaction, id: TokenId, limit: Option<u64>) {
    match tx.instruction
    case SetFlowLimit(other, signer, l) => other == id && l == limit && HasRole(s, Root, signer, Operator)
    case SetTokenManagerFlowLimit(other, signer, l) =>
      other == id && l == limit && HasRole(s, Manager(id), signer, FlowLimiter)
    case _ => false
  }

  lemma TransfersKeepLimits(s: State, tx: Transaction, id: TokenId)
    requires Attempt(s, tx).Ok? && (tx.instruction.Transfer? || tx.instruction.Execute?)
    ensures LimitOf(Attempt(s, tx).value, id) == LimitOf(s, id)
  {
    match tx.instruction
    case Transfer(other, sender, destination, amount, fee) =>
      TransfersDebitTheSender(s, other, sender, destination, amount, fee, tx.now);
    case Execute(commandId, receiver, fee) =>
      if s.inbox[commandId].payload.InterchainTransfer? {
        ExecutionsCreditThePayee(s, commandId, receiver, fee, tx.now);
      }
  }

  lemma CreatingKeepsLimits(s: State, tx: Transaction, id: TokenId)
    requires Attempt(s, tx).Ok? && CreatingInstruction(tx.instruction)
    ensures LimitOf(Attempt(s, tx).value, id) == LimitOf(s, id)
  {}

  predicate LimitInstruction(i: Instruction) {
    i.SetFlowLimit? || i.SetTokenManagerFlowLimit?
  }

  lemma OthersKeepLimits(s: State, tx: Transaction, id: TokenId)
    requires Attempt(s, tx).Ok? && !LimitInstruction(tx.instruction) && !CreatingInstruction(tx.instruction)
    requires !tx.instruction.Transfer? && !tx.instruction.Execute?
    ensures LimitOf(Attempt(s, tx).value, id) == LimitOf(s, id)
  {
    assert Attempt(s, tx).value.managers == s.managers;
  }

  lemma OneStepSetsLimit(s: State, tx: Transaction, id: TokenId)
    requires LimitOf(Step(s, tx), id) != LimitOf(s, id)
    ensures SetsLimit(s, tx, id, LimitOf(Step(s, tx), id))
  {
    if tx.instruction.Transfer? || tx.instruction.Execute? {
      TransfersKeepLimits(s, tx, id);
    } else if CreatingInstruction(tx.instruction) {
      CreatingKeepsLimits(s, tx, id);
    } else if !LimitInstruction(tx.instruction) {
      OthersKeepLimits(s, tx, id);
    }
  }

  /** If a manager's limit is another one after a run, then one of its transactions set it to that, signed by who was
      the
      operator of the service or a flow limiter of the manager at that moment. */
  lemma {:induction false} LimitsAreSetByOfficers(s: State, txs: seq<Transaction>, id: TokenId) returns (k: nat)
    requires LimitOf(Run(s, txs), id) != LimitOf(s, id)
    ensures k < |txs| && SetsLimit(Run(s, txs[..k]), txs[k], id, LimitOf(Run(s, txs), id))
  {
    var n := |txs| - 1;
    if LimitOf(Run(s, txs), id) != LimitOf(Run(s, txs[..n]), id) {
      OneStepSetsLimit(Run(s, txs[..n]), txs[n], id);
      k := n;
    } else {
      k := LimitsAreSetByOfficers(s, txs[..n], id);
      assert txs[..n][..k] == txs[..k];
    }
  }
}
