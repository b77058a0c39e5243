// Who holds which role over whole runs of the token service.
module TokenServiceRoles {
  import opened Prelude
  import opened FlowLimits
  import opened UserRoles
  import opened TokenLedger
  import opened TokenService
  import opened TokenServiceRuns
  import opened TokenServiceLedger
  import opened TokenServiceSafety

  // Every user's roles after a step are those before it but for one user, or two when a role moves.
  ghost predicate Granted(s: State, after: State, resource: Resource, user: Address, roles: set<Role>) {
    forall r, u, role :: HasRole(after, r, u, role) <==>
      HasRole(s, r, u, role) || (r == resource && u == user && role in roles)
  }

  ghost predicate Taken(s: State, after: State, resource: Resource, user: Address, taken: Role) {
    forall r, u, role :: HasRole(after, r, u, role) <==>
      HasRole(s, r, u, role) && !(r == resource && u == user && role == taken)
  }

  ghost predicate RoleMoved(s: State, after: State, resource: Resource, moved: Role, origin: Address,
      destination: Address) {
    forall r, u, role :: HasRole(after, r, u, role) <==>
      if r == resource && role == moved && u == origin then false
      else HasRole(s, r, u, role) || (r == resource && role == moved && u == destination)
  }

  ghost predicate SameRoles(s: State, after: State) {
    forall r, u, role :: HasRole(after, r, u, role) <==> HasRole(s, r, u, role)
  }

  // Setting or clearing one role's bit in one mask.
  lemma OneRoleBit(mask: bv8, changed: Role, role: Role)
    ensures Contains(Insert(mask, Bit(changed)), Bit(role)) <==> Contains(mask, Bit(role)) || role == changed
    ensures Contains(Remove(mask, Bit(changed)), Bit(role)) <==> Contains(mask, Bit(role)) && role != changed
  {
    RoleBitsAreIndependent(mask, Bit(changed), role);
    OneRolePerBit(changed);
    assert role in RolesOf(Bit(changed)) <==> role == changed;
  }

  lemma MovingARole(s: State, resource: Resource, moved: Role, origin: Address, destination: Address)
    requires MoveRole(s, resource, moved, origin, destination).Ok?
    ensures RoleMoved(s, MoveRole(s, resource, moved, origin, destination).value, resource, moved, origin, destination)
  {
    var after := MoveRole(s, resource, moved, origin, destination).value;
    forall r, u, role
      ensures HasRole(after, r, u, role) <==>
        if r == resource && role == moved && u == origin then false
        else HasRole(s, r, u, role) || (r == resource && role == moved && u == destination)
    {
      MasksAfterMoving(s, resource, moved, origin, destination, r, u);
      OneRoleBit(MaskOf(s, r, u), moved, role);
    }
  }

  lemma MasksAfterMoving(
    s: State, resource: Resource, moved: Role, origin: Address, destination: Address, r: Resource, u: Address)
    requires MoveRole(s, resource, moved, origin, destination).Ok?
    ensures MaskOf(MoveRole(s, resource, moved, origin, destination).value, r, u) ==
      if r == resource && u == origin then Remove(MaskOf(s, r, u), Bit(moved))
      else if r == resource && u == destination then Insert(MaskOf(s, r, u), Bit(moved))
      else MaskOf(s, r, u)
  {}

  lemma GrantingARole(s: State, after: State, resource: Resource, user: Address, granted: Role)
    requires after.roles == s.roles[RolesKey(resource, user) := Insert(MaskOf(s, resource, user), Bit(granted))]
    ensures Granted(s, after, resource, user, {granted})
  {
    forall r, u, role
      ensures HasRole(after, r, u, role) <==>
        HasRole(s, r, u, role) || (r == resource && u == user && role in {granted})
    {
      OneRoleBit(MaskOf(s, r, u), granted, role);
    }
  }

  lemma MaskAfterStoring(s: State, after: State, key: RolesKey, mask: bv8, r: Resource, u: Address)
    requires after.roles == Stored(s.roles, key, mask)
    ensures MaskOf(after, r, u) == if RolesKey(r, u) == key then mask else MaskOf(s, r, u)
  {}

  lemma TakingARole(s: State, after: State, resource: Resource, user: Address, taken: Role)
    requires after.roles == Stored(s.roles, RolesKey(resource, user), Remove(MaskOf(s, resource, user), Bit(taken)))
    ensures Taken(s, after, resource, user, taken)
  {
    var mask := Remove(MaskOf(s, resource, user), Bit(taken));
    forall r, u, role
      ensures HasRole(after, r, u, role) <==>
        HasRole(s, r, u, role) && !(r == resource && u == user && role == taken)
    {
      MaskAfterStoring(s, after, RolesKey(resource, user), mask, r, u);
      OneRoleBit(MaskOf(s, r, u), taken, role);
    }
  }

  lemma CreatingRoles(s: State, after: State, resource: Resource, user: Address, mask: bv8)
    requires RolesKey(resource, user) !in s.roles && after.roles == s.roles[RolesKey(resource, user) := mask]
    ensures Granted(s, after, resource, user, RolesOf(mask))
  {
    assert MaskOf(s, resource, user) == EMPTY;
    forall role: Role
      ensures !Contains(EMPTY, Bit(role))
    {}
  }

  // ---------- The invariant ----------

  ghost predicate AtMostOne(s: State, resource: Resource, role: Role) {
    forall a, b :: HasRole(s, resource, a, role) && HasRole(s, resource, b, role) ==> a == b
  }

  ghost predicate Someone(s: State, resource: Resource, role: Role) {
    exists a :: HasRole(s, resource, a, role)
  }

  // Minters exist only where the manager can mint.
  ghost predicate MinterCanMint(s: State, id: TokenId) {
    Someone(s, Manager(id), Minter) ==> CanMint(s, id)
  }

  predicate CanMint(s: State, id: TokenId) {
    HoldsAuthority(s, id) && !s.managers[id].ty.Locks()
  }

  // No roles on managers that do not exist.
  ghost predicate RolesHaveResources(s: State) {
    forall key :: key in s.roles ==> ResourceExists(s, key.resource)
  }

  ghost predicate RolesInv(s: State) {
    && (forall resource :: AtMostOne(s, resource, Operator) && AtMostOne(s, resource, Minter))
    && (forall id :: MinterCanMint(s, id))
    && RolesHaveResources(s)
  }

  ghost predicate NoEmptyAccounts(s: State) {
    forall key :: key in s.roles ==> s.roles[key] != EMPTY && OnlyRoles(s.roles[key])
  }

  // Whoever held the operator or minter role, someone does now.
  ghost predicate KeepsHolders(s: State, after: State) {
    forall r, role :: role != FlowLimiter && Someone(s, r, role) ==> Someone(after, r, role)
  }

  // ---------- Each kind of step keeps it ----------

  lemma SameRolesKeepInv(s: State, after: State)
    requires RolesInv(s) && SameRoles(s, after) && KeepsAccounts(s, after) && after.roles.Keys <= s.roles.Keys
    ensures RolesInv(after) && KeepsHolders(s, after)
  {
    forall id
      ensures MinterCanMint(after, id)
    {
      assert MinterCanMint(s, id);
    }
    forall resource
      ensures AtMostOne(after, resource, Operator) && AtMostOne(after, resource, Minter)
    {
      assert AtMostOne(s, resource, Operator) && AtMostOne(s, resource, Minter);
    }
  }

  lemma MovedRoleKeepsInv(s: State, after: State, resource: Resource, moved: Role, origin: Address,
      destination: Address)
    requires RolesInv(s) && KeepsAccounts(s, after) && RolesHaveResources(after)
    requires RoleMoved(s, after, resource, moved, origin, destination)
    requires moved != FlowLimiter && HasRole(s, resource, origin, moved) && origin != destination
    ensures RolesInv(after) && KeepsHolders(s, after)
  {
    assert HasRole(after, resource, destination, moved);
    forall r, role | role != FlowLimiter && Someone(s, r, role)
      ensures Someone(after, r, role)
    {
      var a :| HasRole(s, r, a, role);
      assert HasRole(after, r, a, role) || (r == resource && role == moved);
    }
    forall id
      ensures MinterCanMint(after, id)
    {
      assert MinterCanMint(s, id);
    }
    forall r
      ensures AtMostOne(after, r, Operator) && AtMostOne(after, r, Minter)
    {
      assert AtMostOne(s, r, Operator) && AtMostOne(s, r, Minter);
    }
  }

  // Operator and minter are unchanged.
  ghost predicate OnlyFlowLimitersChange(s: State, after: State) {
    forall r, u, role :: role != FlowLimiter ==> (HasRole(after, r, u, role) <==> HasRole(s, r, u, role))
  }

  lemma FlowLimitersKeepInv(s: State, after: State)
    requires RolesInv(s) && KeepsAccounts(s, after) && RolesHaveResources(after) && OnlyFlowLimitersChange(s, after)
    ensures RolesInv(after) && KeepsHolders(s, after)
  {
    forall id
      ensures MinterCanMint(after, id)
    {
      assert MinterCanMint(s, id);
    }
    forall r
      ensures AtMostOne(after, r, Operator) && AtMostOne(after, r, Minter)
    {
      assert AtMostOne(s, r, Operator) && AtMostOne(s, r, Minter);
    }
  }

  // Someone gets roles nobody had on that manager.
  lemma FirstRolesKeepInv(s: State, after: State, id: TokenId, user: Address, roles: set<Role>)
    requires RolesInv(s) && KeepsAccounts(s, after) && RolesHaveResources(after)
    requires Granted(s, after, Manager(id), user, roles)
    requires forall role :: role in roles && role != FlowLimiter ==> !Someone(s, Manager(id), role)
    requires Minter in roles ==> CanMint(after, id)
    ensures RolesInv(after) && KeepsHolders(s, after)
  {
    forall other
      ensures MinterCanMint(after, other)
    {
      assert MinterCanMint(s, other);
    }
    forall r
      ensures AtMostOne(after, r, Operator) && AtMostOne(after, r, Minter)
    {
      assert AtMostOne(s, r, Operator) && AtMostOne(s, r, Minter);
    }
  }

  lemma NobodyOnNewManager(s: State, id: TokenId, role: Role)
    requires RolesHaveResources(s) && id !in s.managers
    ensures !Someone(s, Manager(id), role)
  {
    forall a
      ensures !HasRole(s, Manager(id), a, role)
    {
      assert RolesKey(Manager(id), a) !in s.roles;
    }
  }

  // Creating a manager, from a state that differs from s in its mints, messages and log only.
  lemma CreatedManagerKeepsInv(
    s: State, prepared: State, id: TokenId, ty: ManagerType, mint: MintKey, holder: Option<Address>, mask: bv8)
    requires RolesInv(s) && prepared.roles == s.roles && prepared.managers == s.managers
    requires AddManager(prepared, id, ty, mint, holder, mask).Ok?
    requires KeepsAccounts(s, AddManager(prepared, id, ty, mint, holder, mask).value)
    requires holder.Some? ==>
      mask == OPERATOR | FLOW_LIMITER || CanMint(AddManager(prepared, id, ty, mint, holder, mask).value, id)
    ensures RolesInv(AddManager(prepared, id, ty, mint, holder, mask).value)
    ensures KeepsHolders(s, AddManager(prepared, id, ty, mint, holder, mask).value)
  {
    var after := AddManager(prepared, id, ty, mint, holder, mask).value;
    if holder.None? {
      assert after.roles == s.roles;
      SameRolesKeepInv(s, after);
    } else {
      CreatingRoles(s, after, Manager(id), holder.value, mask);
      forall role
        ensures !Someone(s, Manager(id), role)
      {
        NobodyOnNewManager(s, id, role);
      }
      assert mask == OPERATOR | FLOW_LIMITER ==> Minter !in RolesOf(mask);
      FirstRolesKeepInv(s, after, id, holder.value, RolesOf(mask));
    }
  }

  lemma HandoverKeepsRolesInv(s: State, id: TokenId, authority: Address)
    requires RolesInv(s) && HandoverMintAuthoritySpec(s, id, authority).Ok?
    requires KeepsAccounts(s, HandoverMintAuthoritySpec(s, id, authority).value)
    ensures RolesInv(HandoverMintAuthoritySpec(s, id, authority).value)
    ensures KeepsHolders(s, HandoverMintAuthoritySpec(s, id, authority).value)
  {
    var after := HandoverMintAuthoritySpec(s, id, authority).value;
    GrantingARole(s, after, Manager(id), authority, Minter);
    assert MinterCanMint(s, id);
    FirstRolesKeepInv(s, after, id, authority, {Minter});
  }

  lemma FlowLimiterStepKeepsInv(s: State, tx: Transaction)
    requires RolesInv(s) && Attempt(s, tx).Ok? && KeepsAccounts(s, Attempt(s, tx).value)
    requires tx.instruction.AddFlowLimiter? || tx.instruction.RemoveFlowLimiter?
    ensures RolesInv(Attempt(s, tx).value) && KeepsHolders(s, Attempt(s, tx).value)
  {
    var after, id, target := Attempt(s, tx).value, tx.instruction.id, tx.instruction.target;
    assert after.roles.Keys <= s.roles.Keys + {RolesKey(Manager(id), target)};
    if tx.instruction.AddFlowLimiter? {
      GrantingARole(s, after, Manager(id), target, FlowLimiter);
    } else {
      TakingARole(s, after, Manager(id), target, FlowLimiter);
    }
    FlowLimitersKeepInv(s, after);
  }

  lemma MoveRoleKeepsInv(s: State, resource: Resource, moved: Role, origin: Address, destination: Address)
    requires RolesInv(s) && moved != FlowLimiter && MoveRole(s, resource, moved, origin, destination).Ok?
    requires KeepsAccounts(s, MoveRole(s, resource, moved, origin, destination).value)
    ensures RolesInv(MoveRole(s, resource, moved, origin, destination).value)
    ensures KeepsHolders(s, MoveRole(s, resource, moved, origin, destination).value)
  {
    var after := MoveRole(s, resource, moved, origin, destination).value;
    assert after.roles.Keys <= s.roles.Keys + {RolesKey(resource, destination)};
    MovingARole(s, resource, moved, origin, destination);
    MovedRoleKeepsInv(s, after, resource, moved, origin, destination);
  }

  lemma CreatingStepKeepsInv(s: State, tx: Transaction)
    requires RolesInv(s) && Attempt(s, tx).Ok? && KeepsAccounts(s, Attempt(s, tx).value)
    requires tx.instruction.RegisterCanonical? || tx.instruction.RegisterCustom? || tx.instruction.Deploy?
    ensures RolesInv(Attempt(s, tx).value) && KeepsHolders(s, Attempt(s, tx).value)
  {
    match tx.instruction
    case RegisterCanonical(id, mint) =>
      var ty := if s.mints[mint].hasTransferFee then LockUnlockFee else LockUnlock;
      CreatedManagerKeepsInv(s, s, id, ty, mint, None, EMPTY);
    case RegisterCustom(id, mint, ty, operator) =>
      CreatedManagerKeepsInv(s, s, id, ty, mint, operator, OPERATOR | FLOW_LIMITER);
    case Deploy(id, deployer, supply, minter) =>
      var prepared := s.(mints := s.mints[InterchainToken(id) := NewMint(id, supply, deployer)],
                         log := s.log + [TokensIssued(InterchainToken(id), deployer, supply)]);
      CreatedManagerKeepsInv(s, prepared, id, NativeInterchainToken, InterchainToken(id), minter,
          OPERATOR | FLOW_LIMITER | MINTER);
  }

  lemma ExecutionKeepsRolesInv(s: State, commandId: CommandId, authority: Address, fee: u64, now: i64)
    requires RolesInv(s) && ExecuteSpec(s, commandId, authority, fee, now).Ok?
    requires KeepsAccounts(s, ExecuteSpec(s, commandId, authority, fee, now).value)
    ensures RolesInv(ExecuteSpec(s, commandId, authority, fee, now).value)
    ensures KeepsHolders(s, ExecuteSpec(s, commandId, authority, fee, now).value)
  {
    var message := s.inbox[commandId];
    var consumed := s.(inbox := s.inbox[commandId := message.(executed := true)]);
    match message.payload
    case InterchainTransfer(_, _, _) => SameRolesKeepInv(s, ExecuteSpec(s, commandId, authority, fee, now).value);
    case DeployInterchainToken(id, minter) =>
      var prepared := consumed.(mints := s.mints[InterchainToken(id) := NewMint(id, 0, TokenManagerPda(id))]);
      CreatedManagerKeepsInv(s, prepared, id, NativeInterchainToken, InterchainToken(id), minter,
          OPERATOR | FLOW_LIMITER | MINTER);
    case LinkToken(id, mint, ty, operator) =>
      CreatedManagerKeepsInv(s, consumed, id, ty, mint, operator, OPERATOR | FLOW_LIMITER);
  }

  predicate KeepsRoles(i: Instruction) {
    || i.Transfer? || i.SetFlowLimit? || i.SetTokenManagerFlowLimit?
    || (!ServiceInstruction(i) && !RolesInstruction(i))
  }

  lemma OtherStepKeepsRoles(s: State, tx: Transaction)
    requires Attempt(s, tx).Ok? && KeepsRoles(tx.instruction)
    ensures Attempt(s, tx).value.roles == s.roles
  {}

  lemma StepKeepsRolesInv(s: State, tx: Transaction)
    requires RolesInv(s)
    ensures RolesInv(Step(s, tx)) && KeepsHolders(s, Step(s, tx))
  {
    StepKeepsAccounts(s, tx);
    if Attempt(s, tx).Ok? {
      match tx.instruction
      case TransferOperatorship(resource, origin, destination) =>
        MoveRoleKeepsInv(s, resource, Operator, origin, destination);
      case TransferMintership(id, origin, destination) => MoveRoleKeepsInv(s, Manager(id), Minter, origin, destination);
      case HandoverMintAuthority(id, authority) => HandoverKeepsRolesInv(s, id, authority);
      case Execute(commandId, authority, fee) => ExecutionKeepsRolesInv(s, commandId, authority, fee, tx.now);
      case AddFlowLimiter(_, _, _) => FlowLimiterStepKeepsInv(s, tx);
      case RemoveFlowLimiter(_, _, _) => FlowLimiterStepKeepsInv(s, tx);
      case RegisterCanonical(_, _) => CreatingStepKeepsInv(s, tx);
      case RegisterCustom(_, _, _, _) => CreatingStepKeepsInv(s, tx);
      case Deploy(_, _, _, _) => CreatingStepKeepsInv(s, tx);
      case _ =>
        OtherStepKeepsRoles(s, tx);
        SameRolesKeepInv(s, Attempt(s, tx).value);
    }
  }

  // ---------- Whole runs ----------

  lemma OnlyTheOperatorHoldsARole(operator: Address, r: Resource, u: Address, role: Role)
    ensures HasRole(Genesis(operator), r, u, role) <==> r == Root && u == operator && role == Operator
  {
    OneRolePerBit(Operator);
    assert Contains(OPERATOR, Bit(role)) <==> role in RolesOf(Bit(Operator));
    assert !Contains(EMPTY, Bit(role));
  }

  lemma GenesisHasOneOperator(operator: Address)
    ensures RolesInv(Genesis(operator)) && HasRole(Genesis(operator), Root, operator, Operator)
  {
    var s := Genesis(operator);
    forall r, u, role
      ensures HasRole(s, r, u, role) <==> r == Root && u == operator && role == Operator
    {
      OnlyTheOperatorHoldsARole(operator, r, u, role);
    }
    forall id
      ensures MinterCanMint(s, id)
    {}
  }

  lemma {:induction false} RunKeepsRolesInv(s: State, txs: seq<Transaction>)
    requires RolesInv(s)
    ensures RolesInv(Run(s, txs)) && KeepsHolders(s, Run(s, txs))
  {
    if |txs| == 0 {
    } else {
      RunKeepsRolesInv(s, txs[..|txs| - 1]);
      StepKeepsRolesInv(Run(s, txs[..|txs| - 1]), txs[|txs| - 1]);
    }
  }

  ghost predicate ExactlyOne(s: State, resource: Resource, role: Role) {
    Someone(s, resource, role) && AtMostOne(s, resource, role)
  }

  /** In every run the service has exactly one operator. */
  lemma ServiceHasExactlyOneOperator(operator: Address, txs: seq<Transaction>)
    ensures ExactlyOne(After(operator, txs), Root, Operator)
  {
    GenesisHasOneOperator(operator);
    RunKeepsRolesInv(Genesis(operator), txs);
  }

  /** In every run each resource has at most one operator and at most one minter, and once there is one there always
      is exactly one. */
  lemma OneHolderForever(operator: Address, txs: seq<Transaction>, more: seq<Transaction>, resource: Resource,
      role: Role)
    requires role != FlowLimiter
    ensures AtMostOne(After(operator, txs), resource, role)
    ensures Someone(After(operator, txs), resource, role) ==>
      ExactlyOne(Run(After(operator, txs), more), resource, role)
  {
    GenesisHasOneOperator(operator);
    RunKeepsRolesInv(Genesis(operator), txs);
    RunKeepsRolesInv(After(operator, txs), more);
  }

  /** In every run a minter's manager can mint: it does not lock, and it holds the mint authority of its token. */
  lemma MintersCanMint(operator: Address, txs: seq<Transaction>, id: TokenId)
    requires Someone(After(operator, txs), Manager(id), Minter)
    ensures HoldsAuthority(After(operator, txs), id) && !After(operator, txs).managers[id].ty.Locks()
  {
    GenesisHasOneOperator(operator);
    RunKeepsRolesInv(Genesis(operator), txs);
    assert MinterCanMint(After(operator, txs), id);
  }

  // ---------- Accounts without roles are closed ----------

  lemma StoringKeepsNoEmptyAccounts(s: State, after: State, key: RolesKey, mask: bv8)
    requires NoEmptyAccounts(s) && after.roles == Stored(s.roles, key, mask) && OnlyRoles(mask)
    ensures NoEmptyAccounts(after)
  {}

  lemma MaskArithmetic(mask: bv8, role: Role)
    requires OnlyRoles(mask)
    ensures OnlyRoles(Insert(mask, Bit(role))) && Insert(mask, Bit(role)) != EMPTY
    ensures OnlyRoles(Remove(mask, Bit(role)))
  {
    match role
    case Minter => assert (mask | 1) & !(1 | 2 | 4) == 0 && mask | 1 != 0 && (mask & !1) & !(1 | 2 | 4) == 0;
    case Operator => assert (mask | 2) & !(1 | 2 | 4) == 0 && mask | 2 != 0 && (mask & !2) & !(1 | 2 | 4) == 0;
    case FlowLimiter => assert (mask | 4) & !(1 | 2 | 4) == 0 && mask | 4 != 0 && (mask & !4) & !(1 | 2 | 4) == 0;
  }

  lemma KnownMask(s: State, resource: Resource, user: Address)
    requires NoEmptyAccounts(s)
    ensures OnlyRoles(MaskOf(s, resource, user))
  {
    assert OnlyRoles(EMPTY);
  }

  lemma MovingKeepsNoEmptyAccounts(s: State, resource: Resource, moved: Role, origin: Address, destination: Address)
    requires NoEmptyAccounts(s) && MoveRole(s, resource, moved, origin, destination).Ok?
    ensures NoEmptyAccounts(MoveRole(s, resource, moved, origin, destination).value)
  {
    var from, to := RolesKey(resource, origin), RolesKey(resource, destination);
    KnownMask(s, resource, destination);
    MaskArithmetic(MaskOf(s, resource, destination), moved);
    MaskArithmetic(s.roles[from], moved);
    var granted := s.(roles := s.roles[to := Insert(MaskOf(s, resource, destination), Bit(moved))]);
    assert NoEmptyAccounts(granted);
    StoringKeepsNoEmptyAccounts(granted, MoveRole(s, resource, moved, origin, destination).value, from,
                                Remove(s.roles[from], Bit(moved)));
  }

  lemma CreatingKeepsNoEmptyAccounts(s: State, id: TokenId, ty: ManagerType, mint: MintKey, holder: Option<Address>,
      mask: bv8)
    requires NoEmptyAccounts(s) && AddManager(s, id, ty, mint, holder, mask).Ok?
    requires holder.Some? ==> mask == OPERATOR | FLOW_LIMITER || mask == OPERATOR | FLOW_LIMITER | MINTER
    ensures NoEmptyAccounts(AddManager(s, id, ty, mint, holder, mask).value)
  {}

  lemma FlowLimiterStepKeepsNoEmptyAccounts(s: State, tx: Transaction)
    requires NoEmptyAccounts(s) && Attempt(s, tx).Ok?
      && (tx.instruction.AddFlowLimiter? || tx.instruction.RemoveFlowLimiter?)
    ensures NoEmptyAccounts(Attempt(s, tx).value)
  {
    var id, target := tx.instruction.id, tx.instruction.target;
    var mask := MaskOf(s, Manager(id), target);
    KnownMask(s, Manager(id), target);
    MaskArithmetic(mask, FlowLimiter);
    if tx.instruction.RemoveFlowLimiter? {
      StoringKeepsNoEmptyAccounts(s, Attempt(s, tx).value, RolesKey(Manager(id), target), Remove(mask, FLOW_LIMITER));
    }
  }

  lemma CreatingStepKeepsNoEmptyAccounts(s: State, tx: Transaction)
    requires NoEmptyAccounts(s) && Attempt(s, tx).Ok?
    requires tx.instruction.RegisterCanonical? || tx.instruction.RegisterCustom? || tx.instruction.Deploy?
    ensures NoEmptyAccounts(Attempt(s, tx).value)
  {
    match tx.instruction
    case RegisterCanonical(id, mint) => CanonicalKeepsNoEmptyAccounts(s, id, mint);
    case RegisterCustom(id, mint, ty, operator) =>
      CreatingKeepsNoEmptyAccounts(s, id, ty, mint, operator, OPERATOR | FLOW_LIMITER);
    case Deploy(id, deployer, supply, minter) =>
      var prepared := s.(mints := s.mints[InterchainToken(id) := NewMint(id, supply, deployer)],
                         log := s.log + [TokensIssued(InterchainToken(id), deployer, supply)]);
      DeployingKeepsNoEmptyAccounts(s, prepared, id, minter);
  }

  lemma CanonicalKeepsNoEmptyAccounts(s: State, id: TokenId, mint: MintKey)
    requires NoEmptyAccounts(s) && RegisterCanonicalSpec(s, id, mint).Ok?
    ensures NoEmptyAccounts(RegisterCanonicalSpec(s, id, mint).value)
  {
    var ty := if s.mints[mint].hasTransferFee then LockUnlockFee else LockUnlock;
    CreatingKeepsNoEmptyAccounts(s, id, ty, mint, None, EMPTY);
  }

  // Deploying from a state that differs from s in its mints, messages and log only.
  lemma DeployingKeepsNoEmptyAccounts(s: State, prepared: State, id: TokenId, minter: Option<Address>)
    requires NoEmptyAccounts(s) && prepared.roles == s.roles
    requires AddManager(prepared, id, NativeInterchainToken, InterchainToken(id), minter,
                        OPERATOR | FLOW_LIMITER | MINTER).Ok?
    ensures NoEmptyAccounts(AddManager(prepared, id, NativeInterchainToken, InterchainToken(id), minter,
                                       OPERATOR | FLOW_LIMITER | MINTER).value)
  {
    CreatingKeepsNoEmptyAccounts(prepared, id, NativeInterchainToken, InterchainToken(id), minter,
                                 OPERATOR | FLOW_LIMITER | MINTER);
  }

  lemma ExecutionKeepsNoEmptyAccounts(s: State, commandId: CommandId, authority: Address, fee: u64, now: i64)
    requires NoEmptyAccounts(s) && ExecuteSpec(s, commandId, authority, fee, now).Ok?
    ensures NoEmptyAccounts(ExecuteSpec(s, commandId, authority, fee, now).value)
  {
    var message := s.inbox[commandId];
    var consumed := s.(inbox := s.inbox[commandId := message.(executed := true)]);
    match message.payload
    case InterchainTransfer(_, _, _) =>
    case DeployInterchainToken(id, minter) =>
      var prepared := consumed.(mints := s.mints[InterchainToken(id) := NewMint(id, 0, TokenManagerPda(id))]);
      DeployingKeepsNoEmptyAccounts(s, prepared, id, minter);
    case LinkToken(id, mint, ty, operator) =>
      CreatingKeepsNoEmptyAccounts(consumed, id, ty, mint, operator, OPERATOR | FLOW_LIMITER);
  }

  lemma StepKeepsNoEmptyAccounts(s: State, tx: Transaction)
    requires NoEmptyAccounts(s)
    ensures NoEmptyAccounts(Step(s, tx))
  {
    if Attempt(s, tx).Ok? {
      match tx.instruction
      case TransferOperatorship(resource, origin, destination) =>
        MovingKeepsNoEmptyAccounts(s, resource, Operator, origin, destination);
      case TransferMintership(id, origin, destination) =>
        MovingKeepsNoEmptyAccounts(s, Manager(id), Minter, origin, destination);
      case HandoverMintAuthority(id, authority) =>
        KnownMask(s, Manager(id), authority);
        MaskArithmetic(MaskOf(s, Manager(id), authority), Minter);
      case AddFlowLimiter(_, _, _) => FlowLimiterStepKeepsNoEmptyAccounts(s, tx);
      case RemoveFlowLimiter(_, _, _) => FlowLimiterStepKeepsNoEmptyAccounts(s, tx);
      case RegisterCanonical(_, _) => CreatingStepKeepsNoEmptyAccounts(s, tx);
      case RegisterCustom(_, _, _, _) => CreatingStepKeepsNoEmptyAccounts(s, tx);
      case Deploy(_, _, _, _) => CreatingStepKeepsNoEmptyAccounts(s, tx);
      case Execute(commandId, authority, fee) => ExecutionKeepsNoEmptyAccounts(s, commandId, authority, fee, tx.now);
      case _ => OtherStepKeepsRoles(s, tx);
    }
  }

  /** In every run a roles account exists exactly for those who hold some role on the resource. */
  lemma AccountsExistForHolders(operator: Address, txs: seq<Transaction>, resource: Resource,
      user: Address)
    ensures RolesKey(resource, user) in After(operator, txs).roles
      <==> RolesOf(MaskOf(After(operator, txs), resource, user)) != {}
  {
    var s := After(operator, txs);
    RunKeepsNoEmptyAccounts(operator, txs);
    KnownMask(s, resource, user);
    MasksAreSets(MaskOf(s, resource, user), EMPTY);
  }

  lemma {:induction false} RunKeepsNoEmptyAccounts(operator: Address, txs: seq<Transaction>)
    ensures NoEmptyAccounts(After(operator, txs))
  {
    if |txs| == 0 {
    } else {
      RunKeepsNoEmptyAccounts(operator, txs[..|txs| - 1]);
      StepKeepsNoEmptyAccounts(After(operator, txs[..|txs| - 1]), txs[|txs| - 1]);
    }
  }

  // ---------- Roles move only with a signature ----------

  /** An operator or minter who loses the role gave it away himself, and whoever has it next got it from him. */
  lemma HoldersGiveTheirRoleAway(s: State, tx: Transaction, resource: Resource, role: Role, holder: Address,
      next: Address)
    requires RolesInv(s) && role != FlowLimiter && HasRole(s, resource, holder, role)
    requires HasRole(Step(s, tx), resource, next, role) && next != holder
    ensures match role
      case Operator => tx.instruction == TransferOperatorship(resource, holder, next)
      case _ => resource.Manager? && tx.instruction == TransferMintership(resource.tokenId, holder, next)
  {
    StepKeepsRolesInv(s, tx);
    assert AtMostOne(s, resource, Operator) && AtMostOne(s, resource, Minter);
    assert AtMostOne(Step(s, tx), resource, Operator) && AtMostOne(Step(s, tx), resource, Minter);
    assert !HasRole(s, resource, next, role);
    if tx.instruction.TransferOperatorship? {
      MovingARole(s, tx.instruction.resource, Operator, tx.instruction.origin, tx.instruction.destination);
    } else if tx.instruction.TransferMintership? {
      MovingARole(s, Manager(tx.instruction.id), Minter, tx.instruction.origin, tx.instruction.destination);
    } else {
      RolesStayWithTheirHolder(s, tx, resource, role, holder);
    }
  }

  lemma RolesStayWithTheirHolder(s: State, tx: Transaction, resource: Resource, role: Role, holder: Address)
    requires HasRole(s, resource, holder, role) && role != FlowLimiter && Attempt(s, tx).Ok?
    requires !tx.instruction.TransferOperatorship? && !tx.instruction.TransferMintership?
    ensures HasRole(Attempt(s, tx).value, resource, holder, role)
  {
    var after := Attempt(s, tx).value;
    assert RolesKey(resource, holder) in s.roles;
    match tx.instruction
    case HandoverMintAuthority(id, authority) => GrantingARole(s, after, Manager(id), authority, Minter);
    case AddFlowLimiter(id, _, target) => GrantingARole(s, after, Manager(id), target, FlowLimiter);
    case RemoveFlowLimiter(id, _, target) => TakingARole(s, after, Manager(id), target, FlowLimiter);
    case RegisterCanonical(_, _) => CreatingKeepsEarlierRoles(s, tx);
    case RegisterCustom(_, _, _, _) => CreatingKeepsEarlierRoles(s, tx);
    case Deploy(_, _, _, _) => CreatingKeepsEarlierRoles(s, tx);
    case Execute(_, _, _) => CreatingKeepsEarlierRoles(s, tx);
    case _ => OtherStepKeepsRoles(s, tx);
  }

  lemma CreatingKeepsEarlierRoles(s: State, tx: Transaction)
    requires Attempt(s, tx).Ok?
    requires tx.instruction.RegisterCanonical? || tx.instruction.RegisterCustom? || tx.instruction.Deploy?
      || tx.instruction.Execute?
    ensures forall key :: key in s.roles ==>
      key in Attempt(s, tx).value.roles && Attempt(s, tx).value.roles[key] == s.roles[key]
  {}
}
