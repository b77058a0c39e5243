// Whose tokens move: what every step of the token service does to every token account, and who had to sign for it.
module TokenServiceBalances {
  import opened Prelude
  import opened FlowLimits
  import opened UserRoles
  import opened TokenLedger
  import opened TokenService
  import opened TokenServiceRuns

  function Balance(s: State, mint: MintKey, a: Address): nat {
    if mint in s.mints then s.mints[mint].holdings[a] else 0
  }

  predicate Locking(ty: ManagerType) {
    ty == LockUnlock || ty == LockUnlockFee
  }

  // What a mint with a transfer fee keeps back.
  function FeeOf(m: Mint, fee: nat): nat {
    if m.hasTransferFee then fee else 0
  }

  // ---------- Taking and giving tokens ----------

  // The sender has the amount, the fee is part of it, and the manager can lock or burn.
  predicate CanTake(m: Mint, ty: ManagerType, id: TokenId, sender: Address, amount: u64, fee: u64) {
    && m.holdings[sender] >= amount
    && if Locking(ty) then
         FeeOf(m, fee) <= amount && (ty == LockUnlockFee ==> m.hasTransferFee)
       else m.authority == Some(TokenManagerPda(id)) && m.supply >= amount
  }

  /** Taking tokens debits the sender alone by the whole amount, and credits the vault of a locking manager alone by
      what
      the fee leaves; otherwise the amount is burned. */
  lemma TakingDebitsTheSender(m: Mint, ty: ManagerType, id: TokenId, sender: Address, amount: u64, fee: u64)
    requires sender != TokenManagerPda(id)
    ensures TakeToken(m, ty, id, sender, amount, fee).Ok? <==> CanTake(m, ty, id, sender, amount, fee)
    ensures TakeToken(m, ty, id, sender, amount, fee).Ok? ==>
      var (after, transferred) := TakeToken(m, ty, id, sender, amount, fee).value;
      && transferred == (if ty == LockUnlockFee then amount - fee else amount)
      && after.supply == m.supply - (if Locking(ty) then 0 else amount)
      && if Locking(ty) then Shifted(m, after, Some(sender), amount, Some(TokenManagerPda(id)), amount - FeeOf(m, fee))
         else Shifted(m, after, Some(sender), amount, None, 0)
  {
    if Locking(ty) {
      MovingShifts(m, sender, TokenManagerPda(id), amount, fee);
    } else {
      BurningShifts(m, sender, amount);
    }
  }

  // The vault has the amount and the fee is part of it, or the manager can mint.
  predicate CanGive(m: Mint, ty: ManagerType, id: TokenId, amount: u64, fee: u64) {
    if Locking(ty) then
      m.holdings[TokenManagerPda(id)] >= amount && FeeOf(m, fee) <= amount && (ty == LockUnlockFee ==> m.hasTransferFee)
    else m.authority == Some(TokenManagerPda(id)) && m.supply + amount <= U64_MAX
  }

  // What of the amount arrives: all of it when it is minted or stays in the vault, otherwise what the fee leaves.
  function ArrivingFrom(m: Mint, ty: ManagerType, id: TokenId, receiver: Address, amount: nat, fee: nat): int {
    if Locking(ty) && receiver != TokenManagerPda(id) then amount - FeeOf(m, fee)
    else amount
  }

  /** Giving tokens credits the receiver alone by what arrives, and debits the vault of a locking manager alone by the
      whole amount; otherwise the amount is minted. */
  lemma GivingCreditsTheReceiver(m: Mint, ty: ManagerType, id: TokenId, receiver: Address, amount: u64, fee: u64)
    ensures GiveToken(m, ty, id, receiver, amount, fee).Ok? <==> CanGive(m, ty, id, amount, fee)
    ensures GiveToken(m, ty, id, receiver, amount, fee).Ok? ==>
      var after, arriving := GiveToken(m, ty, id, receiver, amount, fee).value, ArrivingFrom(m, ty, id, receiver,
          amount, fee);
      && Given(m, ty, id, receiver, amount, fee) == arriving
      && after.supply == m.supply + (if Locking(ty) then 0 else amount)
      && if Locking(ty) then Shifted(m, after, Some(TokenManagerPda(id)), amount, Some(receiver), arriving)
         else Shifted(m, after, None, 0, Some(receiver), arriving)
  {
    if Locking(ty) {
      MovingShifts(m, TokenManagerPda(id), receiver, amount, fee);
    } else {
      MintingShifts(m, receiver, amount);
    }
  }

  // ---------- Transfers of the service ----------

  // Every token account after: one mint shifts as said, all others stay.
  ghost predicate BalancesShift(
    s: State, after: State, mint: MintKey, from: Option<Address>, amount: nat, to: Option<Address>, arriving: nat)
  {
    forall key, a :: Balance(after, key, a) == Balance(s, key, a)
      - (if key == mint && from == Some(a) then amount else 0) + (if key == mint && to == Some(a) then arriving else 0)
  }

  lemma ShiftedMint(
    s: State, after: State, mint: MintKey, m: Mint, from: Option<Address>, amount: nat, to: Option<Address>,
    arriving: nat)
    requires mint in s.mints && after.mints == s.mints[mint := m]
    requires Shifted(s.mints[mint], m, from, amount, to, arriving)
    ensures BalancesShift(s, after, mint, from, amount, to, arriving)
  {}

  // The vault a transfer of this manager goes through, if it locks.
  function VaultOf(s: State, id: TokenId): Option<Address>
    requires id in s.managers
  {
    if Locking(s.managers[id].ty) then Some(TokenManagerPda(id)) else None
  }

  // What of the amount arrives in the vault.
  function Locked(m: Mint, ty: ManagerType, amount: nat, fee: nat): int {
    if Locking(ty) then amount - FeeOf(m, fee) else 0
  }

  // What counts as transferred.
  function Transferred(ty: ManagerType, amount: nat, fee: nat): int {
    if ty == LockUnlockFee then amount - fee else amount
  }

  predicate CanSend(s: State, id: TokenId, sender: Address, amount: u64, fee: u64, now: i64) {
    && !sender.TokenManagerPda? && id in s.managers && s.managers[id].mint in s.mints && amount > 0
    && var manager := s.managers[id];
      && CanTake(s.mints[manager.mint], manager.ty, id, sender, amount, fee)
      && Fits(manager.flowSlot, Transferred(manager.ty, amount, fee), Out, now)
  }

  // Nothing of the managers changed but the counters of this one.
  ghost predicate OnlyCountersChange(s: State, after: State, id: TokenId, amount: u64, direction: FlowDirection,
      now: i64)
  {
    && after.managers.Keys == s.managers.Keys && id in s.managers
    && (forall other :: other in s.managers && other != id ==> after.managers[other] == s.managers[other])
    && after.managers[id].ty == s.managers[id].ty && after.managers[id].mint == s.managers[id].mint
    && Counts(s.managers[id].flowSlot, after.managers[id].flowSlot, amount, direction, now)
    && after.roles == s.roles
  }

  // What an outbound transfer does: it debits the signer alone, fills the vault alone, and counts what it logs.
  ghost predicate SentAway(s: State, after: State, id: TokenId, sender: Address, amount: nat, fee: nat, now: i64)
    requires id in s.managers && s.managers[id].mint in s.mints
  {
    var ty, mint := s.managers[id].ty, s.managers[id].mint;
    var locked, counted := Locked(s.mints[mint], ty, amount, fee), Transferred(ty, amount, fee);
    && locked >= 0 && 0 <= counted <= U64_MAX && after.inbox == s.inbox
    && BalancesShift(s, after, mint, Some(sender), amount, VaultOf(s, id), locked)
    && OnlyCountersChange(s, after, id, counted, Out, now)
    && after.log == s.log + [TransferSent(id, counted)]
  }

  /** An outbound transfer goes through exactly when its signer has the tokens, the manager can take them and the flow
      limit has room. */
  lemma TransfersNeedTheirSender(
    s: State, id: TokenId, sender: Address, destination: seq<u8>, amount: u64, fee: u64, now: i64)
    ensures Attempt(s, Transaction(Instruction.Transfer(id, sender, destination, amount, fee), now)).Ok?
      <==> CanSend(s, id, sender, amount, fee, now) && destination != []
  {
    if !sender.TokenManagerPda? && id in s.managers && s.managers[id].mint in s.mints {
      var manager := s.managers[id];
      TakingDebitsTheSender(s.mints[manager.mint], manager.ty, id, sender, amount, fee);
      if CanTake(s.mints[manager.mint], manager.ty, id, sender, amount, fee) {
        TrackedExactlyWhenItFits(manager.flowSlot, Transferred(manager.ty, amount, fee), Out, now);
      }
    }
  }

  /** And then it debits the signer alone, fills the vault alone, and counts and logs what was transferred. */
  lemma TransfersDebitTheSender(
    s: State, id: TokenId, sender: Address, destination: seq<u8>, amount: u64, fee: u64, now: i64)
    requires Attempt(s, Transaction(Instruction.Transfer(id, sender, destination, amount, fee), now)).Ok?
    ensures id in s.managers && s.managers[id].mint in s.mints
    ensures SentAway(s, Attempt(s, Transaction(Instruction.Transfer(id, sender, destination, amount, fee), now)).value,
                     id, sender, amount, fee, now)
  {
    var after := Attempt(s, Transaction(Instruction.Transfer(id, sender, destination, amount, fee), now)).value;
    var manager := s.managers[id];
    var m := s.mints[manager.mint];
    TakingDebitsTheSender(m, manager.ty, id, sender, amount, fee);
    var taken := TakeToken(m, manager.ty, id, sender, amount, fee).value;
    TrackedExactlyWhenItFits(manager.flowSlot, taken.1, Out, now);
    ShiftedMint(s, after, manager.mint, taken.0, Some(sender), amount, VaultOf(s, id), Locked(m, manager.ty, amount,
        fee));
  }

  // Who is paid for a destination: a program under the authority derived from it, everyone else himself.
  function PayeeOf(destination: Address): Address {
    match destination
    case Program(program) => TokenAuthority(program)
    case _ => destination
  }

  // The hub's message is approved and not yet consumed.
  predicate Pending(s: State, commandId: CommandId) {
    commandId in s.inbox && s.inbox[commandId].fromHub && !s.inbox[commandId].executed
  }

  predicate CanReceive(s: State, t: HubMessage, receiver: Address, fee: u64, now: i64)
    requires t.InterchainTransfer?
  {
    && t.tokenId in s.managers && s.managers[t.tokenId].mint in s.mints
    && t.amount > 0 && receiver == PayeeOf(t.destination)
    && var manager := s.managers[t.tokenId];
      && CanGive(s.mints[manager.mint], manager.ty, t.tokenId, t.amount, fee)
      && Fits(manager.flowSlot, t.amount, In, now)
  }

  // The message is consumed and no other one changed.
  predicate OnlyConsumes(s: State, after: State, commandId: CommandId) {
    && commandId in s.inbox && after.inbox.Keys == s.inbox.Keys
    && after.inbox[commandId] == IncomingMessage(s.inbox[commandId].fromHub, s.inbox[commandId].payload, true)
    && forall other :: other in s.inbox && other != commandId ==> after.inbox[other] == s.inbox[other]
  }

  // What an inbound transfer does: it credits the payee alone, debits the vault alone, and counts the gross amount.
  ghost predicate PaidOut(s: State, after: State, commandId: CommandId, t: HubMessage, fee: nat, now: i64)
    requires t.InterchainTransfer? && t.tokenId in s.managers && s.managers[t.tokenId].mint in s.mints
  {
    var id, ty, mint := t.tokenId, s.managers[t.tokenId].ty, s.managers[t.tokenId].mint;
    var arriving := ArrivingFrom(s.mints[mint], ty, id, PayeeOf(t.destination), t.amount, fee);
    && arriving >= 0
    && BalancesShift(s, after, mint, VaultOf(s, id), t.amount, Some(PayeeOf(t.destination)), arriving)
    && OnlyCountersChange(s, after, id, t.amount, In, now) && OnlyConsumes(s, after, commandId)
    && after.log == s.log + [TransferReceived(commandId, id, mint, PayeeOf(t.destination), t.amount, arriving)]
  }

  lemma ReceivingNeedsAnApproval(s: State, commandId: CommandId, t: HubMessage, receiver: Address, fee: u64, now: i64)
    requires t.InterchainTransfer?
    ensures ReceiveTransferSpec(s, commandId, t, receiver, fee, now).Ok? <==> CanReceive(s, t, receiver, fee, now)
  {
    if t.tokenId in s.managers && s.managers[t.tokenId].mint in s.mints {
      var manager := s.managers[t.tokenId];
      GivingCreditsTheReceiver(s.mints[manager.mint], manager.ty, t.tokenId, receiver, t.amount, fee);
      TrackedExactlyWhenItFits(manager.flowSlot, t.amount, In, now);
    }
  }

  /** A transfer of the hub is executed exactly when it is pending, it is paid to whom it is addressed, the manager can
      give the tokens and the flow limit has room. */
  lemma ExecutionsNeedAnApproval(s: State, commandId: CommandId, receiver: Address, fee: u64, now: i64)
    requires commandId in s.inbox && s.inbox[commandId].payload.InterchainTransfer?
    ensures Attempt(s, Transaction(Execute(commandId, receiver, fee), now)).Ok?
      <==> Pending(s, commandId) && CanReceive(s, s.inbox[commandId].payload, receiver, fee, now)
  {
    var consumed := s.(inbox := s.inbox[commandId := s.inbox[commandId].(executed := true)]);
    ReceivingNeedsAnApproval(consumed, commandId, s.inbox[commandId].payload, receiver, fee, now);
    assert CanReceive(consumed, s.inbox[commandId].payload, receiver, fee, now)
        == CanReceive(s, s.inbox[commandId].payload, receiver, fee, now);
  }

  lemma ReceivedTransfersCreditThePayee(
    s: State, consumed: State, commandId: CommandId, t: HubMessage, receiver: Address, fee: u64, now: i64)
    requires t.InterchainTransfer? && ReceiveTransferSpec(consumed, commandId, t, receiver, fee, now).Ok?
    requires consumed == s.(inbox := consumed.inbox) && OnlyConsumes(s, consumed, commandId)
    ensures t.tokenId in s.managers && s.managers[t.tokenId].mint in s.mints
    ensures PaidOut(s, ReceiveTransferSpec(consumed, commandId, t, receiver, fee, now).value, commandId, t, fee, now)
  {
    var after := ReceiveTransferSpec(consumed, commandId, t, receiver, fee, now).value;
    var id, manager := t.tokenId, consumed.managers[t.tokenId];
    var m := s.mints[manager.mint];
    ReceivingNeedsAnApproval(consumed, commandId, t, receiver, fee, now);
    GivingCreditsTheReceiver(m, manager.ty, id, receiver, t.amount, fee);
    TrackedExactlyWhenItFits(manager.flowSlot, t.amount, In, now);
    ShiftedMint(s, after, manager.mint, GiveToken(m, manager.ty, id, receiver, t.amount, fee).value, VaultOf(s, id),
                t.amount, Some(receiver), ArrivingFrom(m, manager.ty, id, receiver, t.amount, fee));
  }

  /** And then it credits the payee alone, debits the vault of a locking manager alone, and is consumed. */
  lemma ExecutionsCreditThePayee(s: State, commandId: CommandId, receiver: Address, fee: u64, now: i64)
    requires Attempt(s, Transaction(Execute(commandId, receiver, fee), now)).Ok?
    requires s.inbox[commandId].payload.InterchainTransfer?
    ensures var t := s.inbox[commandId].payload;
      && t.tokenId in s.managers && s.managers[t.tokenId].mint in s.mints
      && PaidOut(s, Attempt(s, Transaction(Execute(commandId, receiver, fee), now)).value, commandId, t, fee, now)
  {
    var consumed := s.(inbox := s.inbox[commandId := s.inbox[commandId].(executed := true)]);
    ReceivedTransfersCreditThePayee(s, consumed, commandId, s.inbox[commandId].payload, receiver, fee, now);
  }

  // ---------- Every step ----------

  // What a transaction moves when it goes through: out of one account of a mint, into another.
  datatype Movement =
    Movement(mint: MintKey, source: Option<Address>, amount: nat, target: Option<Address>, arriving: int) | Nothing

  function MovementOf(s: State, i: Instruction): Movement {
    match i
    case Transfer(id, sender, _, amount, fee) =>
      if id !in s.managers || s.managers[id].mint !in s.mints then Nothing
      else Movement(s.managers[id].mint, Some(sender), amount, VaultOf(s, id),
                    Locked(s.mints[s.managers[id].mint], s.managers[id].ty, amount, fee))
    case Execute(commandId, _, fee) =>
      if commandId in s.inbox then Payment(s, s.inbox[commandId].payload, fee) else Nothing
    case Deploy(id, deployer, supply, _) => Movement(InterchainToken(id), None, 0, Some(deployer), supply)
    case MintTokens(id, _, destination, amount) =>
      if id !in s.managers then Nothing else Movement(s.managers[id].mint, None, 0, Some(destination), amount)
    case MoveTokens(mint, from, to, amount, fee) =>
      if mint !in s.mints then Nothing
      else Movement(mint, Some(from), amount, Some(to), if from == to then amount
        else amount - FeeOf(s.mints[mint], fee))
    case IssueTokens(mint, _, to, amount) => Movement(mint, None, 0, Some(to), amount)
    case BurnTokens(mint, from, amount) => Movement(mint, Some(from), amount, None, 0)
    case PayOutFees(mint, to) =>
      if mint !in s.mints then Nothing else Movement(mint, None, 0, Some(to), s.mints[mint].withheld)
    case _ => Nothing
  }

  // Only transfers of the hub move tokens.
  function Payment(s: State, message: HubMessage, fee: nat): Movement {
    match message
    case InterchainTransfer(id, destination, amount) =>
      if id !in s.managers || s.managers[id].mint !in s.mints then Nothing
      else Movement(s.managers[id].mint, VaultOf(s, id), amount, Some(PayeeOf(destination)),
                    ArrivingFrom(s.mints[s.managers[id].mint], s.managers[id].ty, id, PayeeOf(destination), amount,
                        fee))
    case _ => Nothing
  }

  ghost predicate BalancesFollow(s: State, after: State, move: Movement) {
    match move
    case Nothing => forall key, a :: Balance(after, key, a) == Balance(s, key, a)
    case Movement(mint, source, amount, target, arriving) =>
      arriving >= 0 && BalancesShift(s, after, mint, source, amount, target, arriving)
  }

  lemma ServiceStepsMoveExactly(s: State, tx: Transaction)
    requires Attempt(s, tx).Ok?
    requires tx.instruction.Transfer? || tx.instruction.Execute?
    ensures BalancesFollow(s, Attempt(s, tx).value, MovementOf(s, tx.instruction))
  {
    match tx.instruction
    case Transfer(id, sender, destination, amount, fee) =>
      TransfersDebitTheSender(s, id, sender, destination, amount, fee, tx.now);
    case Execute(commandId, receiver, fee) =>
      if s.inbox[commandId].payload.InterchainTransfer? {
        ExecutionsCreditThePayee(s, commandId, receiver, fee, tx.now);
      } else {
        OtherMessagesMoveNothing(s, commandId, receiver, fee, tx.now);
      }
  }

  lemma OtherMessagesMoveNothing(s: State, commandId: CommandId, receiver: Address, fee: u64, now: i64)
    requires Attempt(s, Transaction(Execute(commandId, receiver, fee), now)).Ok?
    requires !s.inbox[commandId].payload.InterchainTransfer?
    ensures BalancesFollow(s, Attempt(s, Transaction(Execute(commandId, receiver, fee), now)).value, Nothing)
  {}

  predicate TokenProgramInstruction(i: Instruction) {
    i.MoveTokens? || i.IssueTokens? || i.BurnTokens? || i.PayOutFees? || i.MintTokens?
  }

  lemma IssuedTokensMove(s: State, after: State, mint: MintKey, to: Address, amount: nat)
    requires mint in s.mints && Minted(s.mints[mint], to, amount).Ok?
    requires after.mints == s.mints[mint := Minted(s.mints[mint], to, amount).value]
    ensures BalancesShift(s, after, mint, None, 0, Some(to), amount)
  {
    MintingShifts(s.mints[mint], to, amount);
    ShiftedMint(s, after, mint, Minted(s.mints[mint], to, amount).value, None, 0, Some(to), amount);
  }

  lemma TransferredTokensMove(s: State, mint: MintKey, from: Address, to: Address, amount: u64, fee: u64)
    requires MoveTokensSpec(s, mint, from, to, amount, fee).Ok?
    ensures BalancesFollow(s, MoveTokensSpec(s, mint, from, to, amount, fee).value, Movement(mint, Some(from), amount,
        Some(to), if from == to then amount else amount - FeeOf(s.mints[mint], fee)))
  {
    var m := s.mints[mint];
    MovingShifts(m, from, to, amount, fee);
    ShiftedMint(s, MoveTokensSpec(s, mint, from, to, amount, fee).value, mint, Moved(m, from, to, amount, fee).value,
                Some(from), amount, Some(to), Arriving(m, from, to, amount, fee));
  }

  lemma BurnedTokensMove(s: State, mint: MintKey, from: Address, amount: u64)
    requires BurnTokensSpec(s, mint, from, amount).Ok?
    ensures BalancesFollow(s, BurnTokensSpec(s, mint, from, amount).value, Movement(mint, Some(from), amount, None, 0))
  {
    BurningShifts(s.mints[mint], from, amount);
    ShiftedMint(s, BurnTokensSpec(s, mint, from, amount).value, mint, Burned(s.mints[mint], from, amount).value,
                Some(from), amount, None, 0);
  }

  lemma PaidOutFeesMove(s: State, mint: MintKey, to: Address)
    requires PayOutFeesSpec(s, mint, to).Ok?
    ensures BalancesFollow(s, PayOutFeesSpec(s, mint, to).value, Movement(mint, None, 0, Some(to),
        s.mints[mint].withheld))
  {}

  lemma MintedTokensMove(s: State, tx: Transaction)
    requires Attempt(s, tx).Ok? && (tx.instruction.IssueTokens? || tx.instruction.MintTokens?)
    ensures BalancesFollow(s, Attempt(s, tx).value, MovementOf(s, tx.instruction))
  {
    var after := Attempt(s, tx).value;
    match tx.instruction
    case IssueTokens(mint, _, to, amount) => IssuedTokensMove(s, after, mint, to, amount);
    case MintTokens(id, _, to, amount) => IssuedTokensMove(s, after, s.managers[id].mint, to, amount);
  }

  lemma TokenProgramsMoveExactly(s: State, tx: Transaction)
    requires Attempt(s, tx).Ok? && TokenProgramInstruction(tx.instruction)
    ensures BalancesFollow(s, Attempt(s, tx).value, MovementOf(s, tx.instruction))
  {
    match tx.instruction
    case MoveTokens(mint, from, to, amount, fee) => TransferredTokensMove(s, mint, from, to, amount, fee);
    case BurnTokens(mint, from, amount) => BurnedTokensMove(s, mint, from, amount);
    case PayOutFees(mint, to) => PaidOutFeesMove(s, mint, to);
    case _ => MintedTokensMove(s, tx);
  }

  predicate CreatingInstruction(i: Instruction) {
    i.RegisterCanonical? || i.RegisterCustom? || i.Deploy? || i.CreateMint?
  }

  // New mints are empty but for the supply of a deployment.
  lemma CreatingMovesExactly(s: State, tx: Transaction)
    requires Attempt(s, tx).Ok? && CreatingInstruction(tx.instruction)
    ensures BalancesFollow(s, Attempt(s, tx).value, MovementOf(s, tx.instruction))
  {}

  lemma RolesAndMessagesMoveNothing(s: State, tx: Transaction)
    requires Attempt(s, tx).Ok? && !TokenProgramInstruction(tx.instruction) && !CreatingInstruction(tx.instruction)
    requires !tx.instruction.Transfer? && !tx.instruction.Execute?
    ensures BalancesFollow(s, Attempt(s, tx).value, MovementOf(s, tx.instruction))
  {
    var after := Attempt(s, tx).value;
    assert forall key :: key in s.mints ==> key in after.mints && after.mints[key].holdings == s.mints[key].holdings;
  }

  /** Every step moves exactly what its instruction asks for, between the accounts it names, and touches no other token
      account of any mint. */
  lemma StepsMoveExactly(s: State, tx: Transaction)
    requires Attempt(s, tx).Ok?
    ensures BalancesFollow(s, Attempt(s, tx).value, MovementOf(s, tx.instruction))
  {
    if TokenProgramInstruction(tx.instruction) {
      TokenProgramsMoveExactly(s, tx);
    } else if tx.instruction.Transfer? || tx.instruction.Execute? {
      ServiceStepsMoveExactly(s, tx);
    } else if CreatingInstruction(tx.instruction) {
      CreatingMovesExactly(s, tx);
    } else {
      RolesAndMessagesMoveNothing(s, tx);
    }
  }

  // ---------- Who spends ----------

  // The owner of the account signs to have tokens taken out of it.
  predicate SpentBy(i: Instruction, owner: Address) {
    match i
    case Transfer(_, sender, _, _, _) => sender == owner
    case MoveTokens(_, from, _, _, _) => from == owner
    case BurnTokens(_, from, _) => from == owner
    case _ => false
  }

  // A pending transfer of the hub is paid out of the vault of its manager.
  predicate PaidFromVault(s: State, i: Instruction, id: TokenId, mint: MintKey) {
    && i.Execute? && Pending(s, i.commandId)
    && s.inbox[i.commandId].payload.InterchainTransfer? && s.inbox[i.commandId].payload.tokenId == id
    && id in s.managers && s.managers[id].mint == mint && Locking(s.managers[id].ty)
  }

  predicate Spends(s: State, tx: Transaction, mint: MintKey, owner: Address) {
    && Attempt(s, tx).Ok?
    && match owner
       case TokenManagerPda(id) => PaidFromVault(s, tx.instruction, id, mint)
       case _ => SpentBy(tx.instruction, owner)
  }

  lemma OneStepSpends(s: State, tx: Transaction, mint: MintKey, owner: Address)
    requires Balance(Step(s, tx), mint, owner) < Balance(s, mint, owner)
    ensures Spends(s, tx, mint, owner)
  {
    StepsMoveExactly(s, tx);
  }

  /** Nobody loses tokens to anyone else: if a token account has less after a run, then either its owner signed a
      transfer, a movement or a burning out of it, or it is the vault of a locking manager and a pending transfer of the
      hub for that very manager was paid from it. */
  lemma {:induction false} OnlyOwnersSpend(s: State, txs: seq<Transaction>, mint: MintKey, owner: Address)
    returns (k: nat)
    requires Balance(Run(s, txs), mint, owner) < Balance(s, mint, owner)
    ensures k < |txs| && Spends(Run(s, txs[..k]), txs[k], mint, owner)
  {
    var n := |txs| - 1;
    if Balance(Run(s, txs), mint, owner) < Balance(Run(s, txs[..n]), mint, owner) {
      OneStepSpends(Run(s, txs[..n]), txs[n], mint, owner);
      k := n;
    } else {
      k := OnlyOwnersSpend(s, txs[..n], mint, owner);
      assert txs[..n][..k] == txs[..k];
    }
  }
}
