// What the token service does to the tokens over whole runs: vaults and supplies add up, whatever else happens.
module TokenServiceLedger {
  import opened Prelude
  import opened FlowLimits
  import opened UserRoles
  import opened TokenLedger
  import opened TokenService
  import opened TokenServiceRuns

  // ---------- The invariant ----------

  predicate Manages(s: State, id: TokenId, mint: MintKey, locks: bool) {
    id in s.managers && s.managers[id].mint == mint && s.managers[id].ty.Locks() == locks
  }

  // What is due to a manager's token account: its credits, and for its own token what was sent less what was received.
  ghost function Due(s: State, mint: MintKey, id: TokenId): int {
    Total(s.log, Credited(mint, id))
    + if Manages(s, id, mint, true) then Total(s.log, Sent(id)) - Total(s.log, Received(id)) else 0
  }

  // The supply a mint should have: what was issued, and for the token of the minting manager that is its authority
  // what was received less what was sent.
  ghost function DueSupply(s: State, mint: MintKey): int
    requires mint in s.mints
  {
    Total(s.log, Issued(mint))
    + match s.mints[mint].authority
      case Some(TokenManagerPda(id)) =>
        if Manages(s, id, mint, false) then Total(s.log, Received(id)) - Total(s.log, Sent(id)) else 0
      case _ => 0
  }

  ghost predicate VaultMatches(s: State, mint: MintKey, id: TokenId) {
    mint in s.mints ==> s.mints[mint].holdings[TokenManagerPda(id)] == Due(s, mint, id)
  }

  ghost predicate MintMatches(s: State, mint: MintKey) {
    if mint in s.mints then s.mints[mint].Backed() && s.mints[mint].supply == DueSupply(s, mint)
    else Total(s.log, Issued(mint)) == 0 && forall id :: Total(s.log, Credited(mint, id)) == 0
  }

  predicate HoldsAuthority(s: State, id: TokenId) {
    id in s.managers && s.managers[id].mint in s.mints
      && s.mints[s.managers[id].mint].authority == Some(TokenManagerPda(id))
  }

  ghost predicate ManagerMatches(s: State, id: TokenId) {
    if id in s.managers then
      && s.managers[id].mint in s.mints && s.managers[id].ty.SupportsMint(s.mints[s.managers[id].mint])
      && (!s.managers[id].ty.Locks() && !HoldsAuthority(s, id) ==> Idle(s, id))
    else Idle(s, id)
  }

  ghost predicate Idle(s: State, id: TokenId) {
    Total(s.log, Sent(id)) == 0 && Total(s.log, Received(id)) == 0
  }

  ghost predicate Inv(s: State) {
    && (forall mint, id :: VaultMatches(s, mint, id))
    && (forall mint :: MintMatches(s, mint))
    && (forall id :: ManagerMatches(s, id))
  }

  // ---------- Steps that move no tokens ----------

  ghost predicate SameTypes(a: State, b: State) {
    && a.managers.Keys == b.managers.Keys
    && forall id :: id in a.managers ==>
      a.managers[id].ty == b.managers[id].ty && a.managers[id].mint == b.managers[id].mint
  }

  lemma QuietStepKeepsInv(s: State, after: State)
    requires Inv(s) && SameTypes(s, after) && after.mints == s.mints && after.log == s.log
    ensures Inv(after)
  {
    forall mint, id
      ensures VaultMatches(after, mint, id)
    {
      assert VaultMatches(s, mint, id);
    }
    forall mint
      ensures MintMatches(after, mint)
    {
      assert MintMatches(s, mint);
    }
    forall id
      ensures ManagerMatches(after, id)
    {
      assert ManagerMatches(s, id);
    }
  }

  lemma ApprovalKeepsInv(s: State, after: State, e: Event)
    requires Inv(s) && e.MessageApproved?
    requires after.managers == s.managers && after.mints == s.mints && after.log == s.log + [e]
    ensures Inv(after)
  {
    TotalsGrow(s.log, e);
    forall mint, id
      ensures VaultMatches(after, mint, id)
    {
      assert VaultMatches(s, mint, id);
    }
    forall mint
      ensures MintMatches(after, mint)
    {
      assert MintMatches(s, mint);
    }
    forall id
      ensures ManagerMatches(after, id)
    {
      assert ManagerMatches(s, id);
    }
  }

  lemma NewManagerKeepsInv(s: State, id: TokenId, ty: ManagerType, mint: MintKey, holder: Option<Address>, mask: bv8)
    requires Inv(s) && mint in s.mints && ty.SupportsMint(s.mints[mint])
    requires AddManager(s, id, ty, mint, holder, mask).Ok?
    ensures Inv(AddManager(s, id, ty, mint, holder, mask).value)
  {
    var after := AddManager(s, id, ty, mint, holder, mask).value;
    assert ManagerMatches(s, id);
    forall mint, other
      ensures VaultMatches(after, mint, other)
    {
      assert VaultMatches(s, mint, other);
    }
    forall mint
      ensures MintMatches(after, mint)
    {
      assert MintMatches(s, mint);
    }
    forall other
      ensures ManagerMatches(after, other)
    {
      assert ManagerMatches(s, other);
    }
  }

  // A mint that begins with a supply nobody but a signer holds.
  lemma NewMintKeepsInv(s: State, after: State, mint: MintKey, m: Mint, issued: seq<Event>, holder: Address)
    requires Inv(s) && mint !in s.mints
    requires after.managers == s.managers && after.mints == s.mints[mint := m] && after.log == s.log + issued
    requires m.Backed() && m.holdings == multiset{}[holder := m.supply]
    requires if m.supply == 0 then issued == [] || issued == [TokensIssued(mint, holder, 0)]
             else issued == [TokensIssued(mint, holder, m.supply)] && !holder.TokenManagerPda?
    ensures Inv(after)
  {
    if issued != [] {
      TotalsGrow(s.log, issued[0]);
    } else {
      assert after.log == s.log;
    }
    assert MintMatches(s, mint);
    forall key, id
      ensures VaultMatches(after, key, id)
    {
      assert VaultMatches(s, key, id) && ManagerMatches(s, id);
    }
    forall id
      ensures ManagerMatches(after, id)
    {
      assert ManagerMatches(s, id);
    }
    forall key
      ensures MintMatches(after, key)
    {
      assert MintMatches(s, key);
      if key == mint && m.authority.Some? && m.authority.value.TokenManagerPda? {
        assert ManagerMatches(s, m.authority.value.tokenId);
      }
    }
  }

  lemma NewAuthorityKeepsInv(s: State, after: State, mint: MintKey, authority: Option<Address>)
    requires Inv(s) && mint in s.mints && s.mints[mint].authority.Some?
      && !s.mints[mint].authority.value.TokenManagerPda?
    requires after.managers == s.managers && after.log == s.log
    requires after.mints == s.mints[mint := s.mints[mint].(authority := authority)]
    ensures Inv(after)
  {
    forall key, id
      ensures VaultMatches(after, key, id)
    {
      assert VaultMatches(s, key, id);
    }
    forall id
      ensures ManagerMatches(after, id)
    {
      assert ManagerMatches(s, id);
    }
    forall key
      ensures MintMatches(after, key)
    {
      assert MintMatches(s, key);
      if key == mint && authority.Some? && authority.value.TokenManagerPda? {
        assert ManagerMatches(s, authority.value.tokenId);
      }
    }
  }

  // ---------- Steps that move tokens outside the service's transfers ----------

  // One mint changes and one event says how.
  ghost predicate LedgerStep(s: State, after: State, mint: MintKey, m: Mint, e: Event) {
    && mint in s.mints && SameTypes(s, after)
    && after.mints == s.mints[mint := m] && after.log == s.log + [e]
    && m.hasTransferFee == s.mints[mint].hasTransferFee && m.authority == s.mints[mint].authority && m.Backed()
  }

  lemma OutsideStepKeepsInv(s: State, after: State, mint: MintKey, m: Mint, e: Event)
    requires Inv(s) && LedgerStep(s, after, mint, m, e)
    requires e.TokensMoved? || e.TokensIssued? || e.TokensBurned?
    requires e.mint == mint && m.supply == s.mints[mint].supply + Share(e, Issued(mint))
    requires forall id ::
      m.holdings[TokenManagerPda(id)] == s.mints[mint].holdings[TokenManagerPda(id)] + Share(e, Credited(mint, id))
    ensures Inv(after)
  {
    TotalsGrow(s.log, e);
    forall key, id
      ensures VaultMatches(after, key, id)
    {
      assert VaultMatches(s, key, id);
    }
    forall key
      ensures MintMatches(after, key)
    {
      assert MintMatches(s, key);
    }
    forall id
      ensures ManagerMatches(after, id)
    {
      assert ManagerMatches(s, id);
    }
  }

  // What each movement does to the token accounts of managers.
  lemma MovingTokens(m: Mint, from: Address, to: Address, amount: nat, fee: nat)
    requires m.Backed() && !from.TokenManagerPda? && Moved(m, from, to, amount, fee).Ok?
    ensures var after := Moved(m, from, to, amount, fee).value;
      && after.Backed() && after.supply == m.supply && after.hasTransferFee == m.hasTransferFee
        && after.authority == m.authority
      && forall id :: after.holdings[TokenManagerPda(id)] ==
           m.holdings[TokenManagerPda(id)] + if to == TokenManagerPda(id) then Arriving(m, from, to, amount, fee) else 0
  {
    TransfersKeepTheSupplyBacked(m, from, to, amount, fee);
  }

  lemma IssuingKeepsInv(s: State, after: State, mint: MintKey, to: Address, amount: u64)
    requires Inv(s) && mint in s.mints && Minted(s.mints[mint], to, amount).Ok?
    requires after == s.(mints := s.mints[mint := Minted(s.mints[mint], to, amount).value],
                         log := s.log + [TokensIssued(mint, to, amount)])
    ensures Inv(after)
  {
    assert MintMatches(s, mint);
    TransfersKeepTheSupplyBacked(s.mints[mint], to, to, amount, 0);
    OutsideStepKeepsInv(s, after, mint, Minted(s.mints[mint], to, amount).value, TokensIssued(mint, to, amount));
  }

  lemma BurningKeepsInv(s: State, mint: MintKey, from: Address, amount: u64)
    requires Inv(s) && BurnTokensSpec(s, mint, from, amount).Ok?
    ensures Inv(BurnTokensSpec(s, mint, from, amount).value)
  {
    var burned := Burned(s.mints[mint], from, amount).value;
    assert MintMatches(s, mint);
    TransfersKeepTheSupplyBacked(s.mints[mint], from, from, amount, 0);
    var after := s.(mints := s.mints[mint := burned], log := s.log + [TokensBurned(mint, amount)]);
    OutsideStepKeepsInv(s, after, mint, burned, TokensBurned(mint, amount));
  }

  lemma MovingKeepsInv(s: State, mint: MintKey, from: Address, to: Address, amount: u64, fee: u64)
    requires Inv(s) && MoveTokensSpec(s, mint, from, to, amount, fee).Ok?
    ensures Inv(MoveTokensSpec(s, mint, from, to, amount, fee).value)
  {
    var m := s.mints[mint];
    assert MintMatches(s, mint);
    MovingTokens(m, from, to, amount, fee);
    var moved, e := Moved(m, from, to, amount, fee).value, TokensMoved(mint, to, Arriving(m, from, to, amount, fee));
    var after := s.(mints := s.mints[mint := moved], log := s.log + [e]);
    OutsideStepKeepsInv(s, after, mint, moved, e);
  }

  lemma PayingOutFeesKeepsInv(s: State, mint: MintKey, to: Address)
    requires Inv(s) && mint in s.mints
    ensures Inv(PayOutFeesSpec(s, mint, to).value)
  {
    var m := s.mints[mint];
    assert MintMatches(s, mint);
    TransfersKeepTheSupplyBacked(m, to, to, 0, 0);
    var after := s.(mints := s.mints[mint := FeesPaidOut(m, to)], log := s.log + [TokensMoved(mint, to, m.withheld)]);
    OutsideStepKeepsInv(s, after, mint, FeesPaidOut(m, to), TokensMoved(mint, to, m.withheld));
  }

  // ---------- Transfers of the service ----------

  // What a transfer event adds to the vault of a locking manager.
  function Net(e: Event, id: TokenId): int {
    Share(e, Sent(id)) - Share(e, Received(id))
  }

  // A transfer of manager `id` that changes its mint as the event says.
  ghost predicate TransferStep(s: State, after: State, id: TokenId, m: Mint, e: Event) {
    && id in s.managers && LedgerStep(s, after, s.managers[id].mint, m, e)
    && (e.TransferSent? || (e.TransferReceived? && e.mint == s.managers[id].mint)) && e.tokenId == id
    && (s.managers[id].ty.Locks() || HoldsAuthority(s, id))
    && var locks, mint := s.managers[id].ty.Locks(), s.managers[id].mint;
      && m.supply == s.mints[mint].supply - (if locks then 0 else Net(e, id))
      && forall v :: m.holdings[TokenManagerPda(v)] ==
           s.mints[mint].holdings[TokenManagerPda(v)] + Share(e, Credited(mint, v))
           + (if v == id && locks then Net(e, id) else 0)
  }

  lemma TransferStepKeepsVaults(s: State, after: State, id: TokenId, m: Mint, e: Event, key: MintKey, v: TokenId)
    requires Inv(s) && TransferStep(s, after, id, m, e)
    ensures VaultMatches(after, key, v)
  {
    TotalsGrow(s.log, e);
    assert VaultMatches(s, key, v);
  }

  lemma TransferStepKeepsInv(s: State, after: State, id: TokenId, m: Mint, e: Event)
    requires Inv(s) && TransferStep(s, after, id, m, e)
    ensures Inv(after)
  {
    TotalsGrow(s.log, e);
    forall key, v
      ensures VaultMatches(after, key, v)
    {
      TransferStepKeepsVaults(s, after, id, m, e, key, v);
    }
    forall v
      ensures ManagerMatches(after, v)
    {
      assert ManagerMatches(s, v);
    }
    forall key
      ensures MintMatches(after, key)
    {
      assert MintMatches(s, key);
    }
  }

  // What an accepted outbound transfer was given.
  lemma TakenTokens(s: State, id: TokenId, sender: Address, amount: u64, fee: u64)
    requires Inv(s) && id in s.managers && s.managers[id].mint in s.mints && !sender.TokenManagerPda?
    requires TakeToken(s.mints[s.managers[id].mint], s.managers[id].ty, id, sender, amount, fee).Ok?
    ensures var m, ty := s.mints[s.managers[id].mint], s.managers[id].ty;
      var (after, transferred) := TakeToken(m, ty, id, sender, amount, fee).value;
      && after.hasTransferFee == m.hasTransferFee && after.authority == m.authority && after.Backed()
      && (ty.Locks() || HoldsAuthority(s, id))
      && transferred == (if ty == LockUnlockFee then amount - fee else amount)
      && after.supply == m.supply - (if ty.Locks() then 0 else transferred)
      && forall v :: after.holdings[TokenManagerPda(v)] ==
           m.holdings[TokenManagerPda(v)] + (if v == id && ty.Locks() then transferred else 0)
  {
    assert ManagerMatches(s, id) && MintMatches(s, s.managers[id].mint);
    TransfersKeepTheSupplyBacked(s.mints[s.managers[id].mint], sender, TokenManagerPda(id), amount, fee);
  }

  lemma TakingTokensKeepsInv(
    s: State, after: State, id: TokenId, tracked: TokenManager, sender: Address, amount: u64, fee: u64)
    requires Inv(s) && id in s.managers && s.managers[id].mint in s.mints && !sender.TokenManagerPda?
    requires tracked.ty == s.managers[id].ty && tracked.mint == s.managers[id].mint
    requires var taken := TakeToken(s.mints[s.managers[id].mint], s.managers[id].ty, id, sender, amount, fee);
      && taken.Ok?
      && after == s.(managers := s.managers[id := tracked], mints := s.mints[s.managers[id].mint := taken.value.0],
                     log := s.log + [TransferSent(id, taken.value.1)])
    ensures Inv(after)
  {
    var taken := TakeToken(s.mints[s.managers[id].mint], s.managers[id].ty, id, sender, amount, fee).value;
    TakenTokens(s, id, sender, amount, fee);
    TransferStepKeepsInv(s, after, id, taken.0, TransferSent(id, taken.1));
  }

  lemma OutboundKeepsInv(
    s: State, id: TokenId, authority: Address, destination: seq<u8>, amount: u64, fee: u64, now: i64)
    requires Inv(s) && InterchainTransferSpec(s, id, authority, destination, amount, fee, now).Ok?
    ensures Inv(InterchainTransferSpec(s, id, authority, destination, amount, fee, now).value)
  {
    var after := InterchainTransferSpec(s, id, authority, destination, amount, fee, now).value;
    TakingTokensKeepsInv(s, after, id, after.managers[id], authority, amount, fee);
  }

  lemma ReleasedTokens(m: Mint, id: TokenId, receiver: Address, amount: u64, fee: u64)
    requires m.Backed() && Moved(m, TokenManagerPda(id), receiver, amount, fee).Ok?
    ensures var after := Moved(m, TokenManagerPda(id), receiver, amount, fee).value;
      && after.hasTransferFee == m.hasTransferFee && after.authority == m.authority && after.Backed()
      && after.supply == m.supply
      && forall v :: after.holdings[TokenManagerPda(v)] ==
           m.holdings[TokenManagerPda(v)] - (if v == id then amount else 0)
           + (if receiver == TokenManagerPda(v) then Arriving(m, TokenManagerPda(id), receiver, amount, fee) else 0)
  {
    TransfersKeepTheSupplyBacked(m, TokenManagerPda(id), receiver, amount, fee);
  }

  lemma MintedTokens(m: Mint, receiver: Address, amount: u64)
    requires m.Backed() && Minted(m, receiver, amount).Ok?
    ensures var after := Minted(m, receiver, amount).value;
      && after.hasTransferFee == m.hasTransferFee && after.authority == m.authority && after.Backed()
      && after.supply == m.supply + amount
      && forall v :: after.holdings[TokenManagerPda(v)] ==
           m.holdings[TokenManagerPda(v)] + (if receiver == TokenManagerPda(v) then amount else 0)
  {
    TransfersKeepTheSupplyBacked(m, receiver, receiver, amount, 0);
  }

  // What an accepted inbound transfer did to the mint.
  lemma GivenTokens(s: State, id: TokenId, receiver: Address, amount: u64, fee: u64)
    requires Inv(s) && id in s.managers && s.managers[id].mint in s.mints
    requires GiveToken(s.mints[s.managers[id].mint], s.managers[id].ty, id, receiver, amount, fee).Ok?
    ensures var m, ty := s.mints[s.managers[id].mint], s.managers[id].ty;
      var after := GiveToken(m, ty, id, receiver, amount, fee).value;
      && after.hasTransferFee == m.hasTransferFee && after.authority == m.authority && after.Backed()
      && (ty.Locks() || HoldsAuthority(s, id))
      && after.supply == m.supply + (if ty.Locks() then 0 else amount)
      && forall v :: after.holdings[TokenManagerPda(v)] ==
           m.holdings[TokenManagerPda(v)] - (if v == id && ty.Locks() then amount else 0)
           + (if receiver == TokenManagerPda(v) then Given(m, ty, id, receiver, amount, fee) else 0)
  {
    assert ManagerMatches(s, id) && MintMatches(s, s.managers[id].mint);
    if s.managers[id].ty.Locks() {
      ReleasedTokens(s.mints[s.managers[id].mint], id, receiver, amount, fee);
    } else {
      MintedTokens(s.mints[s.managers[id].mint], receiver, amount);
    }
  }

  lemma GivingTokensKeepsInv(
    s: State, after: State, id: TokenId, tracked: TokenManager, commandId: CommandId, receiver: Address, amount: u64,
    fee: u64)
    requires Inv(s) && id in s.managers && s.managers[id].mint in s.mints
    requires tracked.ty == s.managers[id].ty && tracked.mint == s.managers[id].mint
    requires var manager := s.managers[id];
      var given := GiveToken(s.mints[manager.mint], manager.ty, id, receiver, amount, fee);
      && given.Ok?
      && after == s.(managers := s.managers[id := tracked], mints := s.mints[manager.mint := given.value],
                     log := s.log + [TransferReceived(commandId, id, manager.mint, receiver, amount,
                                       Given(s.mints[manager.mint], manager.ty, id, receiver, amount, fee))])
    ensures Inv(after)
  {
    var manager := s.managers[id];
    var m := s.mints[manager.mint];
    GivenTokens(s, id, receiver, amount, fee);
    var e := TransferReceived(commandId, id, manager.mint, receiver, amount,
                              Given(m, manager.ty, id, receiver, amount, fee));
    TransferStepKeepsInv(s, after, id, GiveToken(m, manager.ty, id, receiver, amount, fee).value, e);
  }

  lemma InboundKeepsInv(s: State, commandId: CommandId, t: HubMessage, authority: Address, fee: u64, now: i64)
    requires Inv(s) && t.InterchainTransfer? && ReceiveTransferSpec(s, commandId, t, authority, fee, now).Ok?
    ensures Inv(ReceiveTransferSpec(s, commandId, t, authority, fee, now).value)
  {
    var after := ReceiveTransferSpec(s, commandId, t, authority, fee, now).value;
    GivingTokensKeepsInv(s, after, t.tokenId, after.managers[t.tokenId], commandId, authority, t.amount, fee);
  }

  // ---------- Every step keeps the invariant ----------

  lemma DeployKeepsInv(s: State, id: TokenId, deployer: Address, supply: u64, minter: Option<Address>)
    requires Inv(s)
    ensures DeploySpec(s, id, deployer, supply, minter).Ok? ==> Inv(DeploySpec(s, id, deployer, supply, minter).value)
    ensures DeployRemoteSpec(s, id, minter).Ok? ==> Inv(DeployRemoteSpec(s, id, minter).value)
  {
    var mint, mask := InterchainToken(id), OPERATOR | FLOW_LIMITER | MINTER;
    if DeploySpec(s, id, deployer, supply, minter).Ok? {
      var m, issued := NewMint(id, supply, deployer), [TokensIssued(mint, deployer, supply)];
      var minted := s.(mints := s.mints[mint := m], log := s.log + issued);
      NewMintKeepsInv(s, minted, mint, m, issued, deployer);
      NewManagerKeepsInv(minted, id, NativeInterchainToken, mint, minter, mask);
    }
    if DeployRemoteSpec(s, id, minter).Ok? {
      var m := NewMint(id, 0, TokenManagerPda(id));
      var minted := s.(mints := s.mints[mint := m]);
      assert minted.log == s.log + [];
      NewMintKeepsInv(s, minted, mint, m, [], TokenManagerPda(id));
      NewManagerKeepsInv(minted, id, NativeInterchainToken, mint, minter, mask);
    }
  }

  lemma RegisterKeepsInv(s: State, id: TokenId, mint: MintKey, ty: ManagerType, operator: Option<Address>)
    requires Inv(s)
    ensures RegisterCanonicalSpec(s, id, mint).Ok? ==> Inv(RegisterCanonicalSpec(s, id, mint).value)
    ensures RegisterCustomSpec(s, id, mint, ty, operator).Ok? ==>
      Inv(RegisterCustomSpec(s, id, mint, ty, operator).value)
  {
    if RegisterCanonicalSpec(s, id, mint).Ok? {
      var locking := if s.mints[mint].hasTransferFee then LockUnlockFee else LockUnlock;
      NewManagerKeepsInv(s, id, locking, mint, None, EMPTY);
    }
    if RegisterCustomSpec(s, id, mint, ty, operator).Ok? {
      NewManagerKeepsInv(s, id, ty, mint, operator, OPERATOR | FLOW_LIMITER);
    }
  }

  lemma ExecuteKeepsInv(s: State, commandId: CommandId, authority: Address, fee: u64, now: i64)
    requires Inv(s) && ExecuteSpec(s, commandId, authority, fee, now).Ok?
    ensures Inv(ExecuteSpec(s, commandId, authority, fee, now).value)
  {
    var message := s.inbox[commandId];
    var consumed := s.(inbox := s.inbox[commandId := message.(executed := true)]);
    QuietStepKeepsInv(s, consumed);
    match message.payload
    case InterchainTransfer(_, _, _) => InboundKeepsInv(consumed, commandId, message.payload, authority, fee, now);
    case DeployInterchainToken(id, minter) => DeployKeepsInv(consumed, id, Wallet(0), 0, minter);
    case LinkToken(id, mint, ty, operator) => RegisterKeepsInv(consumed, id, mint, ty, operator);
  }

  lemma HandoverKeepsInv(s: State, id: TokenId, authority: Address)
    requires Inv(s) && HandoverMintAuthoritySpec(s, id, authority).Ok?
    ensures Inv(HandoverMintAuthoritySpec(s, id, authority).value)
  {
    NewAuthorityKeepsInv(s, HandoverMintAuthoritySpec(s, id, authority).value, s.managers[id].mint,
        Some(TokenManagerPda(id)));
  }

  // The steps outside the service's own transfers and token managers.
  lemma OtherStepKeepsInv(s: State, tx: Transaction)
    requires Inv(s) && Attempt(s, tx).Ok? && !ServiceInstruction(tx.instruction)
    ensures Inv(Attempt(s, tx).value)
  {
    var after := Attempt(s, tx).value;
    match tx.instruction
    case MintTokens(id, _, destination, amount) => IssuingKeepsInv(s, after, s.managers[id].mint, destination, amount);
    case Approve(commandId, fromHub, payload) =>
      ApprovalKeepsInv(s, after, MessageApproved(commandId, fromHub, payload));
    case CreateMint(key, hasTransferFee, authority) =>
      assert after.log == s.log + [];
      NewMintKeepsInv(s, after, OtherMint(key), Mint(hasTransferFee, authority, 0, multiset{}, 0), [], Wallet(0));
    case SetMintAuthority(mint, _, authority) => NewAuthorityKeepsInv(s, after, mint, authority);
    case MoveTokens(mint, from, to, amount, fee) => MovingKeepsInv(s, mint, from, to, amount, fee);
    case IssueTokens(mint, _, to, amount) => IssuingKeepsInv(s, after, mint, to, amount);
    case BurnTokens(mint, from, amount) => BurningKeepsInv(s, mint, from, amount);
    case PayOutFees(mint, to) => PayingOutFeesKeepsInv(s, mint, to);
    case _ => RolesStepKeepsInv(s, tx);
  }

  // Roles and flow limits.
  lemma RolesStepKeepsInv(s: State, tx: Transaction)
    requires Inv(s) && Attempt(s, tx).Ok? && RolesInstruction(tx.instruction)
    ensures Inv(Attempt(s, tx).value)
  {
    var after := Attempt(s, tx).value;
    assert after.log == s.log && after.mints == s.mints;
    QuietStepKeepsInv(s, after);
  }

  predicate RolesInstruction(i: Instruction) {
    || i.TransferOperatorship? || i.TransferMintership? || i.AddFlowLimiter? || i.RemoveFlowLimiter?
    || i.SetFlowLimit? || i.SetTokenManagerFlowLimit?
  }

  predicate ServiceInstruction(i: Instruction) {
    i.RegisterCanonical? || i.RegisterCustom? || i.Deploy? || i.Transfer? || i.Execute? || i.HandoverMintAuthority?
  }

  lemma StepKeepsInv(s: State, tx: Transaction)
    requires Inv(s)
    ensures Inv(Step(s, tx))
  {
    if Attempt(s, tx).Ok? {
      match tx.instruction
      case RegisterCanonical(id, mint) => RegisterKeepsInv(s, id, mint, MintBurn, None);
      case RegisterCustom(id, mint, ty, operator) => RegisterKeepsInv(s, id, mint, ty, operator);
      case Deploy(id, deployer, supply, minter) => DeployKeepsInv(s, id, deployer, supply, minter);
      case Transfer(id, authority, destination, amount, fee) =>
        OutboundKeepsInv(s, id, authority, destination, amount, fee, tx.now);
      case Execute(commandId, authority, fee) => ExecuteKeepsInv(s, commandId, authority, fee, tx.now);
      case HandoverMintAuthority(id, authority) => HandoverKeepsInv(s, id, authority);
      case _ => OtherStepKeepsInv(s, tx);
    }
  }

  lemma {:induction false} RunKeepsInv(operator: Address, txs: seq<Transaction>)
    ensures Inv(After(operator, txs))
  {
    if |txs| == 0 {
    } else {
      RunKeepsInv(operator, txs[..|txs| - 1]);
      StepKeepsInv(After(operator, txs[..|txs| - 1]), txs[|txs| - 1]);
    }
  }
}
