// Whole runs of the token service: its instructions, the messages the gateway approves for it, and whatever else
// happens to the tokens, in any order, failed steps included.
module TokenServiceRuns {
  import opened Prelude
  import opened FlowLimits
  import opened UserRoles
  import opened TokenLedger
  import opened TokenService

  datatype Instruction =
    // The service
    | RegisterCanonical(id: TokenId, mint: MintKey)
    | RegisterCustom(id: TokenId, mint: MintKey, ty: ManagerType, operator: Option<Address>)
    | Deploy(id: TokenId, deployer: Address, supply: u64, minter: Option<Address>)
    | Transfer(id: TokenId, authority: Address, destinationAddress: seq<u8>, amount: u64, fee: u64)
    | Execute(commandId: CommandId, destinationAuthority: Address, fee: u64)
    | MintTokens(id: TokenId, signer: Address, destination: Address, amount: u64)
    | TransferOperatorship(resource: Resource, origin: Address, destination: Address)
    | TransferMintership(id: TokenId, origin: Address, destination: Address)
    | HandoverMintAuthority(id: TokenId, authority: Address)
    | AddFlowLimiter(id: TokenId, authority: Address, target: Address)
    | RemoveFlowLimiter(id: TokenId, authority: Address, target: Address)
    | SetFlowLimit(id: TokenId, signer: Address, limit: Option<u64>)
    | SetTokenManagerFlowLimit(id: TokenId, signer: Address, limit: Option<u64>)
    // The gateway
    | Approve(commandId: CommandId, fromHub: bool, payload: HubMessage)
    // The token programs, on request of anyone who can sign
    | CreateMint(key: Pubkey, hasTransferFee: bool, mintAuthority: Option<Address>)
    | MoveTokens(mint: MintKey, from: Address, to: Address, amount: u64, fee: u64)
    | IssueTokens(mint: MintKey, signer: Address, to: Address, amount: u64)
    | BurnTokens(mint: MintKey, from: Address, amount: u64)
    | PayOutFees(mint: MintKey, to: Address)
    | SetMintAuthority(mint: MintKey, signer: Address, mintAuthority: Option<Address>)

  datatype Transaction = Transaction(instruction: Instruction, now: i64)

  function ApproveSpec(s: State, commandId: CommandId, fromHub: bool, payload: HubMessage): Result<State, ItsError> {
    if commandId in s.inbox then Err(AccountAlreadyInUse)
    else
      Ok(s.(inbox := s.inbox[commandId := IncomingMessage(fromHub, payload, false)],
            log := s.log + [MessageApproved(commandId, fromHub, payload)]))
  }

  function CreateMintSpec(s: State, key: Pubkey, hasTransferFee: bool, authority: Option<Address>)
    : Result<State, ItsError>
  {
    if OtherMint(key) in s.mints then Err(AccountAlreadyInUse)
    else Ok(s.(mints := s.mints[OtherMint(key) := Mint(hasTransferFee, authority, 0, multiset{}, 0)]))
  }

  function MoveTokensSpec(s: State, mint: MintKey, from: Address, to: Address, amount: u64, fee: u64)
    : Result<State, ItsError>
  {
    if from.TokenManagerPda? then Err(MissingRequiredSignature)
    else if mint !in s.mints then Err(AccountNotInitialized)
    else
      var moved :- AsIts(Moved(s.mints[mint], from, to, amount, fee));
      Ok(s.(mints := s.mints[mint := moved],
            log := s.log + [TokensMoved(mint, to, Arriving(s.mints[mint], from, to, amount, fee))]))
  }

  function IssueTokensSpec(s: State, mint: MintKey, signer: Address, to: Address, amount: u64)
    : Result<State, ItsError>
  {
    if signer.TokenManagerPda? then Err(MissingRequiredSignature)
    else if mint !in s.mints then Err(AccountNotInitialized)
    else if s.mints[mint].authority != Some(signer) then Err(ConstraintMintAuthority)
    else
      var issued :- AsIts(Minted(s.mints[mint], to, amount));
      Ok(s.(mints := s.mints[mint := issued], log := s.log + [TokensIssued(mint, to, amount)]))
  }

  function BurnTokensSpec(s: State, mint: MintKey, from: Address, amount: u64): Result<State, ItsError> {
    if from.TokenManagerPda? then Err(MissingRequiredSignature)
    else if mint !in s.mints then Err(AccountNotInitialized)
    else
      var burned :- AsIts(Burned(s.mints[mint], from, amount));
      Ok(s.(mints := s.mints[mint := burned], log := s.log + [TokensBurned(mint, amount)]))
  }

  function PayOutFeesSpec(s: State, mint: MintKey, to: Address): Result<State, ItsError> {
    if mint !in s.mints then Err(AccountNotInitialized)
    else
      Ok(s.(mints := s.mints[mint := FeesPaidOut(s.mints[mint], to)],
            log := s.log + [TokensMoved(mint, to, s.mints[mint].withheld)]))
  }

  function SetMintAuthoritySpec(s: State, mint: MintKey, signer: Address, authority: Option<Address>)
    : Result<State, ItsError>
  {
    if signer.TokenManagerPda? then Err(MissingRequiredSignature)
    else if mint !in s.mints then Err(AccountNotInitialized)
    else if s.mints[mint].authority != Some(signer) then Err(ConstraintMintAuthority)
    else Ok(s.(mints := s.mints[mint := s.mints[mint].(authority := authority)]))
  }

  function Attempt(s: State, tx: Transaction): Result<State, ItsError> {
    match tx.instruction
    case RegisterCanonical(id, mint) => RegisterCanonicalSpec(s, id, mint)
    case RegisterCustom(id, mint, ty, operator) => RegisterCustomSpec(s, id, mint, ty, operator)
    case Deploy(id, deployer, supply, minter) => DeploySpec(s, id, deployer, supply, minter)
    case Transfer(id, authority, destination, amount, fee) =>
      InterchainTransferSpec(s, id, authority, destination, amount, fee, tx.now)
    case Execute(commandId, authority, fee) => ExecuteSpec(s, commandId, authority, fee, tx.now)
    case MintTokens(id, minter, destination, amount) => MintInterchainTokenSpec(s, id, minter, destination, amount)
    case TransferOperatorship(resource, origin, destination) =>
      TransferOperatorshipSpec(s, resource, origin, destination)
    case TransferMintership(id, origin, destination) => TransferMintershipSpec(s, id, origin, destination)
    case HandoverMintAuthority(id, authority) => HandoverMintAuthoritySpec(s, id, authority)
    case AddFlowLimiter(id, authority, target) => AddFlowLimiterSpec(s, id, authority, target)
    case RemoveFlowLimiter(id, authority, target) => RemoveFlowLimiterSpec(s, id, authority, target)
    case SetFlowLimit(id, operator, limit) => SetFlowLimitSpec(s, id, operator, limit)
    case SetTokenManagerFlowLimit(id, limiter, limit) => SetTokenManagerFlowLimitSpec(s, id, limiter, limit)
    case Approve(commandId, fromHub, payload) => ApproveSpec(s, commandId, fromHub, payload)
    case CreateMint(key, hasTransferFee, authority) => CreateMintSpec(s, key, hasTransferFee, authority)
    case MoveTokens(mint, from, to, amount, fee) => MoveTokensSpec(s, mint, from, to, amount, fee)
    case IssueTokens(mint, signer, to, amount) => IssueTokensSpec(s, mint, signer, to, amount)
    case BurnTokens(mint, from, amount) => BurnTokensSpec(s, mint, from, amount)
    case PayOutFees(mint, to) => PayOutFeesSpec(s, mint, to)
    case SetMintAuthority(mint, signer, authority) => SetMintAuthoritySpec(s, mint, signer, authority)
  }

  function Step(s: State, tx: Transaction): State {
    match Attempt(s, tx)
    case Ok(after) => after
    case Err(_) => s
  }

  function Run(s: State, txs: seq<Transaction>): State {
    if |txs| == 0 then s else Step(Run(s, txs[..|txs| - 1]), txs[|txs| - 1])
  }

  // The state a run from the initialized service reaches.
  function After(operator: Address, txs: seq<Transaction>): State {
    Run(Genesis(operator), txs)
  }

  // ---------- What a log adds up to ----------

  datatype Measure =
    // Amounts of sent, received and hub-approved transfers of a token
    | Sent(id: TokenId)
    | Received(id: TokenId)
    | Approved(id: TokenId)
    // Tokens that reached a manager's token account otherwise
    | Credited(mint: MintKey, id: TokenId)
    // Tokens minted, less those burned, otherwise
    | Issued(mint: MintKey)

  function Share(e: Event, q: Measure): int {
    match q
    case Sent(id) => if e.TransferSent? && e.tokenId == id then e.amount else 0
    case Received(id) => if e.TransferReceived? && e.tokenId == id then e.gross else 0
    case Approved(id) =>
      if e.MessageApproved? && e.fromHub && e.payload.InterchainTransfer?
        && e.payload.tokenId == id then e.payload.amount else 0
    case Credited(mint, id) =>
      (match e
       case TransferReceived(_, _, m, to, _, arriving) => if m == mint && to == TokenManagerPda(id) then arriving else 0
       case TokensMoved(m, to, arriving) => if m == mint && to == TokenManagerPda(id) then arriving else 0
       case TokensIssued(m, to, amount) => if m == mint && to == TokenManagerPda(id) then amount else 0
       case _ => 0)
    case Issued(mint) =>
      (match e
       case TokensIssued(m, _, amount) => if m == mint then amount else 0
       case TokensBurned(m, amount) => if m == mint then -(amount as int) else 0
       case _ => 0)
  }

  function Total(log: seq<Event>, q: Measure): int {
    if |log| == 0 then 0 else Total(log[..|log| - 1], q) + Share(log[|log| - 1], q)
  }

  lemma TotalsGrow(log: seq<Event>, e: Event)
    ensures forall q :: Total(log + [e], q) == Total(log, q) + Share(e, q)
  {
    assert (log + [e])[..|log|] == log;
  }
}
