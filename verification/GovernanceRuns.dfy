// Whole runs of governance: when a transaction goes through, what it does, and which transaction an event comes from.
module GovernanceRuns {
  import opened Prelude
  import opened Bytes
  import opened ProposalHash
  import opened Governance

  datatype Instruction =
    | ProcessGmp(command: GmpCommand)
    | ExecuteProposal(proposal: ExecuteProposalData, call: Call)
    | ExecuteOperatorProposal(proposal: ExecuteProposalData, signer: Key32, call: Call)
    | UpdateConfig(operator: Key32, update: ConfigUpdate)
    | TransferOperatorship(operatorSigner: Option<Key32>, governanceSigns: bool, newOperator: Key32)
    // Deposits, refunds of closed accounts, and withdrawals by executed proposals
    | MoveFunds(received: nat, spent: nat)

  datatype Transaction = Transaction(instruction: Instruction, now: i64)

  function Execute(s: State, tx: Transaction): Result<State, GovernanceError> {
    match tx.instruction
    case ProcessGmp(command) => ProcessGmpSpec(s, command, tx.now)
    case ExecuteProposal(d, call) => ExecuteTimelockSpec(s, d, call, tx.now)
    case ExecuteOperatorProposal(d, signer, call) => ExecuteOperatorSpec(s, d, signer, call)
    case UpdateConfig(operator, update) => UpdateConfigSpec(s, operator, update)
    case TransferOperatorship(signer, governanceSigns, newOperator) =>
      TransferOperatorshipSpec(s, signer, governanceSigns, newOperator)
    case MoveFunds(received, spent) =>
      if spent > s.funds + received then Err(InsufficientFunds)
      else Ok(s.(funds := s.funds + received - spent, log := s.log + [FundsChanged(received, spent)]))
  }

  function Step(s: State, tx: Transaction): State {
    match Execute(s, tx)
    case Ok(after) => after
    case Err(_) => s
  }

  function Run(s: State, txs: seq<Transaction>): State {
    if |txs| == 0 then s else Step(Run(s, txs[..|txs| - 1]), txs[|txs| - 1])
  }

  function After(key: Key32, config: GovernanceConfig, txs: seq<Transaction>): State
    requires config.Valid()
  {
    Run(InitializeConfig(key, config).value, txs)
  }

  // ---------- When a transaction goes through ----------

  // The command comes from the chain and the contract configured at that moment.
  predicate FromGovernance(s: State, c: GmpCommand) {
    c.sourceChain == s.config.chain && c.sourceAddress == s.config.address
  }

  predicate Live(s: State, d: ExecuteProposalData) {
    Preimage(d).Some? && Preimage(d).value in s.proposals
  }

  predicate Marked(s: State, d: ExecuteProposalData) {
    Preimage(d).Some? && Preimage(d).value in s.markers
  }

  // The eta under which a live proposal waits.
  function EtaOf(s: State, d: ExecuteProposalData): u64
    requires Live(s, d)
  {
    s.proposals[Preimage(d).value]
  }

  // The call has its accounts and succeeds, and the native value is covered and has a receiver among them.
  predicate GoesThrough(s: State, d: ExecuteProposalData, call: Call) {
    var value, receiver := FromLittleEndian(d.nativeValue), d.callData.solanaNativeValueReceiverAccount;
    && call.succeeds && s.key in call.accounts && d.targetAddress in call.accounts
    && (exists a :: a in d.callData.solanaAccounts && a.pubkey == s.key)
    && (value > 0 ==>
          value <= Min(U64_MAX, s.funds) && receiver.Some? && receiver.value.pubkey in call.accounts)
  }

  predicate AcceptsCommand(s: State, c: GmpCommand, now: i64) {
    && FromGovernance(s, c) && Preimage(c.proposal).Some? && c.eta <= U64_MAX
    && match c.command
       case ScheduleTimelockProposal =>
         !Live(s, c.proposal) && AsU64(now) + s.config.minimumProposalEtaDelay <= U64_MAX
       case CancelTimelockProposal => Live(s, c.proposal) && EtaOf(s, c.proposal) == c.eta
       case ApproveOperatorProposal => Live(s, c.proposal) && !Marked(s, c.proposal)
       case CancelOperatorProposal => Live(s, c.proposal) && Marked(s, c.proposal)
  }

  predicate Accepts(s: State, tx: Transaction) {
    match tx.instruction
    case ProcessGmp(c) => AcceptsCommand(s, c, tx.now)
    case ExecuteProposal(d, call) => Live(s, d) && EtaOf(s, d) <= tx.now && GoesThrough(s, d, call)
    case ExecuteOperatorProposal(d, signer, call) =>
      Live(s, d) && Marked(s, d) && signer == s.config.operator && GoesThrough(s, d, call)
    case UpdateConfig(operator, update) =>
      operator == s.config.operator
      && 3600 <= update.minimumProposalEtaDelay.GetOr(s.config.minimumProposalEtaDelay) <= 86400
    case TransferOperatorship(signer, governanceSigns, _) =>
      if signer.Some? then signer.value == s.config.operator else governanceSigns
    case MoveFunds(received, spent) => spent <= s.funds + received
  }

  lemma CallsGoThroughExactlyWhen(s: State, d: ExecuteProposalData, call: Call)
    ensures MakeCall(s, d, call).Ok? <==> GoesThrough(s, d, call)
  {
    ConversionIsExact(d.nativeValue);
  }

  /** A transaction goes through exactly when it is due: commands of the configured contract on proposals in the right
      state, executions of live proposals from their eta on, or of marked ones by the operator at any time, and
      configuration changes its operator signs. */
  lemma TransactionsGoThroughExactlyWhen(s: State, tx: Transaction)
    ensures Execute(s, tx).Ok? <==> Accepts(s, tx)
  {
    match tx.instruction
    case ExecuteProposal(d, call) => CallsGoThroughExactlyWhen(s, d, call);
    case ExecuteOperatorProposal(d, signer, call) => CallsGoThroughExactlyWhen(s, d, call);
    case _ =>
  }

  /** Who does not speak for governance is turned away before anything else is looked at, and changes nothing. */
  lemma ForeignCommandsChangeNothing(s: State, c: GmpCommand, now: i64)
    ensures !FromGovernance(s, c) <==>
      Execute(s, Transaction(ProcessGmp(c), now)) in {Err(UnauthorizedAddress), Err(UnauthorizedChain)}
    ensures !FromGovernance(s, c) ==> Step(s, Transaction(ProcessGmp(c), now)) == s
  {}

  /** An execution before the eta is turned away as such, whatever the call would do. */
  lemma EarlyExecutionsAreNotReady(s: State, d: ExecuteProposalData, call: Call, now: i64)
    ensures Execute(s, Transaction(ExecuteProposal(d, call), now)) == Err(ProposalNotReady)
      <==> Live(s, d) && 0 <= now < EtaOf(s, d)
  {}

  // ---------- What a transaction does ----------

  // What an event says of the step that logged it.
  ghost predicate Effect(s: State, after: State, e: Event) {
    match e
    case Scheduled(d, at, delay, eta) =>
      && Preimage(d).Some? && Preimage(d).value !in s.proposals
      && delay == s.config.minimumProposalEtaDelay && at + delay <= eta
      && after.proposals == s.proposals[Preimage(d).value := eta] && after.markers == s.markers
        && after.funds == s.funds
    case Cancelled(d) =>
      && Preimage(d).Some? && Preimage(d).value in s.proposals
      && after.proposals == s.proposals - {Preimage(d).value} && after.markers == s.markers && after.funds == s.funds
    case OperatorApproved(d) =>
      && Preimage(d).Some? && Preimage(d).value in s.proposals && Preimage(d).value !in s.markers
      && after.proposals == s.proposals && after.markers == s.markers + {Preimage(d).value} && after.funds == s.funds
    case OperatorCancelled(d) =>
      && Preimage(d).Some? && Preimage(d).value in s.proposals && Preimage(d).value in s.markers
      && after.proposals == s.proposals && after.markers == s.markers - {Preimage(d).value} && after.funds == s.funds
    case TimelockExecuted(d, at) =>
      && Preimage(d).Some? && Preimage(d).value in s.proposals && s.proposals[Preimage(d).value] <= at
      && after.proposals == s.proposals - {Preimage(d).value} && after.markers == s.markers
        && after.funds == s.funds - NativePayment(s.key, d)
    case OperatorExecuted(d, signer) =>
      && Preimage(d).Some? && Preimage(d).value in s.proposals && Preimage(d).value in s.markers
      && signer == s.config.operator
      && after.proposals == s.proposals - {Preimage(d).value} && after.markers == s.markers - {Preimage(d).value}
      && after.funds == s.funds - NativePayment(s.key, d)
    case FundsChanged(received, spent) =>
      after.proposals == s.proposals && after.markers == s.markers && after.funds == s.funds + received - spent
  }

  // The step logged one event and did what it says, or touched nothing but the configuration.
  ghost predicate Explained(s: State, after: State) {
    && (after.config.Valid() || !s.config.Valid()) && after.key == s.key
    && if |after.log| == |s.log| + 1 then s.log <= after.log && Effect(s, after, after.log[|s.log|])
       else after.log == s.log && after.proposals == s.proposals && after.markers == s.markers && after.funds == s.funds
  }

  lemma CommandsAreExplained(s: State, c: GmpCommand, now: i64)
    requires ProcessGmpSpec(s, c, now).Ok?
    ensures Explained(s, ProcessGmpSpec(s, c, now).value)
  {}

  lemma ExecutionsAreExplained(s: State, tx: Transaction)
    requires Execute(s, tx).Ok? && (tx.instruction.ExecuteProposal? || tx.instruction.ExecuteOperatorProposal?)
    ensures Explained(s, Execute(s, tx).value)
  {
    CallsPayTheNativeValue(s, tx.instruction.proposal, tx.instruction.call);
  }

  /** Every step of governance is explained by the event it logs. */
  lemma StepsAreExplained(s: State, tx: Transaction)
    ensures Explained(s, Step(s, tx))
  {
    if Execute(s, tx).Ok? {
      match tx.instruction
      case ProcessGmp(command) => CommandsAreExplained(s, command, tx.now);
      case ExecuteProposal(_, _) => ExecutionsAreExplained(s, tx);
      case ExecuteOperatorProposal(_, _, _) => ExecutionsAreExplained(s, tx);
      case _ =>
    }
  }

  // ---------- What becomes of the configuration ----------

  // The configuration after a transaction that went through: field by field, who asked for it.
  predicate ConfigFollows(c: GovernanceConfig, after: GovernanceConfig, i: Instruction) {
    match i
    case UpdateConfig(_, update) =>
      && after.operator == c.operator
      && (if update.chain.Some? then after.chain == update.chain.value else after.chain == c.chain)
      && (if update.address.Some? then after.address == update.address.value else after.address == c.address)
      && (if update.minimumProposalEtaDelay.Some?
          then after.minimumProposalEtaDelay == update.minimumProposalEtaDelay.value
          else after.minimumProposalEtaDelay == c.minimumProposalEtaDelay)
    case TransferOperatorship(_, _, newOperator) => after == c.(operator := newOperator)
    case _ => after == c
  }

  /** Updates write the fields they name and never the operator, transfers write the operator and nothing else, and no
      other instruction touches the configuration. */
  lemma ConfigurationFollowsTheInstruction(s: State, tx: Transaction)
    requires Execute(s, tx).Ok?
    ensures ConfigFollows(s.config, Step(s, tx).config, tx.instruction)
  {}

  // The transaction names this operator, with the signature of the one it finds or of governance itself.
  ghost predicate Appoints(s: State, tx: Transaction, operator: Key32) {
    && tx.instruction.TransferOperatorship? && tx.instruction.newOperator == operator
    && (tx.instruction.operatorSigner == Some(s.config.operator) ||
        (tx.instruction.operatorSigner.None? && tx.instruction.governanceSigns))
  }

  /** In every run the operator is the first one or was appointed by the operator before him or by governance. */
  lemma {:induction false} OperatorsAreAppointed(key: Key32, config: GovernanceConfig, txs: seq<Transaction>)
    returns (k: nat)
    requires config.Valid() && After(key, config, txs).config.operator != config.operator
    ensures k < |txs| && Appoints(After(key, config, txs[..k]), txs[k], After(key, config, txs).config.operator)
  {
    var n := |txs| - 1;
    var before := After(key, config, txs[..n]);
    TransactionsGoThroughExactlyWhen(before, txs[n]);
    if Execute(before, txs[n]).Ok? && txs[n].instruction.TransferOperatorship? {
      k := n;
    } else {
      if Execute(before, txs[n]).Ok? {
        ConfigurationFollowsTheInstruction(before, txs[n]);
      }
      k := OperatorsAreAppointed(key, config, txs[..n]);
      assert txs[..n][..k] == txs[..k];
    }
  }

  // ---------- Which transaction an event comes from ----------

  // What a transaction logs when it goes through: the proposal it names and the time the clock shows.
  predicate Logs(s: State, tx: Transaction, e: Event) {
    match tx.instruction
    case ProcessGmp(c) =>
      FromGovernance(s, c) &&
      (match c.command
       case ScheduleTimelockProposal =>
         && e.Scheduled? && e.proposal == c.proposal && e.at == AsU64(tx.now)
         && e.delay == s.config.minimumProposalEtaDelay && c.eta <= e.eta
         && (e.eta == c.eta || e.eta == e.at + e.delay)
       case CancelTimelockProposal => e == Cancelled(c.proposal)
       case ApproveOperatorProposal => e == OperatorApproved(c.proposal)
       case CancelOperatorProposal => e == OperatorCancelled(c.proposal))
    case ExecuteProposal(d, _) => e == TimelockExecuted(d, AsU64(tx.now)) && tx.now >= 0
    case ExecuteOperatorProposal(d, signer, _) => e == OperatorExecuted(d, signer) && signer == s.config.operator
    case UpdateConfig(_, _) => false
    case TransferOperatorship(_, _, _) => false
    case MoveFunds(received, spent) => e == FundsChanged(received, spent)
  }

  lemma StepsLogWhatTheyDo(s: State, tx: Transaction)
    ensures var after := Step(s, tx);
      if after.log == s.log then true
      else Execute(s, tx).Ok? && |after.log| == |s.log| + 1 && s.log <= after.log && Logs(s, tx, after.log[|s.log|])
  {
    if tx.instruction.ProcessGmp? && Execute(s, tx).Ok? {
      EtaIsTheLaterOne(tx.instruction.command.eta, s.config.minimumProposalEtaDelay, tx.now);
    }
  }

  // The k-th transaction of the run logged the j-th event.
  ghost predicate LoggedAt(start: State, txs: seq<Transaction>, j: nat, k: nat) {
    && k < |txs| && j < |Run(start, txs).log|
    && Run(start, txs[..k]).log == Run(start, txs).log[..j]
    && Execute(Run(start, txs[..k]), txs[k]).Ok?
    && Logs(Run(start, txs[..k]), txs[k], Run(start, txs).log[j])
  }

  lemma {:induction false} LogsOnlyGrow(start: State, txs: seq<Transaction>, k: nat)
    requires k <= |txs|
    ensures Run(start, txs[..k]).log <= Run(start, txs).log
  {
    if k == |txs| {
      assert txs[..k] == txs;
    } else {
      var n := |txs| - 1;
      LogsOnlyGrow(start, txs[..n], k);
      assert txs[..n][..k] == txs[..k];
      StepsLogWhatTheyDo(Run(start, txs[..n]), txs[n]);
    }
  }

  /** Every event of a run was logged by one of its transactions, which went through and is of that kind. */
  lemma {:induction false} EventsComeFromTransactions(start: State, txs: seq<Transaction>, j: nat) returns (k: nat)
    requires |start.log| <= j < |Run(start, txs).log|
    ensures LoggedAt(start, txs, j, k)
  {
    var n := |txs| - 1;
    var before := Run(start, txs[..n]);
    StepsLogWhatTheyDo(before, txs[n]);
    if j < |before.log| {
      k := EventsComeFromTransactions(start, txs[..n], j);
      assert txs[..n][..k] == txs[..k];
    } else {
      k := n;
    }
  }

  lemma LaterLogsAreLonger(start: State, txs: seq<Transaction>, m: nat, k: nat)
    requires m <= |txs| && k <= |txs|
    ensures m <= k ==> |Run(start, txs[..m]).log| <= |Run(start, txs[..k]).log|
  {
    if m <= k {
      LogsOnlyGrow(start, txs[..k], m);
      assert txs[..k][..m] == txs[..m];
    }
  }

  // Earlier events come from earlier transactions.
  lemma EventsKeepTheOrder(start: State, txs: seq<Transaction>, i: nat, j: nat, k: nat, m: nat)
    requires i < j && LoggedAt(start, txs, i, k) && LoggedAt(start, txs, j, m)
    ensures k < m
  {
    LaterLogsAreLonger(start, txs, m, k);
  }

  /** In every run each schedule, cancellation, approval and withdrawal of an approval was commanded: by a message of
      the chain and contract configured just before it, of that kind and about that proposal. */
  lemma CommandsComeFromGovernance(key: Key32, config: GovernanceConfig, txs: seq<Transaction>, j: nat)
    returns (k: nat)
    requires config.Valid() && j < |After(key, config, txs).log|
    requires var e := After(key, config, txs).log[j];
      e.Scheduled? || e.Cancelled? || e.OperatorApproved? || e.OperatorCancelled?
    ensures k < |txs| && txs[k].instruction.ProcessGmp?
    ensures var c, e := txs[k].instruction.command, After(key, config, txs).log[j];
      && FromGovernance(After(key, config, txs[..k]), c) && c.proposal == e.proposal
      && c.command == match e
         case Scheduled(_, _, _, _) => Command.ScheduleTimelockProposal
         case Cancelled(_) => Command.CancelTimelockProposal
         case OperatorApproved(_) => Command.ApproveOperatorProposal
         case _ => Command.CancelOperatorProposal
  {
    k := EventsComeFromTransactions(InitializeConfig(key, config).value, txs, j);
  }
}
