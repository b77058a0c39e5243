// What whole runs of the token service guarantee: vaults that cover what was sent, supplies that change only by
// bridging, messages that are paid once and to the right account, and flow counters that mirror the tokens.
module TokenServiceSafety {
  import opened Prelude
  import opened FlowLimits
  import opened UserRoles
  import opened TokenLedger
  import opened TokenService
  import opened TokenServiceRuns
  import opened TokenServiceLedger
  import opened TokenServiceBalances

  // ---------- Conservation ----------

  function Vault(s: State, id: TokenId): nat
    requires id in s.managers && s.managers[id].mint in s.mints
  {
    s.mints[s.managers[id].mint].holdings[TokenManagerPda(id)]
  }

  /** In every run the vault of a locking manager holds what was sent, less the gross amounts received, plus what
      arrived there otherwise; fees come off on both legs and a plain locking manager never has a fee mint. */
  lemma VaultsAddUp(operator: Address, txs: seq<Transaction>, id: TokenId)
    requires id in After(operator, txs).managers && After(operator, txs).managers[id].ty.Locks()
    ensures var s := After(operator, txs);
      var manager := s.managers[id];
      && manager.mint in s.mints && manager.ty.SupportsMint(s.mints[manager.mint])
      && Vault(s, id) == Total(s.log, Sent(id)) - Total(s.log, Received(id)) + Total(s.log, Credited(manager.mint, id))
  {
    var s := After(operator, txs);
    RunKeepsInv(operator, txs);
    assert ManagerMatches(s, id) && VaultMatches(s, s.managers[id].mint, id);
  }

  /** In every run the supply of a minting manager's token is what was issued, plus what was received, less what was
      sent, and every unit of it is held by someone or withheld as a fee. A minting manager that does not hold the
      mint authority never sent or received anything. */
  lemma SuppliesAddUp(operator: Address, txs: seq<Transaction>, id: TokenId)
    requires id in After(operator, txs).managers && !After(operator, txs).managers[id].ty.Locks()
    ensures var s := After(operator, txs);
      var manager := s.managers[id];
      && manager.mint in s.mints && s.mints[manager.mint].Backed()
      && (HoldsAuthority(s, id) ==>
            s.mints[manager.mint].supply
            == Total(s.log, Issued(manager.mint)) + Total(s.log, Received(id)) - Total(s.log, Sent(id)))
      && (!HoldsAuthority(s, id) ==> Idle(s, id))
  {
    var s := After(operator, txs);
    RunKeepsInv(operator, txs);
    assert ManagerMatches(s, id) && MintMatches(s, s.managers[id].mint);
  }

  /** The vault gains exactly what is counted if and only if the mint takes no fee behind the manager's back. */
  lemma LockedAmountIsExact(m: Mint, ty: ManagerType, id: TokenId, sender: Address, amount: u64, fee: u64)
    requires ty.Locks() && sender != TokenManagerPda(id)
    requires TakeToken(m, ty, id, sender, amount, fee).Ok?
    ensures var (after, transferred) := TakeToken(m, ty, id, sender, amount, fee).value;
      after.holdings[TokenManagerPda(id)] - m.holdings[TokenManagerPda(id)] == transferred
      <==> ty.SupportsMint(m) || fee == 0
  {
    var after := TakeToken(m, ty, id, sender, amount, fee).value.0;
    assert after.holdings[TokenManagerPda(id)]
        == m.holdings[TokenManagerPda(id)] + Arriving(m, sender, TokenManagerPda(id), amount, fee);
  }

  // ---------- Messages ----------

  ghost predicate ApprovalAt(log: seq<Event>, i: int, commandId: CommandId) {
    0 <= i < |log| && log[i].MessageApproved? && log[i].commandId == commandId
  }

  ghost predicate ReceiptAt(log: seq<Event>, i: int, commandId: CommandId) {
    0 <= i < |log| && log[i].TransferReceived? && log[i].commandId == commandId
  }

  // A receipt pays the amount of the hub's transfer to the account its destination calls for.
  predicate Pays(e: Event, message: IncomingMessage) {
    && e.TransferReceived? && message.fromHub && message.payload.InterchainTransfer?
    && e.tokenId == message.payload.tokenId && e.gross == message.payload.amount > 0
    && e.to == PayeeOf(message.payload.destination)
  }

  // The account of one message says what the log does.
  ghost predicate InboxMatches(s: State, commandId: CommandId) {
    if commandId !in s.inbox then forall i :: !ApprovalAt(s.log, i, commandId) && !ReceiptAt(s.log, i, commandId)
    else
      && (exists i :: ApprovalAt(s.log, i, commandId))
      && (forall i :: ApprovalAt(s.log, i, commandId) ==>
            s.log[i].fromHub == s.inbox[commandId].fromHub && s.log[i].payload == s.inbox[commandId].payload)
      && (forall i, j :: ApprovalAt(s.log, i, commandId) && ApprovalAt(s.log, j, commandId) ==> i == j)
      && (forall i :: ReceiptAt(s.log, i, commandId) ==>
        s.inbox[commandId].executed && Pays(s.log[i], s.inbox[commandId]))
      && (forall i, j :: ReceiptAt(s.log, i, commandId) && ReceiptAt(s.log, j, commandId) ==> i == j)
      && (s.inbox[commandId].executed && s.inbox[commandId].payload.InterchainTransfer? ==>
            exists i :: ReceiptAt(s.log, i, commandId))
  }

  ghost predicate InboxInv(s: State) {
    forall commandId :: InboxMatches(s, commandId)
  }

  // The step consumes and approves nothing, and logs at most one event.
  ghost predicate LeavesInbox(s: State, after: State) {
    && after.inbox == s.inbox && s.log <= after.log && |after.log| <= |s.log| + 1
    && (|after.log| > |s.log| ==> !after.log[|s.log|].MessageApproved? && !after.log[|s.log|].TransferReceived?)
  }

  lemma QuietStepKeepsInbox(s: State, after: State)
    requires InboxInv(s) && LeavesInbox(s, after)
    ensures InboxInv(after)
  {
    forall commandId
      ensures InboxMatches(after, commandId)
    {
      assert InboxMatches(s, commandId);
      forall i
        ensures ApprovalAt(after.log, i, commandId) <==> ApprovalAt(s.log, i, commandId)
        ensures ReceiptAt(after.log, i, commandId) <==> ReceiptAt(s.log, i, commandId)
      {}
    }
  }

  lemma ApprovalKeepsInbox(s: State, commandId: CommandId, fromHub: bool, payload: HubMessage)
    requires InboxInv(s) && commandId !in s.inbox
    ensures InboxInv(ApproveSpec(s, commandId, fromHub, payload).value)
  {
    var after := ApproveSpec(s, commandId, fromHub, payload).value;
    forall other
      ensures InboxMatches(after, other)
    {
      assert InboxMatches(s, other);
      forall i
        ensures ApprovalAt(after.log, i, other) <==> ApprovalAt(s.log, i, other) || (i == |s.log| && other == commandId)
        ensures ReceiptAt(after.log, i, other) <==> ReceiptAt(s.log, i, other)
      {}
      assert ApprovalAt(after.log, |s.log|, commandId);
      KeptEvents(s.log, after.log, other);
    }
  }

  lemma KeptEvents(before: seq<Event>, after: seq<Event>, commandId: CommandId)
    requires before <= after
    ensures forall i :: ApprovalAt(before, i, commandId) ==> ApprovalAt(after, i, commandId)
    ensures forall i :: ReceiptAt(before, i, commandId) ==> ReceiptAt(after, i, commandId)
  {}

  // Consuming a message, with a receipt if it is a transfer.
  lemma ConsumingKeepsInbox(s: State, after: State, commandId: CommandId, receipts: seq<Event>)
    requires InboxInv(s) && commandId in s.inbox && !s.inbox[commandId].executed
    requires after.inbox == s.inbox[commandId := s.inbox[commandId].(executed := true)] && after.log == s.log + receipts
    requires if s.inbox[commandId].payload.InterchainTransfer?
             then |receipts| == 1 && Pays(receipts[0], s.inbox[commandId]) && receipts[0].commandId == commandId
             else |receipts| == 0 || (|receipts| == 1 && receipts[0].TokensIssued?)
    ensures InboxInv(after)
  {
    forall other
      ensures InboxMatches(after, other)
    {
      assert InboxMatches(s, other);
      forall i
        ensures ApprovalAt(after.log, i, other) <==> ApprovalAt(s.log, i, other)
        ensures ReceiptAt(after.log, i, other) <==>
          || ReceiptAt(s.log, i, other)
          || (i == |s.log| && other == commandId && s.inbox[commandId].payload.InterchainTransfer?)
      {}
      KeptEvents(s.log, after.log, other);
      if s.inbox[commandId].payload.InterchainTransfer? {
        assert ReceiptAt(after.log, |s.log|, commandId);
      }
    }
  }

  lemma ExecutionKeepsInbox(s: State, commandId: CommandId, authority: Address, fee: u64, now: i64)
    requires InboxInv(s) && ExecuteSpec(s, commandId, authority, fee, now).Ok?
    ensures InboxInv(ExecuteSpec(s, commandId, authority, fee, now).value)
  {
    var after := ExecuteSpec(s, commandId, authority, fee, now).value;
    if s.inbox[commandId].payload.InterchainTransfer? {
      ConsumingKeepsInbox(s, after, commandId, [after.log[|s.log|]]);
    } else {
      assert after.log == s.log + [];
      ConsumingKeepsInbox(s, after, commandId, []);
    }
  }

  lemma ServiceStepLeavesInbox(s: State, tx: Transaction)
    requires Attempt(s, tx).Ok? && ServiceInstruction(tx.instruction) && !tx.instruction.Execute?
    ensures LeavesInbox(s, Attempt(s, tx).value)
  {}

  lemma RolesStepLeavesInbox(s: State, tx: Transaction)
    requires Attempt(s, tx).Ok? && RolesInstruction(tx.instruction)
    ensures LeavesInbox(s, Attempt(s, tx).value)
  {}

  lemma TokenStepLeavesInbox(s: State, tx: Transaction)
    requires Attempt(s, tx).Ok?
    requires !ServiceInstruction(tx.instruction) && !RolesInstruction(tx.instruction) && !tx.instruction.Approve?
    ensures LeavesInbox(s, Attempt(s, tx).value)
  {}

  lemma OtherStepLeavesInbox(s: State, tx: Transaction)
    requires Attempt(s, tx).Ok? && !tx.instruction.Execute? && !tx.instruction.Approve?
    ensures LeavesInbox(s, Attempt(s, tx).value)
  {
    if ServiceInstruction(tx.instruction) {
      ServiceStepLeavesInbox(s, tx);
    } else if RolesInstruction(tx.instruction) {
      RolesStepLeavesInbox(s, tx);
    } else {
      TokenStepLeavesInbox(s, tx);
    }
  }

  lemma StepKeepsInbox(s: State, tx: Transaction)
    requires InboxInv(s)
    ensures InboxInv(Step(s, tx))
  {
    if Attempt(s, tx).Ok? {
      match tx.instruction
      case Execute(commandId, authority, fee) => ExecutionKeepsInbox(s, commandId, authority, fee, tx.now);
      case Approve(commandId, fromHub, payload) => ApprovalKeepsInbox(s, commandId, fromHub, payload);
      case _ =>
        OtherStepLeavesInbox(s, tx);
        QuietStepKeepsInbox(s, Attempt(s, tx).value);
    }
  }

  lemma {:induction false} RunKeepsInbox(operator: Address, txs: seq<Transaction>)
    ensures InboxInv(After(operator, txs))
  {
    if |txs| == 0 {
    } else {
      RunKeepsInbox(operator, txs[..|txs| - 1]);
      StepKeepsInbox(After(operator, txs[..|txs| - 1]), txs[|txs| - 1]);
    }
  }

  // ---------- The step behind a transfer ----------

  // A logged transfer is what the instruction behind it did to the tokens.
  ghost predicate TransferLogged(s: State, tx: Transaction, after: State, e: Event) {
    match e
    case TransferSent(id, _) =>
      && tx.instruction.Transfer? && tx.instruction.id == id
      && id in s.managers && s.managers[id].mint in s.mints
      && SentAway(s, after, id, tx.instruction.authority, tx.instruction.amount, tx.instruction.fee, tx.now)
    case TransferReceived(commandId, id, _, _, _, _) =>
      && tx.instruction.Execute? && tx.instruction.commandId == commandId
      && Pending(s, commandId) && s.inbox[commandId].payload.InterchainTransfer?
      && s.inbox[commandId].payload.tokenId == id && id in s.managers && s.managers[id].mint in s.mints
      && PaidOut(s, after, commandId, s.inbox[commandId].payload, tx.instruction.fee, tx.now)
    case _ => true
  }

  // One event or none, and no transfer but that of the instruction.
  ghost predicate LogsOnce(s: State, tx: Transaction) {
    var after := Step(s, tx);
    && s.log <= after.log && |after.log| <= |s.log| + 1
    && (|after.log| > |s.log| ==> Attempt(s, tx).Ok? && TransferLogged(s, tx, after, after.log[|s.log|]))
  }

  lemma TransferInstructionsLogOnce(s: State, tx: Transaction)
    requires Attempt(s, tx).Ok? && (tx.instruction.Transfer? || tx.instruction.Execute?)
    ensures LogsOnce(s, tx)
  {
    match tx.instruction
    case Transfer(id, sender, destination, amount, fee) =>
      TransfersDebitTheSender(s, id, sender, destination, amount, fee, tx.now);
    case Execute(commandId, receiver, fee) =>
      if s.inbox[commandId].payload.InterchainTransfer? {
        ExecutionsCreditThePayee(s, commandId, receiver, fee, tx.now);
      }
  }

  lemma ServiceInstructionsLogOnce(s: State, tx: Transaction)
    requires Attempt(s, tx).Ok? && ServiceInstruction(tx.instruction)
    requires !tx.instruction.Transfer? && !tx.instruction.Execute?
    ensures LogsOnce(s, tx)
  {}

  lemma RolesInstructionsLogNothing(s: State, tx: Transaction)
    requires Attempt(s, tx).Ok? && RolesInstruction(tx.instruction)
    ensures LogsOnce(s, tx)
  {
    assert Attempt(s, tx).value.log == s.log;
  }

  lemma TokenInstructionsLogOnce(s: State, tx: Transaction)
    requires Attempt(s, tx).Ok? && !ServiceInstruction(tx.instruction) && !RolesInstruction(tx.instruction)
    ensures LogsOnce(s, tx)
  {}

  lemma StepsLogOnce(s: State, tx: Transaction)
    ensures LogsOnce(s, tx)
  {
    if Attempt(s, tx).Ok? {
      if tx.instruction.Transfer? || tx.instruction.Execute? {
        TransferInstructionsLogOnce(s, tx);
      } else if ServiceInstruction(tx.instruction) {
        ServiceInstructionsLogOnce(s, tx);
      } else if RolesInstruction(tx.instruction) {
        RolesInstructionsLogNothing(s, tx);
      } else {
        TokenInstructionsLogOnce(s, tx);
      }
    }
  }

  // The k-th transaction logged the j-th event.
  ghost predicate LoggedBy(s: State, txs: seq<Transaction>, j: nat, k: nat) {
    && k < |txs| && j < |Run(s, txs).log| && Run(s, txs[..k]).log == Run(s, txs).log[..j]
    && Attempt(Run(s, txs[..k]), txs[k]).Ok?
    && TransferLogged(Run(s, txs[..k]), txs[k], Run(s, txs[..k + 1]), Run(s, txs).log[j])
  }

  lemma {:induction false} EventsComeFromTransactions(s: State, txs: seq<Transaction>, j: nat) returns (k: nat)
    requires |s.log| <= j < |Run(s, txs).log|
    ensures LoggedBy(s, txs, j, k)
  {
    var n := |txs| - 1;
    StepsLogOnce(Run(s, txs[..n]), txs[n]);
    if j < |Run(s, txs[..n]).log| {
      k := EventsComeFromTransactions(s, txs[..n], j);
      assert txs[..n][..k] == txs[..k] && txs[..n][..k + 1] == txs[..k + 1];
    } else {
      k := n;
      assert txs[..n + 1] == txs;
    }
  }

  /** In every run each received transfer answers one earlier approved message of the hub, pays the amount that message
      says to the account its destination calls for, and is the only one for its command id. The step that logged it
      credited that account and no other, by what the fee left, and debited nothing but the manager's vault. */
  lemma TransfersArePaidOnceAndAsAddressed(operator: Address, txs: seq<Transaction>, j: nat) returns (i: nat, k: nat)
    requires j < |After(operator, txs).log| && After(operator, txs).log[j].TransferReceived?
    ensures var log := After(operator, txs).log;
      && i < j && ApprovalAt(log, i, log[j].commandId) && log[i].fromHub
      && Pays(log[j], IncomingMessage(true, log[i].payload, true))
      && (forall m :: ReceiptAt(log, m, log[j].commandId) ==> m == j)
      && LoggedBy(Genesis(operator), txs, j, k) && txs[k].instruction.Execute?
      && log[j].tokenId in After(operator, txs[..k]).managers
      && After(operator, txs[..k]).managers[log[j].tokenId].mint in After(operator, txs[..k]).mints
      && PaidOut(After(operator, txs[..k]), After(operator, txs[..k + 1]), log[j].commandId, log[i].payload,
                 txs[k].instruction.fee, txs[k].now)
  {
    k := EventsComeFromTransactions(Genesis(operator), txs, j);
    RunKeepsInbox(operator, txs);
    RunKeepsInbox(operator, txs[..k]);
    var s, before := After(operator, txs), After(operator, txs[..k]);
    var commandId := s.log[j].commandId;
    assert InboxMatches(s, commandId) && ReceiptAt(s.log, j, commandId);
    assert InboxMatches(before, commandId);
    i :| ApprovalAt(before.log, i, commandId);
    assert ApprovalAt(s.log, i, commandId);
  }

  /** In every run each sent transfer was signed for: the step that logged it debited its signer and no other account,
      by
      the whole amount, and filled nothing but the manager's vault, by what the fee left. */
  lemma TransfersArePaidForByTheirSender(operator: Address, txs: seq<Transaction>, j: nat) returns (k: nat)
    requires j < |After(operator, txs).log| && After(operator, txs).log[j].TransferSent?
    ensures var id := After(operator, txs).log[j].tokenId;
      && LoggedBy(Genesis(operator), txs, j, k) && txs[k].instruction.Transfer?
      && id in After(operator, txs[..k]).managers
      && After(operator, txs[..k]).managers[id].mint in After(operator, txs[..k]).mints
      && SentAway(After(operator, txs[..k]), After(operator, txs[..k + 1]), id, txs[k].instruction.authority,
                  txs[k].instruction.amount, txs[k].instruction.fee, txs[k].now)
  {
    k := EventsComeFromTransactions(Genesis(operator), txs, j);
  }

  // ---------- Solvency ----------

  ghost function Consumed(s: State): set<CommandId> {
    set commandId | commandId in s.inbox && s.inbox[commandId].executed
  }

  // What the hub's approved but unpaid transfers of a token ask for.
  function Outstanding(log: seq<Event>, done: set<CommandId>, id: TokenId): int {
    if |log| == 0 then 0
    else
      var e := log[|log| - 1];
      Outstanding(log[..|log| - 1], done, id)
      + if e.MessageApproved? && e.commandId !in done then Share(e, Approved(id)) else 0
  }

  // Consuming one message takes its one approval out of what is outstanding.
  lemma {:induction false} ConsumingOne(log: seq<Event>, done: set<CommandId>, i: nat, id: TokenId)
    requires i < |log| && log[i].MessageApproved? && log[i].commandId !in done
    requires forall j :: ApprovalAt(log, j, log[i].commandId) ==> j == i
    ensures Outstanding(log, done + {log[i].commandId}, id) == Outstanding(log, done, id) - Share(log[i], Approved(id))
  {
    var n, commandId := |log| - 1, log[i].commandId;
    var before := log[..n];
    if i == n {
      forall j
        ensures !ApprovalAt(before, j, commandId)
      {
        assert ApprovalAt(before, j, commandId) ==> ApprovalAt(log, j, commandId);
      }
      Unaffected(before, done, commandId, id);
    } else {
      forall j | ApprovalAt(before, j, commandId)
        ensures j == i
      {
        assert ApprovalAt(log, j, commandId);
      }
      assert before[i] == log[i];
      ConsumingOne(before, done, i, id);
      assert !ApprovalAt(log, n, commandId);
    }
  }

  lemma {:induction false} Unaffected(log: seq<Event>, done: set<CommandId>, commandId: CommandId, id: TokenId)
    requires forall j :: !ApprovalAt(log, j, commandId)
    ensures Outstanding(log, done + {commandId}, id) == Outstanding(log, done, id)
  {
    if |log| == 0 {
    } else {
      var before := log[..|log| - 1];
      forall j
        ensures !ApprovalAt(before, j, commandId)
      {
        assert !ApprovalAt(log, j, commandId);
      }
      Unaffected(before, done, commandId, id);
      assert !ApprovalAt(log, |log| - 1, commandId);
    }
  }

  ghost predicate Owed(s: State, id: TokenId) {
    Total(s.log, Received(id)) + Outstanding(s.log, Consumed(s), id) == Total(s.log, Approved(id))
  }

  lemma OutstandingGrows(log: seq<Event>, e: Event, done: set<CommandId>, id: TokenId)
    ensures Outstanding(log + [e], done, id) ==
      Outstanding(log, done, id) + if e.MessageApproved? && e.commandId !in done then Share(e, Approved(id)) else 0
  {
    assert (log + [e])[..|log|] == log;
  }

  lemma QuietStepKeepsOwed(s: State, after: State, id: TokenId)
    requires Owed(s, id) && LeavesInbox(s, after)
    ensures Owed(after, id)
  {
    assert Consumed(after) == Consumed(s);
    if |after.log| > |s.log| {
      var e := after.log[|s.log|];
      assert after.log == s.log + [e];
      TotalsGrow(s.log, e);
      OutstandingGrows(s.log, e, Consumed(s), id);
    } else {
      assert after.log == s.log;
    }
  }

  lemma ApprovalKeepsOwed(s: State, commandId: CommandId, fromHub: bool, payload: HubMessage, id: TokenId)
    requires Owed(s, id) && commandId !in s.inbox
    ensures Owed(ApproveSpec(s, commandId, fromHub, payload).value, id)
  {
    var after := ApproveSpec(s, commandId, fromHub, payload).value;
    var e := MessageApproved(commandId, fromHub, payload);
    assert Consumed(after) == Consumed(s);
    TotalsGrow(s.log, e);
    OutstandingGrows(s.log, e, Consumed(s), id);
  }

  lemma ExecutionKeepsOwed(s: State, commandId: CommandId, authority: Address, fee: u64, now: i64, id: TokenId)
    requires InboxInv(s) && Owed(s, id) && ExecuteSpec(s, commandId, authority, fee, now).Ok?
    ensures Owed(ExecuteSpec(s, commandId, authority, fee, now).value, id)
  {
    var after := ExecuteSpec(s, commandId, authority, fee, now).value;
    assert Consumed(after) == Consumed(s) + {commandId};
    assert InboxMatches(s, commandId);
    var i :| ApprovalAt(s.log, i, commandId);
    ConsumingOne(s.log, Consumed(s), i, id);
    if s.inbox[commandId].payload.InterchainTransfer? {
      var e := after.log[|s.log|];
      assert after.log == s.log + [e];
      TotalsGrow(s.log, e);
      OutstandingGrows(s.log, e, Consumed(after), id);
    } else {
      assert after.log == s.log;
    }
  }

  lemma {:induction false} RunKeepsOwed(operator: Address, txs: seq<Transaction>, id: TokenId)
    ensures Owed(After(operator, txs), id)
  {
    if |txs| == 0 {
    } else {
      var s, tx := After(operator, txs[..|txs| - 1]), txs[|txs| - 1];
      RunKeepsOwed(operator, txs[..|txs| - 1], id);
      RunKeepsInbox(operator, txs[..|txs| - 1]);
      if Attempt(s, tx).Ok? {
        match tx.instruction
        case Execute(commandId, authority, fee) => ExecutionKeepsOwed(s, commandId, authority, fee, tx.now, id);
        case Approve(commandId, fromHub, payload) => ApprovalKeepsOwed(s, commandId, fromHub, payload, id);
        case _ =>
          OtherStepLeavesInbox(s, tx);
          QuietStepKeepsOwed(s, Attempt(s, tx).value, id);
      }
    }
  }

  lemma {:induction false} PendingIsOutstanding(log: seq<Event>, done: set<CommandId>, i: nat, id: TokenId)
    requires i < |log| && log[i].MessageApproved? && log[i].commandId !in done
    ensures Outstanding(log, done, id) >= Share(log[i], Approved(id))
  {
    OutstandingIsNatural(log[..|log| - 1], done, id);
    if i == |log| - 1 {
    } else {
      PendingIsOutstanding(log[..|log| - 1], done, i, id);
    }
  }

  lemma {:induction false} OutstandingIsNatural(log: seq<Event>, done: set<CommandId>, id: TokenId)
    ensures Outstanding(log, done, id) >= 0
  {
    if |log| == 0 {
    } else {
      OutstandingIsNatural(log[..|log| - 1], done, id);
    }
  }

  /** While the hub has approved no more of a token than was sent, or arrived in the vault otherwise, the vault covers
      everything still to be paid, so no release of a pending transfer lacks funds: it can be executed for the account
      its destination calls for, exactly when it is of some amount,
          its fee is part of it and the flow limit has room. */
  lemma HonestHubIsAlwaysPaid(operator: Address, txs: seq<Transaction>, commandId: CommandId, receiver: Address,
      fee: u64, now: i64)
    requires commandId in After(operator, txs).inbox
    requires var s := After(operator, txs);
      var message := s.inbox[commandId];
      && message.fromHub && !message.executed && message.payload.InterchainTransfer?
      && var id := message.payload.tokenId;
      && id in s.managers && s.managers[id].ty.Locks()
      && Total(s.log, Approved(id)) <= Total(s.log, Sent(id)) + Total(s.log, Credited(s.managers[id].mint, id))
    ensures var s := After(operator, txs);
      var t := s.inbox[commandId].payload;
      var manager := s.managers[t.tokenId];
      && manager.mint in s.mints
      && Vault(s, t.tokenId) >= Outstanding(s.log, Consumed(s), t.tokenId) >= t.amount
      && (Attempt(s, Transaction(Execute(commandId, receiver, fee), now)).Ok? <==>
            && t.amount > 0 && receiver == PayeeOf(t.destination) && FeeOf(s.mints[manager.mint], fee) <= t.amount
            && Fits(manager.flowSlot, t.amount, In, now))
  {
    var s := After(operator, txs);
    var id := s.inbox[commandId].payload.tokenId;
    VaultsAddUp(operator, txs, id);
    RunKeepsOwed(operator, txs, id);
    RunKeepsInbox(operator, txs);
    assert InboxMatches(s, commandId);
    var i :| ApprovalAt(s.log, i, commandId);
    PendingIsOutstanding(s.log, Consumed(s), i, id);
    ExecutionsNeedAnApproval(s, commandId, receiver, fee, now);
  }

  // ---------- Flow counters ----------

  // The run stays in one flow epoch, and the manager has a flow limit in every state of it.
  ghost predicate LimitedThroughout(s: State, txs: seq<Transaction>, id: TokenId, epoch: u64) {
    && (forall k :: 0 <= k < |txs| ==> FlowEpochWithTimestamp(txs[k].now) == Ok(epoch))
    && forall k :: 0 <= k <= |txs| ==> Limited(Run(s, txs[..k]), id)
  }

  predicate Limited(s: State, id: TokenId) {
    id in s.managers && s.managers[id].flowSlot.flowLimit.Some?
  }

  function Counters(s: State, id: TokenId, epoch: u64): FlowState
    requires id in s.managers
  {
    s.managers[id].flowSlot.At(epoch)
  }

  // The counters of both states differ by what was received and sent between them.
  ghost predicate CountersMatch(s: State, after: State, id: TokenId, epoch: u64) {
    && id in s.managers && id in after.managers
    && Counters(after, id, epoch).flowIn - Counters(s, id, epoch).flowIn
       == Total(after.log, Received(id)) - Total(s.log, Received(id))
    && Counters(after, id, epoch).flowOut - Counters(s, id, epoch).flowOut
       == Total(after.log, Sent(id)) - Total(s.log, Sent(id))
  }

  // The step moves no tokens of the manager through the service, and only its limit may change.
  ghost predicate LeavesCounters(s: State, after: State, id: TokenId) {
    && id in s.managers && id in after.managers
    && after.managers[id].flowSlot == s.managers[id].flowSlot.(flowLimit := after.managers[id].flowSlot.flowLimit)
    && s.log <= after.log && |after.log| <= |s.log| + 1
    && (|after.log| > |s.log| ==>
          Share(after.log[|s.log|], Sent(id)) == 0 && Share(after.log[|s.log|], Received(id)) == 0)
  }

  lemma LeftCountersMatch(s: State, after: State, id: TokenId, epoch: u64)
    requires LeavesCounters(s, after, id)
    ensures CountersMatch(s, after, id, epoch)
  {
    if |after.log| > |s.log| {
      assert after.log == s.log + [after.log[|s.log|]];
      TotalsGrow(s.log, after.log[|s.log|]);
    } else {
      assert after.log == s.log;
    }
  }

  lemma CreatingLeavesCounters(s: State, tx: Transaction, id: TokenId)
    requires Attempt(s, tx).Ok? && id in s.managers && ServiceInstruction(tx.instruction)
    requires !tx.instruction.Transfer? && !tx.instruction.Execute?
    ensures LeavesCounters(s, Attempt(s, tx).value, id)
  {}

  lemma RolesLeaveCounters(s: State, tx: Transaction, id: TokenId)
    requires Attempt(s, tx).Ok? && id in s.managers && RolesInstruction(tx.instruction)
    ensures LeavesCounters(s, Attempt(s, tx).value, id)
  {}

  lemma TokensLeaveCounters(s: State, tx: Transaction, id: TokenId)
    requires Attempt(s, tx).Ok? && id in s.managers
    requires !ServiceInstruction(tx.instruction) && !RolesInstruction(tx.instruction)
    ensures LeavesCounters(s, Attempt(s, tx).value, id)
  {}

  lemma OutboundMatchesCounters(
    s: State, id: TokenId, other: TokenId, authority: Address, destination: seq<u8>, amount: u64, fee: u64, now: i64,
        epoch: u64)
    requires InterchainTransferSpec(s, other, authority, destination, amount, fee, now).Ok?
    requires Limited(s, id) && FlowEpochWithTimestamp(now) == Ok(epoch)
    ensures CountersMatch(s, InterchainTransferSpec(s, other, authority, destination, amount, fee, now).value, id,
        epoch)
  {
    var manager := s.managers[other];
    var taken := TakeToken(s.mints[manager.mint], manager.ty, other, authority, amount, fee).value;
    var after := InterchainTransferSpec(s, other, authority, destination, amount, fee, now).value;
    var e := TransferSent(other, taken.1);
    assert after.log == s.log + [e];
    TotalsGrow(s.log, e);
  }

  lemma InboundMatchesCounters(
    s: State, id: TokenId, commandId: CommandId, t: HubMessage, authority: Address, fee: u64, now: i64, epoch: u64)
    requires t.InterchainTransfer? && ReceiveTransferSpec(s, commandId, t, authority, fee, now).Ok?
    requires Limited(s, id) && FlowEpochWithTimestamp(now) == Ok(epoch)
    ensures CountersMatch(s, ReceiveTransferSpec(s, commandId, t, authority, fee, now).value, id, epoch)
  {
    var after := ReceiveTransferSpec(s, commandId, t, authority, fee, now).value;
    var e := after.log[|s.log|];
    assert after.log == s.log + [e];
    TotalsGrow(s.log, e);
  }

  lemma ExecutionMatchesCounters(
    s: State, id: TokenId, commandId: CommandId, authority: Address, fee: u64, now: i64, epoch: u64)
    requires ExecuteSpec(s, commandId, authority, fee, now).Ok?
    requires Limited(s, id) && FlowEpochWithTimestamp(now) == Ok(epoch)
    ensures CountersMatch(s, ExecuteSpec(s, commandId, authority, fee, now).value, id, epoch)
  {
    var after := ExecuteSpec(s, commandId, authority, fee, now).value;
    var message := s.inbox[commandId];
    var consumed := s.(inbox := s.inbox[commandId := message.(executed := true)]);
    if message.payload.InterchainTransfer? {
      InboundMatchesCounters(consumed, id, commandId, message.payload, authority, fee, now, epoch);
      assert CountersMatch(consumed, after, id, epoch);
    } else {
      assert LeavesCounters(s, after, id);
      LeftCountersMatch(s, after, id, epoch);
    }
  }

  lemma StepMatchesCounters(s: State, tx: Transaction, id: TokenId, epoch: u64)
    requires Limited(s, id) && FlowEpochWithTimestamp(tx.now) == Ok(epoch)
    ensures CountersMatch(s, Step(s, tx), id, epoch)
  {
    if Attempt(s, tx).Ok? {
      var after := Attempt(s, tx).value;
      match tx.instruction
      case Transfer(other, authority, destination, amount, fee) =>
        OutboundMatchesCounters(s, id, other, authority, destination, amount, fee, tx.now, epoch);
      case Execute(commandId, authority, fee) =>
        ExecutionMatchesCounters(s, id, commandId, authority, fee, tx.now, epoch);
      case _ =>
        if ServiceInstruction(tx.instruction) {
          CreatingLeavesCounters(s, tx, id);
        } else if RolesInstruction(tx.instruction) {
          RolesLeaveCounters(s, tx, id);
        } else {
          TokensLeaveCounters(s, tx, id);
        }
        LeftCountersMatch(s, after, id, epoch);
    }
  }

  lemma {:induction false} RunMatchesCounters(s: State, txs: seq<Transaction>, id: TokenId, epoch: u64)
    requires LimitedThroughout(s, txs, id, epoch)
    ensures CountersMatch(s, Run(s, txs), id, epoch)
  {
    var n := |txs| - 1;
    assert txs[..|txs|] == txs;
    if n >= 0 {
      var earlier := txs[..n];
      forall k | 0 <= k <= n
        ensures earlier[..k] == txs[..k]
      {}
      RunMatchesCounters(s, earlier, id, epoch);
      StepMatchesCounters(Run(s, earlier), txs[n], id, epoch);
    } else {
      assert Limited(Run(s, txs[..0]), id);
    }
  }

  // ---------- The mint authority of a manager is kept ----------

  predicate ManagedMint(m: Mint) {
    m.authority.Some? && m.authority.value.TokenManagerPda?
  }

  // Token managers keep their type and token, and mints whose authority is a manager keep it.
  ghost predicate KeepsAccounts(s: State, after: State) {
    && (forall id :: id in s.managers ==>
          id in after.managers && after.managers[id].ty == s.managers[id].ty
            && after.managers[id].mint == s.managers[id].mint)
    && (forall mint :: mint in s.mints && ManagedMint(s.mints[mint]) ==>
          mint in after.mints && after.mints[mint].authority == s.mints[mint].authority)
  }

  lemma InboundKeepsAccounts(s: State, commandId: CommandId, t: HubMessage, authority: Address, fee: u64, now: i64)
    requires t.InterchainTransfer? && ReceiveTransferSpec(s, commandId, t, authority, fee, now).Ok?
    ensures KeepsAccounts(s, ReceiveTransferSpec(s, commandId, t, authority, fee, now).value)
  {}

  lemma OutboundKeepsAccounts(s: State, id: TokenId, authority: Address, destination: seq<u8>, amount: u64, fee: u64,
      now: i64)
    requires InterchainTransferSpec(s, id, authority, destination, amount, fee, now).Ok?
    ensures KeepsAccounts(s, InterchainTransferSpec(s, id, authority, destination, amount, fee, now).value)
  {}

  lemma ExecutionKeepsAccounts(s: State, commandId: CommandId, authority: Address, fee: u64, now: i64)
    requires ExecuteSpec(s, commandId, authority, fee, now).Ok?
    ensures KeepsAccounts(s, ExecuteSpec(s, commandId, authority, fee, now).value)
  {
    var message := s.inbox[commandId];
    if message.payload.InterchainTransfer? {
      var consumed := s.(inbox := s.inbox[commandId := message.(executed := true)]);
      InboundKeepsAccounts(consumed, commandId, message.payload, authority, fee, now);
    }
  }

  lemma CreatingKeepsAccounts(s: State, tx: Transaction)
    requires Attempt(s, tx).Ok? && ServiceInstruction(tx.instruction)
    requires !tx.instruction.Transfer? && !tx.instruction.Execute?
    ensures KeepsAccounts(s, Attempt(s, tx).value)
  {}

  lemma RolesKeepAccounts(s: State, tx: Transaction)
    requires Attempt(s, tx).Ok? && RolesInstruction(tx.instruction)
    ensures KeepsAccounts(s, Attempt(s, tx).value)
  {
    assert Attempt(s, tx).value.mints == s.mints;
  }

  predicate TokenInstruction(i: Instruction) {
    i.MoveTokens? || i.IssueTokens? || i.BurnTokens? || i.PayOutFees?
  }

  lemma TokensKeepAccounts(s: State, tx: Transaction)
    requires Attempt(s, tx).Ok? && TokenInstruction(tx.instruction)
    ensures KeepsAccounts(s, Attempt(s, tx).value)
  {
    var after, mint := Attempt(s, tx).value, tx.instruction.mint;
    assert after.managers == s.managers && after.mints == s.mints[mint := after.mints[mint]];
    assert after.mints[mint].authority == s.mints[mint].authority;
  }

  lemma OthersKeepAccounts(s: State, tx: Transaction)
    requires Attempt(s, tx).Ok?
    requires tx.instruction.MintTokens? || tx.instruction.Approve? || tx.instruction.CreateMint?
      || tx.instruction.SetMintAuthority?
    ensures KeepsAccounts(s, Attempt(s, tx).value)
  {}

  lemma StepKeepsAccounts(s: State, tx: Transaction)
    ensures KeepsAccounts(s, Step(s, tx))
  {
    if Attempt(s, tx).Ok? {
      match tx.instruction
      case Transfer(id, authority, destination, amount, fee) =>
        OutboundKeepsAccounts(s, id, authority, destination, amount, fee, tx.now);
      case Execute(commandId, authority, fee) => ExecutionKeepsAccounts(s, commandId, authority, fee, tx.now);
      case _ =>
        if ServiceInstruction(tx.instruction) {
          CreatingKeepsAccounts(s, tx);
        } else if RolesInstruction(tx.instruction) {
          RolesKeepAccounts(s, tx);
        } else if TokenInstruction(tx.instruction) {
          TokensKeepAccounts(s, tx);
        } else {
          OthersKeepAccounts(s, tx);
        }
    }
  }

  lemma {:induction false} RunKeepsAccounts(s: State, txs: seq<Transaction>)
    ensures KeepsAccounts(s, Run(s, txs))
  {
    if |txs| == 0 {
    } else {
      RunKeepsAccounts(s, txs[..|txs| - 1]);
      StepKeepsAccounts(Run(s, txs[..|txs| - 1]), txs[|txs| - 1]);
    }
  }

  // ---------- The mirror ----------

  // What the service's transfers did to the tokens of a manager: the vault beyond its credits, or what was sent beyond
  // what was received out of the supply.
  ghost function Bridged(s: State, id: TokenId): int
    requires id in s.managers && s.managers[id].mint in s.mints
  {
    var mint := s.managers[id].mint;
    if s.managers[id].ty.Locks() then Vault(s, id) - Total(s.log, Credited(mint, id))
    else Total(s.log, Issued(mint)) - s.mints[mint].supply
  }

  lemma BridgedIsSentLessReceived(s: State, id: TokenId)
    requires Inv(s) && id in s.managers
    ensures s.managers[id].mint in s.mints
    ensures s.managers[id].ty.Locks() || HoldsAuthority(s, id) || !ManagedMint(s.mints[s.managers[id].mint]) ==>
      Bridged(s, id) == Total(s.log, Sent(id)) - Total(s.log, Received(id))
  {
    assert ManagerMatches(s, id) && VaultMatches(s, s.managers[id].mint, id) && MintMatches(s, s.managers[id].mint);
  }

  lemma {:induction false} LaterInv(s: State, txs: seq<Transaction>)
    requires Inv(s)
    ensures Inv(Run(s, txs))
  {
    if |txs| == 0 {
    } else {
      LaterInv(s, txs[..|txs| - 1]);
      StepKeepsInv(Run(s, txs[..|txs| - 1]), txs[|txs| - 1]);
    }
  }

  /** Within one flow epoch, while a limit is set, the flow counters mirror the tokens: for a locking manager the change
      of flow_out - flow_in is the change of its vault, for a minting manager that holds the mint authority it is what
      bridging took out of the supply, and a minting manager without the authority has no flow at all. */
  lemma FlowCountersMirrorTheTokens(operator: Address, txs: seq<Transaction>, more: seq<Transaction>, id: TokenId,
      epoch: u64)
    requires LimitedThroughout(After(operator, txs), more, id, epoch)
    ensures var before := After(operator, txs);
      var after := Run(before, more);
      && id in before.managers && id in after.managers
      && before.managers[id].mint in before.mints && after.managers[id].mint in after.mints
      && before.managers[id].ty == after.managers[id].ty
      && var flow := Counters(before, id, epoch).Net() - Counters(after, id, epoch).Net();
      && flow == if after.managers[id].ty.Locks()
        || HoldsAuthority(after, id) then Bridged(after, id) - Bridged(before, id) else 0
  {
    var before := After(operator, txs);
    var after := Run(before, more);
    RunKeepsInv(operator, txs);
    LaterInv(before, more);
    RunMatchesCounters(before, more, id, epoch);
    RunKeepsAccounts(before, more);
    BridgedIsSentLessReceived(before, id);
    BridgedIsSentLessReceived(after, id);
    assert ManagerMatches(before, id) && ManagerMatches(after, id);
  }
}
