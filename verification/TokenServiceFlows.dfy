// The window bound of the flow limits over whole runs of the token service.
module TokenServiceFlows {
  import opened Prelude
  import opened FlowLimits
  import opened UserRoles
  import opened TokenLedger
  import opened TokenService
  import opened TokenServiceRuns
  import opened TokenServiceLedger
  import opened TokenServiceSafety

  // Block times are not negative and never go back.
  ghost predicate ClockForward(txs: seq<Transaction>) {
    && (forall i :: 0 <= i < |txs| ==> txs[i].now >= 0)
    && forall i, j :: 0 <= i < j < |txs| ==> txs[i].now <= txs[j].now
  }

  function EpochOf(tx: Transaction): u64
    requires tx.now >= 0
  {
    tx.now / EPOCH_TIME
  }

  // The manager has this limit in every state of the run.
  ghost predicate LimitedTo(s: State, txs: seq<Transaction>, id: TokenId, limit: u64) {
    HasLimit(Run(s, txs), id, limit) && (|txs| > 0 ==> LimitedTo(s, txs[..|txs| - 1], id, limit))
  }

  predicate HasLimit(s: State, id: TokenId, limit: u64) {
    id in s.managers && s.managers[id].flowSlot.flowLimit == Some(limit)
  }

  // What was received of a token beyond what was sent.
  ghost function NetReceived(s: State, id: TokenId): int {
    Total(s.log, TokenServiceRuns.Received(id)) - Total(s.log, TokenServiceRuns.Sent(id))
  }

  // ---------- One step ----------

  // The slot is unchanged but for its limit, or took one transfer.
  ghost predicate SlotStep(before: FlowState, after: FlowState, net: int, now: i64) {
    || (after == before.(flowLimit := after.flowLimit) && net == 0)
    || (exists amount: u64, direction ::
          TrackSpec(before, amount, direction, now) == Ok(after) && net == FlowLimits.Signed(amount, direction))
  }

  ghost predicate StepOfSlot(s: State, after: State, id: TokenId, now: i64)
    requires id in s.managers
  {
    && id in after.managers
    && SlotStep(s.managers[id].flowSlot, after.managers[id].flowSlot, NetReceived(after, id) - NetReceived(s, id), now)
  }

  lemma LeftSlot(s: State, after: State, id: TokenId, now: i64)
    requires LeavesCounters(s, after, id)
    ensures StepOfSlot(s, after, id, now)
  {
    if |after.log| > |s.log| {
      assert after.log == s.log + [after.log[|s.log|]];
      TotalsGrow(s.log, after.log[|s.log|]);
    } else {
      assert after.log == s.log;
    }
  }

  lemma OutboundSlot(
    s: State, id: TokenId, other: TokenId, authority: Address, destination: seq<u8>, amount: u64, fee: u64, now: i64)
    requires id in s.managers && InterchainTransferSpec(s, other, authority, destination, amount, fee, now).Ok?
    ensures StepOfSlot(s, InterchainTransferSpec(s, other, authority, destination, amount, fee, now).value, id, now)
  {
    var manager := s.managers[other];
    var taken := TakeToken(s.mints[manager.mint], manager.ty, other, authority, amount, fee).value;
    var after := InterchainTransferSpec(s, other, authority, destination, amount, fee, now).value;
    var e := TransferSent(other, taken.1);
    assert after.log == s.log + [e];
    TotalsGrow(s.log, e);
    if id == other {
      assert TrackSpec(manager.flowSlot, taken.1, Out, now) == Ok(after.managers[id].flowSlot);
    }
  }

  lemma InboundSlot(s: State, id: TokenId, commandId: CommandId, t: HubMessage, authority: Address, fee: u64, now: i64)
    requires id in s.managers && t.InterchainTransfer?
    requires ReceiveTransferSpec(s, commandId, t, authority, fee, now).Ok?
    ensures StepOfSlot(s, ReceiveTransferSpec(s, commandId, t, authority, fee, now).value, id, now)
  {
    var after := ReceiveTransferSpec(s, commandId, t, authority, fee, now).value;
    var e := after.log[|s.log|];
    assert after.log == s.log + [e];
    TotalsGrow(s.log, e);
    if id == t.tokenId {
      assert TrackSpec(s.managers[id].flowSlot, t.amount, In, now) == Ok(after.managers[id].flowSlot);
    }
  }

  lemma ExecutionSlot(s: State, id: TokenId, commandId: CommandId, authority: Address, fee: u64, now: i64)
    requires id in s.managers && ExecuteSpec(s, commandId, authority, fee, now).Ok?
    ensures StepOfSlot(s, ExecuteSpec(s, commandId, authority, fee, now).value, id, now)
  {
    var after := ExecuteSpec(s, commandId, authority, fee, now).value;
    var message := s.inbox[commandId];
    if message.payload.InterchainTransfer? {
      var consumed := s.(inbox := s.inbox[commandId := message.(executed := true)]);
      InboundSlot(consumed, id, commandId, message.payload, authority, fee, now);
      assert StepOfSlot(consumed, after, id, now);
    } else {
      assert LeavesCounters(s, after, id);
      LeftSlot(s, after, id, now);
    }
  }

  lemma SlotOfStep(s: State, tx: Transaction, id: TokenId)
    requires id in s.managers
    ensures StepOfSlot(s, Step(s, tx), id, tx.now)
  {
    if Attempt(s, tx).Ok? {
      match tx.instruction
      case Transfer(other, authority, destination, amount, fee) =>
        OutboundSlot(s, id, other, authority, destination, amount, fee, tx.now);
      case Execute(commandId, authority, fee) => ExecutionSlot(s, id, commandId, authority, fee, tx.now);
      case _ =>
        if ServiceInstruction(tx.instruction) {
          CreatingLeavesCounters(s, tx, id);
        } else if RolesInstruction(tx.instruction) {
          RolesLeaveCounters(s, tx, id);
        } else {
          TokensLeaveCounters(s, tx, id);
        }
        LeftSlot(s, Step(s, tx), id, tx.now);
    }
  }

  // ---------- Slots only know the past ----------

  // The epoch a run has reached.
  ghost function Reached(txs: seq<Transaction>): nat
    requires ClockForward(txs)
  {
    if |txs| == 0 then 0 else EpochOf(txs[|txs| - 1])
  }

  ghost predicate StartsEmpty(s: State, after: State, id: TokenId) {
    id !in s.managers && id in after.managers ==> after.managers[id].flowSlot == FlowState(None, 0, 0, 0)
  }

  lemma CreatedSlotsAreEmpty(s: State, tx: Transaction, id: TokenId)
    requires Attempt(s, tx).Ok? && ServiceInstruction(tx.instruction)
    ensures StartsEmpty(s, Attempt(s, tx).value, id)
  {}

  lemma RolesCreateNoSlots(s: State, tx: Transaction, id: TokenId)
    requires Attempt(s, tx).Ok? && RolesInstruction(tx.instruction)
    ensures StartsEmpty(s, Attempt(s, tx).value, id)
  {}

  lemma TokensCreateNoSlots(s: State, tx: Transaction, id: TokenId)
    requires Attempt(s, tx).Ok? && !ServiceInstruction(tx.instruction) && !RolesInstruction(tx.instruction)
    ensures StartsEmpty(s, Attempt(s, tx).value, id)
  {}

  lemma SlotsStartEmpty(s: State, tx: Transaction, id: TokenId)
    ensures StartsEmpty(s, Step(s, tx), id)
  {
    if Attempt(s, tx).Ok? {
      if ServiceInstruction(tx.instruction) {
        CreatedSlotsAreEmpty(s, tx, id);
      } else if RolesInstruction(tx.instruction) {
        RolesCreateNoSlots(s, tx, id);
      } else {
        TokensCreateNoSlots(s, tx, id);
      }
    }
  }

  lemma SlotStepEpoch(before: FlowState, after: FlowState, net: int, now: i64)
    requires now >= 0 && SlotStep(before, after, net, now) && before.epoch <= now / EPOCH_TIME
    ensures after.epoch <= now / EPOCH_TIME
  {}

  // The slot, if there is one, was last reset in an epoch up to this one.
  ghost predicate SlotUpTo(s: State, id: TokenId, epoch: nat) {
    id in s.managers ==> s.managers[id].flowSlot.epoch <= epoch
  }

  lemma StepStaysInThePast(s: State, tx: Transaction, id: TokenId)
    requires tx.now >= 0 && SlotUpTo(s, id, EpochOf(tx))
    ensures SlotUpTo(Step(s, tx), id, EpochOf(tx))
  {
    var after := Step(s, tx);
    if id in s.managers {
      SlotOfStep(s, tx, id);
      var net := NetReceived(after, id) - NetReceived(s, id);
      SlotStepEpoch(s.managers[id].flowSlot, after.managers[id].flowSlot, net, tx.now);
    } else if id in after.managers {
      SlotsStartEmpty(s, tx, id);
    }
  }

  lemma {:induction false} SlotsAreOfThePast(operator: Address, txs: seq<Transaction>, id: TokenId)
    requires ClockForward(txs)
    ensures SlotUpTo(After(operator, txs), id, Reached(txs))
  {
    if |txs| == 0 {
    } else {
      SlotsAreOfThePast(operator, txs[..|txs| - 1], id);
      StepStaysInThePast(After(operator, txs[..|txs| - 1]), txs[|txs| - 1], id);
    }
  }

  // ---------- Any stretch of a run ----------

  lemma SlotStepIsTallied(
    before: FlowState, after: FlowState, net: int, now: i64, limit: u64, start: int, total: int, later: nat)
    requires now >= 0 && SlotStep(before, after, net, now) && after.flowLimit == Some(limit)
    requires Tallied(before, limit, start, total, later, now / EPOCH_TIME)
    ensures Tallied(after, limit, start, total + net, later, now / EPOCH_TIME)
  {
    if !(after == before.(flowLimit := after.flowLimit) && net == 0) {
      var amount: u64, direction :|
        TrackSpec(before, amount, direction, now) == Ok(after) && net == FlowLimits.Signed(amount, direction);
      WindowTakesTransfer(before, limit, start, total, later, FlowLimits.Transfer(amount, direction, now));
    }
  }

  lemma LaterSlotStepIsTallied(
    before: FlowState, after: FlowState, net: int, now: i64, limit: u64, start: int, total: int, later: nat, epoch: nat)
    requires now >= 0 && SlotStep(before, after, net, now) && after.flowLimit == Some(limit)
    requires epoch <= now / EPOCH_TIME && Tallied(before, limit, start, total, later, epoch)
    ensures Tallied(after, limit, start, total + net, later + (now / EPOCH_TIME - epoch), now / EPOCH_TIME)
  {
    WindowMovesOn(before, limit, start, total, later, epoch, now / EPOCH_TIME);
    SlotStepIsTallied(before, after, net, now, limit, start, total, later + (now / EPOCH_TIME - epoch));
  }

  // What the counters say of a stretch of a run that began in one epoch and has reached another.
  ghost predicate StretchTallied(s: State, after: State, id: TokenId, limit: u64, first: u64, last: u64) {
    && id in s.managers && HasLimit(after, id, limit) && first <= last
    && Tallied(after.managers[id].flowSlot, limit, Counters(s, id, first).Net(),
               NetReceived(after, id) - NetReceived(s, id), last - first, last)
  }

  lemma StretchBegins(s: State, id: TokenId, limit: u64, first: u64)
    requires HasLimit(s, id, limit) && s.managers[id].flowSlot.epoch <= first
    ensures StretchTallied(s, s, id, limit, first, first)
  {
    WindowBegins(s.managers[id].flowSlot, limit, first);
  }

  lemma StretchGrows(
    s: State, middle: State, next: State, id: TokenId, limit: u64, first: u64, last: u64, now: i64)
    requires now >= 0 && last <= now / EPOCH_TIME && StretchTallied(s, middle, id, limit, first, last)
    requires HasLimit(next, id, limit) && StepOfSlot(middle, next, id, now)
    ensures StretchTallied(s, next, id, limit, first, now / EPOCH_TIME)
  {
    LaterSlotStepIsTallied(middle.managers[id].flowSlot, next.managers[id].flowSlot,
                           NetReceived(next, id) - NetReceived(middle, id), now, limit, Counters(s, id, first).Net(),
                           NetReceived(middle, id) - NetReceived(s, id), last - first, last);
  }

  lemma SlotOfLastStep(s: State, txs: seq<Transaction>, id: TokenId)
    requires |txs| > 0 && id in Run(s, txs[..|txs| - 1]).managers
    ensures StepOfSlot(Run(s, txs[..|txs| - 1]), Run(s, txs), id, txs[|txs| - 1].now)
  {
    SlotOfStep(Run(s, txs[..|txs| - 1]), txs[|txs| - 1], id);
  }

  // The last step of a stretch, after one that already is tallied or, if it is the first step, an empty one.
  lemma LastStepIsTallied(s: State, txs: seq<Transaction>, id: TokenId, limit: u64, first: u64, last: u64)
    requires |txs| > 0 && txs[|txs| - 1].now >= 0 && last <= EpochOf(txs[|txs| - 1])
    requires StretchTallied(s, Run(s, txs[..|txs| - 1]), id, limit, first, last) && HasLimit(Run(s, txs), id, limit)
    ensures StretchTallied(s, Run(s, txs), id, limit, first, EpochOf(txs[|txs| - 1]))
  {
    SlotOfLastStep(s, txs, id);
    StretchGrows(s, Run(s, txs[..|txs| - 1]), Run(s, txs), id, limit, first, last, txs[|txs| - 1].now);
  }

  lemma {:induction false} StretchIsTallied(s: State, txs: seq<Transaction>, id: TokenId, limit: u64)
    requires |txs| > 0 && ClockForward(txs) && LimitedTo(s, txs, id, limit)
    requires id in s.managers && s.managers[id].flowSlot.epoch <= EpochOf(txs[0])
    ensures StretchTallied(s, Run(s, txs), id, limit, EpochOf(txs[0]), EpochOf(txs[|txs| - 1]))
  {
    var n := |txs| - 1;
    if n == 0 {
      FirstStepIsTallied(s, txs, id, limit);
    } else {
      ClockOfEarlier(txs);
      StretchIsTallied(s, txs[..n], id, limit);
      LastStepIsTallied(s, txs, id, limit, EpochOf(txs[0]), EpochOf(txs[n - 1]));
    }
  }

  lemma FirstStepIsTallied(s: State, txs: seq<Transaction>, id: TokenId, limit: u64)
    requires |txs| == 1 && ClockForward(txs) && LimitedTo(s, txs, id, limit)
    requires id in s.managers && s.managers[id].flowSlot.epoch <= EpochOf(txs[0])
    ensures StretchTallied(s, Run(s, txs), id, limit, EpochOf(txs[0]), EpochOf(txs[0]))
  {
    LimitedFromTheStart(s, txs, id, limit);
    StretchBegins(s, id, limit, EpochOf(txs[0]));
    LastStepIsTallied(s, txs, id, limit, EpochOf(txs[0]), EpochOf(txs[0]));
  }

  lemma ClockOfEarlier(txs: seq<Transaction>)
    requires |txs| > 1 && ClockForward(txs)
    ensures ClockForward(txs[..|txs| - 1]) && EpochOf(txs[|txs| - 2]) <= EpochOf(txs[|txs| - 1])
  {
    assert txs[|txs| - 2].now <= txs[|txs| - 1].now;
  }

  lemma {:induction false} LimitedFromTheStart(s: State, txs: seq<Transaction>, id: TokenId, limit: u64)
    requires LimitedTo(s, txs, id, limit)
    ensures HasLimit(s, id, limit)
  {
    if |txs| == 0 {
    } else {
      LimitedFromTheStart(s, txs[..|txs| - 1], id, limit);
    }
  }

  /** Over any stretch of any run in which a manager keeps one limit L, touching k six-hour epochs, what it received
      beyond what it sent changes, together with the net flow the stretch starts from, by at most k - 1 limits and the
      reach of the start; so by at most k + 1 limits if the start is within the limit, and by k if it is zero. */
  lemma NetTransfersAreBounded(
    operator: Address, txs: seq<Transaction>, more: seq<Transaction>, id: TokenId, limit: u64) returns (k: nat)
    requires |more| > 0 && ClockForward(txs + more) && LimitedTo(After(operator, txs), more, id, limit)
    ensures id in After(operator, txs).managers && ClockForward(more)
    ensures EpochOf(more[0]) <= EpochOf(more[|more| - 1]) && k == EpochOf(more[|more| - 1]) - EpochOf(more[0]) + 1
    ensures var before := After(operator, txs);
      var change := NetReceived(Run(before, more), id) - NetReceived(before, id);
      var start := Counters(before, id, EpochOf(more[0])).Net();
      && Within(change + start, Reach(limit, start) + (k - 1) * limit)
      && (Within(start, limit) ==> Within(change, (k + 1) * limit))
      && (start == 0 ==> Within(change, k * limit))
  {
    var before := After(operator, txs);
    LimitedFromTheStart(before, more, id, limit);
    ClocksOfParts(txs, more);
    SlotsAreOfThePast(operator, txs, id);
    StretchIsTallied(before, more, id, limit);
    k := EpochOf(more[|more| - 1]) - EpochOf(more[0]) + 1;
    var change := NetReceived(Run(before, more), id) - NetReceived(before, id);
    var start := Counters(before, id, EpochOf(more[0])).Net();
    BoundsOfStretch(Run(before, more).managers[id].flowSlot, limit, start, change, k, EpochOf(more[|more| - 1]));
  }

  lemma BoundsOfStretch(f: FlowState, limit: u64, start: int, change: int, k: nat, epoch: nat)
    requires k > 0 && Tallied(f, limit, start, change, k - 1, epoch)
    ensures Within(change + start, Reach(limit, start) + (k - 1) * limit)
    ensures Within(start, limit) ==> Within(change, (k + 1) * limit)
    ensures start == 0 ==> Within(change, k * limit)
  {
    TalliedIsBounded(f, limit, start, change, k - 1, epoch);
    TimesIsProduct(k - 1, limit);
    if Within(start, limit) {
      BoundsFromTheTally(f, limit, start, change, k, epoch);
      TimesIsProduct(k, limit);
      TimesIsProduct(k + 1, limit);
    }
  }

  lemma ClocksOfParts(txs: seq<Transaction>, more: seq<Transaction>)
    requires |more| > 0 && ClockForward(txs + more)
    ensures ClockForward(txs) && ClockForward(more) && Reached(txs) <= EpochOf(more[0])
  {
    var all := txs + more;
    forall i | 0 <= i < |txs|
      ensures txs[i] == all[i]
    {}
    forall i | 0 <= i < |more|
      ensures more[i] == all[|txs| + i]
    {}
    if |txs| > 0 {
      assert all[|txs| - 1].now <= all[|txs|].now;
    }
  }
}
