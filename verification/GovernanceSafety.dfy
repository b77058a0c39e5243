// Whole runs of governance: proposals and markers that add up, timelocks that are kept, and when an operator's
// approval outlives the proposal it was given for.
module GovernanceSafety {
  import opened Prelude
  import opened Bytes
  import opened ProposalHash
  import opened Governance
  import opened GovernanceRuns

  // ---------- What a log adds up to ----------

  datatype Measure =
    | Schedules(hash: Hash)
    | Cancellations(hash: Hash)
    | TimelockExecutions(hash: Hash)
    | OperatorExecutions(hash: Hash)
    | Approvals(hash: Hash)
    | ApprovalCancellations(hash: Hash)
    | Income
    | Payments(key: Key32)

  function Share(e: Event, q: Measure): int {
    match q
    case Schedules(h) => if e.Scheduled? && Preimage(e.proposal) == Some(h) then 1 else 0
    case Cancellations(h) => if e.Cancelled? && Preimage(e.proposal) == Some(h) then 1 else 0
    case TimelockExecutions(h) => if e.TimelockExecuted? && Preimage(e.proposal) == Some(h) then 1 else 0
    case OperatorExecutions(h) => if e.OperatorExecuted? && Preimage(e.proposal) == Some(h) then 1 else 0
    case Approvals(h) => if e.OperatorApproved? && Preimage(e.proposal) == Some(h) then 1 else 0
    case ApprovalCancellations(h) => if e.OperatorCancelled? && Preimage(e.proposal) == Some(h) then 1 else 0
    case Income => if e.FundsChanged? then e.received - e.spent else 0
    case Payments(key) => if e.TimelockExecuted? || e.OperatorExecuted? then NativePayment(key, e.proposal) else 0
  }

  function Total(log: seq<Event>, q: Measure): int {
    if |log| == 0 then 0 else Total(log[..|log| - 1], q) + Share(log[|log| - 1], q)
  }

  lemma TotalsGrow(log: seq<Event>, e: Event)
    ensures forall q :: Total(log + [e], q) == Total(log, q) + Share(e, q)
  {
    assert (log + [e])[..|log|] == log;
  }

  // ---------- Proposals, markers and funds add up ----------

  ghost predicate ProposalsMatch(s: State, h: Hash) {
    Total(s.log, Schedules(h)) ==
      Total(s.log, Cancellations(h)) + Total(s.log, TimelockExecutions(h)) + Total(s.log, OperatorExecutions(h))
      + if h in s.proposals then 1 else 0
  }

  ghost predicate MarkersMatch(s: State, h: Hash) {
    Total(s.log, Approvals(h)) ==
      Total(s.log, ApprovalCancellations(h)) + Total(s.log, OperatorExecutions(h)) + if h in s.markers then 1 else 0
  }

  ghost predicate FundsMatch(s: State) {
    s.funds == Total(s.log, Income) - Total(s.log, Payments(s.key))
  }

  lemma TotalGrows(s: State, after: State, q: Measure)
    requires Explained(s, after)
    ensures Total(after.log, q) == Total(s.log, q) + if |after.log| > |s.log| then Share(after.log[|s.log|], q) else 0
  {
    if |after.log| > |s.log| {
      assert after.log == s.log + [after.log[|s.log|]];
      TotalsGrow(s.log, after.log[|s.log|]);
    }
  }

  // An event changes the life of a proposal and its marker by what it counts for.
  lemma EventsChangeAccounts(s: State, after: State, e: Event, h: Hash)
    requires Effect(s, after, e)
    ensures (if h in after.proposals then 1 else 0) - (if h in s.proposals then 1 else 0) ==
      Share(e, Schedules(h)) - Share(e, Cancellations(h))
      - Share(e, TimelockExecutions(h)) - Share(e, OperatorExecutions(h))
    ensures (if h in after.markers then 1 else 0) - (if h in s.markers then 1 else 0) ==
      Share(e, Approvals(h)) - Share(e, ApprovalCancellations(h)) - Share(e, OperatorExecutions(h))
  {}

  lemma StepKeepsProposals(s: State, after: State, h: Hash)
    requires Explained(s, after) && ProposalsMatch(s, h)
    ensures ProposalsMatch(after, h)
  {
    if |after.log| > |s.log| {
      EventsChangeAccounts(s, after, after.log[|s.log|], h);
    }
    TotalGrows(s, after, Schedules(h));
    TotalGrows(s, after, Cancellations(h));
    TotalGrows(s, after, TimelockExecutions(h));
    TotalGrows(s, after, OperatorExecutions(h));
  }

  lemma StepKeepsMarkers(s: State, after: State, h: Hash)
    requires Explained(s, after) && MarkersMatch(s, h)
    ensures MarkersMatch(after, h)
  {
    if |after.log| > |s.log| {
      EventsChangeAccounts(s, after, after.log[|s.log|], h);
    }
    TotalGrows(s, after, Approvals(h));
    TotalGrows(s, after, ApprovalCancellations(h));
    TotalGrows(s, after, OperatorExecutions(h));
  }

  lemma StepKeepsFunds(s: State, after: State)
    requires Explained(s, after) && FundsMatch(s)
    ensures FundsMatch(after)
  {
    TotalGrows(s, after, Income);
    TotalGrows(s, after, Payments(s.key));
  }

  /** In every run, for every hash: each schedule was cancelled, executed after its timelock, executed by the operator,
      or is live; each approval was cancelled, used up by the operator, or still marks the hash. */
  lemma {:induction false} ProposalsAndMarkersAddUp(key: Key32, config: GovernanceConfig, txs: seq<Transaction>,
      h: Hash)
    requires config.Valid()
    ensures ProposalsMatch(After(key, config, txs), h) && MarkersMatch(After(key, config, txs), h)
  {
    if |txs| == 0 {
    } else {
      ProposalsAndMarkersAddUp(key, config, txs[..|txs| - 1], h);
      StepsAreExplained(After(key, config, txs[..|txs| - 1]), txs[|txs| - 1]);
      StepKeepsProposals(After(key, config, txs[..|txs| - 1]), After(key, config, txs), h);
      StepKeepsMarkers(After(key, config, txs[..|txs| - 1]), After(key, config, txs), h);
    }
  }

  /** In every run the funds are what came in otherwise, less the native values that the executed proposals name for
      receivers other than the configuration account. */
  lemma {:induction false} FundsAddUp(key: Key32, config: GovernanceConfig, txs: seq<Transaction>)
    requires config.Valid()
    ensures FundsMatch(After(key, config, txs))
  {
    if |txs| == 0 {
    } else {
      FundsAddUp(key, config, txs[..|txs| - 1]);
      StepsAreExplained(After(key, config, txs[..|txs| - 1]), txs[|txs| - 1]);
      StepKeepsFunds(After(key, config, txs[..|txs| - 1]), After(key, config, txs));
    }
  }

  // ---------- Timelocks are kept ----------

  ghost predicate ScheduleAt(log: seq<Event>, i: int, h: Hash) {
    0 <= i < |log| && log[i].Scheduled? && Preimage(log[i].proposal) == Some(h)
  }

  // The event ends the life of a proposal with that hash.
  ghost predicate ClosesAt(log: seq<Event>, i: int, h: Hash) {
    0 <= i < |log| && (log[i].Cancelled? || log[i].TimelockExecuted? || log[i].OperatorExecuted?)
      && Preimage(log[i].proposal) == Some(h)
  }

  // Scheduled at i and not closed since.
  ghost predicate LiveSince(log: seq<Event>, i: int, h: Hash) {
    ScheduleAt(log, i, h) && forall k :: i < k ==> !ClosesAt(log, k, h)
  }

  // The schedule gave its proposal at least the delay configured at that time, which was a valid one.
  predicate Delayed(e: Event) {
    e.Scheduled? && MIN_DELAY <= e.delay <= MAX_DELAY && e.at + e.delay <= e.eta
  }

  ghost predicate LiveProposalsMatch(s: State, h: Hash) {
    h in s.proposals ==> exists i :: LiveSince(s.log, i, h) && s.log[i].eta == s.proposals[h]
  }

  // Why the event at j was allowed.
  ghost predicate Timely(log: seq<Event>, j: int)
    requires 0 <= j < |log|
  {
    match log[j]
    case Scheduled(_, _, _, _) => Delayed(log[j])
    case TimelockExecuted(d, at) =>
      Preimage(d).Some? && exists i :: LiveSince(log[..j], i, Preimage(d).value) && log[i].eta <= at
    case OperatorExecuted(d, _) => Preimage(d).Some? && exists i :: LiveSince(log[..j], i, Preimage(d).value)
    case _ => true
  }

  ghost predicate TimelockInv(s: State) {
    && s.config.Valid()
    && (forall h :: LiveProposalsMatch(s, h))
    && forall j :: 0 <= j < |s.log| ==> Timely(s.log, j)
  }

  lemma EarlierEventsStayTimely(before: seq<Event>, after: seq<Event>, j: int)
    requires before <= after && 0 <= j < |before| && Timely(before, j)
    ensures Timely(after, j)
  {
    assert after[..j] == before[..j];
  }

  // A proposal that stays live keeps its schedule.
  lemma StillLive(before: seq<Event>, after: seq<Event>, i: int, h: Hash)
    requires before <= after && |after| <= |before| + 1 && LiveSince(before, i, h) && !ClosesAt(after, |before|, h)
    ensures LiveSince(after, i, h)
  {
    forall k | i < k
      ensures !ClosesAt(after, k, h)
    {
      assert !ClosesAt(before, k, h);
    }
  }

  lemma StepKeepsLiveProposals(s: State, after: State, h: Hash)
    requires Explained(s, after) && LiveProposalsMatch(s, h)
    ensures LiveProposalsMatch(after, h)
  {
    if h in after.proposals {
      if ScheduleAt(after.log, |s.log|, h) {
        assert LiveSince(after.log, |s.log|, h);
      } else {
        var i :| LiveSince(s.log, i, h) && s.log[i].eta == s.proposals[h];
        assert !ClosesAt(after.log, |s.log|, h);
        StillLive(s.log, after.log, i, h);
      }
    }
  }

  lemma StepIsTimely(s: State, after: State)
    requires TimelockInv(s) && Explained(s, after) && |after.log| > |s.log|
    ensures Timely(after.log, |s.log|)
  {
    assert after.log[..|s.log|] == s.log;
    var e := after.log[|s.log|];
    if e.TimelockExecuted? || e.OperatorExecuted? {
      assert LiveProposalsMatch(s, Preimage(e.proposal).value);
    }
  }

  lemma StepKeepsTimelocks(s: State, after: State)
    requires TimelockInv(s) && Explained(s, after)
    ensures TimelockInv(after)
  {
    forall h
      ensures LiveProposalsMatch(after, h)
    {
      StepKeepsLiveProposals(s, after, h);
    }
    forall j | 0 <= j < |after.log|
      ensures Timely(after.log, j)
    {
      if j < |s.log| {
        EarlierEventsStayTimely(s.log, after.log, j);
      } else {
        StepIsTimely(s, after);
      }
    }
  }

  lemma {:induction false} RunKeepsTimelocks(key: Key32, config: GovernanceConfig, txs: seq<Transaction>)
    requires config.Valid()
    ensures TimelockInv(After(key, config, txs))
  {
    if |txs| == 0 {
    } else {
      RunKeepsTimelocks(key, config, txs[..|txs| - 1]);
      StepsAreExplained(After(key, config, txs[..|txs| - 1]), txs[|txs| - 1]);
      StepKeepsTimelocks(After(key, config, txs[..|txs| - 1]), After(key, config, txs));
    }
  }

  // The schedule at i is the one that the timelock execution at j waited for: same proposal, nothing closed it since.
  ghost predicate WaitedFor(log: seq<Event>, i: nat, j: nat)
    requires i < j < |log|
  {
    && log[i].Scheduled? && log[j].TimelockExecuted? && log[i].proposal == log[j].proposal
    && Delayed(log[i]) && log[i].eta <= log[j].at
    && Preimage(log[j].proposal).Some?
    && forall k :: i < k < j ==> !ClosesAt(log, k, Preimage(log[j].proposal).value)
  }

  lemma ExecutionsWaited(key: Key32, config: GovernanceConfig, txs: seq<Transaction>, j: nat) returns (i: nat)
    requires config.Valid()
    requires j < |After(key, config, txs).log| && After(key, config, txs).log[j].TimelockExecuted?
    ensures i < j && WaitedFor(After(key, config, txs).log, i, j)
  {
    var log := After(key, config, txs).log;
    RunKeepsTimelocks(key, config, txs);
    assert Timely(log, j);
    var h := Preimage(log[j].proposal).value;
    var n :| LiveSince(log[..j], n, h) && log[n].eta <= log[j].at;
    i := n;
    assert Timely(log, i);
    DistinctProposalsHaveDistinctPreimages(log[i].proposal, log[j].proposal);
    forall k | i < k < j
      ensures !ClosesAt(log, k, h)
    {
      assert !ClosesAt(log[..j], k, h);
    }
  }

  // The transaction is the command of governance to do this to the proposal.
  predicate Commands(s: State, tx: Transaction, command: Command, d: ExecuteProposalData) {
    && tx.instruction.ProcessGmp? && FromGovernance(s, tx.instruction.command)
    && tx.instruction.command.command == command && tx.instruction.command.proposal == d
  }

  /** In every run, by the clock of its transactions: a timelock execution runs exactly the proposal of an earlier
      schedule that nothing closed in between. Governance commanded that schedule, and the execution comes no sooner
      than the delay configured at that moment after it, one hour to one day, and no sooner than it asked for. */
  lemma TimelocksAreKept(key: Key32, config: GovernanceConfig, txs: seq<Transaction>, j: nat)
    returns (i: nat, scheduling: nat, executing: nat)
    requires config.Valid()
    requires j < |After(key, config, txs).log| && After(key, config, txs).log[j].TimelockExecuted?
    ensures i < j && WaitedFor(After(key, config, txs).log, i, j)
    ensures scheduling < executing < |txs|
    ensures LoggedAt(InitializeConfig(key, config).value, txs, i, scheduling)
    ensures LoggedAt(InitializeConfig(key, config).value, txs, j, executing)
    ensures var d, before := After(key, config, txs).log[j].proposal, After(key, config, txs[..scheduling]);
      var delay := before.config.minimumProposalEtaDelay;
      && Commands(before, txs[scheduling], Command.ScheduleTimelockProposal, d)
      && txs[executing].instruction.ExecuteProposal? && txs[executing].instruction.proposal == d
      && 3600 <= delay <= 86400 && txs[executing].now - txs[scheduling].now >= delay
      && txs[executing].now >= txs[scheduling].instruction.command.eta
  {
    var start := InitializeConfig(key, config).value;
    i := ExecutionsWaited(key, config, txs, j);
    scheduling := EventsComeFromTransactions(start, txs, i);
    executing := EventsComeFromTransactions(start, txs, j);
    EventsKeepTheOrder(start, txs, i, j, scheduling, executing);
  }

  /** A schedule that is left alone runs from its eta on and not before: whatever else happens in between, an execution
      of its proposal goes through exactly when the clock has reached that eta and the call goes through. */
  lemma {:induction false} SchedulesBecomeExecutable(
    s: State, txs: seq<Transaction>, d: ExecuteProposalData, call: Call, now: i64)
    requires Live(s, d)
    requires forall k :: |s.log| <= k < |Run(s, txs).log| ==> !ClosesAt(Run(s, txs).log, k, Preimage(d).value)
    ensures Live(Run(s, txs), d) && EtaOf(Run(s, txs), d) == EtaOf(s, d) && Run(s, txs).key == s.key
    ensures Execute(Run(s, txs), Transaction(ExecuteProposal(d, call), now)).Ok?
      <==> EtaOf(s, d) <= now && GoesThrough(Run(s, txs), d, call)
  {
    TransactionsGoThroughExactlyWhen(Run(s, txs), Transaction(ExecuteProposal(d, call), now));
    if |txs| == 0 {
    } else {
      var before, tx := Run(s, txs[..|txs| - 1]), txs[|txs| - 1];
      StepsAreExplained(before, tx);
      LogsOnlyGrow(s, txs[..|txs| - 1], 0);
      forall k | |s.log| <= k < |before.log|
        ensures !ClosesAt(before.log, k, Preimage(d).value)
      {
        assert !ClosesAt(Run(s, txs).log, k, Preimage(d).value);
      }
      SchedulesBecomeExecutable(s, txs[..|txs| - 1], d, call, now);
      if |Run(s, txs).log| > |before.log| {
        assert !ClosesAt(Run(s, txs).log, |before.log|, Preimage(d).value);
      }
    }
  }

  /** In every run the configured delay is one hour to one day. */
  lemma DelayStaysInRange(key: Key32, config: GovernanceConfig, txs: seq<Transaction>)
    requires config.Valid()
    ensures 3600 <= After(key, config, txs).config.minimumProposalEtaDelay <= 86400
  {
    RunKeepsTimelocks(key, config, txs);
  }

  // ---------- Early execution needs an approval ----------

  // The event takes the marker of the hash away.
  ghost predicate UnmarksAt(log: seq<Event>, i: int, h: Hash) {
    0 <= i < |log| && (log[i].OperatorCancelled? || log[i].OperatorExecuted?) && Preimage(log[i].proposal) == Some(h)
  }

  // Approved at i and neither cancelled nor used up since.
  ghost predicate ApprovedSince(log: seq<Event>, i: int, h: Hash) {
    && 0 <= i < |log| && log[i].OperatorApproved? && Preimage(log[i].proposal) == Some(h)
    && forall k :: i < k ==> !UnmarksAt(log, k, h)
  }

  ghost predicate LiveMarkersMatch(s: State, h: Hash) {
    h in s.markers ==> exists i :: ApprovedSince(s.log, i, h)
  }

  ghost predicate Permitted(log: seq<Event>, j: int)
    requires 0 <= j < |log|
  {
    log[j].OperatorExecuted? ==>
      Preimage(log[j].proposal).Some? && exists i :: ApprovedSince(log[..j], i, Preimage(log[j].proposal).value)
  }

  ghost predicate ApprovalInv(s: State) {
    (forall h :: LiveMarkersMatch(s, h)) && forall j :: 0 <= j < |s.log| ==> Permitted(s.log, j)
  }

  lemma StepKeepsLiveMarkers(s: State, after: State, h: Hash)
    requires Explained(s, after) && LiveMarkersMatch(s, h)
    ensures LiveMarkersMatch(after, h)
  {
    if h in after.markers {
      if h in s.markers {
        var i :| ApprovedSince(s.log, i, h);
        assert !UnmarksAt(after.log, |s.log|, h);
        forall k | i < k
          ensures !UnmarksAt(after.log, k, h)
        {
          assert !UnmarksAt(s.log, k, h);
        }
        assert ApprovedSince(after.log, i, h);
      } else {
        assert ApprovedSince(after.log, |s.log|, h);
      }
    }
  }

  lemma StepKeepsApprovals(s: State, after: State)
    requires ApprovalInv(s) && Explained(s, after)
    ensures ApprovalInv(after)
  {
    forall h
      ensures LiveMarkersMatch(after, h)
    {
      StepKeepsLiveMarkers(s, after, h);
    }
    forall j | 0 <= j < |after.log|
      ensures Permitted(after.log, j)
    {
      assert after.log[..j] == s.log[..j];
      if j < |s.log| {
        assert Permitted(s.log, j);
      } else if after.log[j].OperatorExecuted? {
        assert s.log[..j] == s.log && LiveMarkersMatch(s, Preimage(after.log[j].proposal).value);
      }
    }
  }

  lemma {:induction false} RunKeepsApprovals(key: Key32, config: GovernanceConfig, txs: seq<Transaction>)
    requires config.Valid()
    ensures ApprovalInv(After(key, config, txs))
  {
    if |txs| == 0 {
    } else {
      RunKeepsApprovals(key, config, txs[..|txs| - 1]);
      StepsAreExplained(After(key, config, txs[..|txs| - 1]), txs[|txs| - 1]);
      StepKeepsApprovals(After(key, config, txs[..|txs| - 1]), After(key, config, txs));
    }
  }

  // The operator execution at j runs the proposal scheduled at one event and uses up the approval at another.
  ghost predicate ApprovedEarly(log: seq<Event>, scheduled: nat, approved: nat, j: nat)
    requires scheduled < j < |log| && approved < j
  {
    && log[j].OperatorExecuted? && Preimage(log[j].proposal).Some?
    && log[scheduled].Scheduled? && log[scheduled].proposal == log[j].proposal
    && log[approved].OperatorApproved? && log[approved].proposal == log[j].proposal
    && (forall k :: scheduled < k < j ==> !ClosesAt(log, k, Preimage(log[j].proposal).value))
    && (forall k :: approved < k < j ==> !UnmarksAt(log, k, Preimage(log[j].proposal).value))
  }

  lemma ApprovalsAreLogged(key: Key32, config: GovernanceConfig, txs: seq<Transaction>, j: nat)
    returns (scheduled: nat, approved: nat)
    requires config.Valid()
    requires j < |After(key, config, txs).log| && After(key, config, txs).log[j].OperatorExecuted?
    ensures scheduled < j && approved < j && ApprovedEarly(After(key, config, txs).log, scheduled, approved, j)
  {
    var log := After(key, config, txs).log;
    RunKeepsTimelocks(key, config, txs);
    RunKeepsApprovals(key, config, txs);
    assert Timely(log, j) && Permitted(log, j);
    var h := Preimage(log[j].proposal).value;
    var n :| LiveSince(log[..j], n, h);
    var m :| ApprovedSince(log[..j], m, h);
    scheduled, approved := n, m;
    DistinctProposalsHaveDistinctPreimages(log[n].proposal, log[j].proposal);
    DistinctProposalsHaveDistinctPreimages(log[m].proposal, log[j].proposal);
    forall k | n < k < j
      ensures !ClosesAt(log, k, h)
    {
      assert !ClosesAt(log[..j], k, h);
    }
    forall k | m < k < j
      ensures !UnmarksAt(log, k, h)
    {
      assert !UnmarksAt(log[..j], k, h);
    }
  }

  /** In every run an operator execution runs exactly the proposal of an earlier schedule that nothing closed since, and
      uses an approval of that very proposal which was neither cancelled nor used since. Governance commanded both, and
      the operator configured at that moment signed. */
  lemma EarlyExecutionsAreApproved(key: Key32, config: GovernanceConfig, txs: seq<Transaction>, j: nat)
    returns (scheduling: nat, approving: nat, executing: nat, scheduled: nat, approved: nat)
    requires config.Valid()
    requires j < |After(key, config, txs).log| && After(key, config, txs).log[j].OperatorExecuted?
    ensures scheduled < j && approved < j && ApprovedEarly(After(key, config, txs).log, scheduled, approved, j)
    ensures scheduling < executing < |txs| && approving < executing
    ensures var d := After(key, config, txs).log[j].proposal;
      && Commands(After(key, config, txs[..scheduling]), txs[scheduling], Command.ScheduleTimelockProposal, d)
      && Commands(After(key, config, txs[..approving]), txs[approving], Command.ApproveOperatorProposal, d)
      && txs[executing].instruction.ExecuteOperatorProposal? && txs[executing].instruction.proposal == d
      && txs[executing].instruction.signer == After(key, config, txs[..executing]).config.operator
  {
    var start := InitializeConfig(key, config).value;
    scheduled, approved := ApprovalsAreLogged(key, config, txs, j);
    scheduling := EventsComeFromTransactions(start, txs, scheduled);
    approving := EventsComeFromTransactions(start, txs, approved);
    executing := EventsComeFromTransactions(start, txs, j);
    EventsKeepTheOrder(start, txs, scheduled, j, scheduling, executing);
    EventsKeepTheOrder(start, txs, approved, j, approving, executing);
  }

  // ---------- Approvals that outlive their proposal ----------

  // The hash is marked for the operator though no proposal with it is live.
  predicate Orphaned(s: State, h: Hash) {
    h in s.markers && h !in s.proposals
  }

  // The transaction asks to close the proposal with this hash and leave the markers alone.
  predicate AsksToClose(tx: Transaction, h: Hash) {
    match tx.instruction
    case ProcessGmp(c) => c.command == Command.CancelTimelockProposal && Preimage(c.proposal) == Some(h)
    case ExecuteProposal(d, _) => Preimage(d) == Some(h)
    case _ => false
  }

  /** An approval is orphaned exactly when a cancellation or a timelock execution of its proposal goes through: no other
      step orphans one, and each of those does if the hash was marked before it. */
  lemma OrphansComeFromClosing(s: State, tx: Transaction, h: Hash)
    requires !Orphaned(s, h)
    ensures Orphaned(Step(s, tx), h) <==> h in s.markers && AsksToClose(tx, h) && Execute(s, tx).Ok?
  {
    if Execute(s, tx).Ok? {
      match tx.instruction
      case ProcessGmp(c) => CommandOrphans(s, c, tx.now, h);
      case _ =>
    }
  }

  lemma CommandOrphans(s: State, c: GmpCommand, now: i64, h: Hash)
    requires !Orphaned(s, h) && ProcessGmpSpec(s, c, now).Ok?
    ensures Orphaned(ProcessGmpSpec(s, c, now).value, h)
      <==> h in s.markers && c.command == Command.CancelTimelockProposal && Preimage(c.proposal) == Some(h)
  {}

  /** A fresh schedule can be run by the operator at once, without a new approval, if and only if its hash was already
      marked when it was scheduled. */
  lemma FreshProposalsNeedApproval(s: State, d: ExecuteProposalData, hash: Hash, eta: u64, now: i64, call: Call)
    requires Preimage(d) == Some(hash) && ScheduleSpec(s, d, hash, eta, now).Ok?
    requires MakeCall(s, d, call).Ok?
    ensures var scheduled := ScheduleSpec(s, d, hash, eta, now).value;
      ExecuteOperatorSpec(scheduled, d, s.config.operator, call).Ok? <==> hash in s.markers
  {
    var scheduled := ScheduleSpec(s, d, hash, eta, now).value;
    assert CheckPresence(scheduled, d, call) == CheckPresence(s, d, call);
    assert PayNativeValue(scheduled, d, call) == PayNativeValue(s, d, call);
  }

  lemma ThreeSteps(s: State, a: Transaction, b: Transaction, c: Transaction)
    ensures Run(s, [a, b, c]) == Step(Step(Step(s, a), b), c)
  {
    assert [a, b, c][..2] == [a, b] && [a, b][..1] == [a] && [a][..0] == [];
    assert Run(s, [a]) == Step(s, a);
    assert Run(s, [a, b]) == Step(Step(s, a), b);
  }

  // A proposal that pays nothing and calls some program with the configuration account.
  function SmallProposal(key: Key32): ExecuteProposalData {
    ExecuteProposalData(Zeros(32), CallData([AccountMeta(key, false, false)], None, []), Zeros(32))
  }

  lemma ZeroIsFree(b: Key32)
    requires AllZero(b)
    ensures CheckedFromU256LeBytesToU64(b) == Ok(0)
  {
    ZeroBytesAddNothing(b, 0);
    assert b[..0] == [] && b[0..] == b;
    ConversionIsExact(b);
  }

  lemma FreeProposalsRun(s: State, d: ExecuteProposalData, call: Call)
    requires AllZero(d.nativeValue) && call == Call([s.key, d.targetAddress], true)
    requires exists a :: a in d.callData.solanaAccounts && a.pubkey == s.key
    ensures MakeCall(s, d, call) == Ok(s.funds)
  {
    ZeroIsFree(d.nativeValue);
  }

  /** So a marker need not imply a live proposal: schedule, approve, execute after the timelock, and the approval is
      still there for the next schedule of the same proposal. */
  lemma ApprovalsCanOutliveProposals(key: Key32, config: GovernanceConfig) returns (txs: seq<Transaction>)
    requires config.Valid()
    ensures Preimage(SmallProposal(key)).Some? && Orphaned(After(key, config, txs), Preimage(SmallProposal(key)).value)
  {
    var d, call := SmallProposal(key), Call([key, Zeros(32)], true);
    var hash, start := Preimage(d).value, InitializeConfig(key, config).value;
    var schedule := SmallCommand(config, ScheduleTimelockProposal, d);
    var approve := SmallCommand(config, ApproveOperatorProposal, d);
    var execute := Transaction(ExecuteProposal(d, call), config.minimumProposalEtaDelay);
    txs := [schedule, approve, execute];
    ThreeSteps(start, schedule, approve, execute);
    var scheduled := ScheduledSmall(start, d, hash);
    var approved := ApprovedSmall(scheduled, d, hash);
    assert d.callData.solanaAccounts[0] in d.callData.solanaAccounts;
    FreeProposalsRun(approved, d, call);
  }

  function SmallCommand(config: GovernanceConfig, command: Command, d: ExecuteProposalData): Transaction {
    Transaction(ProcessGmp(GmpCommand(config.chain, config.address, command, d, 0)), 0)
  }

  lemma ScheduledSmall(s: State, d: ExecuteProposalData, hash: Hash) returns (after: State)
    requires Preimage(d) == Some(hash) && s.config.Valid() && s.proposals == map[] && s.markers == {}
    ensures after == Step(s, SmallCommand(s.config, ScheduleTimelockProposal, d))
    ensures after.proposals == map[hash := s.config.minimumProposalEtaDelay] && after.markers == {}
    ensures after.config == s.config && after.key == s.key
  {
    after := Step(s, SmallCommand(s.config, ScheduleTimelockProposal, d));
  }

  lemma ApprovedSmall(s: State, d: ExecuteProposalData, hash: Hash) returns (after: State)
    requires Preimage(d) == Some(hash) && hash in s.proposals && s.markers == {}
    ensures after == Step(s, SmallCommand(s.config, ApproveOperatorProposal, d))
    ensures after.proposals == s.proposals && after.markers == {hash} && after.config == s.config && after.key == s.key
  {
    after := Step(s, SmallCommand(s.config, ApproveOperatorProposal, d));
  }
}
