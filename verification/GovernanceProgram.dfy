// Governance as the program runs it: accounts created, closed and updated in place.
module GovernanceProgram {
  import opened Prelude
  import opened Bytes
  import opened ProposalHash
  import opened Governance

  // The configuration account, whose update writes the fields first and validates them afterwards.
  class ConfigAccount {
    var chain: string
    var address: string
    var minimumProposalEtaDelay: u32
    var operator: Key32

    function View(): GovernanceConfig
      reads this
    {
      GovernanceConfig(chain, address, minimumProposalEtaDelay, operator)
    }

    constructor (c: GovernanceConfig)
      ensures View() == c
    {
      chain, address, minimumProposalEtaDelay, operator := c.chain, c.address, c.minimumProposalEtaDelay, c.operator;
    }

    method ValidateConfig() returns (r: Result<(), GovernanceError>)
      ensures r == if View().Valid() then Ok(()) else Err(InvalidArgument)
    {
      r := if MIN_DELAY <= minimumProposalEtaDelay <= MAX_DELAY then Ok(()) else Err(InvalidArgument);
    }

    method Update(update: ConfigUpdate) returns (r: Result<(), GovernanceError>)
      modifies this
      ensures View() == Updated(old(View()), update)
      ensures r == if View().Valid() then Ok(()) else Err(InvalidArgument)
    {
      if update.chain.Some? {
        chain := update.chain.value;
      }
      if update.address.Some? {
        address := update.address.value;
      }
      if update.minimumProposalEtaDelay.Some? {
        minimumProposalEtaDelay := update.minimumProposalEtaDelay.value;
      }
      r := ValidateConfig();
    }
  }

  class AxelarGovernance {
    const key: Key32
    var config: GovernanceConfig
    var proposals: map<Hash, u64>
    var markers: set<Hash>
    var funds: nat
    var log: seq<Event>

    function View(): State
      reads this
    {
      State(key, config, proposals, markers, funds, log)
    }

    constructor (key: Key32, config: GovernanceConfig)
      requires config.Valid()
      ensures InitializeConfig(key, config) == Ok(View())
    {
      this.key, this.config := key, config;
      proposals, markers, funds, log := map[], {}, 0, [];
    }

    // ---------- Commands of the governance contract ----------

    method ScheduleTimelockProposal(d: ExecuteProposalData, hash: Hash, eta: u64, now: i64)
      returns (r: Result<(), GovernanceError>)
      modifies this`proposals, this`log
      ensures Follows(old(View()), View(), r, ScheduleSpec(old(View()), d, hash, eta, now))
    {
      if hash in proposals {
        return Err(AccountAlreadyInUse);
      }
      var delay := config.minimumProposalEtaDelay;
      var finalEta := AtLeastDefaultEtaDelay(eta, delay, now);
      if finalEta.Err? {
        return Err(finalEta.error);
      }
      proposals := proposals[hash := finalEta.value];
      log := log + [Scheduled(d, AsU64(now), delay, finalEta.value)];
      r := Ok(());
    }

    method CancelTimelockProposal(d: ExecuteProposalData, hash: Hash, eta: u64) returns (r: Result<(), GovernanceError>)
      modifies this`proposals, this`log
      ensures Follows(old(View()), View(), r, CancelSpec(old(View()), d, hash, eta))
    {
      if hash !in proposals {
        return Err(AccountNotInitialized);
      }
      if eta != proposals[hash] {
        return Err(InvalidArgument);
      }
      proposals := proposals - {hash};
      log := log + [Cancelled(d)];
      r := Ok(());
    }

    method ApproveOperatorProposal(d: ExecuteProposalData, hash: Hash) returns (r: Result<(), GovernanceError>)
      modifies this`markers, this`log
      ensures Follows(old(View()), View(), r, ApproveOperatorSpec(old(View()), d, hash))
    {
      if hash !in proposals {
        return Err(AccountNotInitialized);
      }
      if hash in markers {
        return Err(AccountAlreadyInUse);
      }
      markers := markers + {hash};
      log := log + [OperatorApproved(d)];
      r := Ok(());
    }

    method CancelOperatorProposal(d: ExecuteProposalData, hash: Hash) returns (r: Result<(), GovernanceError>)
      modifies this`markers, this`log
      ensures Follows(old(View()), View(), r, CancelOperatorSpec(old(View()), d, hash))
    {
      if hash !in proposals || hash !in markers {
        return Err(AccountNotInitialized);
      }
      markers := markers - {hash};
      log := log + [OperatorCancelled(d)];
      r := Ok(());
    }

    method ProcessGmp(c: GmpCommand, now: i64) returns (r: Result<(), GovernanceError>)
      modifies this`proposals, this`markers, this`log
      ensures Follows(old(View()), View(), r, ProcessGmpSpec(old(View()), c, now))
    {
      if c.sourceAddress != config.address {
        return Err(UnauthorizedAddress);
      }
      if c.sourceChain != config.chain {
        return Err(UnauthorizedChain);
      }
      var hash := Preimage(c.proposal);
      if hash.None? {
        return Err(SerializationPanic);
      }
      if c.eta > U64_MAX {
        return Err(InvalidInstructionData);
      }
      match c.command {
        case ScheduleTimelockProposal => r := ScheduleTimelockProposal(c.proposal, hash.value, c.eta, now);
        case CancelTimelockProposal => r := CancelTimelockProposal(c.proposal, hash.value, c.eta);
        case ApproveOperatorProposal => r := ApproveOperatorProposal(c.proposal, hash.value);
        case CancelOperatorProposal => r := CancelOperatorProposal(c.proposal, hash.value);
      }
    }

    // ---------- Execution ----------

    method ManualLamportTransfer(d: ExecuteProposalData, accounts: seq<Key32>, value: u64)
      returns (r: Result<(), GovernanceError>)
      modifies this`funds
      ensures match d.callData.solanaNativeValueReceiverAccount
        case None => r == Err(MissingNativeValueReceiver) && funds == old(funds)
        case Some(receiver) =>
          if receiver.pubkey !in accounts then r == Err(TargetAccountNotFound) && funds == old(funds)
          else if old(funds) < value then r == Err(InsufficientFunds) && funds == old(funds)
          else r == Ok(()) && funds == old(funds) - if receiver.pubkey == key then 0 else value
    {
      var receiver := d.callData.solanaNativeValueReceiverAccount;
      if receiver.None? {
        return Err(MissingNativeValueReceiver);
      }
      var i := 0;
      while i < |accounts| && accounts[i] != receiver.value.pubkey
        invariant i <= |accounts|
        invariant receiver.value.pubkey !in accounts[..i]
      {
        i := i + 1;
      }
      if i == |accounts| {
        assert accounts[..i] == accounts;
        return Err(TargetAccountNotFound);
      }
      if funds < value {
        return Err(InsufficientFunds);
      }
      funds := funds - value;
      if accounts[i] == key {
        funds := funds + value;
      }
      r := Ok(());
    }

    // Pays and calls; a failed call takes the payment back.
    method ExecuteProposalCpi(d: ExecuteProposalData, call: Call) returns (r: Result<(), GovernanceError>)
      modifies this`funds
      ensures var made := MakeCall(old(View()), d, call);
        if made.Ok? then r == Ok(()) && funds == made.value else r == Err(made.error) && funds == old(funds)
    {
      var present := CheckPresence(View(), d, call);
      if present.Err? {
        return Err(present.error);
      }
      var value := CheckedFromU256LeBytesToU64(d.nativeValue);
      if value.Err? {
        return Err(value.error);
      }
      var before := funds;
      if value.value > 0 {
        r := ManualLamportTransfer(d, call.accounts, value.value);
        if r.Err? {
          return;
        }
      }
      if !call.succeeds {
        funds := before;
        return Err(CallFailed);
      }
      r := Ok(());
    }

    method ExecuteProposal(d: ExecuteProposalData, call: Call, now: i64) returns (r: Result<(), GovernanceError>)
      modifies this`proposals, this`funds, this`log
      ensures Follows(old(View()), View(), r, ExecuteTimelockSpec(old(View()), d, call, now))
    {
      var hash := Preimage(d);
      if hash.None? {
        return Err(SerializationPanic);
      }
      if hash.value !in proposals {
        return Err(AccountNotInitialized);
      }
      if now < 0 {
        return Err(TimestampPanic);
      }
      if now < proposals[hash.value] {
        return Err(ProposalNotReady);
      }
      r := ExecuteProposalCpi(d, call);
      if r.Ok? {
        proposals := proposals - {hash.value};
        log := log + [TimelockExecuted(d, now)];
      }
    }

    method ExecuteOperatorProposal(d: ExecuteProposalData, signer: Key32, call: Call)
      returns (r: Result<(), GovernanceError>)
      modifies this`proposals, this`markers, this`funds, this`log
      ensures Follows(old(View()), View(), r, ExecuteOperatorSpec(old(View()), d, signer, call))
    {
      var hash := Preimage(d);
      if hash.None? {
        return Err(SerializationPanic);
      }
      if hash.value !in proposals {
        return Err(AccountNotInitialized);
      }
      if signer != config.operator {
        return Err(UnauthorizedOperator);
      }
      if hash.value !in markers {
        return Err(AccountNotInitialized);
      }
      r := ExecuteProposalCpi(d, call);
      if r.Ok? {
        proposals := proposals - {hash.value};
        markers := markers - {hash.value};
        log := log + [OperatorExecuted(d, signer)];
      }
    }

    // ---------- Configuration ----------

    method UpdateConfig(signer: Key32, update: ConfigUpdate) returns (r: Result<(), GovernanceError>)
      modifies this`config
      ensures Follows(old(View()), View(), r, UpdateConfigSpec(old(View()), signer, update))
    {
      if signer != config.operator {
        return Err(NotOperator);
      }
      var account := new ConfigAccount(config);
      r := account.Update(update);
      if r.Ok? {
        config := account.View();
      }
    }

    method TransferOperatorship(signer: Option<Key32>, governanceSigns: bool, newOperator: Key32)
      returns (r: Result<(), GovernanceError>)
      modifies this`config
      ensures Follows(old(View()), View(), r, TransferOperatorshipSpec(old(View()), signer, governanceSigns,
          newOperator))
    {
      if signer.Some? && signer.value != config.operator {
        return Err(MissingRequiredSignature);
      }
      if signer.None? && !governanceSigns {
        return Err(MissingRequiredSignature);
      }
      config := config.(operator := newOperator);
      r := Ok(());
    }
  }
}
