# Axelar on Solana: a verified model

This project models the Solana programs of the Axelar network in Dafny and proves what they promise over whole runs:
which messages the gateway lets through, what the token service does to tokens and roles, and what governance may
execute and when.

- **Gateway.** Verifier sets are registered under the Merkle root of their members. Sessions collect weighted signatures
  in a 256-bit field; a complete session approves messages or rotates the set. (`Merkle`, `Hasher`, `AxelarStd`,
  `VerificationSession`, `Gateway`, `GatewayRuns`, `GatewaySafety`, `GatewayInstructions`, `GatewayLiveness`)
- **Token service.** Five kinds of token managers lock, release, mint and burn tokens, with transfer fees, six-hour flow
  limits and role masks. (`TokenLedger`, `FlowLimits`, `UserRoles`, `TokenService`, `TokenServiceProgram`,
  `TokenServiceRuns`, `TokenServiceLedger`, `TokenServiceBalances`, `TokenServiceSafety`, `TokenServiceFlows`,
  `TokenServiceRoles`, `TokenServiceInstructions`)
- **Governance.** Proposals wait for a timelock unless the operator has an approval. (`Governance`, `GovernanceProgram`,
  `GovernanceRuns`, `GovernanceSafety`)
- **Byte formats.** Payloads that carry accounts, the bytes a proposal is hashed from, and truncation of UTF-8 text.
  (`Bytes`, `Payload`, `PayloadLayout`, `ProposalHash`, `ProposalLayout`, `Utf8`)

## How it is built

For each program there is a state (a map per kind of account, keyed the way its addresses are derived, and a log of
events), a specification function per instruction that returns the new state or the error, and a class whose methods
update the accounts in place. Every method is proved to do what its specification function says (`Prelude.Follows`): the
new state on success, nothing on failure, since the runtime undoes a failed transaction. Whole runs are sequences of any
instructions, failed ones included; the theorems hold for every run from initialization and speak about the log, the
accounts and the transactions of the run. What a specification function says is pinned down twice more without naming
it: by exactly when each instruction goes through and exactly what it changes, and by what follows over whole runs. Every
event is traced to the transaction that logged it, so times and payees are those of the transactions, not of the log
alone; formats are given byte by byte. `dafny verify dfyconfig.toml` checks the whole project.

## Assumptions

- Hashes are symbolic: injective, with leaves and inner nodes disjoint. A signature is symbolic too: it tells its signer
  and what was signed. Where a hash is only used as a key (command ids, proposal hashes, chain and address hashes), the
  hashed text stands for it; `ProposalHash` and `Hasher` prove what that needs of the bytes.
- The tree library `rs_merkle` is not part of the repository. It is modelled layer by layer on top of `concat_and_hash`:
  a tree of one leaf still has one inner layer, surplus helper hashes of a proof are ignored, and missing ones reject it.
- The ABI decoder of `alloy` is not part of the repository either. It is modelled after the section "Formal Specification
  of the Encoding" of the Solidity Contract ABI Specification: offsets from the start of the encoding, offsets and
  lengths that fit the machine's addresses, zero padding, nothing demanded of bytes no offset points to.
- The token programs move what they are asked to, less a fee of at most that amount; each owner has one token account per
  mint. Everyone who can sign may move, mint, burn and hand over authorities at any time; addresses derived from the
  token service sign only through it.
- The clock of the gateway does not go back. Other theorems need no clock assumption, or name the epoch they speak about.

## Where code and comments differ

The code is followed.

- `verification_session.rs:249-253` says the set hash is stored with the first signature; the code stores it when the
  session is opened (`initialize_payload_verification_session.rs:60-63`).
- `payload/mod.rs:17-24` says accounts come first; both schemes encode the payload first.
- `token_manager.rs:134` says the fee-taking locking type is not supported; the code supports it throughout.

## Properties that fail, and when

- A marker need not imply a live proposal (`ApprovalsCanOutliveProposals`). It is orphaned exactly when a cancellation or
  a timelock execution of its proposal goes through while the hash is marked (`OrphansComeFromClosing`), and a later
  schedule can skip its delay without a new approval exactly when its hash was still marked
  (`FreshProposalsNeedApproval`).
- A command id need not determine the chain and the id it joins (`CommandIdsCanCoincide`). It does if and only if neither
  contains a dash (`CommandIdsAreUnambiguousWithoutDashes`). Of messages that share an id only the first is ever
  approved (`CollidingMessagesAreNeverApproved`, `EncodedBatchesAreApproved`), so authenticity is stated per command id
  and about the whole message.
- The flow limits do not bound a window of k epochs by k limits, since it may first give back the net flow it finds. They
  do if and only if it finds none (`LimitsAloneBoundTheWindow`); what always holds is the bound of k limits on the two
  together (`WindowBound`), and it is reached (`WindowBoundIsTight`).

What a locking transfer counts is what the vault gains if and only if the manager type supports the mint or no fee is
taken (`LockedAmountIsExact`). That is why registration checks the mint: no registered manager ever fails it
(`VaultsAddUp`).

## Model

| member | source | states |
|---|---|---|
| Hasher.Concatenate | crates/solana-axelar-std/src/hasher.rs:25-32 | fills the 65 bytes in place with the prefix, the left hash, and the right hash or the left one again |
| Hasher.NodesMatchTheirBytes | crates/solana-axelar-std/src/hasher.rs:25-32 | without collisions, symbolic inner nodes are equal if and only if the same 65 bytes are hashed for them |
| Merkle.ProofVerifies | crates/solana-axelar-std/src/execute_data.rs:258-269 | completeness: the proof generated for any index of any non-empty leaf list verifies against its root |
| Merkle.VerifiedIsALeaf | crates/solana-axelar-std/src/hasher.rs:16-32 | soundness despite odd-node duplication: content that verifies as a leaf, at whatever index and leaf count is claimed, is in the list |
| Merkle.VerifiedLeafIsTheOneAtItsPosition | crates/solana-axelar-std/src/hasher.rs:25-32 | and it is exactly the leaf at that position |
| Merkle.EqualRootsMeanEqualLeaves | crates/solana-axelar-std/src/hasher.rs:25-32 | binding: leaf lists that carry position and set size and have equal roots are equal |
| Merkle.DuplicationAloneDoesNotBind | crates/solana-axelar-std/src/hasher.rs:20-22 | without the set size in the leaves, [a,b,c] and [a,b,c,c] share a root |
| AxelarStd.SetMembership | crates/solana-axelar-std/src/verifier_set.rs:101-139 | a leaf that verifies against a verifier set hash is the member of that set at its position, with its weight, quorum and domain |
| AxelarStd.MessageMembership | crates/solana-axelar-std/src/message.rs:88-110 | a leaf that verifies against a message root is the message of that batch at its position |
| AxelarStd.VerifierSetHashIsInjective | crates/solana-axelar-std/src/verifier_set.rs:101-139 | equal verifier set hashes mean the same set and the same domain separator |
| AxelarStd.MessagesRootIsInjective | crates/solana-axelar-std/src/message.rs:88-110 | equal message roots mean the same batch in the same order and the same domain separator |
| AxelarStd.EncodeSucceedsIff | crates/solana-axelar-std/src/execute_data.rs:102-151 | encoding fails exactly on an empty or oversized set or batch; position conversions never fail |
| AxelarStd.SignerInfosAreEmittedInOrder | crates/solana-axelar-std/src/execute_data.rs:115-135 | the emitted signer infos are exactly the leaves of those who signed, once each, in leaf order, each with its own proof |
| AxelarStd.EncodedProofsVerify | crates/solana-axelar-std/src/execute_data.rs:219-269 | every proof the encoder emits verifies, for signers and for messages |
| VerificationSession.SignatureVerificationSession.CheckSlotIsDone | programs/solana-axelar-gateway/src/state/verification_session.rs:165-181 | reads the bit of a position, and rejects positions beyond the 256 bits |
| VerificationSession.SignatureVerificationSession.MarkSlotDone | programs/solana-axelar-gateway/src/state/verification_session.rs:183-199 | sets that bit in place and no other |
| VerificationSession.SignatureVerificationSession.AccumulateThreshold | programs/solana-axelar-gateway/src/state/verification_session.rs:201-213 | saturating addition, and the jump to the maximum once the quorum is met |
| VerificationSession.SignatureVerificationSession.ProcessSignature | programs/solana-axelar-gateway/src/state/verification_session.rs:86-126 | accepts or rejects a signature as specified and leaves a rejected session untouched |
| VerificationSession.MarkSlotAddsPosition | programs/solana-axelar-gateway/src/state/verification_session.rs:183-199 | marking adds exactly one position to the set the bit field stands for |
| VerificationSession.DoneSlotsDetermineSlots | programs/solana-axelar-gateway/src/state/verification_session.rs:165-199 | the set of done positions determines the 32 bytes |
| VerificationSession.SlotsAreBits | programs/solana-axelar-gateway/src/state/verification_session.rs:165-199 | the slot of a position is bit position % 8, from the lowest, of byte position / 8 |
| VerificationSession.SlotsAreThePositions | programs/solana-axelar-gateway/src/state/verification_session.rs:86-126 | the done slots of a session are exactly the positions of the signatures it accepted, whatever its set hash stands for |
| VerificationSession.AcceptedExactlyWhenDistinct | programs/solana-axelar-gateway/src/state/verification_session.rs:86-126 | from a fresh session a sequence of signatures is accepted in full if and only if each is acceptable on its own and no position repeats |
| VerificationSession.QuorumIsExact | programs/solana-axelar-gateway/src/state/verification_session.rs:201-259 | after any accepted sequence the session is valid if and only if it is non-empty and the unbounded sum of its weights meets the quorum; the bit field is the set of accepted positions, and the signers are distinct keys when the set is a map from keys |
| VerificationSession.OrderDoesNotMatter | programs/solana-axelar-gateway/src/state/verification_session.rs:86-126 | every order of the same signatures is accepted alike and ends in the same session state |
| VerificationSession.EncodedSessionSucceeds | crates/solana-axelar-std/src/execute_data.rs:102-151 | feeding everything the encoder emitted with valid signatures to a fresh session succeeds and makes it valid exactly when the signed weight meets the quorum |
| Gateway.GatewayProgram.constructor | programs/solana-axelar-gateway/src/instructions/initialize_config.rs:54-80 | initial configuration and the first tracker with epoch 1 |
| Gateway.GatewayProgram.RotateSigners | programs/solana-axelar-gateway/src/instructions/rotate_signers.rs:13-148 | the rotation step with every constraint: session, epoch, duplicate, operator or delay, clock |
| Gateway.GatewayProgram.InitializePayloadVerificationSession | programs/solana-axelar-gateway/src/instructions/initialize_payload_verification_session.rs:10-66 | opens a session for a set within retention, storing the set hash at once |
| Gateway.GatewayProgram.VerifySignature | programs/solana-axelar-gateway/src/instructions/verify_signature.rs:8-62 | checks domain and epoch and hands the signature to the session |
| Gateway.GatewayProgram.ApproveMessage | programs/solana-axelar-gateway/src/instructions/approve_message.rs:13-114 | approves a leaf of a complete approval session once per command id |
| Gateway.GatewayProgram.ValidateCallerPda | programs/solana-axelar-gateway/src/instructions/validate_message.rs:66-87 | only the signing account of the destination program and this command id may execute |
| Gateway.GatewayProgram.ValidateMessage | programs/solana-axelar-gateway/src/instructions/validate_message.rs:13-64 | turns an approved message that matches its hash into an executed one |
| Gateway.GatewayProgram.TransferOperatorship | programs/solana-axelar-gateway/src/instructions/transfer_operatorship.rs:9-50 | operator or upgrade authority hands the operator role over |
| GatewayRuns.RunKeepsInv | programs/solana-axelar-gateway/src/instructions/rotate_signers.rs:73-139 | in every run from initialization every event is justified by the log before it, and accounts and log agree |
| GatewaySafety.ExecutedMessagesAreAuthentic | programs/solana-axelar-gateway/src/instructions/validate_message.rs:14-64 | whole-run authenticity: an executed message equals the one approved message of its command id, a leaf of a root an approval session vouched for with at least the quorum from distinct members and keys of a set, each accepted within retention; executed and approved once, and executed by the signing account of its destination program |
| GatewaySafety.ExecutedMessagesComeFromTheBatch | programs/solana-axelar-gateway/src/instructions/approve_message.rs:48-114 | if the signed root is that of a batch, the executed message is the batch message at the position of its leaf |
| GatewaySafety.CommandIdsCanCoincide | crates/solana-axelar-std/src/message.rs:47-52 | different chain and id pairs can share a command id |
| GatewaySafety.CommandIdsAreUnambiguousWithoutDashes | crates/solana-axelar-std/src/message.rs:47-52 | a command id determines chain and id if and only if neither contains a dash |
| GatewaySafety.CollidingMessagesAreNeverApproved | programs/solana-axelar-gateway/src/instructions/approve_message.rs:21-36 | once a command id is in use no message that shares it is ever approved; with a complete session the attempt ends in AccountAlreadyInUse |
| GatewaySafety.MessagesOnlyAdvance | programs/solana-axelar-gateway/src/instructions/validate_message.rs:42-64 | a command id only goes absent, approved, executed, one stage at a time, with its hashes fixed |
| GatewaySafety.RotationsAreAuthorised | programs/solana-axelar-gateway/src/instructions/rotate_signers.rs:21-130 | every tracker above epoch 1 was put in place by a completed rotation session of a set within retention, the latest one whenever the delay was enforced; approval sessions never count |
| GatewaySafety.EverySetDescendsFromTheFirst | programs/solana-axelar-gateway/src/instructions/rotate_signers.rs:73-139 | a chain of authorised rotations leads from the initial set to every registered one |
| GatewaySafety.EpochsNumberTheSets | programs/solana-axelar-gateway/src/state/config.rs:42-52 | epochs are a bijection onto 1..current, the subtraction never underflows, exactly min(retention, current epoch) sets are valid |
| GatewaySafety.ExpiredStaysExpired | programs/solana-axelar-gateway/src/state/config.rs:42-52 | an expired set never becomes valid again |
| GatewaySafety.EnforcedRotationsKeepTheirDistance | programs/solana-axelar-gateway/src/instructions/rotate_signers.rs:89-148 | m delay-enforced rotations span at least m - 1 minimum delays and end at least m delays after initialization, whatever operator rotations lie between |
| GatewaySafety.ClockNeverUnderflows | programs/solana-axelar-gateway/src/instructions/rotate_signers.rs:141-148 | the elapsed-time expectation cannot fail while the clock does not go back |
| GatewayInstructions.ApprovedMessagesExecute | programs/solana-axelar-gateway/src/instructions/validate_message.rs:13-87 | from any state: a message executes if and only if its command id is approved with this very message, its destination reads as a key and the caller is the signing account of that program and command id; nothing else changes |
| GatewayInstructions.MessagesExecuteExactlyWhenApproved | programs/solana-axelar-gateway/src/instructions/validate_message.rs:13-87 | in every run: if and only if this very message was approved, its command id not executed, and its destination asks |
| GatewayInstructions.MessagesAreApprovedExactlyWhenSigned | programs/solana-axelar-gateway/src/instructions/approve_message.rs:13-114 | in every run a message is approved if and only if the log completes an approval session over the root, its command id is new and its leaf, of this domain, is proved part of the root; only its account changes |
| GatewayInstructions.SessionsOpenExactlyWhenRetained | programs/solana-axelar-gateway/src/instructions/initialize_payload_verification_session.rs:10-66 | in every run a session opens if and only if its set is within retention and the payload has none yet; it starts with no weight and 32 zero bytes |
| GatewayInstructions.SignaturesAreTakenExactlyOnce | programs/solana-axelar-gateway/src/instructions/verify_signature.rs:8-62 | in every run a signature is taken if and only if the session is open, its set within retention, it is genuine and of this domain, and no signature of that position was taken before; the session grows by exactly it |
| GatewayInstructions.RotationsGoThroughExactlyWhenDue | programs/solana-axelar-gateway/src/instructions/rotate_signers.rs:13-148 | in every run a rotation goes through if and only if the log completes its session, the signing set is within retention, the new one unknown, and the operator signs or the latest set has waited; it gets the next epoch and nothing else changes |
| GatewayInstructions.OperatorshipIsHandedOver | programs/solana-axelar-gateway/src/instructions/transfer_operatorship.rs:9-50 | the operator or the upgrade authority, nobody else, names a different operator; nothing else changes |
| GatewayInstructions.OperatorsAreAppointed | programs/solana-axelar-gateway/src/instructions/transfer_operatorship.rs:9-50 | in every run the operator is the first one or was appointed with the signature of the operator before him or the upgrade authority |
| GatewayInstructions.EventsComeFromTransactions | programs/solana-axelar-gateway/src/instructions/rotate_signers.rs:107-139 | every event of a run was logged by one of its transactions, with that transaction's own arguments and clock |
| GatewayInstructions.RotationsWaitByTheClock | programs/solana-axelar-gateway/src/instructions/rotate_signers.rs:89-148 | by the clock of the transactions, m rotations without the operator take at least m delays from initialization and m - 1 from the first to the last |
| GatewayLiveness.EncodedSessionsComplete | crates/solana-axelar-std/src/execute_data.rs:102-151 | opening a session and sending every signature the encoder emitted for an honestly signed payload completes it and changes nothing else |
| GatewayLiveness.EncodedBatchesAreApproved | crates/solana-axelar-std/src/execute_data.rs:102-151 | end to end: after approving every item of an honestly signed batch, a message with a new command id is approved as encoded if and only if it is the first of the batch with that id |
| GatewayLiveness.EncodedMessagesAreExecuted | programs/solana-axelar-gateway/src/instructions/validate_message.rs:13-64 | end to end: when every destination program then asks, a message with a new command id is executed with its hashes if and only if it is the first of the batch with that id and addressed to a program |
| GatewayLiveness.EncodedRotationsSucceed | crates/solana-axelar-std/src/execute_data.rs:240-256 | end to end: an honestly signed verifier set is rotated in if and only if it is new and the operator signs, or the signing set is the latest and the delay has passed |
| FlowLimits.FlowSlot.UpdateFlow | programs/solana-axelar-its/src/state/flow_state.rs:45-79 | the transfer, the counter and the net flow must all stay within bounds, with the right error otherwise |
| FlowLimits.FlowSlot.AddFlow | programs/solana-axelar-its/src/state/flow_state.rs:32-43 | adds to the counter of the direction, or nothing without a limit |
| FlowLimits.FlowSlot.Track | programs/solana-axelar-its/src/instructions/interchain_token/interchain_transfer.rs:364-394 | resets lazily on a new six-hour epoch, then adds |
| FlowLimits.TrackedExactlyWhenItFits | programs/solana-axelar-its/src/state/flow_state.rs:32-99 | a transfer is tracked if and only if it fits: no limit, or amount, counter and net flow within bounds, from zero in a new epoch of 21600 seconds; then it counts in its direction |
| FlowLimits.TrackedStaysWithinLimit | programs/solana-axelar-its/src/state/flow_state.rs:32-79 | after every tracked transfer the net flow is within the limit, and so was the transfer |
| FlowLimits.FirstLimitStartsWithinItself | programs/solana-axelar-its/src/state/flow_state.rs:23-43 | transfers made without a limit are ignored, so a limit set for the first time starts within itself |
| FlowLimits.SharpWindowBound | programs/solana-axelar-its/src/state/flow_state.rs:32-99 | while the limit stays the same, what a window touching k epochs bridges, together with the net flow it starts from, is within k - 1 limits and the larger of the limit and that start |
| FlowLimits.WindowBound | programs/solana-axelar-its/src/state/flow_state.rs:32-99 | so within k limits together with a start inside the limit, within k + 1 limits by itself, and within k limits if the start is zero |
| FlowLimits.StartsWithoutNetFlow | programs/solana-axelar-its/src/state/flow_state.rs:45-99 | the start is zero exactly when the first epoch is new or its two counters are equal |
| FlowLimits.WindowBoundIsTight | programs/solana-axelar-its/src/state/flow_state.rs:32-99 | for every limit, start, first epoch and k that leave the counters room, some window bridges exactly k limits against its start |
| FlowLimits.LimitsAloneBoundTheWindow | programs/solana-axelar-its/src/state/flow_state.rs:32-99 | k limits bound every window of k epochs by itself if and only if the first epoch starts with no net flow |
| UserRoles.MasksAreSets | programs/solana-axelar-its/src/state/user_roles.rs:26-56 | insert, remove and contains are union, difference and inclusion of role sets, and a mask is zero exactly when the set is empty |
| UserRoles.OneRolePerBit | programs/solana-axelar-its/src/state/user_roles.rs:67-78 | each role constant stands for exactly one role |
| UserRoles.BitsOfRoles | programs/solana-axelar-its/src/state/user_roles.rs:67-78 | bit 1 is the minter, bit 2 the operator, bit 4 the flow limiter |
| UserRoles.UserRolesAccount.Add | programs/solana-axelar-its/src/state/user_roles.rs:50-52 | sets the bits of a role in the account |
| UserRoles.UserRolesAccount.Drop | programs/solana-axelar-its/src/state/user_roles.rs:54-56 | clears the bits of a role in the account |
| TokenLedger.TransfersKeepTheSupplyBacked | programs/solana-axelar-its/src/instructions/interchain_token/interchain_transfer.rs:308-362 | the assumed token programs never lose or create units: holders and withheld fees always make up the supply |
| TokenServiceProgram.InterchainTokenService.constructor | programs/solana-axelar-its/src/instructions/config/initialize.rs:56-78 | the service starts with its operator as the only holder of a role |
| TokenServiceProgram.InterchainTokenService.InitTokenManager | programs/solana-axelar-its/src/state/token_manager.rs:74-88 | creates manager and roles account, and fails if either exists |
| TokenServiceProgram.InterchainTokenService.RegisterCanonicalInterchainToken | programs/solana-axelar-its/src/instructions/canonical_token/register_canonical_token.rs:79-127 | chooses the locking type by the fee extension of the mint |
| TokenServiceProgram.InterchainTokenService.RegisterCustomToken | programs/solana-axelar-its/src/instructions/custom_token/register_custom_token.rs:81-144 | rejects native and mismatched types; an operator gets OPERATOR and FLOW_LIMITER |
| TokenServiceProgram.InterchainTokenService.DeployInterchainToken | programs/solana-axelar-its/src/instructions/interchain_token/deploy_interchain_token.rs:123-216 | new mint under the manager, initial supply to the deployer, no zero supply without a minter |
| TokenServiceProgram.InterchainTokenService.ExecuteDeployInterchainToken | programs/solana-axelar-its/src/instructions/gmp/deploy_interchain_token.rs:174-205 | a token deployed on request of the hub |
| TokenServiceProgram.InterchainTokenService.TrackTokenFlow | programs/solana-axelar-its/src/instructions/gmp/interchain_transfer.rs:317-346 | loads, resets and stores the flow slot of a manager |
| TokenServiceProgram.InterchainTokenService.TakeTokens | programs/solana-axelar-its/src/instructions/interchain_token/interchain_transfer.rs:266-306 | burns or locks by manager type and returns the amount after the fee |
| TokenServiceProgram.InterchainTokenService.GiveTokens | programs/solana-axelar-its/src/instructions/gmp/interchain_transfer.rs:270-315 | mints or releases by manager type |
| TokenServiceProgram.InterchainTokenService.InterchainTransfer | programs/solana-axelar-its/src/instructions/interchain_token/interchain_transfer.rs:149-264 | the outbound step: take tokens, track the amount after fees, log it |
| TokenServiceProgram.InterchainTokenService.CheckDestinationAuthority | programs/solana-axelar-its/src/instructions/gmp/interchain_transfer.rs:467-486 | programs receive under their token authority, everyone else himself |
| TokenServiceProgram.InterchainTokenService.ExecuteInterchainTransfer | programs/solana-axelar-its/src/instructions/gmp/interchain_transfer.rs:111-173 | the inbound step: track the gross amount, give tokens, log it |
| TokenServiceProgram.InterchainTokenService.Execute | programs/solana-axelar-its/src/instructions/gmp/execute.rs:52-92 | consumes a hub message once and dispatches it; a failed dispatch leaves it unconsumed |
| TokenServiceProgram.InterchainTokenService.MintInterchainToken | programs/solana-axelar-its/src/instructions/interchain_token/mint_interchain_token.rs:11-97 | a minter mints through the manager |
| TokenServiceProgram.InterchainTokenService.RehomeRole | programs/solana-axelar-its/src/instructions/token_manager/transfer_token_manager_operatorship.rs:73-104 | takes the role from one account, gives it to the other, closes an empty one |
| TokenServiceProgram.InterchainTokenService.TransferOperatorship | programs/solana-axelar-its/src/instructions/config/transfer_operatorship.rs:9-87 | moves the OPERATOR role of the service |
| TokenServiceProgram.InterchainTokenService.TransferTokenManagerOperatorship | programs/solana-axelar-its/src/instructions/token_manager/transfer_token_manager_operatorship.rs:10-104 | moves the OPERATOR role of a token manager |
| TokenServiceProgram.InterchainTokenService.TransferInterchainTokenMintership | programs/solana-axelar-its/src/instructions/interchain_token/transfer_interchain_token_mintership.rs:10-107 | moves the MINTER role of a token manager |
| TokenServiceProgram.InterchainTokenService.HandoverMintAuthority | programs/solana-axelar-its/src/instructions/token_manager/handover_mint_authority.rs:16-112 | mint authority to the manager, MINTER to the former authority |
| TokenServiceProgram.InterchainTokenService.AddTokenManagerFlowLimiter | programs/solana-axelar-its/src/instructions/token_manager/add_token_manager_flow_limiter.rs:10-81 | the operator grants FLOW_LIMITER to someone without it |
| TokenServiceProgram.InterchainTokenService.RemoveTokenManagerFlowLimiter | programs/solana-axelar-its/src/instructions/token_manager/remove_token_manager_flow_limiter.rs:8-84 | the operator takes FLOW_LIMITER away and closes an empty account |
| TokenServiceProgram.InterchainTokenService.SetFlowLimit | programs/solana-axelar-its/src/instructions/config/set_flow_limit.rs:13-72 | the operator of the service sets a different limit, counters untouched |
| TokenServiceProgram.InterchainTokenService.SetTokenManagerFlowLimit | programs/solana-axelar-its/src/instructions/token_manager/set_token_manager_flow_limit.rs:13-73 | a flow limiter sets the limit, counters untouched |
| TokenServiceLedger.RunKeepsInv | programs/solana-axelar-its/src/instructions/gmp/interchain_transfer.rs:270-315 | in every run, whatever else happens to the tokens, vaults, supplies and manager types match the log |
| TokenServiceBalances.TakingDebitsTheSender | programs/solana-axelar-its/src/instructions/interchain_token/interchain_transfer.rs:266-362 | tokens are taken if and only if sender and manager allow it; account by account the sender alone loses the whole amount and the vault of a locking manager alone gains what the fee leaves |
| TokenServiceBalances.GivingCreditsTheReceiver | programs/solana-axelar-its/src/instructions/gmp/interchain_transfer.rs:270-315 | tokens are given if and only if the vault covers them or the manager can mint; account by account the receiver alone gains what arrives and the vault of a locking manager alone loses the amount |
| TokenServiceBalances.TransfersNeedTheirSender | programs/solana-axelar-its/src/instructions/interchain_token/interchain_transfer.rs:149-264 | an outbound transfer goes through if and only if its signer has the tokens, the manager can take them and the flow limit has room |
| TokenServiceBalances.TransfersDebitTheSender | programs/solana-axelar-its/src/instructions/interchain_token/interchain_transfer.rs:223-306 | of all accounts of all mints it changes the signer and the vault, of all managers the counters of one, and it logs what it counted |
| TokenServiceBalances.ExecutionsNeedAnApproval | programs/solana-axelar-its/src/instructions/gmp/execute.rs:52-92 | a transfer of the hub is executed if and only if it is pending, paid to whom it is addressed, covered, and within the flow limit |
| TokenServiceBalances.ExecutionsCreditThePayee | programs/solana-axelar-its/src/instructions/gmp/interchain_transfer.rs:111-315 | of all accounts of all mints it changes the payee and the vault, it counts the gross amount, and it consumes the message |
| TokenServiceBalances.StepsMoveExactly | programs/solana-axelar-its/src/instructions/gmp/interchain_transfer.rs:270-315 | every step of a run moves exactly what its instruction asks for between the accounts it names, and no other token account of any mint changes |
| TokenServiceBalances.OnlyOwnersSpend | programs/solana-axelar-its/src/instructions/interchain_token/interchain_transfer.rs:266-306 | no account has less after a run unless its owner signed for it, or it is a vault and a pending transfer of the hub for its manager was paid from it |
| TokenServiceSafety.VaultsAddUp | programs/solana-axelar-its/src/instructions/interchain_token/interchain_transfer.rs:223-306 | vault solvency: a locking vault holds sent minus gross received plus other credits, fees on both legs, and no plain locking manager has a fee mint |
| TokenServiceSafety.SuppliesAddUp | programs/solana-axelar-its/src/instructions/gmp/interchain_transfer.rs:270-315 | a minting token supply changes by exactly received minus sent, every unit held or withheld; without the mint authority there are no transfers at all |
| TokenServiceSafety.LockedAmountIsExact | programs/solana-axelar-its/src/state/token_manager.rs:147-159 | what the vault gains is what is counted if and only if the type supports the mint or the fee is zero |
| TokenServiceSafety.TransfersArePaidOnceAndAsAddressed | programs/solana-axelar-its/src/instructions/gmp/execute.rs:52-92 | every received transfer answers one earlier approved hub message and is the only one for its command id; the transaction that logged it credited exactly the account its destination calls for, by what the fee left, and debited nothing but the vault |
| TokenServiceSafety.TransfersArePaidForByTheirSender | programs/solana-axelar-its/src/instructions/interchain_token/interchain_transfer.rs:149-264 | every sent transfer was signed for: the transaction that logged it debited exactly its signer, by the whole amount, and filled nothing but the vault |
| TokenServiceSafety.HonestHubIsAlwaysPaid | programs/solana-axelar-its/src/instructions/gmp/interchain_transfer.rs:270-315 | if the hub approved no more than was sent or credited, the vault covers everything outstanding, and a pending transfer is executed for its addressee if and only if its amount and fee are sound and the flow limit has room |
| TokenServiceFlows.NetTransfersAreBounded | programs/solana-axelar-its/src/instructions/gmp/interchain_transfer.rs:317-346 | the window bounds over any stretch of any run: received less sent changes by at most k + 1 limits, or k if the stretch starts with no net flow |
| TokenServiceSafety.FlowCountersMirrorTheTokens | programs/solana-axelar-its/src/instructions/interchain_token/interchain_transfer.rs:281-305 | within one epoch under a limit, flow_out - flow_in is the change of the vault, or what bridging took out of the supply |
| TokenServiceRoles.OnlyTheOperatorHoldsARole | programs/solana-axelar-its/src/instructions/config/initialize.rs:56-78 | the service starts with one role held: its operator is operator of the service |
| TokenServiceRoles.ServiceHasExactlyOneOperator | programs/solana-axelar-its/src/instructions/config/transfer_operatorship.rs:61-87 | the service has exactly one operator in every run |
| TokenServiceRoles.OneHolderForever | programs/solana-axelar-its/src/instructions/token_manager/handover_mint_authority.rs:75-112 | each resource has at most one operator and one minter, and exactly one forever once there is one |
| TokenServiceRoles.MintersCanMint | programs/solana-axelar-its/src/instructions/token_manager/handover_mint_authority.rs:40-54 | a minter exists only on a manager that does not lock and holds the mint authority of its token |
| TokenServiceRoles.AccountsExistForHolders | programs/solana-axelar-its/src/state/user_roles.rs:41-56 | a roles account exists exactly for those who hold some role |
| TokenServiceRoles.HoldersGiveTheirRoleAway | programs/solana-axelar-its/src/instructions/interchain_token/transfer_interchain_token_mintership.rs:34-107 | operator and minter roles move only by a transfer their holder signed |
| TokenServiceInstructions.CanonicalTokensAreLocked | programs/solana-axelar-its/src/instructions/canonical_token/register_canonical_token.rs:79-127 | any existing mint under a new id; it locks, with fees exactly if the mint takes them, and nobody gets a role |
| TokenServiceInstructions.CustomTokensHaveAnOperator | programs/solana-axelar-its/src/instructions/custom_token/register_custom_token.rs:81-144 | any existing mint under any fitting type but the native one; the operator becomes operator and flow limiter, nothing else |
| TokenServiceInstructions.DeployedTokensAreTheManagers | programs/solana-axelar-its/src/instructions/interchain_token/deploy_interchain_token.rs:123-216 | a deployed token is mintable by its manager alone, its supply is all the deployer's, the minter gets all three roles; without a minter the supply is not zero |
| TokenServiceInstructions.RemoteDeploymentsNeedAnApproval | programs/solana-axelar-its/src/instructions/gmp/deploy_interchain_token.rs:174-205 | if and only if the message is pending and the id new; no supply, all three roles to the minter, message consumed |
| TokenServiceInstructions.RemoteLinksNeedAnApproval | programs/solana-axelar-its/src/instructions/gmp/link_token.rs:85-156 | if and only if the message is pending and the token could be registered here; same effect, message consumed |
| TokenServiceInstructions.MintersMint | programs/solana-axelar-its/src/instructions/interchain_token/mint_interchain_token.rs:11-97 | only the minter, only through a manager that holds the authority, and only the named account gains |
| TokenServiceInstructions.OperatorsHandOver | programs/solana-axelar-its/src/instructions/token_manager/transfer_token_manager_operatorship.rs:10-104 | the holder and nobody else moves the operator role of service or manager to someone else; no other role changes |
| TokenServiceInstructions.MintersHandOver | programs/solana-axelar-its/src/instructions/interchain_token/transfer_interchain_token_mintership.rs:10-107 | the holder and nobody else moves the minter role to someone else; no other role changes |
| TokenServiceInstructions.AuthoritiesBecomeMinters | programs/solana-axelar-its/src/instructions/token_manager/handover_mint_authority.rs:16-112 | the mint authority of a burning manager and nobody else hands it to the manager and becomes minter |
| TokenServiceInstructions.OperatorsAddFlowLimiters | programs/solana-axelar-its/src/instructions/token_manager/add_token_manager_flow_limiter.rs:10-81 | the operator of the manager and nobody else makes someone a flow limiter who is none |
| TokenServiceInstructions.OperatorsRemoveFlowLimiters | programs/solana-axelar-its/src/instructions/token_manager/remove_token_manager_flow_limiter.rs:8-84 | the operator of the manager and nobody else takes the role from a flow limiter |
| TokenServiceInstructions.ServiceOperatorSetsLimits | programs/solana-axelar-its/src/instructions/config/set_flow_limit.rs:13-72 | the operator of the service and nobody else sets a different limit; counters and all else stay |
| TokenServiceInstructions.FlowLimitersSetLimits | programs/solana-axelar-its/src/instructions/token_manager/set_token_manager_flow_limit.rs:13-73 | a flow limiter of the manager and nobody else sets its limit; counters and all else stay |
| TokenServiceInstructions.RolesAlwaysHaveResources | programs/solana-axelar-its/src/state/user_roles.rs:26-56 | in every run nobody holds a role on a manager that does not exist |
| TokenServiceInstructions.LimitsAreSetByOfficers | programs/solana-axelar-its/src/instructions/config/set_flow_limit.rs:13-72 | a limit that differs after a run was set to that value by the operator of the service or a flow limiter of that moment |
| GovernanceProgram.ConfigAccount.ValidateConfig | programs/solana-axelar-governance/src/state/governance_config.rs:60-70 | the delay must be one hour to one day |
| GovernanceProgram.ConfigAccount.Update | programs/solana-axelar-governance/src/state/governance_config.rs:72-85 | writes the given fields in place, then validates |
| GovernanceProgram.AxelarGovernance.constructor | programs/solana-axelar-governance/src/instructions/initialize_config.rs:31-48 | initial configuration, nothing scheduled |
| GovernanceProgram.AxelarGovernance.ScheduleTimelockProposal | programs/solana-axelar-governance/src/instructions/gmp/schedule_timelock_proposal.rs:35-81 | creates the proposal with an eta no earlier than the delay allows |
| GovernanceProgram.AxelarGovernance.CancelTimelockProposal | programs/solana-axelar-governance/src/instructions/gmp/cancel_timelock_proposal.rs:7-43 | closes a proposal whose eta is named correctly |
| GovernanceProgram.AxelarGovernance.ApproveOperatorProposal | programs/solana-axelar-governance/src/instructions/gmp/approve_operator_proposal.rs:10-58 | marks a live proposal for the operator |
| GovernanceProgram.AxelarGovernance.CancelOperatorProposal | programs/solana-axelar-governance/src/instructions/gmp/cancel_operator_proposal.rs:7-46 | takes the marker of a live proposal away |
| GovernanceProgram.AxelarGovernance.ProcessGmp | programs/solana-axelar-governance/src/instructions/process_gmp.rs:46-154 | only commands of the configured chain and contract, dispatched by kind |
| GovernanceProgram.AxelarGovernance.ManualLamportTransfer | programs/solana-axelar-governance/src/instructions/execute_timelock_proposal.rs:155-185 | finds the receiver among the accounts and pays it |
| GovernanceProgram.AxelarGovernance.ExecuteProposalCpi | programs/solana-axelar-governance/src/instructions/execute_timelock_proposal.rs:81-111 | presence checks, payment and call, all or nothing |
| GovernanceProgram.AxelarGovernance.ExecuteProposal | programs/solana-axelar-governance/src/instructions/execute_timelock_proposal.rs:11-79 | runs a proposal at or after its eta and closes it |
| GovernanceProgram.AxelarGovernance.ExecuteOperatorProposal | programs/solana-axelar-governance/src/instructions/execute_operator_proposal.rs:11-92 | the operator runs a marked proposal at once and closes both accounts |
| GovernanceProgram.AxelarGovernance.UpdateConfig | programs/solana-axelar-governance/src/instructions/update_config.rs:5-27 | an invalid update changes nothing |
| GovernanceProgram.AxelarGovernance.TransferOperatorship | programs/solana-axelar-governance/src/instructions/transfer_operatorship.rs:8-43 | operator or governance itself names a new operator |
| Governance.ConversionIsExact | programs/solana-axelar-governance/src/instructions/execute_timelock_proposal.rs:125-134 | the conversion accepts exactly the values below 2^64 and returns them |
| Governance.CallsPayTheNativeValue | programs/solana-axelar-governance/src/instructions/execute_timelock_proposal.rs:81-185 | a call that goes through pays exactly the native value of the proposal, once, nothing if the configuration account is the receiver, and only what the funds cover |
| Governance.EtaIsTheLaterOne | programs/solana-axelar-governance/src/instructions/gmp/schedule_timelock_proposal.rs:67-81 | the eta is the later of the requested and the earliest allowed time |
| GovernanceRuns.TransactionsGoThroughExactlyWhen | programs/solana-axelar-governance/src/instructions/execute_timelock_proposal.rs:22-111 | every instruction goes through if and only if it is due: commands of the configured contract on proposals in the right state, executions of live proposals from their eta on or marked ones by the operator when the call goes through, configuration changes its operator signs |
| GovernanceRuns.ForeignCommandsChangeNothing | programs/solana-axelar-governance/src/instructions/process_gmp.rs:46-80 | a command is answered with an authorization error if and only if it names another chain or address, and then changes nothing |
| GovernanceRuns.EarlyExecutionsAreNotReady | programs/solana-axelar-governance/src/instructions/execute_timelock_proposal.rs:38-43 | an execution is answered ProposalNotReady if and only if the proposal is live and its eta is in the future |
| GovernanceRuns.ConfigurationFollowsTheInstruction | programs/solana-axelar-governance/src/instructions/update_config.rs:5-27 | updates write the named fields and never the operator, transfers the operator alone, and nothing else touches the configuration |
| GovernanceRuns.OperatorsAreAppointed | programs/solana-axelar-governance/src/instructions/transfer_operatorship.rs:8-43 | in every run the operator is the first one or was appointed by the operator before him or by governance |
| GovernanceRuns.EventsComeFromTransactions | programs/solana-axelar-governance/src/instructions/process_gmp.rs:112-139 | every event of a run was logged by one of its transactions, with that transaction's own proposal and clock |
| GovernanceRuns.CommandsComeFromGovernance | programs/solana-axelar-governance/src/instructions/process_gmp.rs:46-139 | in every run each schedule, cancellation, approval and withdrawn approval was commanded from the chain and address configured just before it |
| GovernanceRuns.StepsAreExplained | programs/solana-axelar-governance/src/instructions/process_gmp.rs:112-139 | the one event of a step tells its whole effect on proposals, markers and funds; an execution pays the native value its proposal names |
| GovernanceSafety.ProposalsAndMarkersAddUp | programs/solana-axelar-governance/src/instructions/execute_operator_proposal.rs:22-49 | per hash: schedules = cancellations + timelock executions + operator executions + (1 if live); approvals = their cancellations + operator executions + (1 if marked) |
| GovernanceSafety.FundsAddUp | programs/solana-axelar-governance/src/instructions/execute_timelock_proposal.rs:155-185 | the funds are what came in otherwise less the native values of the executed proposals with another receiver |
| GovernanceSafety.TimelocksAreKept | programs/solana-axelar-governance/src/instructions/execute_timelock_proposal.rs:22-43 | by the clock of the transactions: a timelock execution runs exactly the proposal of its own schedule, which governance commanded and nothing closed since, at least the delay configured then after it and no sooner than the eta asked for |
| GovernanceSafety.SchedulesBecomeExecutable | programs/solana-axelar-governance/src/instructions/execute_timelock_proposal.rs:22-43 | a schedule left alone keeps its eta through any run, and its execution goes through if and only if the clock has reached it and the call goes through |
| GovernanceSafety.DelayStaysInRange | programs/solana-axelar-governance/src/state/governance_config.rs:60-85 | the configured delay is always 3600 to 86400 seconds |
| GovernanceSafety.EarlyExecutionsAreApproved | programs/solana-axelar-governance/src/instructions/execute_operator_proposal.rs:22-49 | an operator execution runs a live schedule and uses up an approval of that very proposal; governance commanded both and the operator of that moment signed |
| GovernanceSafety.OrphansComeFromClosing | programs/solana-axelar-governance/src/instructions/gmp/cancel_timelock_proposal.rs:18-24 | an approval is orphaned exactly when a cancellation or timelock execution of its proposal goes through while the hash is marked |
| GovernanceSafety.FreshProposalsNeedApproval | programs/solana-axelar-governance/src/instructions/execute_operator_proposal.rs:38-49 | a fresh schedule can be run early without a new approval if and only if its hash was already marked |
| GovernanceSafety.ApprovalsCanOutliveProposals | programs/solana-axelar-governance/src/instructions/execute_timelock_proposal.rs:22-31 | a run that leaves a marker without a proposal |
| Payload.SerializeAccount | programs/solana-axelar-gateway/src/payload/borsh.rs:64-68 | appends key and flag byte to the writer |
| Payload.DeserializeAccount | programs/solana-axelar-gateway/src/payload/borsh.rs:72-95 | reads an account off the front, or fails exactly when no account encodes to it |
| Payload.EncodeBorsh | programs/solana-axelar-gateway/src/payload/borsh.rs:12-20 | writes scheme, payload and accounts as the specification says |
| Payload.DeserializeAccounts | programs/solana-axelar-gateway/src/payload/borsh.rs:50-53 | reads the counted accounts and demands that nothing is left |
| Payload.DecodeBorsh | programs/solana-axelar-gateway/src/payload/borsh.rs:32-56 | splits and reads a Borsh body |
| Payload.EncodeAbi | programs/solana-axelar-gateway/src/payload/abi.rs:28-42 | appends the ABI body to the scheme byte |
| Payload.AccountsOfWords | programs/solana-axelar-gateway/src/payload/abi.rs:101-124 | pushes accounts until a flag word is neither 0 nor 1 |
| Payload.ExtractPayloadSliceAndSolanaAccounts | programs/solana-axelar-gateway/src/payload/abi.rs:92-126 | payload and accounts of an ABI body |
| Payload.AbiBodyRoundTrip | programs/solana-axelar-gateway/src/payload/abi.rs:28-126 | ABI round trip with padding and three words per account |
| Payload.DecodeUndoesEncode | programs/solana-axelar-gateway/src/payload/encoding.rs:12-40 | decode after encode is the identity in both schemes |
| Payload.BorshEncodingsAreCanonical | programs/solana-axelar-gateway/src/payload/borsh.rs:12-57 | bytes decode to a payload if and only if the payload encodes to them |
| Payload.BorshEncodesShortLists | programs/solana-axelar-gateway/src/payload/borsh.rs:12-20 | Borsh encoding fails exactly when the payload or the account list is longer than four bytes can count |
| Payload.EncodingsAreUnambiguous | programs/solana-axelar-gateway/src/payload/encoding.rs:12-40 | equal encodings mean the same scheme, payload, accounts and flags |
| PayloadLayout.BorshLayoutIsExact | programs/solana-axelar-gateway/src/payload/borsh.rs:12-95 | a Borsh payload encodes to, and decodes from, exactly these bytes: 0, payload length in bytes 1 to 4 lowest first, payload, count, and per account 32 key bytes and one of 1 for a signer plus 2 for a writable |
| PayloadLayout.AbiLayoutIsExact | programs/solana-axelar-gateway/src/payload/abi.rs:28-42 | an ABI payload encodes to exactly these bytes: 1, the word 64, the offset of the accounts, length, payload and filler, count, and per account the words key, signer, writable; it decodes from every body whose offsets point to it |
| PayloadLayout.AbiBodiesAreReadExactly | programs/solana-axelar-gateway/src/payload/abi.rs:92-126 | whatever wrote it, a body decodes to a payload and its accounts if and only if its two offset words point to their encodings |
| PayloadLayout.FirstByteIsTheScheme | programs/solana-axelar-gateway/src/payload/encoding.rs:85-93 | 0 is Borsh, 1 is ABI, no byte or any other one is an invalid scheme |
| ProposalHash.PreimagesParseUniquely | programs/solana-axelar-governance/src/state/proposal.rs:40-59 | the hashed bytes parse back to exactly one proposal although the call data has no length |
| ProposalHash.DistinctProposalsHaveDistinctPreimages | programs/solana-axelar-governance/src/state/proposal.rs:40-59 | distinct proposals are hashed from distinct bytes |
| ProposalLayout.ProposalLayoutIsExact | programs/solana-axelar-governance/src/state/proposal.rs:40-59 | a proposal is hashed from exactly these bytes: target, account count lowest byte first, 34 bytes per account, 0 or 1 and the receiver, call data, and the native value in the last 32 |
| Utf8.Text.TruncateUtf8 | programs/solana-axelar-its/src/utils.rs:51-60 | at most three steps back, and the encoding of the longest run of whole characters that fits |
| Utf8.LongestFittingIsUnique | programs/solana-axelar-its/src/utils.rs:51-60 | the characters kept are determined by text and limit |

## Left out

- Keccak, secp256k1 recovery and address derivation: hashes, signatures and derived addresses are symbolic; bumps and seeds do not appear.
- Leaf encoding of `LeafHash::hash`: leaves are hashed as values, not as bytes.
- Borsh form of the execute data: the encoder's result is a value, without its size estimate.
- Account plumbing, rent, refunds, event emission, instruction builders and the upgrade-authority gate of initialization.
- Pausing and trusted chains of the token service: simple guards in front of transfers.
- Remote deployment and linking requests, token metadata and the payload sent to the hub: forwarding without state.
- Derivation of token ids from salts: any unused id may be registered.
- Source address of outbound transfers: the caller-program check only selects the address reported to the hub.
- Calls into destination programs and executed proposals: each instruction is one atomic step, and what such calls do elsewhere is not modelled.
- Token extensions other than the transfer fee, such as permanent delegates and closing of mints.
- Managed bump of operator markers: the comparison cannot fail for derived addresses.
- Withdrawals from governance and rent refunds: one step that changes the funds stands for all of them.
- Gas service, operators and memo programs: counters and balances with single-step facts only.
- TokenServiceProgram.InterchainTokenService.RegisterCanonicalInterchainToken: does not model the metadata requirement, the pause flag or the derivation of the token id.
- TokenServiceProgram.InterchainTokenService.RegisterCustomToken: does not model the pause flag, the deployer's signature or the derivation of the token id.
- TokenServiceProgram.InterchainTokenService.DeployInterchainToken: does not model the length limits of name and symbol, the metadata or the pause flag.
- TokenServiceProgram.InterchainTokenService.ExecuteDeployInterchainToken: does not model the metadata or the comparison of the minter account with the message.
- TokenServiceProgram.InterchainTokenService.InterchainTransfer: does not model the pause flag, the trusted destination chains or the check of the calling program.
- TokenServiceProgram.InterchainTokenService.ExecuteInterchainTransfer: does not model the call into the destination program.
- TokenServiceProgram.InterchainTokenService.Execute: does not model the pause flag or the trusted source chains.
- TokenServiceProgram.InterchainTokenService.MintInterchainToken: does not model the pause flag.
- GovernanceProgram.AxelarGovernance.ProcessGmp: does not model the gateway consuming the message, so its theorems also cover runs in which a command repeats; that a message is executed once is proved of the gateway.
- Payload.EncodeAbi: the ABI body itself is written by a library, so it is appended as one value.
