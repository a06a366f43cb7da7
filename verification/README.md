# Remittance network: verified model

A Dafny model of the four Soroban contracts of the network, of the event indexer that mirrors
them, and of the off-chain arithmetic and serialisation that must match them, with proofs.

`RemitEscrow` holds sender funds against a claim hash; `ComplianceHook` gates each transfer and
keeps daily buckets; `AgentRegistry` holds bonds and the agent lifecycle; `LiquidityPool` lends
regional float against those bonds. Their transition rules are functions on values
(`Compliance.dfy`, `Registry.dfy`, `Escrow.dfy`, `Pool.dfy`), and each contract is a class whose
methods update fields in place and are proved to do what the rules say (`*Contract.dfy`).
`Network.dfy` puts the four in one world with a ledger clock and a book of token balances, and
says what a step of it is: a transaction, the next ledger, an account paying, an issuer minting.
`Host.dfy` runs transactions on the objects and takes a failed one back whole. i128 is bounded:
`checked_*` gives the typed error, plain operators trap.

The indexer (`Indexer.dfy`, `IndexerProcess.dfy`) is a process that may die before any write.

## What is proved

- Custody, counters, indexes and caps over every run, from the blank world, of all four contracts
  together (`Custody.dfy`, `Settlement.dfy`, `RegistryHistory.dfy`, `Shares.dfy`).
- For every call to every contract, on every world a run can lead to: exactly when it succeeds, and
  exactly what it leaves (`*Calls.dfy`); what a refusal names is so (`Refusals.dfy`).
- Who can do what: only admins set, only standing in a region settles there, and an account that
  signs nothing loses no token and no share (`Standing.dfy`, `Authority.dfy`, `Holdings.dfy`).
- The escrow's records and the hook's buckets agree; a 86,400-second window holds at most twice
  the limit, and can hold that much (`DailyVolume.dfy`).
- Splitting draws gains nothing; a short bond freezes exposure (`Draws.dfy`, `DrawRuns.dfy`).
- The read model is the chain's records, and crashes leave no trace (`CrashRecovery.dfy`,
  `IndexerHistory.dfy`, `ReadModel.dfy`).
- Canonical JSON decides equality up to member order; decimal and basis-point arithmetic is exact.

## Where the code and its promises part

- **A region can be full with nobody in it.** The cap is checked against a scan of an index that
  keeps agents who moved away. The cap is never exceeded, but room is refused too early, exactly
  when settling agents plus strays reach it.
- **A re-registering agent loses its old bond.** `contracts/interfaces/src/agent_registry.rs:24`
  says the remaining bond stays claimable; the record restarts at zero and the rest stays in the
  contract for good. Bond on record can always be withdrawn by an agent that is not authorized, so
  withdrawing first avoids the loss; a registration drops nothing exactly when no bond is on record.
- **A large redemption overflows.** Shares times deposits must fit i128, so a provider may have to
  redeem in parts. `required_bond_for` shows 0 where its product does not fit.
- **A range of more than 200 events is not indexed past the 200th**, and no later tick goes back,
  against `docs/architecture.md:325-332`, which promises that a window is re-read.
- **A crash on the first pass of a contract set to start at `latest` loses that ledger**: with no
  cursor yet, the next tick starts at its own tip.
- **Rewinding the cursor is not a safe recovery**, against `docs/runbook.md:316-330`: an event's
  place depends on where the request starts, so a replay re-records events and can put a settled
  transfer back to pending. It changes nothing exactly when every event keeps its place.
- **The off-chain sweep assumes a 150% ratio** whatever the pool's is: the room it reports is real for
  every position exactly when the pool's ratio is at most that.
- `contracts/interfaces/src/agent_registry.rs:24` calls a revoked agent permanently removed; the code lets
  it register again, pending a new authorization.
- `docs/contracts.md:316` says a stranger's commit gets `NotEscrow`; the code fails its
  authorization instead. The runbook says raw events are stored first; the code projects first.

## Model

| member | source | states |
|---|---|---|
| Chain.MovedIsSound | contracts/remit-escrow/src/escrow.rs:276-280 | An honest token move conserves every supply and goes through exactly when the payer has the amount |
| Chain.Ledger.Transfer | contracts/remit-escrow/src/escrow.rs:52-61 | Takes the amount off one balance and adds it to the other, or traps |
| Host.SorobanHost.Invoke | contracts/remit-escrow/src/escrow.rs:266-274 | A transaction leaves the world its rule says, and a failed one leaves every contract and balance as before, nested calls included |
| ComplianceContract.ComplianceHook.CommitTransfer | contracts/compliance-hook/src/hook.rs:311-370 | The method is the commit rule: state and answer |
| ComplianceContract.ComplianceHook.PublishAttestation | contracts/compliance-hook/src/hook.rs:187-238 | The method is the publishing rule |
| ComplianceContract.ComplianceHook.RevokeAttestation | contracts/compliance-hook/src/hook.rs:240-268 | The method is the revocation rule |
| ComplianceRules.EvaluateDecides | contracts/compliance-hook/src/hook.rs:63-122 | The rule never traps on a reachable state and admits exactly the transfers the policy permits, stated without its order of checks |
| ComplianceRules.OneRuleThreeViews | contracts/compliance-hook/src/hook.rs:274-370 | On every state with an escrow registered, whichever it is: explained as allowed iff the check says yes iff that escrow's commit succeeds; committed total = limit - shown headroom; a refusal is explained by the check's own error |
| ComplianceRules.ExplainsTheObstacle | contracts/compliance-hook/src/hook.rs:283-309 | On every sound state the explanation is allowed exactly when nothing stands in the way, else names the first obstacle by its tag; the tier asked, the tier held and the remaining limit are spelled out |
| HookCalls.HookCallsExactly | contracts/compliance-hook/src/hook.rs:130-370 | Exactly when each call to the hook succeeds, setters, attestations and commits, without the order of the checks |
| HookCalls.HookCallsLeave | contracts/compliance-hook/src/hook.rs:130-370 | And the whole state it then leaves, counters included, with nothing else changed |
| ComplianceRules.DecisionIsDownwardClosed | contracts/interfaces/src/compliance.rs:70-90 | Who may send an amount may send any smaller one |
| ComplianceRules.CommitEffect | contracts/compliance-hook/src/hook.rs:311-370 | A commit adds its amount to its one bucket, within the limit, for the registered escrow only |
| ComplianceRules.PublishedTierDecides | contracts/compliance-hook/src/hook.rs:187-238 | A published attestation gives its subject exactly its tier until it expires, whatever stood before |
| ComplianceRules.RevokedMaySendNothing | contracts/compliance-hook/src/hook.rs:240-268 | After a revocation the subject is refused every amount, in every corridor, at any time |
| RegistryContract.AgentRegistry.RegisterAgent | contracts/agent-registry/src/registry.rs:209-291 | The method is the registration rule, re-registration included |
| RegistryContract.AgentRegistry.CountAuthorized | contracts/agent-registry/src/registry.rs:53-63 | The counting loop is the saturated count of listed agents holding an authorized record, in whatever region |
| RegistryContract.AgentRegistry.SlashAgent | contracts/agent-registry/src/registry.rs:407-459 | The method is the slashing rule, with the automatic suspension |
| RegistryRules.CountSplits | contracts/agent-registry/src/registry.rs:53-63 | The scan of an index = agents settling in the region + listed agents authorized elsewhere |
| RegistryRules.ScanOvercountsByStrays | contracts/agent-registry/src/storage.rs:162-187 | On sound states that holds of every region's own index |
| RegistryRules.StoreKeepsInv | contracts/agent-registry/src/registry.rs:77-98 | Storing one record keeps cap, index, counters and the bond books together |
| RegistryRules.RegisterKeepsInv | contracts/agent-registry/src/registry.rs:231-287 | A registration adds its bond to the books; what a returning agent left behind stays in them |
| RegistryRules.AuthorizeKeepsInv | contracts/agent-registry/src/registry.rs:356-383 | Passing the over-counting cap check leaves room under the real cap |
| RegistryRules.SlashEffect | contracts/agent-registry/src/registry.rs:407-459 | The bond falls by the amount, the slash is counted, and the agent is suspended exactly if it was authorized and what is left is below its region's minimum; any other status stays |
| RegistryRules.SlashKeepsInv | contracts/agent-registry/src/registry.rs:407-459 | A slash keeps every registry invariant and drops nothing |
| RegistryCalls.RegistersExactly | contracts/agent-registry/src/registry.rs:209-291 | A registration succeeds exactly for a new or revoked agent signing it, into an active region whose minimum its bond meets, with the tokens, and a total that fits |
| RegistryCalls.RegistryCallsExactly | contracts/agent-registry/src/registry.rs:106-459 | Exactly when each call to the registry succeeds on a sound world, setters and lifecycle included: no payment it owes can fail |
| RegistryCalls.RegistryCallsLeave | contracts/agent-registry/src/registry.rs:106-459 | And the whole registry, balances and ledger it then leaves |
| Standing.RegistryAnswers | contracts/agent-registry/src/registry.rs:65-75 | The registry says yes exactly for an authorized record of that very region, active; by corridor, for the region the corridor maps to |
| RegistryHistory.RunFlows | contracts/agent-registry/src/registry.rs:209-459 | Along every run the books move by exactly what was posted, withdrawn, slashed and dropped |
| RegistryHistory.BondIsConserved | contracts/agent-registry/src/registry.rs:231-459 | All bond ever posted = held + withdrawn + slashed; held = current bonds + what re-registrations dropped; no bond is negative |
| RegistryHistory.DroppedBondIsTrapped | contracts/agent-registry/src/registry.rs:231-258 | The dropped part never shrinks again over any run, and the registry always still holds it |
| RegistryHistory.WithdrawBondExactly | contracts/agent-registry/src/registry.rs:326-354 | On every reachable state the recorded bond is claimable exactly by its agent, while not authorized: the payment cannot fail |
| RegistryHistory.RegistrationDropsNothingExactly | contracts/agent-registry/src/registry.rs:231-287 | A registration leaves nothing behind exactly when the agent has no bond on record |
| RegistryHistory.WithdrawingFirstAvoidsTheLoss | contracts/interfaces/src/agent_registry.rs:24-37 | A revoked agent can always withdraw all of its bond, and a registration after that drops nothing |
| RegistryHistory.ReturningAgentLosesBond | contracts/agent-registry/src/registry.rs:231-258 | A concrete run in which a returning agent loses 1 of the 2 it posted, for good |
| RegistryHistory.RegionsInOrderOverRuns | contracts/agent-registry/src/registry.rs:53-98 | After every run: authorized agents per region within a positive cap, counters exact, index complete and free of duplicates |
| RegistryHistory.RegionFullExactly | contracts/agent-registry/src/registry.rs:356-383 | An otherwise fit agent is refused for room exactly when settling agents plus listed strays reach the cap |
| RegistryHistory.EmptyRegionCanBeFull | contracts/agent-registry/src/registry.rs:53-63 | A concrete run after which a region with nobody settling in it refuses its only candidate as full |
| EscrowContract.RemitEscrow.CreateTransfer | contracts/remit-escrow/src/escrow.rs:240-319 | The method is the creation rule: gate, tokens, record, counters, event |
| EscrowContract.RemitEscrow.ClaimTransfer | contracts/remit-escrow/src/escrow.rs:357-437 | The method is the claim rule |
| EscrowContract.RemitEscrow.CancelTransfer | contracts/remit-escrow/src/escrow.rs:321-355 | The method is the cancellation rule |
| EscrowContract.RemitEscrow.RefundExpired | contracts/remit-escrow/src/escrow.rs:439-471 | The method is the refund rule |
| EscrowRules.StatusesPartition | contracts/interfaces/src/escrow.rs:17-29 | created = claimed + refunded + cancelled + pending |
| EscrowRules.RecordCreationKeepsInv | contracts/remit-escrow/src/storage.rs:75-133 | Filing a record keeps records, sender lists (exactly the sender's ids, ascending) and counters |
| EscrowRules.SettlesKeepsInv | contracts/remit-escrow/src/escrow.rs:339-345 | Settling keeps them too and lowers what is owed in the token by exactly the amount |
| EscrowRules.FeeWithinCap | contracts/remit-escrow/src/escrow.rs:32-38 | 0 <= fee < amount and fee <= 5% |
| EscrowRules.ClaimEffect | contracts/remit-escrow/src/escrow.rs:357-437 | A claim pays agent and treasury exactly the amount between them, in time, with the right code, never to the sender |
| EscrowCalls.EscrowCallsExactly | contracts/remit-escrow/src/escrow.rs:114-471 | Exactly when each call to the escrow succeeds on a sound world, setters included |
| EscrowCalls.EscrowCallsLeave | contracts/remit-escrow/src/escrow.rs:114-471 | And what it then leaves: record, lists, counters, gate, every balance, and the one event announced; the fee is the configured share rounded down |
| Settlement.TransfersSettleOnce | contracts/remit-escrow/src/escrow.rs:321-471 | Over every run identifying fields never change and a record that left Pending is final |
| Settlement.PaidExactlyOnce | contracts/remit-escrow/src/escrow.rs:321-471 | Over every run the steps that cancel, claim or refund a transfer by id pay out exactly its amount, once, and nothing before or after |
| Settlement.SettlementReachesItsOwners | contracts/remit-escrow/src/escrow.rs:321-471 | The settling step pays the sender, or claimant and treasury, exactly the amount between them; no other balance in any token moves |
| Settlement.FeesWithinCapOverRuns | contracts/remit-escrow/src/escrow.rs:156-173 | 10000 * fees_collected <= 500 * volume_settled under any sequence of fee changes |
| Settlement.StatsAgreeWithRecords | contracts/interfaces/src/escrow.rs:104-118 | After every run volumes and counters agree with the records |
| Settlement.SettledOnTheRightSide | contracts/interfaces/src/escrow.rs:53-62 | After every run Claimed implies settled in time and not by the sender, Refunded implies settled after expiry |
| Settlement.SenderListsAgree | contracts/remit-escrow/src/storage.rs:115-133 | After every run a sender's list is exactly that sender's transfers, oldest first |
| Settlement.NoTrappedFunds | contracts/remit-escrow/src/escrow.rs:321-355 | After any run whatever, a pending transfer can be cancelled by its sender and, once expired, refunded by anyone |
| Settlement.ExpiredIsNeverClaimed | contracts/remit-escrow/src/escrow.rs:371-374 | Once expired, no claim succeeds in any later world |
| Settlement.ClaimSucceedsExactly | contracts/remit-escrow/src/escrow.rs:357-437 | The exact conditions of a claim, among them an authorized record in the active region the transfer's corridor maps to; a missing token is never among them |
| Settlement.CreateSucceedsExactly | contracts/remit-escrow/src/escrow.rs:240-319 | The exact conditions of a creation: the request, the gate's policy, the tokens, and the ranges of id and locked volume |
| Settlement.QuoteIsPaid | contracts/remit-escrow/src/escrow.rs:493-507 | The quote is what a claim that goes through pays |
| EscrowCalls.QuotesExactly | contracts/remit-escrow/src/escrow.rs:493-507 | A claim is quoted exactly while its transfer is pending and the fee product fits, with the fee at the present rate |
| DailyVolume.CreateKeepsBuckets | contracts/remit-escrow/src/escrow.rs:272-280 | A creation moves one bucket and the records of that bucket by the same amount |
| DailyVolume.BucketsAgreeOverRuns | contracts/compliance-hook/src/hook.rs:343-351 | With the wiring fixed, over every run each bucket is the sum of the amounts of transfers created in it, whatever became of them |
| DailyVolume.BucketsStayUnderLimits | contracts/compliance-hook/src/hook.rs:80-87 | Over every run no bucket exceeds the limit in force at its last commit |
| DailyVolume.WindowWithinTwiceTheLimit | contracts/compliance-hook/src/storage.rs:174-210 | Nobody sends more than twice the highest limit inside any 86,400 seconds |
| DailyVolume.WindowFromBlank | contracts/compliance-hook/src/storage.rs:174-210 | From a blank world that bound needs no premise but the wiring and the limits set |
| DailyVolume.TwiceTheLimitIsAttained | contracts/compliance-hook/src/storage.rs:174-182 | For every limit some run sends exactly twice it inside 86,400 seconds |
| DailyVolume.SignedCommitFails | contracts/compliance-hook/src/hook.rs:311-325 | A commit signed by anybody but the escrow fails |
| DailyVolume.DayIsItsStretch | contracts/compliance-hook/src/storage.rs:173-176 | A moment falls in day d exactly when it lies in [86400 d, 86400 (d + 1)) |
| DailyVolume.CommitFillsItsDay | contracts/compliance-hook/src/storage.rs:173-210 | A commit adds its amount to the one bucket of its sender, corridor and stretch of 86,400 seconds, and to no other |
| PoolContract.LiquidityPool.DepositLiquidity | contracts/liquidity-pool/src/pool.rs:262-337 | The method is the deposit rule |
| PoolContract.LiquidityPool.WithdrawLiquidity | contracts/liquidity-pool/src/pool.rs:339-406 | The method is the redemption rule |
| PoolContract.LiquidityPool.DrawLiquidity | contracts/liquidity-pool/src/pool.rs:408-489 | The method is the draw rule |
| PoolContract.LiquidityPool.RepayLiquidity | contracts/liquidity-pool/src/pool.rs:491-528 | The method is the repayment rule |
| PoolRules.ExposureMoveKeepsInv | contracts/liquidity-pool/src/pool.rs:408-528 | Exposure and regional total move together and keep all region books |
| PoolRules.ShareMoveKeepsInv | contracts/liquidity-pool/src/pool.rs:282-406 | Shares, deposits and depositor count move together and keep all region books |
| PoolRules.OneForOne | contracts/liquidity-pool/src/pool.rs:282-290 | On reachable regions minting and redeeming are one for one, or overflow, and exactly when |
| PoolRules.UtilizationNeverTraps | contracts/interfaces/src/liquidity.rs:33-49 | On reachable regions the figure never traps, is the quotient, and is at most 10,000 |
| Shares.BooksBalanceOverRuns | contracts/liquidity-pool/src/storage.rs:112-140 | After every run drawn = sum of exposures, shares = sum of balances = deposits, depositor count exact |
| Shares.DepositKeepsPrice | contracts/liquidity-pool/src/pool.rs:282-300 | For any positive deposits and shares, minting never lowers the price of a share |
| Shares.RedemptionKeepsPrice | contracts/liquidity-pool/src/pool.rs:363-390 | Nor does redeeming |
| Shares.NoFreeRoundTrip | contracts/liquidity-pool/src/pool.rs:282-390 | Depositing and redeeming at once returns at most what was put in |
| Shares.SharesAndDepositsVanishTogether | contracts/liquidity-pool/src/pool.rs:363-390 | Shares reach 0 exactly when deposits do |
| Shares.ClaimsAreCovered | contracts/liquidity-pool/src/pool.rs:363-375 | All redeemable claims together are at most the deposits |
| Shares.RedeemsExactly | contracts/liquidity-pool/src/pool.rs:339-406 | When a redemption succeeds on a reachable state, including the product that must fit i128 |
| PoolCalls.DepositsExactly | contracts/liquidity-pool/src/pool.rs:262-337 | When a deposit succeeds on a reachable state: into an open region of an unpaused pool, of tokens the provider has, with totals and share product inside i128 |
| PoolCalls.PoolCallsExactly | contracts/liquidity-pool/src/pool.rs:94-528 | Exactly when each call to the pool succeeds on a sound world, setters included; a draw asks an authorized record in its very region |
| PoolCalls.PoolCallsLeave | contracts/liquidity-pool/src/pool.rs:94-528 | And the whole pool, balances and ledger it then leaves |
| Shares.MintedExactly | contracts/liquidity-pool/src/pool.rs:282-290 | The shares minted are the deposit's part of those out, rounded down |
| Shares.RedeemedExactly | contracts/liquidity-pool/src/pool.rs:363-375 | The amount redeemed is the shares' part of the deposits, rounded down |
| Shares.LargeRedemptionOverflows | contracts/liquidity-pool/src/pool.rs:363-367 | A concrete run after which a provider of 2^64 undrawn units cannot redeem all of them at once, and can redeem a quarter |
| Draws.DrawsExactly | contracts/liquidity-pool/src/pool.rs:408-475 | A draw succeeds exactly when region and bond have room for the totals after it |
| Draws.SplittingGainsNothing | contracts/liquidity-pool/src/pool.rs:433-473 | Consecutive draws all succeed exactly when one draw of their sum does, with the same outcome |
| DrawRuns.SplittingOverTimeGainsNothing | contracts/liquidity-pool/src/pool.rs:433-473 | The same for separate transactions with any ledgers closing between them: all go through exactly when one draw of the sum would have at the start |
| Draws.RepaysExactly | contracts/liquidity-pool/src/pool.rs:491-528 | A repayment succeeds exactly when the borrower owes it and has the tokens, pause or not |
| Draws.ExposureGrowsOnlyCovered | contracts/liquidity-pool/src/pool.rs:450-461 | In any step an exposure grows only by its agent's own draw, with an authorized record of that very active region, inside the cap and covered by the recorded bond at the new exposure |
| Draws.ShortBondFreezesExposure | contracts/liquidity-pool/src/lib.rs:56-64 | While the bond is short no step lets the exposure grow |
| Draws.RequiredBondIsTheTest | contracts/liquidity-pool/src/pool.rs:550-558 | The advertised bond is the tested one where it fits; where it does not, by the product or by the exposure, 0 is shown and no draw passes |
| Draws.RequiredBondCanShowZero | contracts/liquidity-pool/src/pool.rs:550-558 | An exposure at 100% at which it shows 0 |
| Custody.StepKeeps | contracts/remit-escrow/src/escrow.rs:240-471 | Every step of the world keeps every contract's invariant, and lets no custodian's surplus shrink or, without a gift, grow |
| Custody.BlankIsBalanced | contracts/agent-registry/src/registry.rs:106-123 | A blank world satisfies all invariants with no surplus |
| Custody.RunKeepsInv | contracts/liquidity-pool/src/pool.rs:262-528 | So does every run |
| Custody.CustodyOverRuns | contracts/agent-registry/src/registry.rs:231-459 | In every token escrow, registry and pool hold at least what they owe, and exactly that without outside gifts |
| Authority.OnlyAdminsSet | contracts/agent-registry/src/registry.rs:24-28 | Over every run in which no admin signs, no setting of any of the four contracts changes |
| Authority.RecordsMoveByRule | contracts/agent-registry/src/registry.rs:77-98 | In every step an agent's record is opened by the agent, its status moved by the admin along the lifecycle or by the agent out of a revocation, its bond lowered by the agent or the admin's slash |
| Authority.SettlingNeedsStanding | contracts/remit-escrow/src/escrow.rs:91-110 | Whoever claims or draws by the deployed registry holds an authorized record of the very region it takes place in, active |
| Authority.OneRegionEach | contracts/interfaces/src/agent_registry.rs:10-60 | So an agent settles in at most one region |
| Authority.DemotedSettlesNowhere | contracts/agent-registry/src/registry.rs:385-405 | After a suspension or revocation the agent claims and draws nowhere over any run without a new authorization of it |
| Authority.ShutRegionSettlesNothing | contracts/agent-registry/src/registry.rs:182-194 | Over any run that does not reopen a deactivated region nobody claims or draws in it |
| Holdings.NobodyPaysForAnother | contracts/remit-escrow/src/escrow.rs:266-280 | No step takes a token from an account that does not sign or pay it |
| Holdings.SilentHoldersLoseNothing | contracts/liquidity-pool/src/pool.rs:262-528 | Over every run an account that signs nothing loses no token and no share and takes on no exposure |
| Holdings.LimitsAreUsedByTheirSender | contracts/compliance-hook/src/hook.rs:311-370 | Nobody but a sender uses up its daily limit |
| Holdings.AttestationsNeedAnOperator | contracts/compliance-hook/src/hook.rs:187-268 | Attestations change only by the signature of an operator the hook knows |
| Refusals.CreationRefusalIsTrue | contracts/remit-escrow/src/escrow.rs:240-319 | Whatever error a creation gives, what it names is so |
| Refusals.ClaimRefusalIsTrue | contracts/remit-escrow/src/escrow.rs:357-437 | The same of a claim: wrong code, expired, own transfer, no standing, and so on |
| Refusals.RegistrationRefusalIsTrue | contracts/agent-registry/src/registry.rs:209-291 | The same of a registration |
| Refusals.AuthorizationRefusalIsTrue | contracts/agent-registry/src/registry.rs:356-383 | The same of an authorization |
| Refusals.DrawRefusalIsTrue | contracts/liquidity-pool/src/pool.rs:408-475 | The same of a draw: region, standing, float, cap, bond or a product that does not fit |
| Refusals.RedemptionRefusalIsTrue | contracts/liquidity-pool/src/pool.rs:339-390 | The same of a redemption |
| IndexerProcess.Indexer.ProjectTransferCreated | backend/src/event-indexer/indexer.ts:234-277 | The upsert, or nothing for an unknown sender or corridor; one write |
| IndexerProcess.Indexer.ProjectTransferSettled | backend/src/event-indexer/indexer.ts:279-318 | The settlement in one write and the agent link in a second |
| IndexerProcess.Indexer.PersistEvent | backend/src/event-indexer/indexer.ts:158-202 | Skip if recorded, else project, then file the audit row, dying at any write |
| IndexerProcess.Indexer.RunTick | backend/src/event-indexer/indexer.ts:94-150 | The nested loops are the tick rule: batch, then cursor, contract by contract |
| CrashRecovery.ProjectAgain | backend/src/event-indexer/indexer.ts:256-274 | However far a projection got, doing it again ends where doing it once would |
| CrashRecovery.BatchResumes | backend/src/event-indexer/indexer.ts:116-140 | From any interruption, carrying on completes the batch as if never interrupted; at most one event is projected and unrecorded, the next in order |
| CrashRecovery.CrashesLeaveNoTrace | backend/src/event-indexer/indexer.ts:94-202 | After any number of attempts that died at any write, the one that completes leaves all tables as an unbroken one would |
| CrashRecovery.TickIsBounded | backend/src/event-indexer/indexer.ts:66-76 | A process that lives for 601 writes per contract completes the tick |
| IndexerHistory.TablesAfterAnyHistory | backend/src/event-indexer/indexer.ts:94-202 | Over ticks at rising tips dying anywhere, a completed tick leaves the fold of the announced events and each event recorded exactly once |
| ReadModel.AnnouncementsAreRecords | contracts/remit-escrow/src/escrow.rs:308-470 | Along every run the escrow's events, folded, are its records |
| ReadModel.ReadModelAgreesWithChain | backend/src/event-indexer/indexer.ts:234-318 | After any run and any indexing history a row exists exactly for transfers whose sender and whose corridor are in the directory, and says what the record says, claimant and agent link included; fee + payout = amount when claimed |
| ReadModel.RowsNameTheirTransactions | backend/src/event-indexer/indexer.ts:234-318 | Each row names the transactions that announced its creation and its settlement, with the fee and payout announced |
| ReadModel.UnknownPartyGetsNoRow | backend/src/event-indexer/indexer.ts:234-245 | A creation whose sender or whose corridor is not in the directory leaves every row as it was |
| ReadModel.AuditRowLinks | backend/src/event-indexer/indexer.ts:158-202 | The audit row holds the event and links a transfer exactly when it has a row |
| Gaps.PassRecordsExactly | backend/src/event-indexer/indexer.ts:66-91 | A completed pass records an event of its range exactly when it is among the first 200 |
| Gaps.BeyondTheLimitIsLost | backend/src/event-indexer/indexer.ts:113-140 | Events beyond the 200th are never recorded by any later tick |
| Gaps.LostSettlementStaysPending | backend/src/event-indexer/indexer.ts:113-140 | A transfer whose settlement lies past the 200th event of the pass that fetched its creation stays pending after every later tick |
| Gaps.CancellationIsLost | backend/src/event-indexer/indexer.ts:66-91 | A concrete log whose 201st event is a cancellation that no tick ever shows |
| Gaps.LatestForgetsWhatItDiedOn | backend/src/event-indexer/indexer.ts:103-110 | With no cursor and a start at the latest ledger, a tick after a crash passes over everything before its own tip, for good |
| Gaps.FirstLedgerIsLost | backend/src/event-indexer/indexer.ts:103-110 | A concrete crash at one ledger and tick at the next that lose a creation an unbroken pass records |
| Replay.ReplayChangesNothingExactly | backend/src/event-indexer/indexer.ts:158-169 | Replaying a batch changes nothing exactly when every event of it is already recorded under its place in it |
| Replay.ReplayFromTheSameStart | backend/src/event-indexer/indexer.ts:81-85 | Which holds when the replay starts where the batch first did |
| Replay.RewindIsNotRecovery | docs/runbook.md:316-330 | A concrete rewind that puts a cancelled transfer back to pending |
| CanonicalJson.CanonicalFormDecides | backend/src/kyc-orchestration/provider.ts:116-127 | Two values have the same canonical form exactly when they are equal up to member order, at every depth |
| CanonicalJson.Readable | backend/src/kyc-orchestration/provider.ts:116-127 | The form is self-delimiting: equal texts with anything allowed after them come from the same value |
| CanonicalJson.SortAscends | backend/src/kyc-orchestration/provider.ts:123-125 | Sorting keeps every member and puts keys in ascending code-unit order (section 3.2.3 of RFC 8785): equal up to a place where the first ends or has the smaller unit |
| CanonicalJson.ObjectPrints | backend/src/kyc-orchestration/provider.ts:123-126 | A member whose key comes after all others is printed after them, with its colon and comma |
| CanonicalJson.UndefinedIsSkipped | backend/src/kyc-orchestration/provider.ts:123-125 | An undefined member is not printed |
| CanonicalJson.ArrayPrints | backend/src/kyc-orchestration/provider.ts:120-122 | One more item is printed after the others, with a comma between |
| JsonText.StaysExactly | backend/src/kyc-orchestration/provider.ts:117-119 | The code units printed as they are: all but quote, backslash, controls and unpaired surrogates |
| JsonText.EscapesAs | backend/src/kyc-orchestration/provider.ts:117-119 | How each of the others is written |
| JsonText.QuoteIsReadable | backend/src/kyc-orchestration/provider.ts:117-119 | String literals are injective and self-delimiting, lone surrogates and controls included |
| Money.ToStroopsRoundTrip | backend/src/lib/money.ts:15-38 | toStroops(fromStroops(x)) = x for x >= 0 |
| Money.StellarRoundTrip | backend/src/quoting-service/horizon-source.ts:107-118 | parseStellarAmount(fromStroops(x)) = x for every integer |
| Money.ParsersAgree | backend/src/quoting-service/horizon-source.ts:107-118 | The parsers agree on texts without sign or padding; padding and sign are each accepted by one at most |
| Money.DecimalIsWorth | backend/src/lib/money.ts:15-27 | A unit is 10,000,000 stroops, each decimal a tenth of the one before, and an eighth is refused |
| Money.OnlyDecimalsAreRead | backend/src/lib/money.ts:15-24 | Only digits, or digits, a point and one to seven more are read |
| Money.PaddingIsIgnored | backend/src/lib/money.ts:16-16 | White space around the text makes no difference |
| Money.PrintsExactly | backend/src/lib/money.ts:30-38 | What is printed: the units, then the decimals that count and none after them |
| Money.AppliesExactly | backend/src/lib/money.ts:48-69 | applyBps is defined exactly for 0 to 100,000, rounds down, and does the same to a negative amount as to its opposite |
| Money.WholeIsKept | backend/src/lib/money.ts:30-38 | The trailing-zero strip removes no digit of the whole part |
| Money.QuoteMatchesFee | backend/src/lib/money.ts:48-51 | applyBps is the escrow's fee wherever the escrow computes one |
| Capacity.CapacityMatchesPool | backend/src/agent-liquidity/service.ts:47-67 | At the pool's own ratio: draws up to the capacity are covered unless the product overflows, two units more or beyond are not; with a short bond capacity is 0 and none is |
| Capacity.PoolAsksTheSame | contracts/liquidity-pool/src/pool.rs:35-42 | The test used there is the pool's bond requirement |
| Capacity.HeadroomIsShare | backend/src/agent-liquidity/service.ts:47-67 | The headroom figure is the bond left over what the exposure asks, as a share of the bond: 10,000 exactly when nothing is asked, 0 when short |
| Capacity.FloatIsShare | backend/src/agent-liquidity/service.ts:47-67 | The float figure is the capacity as a share of the bond, never above the headroom figure |
| Capacity.TightExactly | backend/src/agent-liquidity/service.ts:69-77 | A position is reported tight exactly when less than a tenth of its bond is free |
| Capacity.OneBeyondGoesBothWays | backend/src/agent-liquidity/service.ts:47-67 | One unit beyond the capacity may pass or fail |
| Capacity.SweepIsRightExactly | backend/src/agent-liquidity/service.ts:93-100 | All room the sweep reports, for every bond and exposure, is room at the pool's ratio exactly when that ratio is at most 150% |
| Capacity.SweepCanOverstate | backend/src/agent-liquidity/service.ts:93-100 | An instance: room of 66 reported at a bond of 100 that a pool at 200% refuses |

## Left out

- Storage TTL, rent and archival: entries persist.
- Signatures and authorization trees: a call carries its signer, an account; contracts authorize only the calls they make themselves.
- Dishonest tokens and re-entry: a token move is exact or traps. The supply of each token fits i128, and minting stops there.
- SHA-256 is an uninterpreted function on 32 bytes (FIPS 180-4).
- What a hook or registry other than the deployed one answers is an input of the call that asks it; such contracts change nothing in the world.
- The setters of each contract are one `Configure` over a datatype of changes; they have the checks and effects of the originals, and read-only getters are the fields.
- Contract events other than the four transfer events appear in the indexer's log only as entries to be filed; decoding from XDR is not modelled, an entry either decodes or does not.
- The projections of agent status and pool draws, which write tables the theorems do not speak of.
- The tick's result counters, logging and the polling loop.
- The RPC node returns the events of both end ledgers of a range, in order, and the same ones each time.
- `BondTokenMismatch`, `InvalidAdmin` and the other error codes no entry point raises.
- The u32 counters saturate in the model; claims that they are exact say "below saturation".
- `CrashRecovery.CrashesLeaveNoTrace`: speaks of attempts at one tip; `IndexerHistory.TablesAfterAnyHistory` covers rising tips, where the `eventIndex` of a row depends on which ticks completed, for a numeric start ledger, and assumes no range exceeds 200 events.
- `ReadModel.ReadModelAgreesWithChain`: assumes that the log the node serves up to the tip holds exactly the transfer events the chain announced, and that no range exceeds 200 events.
- `DailyVolume.BucketsAgreeOverRuns`: assumes the hook's escrow and the escrow's hook are never pointed elsewhere, and so does the bound on a window; the limit on a single bucket does not.
- `Settlement.PaidExactlyOnce`: assumes the treasury is not the escrow itself.
- No claim that utilization stays under the cap or bond over the ratio between draws: settings may be retuned and bond withdrawn. Nor that an authorized agent keeps the minimum bond: the floor may be raised.
- JavaScript numbers: `Number(expiry)` is exact, number literals are the texts `JSON.stringify` prints, and rates shown as `number` are integers.
- HTTP, databases, KYC providers, quoting, console and mobile applications, scripts.
