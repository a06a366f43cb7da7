/** The remit escrow contract. */
module EscrowContract {
  import opened Prelude
  import opened Chain
  import opened EscrowRules
  import ComplianceContract
  import C = ComplianceRules

  class RemitEscrow {
    var admin: Option<Address>
    var config: Option<EscrowConfig>
    var stats: EscrowStats
    var lastId: nat
    var transfers: map<nat, Transfer>
    var senderTransfers: map<Address, seq<nat>>

    constructor (start: EscrowState)
      ensures State() == start
    {
      admin, config, stats := start.admin, start.config, start.stats;
      lastId, transfers, senderTransfers := start.lastId, start.transfers, start.senderTransfers;
    }

    function State(): EscrowState
      reads this
    {
      EscrowState(admin, config, stats, lastId, transfers, senderTransfers)
    }

    method Restore(start: EscrowState)
      modifies this
      ensures State() == start
    {
      admin, config, stats := start.admin, start.config, start.stats;
      lastId, transfers, senderTransfers := start.lastId, start.transfers, start.senderTransfers;
    }

    method Initialize(env: Ledger, caller: Address, newAdmin: Address, registry: Address, hook: Address,
                      treasury: Address, feeBps: u32, maxExpirySecs: nat)
      returns (r: Result<(), EscrowError>)
      modifies this
      ensures Ran(EscrowRules.Initialize(old(State()), env.State(), caller, newAdmin, registry, hook, treasury, feeBps, maxExpirySecs),
                  r, State(), env.State())
    {
      if admin.Some? { return Err(AlreadyInitialized); }
      if MAX_FEE_BPS < feeBps || maxExpirySecs == 0 { return Err(InvalidConfig); }
      var _ :- Demand(caller == newAdmin);
      admin := Some(newAdmin);
      config := Some(EscrowConfig(registry, hook, treasury, feeBps, false, maxExpirySecs));
      stats := EscrowStats(0, 0, 0, 0, 0, 0, 0);
      return Ok(());
    }

    method Configure(env: Ledger, caller: Address, change: EscrowChange) returns (r: Result<(), EscrowError>)
      modifies this
      ensures Ran(EscrowRules.Configure(old(State()), env.State(), caller, change), r, State(), env.State())
    {
      var _ :- RequireAdmin(State(), caller);
      if change.SetAdmin? {
        admin := Some(change.admin);
        return Ok(());
      }
      if change.SetFeeBps? && MAX_FEE_BPS < change.feeBps { return Err(FeeTooHigh); }
      if change.SetMaxExpiry? && change.maxExpirySecs == 0 { return Err(InvalidConfig); }
      var c :- LoadConfig(State());
      match change {
        case SetFeeBps(feeBps) => c := c.(feeBps := feeBps);
        case SetTreasury(treasury) => c := c.(treasury := treasury);
        case SetAgentRegistry(registry) => c := c.(registry := registry);
        case SetComplianceHook(hook) => c := c.(hook := hook);
        case SetMaxExpiry(secs) => c := c.(maxExpirySecs := secs);
        case SetPaused(paused) => c := c.(paused := paused);
      }
      config := Some(c);
      return Ok(());
    }

    /** Calls the gate at the configured address; a typed refusal and a failed call stay apart. */
    method CommitVolume(env: Ledger, hook: ComplianceContract.ComplianceHook, target: Address, foreign: GateAnswer,
                        sender: Address, amount: int, corridor: Symbol)
      returns (r: Result<(), EscrowError>)
      requires config.Some? && config.value.hook == target
      modifies hook
      ensures match EscrowRules.CommitVolume(config.value, old(hook.State()), env.State(), foreign, sender, amount, corridor)
              case Ok(after) => r == Ok(()) && hook.State() == after
              case Err(e) => r == Err(e)
              case Trap => r == Trap
    {
      if target == HOOK {
        var outcome := hook.CommitTransfer(env, ESCROW, sender, amount, corridor);
        match outcome {
          case Ok(_) => return Ok(());
          case Err(_) => return Err(ComplianceRefused);
          case Trap => return Err(ComplianceCallFailed);
        }
      }
      match foreign {
        case Approved => return Ok(());
        case Refused => return Err(ComplianceRefused);
        case Unreachable => return Err(ComplianceCallFailed);
      }
    }

    /** Gate first, then funds, then the record: a failure after the commit relies on the host's rollback. */
    method CreateTransfer(env: Ledger, hook: ComplianceContract.ComplianceHook, caller: Address, foreign: GateAnswer,
                          sender: Address, amount: i128, token: Address, claimHash: Bytes32, corridor: Symbol, expiry: nat)
      returns (r: Result<nat, EscrowError>)
      modifies this, env`book, env`events, hook
      ensures Ran(EscrowRules.CreateTransfer(old(State()), old(hook.State()), old(env.State()), caller, foreign,
                                             sender, amount, token, claimHash, corridor, expiry),
                  r, CreatedState(State(), hook.State()), env.State())
    {
      var _ :- Demand(caller == sender);
      var c :- LoadConfig(State());
      var _ :- Check(!c.paused, Paused);
      var _ :- Check(0 < amount, InvalidAmount);
      var now := env.now;
      var _ :- Check(now < expiry, InvalidExpiry);
      var _ :- Check(expiry - now <= c.maxExpirySecs, ExpiryTooFar);
      var _ :- CommitVolume(env, hook, c.hook, foreign, sender, amount, corridor);
      r := LockFunds(env, NewTransfer(State(), now, sender, amount, token, claimHash, corridor, expiry));
    }

    method LockFunds(env: Ledger, t: Transfer) returns (r: Result<nat, EscrowError>)
      modifies this, env`book, env`events
      ensures Ran(EscrowRules.LockFunds(old(State()), old(env.State()), t), r, State(), env.State())
    {
      var _ :- env.Transfer(t.token, t.sender, ESCROW, t.amount);
      var _ :- Demand(lastId < U64_MAX);
      var _ :- RecordCreation(t);
      env.Publish(TransferCreated(t.id, t.sender, t.corridor, t.amount, t.token, t.claimHash, t.expiry));
      return Ok(t.id);
    }

    method RecordCreation(t: Transfer) returns (r: Result<(), EscrowError>)
      modifies this
      ensures match EscrowRules.RecordCreation(old(State()), t)
              case Ok(next) => r == Ok(()) && State() == next
              case Err(e) => r == Err(e)
              case Trap => r == Trap
    {
      lastId := t.id;
      transfers := transfers[t.id := t];
      var ids := LookupOr(senderTransfers, t.sender, []);
      senderTransfers := senderTransfers[t.sender := ids + [t.id]];
      stats := stats.(created := Increment(stats.created));
      var locked :- Checked(stats.volumeLocked + t.amount, Overflow);
      stats := stats.(volumeLocked := locked);
      return Ok(());
    }

    /** Pays the held funds out, then stores the record in its final status. */
    method Release(env: Ledger, t: Transfer, status: TransferStatus) returns (r: Result<Transfer, EscrowError>)
      modifies this`transfers, env`book
      ensures Ran(EscrowRules.Release(old(State()), old(env.State()), t, status), r, State(), env.State())
    {
      var _ :- env.Transfer(t.token, ESCROW, t.sender, t.amount);
      var settled := t.(status := status, settledAt := env.now);
      transfers := transfers[t.id := settled];
      return Ok(settled);
    }

    method CancelTransfer(env: Ledger, caller: Address, sender: Address, id: nat) returns (r: Result<(), EscrowError>)
      modifies this, env`book, env`events
      ensures Ran(EscrowRules.CancelTransfer(old(State()), old(env.State()), caller, sender, id), r, State(), env.State())
    {
      var _ :- Demand(caller == sender);
      var t :- LoadTransfer(State(), id);
      var _ :- Check(t.sender == sender, Unauthorized);
      var _ :- Check(t.IsPending(), TransferNotPending);
      var _ :- Release(env, t, Cancelled);
      stats := stats.(cancelled := Increment(stats.cancelled));
      var locked :- Plain(stats.volumeLocked - t.amount);
      stats := stats.(volumeLocked := locked);
      env.Publish(TransferCancelled(id, t.sender, t.corridor, t.amount));
      return Ok(());
    }

    method RefundExpired(env: Ledger, id: nat) returns (r: Result<(), EscrowError>)
      modifies this, env`book, env`events
      ensures Ran(EscrowRules.RefundExpired(old(State()), old(env.State()), id), r, State(), env.State())
    {
      var t :- LoadTransfer(State(), id);
      var _ :- Check(t.IsPending(), TransferNotPending);
      var _ :- Check(t.HasExpired(env.now), TransferNotExpired);
      var _ :- Release(env, t, Refunded);
      stats := stats.(refunded := Increment(stats.refunded));
      var locked :- Plain(stats.volumeLocked - t.amount);
      stats := stats.(volumeLocked := locked);
      env.Publish(TransferRefunded(id, t.sender, t.corridor, t.amount));
      return Ok(());
    }

    method ClaimTransfer(env: Ledger, caller: Address, sha256: Bytes32 -> Bytes32, answer: AgentAnswer,
                         agent: Address, id: nat, code: Bytes32)
      returns (r: Result<ClaimReceipt, EscrowError>)
      modifies this, env`book, env`events
      ensures Ran(EscrowRules.ClaimTransfer(old(State()), old(env.State()), caller, sha256, answer, agent, id, code),
                  r, State(), env.State())
    {
      var _ :- Demand(caller == agent);
      var c :- LoadConfig(State());
      var t :- LoadTransfer(State(), id);
      var _ :- Check(t.IsPending(), TransferNotPending);
      var _ :- Check(!t.HasExpired(env.now), TransferExpired);
      var _ :- Check(t.sender != agent, SenderCannotClaim);
      var _ :- Check(sha256(code) == t.claimHash, InvalidClaimCode);
      var _ :- CheckAgent(answer);
      r := SettleClaim(env, c, t, agent);
    }

    method SettleClaim(env: Ledger, c: EscrowConfig, t: Transfer, agent: Address) returns (r: Result<ClaimReceipt, EscrowError>)
      modifies this, env`book, env`events
      ensures Ran(EscrowRules.SettleClaim(old(State()), old(env.State()), c, t, agent), r, State(), env.State())
    {
      var fee :- FeeFor(t.amount, c.feeBps);
      var payout :- Plain(t.amount - fee);
      var _ :- PayClaim(env, t.token, agent, payout, c.treasury, fee);
      var _ :- BookClaim(t.(status := Claimed, settledAt := env.now, claimedBy := Some(agent)), fee);
      env.Publish(TransferClaimed(t.id, agent, t.corridor, t.amount, fee, payout));
      return Ok(ClaimReceipt(t.id, agent, t.amount, fee, payout, env.now));
    }

    /** The agent is paid net of the fee, then the treasury its fee, if there is one. */
    method PayClaim(env: Ledger, token: Address, agent: Address, payout: int, treasury: Address, fee: int)
      returns (r: Result<(), EscrowError>)
      modifies env`book
      ensures match EscrowRules.PayClaim(old(env.State()), token, agent, payout, treasury, fee)
              case Ok(paid) => r == Ok(()) && env.State() == paid
              case Err(e) => r == Err(e)
              case Trap => r == Trap
    {
      var _ :- env.Transfer(token, ESCROW, agent, payout);
      if 0 < fee {
        var _ :- env.Transfer(token, ESCROW, treasury, fee);
      }
      return Ok(());
    }

    method BookClaim(t: Transfer, fee: int) returns (r: Result<(), EscrowError>)
      modifies this
      ensures match EscrowRules.BookClaim(old(State()), t, fee)
              case Ok(next) => r == Ok(()) && State() == next
              case Err(e) => r == Err(e)
              case Trap => r == Trap
    {
      transfers := transfers[t.id := t];
      stats := stats.(claimed := Increment(stats.claimed));
      var locked :- Plain(stats.volumeLocked - t.amount);
      stats := stats.(volumeLocked := locked);
      var settled :- Checked(stats.volumeSettled + t.amount, Overflow);
      stats := stats.(volumeSettled := settled);
      var fees :- Checked(stats.feesCollected + fee, Overflow);
      stats := stats.(feesCollected := fees);
      return Ok(());
    }
  }
}
