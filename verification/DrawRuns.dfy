/**
 Splitting a draw over time: draws by one agent as separate transactions, with any ledgers closing
 in between and the registry left alone, do what one draw of their sum does at the start.
 */
module DrawRuns {
  import opened Prelude
  import opened Chain
  import opened Draws
  import P = PoolRules
  import N = Network

  /** `q` is `p` after draws of `sum` by the agent in the region, at whatever times: only totals and exposure moved. */
  ghost predicate PoolDrew(p: P.PoolContractState, agent: Address, region: Symbol, sum: int, q: P.PoolContractState) {
    && p.pools.Keys == q.pools.Keys
    && (forall g :: g in p.pools ==>
          q.pools[g] == p.pools[g].(totalDrawn := p.pools[g].totalDrawn + (if g == region then sum else 0), updatedAt := q.pools[g].updatedAt))
    && q == p.(pools := q.pools, stats := q.stats, exposures := q.exposures)
    && q.exposures == (if sum == 0 then p.exposures
                       else p.exposures[P.Position(agent, region) := P.Exposure(p, agent, region) + sum])
  }

  /** `v` is `w` after draws of `sum`: the same balances moved, and everything else as it was but for the clock. */
  ghost predicate Drew(w: N.World, agent: Address, region: Symbol, sum: int, v: N.World) {
    && v == w.(ledger := v.ledger, pool := v.pool)
    && v.ledger == w.ledger.(now := v.ledger.now, sequence := v.ledger.sequence, txHash := v.ledger.txHash, book := v.ledger.book)
    && (if sum == 0 then v.ledger.book == w.ledger.book
        else w.pool.config.Some? && Moved(w.ledger.book, w.pool.config.value.token, POOL, agent, sum) == Some(v.ledger.book))
    && PoolDrew(w.pool, agent, region, sum, v.pool)
  }

  /** A draw as a transaction of its own. */
  function DrawOf(agent: nat, region: Symbol, foreign: N.Foreign, amount: i128): N.Invocation {
    N.Invocation(agent, "", foreign, N.ToPool(N.DrawLiquidity(Account(agent), region, amount)))
  }

  /** What the pool hears of the agent. */
  function Heard(w: N.World, agent: nat, region: Symbol, foreign: N.Foreign): P.RegistryView {
    N.AskRegistry(w.registry, w.pool, foreign.registry, Account(agent), region)
  }

  predicate CanDraw(w: N.World, agent: nat, region: Symbol, foreign: N.Foreign, amount: int) {
    Drawable(w.pool, w.ledger, Account(agent), Heard(w, agent, region, foreign), Account(agent), region, amount)
  }

  /** A draw that goes through is one that can be drawn, and leads where it should. */
  lemma DrawTransaction(w: N.World, agent: nat, region: Symbol, foreign: N.Foreign, amount: i128, txHash: string)
    requires SoundFor(w.pool, Account(agent), region) && 0 < amount
    ensures var i := DrawOf(agent, region, foreign, amount).(txHash := txHash);
            && (N.Succeeds(w, i) <==> CanDraw(w, agent, region, foreign, amount))
            && (N.Succeeds(w, i) ==> Drew(w, Account(agent), region, amount, N.Run(w, i)))
  {
    var i := DrawOf(agent, region, foreign, amount).(txHash := txHash);
    var started, view := N.InTransaction(w, txHash), Heard(w, agent, region, foreign);
    DrawsExactly(w.pool, started.ledger, Account(agent), view, Account(agent), region, amount);
    if N.Succeeds(w, i) {
      DrawLeads(w.pool, started.ledger, Account(agent), view, Account(agent), region, amount);
    }
  }

  /** What can be drawn, or nothing to draw. */
  predicate Covers(w: N.World, agent: nat, region: Symbol, foreign: N.Foreign, sum: int) {
    sum == 0 || CanDraw(w, agent, region, foreign, sum)
  }

  /** After draws of `sum`, at whatever times, exactly what the whole sum allowed can be drawn. */
  lemma CanDrawAfter(w: N.World, agent: nat, region: Symbol, foreign: N.Foreign, sum: int, y: int, mid: N.World)
    requires SoundFor(w.pool, Account(agent), region) && 0 <= sum && 0 < y
    requires Covers(w, agent, region, foreign, sum) && Drew(w, Account(agent), region, sum, mid)
    ensures SoundFor(mid.pool, Account(agent), region)
    ensures CanDraw(mid, agent, region, foreign, y) <==> CanDraw(w, agent, region, foreign, sum + y)
  {
    if 0 < sum {
      MovedTwice(w.ledger.book, w.pool.config.value.token, POOL, Account(agent), sum, y);
      BondTestExactly(w.pool.config.value, P.Exposure(w.pool, Account(agent), region) + sum,
                      Heard(w, agent, region, foreign).bond.value);
    }
  }

  lemma PoolDrewTwice(p: P.PoolContractState, agent: Address, region: Symbol, x: int, y: int,
                      mid: P.PoolContractState, last: P.PoolContractState)
    requires 0 <= x && 0 <= y && PoolDrew(p, agent, region, x, mid) && PoolDrew(mid, agent, region, y, last)
    ensures PoolDrew(p, agent, region, x + y, last)
  {
  }

  lemma DrewTwice(w: N.World, agent: Address, region: Symbol, x: int, y: int, mid: N.World, last: N.World)
    requires 0 <= x && 0 <= y && agent != POOL
    requires Drew(w, agent, region, x, mid) && Drew(mid, agent, region, y, last)
    ensures Drew(w, agent, region, x + y, last)
  {
    PoolDrewTwice(w.pool, agent, region, x, y, mid.pool, last.pool);
    if 0 < x && 0 < y {
      MovedTwice(w.ledger.book, w.pool.config.value.token, POOL, agent, x, y);
    }
  }

  /* ------------------------------ whole sequences ------------------------------ */

  /** An action that is a draw by this agent in this region, or the close of a ledger. */
  predicate DrawsOrWaits(a: N.Action, agent: nat, region: Symbol, foreign: N.Foreign) {
    match a
    case CloseLedger(_) => true
    case Invoke(i) =>
      && i.call.ToPool? && i.call.pool.DrawLiquidity? && 0 < i.call.pool.amount
      && i == DrawOf(agent, region, foreign, i.call.pool.amount).(txHash := i.txHash)
    case _ => false
  }

  predicate OnlyDraws(actions: seq<N.Action>, agent: nat, region: Symbol, foreign: N.Foreign) {
    forall k :: 0 <= k < |actions| ==> DrawsOrWaits(actions[k], agent, region, foreign)
  }

  function Asked(a: N.Action): int {
    if a.Invoke? && a.invocation.call.ToPool? && a.invocation.call.pool.DrawLiquidity? then a.invocation.call.pool.amount else 0
  }

  function TotalAsked(actions: seq<N.Action>): int {
    if actions == [] then 0 else TotalAsked(actions[..|actions| - 1]) + Asked(actions[|actions| - 1])
  }

  /** Every transaction among the actions goes through. */
  ghost predicate AllGoThrough(w: N.World, actions: seq<N.Action>)
    decreases |actions|
  {
    actions == []
    || (var init, last := actions[..|actions| - 1], actions[|actions| - 1];
        AllGoThrough(w, init) && (last.Invoke? ==> N.Succeeds(N.After(w, init), last.invocation)))
  }

  /** What one such action does. */
  lemma ActionDraws(w: N.World, a: N.Action, agent: nat, region: Symbol, foreign: N.Foreign)
    requires SoundFor(w.pool, Account(agent), region) && DrawsOrWaits(a, agent, region, foreign)
    ensures 0 <= Asked(a) && (a.Invoke? <==> 0 < Asked(a))
    ensures a.Invoke? ==> (N.Succeeds(w, a.invocation) <==> CanDraw(w, agent, region, foreign, Asked(a)))
    ensures (a.Invoke? ==> N.Succeeds(w, a.invocation)) ==> Drew(w, Account(agent), region, Asked(a), N.Step(w, a))
  {
    if a.Invoke? {
      DrawTransaction(w, agent, region, foreign, Asked(a), a.invocation.txHash);
    }
  }

  /** Less is covered where more is. */
  lemma LessIsCovered(w: N.World, agent: nat, region: Symbol, foreign: N.Foreign, less: int, more: int)
    requires SoundFor(w.pool, Account(agent), region) && 0 <= less <= more
    ensures Covers(w, agent, region, foreign, more) ==> Covers(w, agent, region, foreign, less)
  {
    if 0 < less && CanDraw(w, agent, region, foreign, more) {
      LessIsDrawable(w.pool, w.ledger, Account(agent), Heard(w, agent, region, foreign), Account(agent), region, more, less);
    }
  }

  lemma OneMoreAction(w: N.World, agent: nat, region: Symbol, foreign: N.Foreign, sum: int, mid: N.World, a: N.Action)
    requires SoundFor(w.pool, Account(agent), region) && 0 <= sum && DrawsOrWaits(a, agent, region, foreign)
    requires Covers(w, agent, region, foreign, sum) && Drew(w, Account(agent), region, sum, mid)
    ensures var through := a.Invoke? ==> N.Succeeds(mid, a.invocation);
            && (through <==> Covers(w, agent, region, foreign, sum + Asked(a)))
            && (through ==> Drew(w, Account(agent), region, sum + Asked(a), N.Step(mid, a)))
  {
    DrewTwiceAtMost(w, agent, region, foreign, sum, mid, Asked(a));
    ActionDraws(mid, a, agent, region, foreign);
    DrewOn(w, Account(agent), region, sum, Asked(a), mid, N.Step(mid, a));
  }

  lemma DrewTwiceAtMost(w: N.World, agent: nat, region: Symbol, foreign: N.Foreign, sum: int, mid: N.World, y: int)
    requires SoundFor(w.pool, Account(agent), region) && 0 <= sum
    requires Covers(w, agent, region, foreign, sum) && Drew(w, Account(agent), region, sum, mid)
    ensures SoundFor(mid.pool, Account(agent), region)
    ensures 0 < y ==> (CanDraw(mid, agent, region, foreign, y) <==> Covers(w, agent, region, foreign, sum + y))
  {
    CanDrawAfter(w, agent, region, foreign, sum, 1, mid);
    if 0 < y {
      CanDrawAfter(w, agent, region, foreign, sum, y, mid);
    }
  }

  lemma DrewOn(w: N.World, agent: Address, region: Symbol, x: int, y: int, mid: N.World, last: N.World)
    requires 0 <= x && agent != POOL && Drew(w, agent, region, x, mid)
    ensures 0 <= y && Drew(mid, agent, region, y, last) ==> Drew(w, agent, region, x + y, last)
  {
    if 0 <= y && Drew(mid, agent, region, y, last) {
      DrewTwice(w, agent, region, x, y, mid, last);
    }
  }

  /** Draws over any number of transactions and ledgers go through exactly when their sum is covered at the start. */
  lemma {:induction false} DrawsOverTime(w: N.World, actions: seq<N.Action>, agent: nat, region: Symbol, foreign: N.Foreign)
    requires SoundFor(w.pool, Account(agent), region) && OnlyDraws(actions, agent, region, foreign)
    ensures 0 <= TotalAsked(actions)
    ensures AllGoThrough(w, actions) <==> Covers(w, agent, region, foreign, TotalAsked(actions))
    ensures AllGoThrough(w, actions) ==> Drew(w, Account(agent), region, TotalAsked(actions), N.After(w, actions))
    decreases |actions|
  {
    if actions != [] {
      var init, last := actions[..|actions| - 1], actions[|actions| - 1];
      DrawsOverTime(w, init, agent, region, foreign);
      LessIsCovered(w, agent, region, foreign, TotalAsked(init), TotalAsked(actions));
      if AllGoThrough(w, init) {
        OneMoreAction(w, agent, region, foreign, TotalAsked(init), N.After(w, init), last);
      }
    }
  }

  /** Equal worlds, but for the clock, the pool's counters and the times of its last updates. */
  ghost predicate Alike(w: N.World, v: N.World) { Drew(w, POOL, "", 0, v) }

  lemma SameDrawsAlike(w: N.World, agent: Address, region: Symbol, sum: int, one: N.World, other: N.World)
    requires Drew(w, agent, region, sum, one) && Drew(w, agent, region, sum, other)
    ensures Alike(one, other)
  {
  }

  /**
   Splitting a draw over any number of transactions and ledgers gains nothing: with the registry
   left alone they all go through exactly when one draw of their sum would have at the start, and
   leave the same balances, exposures and pool totals.
   */
  lemma SplittingOverTimeGainsNothing(w: N.World, actions: seq<N.Action>, agent: nat, region: Symbol, foreign: N.Foreign)
    requires SoundFor(w.pool, Account(agent), region) && OnlyDraws(actions, agent, region, foreign)
    requires 0 < TotalAsked(actions)
    ensures if TotalAsked(actions) <= I128_MAX then
              var whole := DrawOf(agent, region, foreign, TotalAsked(actions));
              && (AllGoThrough(w, actions) <==> N.Succeeds(w, whole))
              && (AllGoThrough(w, actions) ==> Alike(N.Run(w, whole), N.After(w, actions)))
            else !AllGoThrough(w, actions)
  {
    DrawsOverTime(w, actions, agent, region, foreign);
    if TotalAsked(actions) <= I128_MAX {
      DrawTransaction(w, agent, region, foreign, TotalAsked(actions), "");
      if AllGoThrough(w, actions) {
        SameDrawsAlike(w, Account(agent), region, TotalAsked(actions),
                       N.Run(w, DrawOf(agent, region, foreign, TotalAsked(actions))), N.After(w, actions));
      }
    }
  }
}
