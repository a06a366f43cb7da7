/**
 Splitting a draw gains nothing: draws one after another do exactly what one draw of their sum
 does, so both limits bind on the cumulative exposure.
 */
module Draws {
  import opened Prelude
  import opened Chain
  import N = Network
  import opened PoolRules
  import opened Standing
  import R = RegistryRules

  /** What a draw needs whatever its size. */
  predicate MayDraw(p: PoolContractState, caller: Address, view: RegistryView, agent: Address, region: Symbol) {
    && caller == agent
    && p.config.Some? && !p.config.value.paused
    && region in p.pools && p.pools[region].active
    && view.authorized == Answered(true) && view.bond.Answered?
  }

  /** Room in the region after all: undrawn float, and utilization inside the cap. */
  predicate RoomInRegion(s: PoolState, drawn: int) {
    && drawn <= s.totalDeposited
    && drawn * 10_000 <= I128_MAX
    && (0 < s.totalDeposited ==> drawn * 10_000 < (s.utilizationCapBps + 1) * s.totalDeposited)
  }

  /** Room under the bond: the requirement can be computed and is covered. */
  predicate CoveredBy(config: PoolConfig, exposure: int, bond: int) {
    && exposure * config.collateralRatioBps <= I128_MAX
    && exposure * config.collateralRatioBps < (bond + 1) * 10_000
  }

  /** When a draw of `amount` would go through, in terms of the totals it leads to. */
  predicate Drawable(p: PoolContractState, ledger: LedgerState, caller: Address, view: RegistryView,
                     agent: Address, region: Symbol, amount: int)
  {
    && MayDraw(p, caller, view, agent, region)
    && RoomInRegion(p.pools[region], p.pools[region].totalDrawn + amount)
    && CoveredBy(p.config.value, Exposure(p, agent, region) + amount, view.bond.value)
    && Moved(ledger.book, p.config.value.token, POOL, agent, amount).Some?
  }

  /** The region and the agent in it, as the invariant leaves them. */
  ghost predicate SoundFor(p: PoolContractState, agent: Address, region: Symbol) {
    && (p.config.Some? ==> 0 < p.config.value.collateralRatioBps)
    && 0 <= Exposure(p, agent, region) <= I128_MAX
    && (region in p.pools ==>
          && p.pools[region].region == region
          && 0 <= p.pools[region].totalDrawn <= p.pools[region].totalDeposited <= I128_MAX)
  }

  lemma SoundPoolIsSoundFor(p: PoolContractState, agent: Address, region: Symbol)
    requires PoolInv(p)
    ensures SoundFor(p, agent, region)
  {
    if region in p.pools {
      assert RegionSound(p, region);
      StakeWithinTotal(p.exposures, Position(agent, region));
    }
  }

  lemma DrawnAfterExactly(s: PoolState, amount: int)
    requires 0 < amount && 0 <= s.totalDrawn && s.totalDrawn + amount <= s.totalDeposited <= I128_MAX
    ensures DrawnAfter(s, amount).Ok? <==> RoomInRegion(s, s.totalDrawn + amount)
  {
    var drawn := s.totalDrawn + amount;
    var utilization := Quotient(drawn * 10_000, s.totalDeposited);
    ShareOfWhole(drawn, s.totalDeposited);
    ScaleOrder(s.utilizationCapBps + 1, utilization, s.totalDeposited);
    ScaleOrder(utilization + 1, s.utilizationCapBps + 1, s.totalDeposited);
  }

  lemma BondTestExactly(config: PoolConfig, exposure: int, bond: int)
    requires 0 <= exposure && 0 < config.collateralRatioBps
    ensures BondRequirement(config, exposure).Ok? && BondRequirement(config, exposure).value <= bond
        <==> CoveredBy(config, exposure, bond)
    ensures CoveredBy(config, exposure, bond) ==> exposure <= I128_MAX
  {
    ScaleOrder(1, config.collateralRatioBps, exposure);
  }

  /** A draw goes through exactly when it is drawable. */
  lemma DrawsExactly(p: PoolContractState, ledger: LedgerState, caller: Address, view: RegistryView,
                     agent: Address, region: Symbol, amount: i128)
    requires SoundFor(p, agent, region) && 0 < amount
    ensures DrawLiquidity(p, ledger, caller, view, agent, region, amount).Ok?
        <==> Drawable(p, ledger, caller, view, agent, region, amount)
  {
    if MayDraw(p, caller, view, agent, region) && amount <= p.pools[region].totalDeposited - p.pools[region].totalDrawn {
      DrawnAfterExactly(p.pools[region], amount);
      BondTestExactly(p.config.value, Exposure(p, agent, region) + amount, view.bond.value);
    }
  }

  /** Room for more is room for less. */
  lemma LessIsDrawable(p: PoolContractState, ledger: LedgerState, caller: Address, view: RegistryView,
                       agent: Address, region: Symbol, more: int, less: int)
    requires SoundFor(p, agent, region) && 0 < less <= more
    requires Drawable(p, ledger, caller, view, agent, region, more)
    requires agent != POOL
    ensures Drawable(p, ledger, caller, view, agent, region, less)
  {
    var s, ratio, exposure := p.pools[region], p.config.value.collateralRatioBps, Exposure(p, agent, region);
    ScaleOrder(exposure + less, exposure + more, ratio);
    ScaleOrder(0, exposure + less, ratio);
  }

  /** Two moves from one holder to another are one move of the sum. */
  lemma MovedTwice(book: Book, token: Address, from: Address, to: Address, x: int, y: int)
    requires from != to && 0 < x && 0 < y
    requires Moved(book, token, from, to, x).Some?
    ensures Moved(Moved(book, token, from, to, x).value, token, from, to, y) == Moved(book, token, from, to, x + y)
  {
    var once := Moved(book, token, from, to, x).value;
    MovedBalances(book, token, from, to, x);
    if Moved(book, token, from, to, x + y).Some? {
      assert Moved(once, token, from, to, y).value == Moved(book, token, from, to, x + y).value;
    }
  }

  /** Equal but for the dashboard counters. */
  predicate SameButStats(p: PoolContractState, q: PoolContractState) { q == p.(stats := q.stats) }

  /** After one draw, another is drawable exactly when their sum was. */
  lemma DrawableAfterDraw(p: PoolContractState, ledger: LedgerState, caller: Address, view: RegistryView,
                          agent: Address, region: Symbol, x: i128, y: int)
    requires SoundFor(p, agent, region) && 0 < x && 0 < y && agent != POOL
    requires DrawLiquidity(p, ledger, caller, view, agent, region, x).Ok?
    ensures var done := DrawLiquidity(p, ledger, caller, view, agent, region, x).value;
            && SoundFor(done.state, agent, region)
            && (Drawable(done.state, done.ledger, caller, view, agent, region, y)
                <==> Drawable(p, ledger, caller, view, agent, region, x + y))
  {
    DrawSteps(p, ledger, caller, view, agent, region, x);
    DrawsExactly(p, ledger, caller, view, agent, region, x);
    MovedTwice(ledger.book, p.config.value.token, POOL, agent, x, y);
  }

  lemma BookedTwice(p: PoolContractState, once: LedgerState, twice: LedgerState, agent: Address, region: Symbol, x: int, y: int)
    requires region in p.pools && p.pools[region].region == region && once.now == twice.now
    ensures var s := p.pools[region];
            var first := BookDraw(p, once, agent, s, s.totalDrawn + x, Exposure(p, agent, region) + x);
            var t := first.state.pools[region];
            var second := BookDraw(first.state, twice, agent, t, t.totalDrawn + y, Exposure(first.state, agent, region) + y);
            var whole := BookDraw(p, twice, agent, s, s.totalDrawn + (x + y), Exposure(p, agent, region) + (x + y));
            && SameButStats(second.state, whole.state)
            && second.ledger == whole.ledger && second.value == whole.value
  {
  }

  /** The same outcome, but for the counters. */
  predicate SameOutcome(one: PoolResult<int>, other: PoolResult<int>) {
    && (one.Ok? <==> other.Ok?)
    && (one.Ok? ==> SameButStats(one.value.state, other.value.state)
                    && one.value.ledger == other.value.ledger && one.value.value == other.value.value)
  }

  lemma SecondDrawsIfWhole(p: PoolContractState, ledger: LedgerState, caller: Address, view: RegistryView,
                           agent: Address, region: Symbol, x: i128, y: i128)
    requires SoundFor(p, agent, region) && 0 < x && 0 < y && agent != POOL
    requires DrawLiquidity(p, ledger, caller, view, agent, region, x).Ok?
    requires InI128(x + y)
    ensures var first := DrawLiquidity(p, ledger, caller, view, agent, region, x).value;
            && SoundFor(first.state, agent, region)
            && (DrawLiquidity(first.state, first.ledger, caller, view, agent, region, y).Ok?
                <==> DrawLiquidity(p, ledger, caller, view, agent, region, x + y).Ok?)
            && (DrawLiquidity(p, ledger, caller, view, agent, region, x + y).Ok? ==>
                  region in p.pools && p.pools[region].region == region)
  {
    var first := DrawLiquidity(p, ledger, caller, view, agent, region, x).value;
    DrawableAfterDraw(p, ledger, caller, view, agent, region, x, y);
    DrawsExactly(p, ledger, caller, view, agent, region, x + y);
    DrawsExactly(first.state, first.ledger, caller, view, agent, region, y);
  }

  lemma TwoDrawsAreOne(p: PoolContractState, ledger: LedgerState, caller: Address, view: RegistryView,
                       agent: Address, region: Symbol, x: i128, y: i128)
    requires SoundFor(p, agent, region) && 0 < x && 0 < y && agent != POOL
    requires DrawLiquidity(p, ledger, caller, view, agent, region, x).Ok?
    requires InI128(x + y)
    ensures var first := DrawLiquidity(p, ledger, caller, view, agent, region, x).value;
            SameOutcome(DrawLiquidity(first.state, first.ledger, caller, view, agent, region, y),
                        DrawLiquidity(p, ledger, caller, view, agent, region, x + y))
  {
    var first := DrawLiquidity(p, ledger, caller, view, agent, region, x).value;
    SecondDrawsIfWhole(p, ledger, caller, view, agent, region, x, y);
    if DrawLiquidity(p, ledger, caller, view, agent, region, x + y).Ok? {
      DrawLeads(p, ledger, caller, view, agent, region, x);
      DrawLeads(p, ledger, caller, view, agent, region, x + y);
      DrawLeads(first.state, first.ledger, caller, view, agent, region, y);
      TwoDrawsLeadToOne(p, ledger, agent, region, x, y, first,
        DrawLiquidity(first.state, first.ledger, caller, view, agent, region, y).value,
        DrawLiquidity(p, ledger, caller, view, agent, region, x + y).value);
    }
  }

  /** Where a successful draw of `amount` leads. */
  predicate DrawnTo(p: PoolContractState, ledger: LedgerState, agent: Address, region: Symbol, amount: int,
                    done: Done<PoolContractState, int>)
  {
    && p.config.Some? && region in p.pools
    && var moved := Moved(ledger.book, p.config.value.token, POOL, agent, amount);
    && moved.Some?
    && var s := p.pools[region];
       done == BookDraw(p, ledger.(book := moved.value), agent, s, s.totalDrawn + amount, Exposure(p, agent, region) + amount)
  }

  lemma DrawLeads(p: PoolContractState, ledger: LedgerState, caller: Address, view: RegistryView,
                  agent: Address, region: Symbol, amount: i128)
    requires DrawLiquidity(p, ledger, caller, view, agent, region, amount).Ok?
    ensures DrawnTo(p, ledger, agent, region, amount, DrawLiquidity(p, ledger, caller, view, agent, region, amount).value)
  {
    DrawSteps(p, ledger, caller, view, agent, region, amount);
  }

  lemma TwoDrawsLeadToOne(p: PoolContractState, ledger: LedgerState, agent: Address, region: Symbol, x: int, y: int,
                          first: Done<PoolContractState, int>, second: Done<PoolContractState, int>, whole: Done<PoolContractState, int>)
    requires region in p.pools && p.pools[region].region == region && 0 < x && 0 < y && agent != POOL
    requires DrawnTo(p, ledger, agent, region, x, first)
    requires DrawnTo(first.state, first.ledger, agent, region, y, second)
    requires DrawnTo(p, ledger, agent, region, x + y, whole)
    ensures SameOutcome(Ok(second), Ok(whole))
  {
    MovedTwice(ledger.book, p.config.value.token, POOL, agent, x, y);
    BookedTwice(p, first.ledger, whole.ledger, agent, region, x, y);
  }

  /** The counters play no part in a draw. */
  lemma StatsDoNotMatter(p: PoolContractState, q: PoolContractState, ledger: LedgerState, caller: Address, view: RegistryView,
                         agent: Address, region: Symbol, amount: i128)
    requires SameButStats(p, q)
    ensures SameOutcome(DrawLiquidity(p, ledger, caller, view, agent, region, amount),
                        DrawLiquidity(q, ledger, caller, view, agent, region, amount))
  {
  }

  /** Draws one after another, stopping at the first that fails; the registry answers the same throughout. */
  function DrawAll(p: PoolContractState, ledger: LedgerState, caller: Address, view: RegistryView,
                   agent: Address, region: Symbol, amounts: seq<i128>): PoolResult<int>
  {
    if amounts == [] then Ok(Done(p, ledger, Exposure(p, agent, region)))
    else
      var done :- DrawAll(p, ledger, caller, view, agent, region, amounts[..|amounts| - 1]);
      DrawLiquidity(done.state, done.ledger, caller, view, agent, region, amounts[|amounts| - 1])
  }

  function Sum(amounts: seq<i128>): int {
    if amounts == [] then 0 else Sum(amounts[..|amounts| - 1]) + amounts[|amounts| - 1]
  }

  /** The outcome one draw of `sum` has, which fails if there is no such i128. */
  predicate LikeOneDraw(outcome: PoolResult<int>, p: PoolContractState, ledger: LedgerState, caller: Address, view: RegistryView,
                        agent: Address, region: Symbol, sum: int)
  {
    if InI128(sum) then SameOutcome(outcome, DrawLiquidity(p, ledger, caller, view, agent, region, sum)) else !outcome.Ok?
  }

  /**
   Splitting a draw gains nothing: consecutive draws all succeed exactly when one draw of their
   sum does, and leave the same balances, exposure and pool totals.
   */
  lemma {:induction false} SplittingGainsNothing(p: PoolContractState, ledger: LedgerState, caller: Address, view: RegistryView,
                                                 agent: Address, region: Symbol, amounts: seq<i128>)
    requires SoundFor(p, agent, region) && agent != POOL
    requires amounts != [] && forall k :: 0 <= k < |amounts| ==> 0 < amounts[k]
    ensures 0 < Sum(amounts)
    ensures LikeOneDraw(DrawAll(p, ledger, caller, view, agent, region, amounts),
                        p, ledger, caller, view, agent, region, Sum(amounts))
    decreases |amounts|
  {
    var init, last := amounts[..|amounts| - 1], amounts[|amounts| - 1];
    if init == [] {
      OneDraw(p, ledger, caller, view, agent, region, last);
      assert amounts == [last];
    } else {
      SplittingGainsNothing(p, ledger, caller, view, agent, region, init);
      OneMoreDraw(p, ledger, caller, view, agent, region, init, last);
    }
  }

  lemma OneDraw(p: PoolContractState, ledger: LedgerState, caller: Address, view: RegistryView,
                agent: Address, region: Symbol, amount: i128)
    ensures Sum([amount]) == amount
    ensures LikeOneDraw(DrawAll(p, ledger, caller, view, agent, region, [amount]), p, ledger, caller, view, agent, region, amount)
  {
    assert [amount][..0] == [];
  }

  /** The step of that induction: what held of the draws so far holds with one more. */
  lemma OneMoreDraw(p: PoolContractState, ledger: LedgerState, caller: Address, view: RegistryView,
                    agent: Address, region: Symbol, init: seq<i128>, last: i128)
    requires SoundFor(p, agent, region) && agent != POOL && 0 < Sum(init) && 0 < last
    requires LikeOneDraw(DrawAll(p, ledger, caller, view, agent, region, init), p, ledger, caller, view, agent, region, Sum(init))
    ensures var all := DrawAll(p, ledger, caller, view, agent, region, init);
            var more := if all.Ok? then DrawLiquidity(all.value.state, all.value.ledger, caller, view, agent, region, last) else all;
            LikeOneDraw(more, p, ledger, caller, view, agent, region, Sum(init) + last)
  {
    var all := DrawAll(p, ledger, caller, view, agent, region, init);
    var sum := Sum(init);
    if all.Ok? {
      var whole := DrawLiquidity(p, ledger, caller, view, agent, region, sum).value;
      StatsDoNotMatter(all.value.state, whole.state, whole.ledger, caller, view, agent, region, last);
      if InI128(sum + last) {
        TwoDrawsAreOne(p, ledger, caller, view, agent, region, sum, last);
      } else {
        DrawableAfterDraw(p, ledger, caller, view, agent, region, sum, last);
        DrawsExactly(whole.state, whole.ledger, caller, view, agent, region, last);
      }
    } else if InI128(sum + last) {
      LessIsDrawn(p, ledger, caller, view, agent, region, sum + last, sum);
    }
  }

  lemma LessIsDrawn(p: PoolContractState, ledger: LedgerState, caller: Address, view: RegistryView,
                    agent: Address, region: Symbol, more: i128, less: i128)
    requires SoundFor(p, agent, region) && agent != POOL && 0 < less <= more
    ensures DrawLiquidity(p, ledger, caller, view, agent, region, more).Ok?
        ==> DrawLiquidity(p, ledger, caller, view, agent, region, less).Ok?
  {
    DrawsExactly(p, ledger, caller, view, agent, region, less);
    DrawsExactly(p, ledger, caller, view, agent, region, more);
    if Drawable(p, ledger, caller, view, agent, region, more) {
      LessIsDrawable(p, ledger, caller, view, agent, region, more, less);
    }
  }

  /**
   The bond an agent is told to hold for a further draw is the bond the draw is tested against,
   as long as the requirement fits; where it does not, also because the exposure itself would not,
   the answer is 0 and no draw passes.
   */
  lemma RequiredBondIsTheTest(p: PoolContractState, agent: Address, region: Symbol, additional: i128, bond: int)
    requires SoundFor(p, agent, region) && p.config.Some? && 10_000 <= p.config.value.collateralRatioBps <= 100_000
    requires 0 < additional && 0 <= bond
    ensures var exposure, asked := Exposure(p, agent, region) + additional, RequiredBondFor(p, agent, region, additional);
            if exposure * p.config.value.collateralRatioBps <= I128_MAX
            then CoveredBy(p.config.value, exposure, bond) <==> asked <= bond
            else asked == 0 && !CoveredBy(p.config.value, exposure, bond)
  {
    var exposure, ratio := Exposure(p, agent, region) + additional, p.config.value.collateralRatioBps;
    ScaleOrder(0, exposure, ratio);
    ScaleOrder(10_000, ratio, exposure);
    ScaleOrder(10_000, ratio, I128_MAX);
  }

  /** The least exposure at which that happens at 100%: told to hold nothing, an agent can draw nothing. */
  lemma RequiredBondCanShowZero(agent: Address, region: Symbol, bond: int)
    ensures var config := PoolConfig(REGISTRY, Contract(9), 10_000, 8_000, false);
            var p := BLANK_POOL.(admin := Some(Account(0)), config := Some(config));
            RequiredBondFor(p, agent, region, I128_MAX / 10_000 + 1) == 0 && !CoveredBy(config, I128_MAX / 10_000 + 1, bond)
  {
  }

  /**
   A repayment succeeds exactly when the borrower signs it, owes that much in the region and has
   the tokens: neither a pause, nor a closed region, nor the registry has a say.
   */
  lemma RepaysExactly(p: PoolContractState, ledger: LedgerState, caller: Address, agent: Address, region: Symbol, amount: i128)
    requires PoolInv(p) && Sound(ledger.book)
    ensures RepayLiquidity(p, ledger, caller, agent, region, amount).Ok? <==>
      && caller == agent && p.config.Some?
      && 0 < amount <= Exposure(p, agent, region)
      && amount <= Balance(ledger.book, p.config.value.token, agent)
  {
    SoundPoolIsSoundFor(p, agent, region);
    if p.config.Some? && 0 < amount <= Exposure(p, agent, region) {
      assert region in p.pools;
      assert RegionSound(p, region);
      StakeWithinTotal(p.exposures, Position(agent, region));
      MovedIsSound(ledger.book, p.config.value.token, agent, POOL, amount);
    }
  }

  /* ------------------------------ both limits, at every draw of every run ------------------------------ */

  /** The registry's word on an agent, as the pool hears it inside a transaction. */
  function Heard(w: N.World, i: N.Invocation, agent: Address, region: Symbol): RegistryView {
    N.AskRegistry(w.registry, w.pool, i.foreign.registry, agent, region)
  }

  /**
   The only way an exposure grows: the agent itself draws, with standing in that very region, inside
   the cap, and covered by its bond at the new exposure.
   */
  ghost predicate GrowsByDraw(w: N.World, a: N.Action, next: N.World, agent: Address, region: Symbol, bond: int) {
    && a.Invoke? && a.invocation.call.ToPool? && a.invocation.call.pool.DrawLiquidity?
    && a.invocation.call.pool.agent == a.invocation.Caller() == agent && a.invocation.call.pool.region == region
    && w.pool.config.Some? && region in next.pool.pools
    && MayDrawOn(w, a.invocation.foreign.registry, agent, region, bond)
    && CoveredBy(w.pool.config.value, Exposure(next.pool, agent, region), bond)
    && RoomInRegion(next.pool.pools[region], next.pool.pools[region].totalDrawn)
  }

  lemma DrawGrows(p: PoolContractState, ledger: LedgerState, caller: Address, view: RegistryView,
                  drawer: Address, where: Symbol, amount: i128)
    requires PoolInv(p) && DrawLiquidity(p, ledger, caller, view, drawer, where, amount).Ok?
    ensures var next := DrawLiquidity(p, ledger, caller, view, drawer, where, amount).value.state;
            && caller == drawer && where in next.pools
            && view.authorized == Answered(true) && view.bond.Answered?
            && CoveredBy(p.config.value, Exposure(next, drawer, where), view.bond.value)
            && RoomInRegion(next.pools[where], next.pools[where].totalDrawn)
            && next.exposures == p.exposures[Position(drawer, where) := Exposure(next, drawer, where)]
  {
    SoundPoolIsSoundFor(p, drawer, where);
    DrawsExactly(p, ledger, caller, view, drawer, where, amount);
    DrawLeads(p, ledger, caller, view, drawer, where, amount);
  }

  /** Repayments lower one exposure, and no other call but a draw touches any. */
  lemma OtherCallsNeverGrow(w: N.World, caller: Address, foreign: N.Foreign, call: N.PoolCall, agent: Address, region: Symbol)
    requires PoolInv(w.pool) && !call.DrawLiquidity? && N.CallPool(w, caller, foreign, call).Some?
    ensures Exposure(N.CallPool(w, caller, foreign, call).value.pool, agent, region) <= Exposure(w.pool, agent, region)
  {
    match call
    case InitializePool(_, _, _, _, _) =>
    case ConfigurePool(change) => ConfigureFrame(w.pool, w.ledger, caller, change);
    case DepositLiquidity(provider, where, amount) => DepositEffect(w.pool, w.ledger, caller, provider, where, amount);
    case WithdrawLiquidity(provider, where, shares) => WithdrawEffect(w.pool, w.ledger, caller, provider, where, shares);
    case RepayLiquidity(debtor, where, amount) => RepayEffect(w.pool, w.ledger, caller, debtor, where, amount);
  }

  lemma PoolCallGrows(w: N.World, i: N.Invocation, agent: Address, region: Symbol) returns (bond: int)
    requires PoolInv(w.pool) && i.call.ToPool?
    requires N.CallPool(w, i.Caller(), i.foreign, i.call.pool).Some?
    ensures var next := N.CallPool(w, i.Caller(), i.foreign, i.call.pool).value;
            Exposure(w.pool, agent, region) < Exposure(next.pool, agent, region) ==> GrowsByDraw(w, N.Invoke(i), next, agent, region, bond)
  {
    match i.call.pool
    case DrawLiquidity(drawer, where, amount) =>
      var view := Heard(w, i, drawer, where);
      DrawGrows(w.pool, w.ledger, i.Caller(), view, drawer, where, amount);
      bond := view.bond.value;
      AskRegistryExactly(w, i.foreign.registry, drawer, where, bond);
    case _ =>
      OtherCallsNeverGrow(w, i.Caller(), i.foreign, i.call.pool, agent, region);
      bond := 0;
  }

  lemma ExposureGrowsOnlyCovered(w: N.World, a: N.Action, agent: Address, region: Symbol) returns (bond: int)
    requires PoolInv(w.pool)
    requires Exposure(w.pool, agent, region) < Exposure(N.Step(w, a).pool, agent, region)
    ensures GrowsByDraw(w, a, N.Step(w, a), agent, region, bond)
  {
    bond := 0;
    if a.Invoke? && N.Succeeds(w, a.invocation) {
      var started := N.InTransaction(w, a.invocation.txHash);
      if a.invocation.call.ToPool? {
        bond := PoolCallGrows(started, a.invocation, agent, region);
      }
    }
  }

  /** The bond the deployed registry records, or none. */
  function RecordedBond(r: R.RegistryState, agent: Address): int { if agent in r.agents then r.agents[agent].bond else 0 }

  /** While the deployed registry's bond is short of what the current exposure asks, no step lets that exposure grow. */
  lemma ShortBondFreezesExposure(w: N.World, a: N.Action, agent: Address, region: Symbol)
    requires PoolInv(w.pool) && w.pool.config.Some? && w.pool.config.value.registry == REGISTRY
    requires !CoveredBy(w.pool.config.value, Exposure(w.pool, agent, region), RecordedBond(w.registry, agent))
    ensures Exposure(N.Step(w, a).pool, agent, region) <= Exposure(w.pool, agent, region)
  {
    var before, after := Exposure(w.pool, agent, region), Exposure(N.Step(w, a).pool, agent, region);
    if before < after {
      var bond := ExposureGrowsOnlyCovered(w, a, agent, region);
      SoundPoolIsSoundFor(w.pool, agent, region);
      LessIsCovered(w.pool.config.value, before, after, bond);
    }
  }

  lemma LessIsCovered(config: PoolConfig, less: int, more: int, bond: int)
    requires 0 <= less <= more && CoveredBy(config, more, bond)
    ensures CoveredBy(config, less, bond)
  {
    ScaleOrder(less, more, config.collateralRatioBps);
  }
}
