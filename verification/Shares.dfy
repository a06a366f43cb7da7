/**
 The price of a share: for any positive deposit and share count no deposit or redemption lowers
 it, and on reachable regions it is exactly one.
 */
module Shares {
  import opened Prelude
  import opened Totals
  import opened Chain
  import opened PoolRules
  import N = Network
  import Custody

  predicate Priced(s: PoolState) { 0 < s.totalDeposited && 0 < s.totalShares }

  /** Deposited per share does not fall from `s` to `t`. */
  predicate PriceHolds(s: PoolState, t: PoolState) {
    s.totalDeposited * t.totalShares <= t.totalDeposited * s.totalShares
  }

  function Deposited(s: PoolState, amount: int, minted: int): PoolState {
    s.(totalDeposited := s.totalDeposited + amount, totalShares := s.totalShares + minted)
  }

  function Redeemed(s: PoolState, shares: int, amount: int): PoolState {
    s.(totalDeposited := s.totalDeposited - amount, totalShares := s.totalShares - shares)
  }

  /** A deposit mints its part of the shares, rounded down. */
  lemma MintedExactly(s: PoolState, amount: int)
    requires Priced(s) && 0 < amount && SharesFor(s, amount).Ok?
    ensures var minted := SharesFor(s, amount).value;
            0 <= minted && minted * s.totalDeposited <= amount * s.totalShares < (minted + 1) * s.totalDeposited
  {
    ScaleOrder(0, amount, s.totalShares);
  }

  /** Shares redeem for their part of the deposits, rounded down. */
  lemma RedeemedExactly(s: PoolState, shares: int)
    requires Priced(s) && 0 < shares && AmountFor(s, shares).Ok?
    ensures var redeemed := AmountFor(s, shares).value;
            0 <= redeemed && redeemed * s.totalShares <= shares * s.totalDeposited < (redeemed + 1) * s.totalShares
  {
    ScaleOrder(0, shares, s.totalDeposited);
  }

  /** Minting never dilutes the shares already out. */
  lemma DepositKeepsPrice(s: PoolState, amount: int)
    requires Priced(s) && 0 < amount && SharesFor(s, amount).Ok?
    ensures PriceHolds(s, Deposited(s, amount, SharesFor(s, amount).value))
  {
    MintedExactly(s, amount);
    Distributes(s.totalShares, SharesFor(s, amount).value, s.totalDeposited);
    Distributes(s.totalDeposited, amount, s.totalShares);
  }

  /** Redeeming never takes more than the shares' part. */
  lemma RedemptionKeepsPrice(s: PoolState, shares: int)
    requires Priced(s) && 0 < shares && AmountFor(s, shares).Ok?
    ensures PriceHolds(s, Redeemed(s, shares, AmountFor(s, shares).value))
  {
    RedeemedExactly(s, shares);
    var amount := AmountFor(s, shares).value;
    Distributes(s.totalShares - shares, shares, s.totalDeposited);
    Distributes(s.totalDeposited - amount, amount, s.totalShares);
  }

  /** The arithmetic of a round trip: what `minted` shares are worth after the deposit that minted them. */
  lemma RoundTripBound(deposited: int, shares: int, amount: int, minted: int, back: int)
    requires 0 < shares && 0 <= minted
    requires minted * deposited <= amount * shares && back * (shares + minted) <= minted * (deposited + amount)
    ensures back <= amount
  {
    Distributes(deposited, amount, minted);
    Distributes(shares, minted, amount);
    CancelFactor(back, amount, shares + minted);
  }

  /** Depositing and at once redeeming every share minted never returns more than was put in. */
  lemma NoFreeRoundTrip(s: PoolState, amount: int)
    requires Priced(s) && 0 < amount && SharesFor(s, amount).Ok? && 0 < SharesFor(s, amount).value
    ensures var minted := SharesFor(s, amount).value;
            var back := AmountFor(Deposited(s, amount, minted), minted);
            back.Ok? ==> back.value <= amount
  {
    var minted := SharesFor(s, amount).value;
    var t := Deposited(s, amount, minted);
    if AmountFor(t, minted).Ok? {
      MintedExactly(s, amount);
      RedeemedExactly(t, minted);
      RoundTripBound(s.totalDeposited, s.totalShares, amount, minted, AmountFor(t, minted).value);
    }
  }

  /** A region is emptied of shares exactly when it is emptied of deposits. */
  lemma SharesAndDepositsVanishTogether(s: PoolState, shares: int)
    requires Priced(s) && 0 < shares <= s.totalShares && AmountFor(s, shares).Ok?
    ensures var t := Redeemed(s, shares, AmountFor(s, shares).value);
            && 0 <= t.totalDeposited && 0 <= t.totalShares
            && (t.totalShares == 0 <==> t.totalDeposited == 0)
  {
    RedeemedExactly(s, shares);
    var x := AmountFor(s, shares).value;
    if shares == s.totalShares {
      ScaledBack(s.totalDeposited, s.totalShares);
    } else {
      ScaleOrder(shares + 1, s.totalShares, s.totalDeposited);
      if s.totalDeposited <= x {
        ScaleOrder(s.totalDeposited, x, s.totalShares);
      }
    }
  }

  /** What a holder's shares in a region would redeem for. */
  function ClaimIn(s: PoolState): (Position, int) -> int
    requires 0 < s.totalShares
  {
    (pos: Position, shares: int) => if pos.region == s.region then Quotient(shares * s.totalDeposited, s.totalShares) else 0
  }

  /** If the shares out are the holders' shares, all their claims together are covered by the deposits. */
  lemma ClaimsAreCovered(s: PoolState, shares: map<Position, int>)
    requires Priced(s) && s.totalShares == Total(shares, StakeIn(s.region))
    requires forall pos :: pos in shares ==> 0 <= shares[pos]
    ensures Total(shares, ClaimIn(s)) <= s.totalDeposited
  {
    var scaled := (pos: Position, held: int) => s.totalShares * ClaimIn(s)(pos, held);
    var due := (pos: Position, held: int) => s.totalDeposited * StakeIn(s.region)(pos, held);
    TotalScale(shares, ClaimIn(s), scaled, s.totalShares);
    TotalScale(shares, StakeIn(s.region), due, s.totalDeposited);
    forall pos | pos in shares ensures scaled(pos, shares[pos]) <= due(pos, shares[pos]) {
      ClaimAtMost(shares[pos], s.totalDeposited, s.totalShares);
    }
    TotalOrdered(shares, scaled, due);
    CancelFactor(Total(shares, ClaimIn(s)), s.totalDeposited, s.totalShares);
  }

  lemma ClaimAtMost(held: int, deposited: int, shares: int)
    requires 0 <= held && 0 <= deposited && 0 < shares
    ensures shares * Quotient(held * deposited, shares) <= deposited * held
  {
    ScaleOrder(0, held, deposited);
  }

  /* ------------------------------ reachable states ------------------------------ */

  /** A region's books, as every run leaves them. */
  ghost predicate BooksBalance(p: PoolContractState, g: Symbol)
    requires g in p.pools
  {
    var s := p.pools[g];
    && 0 <= s.totalDrawn <= s.totalDeposited
    && s.totalDrawn == Total(p.exposures, StakeIn(g))
    && s.totalShares == Total(p.shares, StakeIn(g))
    && s.totalShares == s.totalDeposited
    && (|p.shares| <= U32_MAX ==> s.depositorCount == Total(p.shares, HolderIn(g)))
    && s.UtilizationBps<LiquidityError>().Ok? && s.UtilizationBps<LiquidityError>().value <= 10_000
  }

  /**
   In every run: drawn is the sum of exposures, shares are the sum of balances and equal the
   deposits, the depositor count is exact, and the utilization figure never traps.
   */
  lemma BooksBalanceOverRuns(w: N.World, actions: seq<N.Action>, g: Symbol)
    requires Custody.Inv(w) && g in N.After(w, actions).pool.pools
    ensures BooksBalance(N.After(w, actions).pool, g)
  {
    Custody.RunKeepsInv(w, actions);
    SoundBooksBalance(N.After(w, actions).pool, g);
  }

  lemma SoundBooksBalance(p: PoolContractState, g: Symbol)
    requires PoolInv(p) && g in p.pools
    ensures BooksBalance(p, g)
  {
    assert RegionSound(p, g);
    UtilizationNeverTraps(p, g);
  }

  /** What the pool must hold for redemptions to be paid. */
  ghost predicate Backed(p: PoolContractState, ledger: LedgerState) {
    && PoolInv(p) && Sound(ledger.book)
    && (p.config.Some? ==> Owed(p, p.config.value.token) <= Balance(ledger.book, p.config.value.token, POOL))
  }

  lemma FloatIsThere(p: PoolContractState, ledger: LedgerState, g: Symbol)
    requires Backed(p, ledger) && p.config.Some? && g in p.pools
    ensures p.pools[g].totalDeposited - p.pools[g].totalDrawn <= Balance(ledger.book, p.config.value.token, POOL)
  {
    forall k | k in p.pools ensures 0 <= UndrawnFloat()(k, p.pools[k]) {
      assert RegionSound(p, k);
    }
    TotalCovers(p.pools, UndrawnFloat(), g);
  }

  /**
   A redemption succeeds exactly when the caller holds the shares, the pool is not paused, the
   undrawn float covers them, and shares times deposits stay inside i128: a provider whose holding
   is too large for that product must redeem in parts.
   */
  lemma RedeemsExactly(p: PoolContractState, ledger: LedgerState, caller: Address, provider: Address, g: Symbol, shares: i128)
    requires Backed(p, ledger) && 0 < shares
    ensures WithdrawLiquidity(p, ledger, caller, provider, g, shares).Ok? <==>
      && caller == provider && p.config.Some? && !p.config.value.paused && g in p.pools
      && shares <= ShareBalance(p, provider, g)
      && shares <= p.pools[g].totalDeposited - p.pools[g].totalDrawn
      && shares * p.pools[g].totalDeposited <= I128_MAX
  {
    if g in p.pools && shares <= ShareBalance(p, provider, g) {
      assert RegionSound(p, g);
      StakeWithinTotal(p.shares, Position(provider, g));
      OneForOne(p, g, shares);
      if p.config.Some? && shares <= p.pools[g].totalDeposited - p.pools[g].totalDrawn {
        FloatIsThere(p, ledger, g);
        MovedIsSound(ledger.book, p.config.value.token, POOL, provider, shares);
      }
    }
  }

  /* ------------------------------ a holding too large to redeem at once ------------------------------ */

  const TOKEN := Contract(9)
  const HOLDING: i128 := 0x1_0000_0000_0000_0000

  /** A pool, one region, and one provider who deposits 2^64 units. */
  const BIG_DEPOSIT: seq<N.Action> :=
    [N.Signed(0, N.ToPool(N.InitializePool(Account(0), REGISTRY, TOKEN, 10_000, 8_000))),
     N.Signed(0, N.ToPool(N.ConfigurePool(OpenRegion("x", 0)))),
     N.Mint(TOKEN, Account(1), HOLDING),
     N.Signed(1, N.ToPool(N.DepositLiquidity(Account(1), "x", HOLDING)))]

  /** The region open, nothing in it, and the provider funded. */
  ghost predicate Opened(w: N.World) {
    && w.pool.config == Some(PoolConfig(REGISTRY, TOKEN, 10_000, 8_000, false))
    && w.pool.pools.Keys == {"x"} && w.pool.pools["x"].region == "x" && w.pool.pools["x"].active
    && w.pool.pools["x"].totalDeposited == w.pool.pools["x"].totalDrawn == w.pool.pools["x"].totalShares == 0
    && w.pool.shares == map[]
    && Balance(w.ledger.book, TOKEN, Account(1)) == HOLDING && Balance(w.ledger.book, TOKEN, POOL) == 0
  }

  lemma PoolOpens(w: N.World)
    requires N.Blank(w)
    ensures Opened(N.Step(N.Step(N.Step(w, BIG_DEPOSIT[0]), BIG_DEPOSIT[1]), BIG_DEPOSIT[2]))
  {
    assert Supply(map[], TOKEN) == 0;
    var w1 := N.Step(w, BIG_DEPOSIT[0]);
    var w2 := N.Step(w1, BIG_DEPOSIT[1]);
    assert w2.pool.pools.Keys == {"x"} && w2.ledger.book == map[];
  }

  /** All of the region is one provider's, undrawn, and the pool holds it. */
  ghost predicate Held(p: PoolContractState, holding: int) {
    && p.config == Some(PoolConfig(REGISTRY, TOKEN, 10_000, 8_000, false))
    && "x" in p.pools
    && p.pools["x"].totalDeposited == p.pools["x"].totalShares == holding && p.pools["x"].totalDrawn == 0
    && ShareBalance(p, Account(1), "x") == holding
  }

  lemma DepositIsHeld(w: N.World)
    requires Opened(w)
    ensures Held(N.Step(w, BIG_DEPOSIT[3]).pool, HOLDING)
  {
    assert DepositLiquidity(w.pool, N.InTransaction(w, "").ledger, Account(1), Account(1), "x", HOLDING).Ok?;
  }

  lemma BigDepositIsHeld(start: N.World)
    requires N.Blank(start)
    ensures Held(N.After(start, BIG_DEPOSIT).pool, HOLDING)
  {
    var plan := BIG_DEPOSIT;
    assert plan == [] + [plan[0]] + [plan[1]] + [plan[2]] + [plan[3]];
    N.AfterOneMore(start, [], plan[0]);
    N.AfterOneMore(start, [] + [plan[0]], plan[1]);
    N.AfterOneMore(start, [] + [plan[0]] + [plan[1]], plan[2]);
    N.AfterOneMore(start, [] + [plan[0]] + [plan[1]] + [plan[2]], plan[3]);
    PoolOpens(start);
    DepositIsHeld(N.Step(N.Step(N.Step(start, plan[0]), plan[1]), plan[2]));
  }

  lemma AllAtOnceOverflows(p: PoolContractState, ledger: LedgerState)
    requires Held(p, HOLDING) && Backed(p, ledger)
    ensures WithdrawLiquidity(p, ledger, Account(1), Account(1), "x", HOLDING) == Err(Overflow)
    ensures WithdrawLiquidity(p, ledger, Account(1), Account(1), "x", HOLDING / 4).Ok?
  {
    RedeemsExactly(p, ledger, Account(1), Account(1), "x", HOLDING / 4);
  }

  /** After that run the provider cannot redeem everything, though it is all there and undrawn; a quarter of it goes. */
  lemma LargeRedemptionOverflows(start: N.World)
    requires N.Blank(start)
    ensures var w := N.After(start, BIG_DEPOSIT);
            && Held(w.pool, HOLDING)
            && WithdrawLiquidity(w.pool, w.ledger, Account(1), Account(1), "x", HOLDING) == Err(Overflow)
            && WithdrawLiquidity(w.pool, w.ledger, Account(1), Account(1), "x", HOLDING / 4).Ok?
  {
    var w := N.After(start, BIG_DEPOSIT);
    BigDepositIsHeld(start);
    assert Backed(w.pool, w.ledger) by {
      Custody.BlankRunsAreSound(start, BIG_DEPOSIT);
      SoundWorldIsBacked(w);
    }
    AllAtOnceOverflows(w.pool, w.ledger);
  }

  lemma SoundWorldIsBacked(w: N.World)
    requires Custody.Inv(w)
    ensures Backed(w.pool, w.ledger)
  {
    if w.pool.config.Some? {
      assert 0 <= Custody.Excess(w, POOL, w.pool.config.value.token);
    }
  }
}
