/** The constant-product pool engine of contracts/boxmeout/src/amm.rs.
    One pool per market id holds a YES and a NO reserve, the product `k`,
    and the LP supply; LP balances are kept per (market, provider). All
    amounts are `u128` in the source and `nat` here (overflow of the
    products is not modelled). */
module Amm {
  import opened Wrappers
  import opened Token

  type MarketId = nat

  /** Outcome codes of `buy_shares`. */
  const NO: nat := 0
  const YES: nat := 1

  /** Defaults written by `initialize`. */
  const TRADING_FEE_BPS: nat := 20
  const SLIPPAGE_PROTECTION_BPS: nat := 200
  const PRICING_MODEL: string := "CPMM"
  const BPS_DENOMINATOR: nat := 10000

  datatype Pool = Pool(yesReserve: nat, noReserve: nat, k: nat, lpSupply: nat)

  /** The tuple stored under ("trade", market, index) by `buy_shares`. */
  datatype Trade = Trade(trader: Address, outcome: nat, shares: nat, amount: nat, fee: nat, timestamp: nat)

  /** The panics of amm.rs, one constructor per reason. */
  datatype Error =
    | InvalidAmount          // liquidity, amount or LP tokens equal to 0
    | PoolAlreadyExists
    | NotInitialized         // "factory not set" / "usdc token not set"
    | InvalidOutcome
    | PoolNotFound
    | SlippageExceeded
    | AmountTooSmall         // LP mint rounds to 0
    | MaxLiquidityExceeded
    | InsufficientLpTokens
    | WithdrawalTooSmall     // a withdrawal side rounds to 0
    | DrainForbidden
    | ArithmeticError        // division by zero or u128 subtraction underflow
    | TransferFailed         // the token transfer aborted

  // ---------------------------------------------------------------------
  // Multiplication and floor division of naturals. Every quotient in
  // amm.rs is a product of two amounts divided by a third; `MulDiv` is
  // that operation, and the lemmas after it are all the facts about it
  // the pool arithmetic needs.

  lemma FloorDiv(a: nat, d: nat)
    requires d > 0
    ensures 0 <= a / d
    ensures (a / d) * d <= a < (a / d + 1) * d
  {
    var q := a / d;
    assert a == q * d + a % d;
    assert (q + 1) * d == q * d + d;
  }

  lemma MulMono(a: nat, b: nat, c: nat)
    requires a <= b
    ensures a * c <= b * c && c * a <= c * b
  {
  }

  lemma MulStrict(a: nat, b: nat, c: nat)
    requires a < b && c > 0
    ensures a * c < b * c && c * a < c * b
  {
  }

  lemma MulCancelLe(a: nat, b: nat, c: nat)
    requires c > 0 && a * c <= b * c
    ensures a <= b
  {
    if a > b {
      MulStrict(b, a, c);
    }
  }

  lemma MulCancelLt(a: nat, b: nat, c: nat)
    requires a * c < b * c
    ensures a < b
  {
    if a >= b {
      MulMono(b, a, c);
    }
  }

  /** `a * b / d` with unbounded integers: the largest `q` with
      `q * d <= a * b`. */
  function MulDiv(a: nat, b: nat, d: nat): (q: nat)
    requires d > 0
    ensures q * d <= a * b < (q + 1) * d
  {
    FloorDiv(a * b, d);
    a * b / d
  }

  lemma MulDivAtMost(a: nat, b: nat, d: nat, c: nat)
    requires d > 0 && a * b <= c * d
    ensures MulDiv(a, b, d) <= c
  {
    MulCancelLe(MulDiv(a, b, d), c, d);
  }

  lemma MulDivBelow(a: nat, b: nat, d: nat, c: nat)
    requires d > 0 && a * b < c * d
    ensures MulDiv(a, b, d) < c
  {
    MulCancelLt(MulDiv(a, b, d), c, d);
  }

  lemma MulDivAtLeast(a: nat, b: nat, d: nat, c: nat)
    requires d > 0 && c * d <= a * b
    ensures c <= MulDiv(a, b, d)
  {
    MulCancelLt(c, MulDiv(a, b, d) + 1, d);
  }

  lemma MulDivPositiveIff(a: nat, b: nat, d: nat)
    requires d > 0
    ensures MulDiv(a, b, d) > 0 <==> a * b >= d
  {
    if a * b >= d {
      MulDivAtLeast(a, b, d, 1);
    } else {
      MulDivBelow(a, b, d, 1);
    }
  }

  // ---------------------------------------------------------------------
  // Pool arithmetic.

  /** The 50/50 seed split of `create_pool`: YES gets the floor half, NO
      the rest, so an odd unit goes to NO. */
  function SeedSplit(n: nat): (r: (nat, nat))
    ensures r.0 + r.1 == n
    ensures r.0 <= r.1 <= r.0 + 1
  {
    (n / 2, n - n / 2)
  }

  /** The pool a seed deposit of `n` opens: reserves from the split, `k`
      their product, and an LP supply of `n` minted to the creator. */
  function SeedPool(n: nat): (p: Pool)
    ensures p.yesReserve + p.noReserve == n
    ensures p.yesReserve <= p.noReserve <= p.yesReserve + 1
    ensures p.k == p.yesReserve * p.noReserve && p.lpSupply == n
  {
    var (yes, no) := SeedSplit(n);
    Pool(yes, no, yes * no, n)
  }

  /** Total liquidity of a pool: the sum of its reserves. */
  function Liquidity(p: Pool): nat {
    p.yesReserve + p.noReserve
  }

  /** `calculate_shares_out` (defined in a helpers module outside this
      model), taken as the constant-product payout documented for
      `buy_shares`: `net` paid into the other side `x` buys
      `floor(net * y / (x + net))` of the bought side `y`. The payout never
      exceeds the bought side and, when both sides are funded, never
      empties it. */
  function SharesOut(x: nat, y: nat, net: nat): (s: nat)
    requires x + net > 0
    ensures s * (x + net) <= net * y < (s + 1) * (x + net)
    ensures s <= y
    ensures x > 0 && y > 0 ==> s < y
  {
    MulMono(net, x + net, y);
    MulDivAtMost(net, y, x + net, y);
    if x > 0 && y > 0 then
      MulStrict(net, x + net, y);
      MulDivBelow(net, y, x + net, y);
      MulDiv(net, y, x + net)
    else
      MulDiv(net, y, x + net)
  }

  /** Constant-product law: the reserve product never decreases on a buy. */
  lemma {:induction false} SharesOutKeepsProduct(x: nat, y: nat, net: nat)
    requires x + net > 0
    ensures (y - SharesOut(x, y, net)) * (x + net) >= x * y
  {
    var s := SharesOut(x, y, net);
    assert s * (x + net) <= net * y;
    assert (y - s) * (x + net) == y * (x + net) - s * (x + net);
    assert y * (x + net) == x * y + net * y;
  }

  datatype BuyQuote = BuyQuote(fee: nat, net: nat, shares: nat, newYes: nat, newNo: nat)

  /** The arithmetic of `buy_shares` on a pool: the basis-point fee,
      rounded down, comes off the amount first; the rest prices the
      payout; the bought side pays the shares out and the other side takes
      in the net amount. */
  function QuoteBuy(p: Pool, outcome: nat, amount: nat, feeBps: nat): (q: BuyQuote)
    requires outcome <= 1 && amount > 0 && feeBps < BPS_DENOMINATOR
    ensures q.fee + q.net == amount && q.net > 0
    ensures q.fee * BPS_DENOMINATOR <= amount * feeBps < (q.fee + 1) * BPS_DENOMINATOR
    ensures q.shares == SharesOut(if outcome == YES then p.noReserve else p.yesReserve,
                                  if outcome == YES then p.yesReserve else p.noReserve, q.net)
    ensures outcome == YES ==> q.newYes + q.shares == p.yesReserve && q.newNo == p.noReserve + q.net
    ensures outcome == NO ==> q.newNo + q.shares == p.noReserve && q.newYes == p.yesReserve + q.net
    ensures p.yesReserve > 0 && p.noReserve > 0 ==> q.newYes > 0 && q.newNo > 0
    ensures q.newYes + q.newNo > 0
  {
    var fee := MulDiv(amount, feeBps, BPS_DENOMINATOR);
    MulStrict(feeBps, BPS_DENOMINATOR, amount);
    MulDivBelow(amount, feeBps, BPS_DENOMINATOR, amount);
    var net := amount - fee;
    var x := if outcome == YES then p.noReserve else p.yesReserve;
    var y := if outcome == YES then p.yesReserve else p.noReserve;
    var shares := SharesOut(x, y, net);
    if outcome == YES then
      BuyQuote(fee, net, shares, y - shares, x + net)
    else
      BuyQuote(fee, net, shares, x + net, y - shares)
  }

  /** A buy never lowers the product of the reserves. */
  lemma {:induction false} QuoteBuyKeepsProduct(p: Pool, outcome: nat, amount: nat, feeBps: nat)
    requires outcome <= 1 && amount > 0 && feeBps < BPS_DENOMINATOR
    ensures var q := QuoteBuy(p, outcome, amount, feeBps);
            q.newYes * q.newNo >= p.yesReserve * p.noReserve
  {
    var q := QuoteBuy(p, outcome, amount, feeBps);
    if outcome == YES {
      SharesOutKeepsProduct(p.noReserve, p.yesReserve, q.net);
    } else {
      SharesOutKeepsProduct(p.yesReserve, p.noReserve, q.net);
      assert q.newYes * q.newNo == q.newNo * q.newYes;
    }
  }

  /** A buy moves exactly the net amount minus the payout into the pool. */
  lemma {:induction false} QuoteBuyLiquidity(p: Pool, outcome: nat, amount: nat, feeBps: nat)
    requires outcome <= 1 && amount > 0 && feeBps < BPS_DENOMINATOR
    ensures var q := QuoteBuy(p, outcome, amount, feeBps);
            q.newYes + q.newNo + q.shares == Liquidity(p) + q.net
  {
    var q := QuoteBuy(p, outcome, amount, feeBps);
    if outcome == YES {
      assert q.newYes + q.shares == p.yesReserve;
    } else {
      assert q.newNo + q.shares == p.noReserve;
    }
  }

  /** Below 500 units the default 20 bps fee rounds to nothing. */
  lemma NoDefaultFeeBelow500(p: Pool, outcome: nat, amount: nat)
    requires outcome <= 1 && 0 < amount < 500
    ensures QuoteBuy(p, outcome, amount, TRADING_FEE_BPS).fee == 0
  {
    MulDivBelow(amount, TRADING_FEE_BPS, BPS_DENOMINATOR, 1);
  }

  /** A 1-unit seed opens a pool with an empty YES reserve. */
  lemma SeedOfOneExample()
    ensures SeedPool(1) == Pool(0, 1, 0, 1)
  {
  }

  /** A 1000-unit seed followed by a 100-unit YES buy: at 20 bps the fee
      rounds to 0, the whole 100 enters the NO side, and the buyer gets
      floor(100 * 500 / 600) = 83 YES shares. */
  lemma BuyAfterSeedExample()
    ensures SeedPool(1000) == Pool(500, 500, 250000, 1000)
    ensures QuoteBuy(SeedPool(1000), YES, 100, TRADING_FEE_BPS) == BuyQuote(0, 100, 83, 417, 600)
  {
    assert MulDiv(100, TRADING_FEE_BPS, BPS_DENOMINATOR) == 0;
    assert MulDiv(100, 500, 600) == 83;
  }

  datatype AddQuote = AddQuote(minted: nat, yesAddition: nat, noAddition: nat)

  /** The arithmetic of `add_liquidity`: LP tokens are minted in
      proportion to the deposit's share of current liquidity, rounded down,
      and the deposit is split in the current YES:NO ratio, YES rounded
      down and NO taking the remainder. Aborts when the liquidity is 0
      (division by zero) or the mint rounds to 0. */
  function QuoteAdd(p: Pool, amount: nat): (r: Result<AddQuote, Error>)
    ensures r.Ok? <==> Liquidity(p) > 0 && amount * p.lpSupply >= Liquidity(p)
    ensures Liquidity(p) == 0 ==> r == Err(ArithmeticError)
    ensures Liquidity(p) > 0 && !r.Ok? ==> r == Err(AmountTooSmall)
    ensures r.Ok? ==> r.value.yesAddition + r.value.noAddition == amount
    ensures r.Ok? ==> r.value.minted > 0
    ensures r.Ok? ==> r.value.minted * Liquidity(p) <= amount * p.lpSupply < (r.value.minted + 1) * Liquidity(p)
    ensures r.Ok? ==> r.value.yesAddition * Liquidity(p) <= amount * p.yesReserve
                      < (r.value.yesAddition + 1) * Liquidity(p)
  {
    var total := Liquidity(p);
    if total == 0 then Err(ArithmeticError)
    else
      var minted := MulDiv(amount, p.lpSupply, total);
      MulDivPositiveIff(amount, p.lpSupply, total);
      if minted == 0 then Err(AmountTooSmall)
      else
        var yesAddition := MulDiv(amount, p.yesReserve, total);
        MulMono(p.yesReserve, total, amount);
        MulDivAtMost(amount, p.yesReserve, total, amount);
        Ok(AddQuote(minted, yesAddition, amount - yesAddition))
  }

  /** The NO part of an accepted deposit is at least its proportional
      share: the rounding of the YES part lands on NO. */
  lemma {:induction false} QuoteAddNoSide(p: Pool, amount: nat)
    requires QuoteAdd(p, amount).Ok?
    ensures QuoteAdd(p, amount).value.noAddition * Liquidity(p) >= amount * p.noReserve
  {
    var q := QuoteAdd(p, amount).value;
    var total := Liquidity(p);
    assert q.noAddition * total == amount * total - q.yesAddition * total;
    assert amount * total == amount * p.yesReserve + amount * p.noReserve;
  }

  /** The pool after an accepted deposit: reserves grow by the two parts,
      `k` is recomputed and the supply grows by the mint. */
  function PoolAfterAdd(p: Pool, q: AddQuote): (p': Pool)
    ensures p'.yesReserve == p.yesReserve + q.yesAddition && p'.noReserve == p.noReserve + q.noAddition
    ensures Liquidity(p') == Liquidity(p) + q.yesAddition + q.noAddition
    ensures p'.k == p'.yesReserve * p'.noReserve
    ensures p'.lpSupply == p.lpSupply + q.minted
  {
    var yes := p.yesReserve + q.yesAddition;
    var no := p.noReserve + q.noAddition;
    Pool(yes, no, yes * no, p.lpSupply + q.minted)
  }

  /** Redeeming at least the whole supply pays out at least the whole
      reserve, so a redemption paying out less redeems less than the
      whole supply. */
  lemma RedeemBelowReserve(lpTokens: nat, reserve: nat, supply: nat)
    requires supply > 0 && MulDiv(lpTokens, reserve, supply) < reserve
    ensures lpTokens < supply
  {
    if lpTokens >= supply {
      MulMono(supply, lpTokens, reserve);
      MulDivAtLeast(lpTokens, reserve, supply, reserve);
    }
  }

  /** The arithmetic of `remove_liquidity`: each side pays out its
      proportional share, rounded down, and the call aborts when the supply
      is 0 (division by zero), when either share is 0, when a subtraction
      would underflow, or when a reserve would be emptied. Redeeming the
      whole supply therefore always aborts. */
  function QuoteRemove(p: Pool, lpTokens: nat): (r: Result<(nat, nat), Error>)
    ensures p.lpSupply == 0 ==> r == Err(ArithmeticError)
    ensures p.lpSupply > 0 ==>
              var yesAmount := MulDiv(lpTokens, p.yesReserve, p.lpSupply);
              var noAmount := MulDiv(lpTokens, p.noReserve, p.lpSupply);
              && (r.Ok? <==> 0 < yesAmount < p.yesReserve && 0 < noAmount < p.noReserve)
              && (r.Ok? ==> r.value == (yesAmount, noAmount))
              && (yesAmount == 0 || noAmount == 0 ==> r == Err(WithdrawalTooSmall))
              && (0 < yesAmount && 0 < noAmount && (yesAmount > p.yesReserve || noAmount > p.noReserve)
                  ==> r == Err(ArithmeticError))
              && ((0 < yesAmount <= p.yesReserve && 0 < noAmount <= p.noReserve
                   && (yesAmount == p.yesReserve || noAmount == p.noReserve)) ==> r == Err(DrainForbidden))
    ensures r.Ok? ==> 0 < r.value.0 < p.yesReserve && 0 < r.value.1 < p.noReserve
    ensures r.Ok? ==> r.value.0 * p.lpSupply <= lpTokens * p.yesReserve
    ensures r.Ok? ==> r.value.1 * p.lpSupply <= lpTokens * p.noReserve
    ensures r.Ok? ==> lpTokens < p.lpSupply
  {
    if p.lpSupply == 0 then Err(ArithmeticError)
    else
      var yesAmount := MulDiv(lpTokens, p.yesReserve, p.lpSupply);
      var noAmount := MulDiv(lpTokens, p.noReserve, p.lpSupply);
      if yesAmount == 0 || noAmount == 0 then Err(WithdrawalTooSmall)
      else if yesAmount > p.yesReserve || noAmount > p.noReserve then Err(ArithmeticError)
      else if p.yesReserve - yesAmount == 0 || p.noReserve - noAmount == 0 then Err(DrainForbidden)
      else
        RedeemBelowReserve(lpTokens, p.yesReserve, p.lpSupply);
        Ok((yesAmount, noAmount))
  }

  /** The single payout of an accepted withdrawal. */
  function RemoveTotal(amounts: (nat, nat)): nat {
    amounts.0 + amounts.1
  }

  /** The pool after an accepted withdrawal of `lpTokens`. */
  function PoolAfterRemove(p: Pool, lpTokens: nat, yesAmount: nat, noAmount: nat): (p': Pool)
    requires yesAmount <= p.yesReserve && noAmount <= p.noReserve && lpTokens <= p.lpSupply
    ensures p'.yesReserve + yesAmount == p.yesReserve && p'.noReserve + noAmount == p.noReserve
    ensures Liquidity(p') + yesAmount + noAmount == Liquidity(p)
    ensures p'.k == p'.yesReserve * p'.noReserve
    ensures p'.lpSupply + lpTokens == p.lpSupply
  {
    var yes := p.yesReserve - yesAmount;
    var no := p.noReserve - noAmount;
    Pool(yes, no, yes * no, p.lpSupply - lpTokens)
  }

  lemma ProportionalRoundTrip(ya: nat, na: nat, m: nat, s: nat, t: nat, amount: nat, yes: nat, no: nat)
    requires s + m > 0
    requires ya * (s + m) <= m * yes && na * (s + m) <= m * no
    requires yes + no == t + amount && m * t <= amount * s
    ensures ya + na <= amount
  {
    assert (ya + na) * (s + m) <= m * (yes + no);
    assert m * (t + amount) <= amount * (s + m);
    MulCancelLe(ya + na, amount, s + m);
  }

  /** A deposit followed at once by redeeming exactly the LP tokens it
      minted pays back at most the deposit: rounding only ever favours the
      pool. */
  lemma {:induction false} AddThenRemoveReturnsAtMostDeposit(p: Pool, amount: nat)
    requires Liquidity(p) > 0 && amount * p.lpSupply >= Liquidity(p)
    ensures var q := QuoteAdd(p, amount).value;
            var r := QuoteRemove(PoolAfterAdd(p, q), q.minted);
            r.Ok? ==> r.value.0 + r.value.1 <= amount
  {
    var q := QuoteAdd(p, amount).value;
    var p' := PoolAfterAdd(p, q);
    var r := QuoteRemove(p', q.minted);
    if r.Ok? {
      ProportionalRoundTrip(r.value.0, r.value.1, q.minted, p.lpSupply, Liquidity(p), amount,
                            p'.yesReserve, p'.noReserve);
    }
  }

  // ---------------------------------------------------------------------
  // LP supply accounting.

  /** Sum of the LP balances of one pool. */
  ghost function TotalLp(bs: map<Address, nat>): nat
    decreases |bs|
  {
    if bs == map[] then 0
    else
      var a :| a in bs;
      assert |bs - {a}| < |bs| by { assert (bs - {a}).Keys == bs.Keys - {a}; }
      bs[a] + TotalLp(bs - {a})
  }

  lemma {:induction false} TotalLpRemove(bs: map<Address, nat>, a: Address)
    requires a in bs
    ensures TotalLp(bs) == bs[a] + TotalLp(bs - {a})
    decreases |bs|
  {
    var b :| b in bs && TotalLp(bs) == bs[b] + TotalLp(bs - {b});
    if b != a {
      assert |bs - {b}| < |bs| by { assert (bs - {b}).Keys == bs.Keys - {b}; }
      assert |bs - {a}| < |bs| by { assert (bs - {a}).Keys == bs.Keys - {a}; }
      TotalLpRemove(bs - {b}, a);
      TotalLpRemove(bs - {a}, b);
      assert bs - {b} - {a} == bs - {a} - {b};
    }
  }

  lemma TotalLpUpdate(bs: map<Address, nat>, a: Address, v: nat)
    ensures TotalLp(bs[a := v]) == TotalLp(bs - {a}) + v
  {
    TotalLpRemove(bs[a := v], a);
    assert bs[a := v] - {a} == bs - {a};
  }

  lemma TotalLpSingleton(a: Address, v: nat)
    ensures TotalLp(map[a := v]) == v
  {
    var empty: map<Address, nat> := map[];
    TotalLpUpdate(empty, a, v);
    assert empty[a := v] == map[a := v];
    assert empty - {a} == empty;
  }

  /** Writing an LP balance: a zero balance deletes the entry, as
      `remove_liquidity` does. */
  function SetLpBalance(bs: map<Address, nat>, a: Address, v: nat): (r: map<Address, nat>)
    ensures BalanceOf(r, a) == v && (v == 0 ==> a !in r)
    ensures forall x :: x != a ==> BalanceOf(r, x) == BalanceOf(bs, x)
    ensures (forall x :: x in bs ==> bs[x] > 0) ==> forall x :: x in r ==> r[x] > 0
  {
    if v == 0 then bs - {a} else bs[a := v]
  }

  // ---------------------------------------------------------------------
  // The contract.

  /** The configuration `initialize` writes. */
  datatype Config = Config(
    admin: Address, factory: Address, usdc: Address, maxLiquidityCap: nat,
    slippageProtectionBps: nat, tradingFeeBps: nat, pricingModel: string)

  /** Everything amm.rs keeps under one market id: the pool (reserves, `k`,
      LP supply), the LP balances by provider, the outcome-share balances by
      (holder, outcome), and the trade records. Trade number `i`, counted
      from 1 as the trade counter hands it out, is `trades[i - 1]`, so the
      counter is `|trades|`. */
  datatype PoolState = PoolState(
    pool: Pool, lpBalances: map<Address, nat>, shares: map<(Address, nat), nat>, trades: seq<Trade>)

  function ShareBalance(s: PoolState, holder: Address, outcome: nat): nat {
    if (holder, outcome) in s.shares then s.shares[(holder, outcome)] else 0
  }

  /** What holds of every pool between calls: some liquidity, a positive
      LP supply equal to the sum of the LP balances, and no zero balance
      entries (they are deleted). */
  ghost predicate PoolValid(s: PoolState) {
    && Liquidity(s.pool) > 0
    && s.pool.lpSupply > 0
    && s.pool.lpSupply == TotalLp(s.lpBalances)
    && (forall a :: a in s.lpBalances ==> s.lpBalances[a] > 0)
  }

  /** No provider holds more LP tokens than the pool's supply. */
  lemma {:induction false} LpBalanceAtMostSupply(s: PoolState, provider: Address)
    requires PoolValid(s)
    ensures BalanceOf(s.lpBalances, provider) <= s.pool.lpSupply
  {
    if provider in s.lpBalances {
      TotalLpRemove(s.lpBalances, provider);
    }
  }

  /** The state of a market after an accepted buy of `outcome` by `buyer`
      at time `now`: reserves moved as quoted (`k` is not refreshed), the
      shares credited, and the trade appended as the next record. */
  function AfterBuy(s: PoolState, buyer: Address, outcome: nat, amount: nat, q: BuyQuote, now: nat): (s': PoolState)
    ensures s'.pool.yesReserve == q.newYes && s'.pool.noReserve == q.newNo
    ensures s'.pool.lpSupply == s.pool.lpSupply && s'.pool.k == s.pool.k && s'.lpBalances == s.lpBalances
    ensures ShareBalance(s', buyer, outcome) == ShareBalance(s, buyer, outcome) + q.shares
    ensures forall h: Address, o: nat :: (h, o) != (buyer, outcome) ==> ShareBalance(s', h, o) == ShareBalance(s, h, o)
    ensures s'.trades == s.trades + [Trade(buyer, outcome, q.shares, amount, q.fee, now)]
  {
    s.(pool := s.pool.(yesReserve := q.newYes, noReserve := q.newNo),
       shares := s.shares[(buyer, outcome) := ShareBalance(s, buyer, outcome) + q.shares],
       trades := s.trades + [Trade(buyer, outcome, q.shares, amount, q.fee, now)])
  }

  /** The state of a market after an accepted deposit: the pool grows and
      the mint is credited to the provider. */
  function AfterAdd(s: PoolState, provider: Address, q: AddQuote): (s': PoolState)
    ensures s'.pool == PoolAfterAdd(s.pool, q)
    ensures BalanceOf(s'.lpBalances, provider) == BalanceOf(s.lpBalances, provider) + q.minted
    ensures forall a :: a != provider ==> BalanceOf(s'.lpBalances, a) == BalanceOf(s.lpBalances, a)
    ensures s'.shares == s.shares && s'.trades == s.trades
  {
    var credited := BalanceOf(s.lpBalances, provider) + q.minted;
    s.(pool := PoolAfterAdd(s.pool, q), lpBalances := SetLpBalance(s.lpBalances, provider, credited))
  }

  /** The state of a market after an accepted withdrawal: the pool shrinks
      and the burn is debited from the provider, whose entry is deleted
      when it reaches 0. */
  function AfterRemove(s: PoolState, provider: Address, lpTokens: nat, amounts: (nat, nat)): (s': PoolState)
    requires lpTokens <= BalanceOf(s.lpBalances, provider) && lpTokens <= s.pool.lpSupply
    requires amounts.0 <= s.pool.yesReserve && amounts.1 <= s.pool.noReserve
    ensures s'.pool == PoolAfterRemove(s.pool, lpTokens, amounts.0, amounts.1)
    ensures BalanceOf(s'.lpBalances, provider) + lpTokens == BalanceOf(s.lpBalances, provider)
    ensures BalanceOf(s.lpBalances, provider) == lpTokens ==> provider !in s'.lpBalances
    ensures forall a :: a != provider ==> BalanceOf(s'.lpBalances, a) == BalanceOf(s.lpBalances, a)
    ensures s'.shares == s.shares && s'.trades == s.trades
  {
    var left := BalanceOf(s.lpBalances, provider) - lpTokens;
    s.(pool := PoolAfterRemove(s.pool, lpTokens, amounts.0, amounts.1),
       lpBalances := SetLpBalance(s.lpBalances, provider, left))
  }

  /** A buy keeps a pool valid. */
  lemma PoolValidAfterBuy(s: PoolState, buyer: Address, outcome: nat, amount: nat, now: nat)
    requires PoolValid(s) && outcome <= 1 && amount > 0
    ensures PoolValid(AfterBuy(s, buyer, outcome, amount, QuoteBuy(s.pool, outcome, amount, TRADING_FEE_BPS), now))
  {
  }

  /** A deposit keeps a pool valid: the LP supply and the sum of the LP
      balances both grow by the mint. */
  lemma {:induction false} PoolValidAfterAdd(s: PoolState, provider: Address, q: AddQuote)
    requires PoolValid(s) && q.minted > 0
    ensures PoolValid(AfterAdd(s, provider, q))
  {
    var credited := BalanceOf(s.lpBalances, provider) + q.minted;
    TotalLpUpdate(s.lpBalances, provider, credited);
    if provider in s.lpBalances {
      TotalLpRemove(s.lpBalances, provider);
    } else {
      assert s.lpBalances - {provider} == s.lpBalances;
    }
  }

  /** A withdrawal that burns less than the supply keeps a pool valid: the
      LP supply and the sum of the LP balances both shrink by the burn.
      Positive liquidity needs only one reserve to stay funded, so only the
      YES side is required to stay strictly below its reserve; an accepted
      withdrawal keeps both sides funded (`QuoteRemove`). */
  lemma {:induction false} PoolValidAfterRemove(s: PoolState, provider: Address, lpTokens: nat, amounts: (nat, nat))
    requires PoolValid(s)
    requires 0 < lpTokens <= BalanceOf(s.lpBalances, provider) && lpTokens < s.pool.lpSupply
    requires amounts.0 < s.pool.yesReserve && amounts.1 <= s.pool.noReserve
    ensures PoolValid(AfterRemove(s, provider, lpTokens, amounts))
  {
    var left := BalanceOf(s.lpBalances, provider) - lpTokens;
    TotalLpRemove(s.lpBalances, provider);
    if left != 0 {
      TotalLpUpdate(s.lpBalances, provider, left);
    }
  }

  /** An accepted withdrawal by a provider holding the burned tokens
      leaves a valid pool with both reserves still funded: the no-drain
      guard of `remove_liquidity` holds of the stored pool. */
  lemma {:induction false} RemoveKeepsBothSidesFunded(s: PoolState, provider: Address, lpTokens: nat)
    requires PoolValid(s) && 0 < lpTokens <= BalanceOf(s.lpBalances, provider)
    requires QuoteRemove(s.pool, lpTokens).Ok?
    ensures var s' := AfterRemove(s, provider, lpTokens, QuoteRemove(s.pool, lpTokens).value);
            PoolValid(s') && s'.pool.yesReserve > 0 && s'.pool.noReserve > 0
  {
    PoolValidAfterRemove(s, provider, lpTokens, QuoteRemove(s.pool, lpTokens).value);
  }

  class AmmContract {
    const contractAddress: Address

    /** `None` until `initialize` runs. */
    var config: Option<Config>

    /** Pools and their ledgers; a market id is present iff its pool exists. */
    var markets: map<MarketId, PoolState>

    /** Balances of the custodied token, the contract's own included. */
    var bank: Balances

    ghost predicate Valid()
      reads this
    {
      && (config.Some? ==> config.value.tradingFeeBps == TRADING_FEE_BPS)
      && (config.None? ==> markets == map[])
      && forall m :: m in markets ==> PoolValid(markets[m])
    }

    /** The fee `buy_shares` reads: the stored value, 20 bps when unset. */
    function FeeBps(): nat
      reads this
    {
      if config.Some? then config.value.tradingFeeBps else TRADING_FEE_BPS
    }

    function LpBalanceOf(marketId: MarketId, provider: Address): nat
      reads this
    {
      if marketId in markets then BalanceOf(markets[marketId].lpBalances, provider) else 0
    }

    /** A freshly deployed contract: empty storage; the token balances are
        whatever the token contract holds. */
    constructor (contractAddress: Address, bank: Balances)
      ensures Valid()
      ensures this.contractAddress == contractAddress && this.bank == bank
      ensures config == None && markets == map[]
    {
      this.contractAddress := contractAddress;
      this.bank := bank;
      config := None;
      markets := map[];
    }

    /** `initialize`: stores the configuration and the defaults (2 %
        slippage protection, 20 bps fee, CPMM). It has no
        already-initialized guard, so a later call overwrites the
        configuration; pools are untouched. */
    method Initialize(admin: Address, factory: Address, usdc: Address, maxLiquidityCap: nat)
      requires Valid()
      modifies this
      ensures Valid()
      ensures config == Some(Config(admin, factory, usdc, maxLiquidityCap,
                                    SLIPPAGE_PROTECTION_BPS, TRADING_FEE_BPS, PRICING_MODEL))
      ensures markets == old(markets) && bank == old(bank)
    {
      config := Some(Config(admin, factory, usdc, maxLiquidityCap,
                            SLIPPAGE_PROTECTION_BPS, TRADING_FEE_BPS, PRICING_MODEL));
    }

    /** `create_pool`, called by the authenticated `creator`. The source
        writes the pool before pulling the seed; when the transfer aborts
        the host rolls those writes back, which is why the transfer is
        checked first here. The liquidity cap is not consulted. */
    method CreatePool(creator: Address, marketId: MarketId, initialLiquidity: nat) returns (r: Outcome<Error>)
      requires Valid()
      modifies this
      ensures Valid()
      ensures r == (if initialLiquidity == 0 then Fail(InvalidAmount)
                    else if marketId in old(markets) then Fail(PoolAlreadyExists)
                    else if old(config).None? then Fail(NotInitialized)
                    else if !CanTransfer(old(bank), creator, initialLiquidity) then Fail(TransferFailed)
                    else Pass)
      ensures r.Fail? ==> unchanged(this)
      ensures r.Pass? ==>
        && markets == old(markets)[marketId := PoolState(SeedPool(initialLiquidity), map[creator := initialLiquidity], map[], [])]
        && bank == Transfer(old(bank), creator, contractAddress, initialLiquidity)
        && config == old(config)
    {
      if initialLiquidity == 0 {
        return Fail(InvalidAmount);
      }
      if marketId in markets {
        return Fail(PoolAlreadyExists);
      }
      if config.None? {
        return Fail(NotInitialized);
      }
      if !CanTransfer(bank, creator, initialLiquidity) {
        return Fail(TransferFailed);
      }
      TotalLpSingleton(creator, initialLiquidity);
      markets := markets[marketId := PoolState(SeedPool(initialLiquidity), map[creator := initialLiquidity], map[], [])];
      bank := Transfer(bank, creator, contractAddress, initialLiquidity);
      return Pass;
    }

    /** `buy_shares`, called by the authenticated `buyer` at ledger time
        `now`. Validation order: outcome, amount, pool, slippage floor, then
        the transfer of the full amount (fee included). The fee stays in
        the contract's custody outside the reserves; `k` is not refreshed.
        The fee is always the default 20 bps, since a pool only exists
        after `initialize`. */
    method BuyShares(buyer: Address, marketId: MarketId, outcome: nat, amount: nat, minShares: nat, now: nat)
      returns (r: Result<nat, Error>)
      requires Valid()
      modifies this
      ensures Valid()
      ensures r == (if outcome > 1 then Err(InvalidOutcome)
                    else if amount == 0 then Err(InvalidAmount)
                    else if marketId !in old(markets) then Err(PoolNotFound)
                    else if QuoteBuy(old(markets)[marketId].pool, outcome, amount, TRADING_FEE_BPS).shares < minShares
                    then Err(SlippageExceeded)
                    else if !CanTransfer(old(bank), buyer, amount) then Err(TransferFailed)
                    else Ok(QuoteBuy(old(markets)[marketId].pool, outcome, amount, TRADING_FEE_BPS).shares))
      ensures r.Err? ==> unchanged(this)
      ensures r.Ok? ==>
        var s := old(markets)[marketId];
        && markets == old(markets)[marketId :=
             AfterBuy(s, buyer, outcome, amount, QuoteBuy(s.pool, outcome, amount, TRADING_FEE_BPS), now)]
        && bank == Transfer(old(bank), buyer, contractAddress, amount)
        && config == old(config)
    {
      if outcome > 1 {
        return Err(InvalidOutcome);
      }
      if amount == 0 {
        return Err(InvalidAmount);
      }
      if marketId !in markets {
        return Err(PoolNotFound);
      }
      var s := markets[marketId];
      var q := QuoteBuy(s.pool, outcome, amount, FeeBps());
      if q.shares < minShares {
        return Err(SlippageExceeded);
      }
      if !CanTransfer(bank, buyer, amount) {
        return Err(TransferFailed);
      }
      PoolValidAfterBuy(s, buyer, outcome, amount, now);
      bank := Transfer(bank, buyer, contractAddress, amount);
      markets := markets[marketId := AfterBuy(s, buyer, outcome, amount, q, now)];
      return Ok(q.shares);
    }

    /** `add_liquidity`, called by the authenticated `provider`. The cap
        check on the new total liquidity precedes every write. */
    method AddLiquidity(provider: Address, marketId: MarketId, amount: nat) returns (r: Result<nat, Error>)
      requires Valid()
      modifies this
      ensures Valid()
      ensures r == (if amount == 0 then Err(InvalidAmount)
                    else if marketId !in old(markets) then Err(PoolNotFound)
                    else if QuoteAdd(old(markets)[marketId].pool, amount).Err?
                    then Err(QuoteAdd(old(markets)[marketId].pool, amount).error)
                    else if Liquidity(old(markets)[marketId].pool) + amount > old(config).value.maxLiquidityCap
                    then Err(MaxLiquidityExceeded)
                    else if !CanTransfer(old(bank), provider, amount) then Err(TransferFailed)
                    else Ok(QuoteAdd(old(markets)[marketId].pool, amount).value.minted))
      ensures r.Err? ==> unchanged(this)
      ensures r.Ok? ==>
        var s := old(markets)[marketId];
        && markets == old(markets)[marketId := AfterAdd(s, provider, QuoteAdd(s.pool, amount).value)]
        && bank == Transfer(old(bank), provider, contractAddress, amount)
        && config == old(config)
    {
      if amount == 0 {
        return Err(InvalidAmount);
      }
      if marketId !in markets {
        return Err(PoolNotFound);
      }
      var s := markets[marketId];
      var quote := QuoteAdd(s.pool, amount);
      if quote.Err? {
        return Err(quote.error);
      }
      var q := quote.value;
      var pool' := PoolAfterAdd(s.pool, q);
      if Liquidity(pool') > config.value.maxLiquidityCap {
        return Err(MaxLiquidityExceeded);
      }
      if !CanTransfer(bank, provider, amount) {
        return Err(TransferFailed);
      }
      PoolValidAfterAdd(s, provider, q);
      markets := markets[marketId := AfterAdd(s, provider, q)];
      bank := Transfer(bank, provider, contractAddress, amount);
      return Ok(q.minted);
    }

    /** `remove_liquidity`, called by the authenticated `provider`: burns
        `lpTokens`, deleting the provider's entry when it reaches 0, and
        pays both proportional shares out in one transfer. */
    method RemoveLiquidity(provider: Address, marketId: MarketId, lpTokens: nat) returns (r: Result<(nat, nat), Error>)
      requires Valid()
      modifies this
      ensures Valid()
      ensures r == (if lpTokens == 0 then Err(InvalidAmount)
                    else if marketId !in old(markets) then Err(PoolNotFound)
                    else if BalanceOf(old(markets)[marketId].lpBalances, provider) < lpTokens then Err(InsufficientLpTokens)
                    else if QuoteRemove(old(markets)[marketId].pool, lpTokens).Err?
                    then Err(QuoteRemove(old(markets)[marketId].pool, lpTokens).error)
                    else if !CanTransfer(old(bank), contractAddress, RemoveTotal(QuoteRemove(old(markets)[marketId].pool, lpTokens).value))
                    then Err(TransferFailed)
                    else Ok(QuoteRemove(old(markets)[marketId].pool, lpTokens).value))
      ensures r.Err? ==> unchanged(this)
      ensures r.Ok? ==>
        && markets == old(markets)[marketId := AfterRemove(old(markets)[marketId], provider, lpTokens, r.value)]
        && bank == Transfer(old(bank), contractAddress, provider, RemoveTotal(r.value))
        && config == old(config)
    {
      if lpTokens == 0 {
        return Err(InvalidAmount);
      }
      if marketId !in markets {
        return Err(PoolNotFound);
      }
      var s := markets[marketId];
      var balance := BalanceOf(s.lpBalances, provider);
      if balance < lpTokens {
        return Err(InsufficientLpTokens);
      }
      var quote := QuoteRemove(s.pool, lpTokens);
      if quote.Err? {
        return Err(quote.error);
      }
      var amounts := quote.value;
      if !CanTransfer(bank, contractAddress, RemoveTotal(amounts)) {
        return Err(TransferFailed);
      }
      PoolValidAfterRemove(s, provider, lpTokens, amounts);
      markets := markets[marketId := AfterRemove(s, provider, lpTokens, amounts)];
      bank := Transfer(bank, contractAddress, provider, RemoveTotal(amounts));
      return Ok(amounts);
    }
  }
}
