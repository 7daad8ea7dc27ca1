/** The fee ledger of contracts/boxmeout/src/treasury.rs: four running
    fee counters (platform, leaderboard, creator, total), the percentage
    split applied to each deposit, and the two reward payouts. The counters
    are `i128` in the source and `int` here; custody is the token balance
    map of `Token`. */
module Treasury {
  import opened Wrappers
  import opened Token

  /** Split percentages; `set_fee_distribution` only accepts a sum of 100. */
  datatype FeeRatios = FeeRatios(platform: nat, leaderboard: nat, creator: nat)

  /** The split `initialize` installs: 50% platform, 30% leaderboard,
      20% creator. */
  const DEFAULT_RATIOS: FeeRatios := FeeRatios(50, 30, 20)

  predicate RatiosValid(r: FeeRatios) {
    r.platform + r.leaderboard + r.creator == 100
  }

  /** The four counters `update_pool_balance` can be asked to move. */
  datatype FeePool = Platform | Leaderboard | Creator | Total

  /** The four fee counters. */
  datatype FeeBook = FeeBook(platform: int, leaderboard: int, creator: int, total: int)

  const EMPTY_BOOK: FeeBook := FeeBook(0, 0, 0, 0)

  /** What `initialize` stores besides the counters. */
  datatype TreasuryConfig = TreasuryConfig(admin: Address, usdc: Address, factory: Address, ratios: FeeRatios)

  /** The panics of treasury.rs, one constructor per reason. */
  datatype Error =
    | AlreadyInitialized    // "Already initialized"
    | NotInitialized        // "Not initialized", "Admin not set", "USDC not set"
    | Unauthorized          // the admin did not authorise, or another caller
    | InvalidRatios         // "Ratios must sum to 100"
    | InvalidAmount         // "Amount must be positive"
    | InvalidShares         // "Total shares must equal 100"
    | EmptyPool             // "No funds in leaderboard pool"
    | InsufficientBalance   // "Insufficient balance in creator pool"
    | TransferFailed        // the token contract refused a transfer

  // ---------------------------------------------------------------------
  // The counters.

  /** The value of one counter; the getters return these. */
  function PoolBalance(b: FeeBook, pool: FeePool): int {
    match pool
    case Platform => b.platform
    case Leaderboard => b.leaderboard
    case Creator => b.creator
    case Total => b.total
  }

  /** `update_pool_balance`: add `delta` to one counter. */
  function UpdatePoolBalance(b: FeeBook, pool: FeePool, delta: int): (b': FeeBook)
    ensures PoolBalance(b', pool) == PoolBalance(b, pool) + delta
    ensures forall q :: q != pool ==> PoolBalance(b', q) == PoolBalance(b, q)
  {
    match pool
    case Platform => b.(platform := b.platform + delta)
    case Leaderboard => b.(leaderboard := b.leaderboard + delta)
    case Creator => b.(creator := b.creator + delta)
    case Total => b.(total := b.total + delta)
  }

  /** What holds of the counters between calls: the three pools are never
      negative and together never exceed what was ever deposited. */
  predicate BookValid(b: FeeBook) {
    0 <= b.platform && 0 <= b.leaderboard && 0 <= b.creator
    && b.platform + b.leaderboard + b.creator <= b.total
  }

  /** Two floor percentages of one amount never exceed the amount when the
      percentages add up to at most 100. */
  lemma SplitWithin(amount: int, p: nat, l: nat)
    requires amount >= 0 && p + l <= 100
    ensures 0 <= amount * p / 100 && 0 <= amount * l / 100
    ensures amount * p / 100 + amount * l / 100 <= amount
  {
    var x, y := amount * p, amount * l;
    var rest := amount * (100 - p - l);
    assert 0 <= x && 0 <= y && 0 <= rest;
    assert x + y + rest == amount * 100;
    var qx, qy := x / 100, y / 100;
    assert 100 * qx <= x && 100 * qy <= y;
    assert 100 * (qx + qy) <= 100 * amount;
  }

  /** The split of `deposit_fees`: a floor percentage each for the platform
      and leaderboard pools, the rest, rounding dust included, to the
      creator pool. */
  function FeeSplit(amount: int, r: FeeRatios): (s: (int, int, int))
    requires amount > 0 && RatiosValid(r)
    ensures s.0 + s.1 + s.2 == amount
    ensures 0 <= s.0 && 0 <= s.1 && 0 <= s.2
    ensures 100 * s.0 <= amount * r.platform < 100 * (s.0 + 1)
    ensures 100 * s.1 <= amount * r.leaderboard < 100 * (s.1 + 1)
  {
    SplitWithin(amount, r.platform, r.leaderboard);
    var platform := amount * r.platform / 100;
    var leaderboard := amount * r.leaderboard / 100;
    (platform, leaderboard, amount - platform - leaderboard)
  }

  /** The counters after a deposit: the four `update_pool_balance` calls. */
  function AfterDeposit(b: FeeBook, amount: int, r: FeeRatios): (b': FeeBook)
    requires amount > 0 && RatiosValid(r)
    ensures b'.platform == b.platform + FeeSplit(amount, r).0
    ensures b'.leaderboard == b.leaderboard + FeeSplit(amount, r).1
    ensures b'.creator == b.creator + FeeSplit(amount, r).2
    ensures b'.total == b.total + amount
  {
    var s := FeeSplit(amount, r);
    UpdatePoolBalance(UpdatePoolBalance(UpdatePoolBalance(UpdatePoolBalance(
      b, Platform, s.0), Leaderboard, s.1), Creator, s.2), Total, amount)
  }

  /** A deposit raises the three pools together, and the total, by exactly
      the deposit, and keeps the counters valid. */
  lemma DepositAccounting(b: FeeBook, amount: int, r: FeeRatios)
    requires amount > 0 && RatiosValid(r)
    ensures var b' := AfterDeposit(b, amount, r);
            && b'.total == b.total + amount
            && b'.platform + b'.leaderboard + b'.creator == b.platform + b.leaderboard + b.creator + amount
    ensures BookValid(b) ==> BookValid(AfterDeposit(b, amount, r))
  {
  }

  /** The deposits of the unit tests and the factory integration test. */
  lemma DepositExamples()
    ensures FeeSplit(1000, DEFAULT_RATIOS) == (500, 300, 200)
    ensures FeeSplit(1000, FeeRatios(40, 40, 20)) == (400, 400, 200)
    ensures FeeSplit(10_000_000, DEFAULT_RATIOS) == (5_000_000, 3_000_000, 2_000_000)
  {
  }

  // ---------------------------------------------------------------------
  // Reward lists.

  /** Sum of the percentage shares of a leaderboard list. */
  function SharesTotal(dists: seq<(Address, nat)>): nat {
    if dists == [] then 0 else dists[0].1 + SharesTotal(dists[1..])
  }

  /** The accumulator loop over the shares of a leaderboard list. */
  method SumShares(dists: seq<(Address, nat)>) returns (total: nat)
    ensures total == SharesTotal(dists)
  {
    total := 0;
    var i := 0;
    while i < |dists|
      invariant 0 <= i <= |dists|
      invariant total + SharesTotal(dists[i..]) == SharesTotal(dists)
    {
      assert dists[i..][1..] == dists[i + 1..];
      total := total + dists[i].1;
      i := i + 1;
    }
  }

  /** The accumulator loop over the amounts of a creator list. */
  method SumAmounts(dists: Payments) returns (total: int)
    ensures total == PaymentsTotal(dists)
  {
    total := 0;
    var i := 0;
    while i < |dists|
      invariant 0 <= i <= |dists|
      invariant total + PaymentsTotal(dists[i..]) == PaymentsTotal(dists)
    {
      assert dists[i..][1..] == dists[i + 1..];
      total := total + dists[i].1;
      i := i + 1;
    }
  }

  /** The transfer loop: pay each listed amount from `from`, in order; a
      refused transfer aborts the whole call. */
  method PayAll(b: Balances, from: Address, ps: Payments) returns (r: Option<Balances>)
    ensures r == TransferAll(b, from, ps)
  {
    var current := b;
    var i := 0;
    while i < |ps|
      invariant 0 <= i <= |ps|
      invariant TransferAll(current, from, ps[i..]) == TransferAll(b, from, ps)
    {
      assert ps[i..][1..] == ps[i + 1..];
      if !CanTransfer(current, from, ps[i].1) {
        return None;
      }
      current := Transfer(current, from, ps[i].0, ps[i].1);
      i := i + 1;
    }
    return Some(current);
  }

  /** What `distribute_leaderboard_rewards` pays: each recipient its floor
      percentage of the pool, in list order. */
  function LeaderboardPayouts(pool: int, dists: seq<(Address, nat)>): (ps: Payments)
    ensures |ps| == |dists|
    ensures forall i :: 0 <= i < |dists| ==> ps[i] == (dists[i].0, pool * dists[i].1 / 100)
  {
    if dists == [] then []
    else [(dists[0].0, pool * dists[0].1 / 100)] + LeaderboardPayouts(pool, dists[1..])
  }

  /** One floor percentage: dust below one unit per recipient. */
  lemma FloorPercent(pool: int, share: nat)
    requires pool >= 0
    ensures 0 <= 100 * (pool * share / 100) <= pool * share < 100 * (pool * share / 100) + 100
  {
    assert pool * share >= 0;
  }

  /** The payouts of a leaderboard list add up to the pool's percentage
      given by the share total, less a dust of under one unit per
      recipient. */
  lemma {:induction false} LeaderboardPayoutsBound(pool: int, dists: seq<(Address, nat)>)
    requires pool >= 0
    ensures 0 <= 100 * PaymentsTotal(LeaderboardPayouts(pool, dists))
    ensures 100 * PaymentsTotal(LeaderboardPayouts(pool, dists)) <= pool * SharesTotal(dists)
    ensures pool * SharesTotal(dists) - 100 * PaymentsTotal(LeaderboardPayouts(pool, dists)) <= 99 * |dists|
    decreases |dists|
  {
    if dists != [] {
      var ps := LeaderboardPayouts(pool, dists);
      var rest := LeaderboardPayouts(pool, dists[1..]);
      assert ps[1..] == rest;
      LeaderboardPayoutsBound(pool, dists[1..]);
      FloorPercent(pool, dists[0].1);
      assert PaymentsTotal(ps) == pool * dists[0].1 / 100 + PaymentsTotal(rest);
      assert pool * SharesTotal(dists) == pool * dists[0].1 + pool * SharesTotal(dists[1..]);
    }
  }

  /** With shares summing to 100 the payouts never exceed the pool, and
      the dust the reset throws away is under one unit per recipient. */
  lemma LeaderboardPayoutsWithinPool(pool: int, dists: seq<(Address, nat)>)
    requires pool >= 0 && SharesTotal(dists) == 100
    ensures 0 <= PaymentsTotal(LeaderboardPayouts(pool, dists)) <= pool
    ensures pool - PaymentsTotal(LeaderboardPayouts(pool, dists)) < |dists|
  {
    LeaderboardPayoutsBound(pool, dists);
  }

  /** The payout of the leaderboard unit test: 300 split 50/30/20. */
  lemma LeaderboardExample()
    ensures LeaderboardPayouts(300, [(1, 50), (2, 30), (3, 20)]) == [(1, 150), (2, 90), (3, 60)]
  {
  }

  // ---------------------------------------------------------------------
  // The contract.

  class TreasuryContract {
    /** The contract's own address, which holds the custodied tokens. */
    const treasuryAddress: Address

    /** `None` until `initialize` runs. */
    var config: Option<TreasuryConfig>

    /** The fee counters; each reads as 0 before `initialize`. */
    var fees: FeeBook

    /** Token balances, the treasury's own included. */
    var bank: Balances

    ghost predicate Valid()
      reads this
    {
      && BookValid(fees)
      && (config.Some? ==> RatiosValid(config.value.ratios))
      && (config.None? ==> fees == EMPTY_BOOK)
    }

    /** The four getters. */
    function GetPlatformFees(): (v: int)
      reads this
      ensures BookValid(fees) ==> 0 <= v <= fees.total
    {
      PoolBalance(fees, Platform)
    }

    function GetLeaderboardFees(): (v: int)
      reads this
      ensures BookValid(fees) ==> 0 <= v <= fees.total
    {
      PoolBalance(fees, Leaderboard)
    }

    function GetCreatorFees(): (v: int)
      reads this
      ensures BookValid(fees) ==> 0 <= v <= fees.total
    {
      PoolBalance(fees, Creator)
    }

    function GetTotalFees(): (v: int)
      reads this
      ensures BookValid(fees) ==> v >= fees.platform + fees.leaderboard + fees.creator
    {
      PoolBalance(fees, Total)
    }

    /** The getters never report a negative pool, the pools together never
        exceed the total, and all read 0 before initialization. */
    lemma GettersBounded()
      requires Valid()
      ensures 0 <= GetPlatformFees() && 0 <= GetLeaderboardFees() && 0 <= GetCreatorFees()
      ensures GetPlatformFees() + GetLeaderboardFees() + GetCreatorFees() <= GetTotalFees()
      ensures config.None? ==>
                GetPlatformFees() == 0 && GetLeaderboardFees() == 0 && GetCreatorFees() == 0 && GetTotalFees() == 0
    {
    }

    /** The deployed contract, before `initialize`. */
    constructor (treasuryAddress: Address, bank: Balances)
      ensures Valid()
      ensures this.treasuryAddress == treasuryAddress && this.bank == bank
      ensures config == None && fees == EMPTY_BOOK
    {
      this.treasuryAddress := treasuryAddress;
      this.bank := bank;
      config := None;
      fees := EMPTY_BOOK;
    }

    /** `initialize`, authorised by `admin`: refused once an admin is
        stored; otherwise zeroes the four counters and installs the
        default split. */
    method Initialize(admin: Address, usdc: Address, factory: Address) returns (r: Outcome<Error>)
      requires Valid()
      modifies this
      ensures Valid()
      ensures r == (if old(config).Some? then Fail(AlreadyInitialized) else Pass)
      ensures r.Fail? ==> unchanged(this)
      ensures r.Pass? ==>
        && config == Some(TreasuryConfig(admin, usdc, factory, DEFAULT_RATIOS))
        && fees == EMPTY_BOOK && bank == old(bank)
    {
      if config.Some? {
        return Fail(AlreadyInitialized);
      }
      config := Some(TreasuryConfig(admin, usdc, factory, DEFAULT_RATIOS));
      fees := EMPTY_BOOK;
      return Pass;
    }

    /** `set_fee_distribution`; `caller` is the account whose authorisation
        the host checked against the stored admin. */
    method SetFeeDistribution(caller: Address, platform: nat, leaderboard: nat, creator: nat) returns (r: Outcome<Error>)
      requires Valid()
      modifies this
      ensures Valid()
      ensures r == (if old(config).None? then Fail(NotInitialized)
                    else if caller != old(config).value.admin then Fail(Unauthorized)
                    else if platform + leaderboard + creator != 100 then Fail(InvalidRatios)
                    else Pass)
      ensures r.Fail? ==> unchanged(this)
      ensures r.Pass? ==>
        && config == Some(old(config).value.(ratios := FeeRatios(platform, leaderboard, creator)))
        && fees == old(fees) && bank == old(bank)
    {
      if config.None? {
        return Fail(NotInitialized);
      }
      if caller != config.value.admin {
        return Fail(Unauthorized);
      }
      if platform + leaderboard + creator != 100 {
        return Fail(InvalidRatios);
      }
      config := Some(config.value.(ratios := FeeRatios(platform, leaderboard, creator)));
      return Pass;
    }

    /** `deposit_fees` from the authenticated `source`: pulls `amount`
        into custody and splits it across the pools by the current ratios. */
    method DepositFees(source: Address, amount: int) returns (r: Outcome<Error>)
      requires Valid()
      modifies this
      ensures Valid()
      ensures r == (if amount <= 0 then Fail(InvalidAmount)
                    else if old(config).None? then Fail(NotInitialized)
                    else if !CanTransfer(old(bank), source, amount) then Fail(TransferFailed)
                    else Pass)
      ensures r.Fail? ==> unchanged(this)
      ensures r.Pass? ==>
        && bank == Transfer(old(bank), source, treasuryAddress, amount)
        && fees == AfterDeposit(old(fees), amount, old(config).value.ratios)
        && config == old(config)
    {
      if amount <= 0 {
        return Fail(InvalidAmount);
      }
      if config.None? {
        return Fail(NotInitialized);
      }
      if !CanTransfer(bank, source, amount) {
        return Fail(TransferFailed);
      }
      DepositAccounting(fees, amount, config.value.ratios);
      bank := Transfer(bank, source, treasuryAddress, amount);
      fees := AfterDeposit(fees, amount, config.value.ratios);
      return Pass;
    }

    /** `distribute_leaderboard_rewards` by the authenticated `admin`:
        pays each listed user its percentage of the leaderboard pool, then
        resets the pool to 0. */
    method DistributeLeaderboardRewards(admin: Address, dists: seq<(Address, nat)>) returns (r: Outcome<Error>)
      requires Valid()
      modifies this
      ensures Valid()
      ensures r == (if old(config).None? then Fail(NotInitialized)
                    else if admin != old(config).value.admin then Fail(Unauthorized)
                    else if SharesTotal(dists) != 100 then Fail(InvalidShares)
                    else if old(fees).leaderboard <= 0 then Fail(EmptyPool)
                    else if TransferAll(old(bank), treasuryAddress,
                                        LeaderboardPayouts(old(fees).leaderboard, dists)).None? then Fail(TransferFailed)
                    else Pass)
      ensures r.Fail? ==> unchanged(this)
      ensures r.Pass? ==>
        && bank == TransferAll(old(bank), treasuryAddress, LeaderboardPayouts(old(fees).leaderboard, dists)).value
        && fees == old(fees).(leaderboard := 0)
        && config == old(config)
      ensures r.Pass? && AvoidsRecipient(LeaderboardPayouts(old(fees).leaderboard, dists), treasuryAddress) ==>
        old(BalanceOf(bank, treasuryAddress)) - old(fees).leaderboard
        <= BalanceOf(bank, treasuryAddress) <= old(BalanceOf(bank, treasuryAddress))
    {
      if config.None? {
        return Fail(NotInitialized);
      }
      if admin != config.value.admin {
        return Fail(Unauthorized);
      }
      var totalShares := SumShares(dists);
      if totalShares != 100 {
        return Fail(InvalidShares);
      }
      var pool := fees.leaderboard;
      if pool <= 0 {
        return Fail(EmptyPool);
      }
      var paid := PayAll(bank, treasuryAddress, LeaderboardPayouts(pool, dists));
      if paid.None? {
        return Fail(TransferFailed);
      }
      var payouts := LeaderboardPayouts(pool, dists);
      LeaderboardPayoutsWithinPool(pool, dists);
      if AvoidsRecipient(payouts, treasuryAddress) {
        TransferAllDebitsPayer(bank, treasuryAddress, payouts);
      }
      bank := paid.value;
      fees := fees.(leaderboard := 0);
      return Pass;
    }

    /** `distribute_creator_rewards` by the authenticated `admin`: pays the
        listed amounts and takes their sum off the creator pool. */
    method DistributeCreatorRewards(admin: Address, dists: Payments) returns (r: Outcome<Error>)
      requires Valid()
      modifies this
      ensures Valid()
      ensures r == (if old(config).None? then Fail(NotInitialized)
                    else if admin != old(config).value.admin then Fail(Unauthorized)
                    else if PaymentsTotal(dists) > old(fees).creator then Fail(InsufficientBalance)
                    else if TransferAll(old(bank), treasuryAddress, dists).None? then Fail(TransferFailed)
                    else Pass)
      ensures r.Fail? ==> unchanged(this)
      ensures r.Pass? ==>
        && bank == TransferAll(old(bank), treasuryAddress, dists).value
        && fees == old(fees).(creator := old(fees).creator - PaymentsTotal(dists))
        && config == old(config)
      ensures r.Pass? && AvoidsRecipient(dists, treasuryAddress) ==>
        BalanceOf(bank, treasuryAddress) == old(BalanceOf(bank, treasuryAddress)) - PaymentsTotal(dists)
    {
      if config.None? {
        return Fail(NotInitialized);
      }
      if admin != config.value.admin {
        return Fail(Unauthorized);
      }
      var total := SumAmounts(dists);
      if total > fees.creator {
        return Fail(InsufficientBalance);
      }
      var paid := PayAll(bank, treasuryAddress, dists);
      if paid.None? {
        return Fail(TransferFailed);
      }
      TransferAllNonNegative(bank, treasuryAddress, dists);
      if AvoidsRecipient(dists, treasuryAddress) {
        TransferAllDebitsPayer(bank, treasuryAddress, dists);
      }
      bank := paid.value;
      fees := fees.(creator := fees.creator - total);
      return Pass;
    }

    /** `emergency_withdraw` by the authenticated `admin`: moves custody
        only; no counter changes. */
    method EmergencyWithdraw(admin: Address, recipient: Address, amount: int) returns (r: Outcome<Error>)
      requires Valid()
      modifies this
      ensures Valid()
      ensures r == (if old(config).None? then Fail(NotInitialized)
                    else if admin != old(config).value.admin then Fail(Unauthorized)
                    else if !CanTransfer(old(bank), treasuryAddress, amount) then Fail(TransferFailed)
                    else Pass)
      ensures r.Fail? ==> unchanged(this)
      ensures r.Pass? ==>
        && bank == Transfer(old(bank), treasuryAddress, recipient, amount)
        && fees == old(fees) && config == old(config)
      ensures r.Pass? && recipient != treasuryAddress ==>
        BalanceOf(bank, treasuryAddress) == old(BalanceOf(bank, treasuryAddress)) - amount
    {
      if config.None? {
        return Fail(NotInitialized);
      }
      if admin != config.value.admin {
        return Fail(Unauthorized);
      }
      if !CanTransfer(bank, treasuryAddress, amount) {
        return Fail(TransferFailed);
      }
      bank := Transfer(bank, treasuryAddress, recipient, amount);
      return Pass;
    }
  }
}
