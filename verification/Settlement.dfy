// The settlement arithmetic: what a position locks, and what a settle pays and slashes.
module Settlement {
  import opened Numbers

  const BPS_DENOMINATOR: int := 10_000
  const MIN_COLLATERAL_RATIO_BPS: int := 1_000
  const MAX_COLLATERAL_RATIO_BPS: int := 10_000
  const MAX_DRAWDOWN_BPS: int := 5_000
  const FEE_CAP_DIVISOR: int := 2
  const MIN_POSITION_DURATION: int := 60
  const MAX_POSITION_DURATION: int := 90 * 24 * 60 * 60

  datatype AgentTerms = AgentTerms(
    collateralRatioBps: u16,
    feeBps: u16,
    maxDrawdownBps: u16,
    minDurationSecs: i64,
    maxDurationSecs: i64)

  predicate RatioAndDrawdownFit(ratioBps: u16, drawdownBps: u16) {
    ratioBps + drawdownBps <= BPS_DENOMINATOR
  }

  // `AgentTerms::validate`, in the source's order of checks.
  function Validate(t: AgentTerms): Result<()> {
    if !(MIN_COLLATERAL_RATIO_BPS <= t.collateralRatioBps <= MAX_COLLATERAL_RATIO_BPS) then
      Failure(InvalidCollateralRatio)
    else if t.feeBps > t.collateralRatioBps / FEE_CAP_DIVISOR then Failure(FeeTooHigh)
    else if t.maxDrawdownBps > MAX_DRAWDOWN_BPS then Failure(InvalidDrawdown)
    else if !RatioAndDrawdownFit(t.collateralRatioBps, t.maxDrawdownBps) then Failure(RatioPlusDrawdownTooHigh)
    else if !(MIN_POSITION_DURATION <= t.minDurationSecs <= t.maxDurationSecs <= MAX_POSITION_DURATION) then
      Failure(InvalidTradingWindow)
    else Success(())
  }

  predicate Valid(t: AgentTerms) {
    Validate(t).Success?
  }

  // Collateral locked for a principal, rounded up, through u128 and back to u64.
  function RequiredCollateral(principal: u64, ratioBps: u16): Result<u64> {
    var locked := (principal * ratioBps + (BPS_DENOMINATOR - 1)) / BPS_DENOMINATOR;
    if locked <= U64_MAX then Success(locked) else Failure(Overflow)
  }

  datatype Settled = Settled(fee: u64, slash: u64)

  // A share of `value` in basis points, rounded down, through u128 and back to u64.
  function Share(value: u64, rateBps: u16): Result<u64> {
    var share := value * rateBps / BPS_DENOMINATOR;
    if 0 <= share <= U64_MAX then Success(share) else Failure(Overflow)
  }

  function ComputeSettlement(
    principal: u64, returned: u64, feeBps: u16, maxDrawdownBps: u16, locked: u64): Result<Settled>
  {
    if returned >= principal then
      var fee :- Share(returned - principal, feeBps);
      Success(Settled(fee, 0))
    else
      var loss := principal - returned;
      var allowed :- Share(principal, maxDrawdownBps);
      var shortfall := if loss > allowed then loss - allowed else 0;
      Success(Settled(0, if shortfall <= locked then shortfall else locked))
  }

  // What the trader is paid for a settle, the vault's rent floor apart.
  function Payout(returned: u64, s: Settled): int {
    returned - s.fee + s.slash
  }

  // ---------- bounds ----------

  lemma ProductBound(value: nat, rate: nat, cap: nat)
    requires rate <= cap
    ensures value * rate <= value * cap
  {
  }

  // A rate of at most 100% never takes more than the whole, so it never overflows.
  lemma ShareIsPartOf(value: u64, rateBps: u16)
    requires rateBps <= BPS_DENOMINATOR
    ensures Share(value, rateBps).Success?
    ensures Share(value, rateBps).value <= value
    ensures Share(value, rateBps).value * BPS_DENOMINATOR <= value * rateBps
    ensures value * rateBps < (Share(value, rateBps).value + 1) * BPS_DENOMINATOR
  {
    ProductBound(value, rateBps, BPS_DENOMINATOR);
    assert 0 <= value * rateBps;
  }

  // The lock is the least whole number of lamports covering the ratio.
  lemma LockIsCeiling(principal: u64, ratioBps: u16)
    requires ratioBps <= BPS_DENOMINATOR
    ensures RequiredCollateral(principal, ratioBps).Success?
    ensures
      var locked := RequiredCollateral(principal, ratioBps).value;
      && principal * ratioBps <= locked * BPS_DENOMINATOR < principal * ratioBps + BPS_DENOMINATOR
      && locked <= principal
      && (locked > 0 <==> principal > 0 && ratioBps > 0)
  {
    ProductBound(principal, ratioBps, BPS_DENOMINATOR);
    assert principal > 0 && ratioBps > 0 ==> principal * ratioBps >= 1;
    assert principal == 0 || ratioBps == 0 ==> principal * ratioBps == 0;
  }

  // An agent can lock for a principal exactly when that principal is within its capacity, worked out in exact integers.
  lemma CapacityIsLargestPrincipal(free: u64, principal: u64, ratioBps: u16)
    requires 0 < ratioBps <= BPS_DENOMINATOR
    ensures RequiredCollateral(principal, ratioBps).Success?
    ensures RequiredCollateral(principal, ratioBps).value <= free <==> principal <= Capacity(free, ratioBps)
  {
    LockIsCeiling(principal, ratioBps);
    var capacity := Capacity(free, ratioBps);
    QuotientBounds(free * BPS_DENOMINATOR, ratioBps);
    if principal <= capacity {
      ProductBound(ratioBps, principal, capacity);
    } else {
      ProductBound(ratioBps, capacity + 1, principal);
    }
  }

  // The largest principal an agent's free collateral can back, in exact integers.
  function Capacity(free: u64, ratioBps: u16): nat
    requires ratioBps > 0
  {
    free * BPS_DENOMINATOR / ratioBps
  }

  lemma QuotientBounds(n: nat, d: nat)
    requires d > 0
    ensures n / d * d <= n < (n / d + 1) * d
  {
  }

  // ---------- what a settle guarantees ----------

  // For terms that validate, no amount can overflow the settlement, and it never slashes past the lock.
  lemma SettlementNeverOverflows(principal: u64, returned: u64, feeBps: u16, maxDrawdownBps: u16, locked: u64)
    requires feeBps <= BPS_DENOMINATOR && maxDrawdownBps <= BPS_DENOMINATOR
    ensures ComputeSettlement(principal, returned, feeBps, maxDrawdownBps, locked).Success?
    ensures
      var s := ComputeSettlement(principal, returned, feeBps, maxDrawdownBps, locked).value;
      && s.slash <= locked
      && s.fee <= returned
      && (s.fee > 0 ==> returned > principal)
      && (s.slash > 0 ==> returned < principal)
  {
    if returned >= principal {
      ShareIsPartOf(returned - principal, feeBps);
    } else {
      ShareIsPartOf(principal, maxDrawdownBps);
    }
  }

  // Returning more never pays the trader less.
  lemma PayoutIsMonotone(
    principal: u64, less: u64, more: u64, feeBps: u16, maxDrawdownBps: u16, locked: u64)
    requires feeBps <= BPS_DENOMINATOR && maxDrawdownBps <= BPS_DENOMINATOR
    requires less <= more
    requires locked <= principal
    ensures ComputeSettlement(principal, less, feeBps, maxDrawdownBps, locked).Success?
    ensures ComputeSettlement(principal, more, feeBps, maxDrawdownBps, locked).Success?
    ensures Payout(less, ComputeSettlement(principal, less, feeBps, maxDrawdownBps, locked).value)
         <= Payout(more, ComputeSettlement(principal, more, feeBps, maxDrawdownBps, locked).value)
  {
    SettlementNeverOverflows(principal, less, feeBps, maxDrawdownBps, locked);
    SettlementNeverOverflows(principal, more, feeBps, maxDrawdownBps, locked);
    if less >= principal {
      FeeGrowsSlowerThanProfit(less - principal, more - principal, feeBps);
    } else if more >= principal {
      ShareIsPartOf(more - principal, feeBps);
      ShareIsPartOf(principal, maxDrawdownBps);
    }
  }

  lemma FeeGrowsSlowerThanProfit(less: u64, more: u64, feeBps: u16)
    requires less <= more && feeBps <= BPS_DENOMINATOR
    ensures Share(less, feeBps).Success? && Share(more, feeBps).Success?
    ensures Share(more, feeBps).value - Share(less, feeBps).value <= more - less
  {
    ShareIsPartOf(less, feeBps);
    ShareIsPartOf(more, feeBps);
    ProductBound(more - less, feeBps, BPS_DENOMINATOR);
    assert more * feeBps == less * feeBps + (more - less) * feeBps;
  }

  // The bond plus the tolerated loss fit inside the principal: one is rounded up, the other down.
  lemma LockFitsUnderFloor(principal: u64, ratioBps: u16, maxDrawdownBps: u16)
    requires RatioAndDrawdownFit(ratioBps, maxDrawdownBps)
    ensures RequiredCollateral(principal, ratioBps).Success? && Share(principal, maxDrawdownBps).Success?
    ensures RequiredCollateral(principal, ratioBps).value + Share(principal, maxDrawdownBps).value <= principal
  {
    LockIsCeiling(principal, ratioBps);
    ShareIsPartOf(principal, maxDrawdownBps);
    ProductBound(principal, ratioBps + maxDrawdownBps, BPS_DENOMINATOR);
    assert principal * (ratioBps + maxDrawdownBps) == principal * ratioBps + principal * maxDrawdownBps;
  }

  // Whatever is returned, the trader is paid at least the locked bond. Returning nothing costs all of it.
  lemma PayoutCoversLock(principal: u64, returned: u64, feeBps: u16, maxDrawdownBps: u16, ratioBps: u16, locked: u64)
    requires feeBps <= BPS_DENOMINATOR
    requires RatioAndDrawdownFit(ratioBps, maxDrawdownBps)
    requires RequiredCollateral(principal, ratioBps) == Success(locked)
    ensures ComputeSettlement(principal, returned, feeBps, maxDrawdownBps, locked).Success?
    ensures Payout(returned, ComputeSettlement(principal, returned, feeBps, maxDrawdownBps, locked).value) >= locked
    ensures returned == 0 < principal ==>
      ComputeSettlement(principal, returned, feeBps, maxDrawdownBps, locked).value == Settled(0, locked)
  {
    SettlementNeverOverflows(principal, returned, feeBps, maxDrawdownBps, locked);
    LockFitsUnderFloor(principal, ratioBps, maxDrawdownBps);
    if returned >= principal {
      ShareIsPartOf(returned - principal, feeBps);
      LockIsCeiling(principal, ratioBps);
    }
  }

  // The bound the terms enforce is what makes this true: with it broken, walking away can cost less than the bond.
  lemma WithoutTheBoundWalkingAwayIsCheaper()
    ensures !RatioAndDrawdownFit(6_000, 5_000)
    ensures RequiredCollateral(100, 6_000) == Success(60)
    ensures ComputeSettlement(100, 0, 0, 5_000, 60) == Success(Settled(0, 50))
  {
  }
}
