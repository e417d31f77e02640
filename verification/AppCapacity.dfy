// The app's advertised capacity, as the double-precision numbers it computes with round it.
module AppCapacity {
  import opened Numbers
  import opened Settlement

  function Pow2(k: nat): (p: nat)
    ensures p > 0
  {
    if k == 0 then 1 else 2 * Pow2(k - 1)
  }

  // The exponent of the power of two that starts n's binade.
  function Log2(n: nat): nat {
    if n <= 1 then 0 else Log2(n / 2) + 1
  }

  // n / d to the nearest whole number, a tie to the even one.
  function RoundHalfEven(n: nat, d: nat): nat
    requires d > 0
  {
    if 2 * (n % d) < d || (2 * (n % d) == d && n / d % 2 == 0) then n / d else n / d + 1
  }

  // The whole part of the double nearest to n / d, which is 0 or at least 1: 53 significant bits.
  function NearestDouble(n: nat, d: nat): nat
    requires d > 0
  {
    var e := Log2(n / d);
    if e <= 52 then NearestMultiple(n, d, Pow2(52 - e)) else RoundHalfEven(n, Times(d, Pow2(e - 52))) * Pow2(e - 52)
  }

  function Times(a: nat, b: nat): (c: nat)
    ensures a > 0 && b > 0 ==> c > 0
  {
    a * b
  }

  // The whole part of the multiple of 1 / m nearest to n / d.
  function NearestMultiple(n: nat, d: nat, m: nat): nat
    requires d > 0 && m > 0
  {
    RoundHalfEven(Times(n, m), d) / m
  }

  // `capacity`: none where the collateral does not convert to a number.
  function AppCapacity(free: u64, ratioBps: u16): Option<nat>
    requires ratioBps > 0
  {
    if free < Pow2(53) then Some(NearestDouble(NearestDouble(free * BPS_DENOMINATOR, 1), ratioBps)) else None
  }

  lemma {:induction false} Log2Brackets(n: nat)
    requires n > 0
    ensures Pow2(Log2(n)) <= n < 2 * Pow2(Log2(n))
  {
    if n > 1 {
      Log2Brackets(n / 2);
    }
  }

  lemma {:induction false} Pow2Grows(a: nat, b: nat)
    requires a <= b
    ensures Pow2(a) <= Pow2(b)
  {
    if a < b {
      Pow2Grows(a, b - 1);
    }
  }

  lemma Pow2Doubles(a: nat, b: nat)
    ensures a < b ==> 2 * Pow2(a) <= Pow2(b)
  {
    if a < b {
      Pow2Grows(a + 1, b);
    }
  }

  // A number below a power of two starts its binade below it.
  lemma Log2Below(n: nat, k: nat)
    requires 0 < n < Pow2(k)
    ensures Log2(n) < k
  {
    Log2Brackets(n);
    if Log2(n) >= k {
      Pow2Grows(k, Log2(n));
    }
  }

  // ---------- the quotient ----------

  lemma DivisionIs(n: nat, d: nat, q: nat, r: nat)
    requires n == q * d + r && r < d
    ensures n / d == q && n % d == r
  {
    var x := q - n / d;
    assert x * d == n % d - r by {
      assert n == n / d * d + n % d;
    }
    Multiple(x, d);
  }

  lemma Multiple(x: int, d: nat)
    ensures x >= 1 ==> x * d >= d
    ensures x >= 2 ==> x * d >= 2 * d
    ensures x <= 0 ==> x * d <= 0
    ensures x <= -1 ==> x * d + d <= 0
  {
  }

  lemma RoundIs(n: nat, d: nat, q: nat, r: nat)
    requires n == q * d + r && r < d
    ensures RoundHalfEven(n, d) == if 2 * r < d || (2 * r == d && q % 2 == 0) then q else q + 1
  {
    DivisionIs(n, d, q, r);
  }

  lemma Scaled(n: nat, d: nat, q: nat, r: nat, m: nat, k: nat, s: nat)
    requires n == q * d + r && r * m == k * d + s
    ensures n * m == (q * m + k) * d + s
  {
    assert n * m == q * d * m + r * m;
    assert (q * m + k) * d == q * m * d + k * d;
    assert q * d * m == q * m * d;
  }

  // r / d lies in the last of the m parts of a unit, and in the upper half of that part, exactly if it is that near
  // the unit's end.
  lemma LastMultiple(r: nat, d: nat, m: nat, k: nat, s: nat)
    requires r < d && m > 0 && r * m == k * d + s && s < d
    ensures k < m
    ensures k == m - 1 && 2 * s >= d <==> 2 * (m * (d - r)) <= d
  {
    var x := m - k;
    assert m * (d - r) == x * d - s by {
      assert m * (d - r) == m * d - r * m;
      assert x * d == m * d - k * d;
    }
    assert m * (d - r) > 0;
    Multiple(x, d);
  }

  lemma EvenMultiple(q: nat, m: nat, k: nat)
    requires m % 2 == 0
    ensures (q * m + k) % 2 == k % 2
  {
    assert q * m == 2 * (q * (m / 2));
  }

  lemma NearMultiple(scaled: nat, d: nat, q: nat, m: nat, k: nat, s: nat)
    requires scaled == (q * m + k) * d + s && s < d && k < m && m % 2 == 0
    ensures RoundHalfEven(scaled, d) / m == q + if k == m - 1 && 2 * s >= d then 1 else 0
  {
    RoundIs(scaled, d, q * m + k, s);
    EvenMultiple(q, m, k);
    hide RoundHalfEven;
    var near := RoundHalfEven(scaled, d);
    if k == m - 1 && 2 * s >= d {
      assert near == (q + 1) * m;
      DivisionIs(near, m, q + 1, 0);
    } else {
      DivisionIs(near, m, q, near - q * m);
    }
  }

  lemma Parts(n: nat, d: nat) returns (q: nat, r: nat)
    requires d > 0
    ensures q == n / d && r == n % d && n == q * d + r && r < d
  {
    q, r := n / d, n % d;
  }

  // n / d is within half a multiple of 1 / m of the next whole number.
  predicate NearNextAt(n: nat, d: nat, m: nat)
    requires d > 0
  {
    2 * (m * (d - n % d)) <= d
  }

  // Of the multiples of 1 / m, the nearest to n / d reaches the next whole number exactly then.
  lemma RoundsUpExactly(n: nat, d: nat, m: nat)
    requires d > 0 && m > 0 && m % 2 == 0
    ensures NearestMultiple(n, d, m) == n / d + if NearNextAt(n, d, m) then 1 else 0
  {
    var q, r := Parts(n, d);
    var k, s := Parts(r * m, d);
    Scaled(n, d, q, r, m, k, s);
    LastMultiple(r, d, m, k, s);
    hide RoundHalfEven;
    NearMultiple(Times(n, m), d, q, m, k, s);
  }

  lemma PositiveQuotient(n: nat, d: nat)
    requires 0 < d <= n
    ensures n / d > 0 && n == n / d * d + n % d
  {
    assert n == n / d * d + n % d;
    Multiple(n / d, d);
  }

  // The whole numbers that are doubles near n / d are the multiples of this.
  function Step(n: nat, d: nat): (g: nat)
    requires d > 0
    ensures g > 0
  {
    if Log2(n / d) <= 52 then 1 else Pow2(Log2(n / d) - 52)
  }

  predicate HalfOrMore(n: nat, d: nat)
    requires d > 0
  {
    2 * (n % d) > d || (2 * (n % d) == d && n / d % 2 == 1)
  }

  // n / d comes out above the last multiple of the step: below 2^52 if it is within half of a double's fraction of the
  // next whole number, and above if it is no nearer to the last multiple than to the next.
  predicate RoundsUp(n: nat, d: nat)
    requires d > 0
  {
    if Log2(n / d) < 52 then NearNextAt(n, d, Pow2(52 - Log2(n / d))) else HalfOrMore(n, Times(d, Step(n, d)))
  }

  function UpOne(n: nat, d: nat): nat
    requires d > 0
  {
    if RoundsUp(n, d) then 1 else 0
  }

  function Quotient(n: nat, d: nat): nat
    requires d > 0
  {
    n / d
  }

  // The last multiple of the step that n / d reaches, or the next.
  function Rounded(n: nat, d: nat): nat
    requires d > 0
  {
    Times(Quotient(n, Times(d, Step(n, d))) + UpOne(n, d), Step(n, d))
  }

  // Every quotient comes out as the last multiple of the step it reaches, or the next one exactly if it rounds up.
  lemma QuotientExactly(n: nat, d: nat)
    requires 0 < d <= n
    ensures NearestDouble(n, d) == Rounded(n, d)
  {
    hide NearestMultiple, NearNextAt, Log2, RoundHalfEven;
    var e := Log2(n / d);
    if e < 52 {
      assert Pow2(52 - e) == 2 * Pow2(51 - e);
      RoundsUpExactly(n, d, Pow2(52 - e));
    } else if e == 52 {
      AtUnitScale(n, d);
      HalfRoundsUp(n, d);
    } else {
      HalfRoundsUp(n, Times(d, Step(n, d)));
    }
  }

  lemma HalfRoundsUp(n: nat, d: nat)
    requires d > 0
    ensures RoundHalfEven(n, d) == n / d + if HalfOrMore(n, d) then 1 else 0
  {
  }

  lemma AtUnitScale(n: nat, d: nat)
    requires d > 0
    ensures NearestMultiple(n, d, 1) == RoundHalfEven(n, d) && Times(d, 1) == d
  {
    hide RoundHalfEven;
    assert Times(n, 1) == n;
  }

  // ---------- the product ----------

  lemma {:induction false} Pow2Adds(a: nat, b: nat)
    ensures Pow2(a + b) == Pow2(a) * Pow2(b)
  {
    if a > 0 {
      Pow2Adds(a - 1, b);
    }
  }

  lemma WholeMultiple(n: nat, q: nat, d: nat)
    requires d > 0 && n == q * d
    ensures RoundHalfEven(n, d) == q
  {
    DivisionIs(n, d, q, 0);
  }

  lemma WholeAtScale(n: nat, m: nat)
    requires m > 0
    ensures NearestMultiple(n, 1, m) == n
  {
    WholeMultiple(Times(n, m), n * m, 1);
    hide RoundHalfEven;
    DivisionIs(n * m, m, n, 0);
  }

  // A multiple of 16 below 2^57 is a double.
  lemma MultipleOf16(n: nat, part: nat)
    requires n == 16 * part && n < Pow2(57)
    ensures NearestDouble(n, 1) == n
  {
    assert n / 1 == n;
    var e := Log2(n);
    if e <= 52 {
      hide NearestMultiple;
      WholeAtScale(n, Pow2(52 - e));
    } else {
      Log2Below(n, 57);
      Powers();
      Pow2Adds(e - 52, 56 - e);
      hide RoundHalfEven, Pow2;
      SixteenSplit(n, part, Pow2(e - 52), Pow2(56 - e));
      WholeMultiple(n, part * Pow2(56 - e), Pow2(e - 52));
    }
  }

  lemma SixteenSplit(n: nat, part: nat, g: nat, h: nat)
    requires n == 16 * part && g * h == 16
    ensures n == part * h * g
  {
    assert part * h * g == part * (g * h);
  }

  // A double is at most twice what it rounds, and not less than the last multiple of its step.
  lemma DoubleBounds(n: nat, d: nat)
    requires 0 < d <= n
    ensures NearestDouble(n, d) * d <= 2 * n
    ensures n / d >= Pow2(52) ==> NearestDouble(n, d) >= Pow2(52)
  {
    QuotientExactly(n, d);
    StepFits(n, d);
    hide NearestDouble, RoundsUp, Step;
    var g := Step(n, d);
    var q, r := Parts(n, Times(d, g));
    MultipleBounds(n, d, g, q, r, UpOne(n, d), Pow2(52));
  }

  lemma MultipleBounds(n: nat, d: nat, g: nat, q: nat, r: nat, up: nat, low: nat)
    requires n == q * (d * g) + r && r < d * g <= n && up <= 1
    requires n / d >= low ==> low * g * d <= n
    ensures (q + up) * g * d <= 2 * n
    ensures n / d >= low ==> (q + up) * g >= low
  {
    var w := d * g;
    assert w > 0;
    assert g > 0;
    UpToTwice(n, w, q, r, up);
    Regroup(q + up, g, d);
    Regroup(low, g, d);
    if n / d >= low {
      AtLeast(n, w, q, r, low);
      Multiple(g, q + up);
    }
  }

  lemma Regroup(a: nat, g: nat, d: nat)
    ensures a * g * d == a * (d * g)
  {
  }

  lemma UpToTwice(n: nat, w: nat, q: nat, r: nat, up: nat)
    requires n == q * w + r && w <= n && up <= 1
    ensures (q + up) * w <= 2 * n
  {
    assert (q + up) * w == q * w + up * w;
  }

  lemma AtLeast(n: nat, w: nat, q: nat, r: nat, low: nat)
    requires n == q * w + r && r < w && low * w <= n
    ensures q >= low
  {
    assert (q - low) * w == q * w - low * w;
    Multiple(q - low, w);
  }

  lemma StepFits(n: nat, d: nat)
    requires 0 < d <= n
    ensures Times(d, Step(n, d)) <= n
    ensures n / d >= Pow2(52) ==> Pow2(52) * Step(n, d) * d <= n
  {
    PositiveQuotient(n, d);
    Log2Brackets(n / d);
    var e := Log2(n / d);
    if e >= 52 {
      Pow2Adds(52, e - 52);
      assert Pow2(52) * Step(n, d) == Pow2(e);
    }
    if e < 52 {
      Pow2Grows(e + 1, 52);
    }
    StepFitsBy(n, d, Step(n, d), n / d);
  }

  lemma StepFitsBy(n: nat, d: nat, g: nat, q: nat)
    requires q * d <= n && 0 < d && 0 < q && (g == 1 || Pow2(52) * g <= q) && (q >= Pow2(52) ==> Pow2(52) * g <= q)
    ensures d * g <= n && (q >= Pow2(52) ==> Pow2(52) * g * d <= n)
  {
    Settlement.ProductBound(g, 1, Pow2(52));
    assert g <= q;
    Settlement.ProductBound(d, g, q);
    if q >= Pow2(52) {
      Settlement.ProductBound(d, Pow2(52) * g, q);
    }
  }

  // ---------- the capacity ----------

  // What the app divides: the product as a double.
  function Product(free: u64): nat {
    NearestDouble(free * BPS_DENOMINATOR, 1)
  }

  lemma ProductBounds(free: u64, ratioBps: u16)
    requires 0 < free && 0 < ratioBps <= BPS_DENOMINATOR
    ensures ratioBps <= Product(free) <= 2 * (free * BPS_DENOMINATOR)
    ensures 625 * free < Pow2(53) ==> Product(free) == free * BPS_DENOMINATOR
  {
    Powers();
    var n := free * BPS_DENOMINATOR;
    hide NearestDouble, Pow2, Log2;
    if 625 * free < Pow2(53) {
      MultipleOf16(n, free * 625);
    } else {
      DoubleBounds(n, 1);
    }
  }

  // For every collateral that converts to a number: the app offers the rounded product over the ratio, rounded down to
  // a multiple of the doubles' step there or up to the next. Up to some 14,411 SOL the product is exact and the step
  // one, so the app is right or one too high.
  lemma AppCapacityExactly(free: u64, ratioBps: u16)
    requires 0 < free < Pow2(53) && MIN_COLLATERAL_RATIO_BPS <= ratioBps <= BPS_DENOMINATOR
    ensures AppCapacity(free, ratioBps) == Some(Rounded(Product(free), ratioBps))
    ensures 625 * free < Pow2(53) ==>
      && Product(free) == free * BPS_DENOMINATOR
      && Rounded(Product(free), ratioBps) == Capacity(free, ratioBps) + UpOne(free * BPS_DENOMINATOR, ratioBps)
  {
    hide NearestDouble, Rounded, Pow2;
    ProductBounds(free, ratioBps);
    QuotientExactly(Product(free), ratioBps);
    if 625 * free < Pow2(53) {
      StepIsOne(free, ratioBps);
    }
  }

  lemma StepIsOne(free: u64, ratioBps: u16)
    requires 0 < 625 * free < Pow2(53) && MIN_COLLATERAL_RATIO_BPS <= ratioBps <= BPS_DENOMINATOR
    ensures Log2(Capacity(free, ratioBps)) < 52
    ensures Rounded(free * BPS_DENOMINATOR, ratioBps) ==
      Capacity(free, ratioBps) + UpOne(free * BPS_DENOMINATOR, ratioBps)
  {
    Powers();
    hide Pow2;
    CapacityBelow(free, ratioBps, Pow2(52));
    QuotientIsPositive(free, ratioBps);
    Log2Below(Capacity(free, ratioBps), 52);
    hide Log2, RoundsUp, Step;
    UnitStep(free * BPS_DENOMINATOR, ratioBps);
  }

  lemma QuotientIsPositive(free: u64, ratioBps: u16)
    requires 0 < free && 0 < ratioBps <= BPS_DENOMINATOR
    ensures Capacity(free, ratioBps) > 0
  {
    PositiveQuotient(free * BPS_DENOMINATOR, ratioBps);
  }

  lemma UnitStep(n: nat, d: nat)
    requires d > 0 && Log2(n / d) < 52
    ensures Step(n, d) == 1 && Times(d, Step(n, d)) == d
  {
  }

  lemma CapacityBelow(free: u64, ratioBps: u16, bound: nat)
    requires ratioBps >= MIN_COLLATERAL_RATIO_BPS && 10 * free < bound
    ensures Capacity(free, ratioBps) < bound
  {
    var c := Capacity(free, ratioBps);
    Settlement.QuotientBounds(free * BPS_DENOMINATOR, ratioBps);
    Settlement.ProductBound(c, MIN_COLLATERAL_RATIO_BPS, ratioBps);
  }

  lemma Powers()
    ensures Pow2(4) == 16 && Pow2(13) == 0x2000 && Pow2(40) == 0x100_0000_0000 && Pow2(52) == 0x10_0000_0000_0000
    ensures Pow2(53) == 0x20_0000_0000_0000 && Pow2(57) == 0x200_0000_0000_0000
  {
    assert Pow2(13) == 0x2000;
    Pow2Adds(13, 13);
    Pow2Adds(26, 13);
    Pow2Adds(39, 1);
    Pow2Adds(40, 12);
    Pow2Adds(52, 1);
    Pow2Adds(53, 4);
  }

  // Capacities below 2^40 lamports, some 1,100 SOL, are never off.
  lemma SmallCapacitiesAreRight(free: u64, ratioBps: u16)
    requires MIN_COLLATERAL_RATIO_BPS <= ratioBps <= BPS_DENOMINATOR && Capacity(free, ratioBps) < Pow2(40)
    ensures AppCapacity(free, ratioBps) == Some(Capacity(free, ratioBps))
  {
    Powers();
    hide NearestDouble, RoundsUp, Pow2, Log2;
    if free == 0 {
      MultipleOf16(0, 0);
      NoneIsNone(ratioBps);
    } else {
      CapacityAbove(free, ratioBps, Pow2(40));
      AppCapacityExactly(free, ratioBps);
      FarFromNext(free, ratioBps);
    }
  }

  lemma NoneIsNone(d: nat)
    requires d > 0
    ensures NearestDouble(0, d) == 0
  {
    assert Log2(0 / d) == 0 && Times(0, Pow2(52)) == 0;
    WholeMultiple(0, 0, d);
    hide RoundHalfEven;
    DivisionIs(0, Pow2(52), 0, 0);
  }

  lemma CapacityAbove(free: u64, ratioBps: u16, bound: nat)
    requires 0 < ratioBps <= BPS_DENOMINATOR && Capacity(free, ratioBps) < bound
    ensures free < bound
  {
    var c := Capacity(free, ratioBps);
    Settlement.QuotientBounds(free * BPS_DENOMINATOR, ratioBps);
    Settlement.ProductBound(c + 1, ratioBps, BPS_DENOMINATOR);
  }

  lemma FarFromNext(free: u64, ratioBps: u16)
    requires free > 0 && MIN_COLLATERAL_RATIO_BPS <= ratioBps <= BPS_DENOMINATOR && Capacity(free, ratioBps) < Pow2(40)
    ensures !RoundsUp(free * BPS_DENOMINATOR, ratioBps)
  {
    Powers();
    hide Pow2, Log2;
    PositiveQuotient(free * BPS_DENOMINATOR, ratioBps);
    Log2Below(Capacity(free, ratioBps), 40);
    Pow2Grows(13, 52 - Log2(Capacity(free, ratioBps)));
    TooFar(free * BPS_DENOMINATOR, ratioBps, Pow2(52 - Log2(Capacity(free, ratioBps))));
  }

  lemma TooFar(n: nat, d: nat, m: nat)
    requires 0 < d < 2 * m
    ensures !NearNextAt(n, d, m)
  {
    Multiple(d - n % d, m);
  }

  // So the program locks for the capacity the app offers if and only if rounding the product and the quotient took it
  // up by no more than the division left over.
  lemma OfferIsBackedExactly(free: u64, ratioBps: u16)
    requires 0 < free < Pow2(53) && MIN_COLLATERAL_RATIO_BPS <= ratioBps <= BPS_DENOMINATOR
    ensures AppCapacity(free, ratioBps).Some? && AppCapacity(free, ratioBps).value <= U64_MAX
    ensures RequiredCollateral(AppCapacity(free, ratioBps).value, ratioBps).Success?
    ensures
      var n, p := free * BPS_DENOMINATOR, Product(free);
      var whole := Times(ratioBps, Step(p, ratioBps));
      RequiredCollateral(AppCapacity(free, ratioBps).value, ratioBps).value <= free <==>
        p - n + UpOne(p, ratioBps) * whole <= p % whole
  {
    Powers();
    AppCapacityExactly(free, ratioBps);
    ProductBounds(free, ratioBps);
    var n, p := free * BPS_DENOMINATOR, Product(free);
    hide NearestDouble, RoundsUp, Pow2, Log2, RequiredCollateral, Step, Product;
    var app, g := AppCapacity(free, ratioBps).value, Step(p, ratioBps);
    DoubleBounds(p, ratioBps);
    AppFits(app, p, ratioBps);
    var q, r := Parts(p, Times(ratioBps, g));
    TakesUp(n, p, ratioBps, g, q, r, UpOne(p, ratioBps));
    Settlement.CapacityIsLargestPrincipal(free, app, ratioBps);
    WithinQuotient(app, n, ratioBps);
  }

  lemma AppFits(app: nat, p: nat, ratioBps: u16)
    requires app * ratioBps <= 2 * p && ratioBps >= MIN_COLLATERAL_RATIO_BPS
    requires p <= 2 * (0x20_0000_0000_0000 * BPS_DENOMINATOR)
    ensures app <= U64_MAX
  {
    Settlement.ProductBound(app, MIN_COLLATERAL_RATIO_BPS, ratioBps);
  }

  lemma TakesUp(n: nat, p: nat, d: nat, g: nat, q: nat, r: nat, up: nat)
    requires p == q * (d * g) + r
    ensures (q + up) * g * d <= n <==> p - n + up * (d * g) <= r
  {
    assert (q + up) * g * d == q * (d * g) + up * (d * g);
  }

  lemma WithinQuotient(x: nat, n: nat, d: nat)
    requires d > 0
    ensures x <= n / d <==> x * d <= n
  {
    Settlement.QuotientBounds(n, d);
    if x <= n / d {
      Settlement.ProductBound(d, x, n / d);
    } else {
      Settlement.ProductBound(d, n / d + 1, x);
    }
  }

  // A capacity the app offers and the program refuses: its lock is one lamport more than is free.
  lemma OffersTooMuch()
    ensures AppCapacity(1_199_880_009_998, 9_999) == Some(1_200_000_009_999)
    ensures RequiredCollateral(1_200_000_009_999, 9_999) == Success(1_199_880_009_999)
  {
    Powers();
    var exact := Capacity(1_199_880_009_998, 9_999);
    assert exact == 1_200_000_009_998;
    Log2Is(exact, 40);
    Pow2Adds(12, 40);
    assert RoundsUp(1_199_880_009_998 * BPS_DENOMINATOR, 9_999);
    hide Pow2, Log2, RoundsUp, Step;
    AppCapacityExactly(1_199_880_009_998, 9_999);
  }

  lemma Log2Is(n: nat, k: nat)
    requires Pow2(k) <= n < 2 * Pow2(k)
    ensures Log2(n) == k
  {
    Log2Brackets(n);
    Pow2Doubles(Log2(n), k);
    Pow2Doubles(k, Log2(n));
  }
}
