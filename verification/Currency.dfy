/** Currency conversion and printing: the float64 code against exact integer arithmetic. */
module Currency {
  import opened Wrappers
  import opened Binary64

  const USD := "USD"
  const INR := "INR"

  // The exchange rate 83.50, exactly 167/2.
  const RATE := 83.5

  // floor(2^53 / 167): up to here every cent amount converts exactly.
  const USD_LIMIT := 53935324878688

  // 167 * 2^45 + 82: up to here every paisa amount converts exactly.
  const INR_LIMIT := 5875790138835026

  // ---------- ConvertMinorUnits ----------

  datatype Conversion = Converted(value: int) | Unsupported | OutOfRange

  function ToInt64(x: real): Conversion {
    match Int64Of(x)
    case Some(value) => Converted(value)
    case None => OutOfRange
  }

  // float64(amount) * 83.50
  function InrOf(amount: int): real {
    Round(Round(amount as real) * RATE)
  }

  // float64(amount) / 83.50
  function UsdOf(amount: int): real {
    Round(Round(amount as real) / RATE)
  }

  function ConvertMinorUnits(amount: int, from: string, to: string): Conversion {
    if from == to then Converted(amount)
    else if from == USD && to == INR then ToInt64(InrOf(amount))
    else if from == INR && to == USD then ToInt64(UsdOf(amount))
    else Unsupported
  }

  // Integer division that drops the fraction.
  function TruncDiv(n: int, d: int): int
    requires d > 0
  {
    if n >= 0 then n / d else -((-n) / d)
  }

  function Size(a: int): nat {
    if a < 0 then -a else a
  }

  // Amounts that float64(amount) does not change: all up to 2^53, and beyond that multiples of a power of two.
  ghost predicate Representable(a: int) {
    exists m: int, j: nat :: Significand(m) && a == m * Pow2(j)
  }

  lemma RepresentableExact(a: int)
    requires Representable(a)
    ensures Round(a as real) == a as real
  {
    hide Round, Scaled;
    var m, j: nat :| Significand(m) && a == m * Pow2(j);
    RoundExact(m, j);
    ScaledInteger(m, j);
  }

  lemma RepresentableNegates(a: int)
    requires Representable(a)
    ensures Representable(-a)
  {
    var m, j: nat :| Significand(m) && a == m * Pow2(j);
    assert Significand(-m) && -a == -m * Pow2(j);
  }

  lemma FloorFraction(n: int, d: int)
    requires n >= 0 && d > 0
    ensures n as real / d as real >= 0.0
    ensures (n as real / d as real).Floor == n / d
  {
    var x := n as real / d as real;
    Quotient(n as real, d as real);
    FloorBetween(x, n / d, n % d, d);
  }

  lemma FloorBetween(x: real, q: int, r: int, d: int)
    requires 0 <= r < d && x * d as real == (q * d + r) as real
    ensures x.Floor == q
  {
    var e := x - q as real;
    assert (q * d + r) as real == q as real * d as real + r as real;
    assert e * d as real == r as real;
    ScaleOrder(0.0, e, d as real);
    ScaleOrder(e, 1.0, d as real);
  }

  // ---------- dollars to rupees ----------

  // The exact product is a multiple of one half.
  lemma HalfRate(a: int)
    ensures a as real * RATE == Scaled(167 * a, -1)
    ensures a as real * RATE == (167 * a) as real / 2.0
  {
    assert Exp2(-1) == 0.5;
  }

  // A half-integer above 2^52 rounds to the even neighbour.
  lemma RoundHalves(n: int)
    requires PRECISION <= n < 2 * PRECISION
    ensures Round(n as real / 2.0) == (if n % 4 == 3 then n / 2 + 1 else n / 2) as real
  {
    hide Round, Scaled, Shift;
    var x := n as real / 2.0;
    Binade(0);
    assert Exp2(0) == 1.0;
    RoundAt(x, 0);
    assert Shift(x, 0) == x && Scaled(RoundInt(x), 0) == RoundInt(x) as real by { UnitScale(x, RoundInt(x)); }
    RoundHalf(n);
  }

  lemma UnitScale(x: real, n: int)
    ensures Shift(x, 0) == x && Scaled(n, 0) == n as real
  {
    assert Exp2(0) == 1.0;
  }

  lemma RoundHalf(n: int)
    requires n > 0
    ensures RoundInt(n as real / 2.0) == if n % 4 == 3 then n / 2 + 1 else n / 2
  {
    var low, rest := n / 2, n % 2;
    assert n == 2 * low + rest;
    assert n as real / 2.0 == low as real + rest as real / 2.0;
    HalfUp(low, rest);
    assert low % 2 == 1 && rest == 1 <==> n % 4 == 3;
  }

  lemma HalfUp(low: int, rest: int)
    requires rest == 0 || rest == 1
    ensures RoundInt(low as real + rest as real / 2.0) == if low % 2 == 1 && rest == 1 then low + 1 else low
  {
    assert (low as real + rest as real / 2.0).Floor == low;
  }

  lemma ModFour(a: int)
    ensures (167 * a) % 4 == 3 <==> a % 4 == 1
  {
    assert 167 * a == 4 * (42 * a) - a;
  }

  lemma InrNegates(a: int)
    ensures Trunc(InrOf(-a)) == -Trunc(InrOf(a))
  {
    hide Round;
    RoundNegates(a as real);
    var x := Round(a as real);
    assert (-x) * RATE == -(x * RATE);
    RoundNegates(x * RATE);
  }

  lemma UsdToInrSized(a: nat)
    requires 167 * a < 2 * PRECISION
    ensures Trunc(InrOf(a)) == if a > USD_LIMIT && a % 4 == 1 then 167 * a / 2 + 1 else 167 * a / 2
  {
    hide Round, Scaled, Trunc;
    RoundInteger(a);
    HalfRate(a);
    if a <= USD_LIMIT {
      RoundExact(167 * a, -1);
      HalfFloor(167 * a);
    } else {
      RoundHalves(167 * a);
      ModFour(a);
      TruncInteger(if 167 * a % 4 == 3 then 167 * a / 2 + 1 else 167 * a / 2);
    }
  }

  lemma HalfFloor(n: nat)
    ensures Trunc(n as real / 2.0) == n / 2
  {
    var q, r := n / 2, n % 2;
    assert n as real / 2.0 == q as real + r as real / 2.0;
  }

  lemma TruncInteger(n: int)
    ensures Trunc(n as real) == n
  {
  }

  /** Past the limit the product is rounded, half to even: up to results of 2^53 the conversion is
      exact for every amount but those whose size leaves remainder 1 modulo 4, which move one paisa
      away from zero. */
  lemma UsdToInrExactly(a: int)
    requires 167 * Size(a) < 2 * PRECISION
    ensures ConvertMinorUnits(a, USD, INR) == Converted(TruncDiv(167 * a, 2)) <==> Size(a) <= USD_LIMIT || Size(a) % 4 != 1
    ensures Size(a) > USD_LIMIT && Size(a) % 4 == 1 ==>
              ConvertMinorUnits(a, USD, INR) == Converted(TruncDiv(167 * a, 2) + if a > 0 then 1 else -1)
  {
    hide InrOf, Trunc;
    UsdToInrSized(Size(a));
    InrNegates(Size(a));
  }

  /** Cents to paise: exact for |a| up to floor(2^53 / 167). */
  lemma UsdToInrExact(a: int)
    requires -USD_LIMIT <= a <= USD_LIMIT
    ensures ConvertMinorUnits(a, USD, INR) == Converted(TruncDiv(167 * a, 2))
  {
    UsdToInrExactly(a);
  }

  lemma NearestInteger(q: real, m: int)
    ensures RoundInt(q) == m <==> Abs(q - m as real) < 0.5 || (Abs(q - m as real) == 0.5 && m % 2 == 0)
  {
  }

  lemma DividesProduct(n: int, d: int)
    requires d > 0
    ensures n * d % d == 0
  {
    CountMultiple(n * d, d, n);
  }

  lemma CountMultiple(x: int, d: int, n: int)
    requires d > 0 && x == n * d
    ensures x % d == 0
  {
    var q, r := x / d, x % d;
    assert (n - q) * d == r;
    assert n - q >= 1 ==> (n - q) * d >= d;
    assert n - q <= -1 ==> (n - q) * d <= -d;
  }

  // Rounding to a multiple of 2^k.
  lemma LargeRoundAt(x: real, k: nat)
    requires HIDDEN_BIT as real * Pow2(k) as real <= x < PRECISION as real * Pow2(k) as real
    ensures Round(x) == (RoundInt(Shift(x, k)) * Pow2(k)) as real
  {
    hide Round, Scaled, Shift, RoundInt;
    Exp2Nat(k);
    Binade(k);
    RoundAt(x, k);
    ScaledInteger(RoundInt(Shift(x, k)), k);
  }

  // Within d of 2w, or exactly d from it when the multiple is even: then the nearest multiple of d/2 wins.
  predicate Near(distance: int, d: int, multiple: int) {
    -d < distance < d || ((distance == d || distance == -d) && multiple % 2 == 0)
  }

  // Where floats are 2^k apart: w is the rounded value of x if and only if it is the nearest multiple of 2^k.
  lemma RoundLarge(x: real, w: int, k: nat)
    requires HIDDEN_BIT as real * Pow2(k) as real <= x < PRECISION as real * Pow2(k) as real
    ensures Trunc(Round(x)) == w
       <==> w % Pow2(k) == 0 && (2.0 * Abs(x - w as real) < Pow2(k) as real
                                 || (2.0 * Abs(x - w as real) == Pow2(k) as real && w / Pow2(k) % 2 == 0))
  {
    hide Round, Scaled, Shift, RoundInt, Trunc, Abs;
    var d, q := Pow2(k), Shift(x, k);
    LargeRoundAt(x, k);
    var r := RoundInt(q);
    DividesProduct(r, d);
    TruncInteger(r * d);
    if w % d == 0 {
      var m := w / d;
      assert w == m * d;
      MultiplesApart(r, m, d);
      NearestInteger(q, m);
      ShiftTimes(x, k);
      Exp2Nat(k);
      Halves(q, m, x, w, d);
    }
  }

  lemma MultiplesApart(r: int, m: int, d: int)
    requires d > 0
    ensures r * d == m * d <==> r == m
  {
    assert r < m ==> r * d < m * d;
    assert r > m ==> r * d > m * d;
  }

  lemma Halves(q: real, m: int, x: real, w: int, d: int)
    requires d > 0 && q * d as real == x && w == m * d
    ensures Abs(q - m as real) < 0.5 <==> 2.0 * Abs(x - w as real) < d as real
    ensures Abs(q - m as real) == 0.5 <==> 2.0 * Abs(x - w as real) == d as real
  {
    hide Abs;
    assert w as real == m as real * d as real;
    Differences(q, m as real, d as real);
    ScaledGap(q - m as real, d as real, x - w as real);
  }

  lemma Differences(q: real, m: real, d: real)
    ensures (q - m) * d == q * d - m * d
  {
  }

  lemma ScaledGap(t: real, d: real, y: real)
    requires d > 0.0 && y == t * d
    ensures Abs(t) < 0.5 <==> 2.0 * Abs(y) < d
    ensures Abs(t) == 0.5 <==> 2.0 * Abs(y) == d
  {
    ScaleOrder(t, 0.0, d);
    ScaleOrder(t, 0.5, d);
    ScaleOrder(0.5, t, d);
    ScaleOrder(t, -0.5, d);
    ScaleOrder(-0.5, t, d);
  }

  lemma ShiftTimes(x: real, k: int)
    ensures Shift(x, k) * Exp2(k) == x
  {
    Binary64.Quotient(x, Exp2(k));
  }

  lemma ScaledInteger(r: int, k: nat)
    ensures Scaled(r, k) == (r * Pow2(k)) as real
  {
    Exp2Nat(k);
    assert r as real * Pow2(k) as real == (r * Pow2(k)) as real;
  }

  predicate InInt64(n: int) {
    -MAX_INT64 - 1 <= n <= MAX_INT64
  }

  // Sizes round as amounts do.
  lemma NearestSize(a: int, b: int)
    requires Rounds(a as real, b as real)
    ensures Round(Size(a) as real) == Size(b) as real
  {
    hide Round, Rounds;
    RoundRounds(a as real);
    RoundsUnique(a as real, b as real, Round(a as real));
    RoundSign(a as real);
    RoundNegates(a as real);
    assert (-a) as real == -(a as real);
  }

  lemma UsdToInrLargeSized(a: nat, b: nat, k: nat)
    requires Round(a as real) == b as real && k >= 1 && 2 * HIDDEN_BIT * Pow2(k) <= 167 * b < 2 * PRECISION * Pow2(k)
    ensures var w := 167 * a / 2;
            Trunc(InrOf(a)) == w <==> w % Pow2(k) == 0 && Near(167 * b - 2 * w, Pow2(k), w / Pow2(k))
  {
    hide Round, Trunc, Scaled;
    HalfRate(b);
    var w, d := 167 * a / 2, Pow2(k);
    var x := (167 * b) as real / 2.0;
    HalfBounds(167 * b, d);
    RoundLarge(x, w, k);
    assert 2.0 * (x - w as real) == (167 * b - 2 * w) as real;
  }

  lemma HalfBounds(n: int, d: int)
    requires 2 * HIDDEN_BIT * d <= n < 2 * PRECISION * d
    ensures HIDDEN_BIT as real * d as real <= n as real / 2.0 < PRECISION as real * d as real
  {
    assert (2 * HIDDEN_BIT * d) as real == 2.0 * (HIDDEN_BIT as real * d as real);
    assert (2 * PRECISION * d) as real == 2.0 * (PRECISION as real * d as real);
  }

  /** Results from 2^53 on, where floats are 2^k apart.  With b the float64 nearest to the amount, the
      conversion is exact if and only if the exact result is an int64 and the multiple of 2^k nearest
      to 167b/2.  For a representable amount, b being the amount, it need only be a multiple of 2^k. */
  lemma UsdToInrLarge(a: int, b: int, k: nat)
    requires Rounds(a as real, b as real)
    requires k >= 1 && 2 * HIDDEN_BIT * Pow2(k) <= 167 * Size(b) < 2 * PRECISION * Pow2(k)
    ensures var w := 167 * Size(a) / 2;
            && (ConvertMinorUnits(a, USD, INR) == Converted(TruncDiv(167 * a, 2))
                <==> w % Pow2(k) == 0 && Near(167 * Size(b) - 2 * w, Pow2(k), w / Pow2(k)) && InInt64(TruncDiv(167 * a, 2)))
            && (a == b ==> Near(167 * Size(b) - 2 * w, Pow2(k), w / Pow2(k)))
  {
    hide InrOf, Trunc, Rounds, Round;
    NearestSize(a, b);
    UsdToInrLargeSized(Size(a), Size(b), k);
    InrNegates(Size(a));
  }

  // ---------- rupees to dollars ----------

  lemma RateQuotient(b: int)
    ensures b as real / RATE == (2 * b) as real / 167.0
  {
    Quotient(b as real, RATE);
    Quotient((2 * b) as real, 167.0);
  }

  // Below 2^46 the distance of a proper fraction n/167 to the next integer exceeds the rounding error.
  lemma RoundBelow(b: int)
    requires 0 <= b < 167 * Pow2(45)
    ensures Trunc(Round((2 * b) as real / 167.0)) == 2 * b / 167
  {
    hide Round;
    var x := (2 * b) as real / 167.0;
    var n, r := 2 * b / 167, 2 * b % 167;
    Remainders(2 * b, n, r);
    Pow2Values();
    Exp2Values();
    Fractions();
    RoundInteger(n);
    RoundMonotone(n as real, x);
    RoundError(x, 46);
  }

  lemma Remainders(m: int, n: int, r: int)
    requires m >= 0 && n == m / 167 && r == m % 167
    ensures m as real / 167.0 == n as real + r as real / 167.0
  {
    assert m == 167 * n + r;
    Quotient(m as real, 167.0);
  }

  lemma Fractions()
    ensures Exp2(-6) == 1.0 / 64.0 && Exp2(-8) == 1.0 / 256.0
  {
    assert Exp2(-4) == 1.0 / 16.0;
  }

  // From 2^46 on floats are 1/64 apart, so 166/167 is rounded up to the next integer.
  lemma RoundAbove(b: int)
    requires 167 * Pow2(45) <= b <= PRECISION
    ensures Trunc(Round((2 * b) as real / 167.0)) == if b % 167 == 83 then 2 * b / 167 + 1 else 2 * b / 167
  {
    hide Round, Shift, Scaled;
    var x := (2 * b) as real / 167.0;
    var n, r := 2 * b / 167, 2 * b % 167;
    Remainders(2 * b, n, r);
    Pow2Values();
    Exp2Values();
    RoundAt(x, -6);
    SixtyFourths(x, n, r);
    assert r == 166 <==> b % 167 == 83;
  }

  lemma SixtyFourths(x: real, n: int, r: int)
    requires n >= 0 && 0 <= r < 167 && x == n as real + r as real / 167.0
    ensures Trunc(Scaled(RoundInt(Shift(x, -6)), -6)) == if r == 166 then n + 1 else n
  {
    Fractions();
    var q := Shift(x, -6);
    assert q == 64.0 * x by { Quotient(x, Exp2(-6)); }
    var m := RoundInt(q);
    assert q == (64 * n) as real + 64.0 * (r as real / 167.0);
    if r == 166 {
      assert m == 64 * (n + 1);
    } else {
      assert 64 * n <= m < 64 * (n + 1);
    }
    assert Scaled(m, -6) == m as real / 64.0;
    FloorFraction(m, 64);
  }

  lemma UsdNegates(b: int)
    ensures UsdOf(-b) == -UsdOf(b)
    ensures Trunc(UsdOf(-b)) == -Trunc(UsdOf(b))
  {
    hide Round;
    RoundNegates(b as real);
    var x := Round(b as real);
    assert (-x) / RATE == -(x / RATE);
    RoundNegates(x / RATE);
  }

  lemma InrToUsdSized(b: nat)
    requires b <= PRECISION
    ensures Trunc(UsdOf(b)) == if b >= 167 * Pow2(45) && b % 167 == 83 then 2 * b / 167 + 1 else 2 * b / 167
  {
    hide Round, Trunc, Pow2;
    RoundInteger(b);
    RateQuotient(b);
    if b < 167 * Pow2(45) {
      RoundBelow(b);
    } else {
      RoundAbove(b);
    }
  }

  /** Paise to cents: exact for every amount up to 2^53 in size but those from 167 * 2^45 on whose
      size leaves remainder 83 modulo 167, which move one cent away from zero. */
  lemma InrToUsdExactly(b: int)
    requires Size(b) <= PRECISION
    ensures ConvertMinorUnits(b, INR, USD) == Converted(TruncDiv(2 * b, 167)) <==> Size(b) < 167 * Pow2(45) || Size(b) % 167 != 83
    ensures Size(b) >= 167 * Pow2(45) && Size(b) % 167 == 83 ==>
              ConvertMinorUnits(b, INR, USD) == Converted(TruncDiv(2 * b, 167) + if b > 0 then 1 else -1)
  {
    hide UsdOf, Trunc, Pow2;
    InrToUsdSized(Size(b));
    UsdNegates(Size(b));
  }

  // base + y/167 rounded, with y/167 below p: up to base + p only if it comes within 1/2 of it.
  lemma FractionRounds(q: real, base: int, y: int, p: int)
    requires 0 <= y <= 166 * p && q == base as real + y as real / 167.0
    ensures 2 * (167 * p - y) < 167 ==> RoundInt(q) == base + p
    ensures 2 * (167 * p - y) >= 167 ==> base <= RoundInt(q) < base + p
  {
    Quotient(y as real, 167.0);
    FractionSide(y as real / 167.0, y, p);
    RoundsUpOrDown(q, base, y as real / 167.0, p);
  }

  lemma FractionSide(f: real, y: int, p: int)
    requires f * 167.0 == y as real && 0 <= y <= 166 * p
    ensures 2 * (167 * p - y) < 167 ==> p as real - 0.5 < f <= p as real
    ensures 2 * (167 * p - y) >= 167 ==> 0.0 <= f < p as real - 0.5
  {
    assert 2 * (167 * p - y) != 167;
  }

  lemma RoundsUpOrDown(q: real, base: int, f: real, p: int)
    requires q == base as real + f
    ensures p as real - 0.5 < f <= p as real ==> RoundInt(q) == base + p
    ensures 0.0 <= f < p as real - 0.5 ==> base <= RoundInt(q) < base + p
  {
  }

  lemma Products(n: int, r: int, p: int)
    requires 0 <= r < 167 && p > 0
    ensures (n + 1) * p == n * p + p && 0 <= r * p <= 166 * p && 2 * p * (167 - r) == 2 * (167 * p - r * p)
  {
    assert (167 - r) * p == 167 * p - r * p;
  }

  // Where floats are 1/p apart, p = 2^-e.
  lemma RoundFraction(x: real, n: int, r: int, e: nat)
    requires n >= 0 && 0 <= r < 167 && x == n as real + r as real / 167.0
    requires Exp2(52 - e) <= x < Exp2(53 - e)
    ensures Trunc(Round(x)) == if 2 * Pow2(e) * (167 - r) < 167 then n + 1 else n
  {
    hide Round, Scaled, Shift, RoundInt, Trunc, Pow2, Exp2;
    var p, q := Pow2(e), Shift(x, 0 - e);
    RoundAt(x, 0 - e);
    Exp2Nat(e);
    ShiftTimes(x, 0 - e);
    Spread(q, x, Exp2(0 - e), p, n, r);
    Products(n, r, p);
    FractionRounds(q, n * p, r * p, p);
    if 2 * p * (167 - r) < 167 {
      Shrunk(RoundInt(q), n + 1, e);
    } else {
      Shrunk(RoundInt(q), n, e);
    }
  }

  lemma Spread(q: real, x: real, u: real, p: int, n: int, r: int)
    requires p > 0 && u * p as real == 1.0 && q * u == x && x == n as real + r as real / 167.0
    ensures q == (n * p) as real + (r * p) as real / 167.0
  {
    assert q == q * (u * p as real) == (q * u) * p as real;
    assert (n * p) as real == n as real * p as real && (r * p) as real == r as real * p as real;
    assert (r as real / 167.0) * p as real == (r as real * p as real) / 167.0;
  }

  lemma Shrunk(m: int, n: int, e: nat)
    requires n >= 0 && n * Pow2(e) <= m < n * Pow2(e) + Pow2(e)
    ensures Trunc(Scaled(m, 0 - e)) == n
  {
    hide Exp2, Pow2, Trunc, Scaled;
    ScaledTimes(m, e);
    WholePart(Scaled(m, 0 - e), m, n, n * Pow2(e), Pow2(e));
  }

  lemma ScaledTimes(m: int, e: nat)
    ensures Scaled(m, 0 - e) * Pow2(e) as real == m as real
  {
    Exp2Nat(e);
    hide Exp2, Pow2;
    Unscaled(m as real, Exp2(0 - e), Pow2(e) as real);
  }

  lemma Unscaled(m: real, u: real, p: real)
    requires u * p == 1.0
    ensures (m * u) * p == m
  {
    assert (m * u) * p == m * (u * p);
  }

  lemma WholePart(x: real, m: int, n: int, base: int, p: int)
    requires n >= 0 && p > 0 && base == n * p && base <= m < base + p && x * p as real == m as real
    ensures Trunc(x) == n
  {
    assert base >= 0;
    ScaleOrder(0.0, x, p as real);
    FloorBetween(x, n, m - base, p);
  }

  // The cents n that the amount converts to when the float64 nearest to it is b and floats near the
  // result are 2^e apart: up to e = 0 the whole part of 2b/167, or one more when the fraction is
  // nearer to the next integer; beyond that the nearest multiple of 2^e.
  predicate Reached(n: int, b: nat, e: int) {
    if e <= 0 then n == 2 * b / 167 + if 2 * Pow2(-e) * (167 - 2 * b % 167) < 167 then 1 else 0
    else n % Pow2(e) == 0 && Near(2 * (2 * b - 167 * n), 167 * Pow2(e), n / Pow2(e))
  }

  lemma InrToUsdLargeSized(a: nat, b: nat, n: int, e: int)
    requires Round(a as real) == b as real && Exp2(e + 52) <= (2 * b) as real / 167.0 < Exp2(e + 53)
    ensures Trunc(UsdOf(a)) == n <==> Reached(n, b, e)
  {
    hide Round, Trunc;
    RateQuotient(b);
    var x := (2 * b) as real / 167.0;
    if e <= 0 {
      Remainders(2 * b, 2 * b / 167, 2 * b % 167);
      RoundFraction(x, 2 * b / 167, 2 * b % 167, -e);
    } else {
      Exp2Nat(e);
      Binade(e);
      hide Exp2, Pow2, Abs;
      RoundLarge(x, n, e);
      HundredSixtySevenths(x, b, n, Pow2(e));
    }
  }

  lemma HundredSixtySevenths(x: real, b: nat, n: int, d: int)
    requires d > 0 && x == (2 * b) as real / 167.0
    ensures Near(2 * (2 * b - 167 * n), 167 * d, n / d)
       <==> 2.0 * Abs(x - n as real) < d as real || (2.0 * Abs(x - n as real) == d as real && n / d % 2 == 0)
  {
    Quotient((2 * b) as real, 167.0);
    var y := x - n as real;
    assert 167.0 * y == (2 * b - 167 * n) as real;
    assert 167.0 * (2.0 * y) == (2 * (2 * b - 167 * n)) as real;
    assert 167.0 * d as real == (167 * d) as real;
  }

  /** Rupees to dollars for every int64: with b the float64 nearest to the amount, the conversion is
      exact if and only if the exact result is the one that b reaches. */
  lemma InrToUsdLarge(a: int, b: int, e: int)
    requires Rounds(a as real, b as real) && InInt64(a) && Exp2(e + 52) <= (2 * Size(b)) as real / 167.0 < Exp2(e + 53)
    ensures ConvertMinorUnits(a, INR, USD) == Converted(TruncDiv(2 * a, 167)) <==> Reached(2 * Size(a) / 167, Size(b), e)
  {
    hide UsdOf, Trunc, Rounds, Round, Exp2, Reached;
    NearestSize(a, b);
    InrToUsdLargeSized(Size(a), Size(b), 2 * Size(a) / 167, e);
    UsdNegates(Size(a));
  }

  /** For a representable amount: the fraction must stay clear of the next integer, or the whole part
      be a multiple of 2^e. */
  lemma ReachedItself(b: nat, e: int)
    ensures Reached(2 * b / 167, b, e)
       <==> if e <= 0 then 2 * Pow2(-e) * (167 - 2 * b % 167) >= 167 else 2 * b / 167 % Pow2(e) == 0
  {
    if e > 0 {
      assert Pow2(e) >= 2;
      var n := 2 * b / 167;
      assert 0 <= 2 * (2 * b - 167 * n) < 334 <= 167 * Pow2(e);
    }
  }

  // ---------- amounts beyond the significand ----------

  lemma NearestSized(a: nat) returns (b: int)
    requires a > PRECISION
    ensures Representable(b) && Round(a as real) == b as real
  {
    hide Round, Scaled, Shift, RoundInt;
    var k := Exponent(a as real);
    Binade(0);
    Binade(k);
    assert Exp2(0) == 1.0;
    Exp2Order(0, k + 1);
    RoundAt(a as real, k);
    SignificandRange(a as real, k);
    var m := RoundInt(Shift(a as real, k));
    b := m * Pow2(k);
    ScaledInteger(m, k);
    assert Significand(m);
  }

  /** Every amount converts as the representable amount nearest to it. */
  lemma NearestConverts(a: int) returns (b: int)
    ensures Representable(b) && Rounds(a as real, b as real)
    ensures ConvertMinorUnits(a, USD, INR) == ConvertMinorUnits(b, USD, INR)
    ensures ConvertMinorUnits(a, INR, USD) == ConvertMinorUnits(b, INR, USD)
  {
    hide Round, Rounds;
    RoundRounds(a as real);
    if Size(a) <= PRECISION {
      b := a;
      assert Pow2(0) == 1 && Significand(a) && a == a * Pow2(0);
      RoundInteger(a);
    } else if a > 0 {
      b := NearestSized(a);
    } else {
      var c := NearestSized(-a);
      RoundNegates((-a) as real);
      RepresentableNegates(c);
      b := -c;
    }
    RepresentableExact(b);
  }

  /** Paise to cents: exact for |b| up to 167 * 2^45 + 82, and not for the next amount. */
  lemma InrToUsdExact(b: int)
    requires -INR_LIMIT <= b <= INR_LIMIT
    ensures ConvertMinorUnits(b, INR, USD) == Converted(TruncDiv(2 * b, 167))
    ensures ConvertMinorUnits(INR_LIMIT + 1, INR, USD) == Converted(TruncDiv(2 * (INR_LIMIT + 1), 167) + 1)
  {
    hide ConvertMinorUnits, TruncDiv, Pow2;
    Pow2Values();
    Remainder83(INR_LIMIT + 1);
    InrToUsdExactly(INR_LIMIT + 1);
    Remainder83(Size(b));
    InrToUsdExactly(b);
  }

  lemma Remainder83(b: int)
    ensures 167 * 0x2000_0000_0000 <= b <= INR_LIMIT + 1 ==> (b % 167 == 83 <==> b == INR_LIMIT + 1)
  {
    var d := b - 167 * 0x2000_0000_0000;
    assert b % 167 == d % 167;
  }

  /** A currency to itself changes nothing, and any pair but the two rates is unsupported. */
  lemma OtherPairs(amount: int, from: string, to: string)
    ensures from == to ==> ConvertMinorUnits(amount, from, to) == Converted(amount)
    ensures from != to && !(from == "USD" && to == "INR") && !(from == "INR" && to == "USD") ==>
              ConvertMinorUnits(amount, from, to) == Unsupported
  {
    hide InrOf, UsdOf;
  }
}
