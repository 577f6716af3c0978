/** binary64 rounding over the reals: 53-bit significands, round to nearest, ties to even
    (IEEE 754-2019, section 4.3.1).  Every operation of section 5.4.1 rounds its exact result, so
    `Round(x * y)` is a float64 product, and so on.  The exponent range is unbounded: the values
    this project rounds are far from overflow and from the subnormal numbers. */
module Binary64 {
  import opened Wrappers

  // 2^52 and 2^53
  const HIDDEN_BIT := 0x10_0000_0000_0000
  const PRECISION := 0x20_0000_0000_0000

  // ---------- powers of two ----------

  function Pow2(n: nat): (p: int)
    ensures p > n
  {
    if n == 0 then 1 else 2 * Pow2(n - 1)
  }

  function Exp2(k: int): (p: real)
    ensures p > 0.0
    decreases if k < 0 then -k else k
  {
    if k == 0 then 1.0 else if k > 0 then 2.0 * Exp2(k - 1) else Exp2(k + 1) / 2.0
  }

  lemma Exp2Step(k: int)
    ensures Exp2(k + 1) == 2.0 * Exp2(k)
  {
  }

  lemma Associate(a: real, b: real)
    ensures (2.0 * a) * b == 2.0 * (a * b)
  {
  }

  lemma {:induction false} Exp2Add(k: int, n: nat)
    ensures Exp2(k + n) == (Pow2(n) as real) * Exp2(k)
    decreases n
  {
    if n > 0 {
      Exp2Add(k, n - 1);
      Exp2Step(k + n - 1);
      Associate(Pow2(n - 1) as real, Exp2(k));
    }
  }

  lemma {:induction false} Exp2Monotone(j: int, k: int)
    requires j <= k
    ensures Exp2(j) <= Exp2(k)
    decreases k - j
  {
    if j < k {
      Exp2Step(k - 1);
      Exp2Monotone(j, k - 1);
    }
  }

  // 2^n for n >= 0, and 2^-n.
  lemma {:induction false} Exp2Nat(n: int)
    requires n >= 0
    ensures Exp2(n) == Pow2(n) as real
    ensures Exp2(0 - n) * (Pow2(n) as real) == 1.0
  {
    if n > 0 {
      Exp2Nat(n - 1);
      Exp2Step(0 - n);
      var half, p := Exp2(0 - n), Pow2(n - 1) as real;
      assert (2.0 * half) * p == half * (2.0 * p);
    }
  }

  lemma Binade(k: int)
    ensures Exp2(k + 52) == HIDDEN_BIT as real * Exp2(k)
    ensures Exp2(k + 53) == PRECISION as real * Exp2(k)
  {
    Exp2Add(k, 52);
    Exp2Add(k, 53);
    Pow2Values();
  }

  lemma Pow2Values()
    ensures Pow2(45) == 0x2000_0000_0000 && Pow2(52) == HIDDEN_BIT && Pow2(53) == PRECISION
  {
    assert Pow2(9) == 0x200;
    assert Pow2(18) == 0x4_0000;
    assert Pow2(27) == 0x800_0000;
    assert Pow2(36) == 0x10_0000_0000;
    assert Pow2(45) == 0x2000_0000_0000;
    assert Pow2(49) == 0x2_0000_0000_0000;
  }

  lemma Exp2Values()
    ensures Exp2(45) == 0x2000_0000_0000 as real && Exp2(46) == 0x4000_0000_0000 as real && Exp2(47) == 0x8000_0000_0000 as real
  {
    Pow2Values();
    Exp2Nat(45);
    Exp2Step(45);
    Exp2Step(46);
  }

  // ---------- binary64 numbers ----------

  function Scaled(m: int, k: int): real {
    m as real * Exp2(k)
  }

  predicate Significand(m: int) {
    -PRECISION <= m <= PRECISION
  }

  ghost predicate Float(y: real) {
    exists m, k :: Significand(m) && y == Scaled(m, k)
  }

  function Abs(x: real): real {
    if x < 0.0 then -x else x
  }

  // A number whose 53-bit significand is even.
  ghost predicate EvenFloat(y: real) {
    exists m, k :: Significand(m) && (m <= -HIDDEN_BIT || m >= HIDDEN_BIT) && m % 2 == 0 && y == Scaled(m, k)
  }

  /** Section 4.3.1: the representable number nearest to x, the even one when two are equally near. */
  ghost predicate Rounds(x: real, y: real) {
    && Float(y)
    && (forall m, k :: Significand(m) ==> Abs(x - y) <= Abs(x - Scaled(m, k)))
    && (forall m, k :: Significand(m) && Scaled(m, k) != y && Abs(x - y) == Abs(x - Scaled(m, k)) ==> EvenFloat(y))
  }

  // ---------- rounding, computed ----------

  // The nearest integer, the even one on a tie.
  function RoundInt(q: real): (n: int)
    ensures Abs(q - n as real) <= 0.5
    ensures Abs(q - n as real) == 0.5 ==> n % 2 == 0
  {
    var low := q.Floor;
    var rest := q - low as real;
    if rest < 0.5 || (rest == 0.5 && low % 2 == 0) then low else low + 1
  }

  // A positive number is below 2^n for n = floor(x) + 1 and above 2^-n for n = floor(1/x) + 1.
  lemma PowersBracket(x: real)
    requires x > 0.0
    ensures x < Exp2(x.Floor + 1)
    ensures Exp2(-((1.0 / x).Floor + 1)) < x
  {
    Exp2Nat(x.Floor + 1);
    var n := (1.0 / x).Floor + 1;
    assert 1.0 / x > 0.0;
    Exp2Nat(n);
    Quotient(1.0, x);
    Reciprocals(Exp2(-n), Pow2(n) as real, 1.0 / x, x);
  }

  lemma Reciprocals(p: real, q: real, r: real, x: real)
    requires p > 0.0 && x > 0.0 && p * q == 1.0 && r * x == 1.0 && q > r
    ensures p < x
  {
    ScaleOrder(r, q, p);
    assert (r * p) * x == p * (r * x) == p;
    ScaleOrder(r * p, 1.0, x);
  }

  lemma Exp2Order(j: int, k: int)
    requires Exp2(j) < Exp2(k)
    ensures j < k
  {
    if j >= k {
      Exp2Monotone(k, j);
    }
  }

  // The exponent k of a positive x: its significand x / 2^k lies in [2^52, 2^53).
  function Raise(x: real, k: int): (e: int)
    requires Exp2(k + 52) <= x
    ensures Exp2(e + 52) <= x < Exp2(e + 53)
    decreases x.Floor - 51 - k
  {
    PowersBracket(x);
    Exp2Order(k + 52, x.Floor + 1);
    if x < Exp2(k + 53) then k else Raise(x, k + 1)
  }

  function Lower(x: real, k: int): (e: int)
    requires 0.0 < x < Exp2(k + 53)
    ensures Exp2(e + 52) <= x < Exp2(e + 53)
    decreases k + 54 + (1.0 / x).Floor
  {
    PowersBracket(x);
    Exp2Order(-((1.0 / x).Floor + 1), k + 53);
    if Exp2(k + 52) <= x then k else Lower(x, k - 1)
  }

  function Exponent(x: real): (e: int)
    requires x > 0.0
    ensures Exp2(e + 52) <= x < Exp2(e + 53)
  {
    if x >= Exp2(52) then Raise(x, 0) else
      Exp2Step(52);
      Lower(x, 0)
  }

  function Shift(x: real, k: int): real {
    x / Exp2(k)
  }

  function RoundPositive(x: real): real
    requires x > 0.0
  {
    var k := Exponent(x);
    Scaled(RoundInt(Shift(x, k)), k)
  }

  /** The float64 nearest to x. */
  function Round(x: real): real {
    if x == 0.0 then 0.0 else if x > 0.0 then RoundPositive(x) else -RoundPositive(-x)
  }

  // ---------- Round is the rounding of the standard ----------

  lemma ScaleOrder(a: real, b: real, c: real)
    requires c > 0.0
    ensures a <= b <==> a * c <= b * c
    ensures a < b <==> a * c < b * c
  {
  }

  lemma ScaleAbs(a: real, b: real, c: real)
    requires c > 0.0
    ensures Abs(a * c - b * c) == Abs(a - b) * c
  {
    assert a * c - b * c == (a - b) * c;
    ScaleOrder(a, b, c);
  }

  lemma Quotient(x: real, c: real)
    requires c > 0.0
    ensures (x / c) * c == x
  {
  }

  lemma QuotientBounds(x: real, c: real, low: real, high: real)
    requires c > 0.0 && low * c <= x <= high * c
    ensures low <= x / c <= high
  {
    Quotient(x, c);
    ScaleOrder(low, x / c, c);
    ScaleOrder(x / c, high, c);
  }

  lemma SignificandRange(x: real, k: int)
    requires Exp2(k + 52) <= x < Exp2(k + 53)
    ensures Shift(x, k) * Exp2(k) == x && Shift(x, k) >= HIDDEN_BIT as real
    ensures HIDDEN_BIT <= RoundInt(Shift(x, k)) <= PRECISION
  {
    Binade(k);
    Quotient(x, Exp2(k));
    QuotientBounds(x, Exp2(k), HIDDEN_BIT as real, PRECISION as real);
    RoundIntRange(x / Exp2(k), HIDDEN_BIT, PRECISION);
  }

  lemma RoundIntRange(q: real, low: int, high: int)
    requires low as real <= q <= high as real
    ensures low <= RoundInt(q) <= high
  {
  }

  lemma IntegersFarther(q: real, n: int)
    ensures Abs(q - RoundInt(q) as real) <= Abs(q - n as real)
    ensures n != RoundInt(q) && Abs(q - RoundInt(q) as real) == Abs(q - n as real) ==> RoundInt(q) % 2 == 0
  {
    var r := RoundInt(q);
    if n < r {
      assert n <= r - 1;
    } else if n > r {
      assert n >= r + 1;
    }
  }

  lemma ScaledOrder(a: real, b: real, e: real, scaledA: real, scaledB: real)
    requires e > 0.0 && a <= b && scaledA == a * e && scaledB == b * e
    ensures scaledA <= scaledB && (scaledA == scaledB ==> a == b)
  {
    ScaleOrder(a, b, e);
    ScaleOrder(b, a, e);
  }

  lemma FartherScaled(x: real, q: real, r: real, n: real, e: real)
    requires e > 0.0 && x == q * e && Abs(q - r) <= Abs(q - n)
    ensures Abs(x - r * e) <= Abs(x - n * e)
    ensures n * e != r * e && Abs(x - r * e) == Abs(x - n * e) ==> n != r && Abs(q - r) == Abs(q - n)
  {
    ScaleAbs(q, r, e);
    ScaleAbs(q, n, e);
    ScaledOrder(Abs(q - r), Abs(q - n), e, Abs(x - r * e), Abs(x - n * e));
  }

  lemma ScaledFarther(x: real, q: real, r: int, n: int, k: int)
    requires x == q * Exp2(k) && Abs(q - r as real) <= Abs(q - n as real)
    ensures Abs(x - Scaled(r, k)) <= Abs(x - Scaled(n, k))
    ensures Scaled(n, k) != Scaled(r, k) && Abs(x - Scaled(r, k)) == Abs(x - Scaled(n, k)) ==>
              n != r && Abs(q - r as real) == Abs(q - n as real)
  {
    hide Exp2;
    FartherScaled(x, q, r as real, n as real, Exp2(k));
  }

  // Multiples of 2^k are no nearer to x = q * 2^k than the rounded significand.
  lemma Aligned(x: real, q: real, k: int, n: int)
    requires x == q * Exp2(k)
    ensures var r := RoundInt(q);
            && Abs(x - Scaled(r, k)) <= Abs(x - Scaled(n, k))
            && (Scaled(n, k) != Scaled(r, k) && Abs(x - Scaled(r, k)) == Abs(x - Scaled(n, k)) ==> r % 2 == 0)
  {
    hide RoundInt, Exp2, Scaled, Abs;
    IntegersFarther(q, n);
    ScaledFarther(x, q, RoundInt(q), n, k);
  }

  lemma MultiplyInts(m: int, p: int, e: real)
    ensures (m * p) as real * e == m as real * (p as real * e)
  {
    assert (m * p) as real == m as real * p as real;
  }

  // A representable number of a higher exponent is a multiple of 2^k.
  lemma Refine(m: int, j: int, k: int)
    requires k <= j
    ensures Scaled(m * Pow2(j - k), k) == Scaled(m, j)
  {
    Exp2Add(k, j - k);
    MultiplyInts(m, Pow2(j - k), Exp2(k));
  }

  // One of a lower exponent is at most 2^52 * 2^k.
  lemma BelowBinade(m: int, j: int, k: int)
    requires Significand(m) && j < k
    ensures Scaled(m, j) <= Scaled(HIDDEN_BIT, k)
  {
    Exp2Monotone(j, k - 1);
    Exp2Step(k - 1);
    Below(m as real, Exp2(j), Exp2(k - 1));
  }

  lemma Below(a: real, small: real, half: real)
    requires a <= PRECISION as real && 0.0 < small <= half
    ensures a * small <= HIDDEN_BIT as real * (2.0 * half)
  {
    ScaleOrder(a, PRECISION as real, small);
    assert PRECISION as real * small <= PRECISION as real * half;
  }

  lemma HiddenBelow(x: real, q: real, k: int)
    requires x == q * Exp2(k) && q >= HIDDEN_BIT as real
    ensures Scaled(HIDDEN_BIT, k) <= x
  {
    ScaleOrder(HIDDEN_BIT as real, q, Exp2(k));
  }

  lemma Competitor(x: real, q: real, k: int, m: int, j: int)
    requires x == q * Exp2(k) && q >= HIDDEN_BIT as real && Significand(m)
    ensures var r := RoundInt(q);
            && Abs(x - Scaled(r, k)) <= Abs(x - Scaled(m, j))
            && (Scaled(m, j) != Scaled(r, k) && Abs(x - Scaled(r, k)) == Abs(x - Scaled(m, j)) ==> r % 2 == 0)
  {
    hide Scaled, RoundInt;
    if j >= k {
      Refine(m, j, k);
      Aligned(x, q, k, m * Pow2(j - k));
    } else {
      BelowBinade(m, j, k);
      HiddenBelow(x, q, k);
      Aligned(x, q, k, HIDDEN_BIT);
    }
  }

  lemma SignificandRounds(x: real, q: real, k: int)
    requires x == q * Exp2(k) && q >= HIDDEN_BIT as real && HIDDEN_BIT <= RoundInt(q) <= PRECISION
    ensures Rounds(x, Scaled(RoundInt(q), k))
  {
    hide Scaled, RoundInt, Abs;
    var r := RoundInt(q);
    var y := Scaled(r, k);
    assert Significand(r);
    forall m, j | Significand(m)
      ensures Abs(x - y) <= Abs(x - Scaled(m, j))
      ensures Scaled(m, j) != y && Abs(x - y) == Abs(x - Scaled(m, j)) ==> EvenFloat(y)
    {
      Competitor(x, q, k, m, j);
    }
  }

  lemma BinadeRounds(x: real, k: int)
    requires Exp2(k + 52) <= x < Exp2(k + 53)
    ensures Rounds(x, Scaled(RoundInt(Shift(x, k)), k))
  {
    hide Scaled, RoundInt, Rounds, Shift, Exp2;
    SignificandRange(x, k);
    SignificandRounds(x, Shift(x, k), k);
  }

  lemma PositiveRounds(x: real)
    requires x > 0.0
    ensures Rounds(x, RoundPositive(x))
  {
    hide Scaled, RoundInt, Rounds, Shift, Exp2;
    BinadeRounds(x, Exponent(x));
  }

  lemma ScaledNegates(m: int, k: int)
    ensures Scaled(-m, k) == -Scaled(m, k)
  {
  }

  lemma FloatNegates(y: real)
    requires Float(y)
    ensures Float(-y)
  {
    var m, k :| Significand(m) && y == Scaled(m, k);
    ScaledNegates(m, k);
    assert Significand(-m) && -y == Scaled(-m, k);
  }

  lemma CompetitorNegates(x: real, y: real, m: int, j: int)
    requires Rounds(x, y) && Significand(m)
    ensures Abs(-x + y) <= Abs(-x - Scaled(m, j))
    ensures Scaled(m, j) != -y && Abs(-x + y) == Abs(-x - Scaled(m, j)) ==> EvenFloat(-y)
  {
    ScaledNegates(m, j);
    assert Significand(-m) && Abs(x - y) <= Abs(x - Scaled(-m, j));
    if Scaled(m, j) != -y && Abs(-x + y) == Abs(-x - Scaled(m, j)) {
      EvenNegates(y);
    }
  }

  lemma RoundsNegates(x: real, y: real)
    requires Rounds(x, y)
    ensures Rounds(-x, -y)
  {
    FloatNegates(y);
    forall m, j | Significand(m)
      ensures Abs(-x - (-y)) <= Abs(-x - Scaled(m, j))
      ensures Scaled(m, j) != -y && Abs(-x - (-y)) == Abs(-x - Scaled(m, j)) ==> EvenFloat(-y)
    {
      CompetitorNegates(x, y, m, j);
    }
  }

  lemma EvenNegates(y: real)
    requires EvenFloat(y)
    ensures EvenFloat(-y)
  {
    var m, k :| Significand(m) && (m <= -HIDDEN_BIT || m >= HIDDEN_BIT) && m % 2 == 0 && y == Scaled(m, k);
    ScaledNegates(m, k);
    assert Significand(-m) && -y == Scaled(-m, k);
  }

  /** The computed rounding is the one the standard describes, for every real number. */
  lemma RoundRounds(x: real)
    ensures Rounds(x, Round(x))
  {
    if x == 0.0 {
      assert Round(x) == Scaled(0, 0);
    } else if x > 0.0 {
      PositiveRounds(x);
    } else {
      PositiveRounds(-x);
      RoundsNegates(-x, RoundPositive(-x));
    }
  }

  // ---------- the standard's rounding is a function ----------

  // A positive even number as an even significand below 2^53.
  lemma EvenNormal(y: real) returns (m: int, k: int)
    requires EvenFloat(y) && y > 0.0
    ensures HIDDEN_BIT <= m < PRECISION && m % 2 == 0 && y == Scaled(m, k)
  {
    hide Exp2;
    m, k :| Significand(m) && (m <= -HIDDEN_BIT || m >= HIDDEN_BIT) && m % 2 == 0 && y == Scaled(m, k);
    assert m >= 0 by {
      ScaleOrder(m as real, 0.0, Exp2(k));
    }
    if m == PRECISION {
      Exp2Step(k);
      m, k := HIDDEN_BIT, k + 1;
    }
  }

  lemma ScaledLess(m: int, n: int, k: int)
    ensures m < n <==> Scaled(m, k) < Scaled(n, k)
  {
    ScaleOrder(m as real, n as real, Exp2(k));
  }

  // Between two even numbers lies another float.
  lemma EvensApart(y: real, z: real) returns (w: real)
    requires EvenFloat(y) && EvenFloat(z) && 0.0 < y < z
    ensures Float(w) && y < w < z
  {
    hide Scaled, Exp2;
    var m, k := EvenNormal(y);
    var n, j := EvenNormal(z);
    w := Scaled(m + 1, k);
    assert Significand(m + 1);
    ScaledLess(m, m + 1, k);
    if j < k {
      BelowBinade(n, j, k);
      ScaledLess(m, HIDDEN_BIT, k);
    } else if j == k {
      ScaledLess(m, n, k);
      ScaledLess(m + 1, n, k);
    } else {
      AboveBinade(m + 1, k, n, j);
    }
  }

  lemma AboveBinade(m: int, k: int, n: int, j: int)
    requires m < PRECISION && n >= HIDDEN_BIT && k < j
    ensures Scaled(m, k) < Scaled(n, j)
  {
    hide Exp2;
    Exp2Monotone(k + 1, j);
    Exp2Step(k);
    ScaleOrder(m as real, PRECISION as real, Exp2(k));
    ScaleOrder(HIDDEN_BIT as real, n as real, Exp2(j));
    Doubles(Exp2(k), Exp2(j));
  }

  lemma Doubles(a: real, b: real)
    requires 2.0 * a <= b
    ensures PRECISION as real * a <= HIDDEN_BIT as real * b
  {
  }

  lemma Inside(x: real, y: real, w: real, z: real)
    requires y < w < z && Abs(x - y) == Abs(x - z)
    ensures Abs(x - w) < Abs(x - y)
  {
  }

  lemma RoundsPositive(x: real, y: real)
    requires x > 0.0 && Rounds(x, y)
    ensures y >= 0.0
  {
    assert Exp2(0) == 1.0;
    assert Significand(0) && Scaled(0, 0) == 0.0;
  }

  lemma Ties(x: real, y: real, z: real)
    requires Rounds(x, y) && Rounds(x, z) && y != z
    ensures Abs(x - y) == Abs(x - z) && EvenFloat(y) && EvenFloat(z)
  {
    hide Scaled;
    var m, k :| Significand(m) && y == Scaled(m, k);
    var n, j :| Significand(n) && z == Scaled(n, j);
    assert Abs(x - y) <= Abs(x - Scaled(n, j)) && Abs(x - z) <= Abs(x - Scaled(m, k));
  }

  lemma PositiveUnique(x: real, y: real, z: real)
    requires x > 0.0 && Rounds(x, y) && Rounds(x, z)
    ensures y <= z
  {
    if z < y {
      Ties(x, y, z);
      RoundsPositive(x, z);
      EvenNonzero(z);
      var w := EvensApart(z, y);
      hide Rounds;
      Inside(x, z, w, y);
      Nearer(x, z, w);
    }
  }

  lemma EvenNonzero(z: real)
    requires EvenFloat(z)
    ensures z != 0.0
  {
    hide Exp2;
    var m, k :| Significand(m) && (m <= -HIDDEN_BIT || m >= HIDDEN_BIT) && m % 2 == 0 && z == Scaled(m, k);
    ScaleOrder(m as real, 0.0, Exp2(k));
    ScaleOrder(0.0, m as real, Exp2(k));
  }

  lemma ZeroRounds(y: real)
    requires Rounds(0.0, y)
    ensures y == 0.0
  {
    assert Exp2(0) == 1.0;
    assert Significand(0) && Scaled(0, 0) == 0.0;
  }

  /** A number has one rounding. */
  lemma RoundsUnique(x: real, y: real, z: real)
    requires Rounds(x, y) && Rounds(x, z)
    ensures y == z
  {
    hide Rounds;
    if x == 0.0 {
      ZeroRounds(y);
      ZeroRounds(z);
    } else if x > 0.0 {
      PositiveUnique(x, y, z);
      PositiveUnique(x, z, y);
    } else {
      RoundsNegates(x, y);
      RoundsNegates(x, z);
      PositiveUnique(-x, -y, -z);
      PositiveUnique(-x, -z, -y);
    }
  }

  // ---------- consequences ----------

  lemma ExponentUnique(x: real, k: int)
    requires Exp2(k + 52) <= x < Exp2(k + 53)
    ensures x > 0.0 && Exponent(x) == k
  {
    hide Exponent;
    var e := Exponent(x);
    Exp2Order(k + 52, e + 53);
    Exp2Order(e + 52, k + 53);
  }

  /** The rounding of a number whose exponent is known. */
  lemma RoundAt(x: real, k: int)
    requires Exp2(k + 52) <= x < Exp2(k + 53)
    ensures Round(x) == Scaled(RoundInt(Shift(x, k)), k)
  {
    hide Scaled, Shift, RoundInt, Exponent;
    ExponentUnique(x, k);
  }

  /** Representable numbers do not change. */
  lemma RoundExact(m: int, k: int)
    requires Significand(m)
    ensures Round(Scaled(m, k)) == Scaled(m, k)
  {
    RoundRounds(Scaled(m, k));
  }

  lemma RoundInteger(n: int)
    requires Significand(n)
    ensures Round(n as real) == n as real
  {
    assert Scaled(n, 0) == n as real;
    RoundExact(n, 0);
  }

  lemma Nearer(x: real, y: real, z: real)
    requires Rounds(x, y) && Float(z)
    ensures Abs(x - y) <= Abs(x - z)
  {
  }

  /** Rounding keeps the order. */
  lemma RoundMonotone(x: real, y: real)
    requires x <= y
    ensures Round(x) <= Round(y)
  {
    RoundRounds(x);
    RoundRounds(y);
    Nearer(x, Round(x), Round(y));
    Nearer(y, Round(y), Round(x));
  }

  lemma ErrorScaled(x: real, q: real, r: real, e: real)
    requires e > 0.0 && x == q * e && Abs(q - r) <= 0.5
    ensures Abs(x - r * e) <= 0.5 * e
  {
    ScaleAbs(q, r, e);
    ScaleOrder(Abs(q - r), 0.5, e);
    assert Abs(q * e - r * e) <= 0.5 * e;
  }

  // Some representable number is within half a unit of x.
  lemma NearbyFloat(x: real, k: int) returns (z: real)
    requires Abs(x) <= Exp2(k + 53)
    ensures Float(z) && Abs(x - z) <= 0.5 * Exp2(k)
  {
    hide RoundInt, Exp2, Shift;
    Normalise(x, k);
    var q := Shift(x, k);
    var n := RoundInt(q);
    RoundIntRange(q, -PRECISION, PRECISION);
    ErrorScaled(x, q, n as real, Exp2(k));
    z := Scaled(n, k);
  }

  lemma Normalise(x: real, k: int)
    requires Abs(x) <= Exp2(k + 53)
    ensures x == Shift(x, k) * Exp2(k) && -(PRECISION as real) <= Shift(x, k) <= PRECISION as real
  {
    Binade(k);
    Quotient(x, Exp2(k));
    QuotientBounds(x, Exp2(k), -(PRECISION as real), PRECISION as real);
  }

  /** Half a unit in the last place: numbers up to 2^k move by at most 2^(k-54). */
  lemma RoundError(x: real, k: int)
    requires Abs(x) <= Exp2(k)
    ensures Abs(Round(x) - x) <= Exp2(k - 54)
  {
    hide Scaled, Rounds;
    var z := NearbyFloat(x, k - 53);
    RoundRounds(x);
    Nearer(x, Round(x), z);
    Exp2Step(k - 54);
  }

  lemma RoundSign(x: real)
    ensures x >= 0.0 ==> Round(x) >= 0.0
    ensures x <= 0.0 ==> Round(x) <= 0.0
  {
    RoundInteger(0);
    if x >= 0.0 {
      RoundMonotone(0.0, x);
    } else {
      RoundMonotone(x, 0.0);
    }
  }

  /** The relative error is at most 2^-53. */
  lemma RelativeError(x: real)
    ensures Abs(Round(x) - x) * PRECISION as real <= Abs(x)
  {
    hide Round, Exponent;
    if x == 0.0 {
      RoundInteger(0);
    } else {
      var size := Abs(x);
      var k := Exponent(size);
      RoundError(x, k + 53);
      Binade(k - 1);
      ScaleOrder(Abs(Round(x) - x), Exp2(k - 1), PRECISION as real);
    }
  }

  // The exact product and quotient, named so that proofs can refer to them as wholes.
  function Times(x: real, y: real): real {
    x * y
  }

  function Over(x: real, y: real): real
    requires y != 0.0
  {
    x / y
  }

  // Conversion of a float64 to an integer drops the fraction.
  function Trunc(x: real): int {
    if x >= 0.0 then x.Floor else -((-x).Floor)
  }

  // int64(x); out of range the result is implementation-specific in Go.
  function Int64Of(x: real): Option<int> {
    if -MAX_INT64 - 1 <= Trunc(x) <= MAX_INT64 then Some(Trunc(x)) else None
  }

  lemma RoundNegates(x: real)
    ensures Round(-x) == -Round(x)
  {
  }
}
