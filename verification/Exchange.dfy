/** Chains of conversions back and forth, and printing of amounts. */
module Exchange {
  import opened Wrappers
  import opened Binary64
  import opened Currency

  // ---------- alternating conversions ----------

  function Code(dollars: bool): string {
    if dollars then USD else INR
  }

  // n conversions, each to the other currency.
  function Chain(amount: int, dollars: bool, n: nat): Option<int>
    decreases n
  {
    if n == 0 then Some(amount)
    else
      match ConvertMinorUnits(amount, Code(dollars), Code(!dollars))
      case Converted(value) => Chain(value, !dollars, n - 1)
      case Unsupported => None
      case OutOfRange => None
  }

  const DOUBLED := 0x4000_0000_0000  // 2^46 cents are 167 * 2^45 paise

  // Cents to paise as the float code converts them.
  function Paise(a: int): int {
    167 * a / 2 + if a > USD_LIMIT && a % 4 == 1 then 1 else 0
  }

  // Paise to cents as the float code converts them.
  function Cents(b: int): int {
    2 * b / 167 + if b >= 167 * 0x2000_0000_0000 && b % 167 == 83 then 1 else 0
  }

  lemma ToPaise(a: int)
    requires 0 <= a && 167 * a < 2 * PRECISION
    ensures ConvertMinorUnits(a, USD, INR) == Converted(Paise(a)) && 0 <= Paise(a) <= PRECISION
  {
    hide ConvertMinorUnits;
    UsdToInrExactly(a);
  }

  lemma ToCents(b: int)
    requires 0 <= b <= PRECISION
    ensures ConvertMinorUnits(b, INR, USD) == Converted(Cents(b))
  {
    hide ConvertMinorUnits, Pow2;
    Pow2Values();
    InrToUsdExactly(b);
  }

  // Cents after one round trip: small odd amounts lose their odd cent.
  function Back(a: int): int {
    if a % 2 == 0 || (a > USD_LIMIT && a % 4 == 1) || a > DOUBLED then a else a - 1
  }

  lemma DollarBack(a: int)
    requires a >= 0
    ensures Cents(Paise(a)) == Back(a)
  {
    var h := a / 2;
    if a % 2 == 0 {
      Parts(Paise(a), h, 0);
    } else if a > USD_LIMIT && a % 4 == 1 {
      Parts(Paise(a), h, 84);
    } else {
      Parts(Paise(a), h, 83);
    }
  }

  lemma Parts(p: int, h: int, rest: int)
    requires p == 167 * h + rest && 0 <= rest < 167
    ensures p % 167 == rest && 2 * p / 167 == 2 * h + 2 * rest / 167
  {
    assert 2 * p == 167 * (2 * h) + 2 * rest;
  }

  // One round trip from dollars.
  lemma DollarTrip(a: int, n: nat)
    requires 0 <= a && 167 * a < 2 * PRECISION
    ensures Chain(a, true, 1) == Some(Paise(a))
    ensures Chain(a, true, n + 2) == Chain(Back(a), true, n)
  {
    hide ConvertMinorUnits, Paise, Cents, Back;
    DollarBack(a);
    ToPaise(a);
    ToCents(Paise(a));
    assert Chain(Paise(a), false, 0) == Some(Paise(a));
    assert Chain(Paise(a), false, n + 1) == Chain(Back(a), true, n);
  }

  lemma BackTwice(a: int)
    requires a >= 0
    ensures 0 <= a - a % 2 <= Back(a) <= a && Back(Back(a)) == Back(a)
  {
  }

  /** A chain from dollars, up to results of 2^53 paise: back in dollars the amount has lost at most
      an odd cent, has never gained, and is stable after one round trip. */
  lemma {:induction false} DollarChain(a: int, n: nat)
    requires 0 <= a && 167 * a < 2 * PRECISION
    ensures Chain(a, true, 2 * n) == Some(if n == 0 then a else Back(a))
    ensures Chain(a, true, 2 * n + 1) == Some(Paise(if n == 0 then a else Back(a)))
    ensures a - a % 2 <= Back(a) <= a && Back(Back(a)) == Back(a)
    decreases n
  {
    hide Chain, Paise, Back;
    BackTwice(a);
    if n == 0 {
      ChainStart(a, true);
      DollarTrip(a, 0);
    } else {
      DollarTrip(a, 2 * n - 2);
      DollarTrip(a, 2 * n - 1);
      DollarChain(Back(a), n - 1);
    }
  }

  lemma ChainStart(a: int, dollars: bool)
    ensures Chain(a, dollars, 0) == Some(a)
  {
  }

  lemma RupeeStart(b: int, n: nat)
    requires 0 <= b <= PRECISION
    ensures Chain(b, false, n + 1) == Chain(Cents(b), true, n)
  {
    hide ConvertMinorUnits, Cents;
    ToCents(b);
  }

  // Paise left after k round trips.
  function AfterTrips(b: int, k: nat): int {
    if k == 0 then b else if k == 1 then Paise(Cents(b)) else Paise(Back(Cents(b)))
  }

  // The amounts that a round trip from rupees increases.
  predicate Gains(b: int) {
    b >= 167 * 0x2000_0000_0000 && b % 334 == 83
  }

  /** A chain from rupees, below 2^53 paise: back in rupees the amount has lost at most 166 paise and
      no longer changes after two round trips.  It never gains, but for the amounts from 167 * 2^45 on
      that leave remainder 83 modulo 334: the first round trip adds one paisa to exactly these. */
  lemma RupeeChain(b: int, k: nat)
    requires 0 <= b < PRECISION
    ensures Chain(b, false, 2 * k) == Some(AfterTrips(b, k))
    ensures k > 0 ==> Chain(b, false, 2 * k - 1) == Some(if k == 1 then Cents(b) else Back(Cents(b)))
    ensures b - 166 <= AfterTrips(b, k) <= b + 1
    ensures AfterTrips(b, k) == b + 1 <==> k > 0 && Gains(b)
    ensures k >= 2 ==> AfterTrips(b, k) == AfterTrips(b, 2)
  {
    hide Chain;
    if k == 0 {
      ChainStart(b, false);
    } else {
      hide Paise, Back;
      RupeeStart(b, 2 * k - 1);
      RupeeStart(b, 2 * k - 2);
      CentsRange(b);
      DollarChain(Cents(b), k - 1);
    }
    Losses(b);
  }

  lemma CentsRange(b: int)
    requires 0 <= b < PRECISION
    ensures 0 <= Cents(b) && 167 * Cents(b) < 2 * PRECISION
  {
    var c, r := 2 * b / 167, 2 * b % 167;
    assert 2 * b == 167 * c + r;
    if b % 167 == 83 {
      Parts(b, b / 167, 83);
    }
  }

  lemma Losses(b: int)
    requires b >= 0
    ensures b - 166 <= Paise(Cents(b)) <= b + 1 && b - 166 <= Paise(Back(Cents(b))) <= b + 1
    ensures Paise(Cents(b)) == b + 1 <==> Gains(b)
    ensures Paise(Back(Cents(b))) == b + 1 <==> Gains(b)
  {
    var q, r := b / 167, b % 167;
    Parts(b, q, r);
    if r == 83 && b >= 167 * 0x2000_0000_0000 {
      RoundedUp(b, q);
    } else {
      RoundedDown(b, q, r);
    }
  }

  // 2b + 1 = 167 (2q + 1): the cents are rounded up to 2q + 1.
  lemma RoundedUp(b: int, q: int)
    requires b == 167 * q + 83 && b >= 167 * 0x2000_0000_0000
    ensures Paise(2 * q + 1) == if q % 2 == 0 then b + 1 else b
    ensures Back(2 * q + 1) == 2 * q + 1
    ensures Gains(b) <==> q % 2 == 0
  {
    assert q >= 0x2000_0000_0000;
    assert (2 * q + 1) % 4 == 1 <==> q % 2 == 0;
    assert 167 * (2 * q + 1) / 2 == 167 * q + 83;
    var h := q / 2;
    assert b == 334 * h + 167 * (q % 2) + 83;
  }

  lemma RoundedDown(b: int, q: int, r: int)
    requires b == 167 * q + r && 0 <= r < 167 && b >= 0 && !(r == 83 && b >= 167 * 0x2000_0000_0000)
    ensures var c := 2 * q + 2 * r / 167;
            b - 166 <= Paise(c) <= b && b - 166 <= Paise(Back(c)) <= b
    ensures !Gains(b)
  {
    hide Paise, Back;
    NotGained(b, q, r);
    EvenPaise(q);
    OddPaise(q);
    assert 2 * r / 167 == if r <= 83 then 0 else 1;
  }

  lemma EvenPaise(q: int)
    ensures Paise(2 * q) == 167 * q && Back(2 * q) == 2 * q
  {
  }

  lemma OddPaise(q: int)
    ensures 167 * q + 83 <= Paise(2 * q + 1) <= 167 * q + 84
    ensures Back(2 * q + 1) == 2 * q + 1 || Back(2 * q + 1) == 2 * q
  {
  }

  lemma NotGained(b: int, q: int, r: int)
    requires b == 167 * q + r && 0 <= r < 167 && !(r == 83 && b >= 167 * 0x2000_0000_0000)
    ensures !Gains(b)
  {
    assert b == 334 * (b / 334) + b % 334;
    assert b % 334 == 83 ==> r == 83 by {
      Parts(334 * (b / 334) + 83, 2 * (b / 334), 83);
    }
  }

  /** The largest loss occurs: 166 paise vanish in two round trips. */
  lemma LargestLoss()
    ensures Chain(166, false, 4) == Some(0)
  {
    hide Chain;
    RupeeChain(166, 2);
    assert AfterTrips(166, 2) == 0;
  }

  /** The smallest gain: the amount after INR_LIMIT makes one paisa in a round trip, and none up to it does. */
  lemma SmallestGain(b: int, k: nat)
    requires 0 <= b <= INR_LIMIT
    ensures Chain(INR_LIMIT + 1, false, 2) == Some(INR_LIMIT + 2)
    ensures Chain(b, false, 2 * k).Some? && Chain(b, false, 2 * k).value <= b
  {
    hide Chain, AfterTrips;
    RupeeChain(INR_LIMIT + 1, 1);
    assert INR_LIMIT + 1 == 334 * 0x1000_0000_0000 + 83;
    RupeeChain(b, k);
    Remainder83(b);
    Parts(334 * (b / 334) + 83, 2 * (b / 334), 83);
  }

  // ---------- FormatToMajorUnits ----------

  function Digit(n: int): char
    requires 0 <= n < 10
  {
    "0123456789"[n]
  }

  function Digits(n: nat): string {
    if n < 10 then [Digit(n)] else Digits(n / 10) + [Digit(n % 10)]
  }

  lemma RoundIntSign(x: real)
    requires x >= 0.0
    ensures RoundInt(x) >= 0
  {
  }

  // "%.2f": the nearest hundredth, half to even, of the exact value.
  function Fixed2(x: real): string {
    var hundredths := RoundInt(100.0 * Abs(x));
    assert hundredths >= 0 by { RoundIntSign(100.0 * Abs(x)); }
    (if x < 0.0 then "-" else "")
    + Digits(hundredths / 100) + "." + Hundredths(hundredths)
  }

  function FormatToMajorUnits(amount: int): string {
    Fixed2(Round(Round(amount as real) / 100.0))
  }

  // What a reader expects: sign, whole part, point, two digits.
  function Decimal(amount: int): string {
    var size := if amount < 0 then -amount else amount;
    (if amount < 0 then "-" else "") + Digits(size / 100) + "." + Hundredths(size)
  }

  lemma HundredthsExact(size: int)
    requires 0 <= size < 100 * 0x4000_0000_0000
    ensures RoundInt(100.0 * Round(size as real / 100.0)) == size
    ensures Round(size as real / 100.0) >= 0.0
  {
    hide Round;
    var x := size as real / 100.0;
    Quotient(size as real, 100.0);
    Exp2Values();
    Fractions();
    RoundError(x, 46);
    RoundSign(x);
  }

  lemma RoundIntZero()
    ensures RoundInt(0.0) == 0
  {
  }

  lemma PrintedPositive(size: int)
    requires 0 < size < 100 * 0x4000_0000_0000
    ensures Round(size as real / 100.0) > 0.0
    ensures Fixed2(Round(size as real / 100.0)) == Decimal(size)
    ensures Fixed2(-Round(size as real / 100.0)) == Decimal(-size)
  {
    hide Round, RoundInt;
    HundredthsExact(size);
    RoundIntZero();
  }

  /** Printing is exact below 2^46 major units. */
  lemma PrintsDecimal(a: int)
    requires -100 * 0x4000_0000_0000 < a < 100 * 0x4000_0000_0000
    ensures FormatToMajorUnits(a) == Decimal(a)
  {
    hide Fixed2, Decimal, Round;
    RoundInteger(a);
    if a == 0 {
      PrintsZero();
    } else if a > 0 {
      PrintedPositive(a);
    } else {
      PrintedPositive(-a);
      assert a as real / 100.0 == -((-a) as real / 100.0);
      RoundNegates((-a) as real / 100.0);
    }
  }

  lemma PrintsZero()
    ensures Fixed2(Round(0.0 / 100.0)) == Decimal(0)
  {
  }

  // ---------- reading back ----------

  function DigitValue(c: char): Option<int> {
    if '0' <= c <= '9' then Some(c as int - '0' as int) else None
  }

  function Number(s: string): Option<int> {
    if s == [] then None
    else if |s| == 1 then DigitValue(s[0])
    else
      match (Number(s[..|s| - 1]), DigitValue(s[|s| - 1]))
      case (Some(high), Some(low)) => Some(10 * high + low)
      case _ => None
  }

  function ParseUnsigned(s: string): Option<int> {
    if |s| < 4 || s[|s| - 3] != '.' then None
    else
      match (Number(s[..|s| - 3]), Number(s[|s| - 2..]))
      case (Some(whole), Some(hundredths)) => Some(100 * whole + hundredths)
      case _ => None
  }

  function ParseMinor(s: string): Option<int> {
    if s != [] && s[0] == '-' then
      match ParseUnsigned(s[1..])
      case Some(size) => Some(-size)
      case None => None
    else ParseUnsigned(s)
  }

  lemma DigitBack(n: int)
    requires 0 <= n < 10
    ensures DigitValue(Digit(n)) == Some(n)
  {
    assert forall i :: 0 <= i < 10 ==> "0123456789"[i] as int == '0' as int + i;
  }

  lemma {:induction false} NumberBack(n: nat)
    ensures Digits(n) != [] && Number(Digits(n)) == Some(n) && Digits(n)[0] != '-'
    decreases n
  {
    DigitBack(n % 10);
    if n >= 10 {
      NumberBack(n / 10);
      var s := Digits(n);
      assert s[..|s| - 1] == Digits(n / 10);
    }
  }

  // The two digits after the point.
  function Hundredths(size: nat): string {
    [Digit(size / 10 % 10), Digit(size % 10)]
  }

  lemma TwoDigits(size: nat)
    ensures Number(Hundredths(size)) == Some(size % 100)
  {
    DigitBack(size / 10 % 10);
    DigitBack(size % 10);
    HundredParts(size, size / 100, size % 100);
    hide Digit;
    var tail := Hundredths(size);
    assert tail[..1] == [tail[0]];
  }

  lemma HundredParts(size: int, q: int, r: int)
    requires size == 100 * q + r && 0 <= r < 100
    ensures size / 10 % 10 == r / 10 && size % 10 == r % 10 && r == 10 * (r / 10) + r % 10
  {
    assert size == 10 * (10 * q + r / 10) + r % 10;
    assert size / 10 == 10 * q + r / 10;
  }

  lemma SplitPoint(head: string, tail: string)
    requires head != "" && |tail| == 2
    ensures var s := head + "." + tail;
            |s| == |head| + 3 && s[..|s| - 3] == head && s[|s| - 2..] == tail && s[|s| - 3] == '.'
  {
  }

  lemma ParseDecimal(size: nat)
    ensures ParseUnsigned(Digits(size / 100) + "." + Hundredths(size)) == Some(size)
  {
    hide *;
    NumberBack(size / 100);
    TwoDigits(size);
    HundredthsLength(size);
    ParseParts(Digits(size / 100), Hundredths(size), size / 100, size % 100);
  }

  lemma ParseParts(head: string, tail: string, whole: int, cents: int)
    requires head != "" && |tail| == 2 && Number(head) == Some(whole) && Number(tail) == Some(cents)
    ensures ParseUnsigned(head + "." + tail) == Some(100 * whole + cents)
  {
    hide Number;
    SplitPoint(head, tail);
  }

  lemma HundredthsLength(size: nat)
    ensures |Hundredths(size)| == 2
  {
  }

  lemma ParsePrinted(a: int)
    ensures ParseMinor(Decimal(a)) == Some(a)
  {
    hide ParseUnsigned, Digits, Hundredths;
    var size := if a < 0 then -a else a;
    var rest := Digits(size / 100) + "." + Hundredths(size);
    ParseDecimal(size);
    NumberBack(size / 100);
    if a < 0 {
      assert Decimal(a) == ['-'] + rest;
      assert Decimal(a)[1..] == rest;
    } else {
      assert Decimal(a) == rest;
      assert rest[0] == Digits(size / 100)[0];
    }
  }

  /** Printing round trip: reading the printed amount gives it back, so different amounts print differently. */
  lemma PrintRoundTrip(a: int)
    requires -100 * 0x4000_0000_0000 < a < 100 * 0x4000_0000_0000
    ensures ParseMinor(FormatToMajorUnits(a)) == Some(a)
  {
    hide ParseMinor, FormatToMajorUnits, Decimal;
    PrintsDecimal(a);
    ParsePrinted(a);
  }

  /** The range is sharp: the first amount beyond it prints as the next one. */
  lemma PrintLimit()
    ensures FormatToMajorUnits(100 * DOUBLED + 1) == Decimal(100 * DOUBLED + 2)
    ensures ParseMinor(FormatToMajorUnits(100 * DOUBLED + 1)) == Some(100 * DOUBLED + 2)
  {
    hide Round, Scaled, Shift, ParseMinor, Digits, Hundredths;
    var a := 100 * DOUBLED + 1;
    var x := a as real / 100.0;
    RoundInteger(a);
    Exp2Values();
    Fractions();
    RoundAt(x, -6);
    ShiftTimes(x, -6);
    var q := Shift(x, -6);
    assert q == 64.0 * x;
    assert RoundInt(q) == 64 * DOUBLED + 1;
    assert Scaled(64 * DOUBLED + 1, -6) == DOUBLED as real + 1.0 / 64.0 by { SixtyFourth(); }
    assert RoundInt(100.0 * (DOUBLED as real + 1.0 / 64.0)) == 100 * DOUBLED + 2;
    ParsePrinted(100 * DOUBLED + 2);
  }

  lemma SixtyFourth()
    ensures Scaled(64 * DOUBLED + 1, -6) == DOUBLED as real + 1.0 / 64.0
  {
    Fractions();
  }

  // Beyond the range floats are 1/64 apart: the nearest 64th to r hundredths, and whether it prints as r again.
  predicate Survives(r: int) {
    var sixtyFourths := (32 * r + 25) / 50;
    var off := 25 * sixtyFourths - 16 * r;
    -8 < off < 8 || ((off == 8 || off == -8) && r % 2 == 0)
  }

  lemma SixtyFourthOf(x: real, w: int, r: int)
    requires w >= 0 && 0 <= r < 100 && x == w as real + r as real / 100.0
    requires Exp2(46) <= x < Exp2(47)
    ensures Round(x) == w as real + ((32 * r + 25) / 50) as real / 64.0
  {
    hide Round, Scaled, Shift;
    Fractions();
    RoundAt(x, -6);
    ShiftTimes(x, -6);
    var m := (32 * r + 25) / 50;
    NearestSixtyFourth(Shift(x, -6), w, r, m);
    assert Scaled(64 * w + m, -6) == w as real + m as real / 64.0 by { ScaledSixtyFourths(w, m); }
  }

  lemma NearestSixtyFourth(q: real, w: int, r: int, m: int)
    requires 0 <= r < 100 && m == (32 * r + 25) / 50 && q == 64.0 * (w as real + r as real / 100.0)
    ensures RoundInt(q) == 64 * w + m
  {
    var t := q - (64 * w) as real;
    assert 100.0 * t == (64 * r) as real;
    assert 50 * m <= 32 * r + 25 < 50 * m + 50;
    assert 32 * r + 25 != 50 * m;
    NearestInteger(q, 64 * w + m);
  }

  lemma ScaledSixtyFourths(w: int, m: int)
    ensures Scaled(64 * w + m, -6) == w as real + m as real / 64.0
  {
    Fractions();
  }

  lemma SurvivesRounding(w: int, r: int)
    requires w >= 0 && 0 <= r < 100
    ensures RoundInt(100.0 * (w as real + ((32 * r + 25) / 50) as real / 64.0)) == 100 * w + r <==> Survives(r)
  {
    hide RoundInt;
    SixteenthsOff(w, r, (32 * r + 25) / 50);
  }

  lemma SixteenthsOff(w: int, r: int, m: int)
    ensures var off := 25 * m - 16 * r;
            RoundInt(100.0 * (w as real + m as real / 64.0)) == 100 * w + r
            <==> -8 < off < 8 || ((off == 8 || off == -8) && r % 2 == 0)
  {
    hide RoundInt, Abs;
    var q := 100.0 * (w as real + m as real / 64.0);
    OffHalf(q - (100 * w + r) as real, 25 * m - 16 * r);
    NearestInteger(q, 100 * w + r);
    SameParity(w, r);
  }

  lemma SameParity(w: int, r: int)
    ensures (100 * w + r) % 2 == r % 2
  {
    assert 100 * w + r == 2 * (50 * w) + r;
  }

  lemma OffHalf(t: real, off: int)
    requires 16.0 * t == off as real
    ensures Abs(t) < 0.5 <==> -8 < off < 8
    ensures Abs(t) == 0.5 <==> off == 8 || off == -8
  {
  }

  // An unsigned amount in print.
  function Plain(h: nat): string {
    Digits(h / 100) + "." + Hundredths(h)
  }

  lemma PlainInjective(h: nat, k: nat)
    ensures Plain(h) == Plain(k) <==> h == k
  {
    hide Digits, Hundredths, ParseUnsigned;
    ParseDecimal(h);
    ParseDecimal(k);
  }

  lemma FixedPlain(x: real, h: nat)
    requires h == RoundInt(100.0 * Abs(x))
    ensures Fixed2(x) == if x < 0.0 then "-" + Plain(h) else Plain(h)
  {
    hide Digits, Hundredths, RoundInt;
    Prefixes(Digits(h / 100), Hundredths(h));
  }

  lemma DecimalPlain(a: int)
    ensures Decimal(a) == if a < 0 then "-" + Plain(Size(a)) else Plain(Size(a))
  {
    hide Digits, Hundredths;
    Prefixes(Digits(Size(a) / 100), Hundredths(Size(a)));
  }

  lemma Prefixes(head: string, tail: string)
    ensures "" + head + "." + tail == head + "." + tail
    ensures "-" + head + "." + tail == "-" + (head + "." + tail)
  {
  }

  lemma SameTail(a: string, b: string)
    ensures "-" + a == "-" + b <==> a == b
  {
    assert ("-" + a)[1..] == a && ("-" + b)[1..] == b;
  }

  // The float of a size beyond the range and the hundredths it prints.
  lemma SizeRounds(size: nat) returns (h: nat)
    requires 100 * DOUBLED <= size <= PRECISION
    ensures Round(size as real / 100.0) > 0.0 && h == RoundInt(100.0 * Round(size as real / 100.0))
    ensures h == size <==> Survives(size % 100)
  {
    hide Round, Survives, RoundInt;
    var w, r := size / 100, size % 100;
    assert size as real / 100.0 == w as real + r as real / 100.0;
    Exp2Values();
    hide Exp2;
    SixtyFourthOf(size as real / 100.0, w, r);
    SurvivesRounding(w, r);
    RoundIntSign(100.0 * Round(size as real / 100.0));
    h := RoundInt(100.0 * Round(size as real / 100.0));
  }

  /** Beyond the range and up to 2^53 printing is exact if and only if the last two digits survive
      the rounding to 64ths. */
  lemma PrintsExactly(a: int)
    requires 100 * DOUBLED <= Size(a) <= PRECISION
    ensures FormatToMajorUnits(a) == Decimal(a) <==> Survives(Size(a) % 100)
  {
    hide Fixed2, Decimal, Round, Survives, RoundInt, Plain;
    RoundInteger(a);
    var h := SizeRounds(Size(a));
    var x := Round(Size(a) as real / 100.0);
    PlainInjective(h, Size(a));
    SameTail(Plain(h), Plain(Size(a)));
    DecimalPlain(a);
    if a < 0 {
      assert a as real / 100.0 == -(Size(a) as real / 100.0);
      RoundNegates(Size(a) as real / 100.0);
      FixedPlain(-x, h);
    } else {
      FixedPlain(x, h);
    }
  }

  /** Digits are decimal and have no leading zero. */
  lemma {:induction false} NoLeadingZero(n: nat)
    ensures Digits(n) != "" && (forall i :: 0 <= i < |Digits(n)| ==> '0' <= Digits(n)[i] <= '9')
    ensures n >= 10 ==> Digits(n)[0] != '0'
    ensures n < 10 ==> |Digits(n)| == 1
    ensures 0 < n < 10 ==> Digits(n)[0] != '0'
    decreases n
  {
    DigitShape(n % 10);
    if n >= 10 {
      NoLeadingZero(n / 10);
    }
  }

  lemma DigitShape(n: int)
    requires 0 <= n < 10
    ensures '0' <= Digit(n) <= '9' && (Digit(n) == '0' <==> n == 0)
  {
    DigitBack(n);
  }
}
