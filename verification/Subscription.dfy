/** Subscriptions: billing periods on the proleptic Gregorian calendar in UTC, and the float64
    proration against the exact quotient. */
module Subscription {
  import opened Wrappers
  import opened Binary64

  // ---------- the calendar ----------

  const DAY := 86_400_000_000_000  // nanoseconds

  predicate Leap(y: int) {
    y % 4 == 0 && (y % 100 != 0 || y % 400 == 0)
  }

  function DaysIn(y: int, m: int): int
    requires 1 <= m <= 12
  {
    if m == 2 then (if Leap(y) then 29 else 28)
    else if m == 4 || m == 6 || m == 9 || m == 11 then 30
    else 31
  }

  // Days from 1 January of year 1 to 1 January of year y.
  function YearStart(y: int): int {
    365 * (y - 1) + (y - 1) / 4 - (y - 1) / 100 + (y - 1) / 400
  }

  function MonthStart(y: int, m: int): int
    requires 1 <= m <= 12
  {
    if m == 1 then YearStart(y) else MonthStart(y, m - 1) + DaysIn(y, m - 1)
  }

  // A point in time: a calendar day and the nanoseconds since its midnight.
  datatype Moment = Moment(year: int, month: int, day: int, clock: nat)

  predicate Calendar(t: Moment) {
    1 <= t.month <= 12 && 1 <= t.day <= DaysIn(t.year, t.month) && t.clock < DAY
  }

  function Nanos(t: Moment): int
    requires 1 <= t.month <= 12
  {
    (MonthStart(t.year, t.month) + t.day - 1) * DAY + t.clock
  }

  // AddDate(years, 0, 0) and AddDate(0, 1, 0): fields are added, then overflowing days carry into
  // the next month, so 31 January plus a month is 2 or 3 March.  Only the instant matters here.
  function AddYear(t: Moment): Moment {
    t.(year := t.year + 1)
  }

  function AddMonth(t: Moment): Moment {
    if t.month == 12 then t.(year := t.year + 1, month := 1) else t.(month := t.month + 1)
  }

  lemma CountMultiples(y: int)
    ensures y / 4 - (y - 1) / 4 == if y % 4 == 0 then 1 else 0
    ensures y / 100 - (y - 1) / 100 == if y % 100 == 0 then 1 else 0
    ensures y / 400 - (y - 1) / 400 == if y % 400 == 0 then 1 else 0
  {
  }

  lemma MultiplesNest(y: int)
    ensures y % 400 == 0 ==> y % 100 == 0
    ensures y % 100 == 0 ==> y % 4 == 0
  {
    if y % 400 == 0 {
      Multiple(100, 4 * (y / 400), y);
    }
    if y % 100 == 0 {
      Multiple(4, 25 * (y / 100), y);
    }
  }

  lemma Multiple(k: int, q: int, y: int)
    requires k > 0 && y == k * q
    ensures y % k == 0
  {
    var r := y % k;
    assert y == k * (y / k) + r;
    assert k * (q - y / k) == r;
    NoProperMultiple(k, q - y / k, r);
  }

  lemma NoProperMultiple(k: int, q: int, r: int)
    requires k > 0 && k * q == r && 0 <= r < k
    ensures r == 0
  {
    assert q >= 1 ==> k * q >= k;
    assert q <= -1 ==> k * q <= -k;
  }

  lemma YearLength(y: int)
    ensures YearStart(y + 1) - YearStart(y) == if Leap(y) then 366 else 365
  {
    CountMultiples(y);
    MultiplesNest(y);
  }

  lemma DecemberEnds(y: int)
    ensures MonthStart(y, 12) + 31 == YearStart(y + 1)
  {
    YearLength(y);
    hide YearStart;
    assert MonthStart(y, 1) == YearStart(y);
    assert MonthStart(y, 2) == YearStart(y) + 31;
    assert MonthStart(y, 3) == YearStart(y) + 31 + DaysIn(y, 2);
    assert MonthStart(y, 5) == MonthStart(y, 3) + 61;
    assert MonthStart(y, 7) == MonthStart(y, 5) + 61;
    assert MonthStart(y, 9) == MonthStart(y, 7) + 62;
    assert MonthStart(y, 11) == MonthStart(y, 9) + 61;
    assert MonthStart(y, 12) == MonthStart(y, 11) + 30;
  }

  /** A monthly period lasts as many days as the month it starts in. */
  lemma MonthlyPeriod(t: Moment)
    requires 1 <= t.month <= 12
    ensures Nanos(AddMonth(t)) - Nanos(t) == DaysIn(t.year, t.month) * DAY
  {
    DecemberEnds(t.year);
  }

  lemma {:induction false} SameMonthNextYear(y: int, m: int)
    requires 1 <= m <= 12
    ensures 365 <= MonthStart(y + 1, m) - MonthStart(y, m) <= 366
    ensures MonthStart(y + 1, m) - MonthStart(y, m) == if Leap(if m <= 2 then y else y + 1) then 366 else 365
  {
    YearLength(y);
    if m > 1 {
      SameMonthNextYear(y, m - 1);
    }
  }

  /** An annual period lasts 365 or 366 days. */
  lemma AnnualPeriod(t: Moment)
    requires 1 <= t.month <= 12
    ensures Nanos(AddYear(t)) - Nanos(t) == (if Leap(if t.month <= 2 then t.year else t.year + 1) then 366 else 365) * DAY
  {
    SameMonthNextYear(t.year, t.month);
  }

  // ---------- the service ----------

  datatype Record = Record(user: string, plan: string, amount: int, period: string, start: int, end: int)

  datatype SubscriptionError = InvalidPeriod | NotFound | Unspecified

  function PeriodEnd(period: string, now: Moment): Option<Moment> {
    if period == "monthly" then Some(AddMonth(now)) else if period == "annual" then Some(AddYear(now)) else None
  }

  lemma PeriodPositive(period: string, now: Moment)
    requires 1 <= now.month <= 12 && PeriodEnd(period, now).Some?
    ensures 1 <= PeriodEnd(period, now).value.month <= 12
    ensures 28 * DAY <= Nanos(PeriodEnd(period, now).value) - Nanos(now) <= 366 * DAY
  {
    MonthlyPeriod(now);
    AnnualPeriod(now);
  }

  class SubscriptionService {
    var store: map<string, Record>

    // Every stored period has positive length, which makes the division in the proration safe.
    ghost predicate Valid()
      reads this
    {
      forall id :: id in store ==> store[id].start < store[id].end
    }

    constructor ()
      ensures Valid() && store == map[]
    {
      store := map[];
    }

    method CreateSubscription(id: string, user: string, plan: string, amount: int, period: string, now: Moment)
      returns (r: Result<Record, SubscriptionError>)
      requires Valid() && Calendar(now)
      modifies this
      ensures Valid()
      ensures r.Err? <==> period != "monthly" && period != "annual"
      ensures r.Err? ==> r.error == InvalidPeriod && store == old(store)
      ensures r.Ok? ==> store == old(store)[id := r.value]
      ensures r.Ok? ==> r.value.user == user && r.value.plan == plan && r.value.amount == amount && r.value.period == period
      ensures r.Ok? ==> r.value.start == Nanos(now) && 28 * DAY <= r.value.end - r.value.start <= 366 * DAY
      ensures r.Ok? && period == "monthly" ==> r.value.end - r.value.start == DaysIn(now.year, now.month) * DAY
      ensures r.Ok? && period == "annual" ==>
                r.value.end - r.value.start == (if Leap(if now.month <= 2 then now.year else now.year + 1) then 366 else 365) * DAY
    {
      if period != "monthly" && period != "annual" {
        return Err(InvalidPeriod);
      }
      PeriodPositive(period, now);
      MonthlyPeriod(now);
      AnnualPeriod(now);
      var end := if period == "monthly" then AddMonth(now) else AddYear(now);
      var record := Record(user, plan, amount, period, Nanos(now), Nanos(end));
      store := store[id := record];
      r := Ok(record);
    }

    method CalculateProration(id: string, newAmount: int, now: int) returns (r: Result<int, SubscriptionError>)
      requires Valid()
      ensures id !in store ==> r == Err(NotFound)
      // after the period the new price, within it nothing for a downgrade and the price of the rest for an upgrade
      ensures id in store && store[id].end <= now ==> r == Ok(newAmount)
      ensures id in store && store[id].start <= now < store[id].end && newAmount <= store[id].amount ==> r == Ok(0)
      ensures id in store && store[id].start <= now < store[id].end && 0 <= store[id].amount <= newAmount <= AMOUNT_LIMIT ==>
                var sub := store[id];
                var whole := WholePrice(sub.amount, newAmount, sub.start, sub.end, now);
                r.Ok? && 0 <= r.value && whole - 1 <= r.value <= whole + 1
      // and a function of the record, with the properties proved of it below
      ensures id in store ==>
                var sub := store[id];
                r == match Prorate(sub.amount, newAmount, sub.start, sub.end, now)
                     case Some(charge) => Ok(charge)
                     case None => Err(Unspecified)
    {
      if id !in store {
        return Err(NotFound);
      }
      var sub := store[id];
      PriceOf(sub, newAmount, now);
      match Prorate(sub.amount, newAmount, sub.start, sub.end, now)
      case Some(charge) => r := Ok(charge);
      case None => r := Err(Unspecified);
    }
  }

  lemma AfterPeriod(oldAmount: int, newAmount: int, start: int, end: int, now: int)
    requires start < end
    ensures end <= now ==> Prorate(oldAmount, newAmount, start, end, now) == Some(newAmount)
  {
    hide Charge, UnusedRatio, Int64Of;
  }

  // The exact price of the remaining time, rounded down.
  function WholePrice(oldAmount: int, newAmount: int, start: int, end: int, now: int): int
    requires start < end
  {
    (newAmount - oldAmount) * (end - now) / (end - start)
  }

  lemma PriceOf(sub: Record, newAmount: int, now: int)
    requires sub.start < sub.end
    ensures var price := Prorate(sub.amount, newAmount, sub.start, sub.end, now);
            && (sub.end <= now ==> price == Some(newAmount))
            && (sub.start <= now < sub.end && newAmount <= sub.amount ==> price == Some(0))
            && (sub.start <= now < sub.end && 0 <= sub.amount <= newAmount <= AMOUNT_LIMIT ==>
                  var whole := WholePrice(sub.amount, newAmount, sub.start, sub.end, now);
                  price.Some? && 0 <= price.value && whole - 1 <= price.value <= whole + 1)
  {
    hide Prorate, WholePrice;
    AfterPeriod(sub.amount, newAmount, sub.start, sub.end, now);
    if sub.start <= now < sub.end {
      if newAmount <= sub.amount {
        DowngradeFree(sub.amount, newAmount, sub.start, sub.end, now);
      }
      if 0 <= sub.amount <= newAmount <= AMOUNT_LIMIT {
        ProrateAccurate(sub.amount, newAmount, sub.start, sub.end, now);
        ProrateMonotone(sub.amount, sub.amount, newAmount, newAmount, sub.start, sub.end, now);
      }
    }
  }

  // ---------- the proration ----------

  lemma RoundKeepsPositive(n: int)
    requires n > 0
    ensures Round(n as real) >= 1.0
  {
    hide Round;
    RoundInteger(1);
    RoundMonotone(1.0, n as real);
  }

  // float64(elapsed) / float64(total)
  function UsedRatio(elapsed: int, total: int): real
    requires total > 0
  {
    RoundKeepsPositive(total);
    Round(Over(Round(elapsed as real), Round(total as real)))
  }

  function UnusedRatio(elapsed: int, total: int): real
    requires total > 0
  {
    Round(1.0 - UsedRatio(elapsed, total))
  }

  // float64(amount) * unusedRatio
  function Cost(amount: int, unused: real): real {
    Round(Times(Round(amount as real), unused))
  }

  // The difference of the two remaining costs, before the cast.
  function Charge(oldAmount: int, newAmount: int, unused: real): real {
    Round(Cost(newAmount, unused) - Cost(oldAmount, unused))
  }

  function Prorate(oldAmount: int, newAmount: int, start: int, end: int, now: int): Option<int>
    requires start < end
  {
    if end - now <= 0 then Some(newAmount)
    else
      var charge := Charge(oldAmount, newAmount, UnusedRatio(now - start, end - start));
      if charge < 0.0 then Some(0) else Int64Of(charge)
  }

  lemma QuotientRange(a: real, b: real)
    requires 0.0 <= a <= b && b > 0.0
    ensures 0.0 <= Over(a, b) <= 1.0
  {
    QuotientBounds(a, b, 0.0, 1.0);
  }

  lemma UnusedRange(elapsed: int, total: int)
    requires 0 <= elapsed < total
    ensures 0.0 <= UsedRatio(elapsed, total) <= 1.0
    ensures 0.0 <= UnusedRatio(elapsed, total) <= 1.0
  {
    hide Round;
    RoundKeepsPositive(total);
    RoundSign(elapsed as real);
    RoundMonotone(elapsed as real, total as real);
    var q := Over(Round(elapsed as real), Round(total as real));
    QuotientRange(Round(elapsed as real), Round(total as real));
    RoundInteger(0);
    RoundInteger(1);
    RoundMonotone(0.0, q);
    RoundMonotone(q, 1.0);
    RoundMonotone(0.0, 1.0 - Round(q));
    RoundMonotone(1.0 - Round(q), 1.0);
  }

  lemma TimesMonotone(a: real, b: real, u: real)
    requires a <= b && u >= 0.0
    ensures Times(a, u) <= Times(b, u)
  {
  }

  // Each rounded cost grows with its amount.
  lemma CostMonotone(a: int, b: int, unused: real)
    requires a <= b && unused >= 0.0
    ensures Cost(a, unused) <= Cost(b, unused)
  {
    hide Round, Times;
    RoundMonotone(a as real, b as real);
    TimesMonotone(Round(a as real), Round(b as real), unused);
    RoundMonotone(Times(Round(a as real), unused), Times(Round(b as real), unused));
  }

  lemma ChargeMonotone(old1: int, old2: int, new1: int, new2: int, unused: real)
    requires old2 <= old1 && new1 <= new2 && unused >= 0.0
    ensures Charge(old1, new1, unused) <= Charge(old2, new2, unused)
  {
    hide Round, Cost;
    CostMonotone(old2, old1, unused);
    CostMonotone(new1, new2, unused);
    RoundMonotone(Cost(new1, unused) - Cost(old1, unused), Cost(new2, unused) - Cost(old2, unused));
  }

  lemma TruncMonotone(x: real, y: real)
    requires x <= y
    ensures Trunc(x) <= Trunc(y)
  {
  }

  /** Downgrades cost nothing. */
  lemma DowngradeFree(oldAmount: int, newAmount: int, start: int, end: int, now: int)
    requires start <= now < end && newAmount <= oldAmount
    ensures Prorate(oldAmount, newAmount, start, end, now) == Some(0)
  {
    hide Round, Cost, UnusedRatio;
    var unused := UnusedRatio(now - start, end - start);
    UnusedRange(now - start, end - start);
    ChargeMonotone(oldAmount, newAmount, newAmount, newAmount, unused);
    RoundInteger(0);
    assert Charge(newAmount, newAmount, unused) == Round(0.0);
  }

  /** Within a period the charge grows with the new amount and shrinks with the old one. */
  lemma ProrateMonotone(old1: int, old2: int, new1: int, new2: int, start: int, end: int, now: int)
    requires start <= now < end && old2 <= old1 && new1 <= new2
    ensures var low, high := Prorate(old1, new1, start, end, now), Prorate(old2, new2, start, end, now);
            low.Some? && high.Some? ==> 0 <= low.value <= high.value
  {
    hide Charge, UnusedRatio;
    var unused := UnusedRatio(now - start, end - start);
    UnusedRange(now - start, end - start);
    ChargeMonotone(old1, old2, new1, new2, unused);
    TruncMonotone(Charge(old1, new1, unused), Charge(old2, new2, unused));
    TruncSign(Charge(old1, new1, unused));
    TruncSign(Charge(old2, new2, unused));
  }

  lemma TruncSign(x: real)
    ensures x >= 0.0 ==> Trunc(x) >= 0
  {
  }

  // ---------- accuracy ----------

  // Two operands with relative errors 1/P give a quotient with absolute error 4/P.
  lemma QuotientError(a: real, b: real, x: real, y: real, p: real)
    requires 0.0 <= a <= b && b > 0.0 && p >= 2.0
    requires Abs(x - a) * p <= a && Abs(y - b) * p <= b
    ensures y > 0.0 && Abs(Over(x, y) - Over(a, b)) * p <= 4.0
  {
    HalfKept(b, y, p);
    var q, r := Over(x, y), Over(a, b);
    Quotient(x, y);
    Quotient(a, b);
    QuotientRange(a, b);
    CrossError(a, b, x, y, q, r, p);
  }

  lemma HalfKept(b: real, y: real, p: real)
    requires b > 0.0 && p >= 2.0 && Abs(y - b) * p <= b
    ensures y >= b / 2.0
  {
    var d := Abs(y - b);
    assert d * 2.0 <= d * p;
  }

  lemma CrossError(a: real, b: real, x: real, y: real, q: real, r: real, p: real)
    requires 0.0 <= a <= b && b > 0.0 && p >= 2.0 && y >= b / 2.0 && 0.0 <= r <= 1.0
    requires Abs(x - a) * p <= a && Abs(y - b) * p <= b && q * y == x && r * b == a
    ensures Abs(q - r) * p <= 4.0
  {
    BoundTimes(x - a, p, b);
    BoundTimes(y - b, p, b);
    Negated(y, b, p);
    CrossIdentity(a, b, x, y, q, r, p);
    CrossBound((x - a) * p, (b - y) * p, r, b, y, (q - r) * p);
    TimesBound(q - r, p, 4.0);
  }

  lemma Negated(y: real, b: real, p: real)
    ensures (b - y) * p == -((y - b) * p)
  {
  }

  lemma CrossBound(dx: real, dy: real, r: real, b: real, y: real, z: real)
    requires b > 0.0 && y >= b / 2.0 && 0.0 <= r <= 1.0 && -b <= dx <= b && -b <= dy <= b
    requires z * y == dx + r * dy
    ensures -4.0 <= z <= 4.0
  {
    RatioTimes(r, dy, b);
    BoundedFactor(z, y, b);
  }

  lemma BoundTimes(z: real, p: real, bound: real)
    requires p > 0.0 && Abs(z) * p <= bound
    ensures -bound <= z * p <= bound
  {
    ScaleOrder(z, Abs(z), p);
    ScaleOrder(-z, Abs(z), p);
    assert (-z) * p == -(z * p);
  }

  lemma TimesBound(z: real, p: real, bound: real)
    requires p > 0.0 && -bound <= z * p <= bound
    ensures Abs(z) * p <= bound
  {
  }

  lemma CrossIdentity(a: real, b: real, x: real, y: real, q: real, r: real, p: real)
    requires q * y == x && r * b == a
    ensures ((q - r) * p) * y == (x - a) * p + r * ((b - y) * p)
  {
    assert (q * p) * y == (q * y) * p == x * p;
    assert r * ((b - y) * p) == (r * b) * p - (r * y) * p;
    assert ((q - r) * p) * y == (q * p) * y - (r * y) * p;
  }

  lemma RatioTimes(r: real, d: real, b: real)
    requires 0.0 <= r <= 1.0 && -b <= d <= b
    ensures -b <= r * d <= b
  {
    if d < 0.0 {
      ShrinkNegative(r, d);
    } else {
      Shrink(r, d);
    }
  }

  lemma ShrinkNegative(r: real, d: real)
    requires 0.0 <= r <= 1.0 && d <= 0.0
    ensures d <= r * d <= 0.0
  {
    if d < 0.0 {
      assert r * d >= 1.0 * d;
    }
  }

  lemma Shrink(r: real, d: real)
    requires 0.0 <= r <= 1.0 && d >= 0.0
    ensures 0.0 <= r * d <= d
  {
    if d > 0.0 {
      ScaleOrder(r, 1.0, d);
      ScaleOrder(0.0, r, d);
      assert r * d <= 1.0 * d;
    }
  }

  lemma BoundedFactor(z: real, y: real, b: real)
    requires b > 0.0 && y >= b / 2.0 && -(2.0 * b) <= z * y <= 2.0 * b
    ensures -4.0 <= z <= 4.0
  {
    ScaleOrder(z, 4.0, y);
    ScaleOrder(-4.0, z, y);
  }

  // The rounded unused ratio is within 5 * 2^-53 of the exact one.
  lemma UnusedError(elapsed: int, total: int, rest: int)
    requires 0 <= elapsed < total && rest == total - elapsed
    ensures Abs(UnusedRatio(elapsed, total) - Over(rest as real, total as real)) * PRECISION as real <= 5.0
  {
    hide Round, Over;
    var a, b := elapsed as real, total as real;
    RelativeError(a);
    RelativeError(b);
    QuotientError(a, b, Round(a), Round(b), PRECISION as real);
    RoundSign(a);
    RoundMonotone(a, b);
    var q := Over(Round(a), Round(b));
    QuotientRange(Round(a), Round(b));
    UnusedRange(elapsed, total);
    SmallPower();
    RoundError(q, 0);
    RoundError(1.0 - UsedRatio(elapsed, total), 0);
    Complement(elapsed, total, rest);
    SumErrors(Over(a, b), q, UsedRatio(elapsed, total), UnusedRatio(elapsed, total));
  }

  lemma SmallPower()
    ensures Exp2(0) == 1.0 && Exp2(-54) * (2.0 * PRECISION as real) == 1.0
  {
    Binade(-54);
    Exp2Step(-1);
  }

  lemma Complement(elapsed: int, total: int, rest: int)
    requires 0 <= elapsed < total && rest == total - elapsed
    ensures Over(rest as real, total as real) == 1.0 - Over(elapsed as real, total as real)
  {
    var b := total as real;
    var r, u := Over(elapsed as real, b), Over(rest as real, b);
    Quotient(elapsed as real, b);
    Quotient(rest as real, b);
    assert (1.0 - r) * b == rest as real;
    ScaleOrder(u, 1.0 - r, b);
    ScaleOrder(1.0 - r, u, b);
  }

  lemma SumErrors(r: real, q: real, used: real, unused: real)
    requires Abs(q - r) * PRECISION as real <= 4.0
    requires Abs(used - q) <= Exp2(-54) && Abs(unused - (1.0 - used)) <= Exp2(-54)
    ensures Abs(unused - (1.0 - r)) * PRECISION as real <= 5.0
  {
    SmallPower();
    hide Exp2;
  }

  // The exact price of the remaining time.
  function Exact(oldAmount: int, newAmount: int, start: int, end: int, now: int): real
    requires start < end
  {
    Times((newAmount - oldAmount) as real, Over((end - now) as real, (end - start) as real))
  }

  const AMOUNT_LIMIT := 0x2000_0000_0000  // 2^45

  // One rounded cost.
  lemma CostError(amount: int, unused: real)
    requires 0 <= amount <= AMOUNT_LIMIT && 0.0 <= unused <= 1.0
    ensures Abs(Cost(amount, unused) - Times(amount as real, unused)) <= 1.0 / 512.0
    ensures 0.0 <= Cost(amount, unused) <= AMOUNT_LIMIT as real
  {
    hide Round, Exp2, Times;
    RoundInteger(amount);
    LimitPower();
    var cost := Times(amount as real, unused);
    CostRange(amount as real, unused);
    RoundError(cost, 45);
    RoundInteger(0);
    RoundInteger(AMOUNT_LIMIT);
    RoundMonotone(0.0, cost);
    RoundMonotone(cost, AMOUNT_LIMIT as real);
  }

  lemma CostRange(amount: real, unused: real)
    requires 0.0 <= amount <= AMOUNT_LIMIT as real && 0.0 <= unused <= 1.0
    ensures 0.0 <= Times(amount, unused) <= AMOUNT_LIMIT as real
  {
    Shrink(unused, amount);
  }

  lemma LimitPower()
    ensures Exp2(45) == AMOUNT_LIMIT as real && Exp2(-9) == 1.0 / 512.0
  {
    Exp2Values();
    assert Exp2(-5) == 1.0 / 32.0;
  }

  // The exact ratio against the rounded one, scaled by the amounts.
  lemma RatioError(difference: real, unused: real, exact: real)
    requires 0.0 <= difference <= AMOUNT_LIMIT as real
    requires Abs(unused - exact) * PRECISION as real <= 5.0
    ensures Abs(Times(difference, unused) - Times(difference, exact)) <= 5.0 / 256.0
  {
    var e := Abs(unused - exact);
    if difference > 0.0 {
      ScaleAbs(unused, exact, difference);
      ScaleOrder(difference, AMOUNT_LIMIT as real, if e > 0.0 then e else 1.0);
      assert e * difference <= e * AMOUNT_LIMIT as real;
    }
  }

  lemma ChargeErrorAt(oldAmount: int, newAmount: int, unused: real, exact: real)
    requires 0 <= oldAmount <= newAmount <= AMOUNT_LIMIT && 0.0 <= unused <= 1.0
    requires Abs(unused - exact) * PRECISION as real <= 5.0
    ensures Abs(Charge(oldAmount, newAmount, unused) - Times((newAmount - oldAmount) as real, exact)) <= 1.0 / 32.0
  {
    hide Round, Exp2, Cost, Times;
    var cost, credit := Cost(newAmount, unused), Cost(oldAmount, unused);
    var n, m, d := newAmount as real, oldAmount as real, (newAmount - oldAmount) as real;
    CostError(newAmount, unused);
    CostError(oldAmount, unused);
    LimitPower();
    RoundError(cost - credit, 45);
    Distribute(n, m, d, unused);
    RatioError(d, unused, exact);
    AddErrors(Round(cost - credit), cost, credit, Times(n, unused), Times(m, unused), Times(d, unused), Times(d, exact));
  }

  /** Before the cast, an upgrade's charge is within 1/32 of a minor unit of the exact price, for
      amounts up to 2^45 and durations of any length. */
  lemma ChargeError(oldAmount: int, newAmount: int, start: int, end: int, now: int)
    requires start <= now < end && 0 <= oldAmount <= newAmount <= AMOUNT_LIMIT
    ensures var charge := Charge(oldAmount, newAmount, UnusedRatio(now - start, end - start));
            Abs(charge - Exact(oldAmount, newAmount, start, end, now)) <= 1.0 / 32.0
  {
    hide UnusedRatio, Charge, Round, Exp2, Times, Over;
    var exact := Over((end - now) as real, (end - start) as real);
    UnusedRange(now - start, end - start);
    UnusedError(now - start, end - start, end - now);
    ChargeErrorAt(oldAmount, newAmount, UnusedRatio(now - start, end - start), exact);
  }

  lemma Distribute(n: real, m: real, d: real, u: real)
    requires d == n - m
    ensures Times(d, u) == Times(n, u) - Times(m, u)
  {
  }

  lemma AddErrors(charge: real, cost: real, credit: real, x: real, y: real, rounded: real, exact: real)
    requires Abs(charge - (cost - credit)) <= 1.0 / 512.0 && Abs(cost - x) <= 1.0 / 512.0 && Abs(credit - y) <= 1.0 / 512.0
    requires rounded == x - y && Abs(rounded - exact) <= 5.0 / 256.0
    ensures Abs(charge - exact) <= 1.0 / 32.0
  {
  }

  lemma ExactFraction(oldAmount: int, newAmount: int, start: int, end: int, now: int)
    requires start <= now < end && oldAmount <= newAmount
    ensures var whole := (newAmount - oldAmount) * (end - now) / (end - start);
            whole as real <= Exact(oldAmount, newAmount, start, end, now) < whole as real + 1.0
  {
    var d, rest, total := newAmount - oldAmount, end - now, end - start;
    var whole := d * rest / total;
    var x := d as real * (rest as real / total as real);
    Quotient(rest as real, total as real);
    assert x * total as real == (d * rest) as real by {
      assert x * total as real == d as real * ((rest as real / total as real) * total as real);
    }
    assert d * rest == whole * total + (d * rest) % total;
    assert (whole * total) as real == whole as real * total as real;
    ScaleOrder(whole as real, x, total as real);
    ScaleOrder(x, whole as real + 1.0, total as real);
  }

  /** Proration accuracy: the charge is within one minor unit of the exact price rounded down. */
  lemma ProrateAccurate(oldAmount: int, newAmount: int, start: int, end: int, now: int)
    requires start <= now < end && 0 <= oldAmount <= newAmount <= AMOUNT_LIMIT
    ensures var whole := WholePrice(oldAmount, newAmount, start, end, now);
            && Prorate(oldAmount, newAmount, start, end, now).Some?
            && whole - 1 <= Prorate(oldAmount, newAmount, start, end, now).value <= whole + 1
  {
    hide Charge, UnusedRatio, Exact;
    ChargeError(oldAmount, newAmount, start, end, now);
    ExactFraction(oldAmount, newAmount, start, end, now);
    WholeBound(newAmount - oldAmount, end - now, end - start);
  }

  lemma WholeBound(d: int, rest: int, total: int)
    requires 0 <= d <= AMOUNT_LIMIT && 0 < rest <= total
    ensures 0 <= d * rest / total <= AMOUNT_LIMIT
  {
    var n := d * rest;
    assert 0 <= n <= d * total;
    QuotientAtMost(n, d, total);
  }

  lemma QuotientAtMost(n: int, d: int, total: int)
    requires 0 <= n <= d * total && total > 0
    ensures 0 <= n / total <= d
  {
    var q := n / total;
    assert q * total + n % total == n;
    Cancel(q, d, total);
  }

  lemma Cancel(q: int, d: int, total: int)
    requires total > 0 && q * total <= d * total
    ensures q <= d
  {
  }

  /** Where the exact price keeps 1/32 of a unit from the whole numbers, the result is that price
      rounded down. */
  lemma ProrateExact(oldAmount: int, newAmount: int, start: int, end: int, now: int)
    requires start <= now < end && 0 <= oldAmount <= newAmount <= AMOUNT_LIMIT
    requires var rest, total := (newAmount - oldAmount) * (end - now) % (end - start), end - start;
             total <= 32 * rest && total < 32 * (total - rest)
    ensures Prorate(oldAmount, newAmount, start, end, now) == Some(WholePrice(oldAmount, newAmount, start, end, now))
  {
    hide Charge, UnusedRatio, Exact;
    var n, total := (newAmount - oldAmount) * (end - now), end - start;
    ChargeError(oldAmount, newAmount, start, end, now);
    ExactBetween(oldAmount, newAmount, start, end, now, n / total, n % total);
    WholeBound(newAmount - oldAmount, end - now, total);
  }

  lemma ExactBetween(oldAmount: int, newAmount: int, start: int, end: int, now: int, whole: int, rest: int)
    requires start <= now < end && oldAmount <= newAmount
    requires (newAmount - oldAmount) * (end - now) == whole * (end - start) + rest
    requires end - start <= 32 * rest && end - start < 32 * (end - start - rest)
    ensures whole as real + 1.0 / 32.0 <= Exact(oldAmount, newAmount, start, end, now) < whole as real + 31.0 / 32.0
  {
    var d, left, total := newAmount - oldAmount, end - now, end - start;
    ExactTimes(d, left, total);
    var x := Times(d as real, Over(left as real, total as real));
    hide Times, Over;
    FractionOf(x, d * left, whole, rest, total);
  }

  lemma ExactTimes(d: int, left: int, total: int)
    requires total > 0
    ensures Times(d as real, Over(left as real, total as real)) * total as real == (d * left) as real
  {
    Quotient(left as real, total as real);
    var q := left as real / total as real;
    assert (d as real * q) * total as real == d as real * (q * total as real);
  }

  lemma FractionOf(x: real, n: int, whole: int, rest: int, total: int)
    requires total > 0 && n == whole * total + rest && x * total as real == n as real
    requires total <= 32 * rest && total < 32 * (total - rest)
    ensures whole as real + 1.0 / 32.0 <= x < whole as real + 31.0 / 32.0
  {
    var y := x - whole as real;
    assert (whole * total) as real == whole as real * total as real;
    assert y * total as real == rest as real;
    Between(y, rest, total);
  }

  lemma Between(y: real, rest: int, total: int)
    requires total > 0 && y * total as real == rest as real && total <= 32 * rest && total < 32 * (total - rest)
    ensures 1.0 / 32.0 <= y < 31.0 / 32.0
  {
    ScaleOrder(1.0 / 32.0, y, total as real);
    ScaleOrder(y, 31.0 / 32.0, total as real);
  }

  // ---------- the tolerance is met on both sides ----------

  const YEAR := 365 * DAY

  lemma UnitFraction()
    ensures Exp2(-53) == 1.0 / PRECISION as real && Exp2(-1) == 0.5 && Exp2(0) == 1.0
  {
    Exp2Nat(53);
    Pow2Values();
    Quotient(1.0, PRECISION as real);
    assert Exp2(-53) == Exp2(0 - 53);
    assert Exp2(-53) * PRECISION as real == 1.0;
  }

  lemma ScaledFraction(m: int)
    ensures Scaled(m, -53) == m as real / PRECISION as real
  {
    UnitFraction();
    hide Exp2;
  }

  // 0.8 is rounded up.
  lemma EightTenths()
    ensures Round(0.8) == Scaled(7205759403792794, -53)
  {
    hide Round, Scaled, Exp2;
    UnitFraction();
    RoundAt(0.8, -53);
    var y := Shift(0.8, -53);
    assert y == 0.8 * PRECISION as real;
    assert RoundInt(y) == 7205759403792794;
  }

  // 7884000000000000 * 4 nanoseconds and four fifths of that.
  lemma YearRounds()
    ensures Round(YEAR as real) == YEAR as real && Round((YEAR / 5 * 4) as real) == (YEAR / 5 * 4) as real
  {
    hide Round;
    assert Exp2(2) == 4.0;
    RoundExact(7884000000000000, 2);
    RoundExact(6307200000000000, 2);
  }

  lemma ZeroCost(unused: real)
    ensures Cost(0, unused) == 0.0
  {
    assert Times(0.0, unused) == 0.0;
  }

  lemma UnusedFifth()
    ensures UnusedRatio(YEAR / 5 * 4, YEAR) == Scaled(1801439850948198, -53)
  {
    hide Round, Scaled;
    YearRounds();
    EightTenths();
    assert Over((YEAR / 5 * 4) as real, YEAR as real) == 0.8;
    ScaledFraction(7205759403792794);
    ScaledFraction(1801439850948198);
    assert 1.0 - UsedRatio(YEAR / 5 * 4, YEAR) == Scaled(1801439850948198, -53);
    RoundExact(1801439850948198, -53);
  }

  lemma FiveFifths()
    ensures Charge(0, 5, Scaled(1801439850948198, -53)) == Scaled(9007199254740990, -53)
  {
    hide Round, Scaled;
    var unused := Scaled(1801439850948198, -53);
    ZeroCost(unused);
    RoundInteger(5);
    ScaledFraction(1801439850948198);
    ScaledFraction(9007199254740990);
    assert Times(5.0, unused) == Scaled(9007199254740990, -53);
    RoundExact(9007199254740990, -53);
  }

  /** One unit too few: four fifths into a year, an upgrade from 0 to 5 owes 1 and is charged 0. */
  lemma OneTooFew()
    ensures Prorate(0, 5, 0, YEAR, YEAR / 5 * 4) == Some(0) && WholePrice(0, 5, 0, YEAR, YEAR / 5 * 4) == 1
  {
    hide Charge, UnusedRatio, Scaled;
    UnusedFifth();
    FiveFifths();
    ScaledFraction(9007199254740990);
    var x := Scaled(9007199254740990, -53);
    assert 0.0 <= x < 1.0;
    assert Trunc(x) == 0;
  }

  lemma HalfYear()
    ensures Round((YEAR / 2 + 1) as real) == (YEAR / 2) as real
  {
    hide Round, Scaled, Shift;
    var x := (YEAR / 2 + 1) as real;
    assert Exp2(1) == 2.0;
    Binade(1);
    RoundAt(x, 1);
    assert Shift(x, 1) == 7884000000000000.5 by { ShiftTwo(x); }
    assert RoundInt(7884000000000000.5) == 7884000000000000;
    assert Scaled(7884000000000000, 1) == 15768000000000000.0 by { ScaledTwo(7884000000000000); }
  }

  lemma ShiftTwo(x: real)
    ensures Shift(x, 1) == x / 2.0
  {
    assert Exp2(1) == 2.0;
  }

  lemma ScaledTwo(m: int)
    ensures Scaled(m, 1) == m as real * 2.0
  {
    assert Exp2(1) == 2.0;
  }

  lemma HalfRounds()
    ensures Round(0.5) == 0.5
  {
    hide Round;
    assert Exp2(-1) == 0.5;
    assert Scaled(1, -1) == 0.5;
    RoundExact(1, -1);
  }

  /** One unit too many: a nanosecond past the middle of a year the elapsed time is rounded down to
      the middle, and an upgrade from 0 to 2 that owes less than 1 is charged 1. */
  lemma OneTooMany()
    ensures Prorate(0, 2, 0, YEAR, YEAR / 2 + 1) == Some(1) && WholePrice(0, 2, 0, YEAR, YEAR / 2 + 1) == 0
  {
    hide Round;
    YearRounds();
    HalfYear();
    HalfRounds();
    RoundInteger(1);
    RoundInteger(2);
    ZeroCost(0.5);
    assert Over((YEAR / 2) as real, YEAR as real) == 0.5;
    assert UnusedRatio(YEAR / 2 + 1, YEAR) == 0.5;
    assert Times(2.0, 0.5) == 1.0;
    assert Charge(0, 2, 0.5) == 1.0;
    assert Trunc(1.0) == 1;
  }

  // ---------- the calendar ----------

  /** Leap years come every four years but for three of four centuries, and 400 years have 146097 days. */
  lemma LeapYears(y: int)
    ensures Leap(2024) && !Leap(2023) && !Leap(1900) && Leap(2000)
    ensures YearStart(y + 400) - YearStart(y) == 146097
    ensures YearStart(y + 1) - YearStart(y) == if Leap(y) then 366 else 365
  {
    YearLength(y);
    FourCenturies(y);
  }

  lemma FourCenturies(y: int)
    ensures YearStart(y + 400) - YearStart(y) == 146097
  {
    var z := y - 1;
    assert (z + 400) / 4 == z / 4 + 100 && (z + 400) / 100 == z / 100 + 4 && (z + 400) / 400 == z / 400 + 1;
  }

  /** The months have their lengths, and the year ends where the next one starts. */
  lemma MonthLengths(y: int)
    ensures DaysIn(y, 1) == 31 && DaysIn(y, 2) == (if Leap(y) then 29 else 28) && DaysIn(y, 3) == 31 && DaysIn(y, 4) == 30
    ensures DaysIn(y, 5) == 31 && DaysIn(y, 6) == 30 && DaysIn(y, 7) == 31 && DaysIn(y, 8) == 31
    ensures DaysIn(y, 9) == 30 && DaysIn(y, 10) == 31 && DaysIn(y, 11) == 30 && DaysIn(y, 12) == 31
    ensures MonthStart(y, 12) + 31 == YearStart(y + 1)
  {
    DecemberEnds(y);
  }
}
