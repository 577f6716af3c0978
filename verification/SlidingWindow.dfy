/** The sliding-window limiter of one API key: a sorted set whose members are the seconds of the
    admitted calls, trimmed and counted by one atomic script. */
module SlidingWindow {
  // `now` is the caller's clock in seconds, `clock` Redis's in milliseconds.
  datatype Call = Call(now: int, clock: int)

  datatype Quota = Quota(window: int, limit: int)

  const SHIPPED := Quota(60, 1000)

  // The stored key: its members (each its own score) and the moment after which it is gone.
  datatype Stored = Stored(entries: set<int>, deadline: int)

  function Live(z: Stored, clock: int): set<int> {
    if clock > z.deadline then {} else z.entries
  }

  function Kept(entries: set<int>, upTo: int): set<int> {
    set s | s in entries && !(0 <= s <= upTo)
  }

  function Evaluated(q: Quota, z: Stored, c: Call): (Stored, bool) {
    var entries := Kept(Live(z, c.clock), c.now - q.window);
    if |entries| >= q.limit then (z.(entries := entries), false)
    else (Stored(entries + {c.now}, c.clock + 1000 * q.window), true)
  }

  datatype Response = Forwarded | TooManyRequests | InternalError

  class SortedSet {
    var entries: set<int>
    var deadline: int

    constructor ()
      ensures Value() == Stored({}, 0)
    {
      entries, deadline := {}, 0;
    }

    function Value(): Stored
      reads this
    {
      Stored(entries, deadline)
    }

    // The script; an expired key is found empty.
    method Eval(q: Quota, c: Call) returns (allowed: bool)
      modifies this
      ensures (Value(), allowed) == Evaluated(q, old(Value()), c)
    {
      if c.clock > deadline {
        entries := {};
      }
      entries := set s | s in entries && !(0 <= s <= c.now - q.window);
      if |entries| >= q.limit {
        return false;
      }
      entries := entries + {c.now};
      deadline := c.clock + 1000 * q.window;
      return true;
    }

    // The middleware.
    method Limit(c: Call, reachable: bool) returns (r: Response)
      modifies this
      ensures !reachable ==> r == InternalError && Value() == old(Value())
      ensures reachable ==> Value() == Evaluated(SHIPPED, old(Value()), c).0
      ensures reachable ==> r == if Evaluated(SHIPPED, old(Value()), c).1 then Forwarded else TooManyRequests
    {
      if !reachable {
        return InternalError;
      }
      var allowed := Eval(SHIPPED, c);
      r := if allowed then Forwarded else TooManyRequests;
    }
  }

  // ---------- runs, and the plain log they stand for ----------

  datatype Outcome = Outcome(stored: Stored, decisions: seq<bool>)

  function Run(q: Quota, calls: seq<Call>): Outcome {
    if calls == [] then Outcome(Stored({}, 0), [])
    else
      var before := Run(q, calls[..|calls| - 1]);
      var (stored, allowed) := Evaluated(q, before.stored, calls[|calls| - 1]);
      Outcome(stored, before.decisions + [allowed])
  }

  // Everything ever admitted, nothing trimmed and nothing expiring.
  datatype Log = Log(admitted: seq<int>, decisions: seq<bool>)

  function Seconds(admitted: seq<int>, after: int, upTo: int): set<int> {
    set s | s in admitted && after < s <= upTo
  }

  lemma SecondsAdd(admitted: seq<int>, now: int, after: int, upTo: int)
    ensures Seconds(admitted + [now], after, upTo)
         == Seconds(admitted, after, upTo) + if after < now <= upTo then {now} else {}
  {
  }

  function Logged(q: Quota, log: Log, now: int): Log {
    if |Seconds(log.admitted, now - q.window, now)| < q.limit
    then Log(log.admitted + [now], log.decisions + [true])
    else log.(decisions := log.decisions + [false])
  }

  function LogRun(q: Quota, calls: seq<Call>): Log {
    if calls == [] then Log([], []) else Logged(q, LogRun(q, calls[..|calls| - 1]), calls[|calls| - 1].now)
  }

  lemma LogRunAdd(q: Quota, calls: seq<Call>, c: Call)
    ensures LogRun(q, calls + [c]) == Logged(q, LogRun(q, calls), c.now)
  {
    assert (calls + [c])[..|calls|] == calls;
  }

  // Clocks do not go back, and Redis's runs at the callers' pace: `skew` apart, to the second.
  predicate Timed(calls: seq<Call>, skew: int) {
    && (forall i :: 0 <= i < |calls| ==> calls[i].now >= 0 && 0 <= calls[i].clock - skew - 1000 * calls[i].now < 1000)
    && (forall i, j :: 0 <= i <= j < |calls| ==> calls[i].now <= calls[j].now && calls[i].clock <= calls[j].clock)
  }

  // ---------- the script keeps what the log knows ----------

  // The deadline cannot pass before everything stored has left the window.
  ghost predicate Agrees(q: Quota, z: Stored, log: Log, last: Call, skew: int) {
    && z.entries == Seconds(log.admitted, last.now - q.window, last.now)
    && (forall s :: s in log.admitted ==> 0 <= s <= last.now)
    && (forall s :: s in z.entries ==> 1000 * s + skew + 1000 * q.window <= z.deadline)
  }

  lemma KeptIsWindow(q: Quota, z: Stored, log: Log, last: Call, c: Call, skew: int)
    requires q.window > 0 && Agrees(q, z, log, last, skew)
    requires last.now <= c.now && 0 <= c.clock - skew - 1000 * c.now < 1000
    ensures Kept(Live(z, c.clock), c.now - q.window) == Seconds(log.admitted, c.now - q.window, c.now)
  {
    var kept, want := Kept(Live(z, c.clock), c.now - q.window), Seconds(log.admitted, c.now - q.window, c.now);
    forall s | s in want
      ensures s in kept
    {
      assert s in z.entries;
    }
    forall s | s in kept
      ensures s in want
    {
      assert s in z.entries;
    }
  }

  lemma CallAgrees(q: Quota, z: Stored, log: Log, last: Call, c: Call, skew: int)
    requires q.window > 0 && Agrees(q, z, log, last, skew)
    requires last.now <= c.now && c.now >= 0 && 0 <= c.clock - skew - 1000 * c.now < 1000
    ensures Agrees(q, Evaluated(q, z, c).0, Logged(q, log, c.now), c, skew)
    ensures Evaluated(q, z, c).1 <==> |Seconds(log.admitted, c.now - q.window, c.now)| < q.limit
  {
    KeptIsWindow(q, z, log, last, c, skew);
    SecondsAdd(log.admitted, c.now, c.now - q.window, c.now);
    var (next, ok) := Evaluated(q, z, c);
    forall s | s in next.entries
      ensures 1000 * s + skew + 1000 * q.window <= next.deadline
    {
      if !ok {
        assert s in z.entries;
      }
    }
    hide Seconds, Kept;
  }

  lemma {:induction false} RunAgrees(q: Quota, calls: seq<Call>, skew: int)
    requires q.window > 0 && calls != [] && Timed(calls, skew)
    ensures Agrees(q, Run(q, calls).stored, LogRun(q, calls), calls[|calls| - 1], skew)
    ensures Run(q, calls).decisions == LogRun(q, calls).decisions
  {
    hide Agrees, Evaluated, Seconds;
    var front, c := calls[..|calls| - 1], calls[|calls| - 1];
    var z, log := Run(q, front).stored, LogRun(q, front);
    if front == [] {
      Fresh(q, skew);
      CallAgrees(q, z, log, Call(0, 0), c, skew);
    } else {
      RunAgrees(q, front, skew);
      CallAgrees(q, z, log, front[|front| - 1], c, skew);
    }
  }

  lemma Fresh(q: Quota, skew: int)
    ensures Agrees(q, Stored({}, 0), Log([], []), Call(0, 0), skew)
  {
  }

  /** The trimmed, expiring set answers every call as the full log would: refused exactly when the
      window holds `limit` distinct admitted seconds.  What it stores is that set of seconds. */
  lemma SetRefinesLog(q: Quota, calls: seq<Call>, skew: int)
    requires q.window > 0 && Timed(calls, skew)
    ensures Run(q, calls).decisions == LogRun(q, calls).decisions
    ensures calls != [] ==>
              var now := calls[|calls| - 1].now;
              Run(q, calls).stored.entries == Seconds(LogRun(q, calls).admitted, now - q.window, now)
  {
    if calls != [] {
      RunAgrees(q, calls, skew);
    }
  }

  // ---------- the bound ----------

  // The seconds of the calls that a run lets through.
  function Passed(calls: seq<Call>, decisions: seq<bool>): seq<int>
    requires |calls| == |decisions|
  {
    if calls == [] then []
    else
      var n := |calls| - 1;
      Passed(calls[..n], decisions[..n]) + if decisions[n] then [calls[n].now] else []
  }

  lemma {:induction false} RunLength(q: Quota, calls: seq<Call>)
    ensures |Run(q, calls).decisions| == |calls|
  {
    if calls != [] {
      RunLength(q, calls[..|calls| - 1]);
    }
  }

  // What the script admits.
  function Admitted(q: Quota, calls: seq<Call>): seq<int> {
    RunLength(q, calls);
    Passed(calls, Run(q, calls).decisions)
  }

  lemma {:induction false} LogPassed(q: Quota, calls: seq<Call>)
    ensures |LogRun(q, calls).decisions| == |calls|
    ensures LogRun(q, calls).admitted == Passed(calls, LogRun(q, calls).decisions)
  {
    if calls != [] {
      hide Seconds;
      var n := |calls| - 1;
      LogPassed(q, calls[..n]);
      assert LogRun(q, calls).decisions[..n] == LogRun(q, calls[..n]).decisions;
    }
  }

  /** The script admits what the log admits. */
  lemma AdmittedIsLogged(q: Quota, calls: seq<Call>, skew: int)
    requires q.window > 0 && Timed(calls, skew)
    ensures Admitted(q, calls) == LogRun(q, calls).admitted
  {
    hide Run, LogRun, Passed;
    SetRefinesLog(q, calls, skew);
    LogPassed(q, calls);
  }

  lemma {:induction false} AdmittedBefore(q: Quota, calls: seq<Call>, now: int)
    requires forall c :: c in calls ==> c.now <= now
    ensures forall s :: s in LogRun(q, calls).admitted ==> s <= now
  {
    if calls != [] {
      AdmittedBefore(q, calls[..|calls| - 1], now);
    }
  }

  lemma Subset(a: set<int>, b: set<int>)
    requires a <= b
    ensures |a| <= |b|
  {
    if a != b {
      assert b == a + (b - a);
    }
  }

  // Of what came up to `now`, an earlier-ending window holds all that a later one does.
  lemma WindowSlides(admitted: seq<int>, window: int, now: int, t: int)
    requires now <= t && forall s :: s in admitted ==> s <= now
    ensures |Seconds(admitted, t - window, t)| <= |Seconds(admitted, now - window, now)|
  {
    Subset(Seconds(admitted, t - window, t), Seconds(admitted, now - window, now));
  }

  lemma LoggedBounded(q: Quota, log: Log, now: int, t: int)
    requires |Seconds(log.admitted, t - q.window, t)| <= q.limit && forall s :: s in log.admitted ==> s <= now
    ensures |Seconds(Logged(q, log, now).admitted, t - q.window, t)| <= q.limit
  {
    hide Seconds;
    SecondsAdd(log.admitted, now, t - q.window, t);
    if now <= t {
      WindowSlides(log.admitted, q.window, now, t);
    }
  }

  lemma {:induction false} LogBounded(q: Quota, calls: seq<Call>, skew: int, t: int)
    requires q.limit >= 0 && q.window > 0 && Timed(calls, skew)
    ensures |Seconds(LogRun(q, calls).admitted, t - q.window, t)| <= q.limit
  {
    hide Seconds;
    if calls == [] {
      NoSeconds(t - q.window, t);
    } else {
      var front, now := calls[..|calls| - 1], calls[|calls| - 1].now;
      var log := LogRun(q, front);
      LogBounded(q, front, skew, t);
      AdmittedBefore(q, front, now);
      assert LogRun(q, calls) == Logged(q, log, now);
      hide LogRun, Logged;
      LoggedBounded(q, log, now, t);
    }
  }

  /** No window, wherever it lies, holds more than `limit` distinct admitted seconds. */
  lemma SecondsBounded(q: Quota, calls: seq<Call>, skew: int, t: int)
    requires q.limit >= 0 && q.window > 0 && Timed(calls, skew)
    ensures |Seconds(Admitted(q, calls), t - q.window, t)| <= q.limit
  {
    hide Admitted, LogRun, Seconds;
    AdmittedIsLogged(q, calls, skew);
    LogBounded(q, calls, skew, t);
  }

  lemma NoSeconds(after: int, upTo: int)
    ensures Seconds([], after, upTo) == {}
  {
  }

  // Admitted calls in (t - window, t].
  function Admissions(admitted: seq<int>, after: int, upTo: int): nat {
    if admitted == [] then 0
    else
      var s := admitted[|admitted| - 1];
      Admissions(admitted[..|admitted| - 1], after, upTo) + if after < s <= upTo then 1 else 0
  }

  lemma AdmissionsAdd(admitted: seq<int>, s: int, after: int, upTo: int)
    ensures Admissions(admitted + [s], after, upTo) == Admissions(admitted, after, upTo) + if after < s <= upTo then 1 else 0
  {
    assert (admitted + [s])[..|admitted|] == admitted;
  }

  predicate Distinct(calls: seq<Call>) {
    forall i, j :: 0 <= i < j < |calls| ==> calls[i].now < calls[j].now
  }

  predicate Increasing(admitted: seq<int>) {
    forall i, j :: 0 <= i < j < |admitted| ==> admitted[i] < admitted[j]
  }

  // Without repeated seconds, counting calls is counting seconds.
  lemma {:induction false} IncreasingAdmissions(admitted: seq<int>, after: int, upTo: int)
    requires Increasing(admitted)
    ensures Admissions(admitted, after, upTo) == |Seconds(admitted, after, upTo)|
  {
    hide Seconds;
    if admitted == [] {
      NoSeconds(after, upTo);
    } else {
      var front, now := admitted[..|admitted| - 1], admitted[|admitted| - 1];
      IncreasingAdmissions(front, after, upTo);
      NotAmong(front, now, after, upTo);
      SecondsAdd(front, now, after, upTo);
      assert front + [now] == admitted;
    }
  }

  lemma NotAmong(admitted: seq<int>, now: int, after: int, upTo: int)
    requires now !in admitted
    ensures now !in Seconds(admitted, after, upTo)
  {
  }

  lemma LoggedAdmits(q: Quota, log: Log, now: int)
    ensures Logged(q, log, now).admitted
         == log.admitted + if |Seconds(log.admitted, now - q.window, now)| < q.limit then [now] else []
  {
  }

  lemma {:induction false} DistinctIncreasing(q: Quota, calls: seq<Call>)
    requires Distinct(calls)
    ensures Increasing(LogRun(q, calls).admitted)
  {
    if calls == [] {
      NoCalls(q);
    } else {
      var front, now := calls[..|calls| - 1], calls[|calls| - 1].now;
      DistinctIncreasing(q, front);
      AdmittedBefore(q, front, now - 1);
      assert LogRun(q, calls) == Logged(q, LogRun(q, front), now);
      hide Logged, Seconds, LogRun, Increasing;
      LoggedAdmits(q, LogRun(q, front), now);
      IncreasingAdd(LogRun(q, front).admitted, now);
    }
  }

  // A limit of one admits no second twice.
  lemma {:induction false} OneIncreasing(q: Quota, calls: seq<Call>, skew: int)
    requires q.limit <= 1 && q.window > 0 && Timed(calls, skew)
    ensures Increasing(LogRun(q, calls).admitted)
  {
    if calls == [] {
      NoCalls(q);
    } else {
      var front, now := calls[..|calls| - 1], calls[|calls| - 1].now;
      OneIncreasing(q, front, skew);
      AdmittedBefore(q, front, now);
      assert LogRun(q, calls) == Logged(q, LogRun(q, front), now);
      hide Logged, Seconds, LogRun, Increasing;
      var before := LogRun(q, front).admitted;
      LoggedAdmits(q, LogRun(q, front), now);
      NoneInWindow(before, now - q.window, now);
      if LogRun(q, calls).admitted != before {
        IncreasingAdd(before, now);
      }
    }
  }

  lemma NoneInWindow(admitted: seq<int>, after: int, now: int)
    ensures |Seconds(admitted, after, now)| < 1 && after < now ==> now !in admitted
  {
    assert now in admitted && after < now ==> now in Seconds(admitted, after, now);
  }

  lemma IncreasingAdd(admitted: seq<int>, now: int)
    requires Increasing(admitted) && forall s :: s in admitted ==> s < now
    ensures Increasing(admitted + [now])
  {
    var all := admitted + [now];
    forall i, j | 0 <= i < j < |all|
      ensures all[i] < all[j]
    {
      assert all[i] in admitted;
    }
  }

  // The calls of a run admitted in the window that ends at t.
  function InWindow(q: Quota, calls: seq<Call>, t: int): nat {
    Admissions(Admitted(q, calls), t - q.window, t)
  }

  /** The intended limit: calls at distinct seconds never number more than `limit` in any window. */
  lemma RequestsBounded(q: Quota, calls: seq<Call>, skew: int, t: int)
    requires q.limit >= 0 && q.window > 0 && Timed(calls, skew) && Distinct(calls)
    ensures InWindow(q, calls, t) <= q.limit
  {
    hide Admitted, LogRun, Seconds;
    AdmittedIsLogged(q, calls, skew);
    DistinctIncreasing(q, calls);
    IncreasingAdmissions(LogRun(q, calls).admitted, t - q.window, t);
    LogBounded(q, calls, skew, t);
  }

  function Repeat(c: Call, n: nat): seq<Call> {
    if n == 0 then [] else Repeat(c, n - 1) + [c]
  }

  lemma OneSecond(admitted: seq<int>, now: int, after: int)
    requires forall s :: s in admitted ==> s == now
    ensures |Seconds(admitted, after, now)| <= 1
  {
    Subset(Seconds(admitted, after, now), {now});
  }

  ghost predicate Piled(q: Quota, log: Log, now: int, n: nat) {
    && Admissions(log.admitted, now - q.window, now) == n
    && forall s :: s in log.admitted ==> s == now
  }

  lemma NonePiled(q: Quota, now: int)
    ensures Piled(q, Log([], []), now, 0)
  {
  }

  lemma OneMorePiled(q: Quota, log: Log, now: int, n: nat)
    requires q.limit >= 2 && q.window > 0 && Piled(q, log, now, n)
    ensures Piled(q, Logged(q, log, now), now, n + 1)
  {
    hide Admissions, Seconds;
    OneSecond(log.admitted, now, now - q.window);
    AdmissionsAdd(log.admitted, now, now - q.window, now);
  }

  lemma {:induction false} AllPiled(q: Quota, c: Call, n: nat)
    requires q.limit >= 2 && q.window > 0
    ensures Piled(q, LogRun(q, Repeat(c, n)), c.now, n)
  {
    hide Piled, Logged, LogRun;
    if n == 0 {
      NoCalls(q);
      NonePiled(q, c.now);
    } else {
      AllPiled(q, c, n - 1);
      LogRunAdd(q, Repeat(c, n - 1), c);
      OneMorePiled(q, LogRun(q, Repeat(c, n - 1)), c.now, n - 1);
    }
  }

  lemma {:induction false} RepeatCalls(c: Call, n: nat)
    ensures |Repeat(c, n)| == n && forall i :: 0 <= i < n ==> Repeat(c, n)[i] == c
  {
    if n > 0 {
      RepeatCalls(c, n - 1);
    }
  }

  /** Without that hypothesis there is no bound: any number of calls in one second share one entry. */
  lemma SameSecondFree(q: Quota, c: Call, n: nat)
    requires q.limit >= 2 && q.window > 0 && c.now >= 0
    ensures Timed(Repeat(c, n), c.clock - 1000 * c.now)
    ensures InWindow(q, Repeat(c, n), c.now) == n
  {
    hide LogRun, Repeat, Admissions, Admitted;
    RepeatCalls(c, n);
    AdmittedIsLogged(q, Repeat(c, n), c.clock - 1000 * c.now);
    AllPiled(q, c, n);
  }

  // The limit holds for the calls of every run, in every window.
  ghost predicate Limits(q: Quota) {
    forall calls, skew, t :: Timed(calls, skew) ==> InWindow(q, calls, t) <= q.limit
  }

  /** A quota limits requests, and not only seconds, exactly if its limit is 0 or 1. */
  lemma LimitsExactly(q: Quota)
    requires q.limit >= 0 && q.window > 0
    ensures Limits(q) <==> q.limit <= 1
  {
    hide LogRun, Repeat, Admissions, Admitted, Timed, Seconds;
    if q.limit <= 1 {
      forall calls, skew, t | Timed(calls, skew)
        ensures InWindow(q, calls, t) <= q.limit
      {
        AdmittedIsLogged(q, calls, skew);
        OneIncreasing(q, calls, skew);
        IncreasingAdmissions(LogRun(q, calls).admitted, t - q.window, t);
        LogBounded(q, calls, skew, t);
      }
    } else {
      var c := Call(0, 0);
      SameSecondFree(q, c, q.limit + 1);
      assert Timed(Repeat(c, q.limit + 1), 0);
      assert InWindow(q, Repeat(c, q.limit + 1), 0) == q.limit + 1;
    }
  }

  // ---------- when nothing is refused ----------

  lemma {:induction false} IntervalSize(s: set<int>, after: int, upTo: int)
    requires after <= upTo && forall x :: x in s ==> after < x <= upTo
    ensures |s| <= upTo - after
    decreases upTo - after
  {
    if after == upTo {
      assert forall x :: x in s ==> false;
    } else {
      IntervalSize(s - {upTo}, after, upTo - 1);
    }
  }

  lemma {:induction false} NeverRefused(q: Quota, calls: seq<Call>)
    requires q.window >= 0 && q.limit > q.window
    ensures forall d :: d in LogRun(q, calls).decisions ==> d
  {
    if calls != [] {
      var front, now := calls[..|calls| - 1], calls[|calls| - 1].now;
      NeverRefused(q, front);
      IntervalSize(Seconds(LogRun(q, front).admitted, now - q.window, now), now - q.window, now);
    }
  }

  // One call in each of the seconds 1 to n.
  function EachSecond(n: nat): seq<Call> {
    if n == 0 then [] else EachSecond(n - 1) + [Call(n, 1000 * n)]
  }

  lemma {:induction false} EachSecondShape(n: nat)
    ensures |EachSecond(n)| == n && forall i :: 0 <= i < n ==> EachSecond(n)[i] == Call(i + 1, 1000 * (i + 1))
  {
    if n > 0 {
      EachSecondShape(n - 1);
    }
  }

  function UpTo(n: nat): set<int> {
    if n == 0 then {} else UpTo(n - 1) + {n}
  }

  lemma {:induction false} UpToSize(n: nat)
    ensures |UpTo(n)| == n && forall s :: s in UpTo(n) <==> 1 <= s <= n
  {
    if n > 0 {
      UpToSize(n - 1);
    }
  }

  lemma {:induction false} Fills(q: Quota, n: nat)
    requires n <= q.limit <= q.window
    ensures Seconds(LogRun(q, EachSecond(n)).admitted, 0, n) == UpTo(n)
    ensures forall s :: s in LogRun(q, EachSecond(n)).admitted ==> 1 <= s <= n
  {
    hide Seconds, LogRun;
    if n == 0 {
      NoSeconds(0, 0);
      NoCalls(q);
    } else {
      Fills(q, n - 1);
      var log := LogRun(q, EachSecond(n - 1));
      LogRunAdd(q, EachSecond(n - 1), Call(n, 1000 * n));
      hide EachSecond;
      UpToSize(n - 1);
      SameWindow(log.admitted, n - q.window, n, 0, n - 1, n - 1);
      SameWindow(log.admitted, 0, n, 0, n - 1, n - 1);
      SecondsAdd(log.admitted, n, 0, n);
    }
  }

  lemma NoCalls(q: Quota)
    ensures LogRun(q, []) == Log([], [])
  {
  }

  // Bounds beyond everything admitted make no difference.
  lemma SameWindow(admitted: seq<int>, after: int, upTo: int, after': int, upTo': int, n: int)
    requires forall s :: s in admitted ==> 1 <= s <= n
    requires after <= 0 && after' <= 0 && n <= upTo && n <= upTo'
    ensures Seconds(admitted, after, upTo) == Seconds(admitted, after', upTo')
  {
  }

  lemma FirstRefusal(q: Quota)
    requires 0 <= q.limit <= q.window && q.window > 0
    ensures var calls := EachSecond(q.limit) + [Call(q.limit, 1000 * q.limit)];
            Timed(calls, 0) && false in LogRun(q, calls).decisions
  {
    hide Seconds, LogRun, EachSecond;
    var c := Call(q.limit, 1000 * q.limit);
    EachSecondShape(q.limit);
    Fills(q, q.limit);
    UpToSize(q.limit);
    var log := LogRun(q, EachSecond(q.limit));
    LogRunAdd(q, EachSecond(q.limit), c);
    SameWindow(log.admitted, q.limit - q.window, q.limit, 0, q.limit, q.limit);
    var all := log.decisions + [false];
    assert all[|log.decisions|] == false;
  }

  /** Some run is refused exactly if the limit does not exceed the window's seconds. */
  lemma RefusesSometimes(q: Quota)
    requires q.window > 0 && q.limit >= 0
    ensures (exists calls :: Timed(calls, 0) && false in Run(q, calls).decisions) <==> q.limit <= q.window
  {
    if q.limit <= q.window {
      FirstRefusal(q);
      var calls := EachSecond(q.limit) + [Call(q.limit, 1000 * q.limit)];
      SetRefinesLog(q, calls, 0);
      assert Timed(calls, 0) && false in Run(q, calls).decisions;
    } else {
      forall calls | Timed(calls, 0)
        ensures false !in Run(q, calls).decisions
      {
        NeverRefused(q, calls);
        SetRefinesLog(q, calls, 0);
      }
    }
  }

  /** The shipped quota of 1000 in 60 seconds never refuses a call. */
  lemma ShippedNeverRefuses(calls: seq<Call>, skew: int)
    requires Timed(calls, skew)
    ensures false !in Run(SHIPPED, calls).decisions
  {
    NeverRefused(SHIPPED, calls);
    SetRefinesLog(SHIPPED, calls, skew);
  }

  // ---------- the numbers ----------

  /** An admitted call leaves the key to expire `window` seconds later; a refused one leaves the deadline. */
  lemma Expiry(q: Quota, z: Stored, c: Call)
    ensures Evaluated(q, z, c).1 ==> Evaluated(q, z, c).0.deadline == c.clock + 1000 * q.window
    ensures !Evaluated(q, z, c).1 ==> Evaluated(q, z, c).0.deadline == z.deadline
    ensures SHIPPED.window == 60 && SHIPPED.limit == 1000
  {
  }
}
