/** The circuit breaker in front of the replica, shared by concurrent callers.  Each locked section
    of the code is one atomic step; a caller can be overtaken between its own sections. */
module Breaker {
  datatype BreakerState = Closed | Open | HalfOpen

  datatype Breaker = Breaker(state: BreakerState, failureCount: int, lastStateLog: int)

  datatype Settings = Settings(threshold: int, cooldown: int)

  const INITIAL := Breaker(Closed, 0, 0)

  // ---------- the locked sections ----------

  // The section of CanExecute under the write lock; `later` is its second clock reading.
  function Entered(cfg: Settings, b: Breaker, now: int, later: int): (Breaker, bool) {
    if b.state == Open then
      if now - b.lastStateLog > cfg.cooldown then (b.(state := HalfOpen, lastStateLog := later), true) else (b, false)
    else (b, true)
  }

  function Failed(cfg: Settings, b: Breaker, now: int): Breaker {
    var failures := b.failureCount + 1;
    if b.state == HalfOpen || failures >= cfg.threshold then Breaker(Open, failures, now) else b.(failureCount := failures)
  }

  function Succeeded(b: Breaker): Breaker {
    b.(state := Closed, failureCount := 0)
  }

  // Peek is the section of CanExecute under the read lock; Quit is a caller that ends unrecorded.
  datatype Section =
    | Peek(caller: nat)
    | Enter(caller: nat, now: int, later: int)
    | Fail(caller: nat, now: int)
    | Succeed(caller: nat)
    | Quit(caller: nat)

  function Apply(cfg: Settings, b: Breaker, s: Section): Breaker {
    match s
    case Enter(_, now, later) => Entered(cfg, b, now, later).0
    case Fail(_, now) => Failed(cfg, b, now)
    case Succeed(_) => Succeeded(b)
    case _ => b
  }

  function ApplyAll(cfg: Settings, b: Breaker, run: seq<Section>): Breaker {
    if run == [] then b else Apply(cfg, ApplyAll(cfg, b, run[..|run| - 1]), run[|run| - 1])
  }

  function After(cfg: Settings, run: seq<Section>): Breaker {
    ApplyAll(cfg, INITIAL, run)
  }

  // ---------- the breaker object and a retried query ----------

  // What one attempt of the query meets: success, an error and a full backoff, or an error and the
  // end of the request's context before the backoff is over.
  datatype Attempt = Success | Error | Cancelled

  datatype QueryResult = Answer | OperationError | ContextError | BreakerError

  const RETRIES := 3
  const BACKOFF := 100

  function Doubled(k: nat): nat {
    if k == 0 then 1 else 2 * Doubled(k - 1)
  }

  class CircuitBreaker {
    var state: BreakerState
    var failureCount: int
    var lastStateLog: int
    const cfg: Settings

    constructor (cfg: Settings)
      ensures Value() == INITIAL && this.cfg == cfg
    {
      this.cfg := cfg;
      state, failureCount, lastStateLog := Closed, 0, 0;
    }

    function Value(): Breaker
      reads this
    {
      Breaker(state, failureCount, lastStateLog)
    }

    // Sections of other callers.
    method Others(run: seq<Section>)
      modifies this
      ensures Value() == ApplyAll(cfg, old(Value()), run)
    {
      var b := ApplyAll(cfg, Value(), run);
      state, failureCount, lastStateLog := b.state, b.failureCount, b.lastStateLog;
    }

    // `others` run between the read-locked and the write-locked section.
    method CanExecute(others: seq<Section>, now: int, later: int) returns (ok: bool)
      modifies this
      ensures old(state) == Closed ==> ok && Value() == old(Value())
      ensures old(state) != Closed ==>
                (Value(), ok) == Entered(cfg, ApplyAll(cfg, old(Value()), others), now, later)
    {
      if state == Closed {
        return true;
      }
      Others(others);
      if state == Open {
        if now - lastStateLog > cfg.cooldown {
          state := HalfOpen;
          lastStateLog := later;
          return true;
        }
        return false;
      }
      return true;
    }

    method RecordFailure(now: int)
      modifies this
      ensures Value() == Failed(cfg, old(Value()), now)
    {
      failureCount := failureCount + 1;
      if state == HalfOpen || failureCount >= cfg.threshold {
        state := Open;
        lastStateLog := now;
      }
    }

    method RecordSuccess()
      modifies this
      ensures Value() == Succeeded(old(Value()))
    {
      state := Closed;
      failureCount := 0;
    }

    // The retry loop.  plan[i] is what attempt i meets, `early` and `during` the sections of other
    // callers inside CanExecute and while this caller is busy; `waited` is in milliseconds.
    method RetryQuery(plan: seq<Attempt>, early: seq<Section>, during: seq<Section>, now: int, later: int, end: int)
      returns (result: QueryResult, admitted: bool, runs: nat, waited: nat)
      requires |plan| == RETRIES
      modifies this
      ensures admitted == (old(state) == Closed
                           || Entered(cfg, ApplyAll(cfg, old(Value()), early), now, later).1)
      ensures !admitted ==> runs == 1 && waited == 0
                            && result == (if plan[0] == Success then Answer else OperationError)
                            && Value() == ApplyAll(cfg, old(Value()), early)
      ensures admitted ==> 1 <= runs <= RETRIES && forall i :: 0 <= i < runs - 1 ==> plan[i] == Error
      ensures admitted ==>
                var entered := if old(state) == Closed then old(Value())
                               else Entered(cfg, ApplyAll(cfg, old(Value()), early), now, later).0;
                var busy := ApplyAll(cfg, entered, during);
                match plan[runs - 1]
                case Success => result == Answer && Value() == Succeeded(busy)
                case Cancelled => result == ContextError && Value() == busy
                case Error => runs == RETRIES && result == BreakerError && Value() == Failed(cfg, busy, end)
      ensures admitted ==> waited == BACKOFF * (Doubled(if result == BreakerError then runs else runs - 1) - 1)
    {
      admitted := CanExecute(early, now, later);
      if !admitted {
        return if plan[0] == Success then Answer else OperationError, false, 1, 0;
      }
      Others(during);
      ghost var busy := Value();
      var backoff := BACKOFF;
      waited := 0;
      for i := 0 to RETRIES
        invariant forall j :: 0 <= j < i ==> plan[j] == Error
        invariant backoff == BACKOFF * Doubled(i) && waited == backoff - BACKOFF
        invariant Value() == busy
      {
        runs := i + 1;
        if plan[i] == Success {
          RecordSuccess();
          return Answer, true, runs, waited;
        }
        if plan[i] == Cancelled {
          return ContextError, true, runs, waited;
        }
        waited := waited + backoff;
        backoff := backoff * 2;
      }
      RecordFailure(end);
      return BreakerError, true, RETRIES, waited;
    }
  }

  // ---------- the state is decided by the history ----------

  function Failures(run: seq<Section>): nat {
    if run == [] then 0
    else
      match run[|run| - 1]
      case Fail(_, _) => Failures(run[..|run| - 1]) + 1
      case Succeed(_) => 0
      case _ => Failures(run[..|run| - 1])
  }

  // The clock at the latest recorded failure.
  function LastFailure(run: seq<Section>): int {
    if run == [] then 0
    else
      match run[|run| - 1]
      case Fail(_, now) => now
      case _ => LastFailure(run[..|run| - 1])
  }

  // Some caller has entered, since the latest outcome, more than the cooldown after that failure.
  predicate Rested(cfg: Settings, run: seq<Section>) {
    if run == [] then false
    else
      match run[|run| - 1]
      case Enter(_, now, _) => Rested(cfg, run[..|run| - 1]) || now - LastFailure(run) > cfg.cooldown
      case Fail(_, _) => false
      case Succeed(_) => false
      case _ => Rested(cfg, run[..|run| - 1])
  }

  /** In every interleaving the count is the failures since the last success, the breaker is closed
      exactly below the threshold, and otherwise half-open exactly when someone entered late enough. */
  lemma {:induction false} HistoryDecides(cfg: Settings, run: seq<Section>)
    requires cfg.threshold >= 1
    ensures After(cfg, run).failureCount == Failures(run)
    ensures After(cfg, run).state == Closed <==> Failures(run) < cfg.threshold
    ensures After(cfg, run).state == HalfOpen <==> Failures(run) >= cfg.threshold && Rested(cfg, run)
    ensures After(cfg, run).state == Open ==> After(cfg, run).lastStateLog == LastFailure(run)
  {
    if run != [] {
      HistoryDecides(cfg, run[..|run| - 1]);
    }
  }

  // ---------- who is let through ----------

  // One clock for all callers, read under the lock.
  predicate Clocked(run: seq<Section>, now: int) {
    if run == [] then true
    else
      match run[|run| - 1]
      case Enter(_, t, later) => t <= later <= now && Clocked(run[..|run| - 1], t)
      case Fail(_, t) => t <= now && Clocked(run[..|run| - 1], t)
      case _ => Clocked(run[..|run| - 1], now)
  }

  lemma {:induction false} RestedLater(cfg: Settings, run: seq<Section>, now: int)
    requires Clocked(run, now) && Rested(cfg, run)
    ensures now - LastFailure(run) > cfg.cooldown
  {
    var front, last := run[..|run| - 1], run[|run| - 1];
    match last
    case Enter(_, t, _) =>
      if Rested(cfg, front) {
        RestedLater(cfg, front, t);
      }
    case Peek(_) => RestedLater(cfg, front, now);
    case Quit(_) => RestedLater(cfg, front, now);
  }

  /** The breaker without its state: whatever callers did before, a caller entering at `now` is let
      through exactly if fewer than `threshold` failures followed the last success or the latest
      failure is more than the cooldown ago. */
  lemma AdmissionRule(cfg: Settings, run: seq<Section>, now: int, later: int)
    requires cfg.threshold >= 1 && Clocked(run, now)
    ensures Entered(cfg, After(cfg, run), now, later).1
        <==> Failures(run) < cfg.threshold || now - LastFailure(run) > cfg.cooldown
  {
    HistoryDecides(cfg, run);
    if Rested(cfg, run) {
      RestedLater(cfg, run, now);
    }
  }

  // A breaker that trips stays shut for the cooldown unless someone records a success.
  lemma {:induction false} StaysOpen(cfg: Settings, run: seq<Section>, more: seq<Section>, now: int, later: int)
    requires cfg.threshold >= 1 && Failures(run) >= cfg.threshold
    requires forall s :: s in more ==> !s.Succeed?
    requires Clocked(run + more, now) && now <= LastFailure(run) + cfg.cooldown
    ensures !Entered(cfg, After(cfg, run + more), now, later).1
    ensures Failures(run + more) >= cfg.threshold && LastFailure(run + more) >= LastFailure(run)
  {
    AdmissionRule(cfg, run + more, now, later);
    if more == [] {
      assert run + more == run;
    } else {
      var last := more[|more| - 1];
      assert (run + more)[..|run + more| - 1] == run + more[..|more| - 1];
      match last
      case Enter(_, t, _) => StaysOpen(cfg, run, more[..|more| - 1], t, t);
      case Fail(_, t) =>
        FailureClocked(run, more[..|more| - 1], t);
        StaysOpen(cfg, run, more[..|more| - 1], t, t);
      case Peek(_) => StaysOpen(cfg, run, more[..|more| - 1], now, later);
      case Quit(_) => StaysOpen(cfg, run, more[..|more| - 1], now, later);
    }
  }

  lemma {:induction false} FailureClocked(run: seq<Section>, more: seq<Section>, now: int)
    requires Clocked(run + more, now) && Failures(run) > 0
    ensures LastFailure(run) <= now
  {
    if more == [] {
      assert run + more == run;
      LastClocked(run, now);
    } else {
      var all := run + more;
      assert all[..|all| - 1] == run + more[..|more| - 1];
      var time := match all[|all| - 1] case Enter(_, t, _) => t case Fail(_, t) => t case _ => now;
      FailureClocked(run, more[..|more| - 1], time);
    }
  }

  lemma {:induction false} LastClocked(run: seq<Section>, now: int)
    requires Clocked(run, now) && Failures(run) > 0
    ensures LastFailure(run) <= now
  {
    var last := run[|run| - 1];
    if !last.Fail? {
      LastClocked(run[..|run| - 1], if last.Enter? then last.now else now);
    }
  }

  // ---------- the two sections of CanExecute refine one atomic call ----------

  datatype Call = CanExecute(caller: nat, now: int, later: int) | Failure(caller: nat, now: int) | Reset(caller: nat)

  datatype Reply = Reply(caller: nat, allowed: bool)

  datatype Served = Served(breaker: Breaker, replies: seq<Reply>)

  // CanExecute under a single lock.
  function Atomic(cfg: Settings, v: Served, c: Call): Served {
    match c
    case CanExecute(caller, now, later) =>
      var (b, ok) := if v.breaker.state == Closed then (v.breaker, true) else Entered(cfg, v.breaker, now, later);
      Served(b, v.replies + [Reply(caller, ok)])
    case Failure(_, now) => v.(breaker := Failed(cfg, v.breaker, now))
    case Reset(_) => v.(breaker := Succeeded(v.breaker))
  }

  function AtomicRun(cfg: Settings, calls: seq<Call>): Served {
    if calls == [] then Served(INITIAL, []) else Atomic(cfg, AtomicRun(cfg, calls[..|calls| - 1]), calls[|calls| - 1])
  }

  // What a caller of the real, two-section CanExecute is told at the section that decides its call.
  function Told(cfg: Settings, b: Breaker, s: Section): seq<Reply> {
    match s
    case Peek(c) => if b.state == Closed then [Reply(c, true)] else []
    case Enter(c, now, later) => [Reply(c, Entered(cfg, b, now, later).1)]
    case _ => []
  }

  function Replies(cfg: Settings, run: seq<Section>): seq<Reply> {
    if run == [] then []
    else
      var front := run[..|run| - 1];
      Replies(cfg, front) + Told(cfg, After(cfg, front), run[|run| - 1])
  }

  // Each call moved to the section that decides it.
  function Moved(b: Breaker, s: Section): seq<Call> {
    match s
    case Peek(c) => if b.state == Closed then [CanExecute(c, 0, 0)] else []
    case Enter(c, now, later) => [CanExecute(c, now, later)]
    case Fail(c, now) => [Failure(c, now)]
    case Succeed(c) => [Reset(c)]
    case Quit(_) => []
  }

  function Linearised(cfg: Settings, run: seq<Section>): seq<Call> {
    if run == [] then []
    else
      var front := run[..|run| - 1];
      Linearised(cfg, front) + Moved(After(cfg, front), run[|run| - 1])
  }

  lemma SectionIsCall(cfg: Settings, v: Served, s: Section)
    ensures var calls := Moved(v.breaker, s);
            var next := Served(Apply(cfg, v.breaker, s), v.replies + Told(cfg, v.breaker, s));
            |calls| <= 1 && next == if calls == [] then v else Atomic(cfg, v, calls[0])
  {
    var next := Served(Apply(cfg, v.breaker, s), v.replies + Told(cfg, v.breaker, s));
    if Moved(v.breaker, s) == [] {
      assert next.replies == v.replies;
    }
  }

  /** The double-checked lock is invisible: the breaker and every reply are those of the run in
      which each CanExecute is one atomic step. */
  lemma {:induction false} TwoSectionsRefineOne(cfg: Settings, run: seq<Section>)
    ensures AtomicRun(cfg, Linearised(cfg, run)) == Served(After(cfg, run), Replies(cfg, run))
  {
    if run != [] {
      hide Moved, Told, Atomic, Apply;
      var front, last := run[..|run| - 1], run[|run| - 1];
      var v := Served(After(cfg, front), Replies(cfg, front));
      TwoSectionsRefineOne(cfg, front);
      SectionIsCall(cfg, v, last);
      var before, all, calls := Linearised(cfg, front), Linearised(cfg, run), Moved(v.breaker, last);
      if calls == [] {
        assert all == before;
      } else {
        assert calls == [calls[0]];
        assert all == before + [calls[0]];
        assert all[..|all| - 1] == before;
      }
    }
  }

  // ---------- callers ----------

  datatype Place = Outside | Waiting | Inside | Refused

  // Where a caller stands after a run.
  function Where(cfg: Settings, run: seq<Section>, c: nat): Place {
    if run == [] then Outside
    else
      var front, last := run[..|run| - 1], run[|run| - 1];
      if last.caller != c then Where(cfg, front, c)
      else
        match last
        case Peek(_) => if After(cfg, front).state == Closed then Inside else Waiting
        case Enter(_, now, later) => if Entered(cfg, After(cfg, front), now, later).1 then Inside else Refused
        case _ => Outside
  }

  // Every caller follows RetryQuery: peek, enter if not closed, record only if let through.
  predicate Follows(cfg: Settings, run: seq<Section>) {
    if run == [] then true
    else
      var front, last := run[..|run| - 1], run[|run| - 1];
      var place := Where(cfg, front, last.caller);
      Follows(cfg, front) &&
      match last
      case Peek(_) => place == Outside
      case Enter(_, _, _) => place == Waiting
      case Quit(_) => place == Inside || place == Refused
      case _ => place == Inside
  }

  function Peeks(run: seq<Section>, c: nat): nat {
    if run == [] then 0 else Peeks(run[..|run| - 1], c) + if run[|run| - 1] == Peek(c) then 1 else 0
  }

  function Outcomes(run: seq<Section>, c: nat): nat {
    if run == [] then 0
    else
      var last := run[|run| - 1];
      Outcomes(run[..|run| - 1], c) + if (last.Fail? || last.Succeed?) && last.caller == c then 1 else 0
  }

  function Count(replies: seq<Reply>, r: Reply): nat {
    if replies == [] then 0
    else Count(replies[..|replies| - 1], r) + if replies[|replies| - 1] == r then 1 else 0
  }

  lemma {:induction false} CountOne(replies: seq<Reply>, x: Reply, r: Reply)
    ensures Count(replies + [x], r) == Count(replies, r) + if x == r then 1 else 0
  {
    assert (replies + [x])[..|replies|] == replies;
  }

  /** Every call is answered exactly once, or is still between its sections; and no caller records
      more outcomes than it was let through. */
  lemma {:induction false} CallsAnswered(cfg: Settings, run: seq<Section>, c: nat)
    requires Follows(cfg, run)
    ensures Peeks(run, c) == Count(Replies(cfg, run), Reply(c, true)) + Count(Replies(cfg, run), Reply(c, false))
                             + if Where(cfg, run, c) == Waiting then 1 else 0
    ensures Outcomes(run, c) + (if Where(cfg, run, c) == Inside then 1 else 0) <= Count(Replies(cfg, run), Reply(c, true))
  {
    if run != [] {
      var front, last := run[..|run| - 1], run[|run| - 1];
      CallsAnswered(cfg, front, c);
      var before, all := Replies(cfg, front), Replies(cfg, run);
      if |all| == |before| {
        assert all == before;
      } else {
        var x := all[|before|];
        assert all == before + [x];
        CountOne(before, x, Reply(c, true));
        CountOne(before, x, Reply(c, false));
      }
    }
  }

  // ---------- the numbers ----------

  /** The backoffs before the second and third attempt and after the third: 100, 200 and 400 ms. */
  lemma Backoffs()
    ensures RETRIES == 3
    ensures BACKOFF * (Doubled(0) - 1) == 0 && BACKOFF * (Doubled(1) - 1) == 100
    ensures BACKOFF * (Doubled(2) - 1) == 300 && BACKOFF * (Doubled(3) - 1) == 700
  {
  }
}
