/** Deadlock freedom and progress: the waits-for relation never has a cycle, some unfinished
    transaction can always take its own next step, and a measure bounds the steps that remain. */
module Progress {
  import opened Wrappers
  import opened Ledger
  import opened Isolation

  // ---------- waiting ----------

  // The row lock that the transaction's next statement needs, if any.
  function Wants(tx: Tx): Option<Row> {
    match (tx.program, tx.phase)
    case (Charge(user, _, _), Open) => Some(UserRow(user))
    case (Refund(payment), Open) => Some(PaymentRow(payment))
    case (Refund(_), PaymentRead(record)) => if Refundable(record) then Some(UserRow(record.user)) else None
    case _ => None
  }

  ghost predicate WaitsFor(s: State, t: nat, u: nat) {
    && t < |s.txs| && t != u && Wants(s.txs[t]).Some?
    && Wants(s.txs[t]).value in s.locks && s.locks[Wants(s.txs[t]).value] == u
  }

  // Refunds lock payments before users; charges lock users only; workers skip locked rows.
  function Rank(tx: Tx): nat {
    match Wants(tx)
    case Some(PaymentRow(_)) => 2
    case Some(_) => 1
    case None => 0
  }

  lemma WaitingDescends(s: State, t: nat, u: nat)
    requires Inv(s) && WaitsFor(s, t, u)
    ensures u < |s.txs| && s.txs[u].Live() && Rank(s.txs[u]) < Rank(s.txs[t])
  {
    assert MayHold(s.txs[u], Wants(s.txs[t]).value);
    assert TxInv(s, u);
  }

  lemma {:induction false} ChainDescends(s: State, chain: seq<nat>)
    requires Inv(s) && |chain| >= 2
    requires forall i :: 0 <= i < |chain| - 1 ==> WaitsFor(s, chain[i], chain[i + 1])
    ensures chain[0] < |s.txs| && chain[|chain| - 1] < |s.txs|
    ensures Rank(s.txs[chain[|chain| - 1]]) + |chain| - 1 <= Rank(s.txs[chain[0]])
  {
    var n := |chain| - 1;
    WaitingDescends(s, chain[n - 1], chain[n]);
    if n >= 2 {
      var front := chain[..n];
      assert forall i :: 0 <= i < n ==> front[i] == chain[i];
      ChainDescends(s, front);
    }
  }

  /** Deadlock freedom: in no reachable state do transactions wait for each other in a circle;
      a chain of waiting transactions has at most three members. */
  lemma NoDeadlock(db: Db, steps: seq<Step>, chain: seq<nat>)
    requires Sound(db) && Run(Init(db), steps).Some? && |chain| >= 2
    requires forall i :: 0 <= i < |chain| - 1 ==> WaitsFor(Run(Init(db), steps).value, chain[i], chain[i + 1])
    ensures chain[0] != chain[|chain| - 1] && |chain| <= 3
  {
    InitInv(db);
    RunKept(Init(db), steps);
    ChainDescends(Run(Init(db), steps).value, chain);
  }

  // ---------- the next step of a program ----------

  // What the program itself does next; it rolls back only after a refusal.
  ghost predicate Willed(s: State, step: Step) {
    && !step.Begin? && step.t < |s.txs|
    && (step.Rollback? ==> s.txs[step.t].phase.Refused?)
  }

  lemma {:induction false} AboveAll(ids: set<Id>) returns (bound: Id)
    ensures forall id :: id in ids ==> id < bound
    decreases ids
  {
    bound := 0;
    if ids != {} {
      var some :| some in ids;
      var rest := AboveAll(ids - {some});
      bound := if some < rest then rest else some + 1;
      assert forall id :: id in ids ==> id == some || id in ids - {some};
    }
  }

  lemma {:induction false} Oldest(s: State, ids: set<Id>) returns (id: Id)
    requires ids != {} && forall i :: i in ids ==> i in s.db.outbox
    ensures id in ids && forall i :: i in ids ==> s.db.outbox[id].createdAt <= s.db.outbox[i].createdAt
    decreases ids
  {
    id :| id in ids;
    if ids != {id} {
      var other := Oldest(s, ids - {id});
      if s.db.outbox[other].createdAt < s.db.outbox[id].createdAt {
        id := other;
      }
    }
  }

  // The n oldest rows of a set, oldest first.
  ghost predicate OldestRows(s: State, ids: set<Id>, n: nat, rows: seq<Id>)
    requires forall i :: i in ids ==> i in s.db.outbox
  {
    && |rows| <= n
    && (forall i :: 0 <= i < |rows| ==> rows[i] in ids)
    && (forall i, j :: 0 <= i < j < |rows| ==> rows[i] != rows[j])
    && (forall i, j :: 0 <= i < j < |rows| ==> s.db.outbox[rows[i]].createdAt <= s.db.outbox[rows[j]].createdAt)
    && (forall id :: id in ids && id !in rows ==>
          |rows| == n && forall i :: 0 <= i < |rows| ==> s.db.outbox[rows[i]].createdAt <= s.db.outbox[id].createdAt)
  }

  lemma {:induction false} PickOldest(s: State, ids: set<Id>, n: nat) returns (rows: seq<Id>)
    requires forall i :: i in ids ==> i in s.db.outbox
    ensures OldestRows(s, ids, n, rows)
    decreases n
  {
    rows := [];
    if n > 0 && ids != {} {
      var first := Oldest(s, ids);
      var rest := PickOldest(s, ids - {first}, n - 1);
      rows := [first] + rest;
      forall id | id in ids && id !in rows
        ensures |rows| == n && forall i :: 0 <= i < |rows| ==> s.db.outbox[rows[i]].createdAt <= s.db.outbox[id].createdAt
      {
        assert id != rows[0] && forall r :: r in rest ==> r in rows;
      }
    }
  }

  lemma SomeBatch(s: State) returns (rows: seq<Id>)
    ensures IsBatch(s, rows, {})
  {
    var open := set id | id in s.db.outbox && Claimable(s, id);
    rows := PickOldest(s, open, BATCH_LIMIT);
  }

  lemma ChargeSteps(s: State, t: nat) returns (step: Step)
    requires t < |s.txs| && TxInv(s, t) && s.txs[t].Live() && s.txs[t].program.Charge? && forall u :: !WaitsFor(s, t, u)
    ensures Willed(s, step) && step.t == t && Next(s, step).Some?
  {
    var unused := AboveAll(s.issued.Keys);
    match s.txs[t].phase
    case Open =>
      step := SelectUser(t);
      assert UserRow(s.txs[t].program.user) in s.locks ==> !WaitsFor(s, t, s.locks[UserRow(s.txs[t].program.user)]);
    case UserRead(_) => step := DebitUser(t);
    case Debited => step := InsertPayment(t, unused);
    case PaymentInserted(_) => step := InsertEvent(t, unused);
    case EventStaged(_, _) => step := Commit(t);
    case Refused => step := Rollback(t);
  }

  lemma RefundSteps(s: State, t: nat) returns (step: Step)
    requires t < |s.txs| && TxInv(s, t) && s.txs[t].Live() && s.txs[t].program.Refund? && forall u :: !WaitsFor(s, t, u)
    ensures Willed(s, step) && step.t == t && Next(s, step).Some?
  {
    assert Wants(s.txs[t]).Some? && Wants(s.txs[t]).value in s.locks ==> !WaitsFor(s, t, s.locks[Wants(s.txs[t]).value]);
    match s.txs[t].phase
    case Open => step := SelectPayment(t);
    case PaymentRead(_) => step := CreditUser(t);
    case Credited(_) => step := MarkRefunded(t);
    case MarkedRefunded(_) => step := Commit(t);
    case Refused => step := Rollback(t);
  }

  lemma DispatchSteps(s: State, t: nat) returns (step: Step)
    requires t < |s.txs| && TxInv(s, t) && s.txs[t].Live() && s.txs[t].program.Dispatch?
    ensures Willed(s, step) && step.t == t && Next(s, step).Some?
  {
    match s.txs[t].phase
    case Open =>
      var rows := SomeBatch(s);
      step := ClaimBatch(t, rows, Scan({}, {}));
    case Working(todo, _) => step := if todo == [] then Commit(t) else Enqueue(t, todo[0], true);
    case Sent(_, _, _) => step := WriteStatus(t);
    case Refused => step := Rollback(t);
  }

  // Follow the waiting: whoever is at its end can step.
  lemma {:induction false} SomeoneSteps(s: State, t: nat) returns (step: Step)
    requires Inv(s) && t < |s.txs| && s.txs[t].Live()
    ensures Willed(s, step) && Next(s, step).Some?
    decreases Rank(s.txs[t])
  {
    assert TxInv(s, t);
    if u: nat :| WaitsFor(s, t, u) {
      WaitingDescends(s, t, u);
      step := SomeoneSteps(s, u);
    } else {
      match s.txs[t].program
      case Charge(_, _, _) => step := ChargeSteps(s, t);
      case Refund(_) => step := RefundSteps(s, t);
      case Dispatch => step := DispatchSteps(s, t);
    }
  }

  // ---------- the measure ----------

  // An upper bound on the statements a transaction still executes.
  function Remaining(tx: Tx): nat {
    match tx.phase
    case Open => 2 * BATCH_LIMIT + 2
    case UserRead(_) => 5
    case Debited => 4
    case PaymentInserted(_) => 3
    case EventStaged(_, _) => 2
    case PaymentRead(_) => 4
    case Credited(_) => 3
    case MarkedRefunded(_) => 2
    case Working(todo, _) => 2 * |todo| + 1
    case Sent(todo, _, _) => 2 * |todo|
    case Refused => 1
    case Committed => 0
    case RolledBack => 0
  }

  function Measure(txs: seq<Tx>): nat {
    if txs == [] then 0 else Measure(txs[..|txs| - 1]) + Remaining(txs[|txs| - 1])
  }

  lemma {:induction false} MeasureUpdate(txs: seq<Tx>, t: nat, tx: Tx)
    requires t < |txs|
    ensures Measure(txs[t := tx]) == Measure(txs) - Remaining(txs[t]) + Remaining(tx)
  {
    var n := |txs| - 1;
    if t < n {
      MeasureUpdate(txs[..n], t, tx);
      assert txs[t := tx][..n] == txs[..n][t := tx];
    } else {
      assert txs[t := tx][..n] == txs[..n];
    }
  }

  lemma BatchShortens(s: State, t: nat, rows: seq<Id>, scan: Scan, event: Id, delivered: bool)
    requires t < |s.txs| && TxInv(s, t)
    ensures DoClaim(s, t, rows, scan).Some? ==> Remaining(DoClaim(s, t, rows, scan).value.txs[t]) < Remaining(s.txs[t])
    ensures DoEnqueue(s, t, event, delivered).Some? ==>
              Remaining(DoEnqueue(s, t, event, delivered).value.txs[t]) < Remaining(s.txs[t])
  {
    hide Claimable;
  }

  lemma StatusShortens(s: State, t: nat)
    requires t < |s.txs| && TxInv(s, t)
    ensures DoWriteStatus(s, t).Some? ==> Remaining(DoWriteStatus(s, t).value.txs[t]) < Remaining(s.txs[t])
  {
  }

  lemma EndShortens(s: State, t: nat)
    requires t < |s.txs|
    ensures DoCommit(s, t).Some? ==> Remaining(DoCommit(s, t).value.txs[t]) < Remaining(s.txs[t])
    ensures DoRollback(s, t).Some? && TxInv(s, t) ==> Remaining(DoRollback(s, t).value.txs[t]) < Remaining(s.txs[t])
  {
  }

  lemma ChargeShortens(s: State, step: Step)
    requires Next(s, step).Some? && (step.SelectUser? || step.DebitUser? || step.InsertPayment? || step.InsertEvent?)
    ensures Remaining(Next(s, step).value.txs[step.t]) < Remaining(s.txs[step.t])
  {
  }

  lemma RefundShortens(s: State, step: Step)
    requires Next(s, step).Some? && (step.SelectPayment? || step.CreditUser? || step.MarkRefunded?)
    ensures Remaining(Next(s, step).value.txs[step.t]) < Remaining(s.txs[step.t])
  {
  }

  lemma StepShortens(s: State, step: Step)
    requires Next(s, step).Some? && !step.Begin?
    requires step.t < |s.txs| && TxInv(s, step.t)
    ensures step.t < |Next(s, step).value.txs| && Remaining(Next(s, step).value.txs[step.t]) < Remaining(s.txs[step.t])
  {
    ActorMoves(s, step);
    hide TxInv, Remaining, DoClaim, DoEnqueue, DoWriteStatus, DoCommit, DoRollback;
    match step
    case ClaimBatch(t, rows, scan) => BatchShortens(s, t, rows, scan, 0, true);
    case Enqueue(t, event, delivered) => BatchShortens(s, t, [], Scan({}, {}), event, delivered);
    case WriteStatus(t) => StatusShortens(s, t);
    case Commit(t) => EndShortens(s, t);
    case Rollback(t) => EndShortens(s, t);
    case SelectPayment(_) => RefundShortens(s, step);
    case CreditUser(_) => RefundShortens(s, step);
    case MarkRefunded(_) => RefundShortens(s, step);
    case _ => ChargeShortens(s, step);
  }

  lemma StepDecreases(s: State, step: Step)
    requires Inv(s) && Next(s, step).Some? && !step.Begin?
    ensures Measure(Next(s, step).value.txs) < Measure(s.txs)
  {
    hide Next, TxInv, Remaining;
    ActorMoves(s, step);
    assert TxInv(s, step.t);
    StepShortens(s, step);
    MeasureUpdate(s.txs, step.t, Next(s, step).value.txs[step.t]);
  }

  /** No run without new transactions is longer than the measure: every interleaving ends. */
  lemma {:induction false} Terminates(s: State, steps: seq<Step>)
    requires Inv(s) && Run(s, steps).Some? && forall step :: step in steps ==> !step.Begin?
    ensures |steps| + Measure(Run(s, steps).value.txs) <= Measure(s.txs)
  {
    hide Next, Inv;
    if steps != [] {
      var front := steps[..|steps| - 1];
      Terminates(s, front);
      RunKept(s, front);
      assert steps[|steps| - 1] in steps;
      StepDecreases(Run(s, front).value, steps[|steps| - 1]);
    }
  }

  ghost predicate AllDone(s: State) {
    forall t :: 0 <= t < |s.txs| ==> !s.txs[t].Live()
  }

  // Every step of the run is one that its program wants.
  ghost predicate WilledRun(s: State, steps: seq<Step>) {
    forall i :: 0 <= i < |steps| ==> Run(s, steps[..i]).Some? && Willed(Run(s, steps[..i]).value, steps[i])
  }

  lemma {:induction false} RunCons(s: State, step: Step, steps: seq<Step>)
    requires Next(s, step).Some?
    ensures Run(s, [step] + steps) == Run(Next(s, step).value, steps)
  {
    hide Next;
    if steps != [] {
      assert ([step] + steps)[..|steps|] == [step] + steps[..|steps| - 1];
      RunCons(s, step, steps[..|steps| - 1]);
    } else {
      assert [step] + steps == [step] && [step][..0] == [];
    }
  }

  lemma WilledCons(s: State, step: Step, steps: seq<Step>)
    requires Next(s, step).Some? && Willed(s, step) && WilledRun(Next(s, step).value, steps)
    ensures WilledRun(s, [step] + steps)
  {
    hide Next, Willed;
    var all := [step] + steps;
    forall i | 0 <= i < |all|
      ensures Run(s, all[..i]).Some? && Willed(Run(s, all[..i]).value, all[i])
    {
      if i == 0 {
        assert all[..0] == [];
      } else {
        assert all[..i] == [step] + steps[..i - 1];
        RunCons(s, step, steps[..i - 1]);
      }
    }
  }

  lemma {:induction false} CompletesFrom(s: State) returns (steps: seq<Step>)
    requires Inv(s)
    ensures WilledRun(s, steps) && Run(s, steps).Some? && AllDone(Run(s, steps).value)
    ensures |steps| <= Measure(s.txs)
    decreases Measure(s.txs)
  {
    hide Next, Inv, Willed;
    if AllDone(s) {
      steps := [];
    } else {
      var t :| 0 <= t < |s.txs| && s.txs[t].Live();
      var step := SomeoneSteps(s, t);
      StepKept(s, step);
      StepDecreases(s, step);
      var rest := CompletesFrom(Next(s, step).value);
      steps := [step] + rest;
      RunCons(s, step, rest);
      WilledCons(s, step, rest);
    }
  }

  /** Progress: from every reachable state all unfinished transactions can be run to their end by
      their own steps alone, with no outside abort, in at most `Measure` steps. */
  lemma Completes(db: Db, steps: seq<Step>)
    requires Sound(db) && Run(Init(db), steps).Some?
    ensures var s := Run(Init(db), steps).value;
            exists more :: WilledRun(s, more) && Run(s, more).Some? && AllDone(Run(s, more).value) && |more| <= Measure(s.txs)
  {
    InitInv(db);
    RunKept(Init(db), steps);
    var more := CompletesFrom(Run(Init(db), steps).value);
  }
}
