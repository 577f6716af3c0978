/** Exact accounting of webhook deliveries: how often an outbox event is enqueued, for any
    number of outbox workers, crashes and enqueue failures. */
module Delivery {
  import opened Ledger
  import opened Isolation

  // ---------- counting in the trace ----------

  predicate Sends(step: Step, event: Id) {
    step.Enqueue? && step.event == event && step.delivered
  }

  // Successful enqueues of the event.
  function Sent(steps: seq<Step>, event: Id): nat {
    if steps == [] then 0
    else
      var last := steps[|steps| - 1];
      Sent(steps[..|steps| - 1], event) + if Sends(last, event) then 1 else 0
  }

  // Successful enqueues of the event by batches that `ended` says were rolled back.
  function SentInVain(steps: seq<Step>, ended: seq<Step>, event: Id): nat {
    if steps == [] then 0
    else
      var last := steps[|steps| - 1];
      SentInVain(steps[..|steps| - 1], ended, event) + if Sends(last, event) && Rollback(last.t) in ended then 1 else 0
  }

  function SentBy(steps: seq<Step>, t: nat, event: Id): nat {
    if steps == [] then 0
    else
      var last := steps[|steps| - 1];
      SentBy(steps[..|steps| - 1], t, event) + if Sends(last, event) && last.t == t then 1 else 0
  }

  // ---------- counting in the state ----------

  // A batch that has enqueued the event and not ended.
  predicate Carries(tx: Tx, event: Id) {
    match tx.phase
    case Working(_, done) => event in done && done[event]
    case Sent(todo, done, delivered) => (event in done && done[event]) || (delivered && todo != [] && todo[0] == event)
    case _ => false
  }

  function Weight(tx: Tx, event: Id): nat {
    if Carries(tx, event) then 1 else 0
  }

  function InFlight(txs: seq<Tx>, event: Id): nat {
    if txs == [] then 0
    else InFlight(txs[..|txs| - 1], event) + Weight(txs[|txs| - 1], event)
  }

  predicate Processed(db: Db, event: Id) {
    event in db.outbox && db.outbox[event].status.EventProcessed?
  }

  lemma {:induction false} InFlightUpdate(txs: seq<Tx>, t: nat, tx: Tx, event: Id)
    requires t < |txs|
    ensures InFlight(txs[t := tx], event) == InFlight(txs, event) - Weight(txs[t], event) + Weight(tx, event)
  {
    var n := |txs| - 1;
    if t < n {
      InFlightUpdate(txs[..n], t, tx, event);
      assert txs[t := tx][..n] == txs[..n][t := tx];
    } else {
      assert txs[t := tx][..n] == txs[..n];
    }
  }

  lemma {:induction false} VainMonotone(steps: seq<Step>, ended: seq<Step>, last: Step, event: Id)
    requires last !in ended
    ensures SentInVain(steps, ended + [last], event) ==
            SentInVain(steps, ended, event) + if last.Rollback? then SentBy(steps, last.t, event) else 0
  {
    if steps != [] {
      VainMonotone(steps[..|steps| - 1], ended, last, event);
    }
  }

  lemma {:induction false} VainSame(steps: seq<Step>, ended: seq<Step>, last: Step, event: Id)
    requires !last.Rollback?
    ensures SentInVain(steps, ended + [last], event) == SentInVain(steps, ended, event)
  {
    if steps != [] {
      VainSame(steps[..|steps| - 1], ended, last, event);
    }
  }

  // ---------- the invariant of a run ----------

  ghost predicate Accounts(db: Db, steps: seq<Step>, s: State, event: Id) {
    && (forall t :: 0 <= t < |s.txs| && s.txs[t].Live() ==>
          Rollback(t) !in steps && SentBy(steps, t, event) == Weight(s.txs[t], event))
    && (forall step :: step in steps && !step.Begin? ==> step.t < |s.txs|)
    && Sent(steps, event) + (if Processed(db, event) then 1 else 0) ==
       SentInVain(steps, steps, event) + (if Processed(s.db, event) then 1 else 0) + InFlight(s.txs, event)
  }

  // What one statement does to the event's three counters.
  lemma StepWeights(s: State, step: Step, event: Id)
    requires Inv(s) && Next(s, step).Some? && !step.Begin?
    ensures var s' := Next(s, step).value;
            var before, after := Weight(s.txs[step.t], event), Weight(s'.txs[step.t], event);
            && (Processed(s.db, event) ==> Processed(s'.db, event))
            && (step.Rollback? ==> after == 0 && s'.db == s.db)
            && (step.Commit? ==> after == 0 && (Processed(s'.db, event) <==> Processed(s.db, event) || before == 1)
                                 && !(Processed(s.db, event) && before == 1))
            && (!step.Rollback? && !step.Commit? ==>
                  s'.db == s.db && after == before + if Sends(step, event) then 1 else 0)
  {
    hide TxInv, Next, DoCommit, Processed, Carries;
    ActorMoves(s, step);
    assert TxInv(s, step.t);
    EndedWeight(Next(s, step).value.txs[step.t], event);
    if step.Commit? {
      CommitStepWeight(s, step.t, event);
    } else if step.Rollback? {
      EndMoves(s, step.t);
    } else if step.Enqueue? || step.WriteStatus? {
      BatchWeight(s, step, event);
    } else {
      QuietWeight(s, step, event);
    }
  }

  lemma EndedWeight(tx: Tx, event: Id)
    ensures !tx.Live() ==> Weight(tx, event) == 0
  {
  }

  lemma CommitStepWeight(s: State, t: nat, event: Id)
    requires t < |s.txs| && TxInv(s, t) && Next(s, Commit(t)).Some?
    ensures var s' := Next(s, Commit(t)).value;
            && (Processed(s'.db, event) <==> Processed(s.db, event) || Carries(s.txs[t], event))
            && !(Processed(s.db, event) && Carries(s.txs[t], event))
  {
    hide TxInv, DoCommit, Processed, Carries;
    CommitWeight(s, t, event);
  }

  // The statements of charges and refunds, and the claim, carry nothing.
  lemma QuietWeight(s: State, step: Step, event: Id)
    requires Next(s, step).Some? && !step.Begin? && !step.Commit? && !step.Rollback? && !step.Enqueue? && !step.WriteStatus?
    ensures Weight(s.txs[step.t], event) == 0 && Weight(Next(s, step).value.txs[step.t], event) == 0
  {
    hide IsBatch, Readable;
  }

  lemma CommitWeight(s: State, t: nat, event: Id)
    requires t < |s.txs| && TxInv(s, t) && DoCommit(s, t).Some?
    ensures var s' := DoCommit(s, t).value;
            && (Processed(s'.db, event) <==> Processed(s.db, event) || Carries(s.txs[t], event))
            && !(Processed(s.db, event) && Carries(s.txs[t], event))
  {
  }

  lemma BatchWeight(s: State, step: Step, event: Id)
    requires Next(s, step).Some? && (step.Enqueue? || step.WriteStatus?) && TxInv(s, step.t)
    ensures Weight(Next(s, step).value.txs[step.t], event) ==
            Weight(s.txs[step.t], event) + if Sends(step, event) then 1 else 0
  {
    var phase := s.txs[step.t].phase;
    assert phase.todo[0] in phase.todo;
  }

  lemma BeginAccounts(db: Db, steps: seq<Step>, s: State, step: Step, event: Id)
    requires Accounts(db, steps, s, event) && Next(s, step).Some? && step.Begin?
    ensures Accounts(db, steps + [step], Next(s, step).value, event)
  {
    hide Next, Processed, Carries;
    var s' := Next(s, step).value;
    BeginMoves(s, step);
    assert (steps + [step])[..|steps|] == steps;
    assert s'.txs[..|s.txs|] == s.txs;
    VainSame(steps, steps, step, event);
    NoSends(steps, |s.txs|, event);
    OpenWeight(s'.txs[|s.txs|], event);
  }

  lemma OpenWeight(tx: Tx, event: Id)
    requires tx.phase.Open?
    ensures Weight(tx, event) == 0
  {
  }

  lemma {:induction false} NoSends(steps: seq<Step>, t: nat, event: Id)
    requires forall step :: step in steps && !step.Begin? ==> step.t < t
    ensures SentBy(steps, t, event) == 0
  {
    if steps != [] {
      assert steps[|steps| - 1] in steps;
      NoSends(steps[..|steps| - 1], t, event);
    }
  }

  lemma StepAccounts(db: Db, steps: seq<Step>, s: State, step: Step, event: Id)
    requires Accounts(db, steps, s, event) && Inv(s) && Next(s, step).Some? && !step.Begin?
    ensures Accounts(db, steps + [step], Next(s, step).value, event)
  {
    hide Next, Inv, Processed, Carries, Sends;
    var s' := Next(s, step).value;
    var all := steps + [step];
    assert all[..|steps|] == steps;
    ActorMoves(s, step);
    InFlightUpdate(s.txs, step.t, s'.txs[step.t], event);
    StepWeights(s, step, event);
    if step.Rollback? {
      VainMonotone(steps, steps, step, event);
    } else {
      VainSame(steps, steps, step, event);
      NotSentByEnd(step, event);
    }
    assert Sent(all, event) == Sent(steps, event) + if Sends(step, event) then 1 else 0;
    assert SentInVain(all, all, event) == SentInVain(steps, all, event) + if Sends(step, event) && Rollback(step.t) in all then 1 else 0;
    assert Rollback(step.t) !in steps;
    NotSentByEnd(step, event);
    forall t | 0 <= t < |s'.txs| && s'.txs[t].Live()
      ensures Rollback(t) !in all && SentBy(all, t, event) == Weight(s'.txs[t], event)
    {
      assert s.txs[t].Live();
      assert SentBy(all, t, event) == SentBy(steps, t, event) + if Sends(step, event) && step.t == t then 1 else 0;
    }
    assert forall x :: x in all && !x.Begin? ==> x.t < |s'.txs|;
  }

  lemma NotSentByEnd(step: Step, event: Id)
    ensures step.Commit? || step.Rollback? || step.Begin? ==> !Sends(step, event)
  {
  }

  lemma InitAccounts(db: Db, event: Id)
    ensures Accounts(db, [], Init(db), event)
  {
  }

  lemma NextAccounts(db: Db, steps: seq<Step>, s: State, step: Step, event: Id)
    requires Accounts(db, steps, s, event) && Inv(s) && Next(s, step).Some?
    ensures Accounts(db, steps + [step], Next(s, step).value, event)
  {
    hide Next, Inv, Accounts;
    if step.Begin? {
      BeginAccounts(db, steps, s, step, event);
    } else {
      StepAccounts(db, steps, s, step, event);
    }
  }

  lemma {:induction false} RunAccounts(db: Db, steps: seq<Step>, event: Id)
    requires Sound(db) && Run(Init(db), steps).Some?
    ensures Accounts(db, steps, Run(Init(db), steps).value, event)
    ensures Inv(Run(Init(db), steps).value)
  {
    hide Next, Inv, Accounts, Sound, Init;
    if steps == [] {
      InitAccounts(db, event);
      InitInv(db);
    } else {
      var front := steps[..|steps| - 1];
      var last := steps[|steps| - 1];
      RunAccounts(db, front, event);
      var mid := Run(Init(db), front).value;
      NextAccounts(db, front, mid, last, event);
      StepKept(mid, last);
      assert steps == front + [last];
    }
  }

  // ---------- main results ----------

  /** Live batches are disjoint: at most one of them carries an event, and then the row is pending. */
  lemma {:induction false} OneCarrier(s: State, n: nat, event: Id)
    requires Inv(s) && n <= |s.txs|
    ensures InFlight(s.txs[..n], event) <= 1
    ensures InFlight(s.txs[..n], event) == 1 ==>
              event in s.db.outbox && s.db.outbox[event].status.EventPending? && EventRow(event) in s.locks && s.locks[EventRow(event)] < n
  {
    if n > 0 {
      OneCarrier(s, n - 1, event);
      assert s.txs[..n][..n - 1] == s.txs[..n - 1];
      assert TxInv(s, n - 1);
      if Carries(s.txs[n - 1], event) {
        var phase := s.txs[n - 1].phase;
        assert event in phase.done || (phase.Sent? && event in phase.todo);
      }
    }
  }

  /** Delivery accounting: the successful enqueues of an event are those of rolled-back batches,
      one more if its row is PROCESSED, and one more while a single live batch carries it. */
  lemma EnqueueCount(db: Db, steps: seq<Step>, event: Id)
    requires Sound(db) && Run(Init(db), steps).Some? && !Processed(db, event)
    ensures var s := Run(Init(db), steps).value;
            && Sent(steps, event) ==
               SentInVain(steps, steps, event) + (if Processed(s.db, event) then 1 else 0) + InFlight(s.txs, event)
            && InFlight(s.txs, event) <= 1
            && (Processed(s.db, event) ==> InFlight(s.txs, event) == 0)
  {
    hide Inv, Sound, Init, Next, Run;
    RunAccounts(db, steps, event);
    var s := Run(Init(db), steps).value;
    OneCarrier(s, |s.txs|, event);
    assert s.txs[..|s.txs|] == s.txs;
  }

  lemma {:induction false} SomeSend(steps: seq<Step>, event: Id)
    ensures Sent(steps, event) > 0 <==> exists i :: 0 <= i < |steps| && Sends(steps[i], event)
  {
    if steps != [] {
      var front := steps[..|steps| - 1];
      SomeSend(front, event);
      if i :| 0 <= i < |steps| && Sends(steps[i], event) {
        if i < |front| {
          assert Sends(front[i], event);
        }
      }
      if Sent(front, event) > 0 {
        var i :| 0 <= i < |front| && Sends(front[i], event);
        assert Sends(steps[i], event);
      }
    }
  }

  /** A row is never PROCESSED without having been enqueued. */
  lemma ProcessedWasEnqueued(db: Db, steps: seq<Step>, event: Id)
    requires Sound(db) && Run(Init(db), steps).Some? && !Processed(db, event)
    requires Processed(Run(Init(db), steps).value.db, event)
    ensures exists i :: 0 <= i < |steps| && Sends(steps[i], event)
  {
    EnqueueCount(db, steps, event);
    SomeSend(steps, event);
  }

  /** Without rollbacks nothing is delivered twice. */
  lemma DuplicatesNeedRollback(db: Db, steps: seq<Step>, event: Id)
    requires Sound(db) && Run(Init(db), steps).Some? && !Processed(db, event)
    requires Sent(steps, event) > 1
    ensures exists i, t: nat :: 0 <= i < |steps| && Sends(steps[i], event) && steps[i].t == t && Rollback(t) in steps
  {
    EnqueueCount(db, steps, event);
    VainSend(steps, steps, event);
  }

  lemma {:induction false} VainSend(steps: seq<Step>, ended: seq<Step>, event: Id)
    requires SentInVain(steps, ended, event) > 0
    ensures exists i, t: nat :: 0 <= i < |steps| && Sends(steps[i], event) && steps[i].t == t && Rollback(t) in ended
  {
    var front := steps[..|steps| - 1];
    var last := steps[|steps| - 1];
    if Sends(last, event) && Rollback(last.t) in ended {
      assert Sends(steps[|steps| - 1], event) && steps[|steps| - 1].t == last.t;
    } else {
      VainSend(front, ended, event);
      var i, t: nat :| 0 <= i < |front| && Sends(front[i], event) && front[i].t == t && Rollback(t) in ended;
      assert Sends(steps[i], event) && steps[i].t == t;
    }
  }

  lemma SettledStep(s: State, step: Step, event: Id)
    requires Inv(s) && Next(s, step).Some?
    requires event in s.db.outbox && !s.db.outbox[event].status.EventPending?
    ensures !Sends(step, event)
    ensures event in Next(s, step).value.db.outbox && Next(s, step).value.db.outbox[event] == s.db.outbox[event]
  {
    hide Next, DoCommit, TxInv;
    if step.Begin? {
      BeginMoves(s, step);
    } else {
      ActorMoves(s, step);
      assert TxInv(s, step.t);
      if step.Commit? {
        SettledCommitStep(s, step.t, event);
      } else if step.Enqueue? {
        SettledUnsent(s, step.t, step.event, step.delivered, event);
      }
    }
  }

  lemma SettledCommitStep(s: State, t: nat, event: Id)
    requires IdsInv(s) && t < |s.txs| && TxInv(s, t) && Next(s, Commit(t)).Some?
    requires event in s.db.outbox && !s.db.outbox[event].status.EventPending?
    ensures var after := Next(s, Commit(t)).value.db.outbox; event in after && after[event] == s.db.outbox[event]
  {
    hide TxInv, DoCommit;
    SettledCommit(s, t, event);
  }

  lemma SettledUnsent(s: State, t: nat, sent: Id, delivered: bool, event: Id)
    requires t < |s.txs| && TxInv(s, t) && Next(s, Enqueue(t, sent, delivered)).Some?
    requires event in s.db.outbox && !s.db.outbox[event].status.EventPending?
    ensures sent != event
  {
    assert sent in s.txs[t].phase.todo;
  }

  lemma SettledCommit(s: State, t: nat, event: Id)
    requires IdsInv(s) && t < |s.txs| && TxInv(s, t) && DoCommit(s, t).Some?
    requires event in s.db.outbox && !s.db.outbox[event].status.EventPending?
    ensures event in DoCommit(s, t).value.db.outbox && DoCommit(s, t).value.db.outbox[event] == s.db.outbox[event]
  {
  }

  /** A settled row, PROCESSED or FAILED, is final: it is never enqueued again and never changes.
      So a FAILED event is not delivered later. */
  lemma {:induction false} SettledIsFinal(db: Db, steps: seq<Step>, more: seq<Step>, event: Id)
    requires Sound(db) && Run(Init(db), steps).Some? && Run(Init(db), steps + more).Some?
    requires var s := Run(Init(db), steps).value; event in s.db.outbox && !s.db.outbox[event].status.EventPending?
    ensures Sent(steps + more, event) == Sent(steps, event)
    ensures var before, after := Run(Init(db), steps).value.db, Run(Init(db), steps + more).value.db;
            event in after.outbox && after.outbox[event] == before.outbox[event]
  {
    hide Next, Inv, Sound, Init;
    if more == [] {
      assert steps + more == steps;
    } else {
      var front := more[..|more| - 1];
      var last := more[|more| - 1];
      assert (steps + more)[..|steps + more| - 1] == steps + front;
      SettledIsFinal(db, steps, front, event);
      RunAccounts(db, steps + front, event);
      SettledStep(Run(Init(db), steps + front).value, last, event);
    }
  }

  // ---------- which rows a poll takes ----------

  // Rows that are pending and not locked.
  function Unclaimed(s: State): set<Id> {
    set id | id in s.db.outbox && s.db.outbox[id].status.EventPending? && EventRow(id) !in s.locks
  }

  lemma SeqToSet(rows: seq<Id>, ids: set<Id>)
    requires forall i, j :: 0 <= i < j < |rows| ==> rows[i] != rows[j]
    requires forall id :: id in rows ==> id in ids
    ensures |rows| <= |ids|
    ensures |rows| == |ids| <==> forall id :: id in ids ==> id in rows
    decreases |rows|
  {
    if rows == [] {
      assert ids != {} ==> exists id :: id in ids;
    } else {
      var last, front := rows[|rows| - 1], rows[..|rows| - 1];
      SeqToSet(front, ids - {last});
      assert forall id :: id in rows <==> id in front || id == last;
    }
  }

  // The oldest of these rows, oldest first.
  predicate TakesOldest(s: State, rows: seq<Id>, ids: set<Id>)
    requires forall id :: id in ids ==> id in s.db.outbox
  {
    && (forall i, j :: 0 <= i < j < |rows| ==> rows[i] != rows[j])
    && (forall id :: id in rows ==> id in ids)
    && (forall i, j :: 0 <= i < j < |rows| && rows[i] in ids && rows[j] in ids ==>
          s.db.outbox[rows[i]].createdAt <= s.db.outbox[rows[j]].createdAt)
    && (forall id, taken :: id in ids && id !in rows && taken in rows && taken in ids ==>
          s.db.outbox[taken].createdAt <= s.db.outbox[id].createdAt)
  }

  lemma BatchTakesOldest(s: State, rows: seq<Id>)
    requires IsBatch(s, rows, {})
    ensures TakesOldest(s, rows, Unclaimed(s)) && |rows| == if |Unclaimed(s)| < 10 then |Unclaimed(s)| else 10
  {
    SeqToSet(rows, Unclaimed(s));
    if |rows| < |Unclaimed(s)| {
      var id :| id in Unclaimed(s) && id !in rows;
      assert Claimable(s, id);
    }
  }

  lemma TakesOldestBatch(s: State, rows: seq<Id>)
    requires TakesOldest(s, rows, Unclaimed(s)) && |rows| == if |Unclaimed(s)| < 10 then |Unclaimed(s)| else 10
    ensures IsBatch(s, rows, {})
  {
    SeqToSet(rows, Unclaimed(s));
    forall i | 0 <= i < |rows|
      ensures rows[i] in rows && Claimable(s, rows[i])
    {
    }
    forall id | id in s.db.outbox && Claimable(s, id) && id !in rows
      ensures id in Unclaimed(s) && |rows| == BATCH_LIMIT
    {
    }
  }

  /** A worker's poll takes the oldest pending rows that nobody has locked, oldest first, ten of them
      or all there are. */
  lemma ClaimsOldest(s: State, t: nat, rows: seq<Id>, unread: set<Id>)
    requires t < |s.txs| && s.txs[t].program.Dispatch? && s.txs[t].phase.Open?
    ensures Next(s, ClaimBatch(t, rows, Scan({}, unread))).Some?
       <==> TakesOldest(s, rows, Unclaimed(s)) && |rows| == if |Unclaimed(s)| < 10 then |Unclaimed(s)| else 10
  {
    BatchClaimed(s, t, rows, unread);
    hide Next, IsBatch, TakesOldest;
    if IsBatch(s, rows, {}) {
      BatchTakesOldest(s, rows);
    } else if TakesOldest(s, rows, Unclaimed(s)) && |rows| == if |Unclaimed(s)| < 10 then |Unclaimed(s)| else 10 {
      TakesOldestBatch(s, rows);
    }
  }

  lemma BatchClaimed(s: State, t: nat, rows: seq<Id>, unread: set<Id>)
    requires t < |s.txs| && s.txs[t].program.Dispatch? && s.txs[t].phase.Open?
    ensures Next(s, ClaimBatch(t, rows, Scan({}, unread))).Some? <==> IsBatch(s, rows, {})
  {
    hide IsBatch, Readable;
  }
}
