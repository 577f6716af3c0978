/** What every statement keeps, and serialisability: the committed tables of any interleaving
    are those of the committed transactions run whole, one after another, in commit order. */
module Isolation {
  import opened Wrappers
  import opened Ledger

  // ---------- the invariant ----------

  // The foreign key payments.user_id.
  ghost predicate Sound(db: Db) {
    forall p :: p in db.payments ==> db.payments[p].user in db.users
  }

  ghost predicate Holds(s: State, row: Row, t: nat) {
    row in s.locks && s.locks[row] == t
  }

  ghost predicate Drew(s: State, id: Id, t: nat) {
    id in s.issued && s.issued[id] == t && id !in s.db.payments && id !in s.db.outbox
  }

  // A charge past its overdraft check.
  ghost predicate Debiting(s: State, t: nat) {
    && t < |s.txs| && s.txs[t].program.Charge?
    && var user := s.txs[t].program.user;
       && s.txs[t].program.amount > 0
       && Holds(s, UserRow(user), t) && user in s.db.users
       && s.db.users[user] >= s.txs[t].program.amount
       && s.txs[t].writes.users == map[user := s.db.users[user] - s.txs[t].program.amount]
  }

  ghost predicate WroteCharge(s: State, t: nat, payment: Id) {
    && Debiting(s, t)
    && var Charge(user, amount, currency) := s.txs[t].program;
       && Drew(s, payment, t)
       && s.txs[t].writes.payments == map[payment := Payment(user, amount, currency, Succeeded)]
  }

  ghost predicate WroteEvent(s: State, t: nat, payment: Id, event: Id) {
    && WroteCharge(s, t, payment)
    && var Charge(user, amount, currency) := s.txs[t].program;
       && Drew(s, event, t) && event != payment
       && s.txs[t].writes.outbox == map[event := Event(payment, user, amount, currency, s.txs[t].startedAt, EventPending)]
  }

  ghost predicate ReadRecord(s: State, t: nat, record: Payment) {
    && t < |s.txs| && s.txs[t].program.Refund?
    && var payment := s.txs[t].program.payment;
       && Holds(s, PaymentRow(payment), t)
       && payment in s.db.payments && s.db.payments[payment] == record && record.user in s.db.users
  }

  ghost predicate Crediting(s: State, t: nat, record: Payment) {
    && ReadRecord(s, t, record)
    && record.status.Succeeded?
    && Holds(s, UserRow(record.user), t)
    && s.db.users[record.user] + record.amount <= MAX_INT64
    && s.txs[t].writes.users == map[record.user := s.db.users[record.user] + record.amount]
  }

  ghost predicate Claimed(s: State, t: nat, id: Id) {
    Holds(s, EventRow(id), t) && id in s.db.outbox && s.db.outbox[id].status.EventPending?
  }

  ghost predicate Batching(s: State, t: nat, todo: seq<Id>, done: map<Id, bool>) {
    && t < |s.txs| && s.txs[t].program.Dispatch?
    && (forall id :: id in todo ==> Claimed(s, t, id) && id !in done)
    && (forall id :: id in done ==> Claimed(s, t, id))
    && (forall i, j :: 0 <= i < j < |todo| ==> todo[i] != todo[j])
    && s.txs[t].writes.users == map[] && s.txs[t].writes.payments == map[]
    && s.txs[t].writes.outbox.Keys == done.Keys
    && (forall id :: id in done ==> s.txs[t].writes.outbox[id] == Settle(s.db.outbox[id], done[id]))
  }

  ghost predicate TxInv(s: State, t: nat)
    requires t < |s.txs|
  {
    var tx := s.txs[t];
    && CanBegin(tx.program)
    && match tx.phase
       case Open => tx.writes == NoWrites
       case UserRead(balance) =>
         && tx.program.Charge? && tx.writes == NoWrites
         && Holds(s, UserRow(tx.program.user), t)
         && tx.program.user in s.db.users && s.db.users[tx.program.user] == balance
       case Debited => Debiting(s, t) && tx.writes.payments == map[] && tx.writes.outbox == map[]
       case PaymentInserted(payment) => WroteCharge(s, t, payment) && tx.writes.outbox == map[]
       case EventStaged(payment, event) => WroteEvent(s, t, payment, event)
       case PaymentRead(record) => ReadRecord(s, t, record) && tx.writes == NoWrites
       case Credited(record) => Crediting(s, t, record) && tx.writes.payments == map[] && tx.writes.outbox == map[]
       case MarkedRefunded(record) =>
         && Crediting(s, t, record) && tx.writes.outbox == map[]
         && tx.writes.payments == map[tx.program.payment := record.(status := Refunded)]
       case Working(todo, done) => Batching(s, t, todo, done)
       case Sent(todo, done, _) => todo != [] && Batching(s, t, todo, done)
       case Refused => true
       case Committed => true
       case RolledBack => true
  }

  // Which programs lock which rows, and when: a transaction that still has to take a row
  // holds no user row, and only refunds hold payment rows.
  predicate MayHold(tx: Tx, row: Row) {
    && tx.Live() && !tx.phase.Open?
    && match row
       case UserRow(_) => !tx.program.Dispatch? && !tx.phase.PaymentRead?
       case PaymentRow(_) => tx.program.Refund?
       case EventRow(_) => tx.program.Dispatch?
  }

  ghost predicate LocksInv(s: State) {
    forall row :: row in s.locks ==> s.locks[row] < |s.txs| && MayHold(s.txs[s.locks[row]], row)
  }

  ghost predicate IdsInv(s: State) {
    s.db.payments.Keys + s.db.outbox.Keys <= s.issued.Keys
  }

  ghost predicate Inv(s: State) {
    && Sound(s.db) && IdsInv(s) && LocksInv(s)
    && forall t :: 0 <= t < |s.txs| ==> TxInv(s, t)
  }

  // ---------- what one statement may touch ----------

  // Only row t of the transactions, free or own locks, and new ids; not the tables.
  ghost predicate Local(s: State, s': State, t: nat) {
    && t < |s.txs| && s.txs[t].Live()
    && s'.db == s.db
    && |s'.txs| == |s.txs| && s'.txs == s.txs[t := s'.txs[t]]
    && s'.txs[t].program == s.txs[t].program && s'.txs[t].startedAt == s.txs[t].startedAt
    && LocksApart(s, s', t)
    && (forall id :: id in s.issued ==> id in s'.issued && s'.issued[id] == s.issued[id])
  }

  ghost predicate LocksApart(s: State, s': State, t: nat) {
    && (forall row :: row in s.locks && s.locks[row] != t ==> row in s'.locks && s'.locks[row] == s.locks[row])
    && (forall row :: row in s'.locks && s'.locks[row] != t ==> row in s.locks && s.locks[row] == s'.locks[row])
  }

  ghost predicate OwnLocks(s: State, t: nat) {
    t < |s.txs| && forall row :: row in s.locks && s.locks[row] == t ==> MayHold(s.txs[t], row)
  }

  // One statement of a transaction that does not end it.
  ghost predicate Moves(s: State, next: Option<State>, t: nat) {
    next.Some? ==> Local(s, next.value, t) && next.value.txs[t].Live() && (OwnLocks(s, t) ==> OwnLocks(next.value, t))
  }

  lemma SelectUserMoves(s: State, t: nat)
    requires t < |s.txs|
    ensures Moves(s, DoSelectUser(s, t), t)
  {
  }

  lemma DebitMoves(s: State, t: nat)
    requires t < |s.txs|
    ensures Moves(s, DoDebit(s, t), t)
  {
  }

  lemma InsertPaymentMoves(s: State, t: nat, id: Id)
    requires t < |s.txs|
    ensures Moves(s, DoInsertPayment(s, t, id), t)
  {
  }

  lemma InsertEventMoves(s: State, t: nat, id: Id)
    requires t < |s.txs|
    ensures Moves(s, DoInsertEvent(s, t, id), t)
  {
  }

  lemma SelectPaymentMoves(s: State, t: nat)
    requires t < |s.txs|
    ensures Moves(s, DoSelectPayment(s, t), t)
  {
  }

  lemma CreditMoves(s: State, t: nat)
    requires t < |s.txs|
    ensures Moves(s, DoCredit(s, t), t)
  {
  }

  lemma MarkRefundedMoves(s: State, t: nat)
    requires t < |s.txs|
    ensures Moves(s, DoMarkRefunded(s, t), t)
  {
  }

  lemma BatchUnlocked(s: State, rows: seq<Id>, passed: set<Id>)
    requires IsBatch(s, rows, passed)
    ensures forall id :: id in rows ==> EventRow(id) !in s.locks
  {
  }

  lemma ClaimMoves(s: State, t: nat, rows: seq<Id>, scan: Scan)
    requires t < |s.txs|
    ensures Moves(s, DoClaim(s, t, rows, scan), t)
  {
    hide IsBatch, Readable;
    if IsBatch(s, rows, scan.passed) {
      BatchUnlocked(s, rows, scan.passed);
    }
  }

  lemma EnqueueMoves(s: State, t: nat, event: Id, delivered: bool)
    requires t < |s.txs|
    ensures Moves(s, DoEnqueue(s, t, event, delivered), t)
  {
  }

  lemma WriteStatusMoves(s: State, t: nat)
    requires t < |s.txs|
    ensures Moves(s, DoWriteStatus(s, t), t)
  {
  }

  lemma StepMoves(s: State, step: Step)
    requires !step.Begin? && step.t < |s.txs| && !step.Commit? && !step.Rollback?
    ensures Moves(s, Next(s, step), step.t)
  {
    hide Moves, DoSelectUser, DoDebit, DoInsertPayment, DoInsertEvent, DoSelectPayment, DoCredit, DoMarkRefunded, DoClaim, DoEnqueue, DoWriteStatus;
    match step
    case SelectUser(t) => SelectUserMoves(s, t);
    case DebitUser(t) => DebitMoves(s, t);
    case InsertPayment(t, id) => InsertPaymentMoves(s, t, id);
    case InsertEvent(t, id) => InsertEventMoves(s, t, id);
    case SelectPayment(t) => SelectPaymentMoves(s, t);
    case CreditUser(t) => CreditMoves(s, t);
    case MarkRefunded(t) => MarkRefundedMoves(s, t);
    case ClaimBatch(t, rows, scan) => ClaimMoves(s, t, rows, scan);
    case Enqueue(t, event, delivered) => EnqueueMoves(s, t, event, delivered);
    case WriteStatus(t) => WriteStatusMoves(s, t);
  }

  lemma EndMoves(s: State, t: nat)
    requires t < |s.txs|
    ensures DoRollback(s, t).Some? <==> s.txs[t].Live()
    ensures DoRollback(s, t).Some? ==> Local(s, DoRollback(s, t).value, t) && OwnLocks(DoRollback(s, t).value, t)
    ensures DoRollback(s, t).Some? ==> DoRollback(s, t).value.txs[t] == s.txs[t].(phase := RolledBack)
    ensures DoCommit(s, t).Some? ==> LocksApart(s, DoCommit(s, t).value, t) && OwnLocks(DoCommit(s, t).value, t)
    ensures DoCommit(s, t).Some? ==> s.txs[t].Live() && DoCommit(s, t).value.txs == s.txs[t := s.txs[t].(phase := Committed)]
  {
  }

  // A transaction's own statement changes only that transaction, and only COMMIT and ROLLBACK end it.
  lemma ActorMoves(s: State, step: Step)
    requires Next(s, step).Some? && !step.Begin?
    ensures step.t < |s.txs| == |Next(s, step).value.txs| && s.txs[step.t].Live()
    ensures var tx := Next(s, step).value.txs[step.t];
            && Next(s, step).value.txs == s.txs[step.t := tx]
            && tx.program == s.txs[step.t].program && tx.startedAt == s.txs[step.t].startedAt
            && (tx.phase.Committed? <==> step.Commit?) && (tx.phase.RolledBack? <==> step.Rollback?)
    ensures !step.Commit? ==> Next(s, step).value.db == s.db
  {
    hide DoSelectUser, DoDebit, DoInsertPayment, DoInsertEvent, DoSelectPayment, DoCredit, DoMarkRefunded, DoClaim, DoEnqueue, DoWriteStatus;
    hide DoCommit, DoRollback, LocksApart, OwnLocks;
    if step.Commit? || step.Rollback? {
      EndMoves(s, step.t);
    } else {
      StepMoves(s, step);
    }
  }

  lemma BeginMoves(s: State, step: Step)
    requires Next(s, step).Some? && step.Begin?
    ensures Next(s, step).value == s.(txs := s.txs + [Tx(step.program, step.at, Open, NoWrites)]) && CanBegin(step.program)
  {
  }

  // ---------- one statement leaves the other transactions alone ----------

  // Rows that some transaction other than t has locked are as before, new ids are t's own.
  ghost predicate Apart(s: State, s': State, t: nat) {
    && |s.txs| <= |s'.txs|
    && (forall u :: 0 <= u < |s.txs| && u != t ==> s'.txs[u] == s.txs[u])
    && (forall row :: row in s.locks && s.locks[row] != t ==> row in s'.locks && s'.locks[row] == s.locks[row])
    && (forall id :: id in s.issued ==> id in s'.issued && s'.issued[id] == s.issued[id])
    && TablesApart(s, s'.db, t)
  }

  ghost predicate TablesApart(s: State, db: Db, t: nat) {
    && (forall id :: id in s.db.users ==> id in db.users)
    && (forall id :: id in s.db.payments ==> id in db.payments)
    && (forall id :: id in s.db.outbox ==> id in db.outbox)
    && (forall id :: id in s.db.users && UserRow(id) in s.locks && s.locks[UserRow(id)] != t ==> db.users[id] == s.db.users[id])
    && (forall id :: id in s.db.payments && PaymentRow(id) in s.locks && s.locks[PaymentRow(id)] != t ==>
          db.payments[id] == s.db.payments[id])
    && (forall id :: id in s.db.outbox && EventRow(id) in s.locks && s.locks[EventRow(id)] != t ==>
          db.outbox[id] == s.db.outbox[id])
    && (forall id :: id in db.payments && id !in s.db.payments ==> id in s.issued && s.issued[id] == t)
    && (forall id :: id in db.outbox && id !in s.db.outbox ==> id in s.issued && s.issued[id] == t)
  }

  lemma OthersKept(s: State, s': State, t: nat, u: nat)
    requires Apart(s, s', t) && u < |s.txs| && u != t && TxInv(s, u)
    ensures TxInv(s', u)
  {
  }

  function Actor(s: State, step: Step): nat {
    if step.Begin? then |s.txs| else step.t
  }

  lemma CommitApart(s: State, t: nat)
    requires t < |s.txs| && TxInv(s, t) && DoCommit(s, t).Some?
    ensures TablesApart(s, DoCommit(s, t).value.db, t)
  {
  }

  lemma LocalApart(s: State, s': State, t: nat)
    requires Local(s, s', t)
    ensures Apart(s, s', t)
  {
  }

  lemma EndsApart(s: State, t: nat)
    requires t < |s.txs| && TxInv(s, t) && DoCommit(s, t).Some?
    ensures Apart(s, DoCommit(s, t).value, t)
  {
    hide TablesApart;
    CommitApart(s, t);
    EndMoves(s, t);
  }

  lemma StepApart(s: State, step: Step)
    requires Next(s, step).Some?
    requires !step.Begin? ==> step.t < |s.txs| && TxInv(s, step.t)
    ensures Apart(s, Next(s, step).value, Actor(s, step))
  {
    if step.Begin? {
      hide TxInv;
      BeginMoves(s, step);
    } else {
      hide DoSelectUser, DoDebit, DoInsertPayment, DoInsertEvent, DoSelectPayment, DoCredit, DoMarkRefunded, DoClaim, DoEnqueue, DoWriteStatus;
      hide DoCommit, DoRollback, LocksApart, OwnLocks, Local, Apart, TxInv;
      if step.Commit? {
        EndsApart(s, step.t);
      } else {
        StepLocal(s, step);
        LocalApart(s, Next(s, step).value, step.t);
      }
    }
  }

  lemma StepLocal(s: State, step: Step)
    requires Next(s, step).Some? && !step.Begin? && !step.Commit?
    ensures Local(s, Next(s, step).value, step.t)
  {
    hide DoSelectUser, DoDebit, DoInsertPayment, DoInsertEvent, DoSelectPayment, DoCredit, DoMarkRefunded, DoClaim, DoEnqueue, DoWriteStatus;
    hide DoCommit, DoRollback, OwnLocks, Local;
    if step.Rollback? {
      EndMoves(s, step.t);
    } else {
      StepMoves(s, step);
    }
  }

  // ---------- one statement keeps the invariant ----------

  lemma CommitSound(s: State, t: nat)
    requires Sound(s.db) && IdsInv(s) && t < |s.txs| && TxInv(s, t) && DoCommit(s, t).Some?
    ensures Sound(DoCommit(s, t).value.db) && IdsInv(DoCommit(s, t).value)
  {
  }

  ghost predicate Keeps(next: Option<State>, t: nat) {
    next.Some? ==> t < |next.value.txs| && TxInv(next.value, t)
  }

  lemma SelectUserKept(s: State, t: nat)
    requires t < |s.txs| && TxInv(s, t)
    ensures Keeps(DoSelectUser(s, t), t)
  {
  }

  lemma DebitKept(s: State, t: nat)
    requires t < |s.txs| && TxInv(s, t)
    ensures Keeps(DoDebit(s, t), t)
  {
  }

  lemma InsertPaymentKept(s: State, t: nat, id: Id)
    requires IdsInv(s) && t < |s.txs| && TxInv(s, t)
    ensures Keeps(DoInsertPayment(s, t, id), t)
  {
  }

  lemma InsertEventKept(s: State, t: nat, id: Id)
    requires IdsInv(s) && t < |s.txs| && TxInv(s, t)
    ensures Keeps(DoInsertEvent(s, t, id), t)
  {
  }

  lemma SelectPaymentKept(s: State, t: nat)
    requires Sound(s.db) && t < |s.txs| && TxInv(s, t)
    ensures Keeps(DoSelectPayment(s, t), t)
  {
  }

  lemma CreditKept(s: State, t: nat)
    requires t < |s.txs| && TxInv(s, t)
    ensures Keeps(DoCredit(s, t), t)
  {
  }

  lemma MarkRefundedKept(s: State, t: nat)
    requires t < |s.txs| && TxInv(s, t)
    ensures Keeps(DoMarkRefunded(s, t), t)
  {
  }

  lemma ClaimKept(s: State, t: nat, rows: seq<Id>, scan: Scan)
    requires t < |s.txs| && TxInv(s, t)
    ensures Keeps(DoClaim(s, t, rows, scan), t)
  {
  }

  lemma EnqueueKept(s: State, t: nat, event: Id, delivered: bool)
    requires t < |s.txs| && TxInv(s, t)
    ensures Keeps(DoEnqueue(s, t, event, delivered), t)
  {
  }

  lemma WriteStatusKept(s: State, t: nat)
    requires t < |s.txs| && TxInv(s, t)
    ensures Keeps(DoWriteStatus(s, t), t)
    ensures s.txs[t].phase.Sent? ==> DoWriteStatus(s, t).Some? && DoWriteStatus(s, t).value.txs[t].phase.Working?
  {
    if s.txs[t].phase.Sent? {
      var todo := s.txs[t].phase.todo;
      assert todo[0] in todo && forall id :: id in todo[1..] ==> id in todo && id != todo[0];
    }
  }

  lemma EndKept(s: State, t: nat)
    requires t < |s.txs| && TxInv(s, t)
    ensures Keeps(DoCommit(s, t), t) && Keeps(DoRollback(s, t), t)
  {
  }

  lemma ActorKept(s: State, step: Step)
    requires Sound(s.db) && IdsInv(s) && !step.Begin? && step.t < |s.txs| && TxInv(s, step.t)
    ensures Keeps(Next(s, step), step.t)
  {
    hide DoSelectUser, DoDebit, DoInsertPayment, DoInsertEvent, DoSelectPayment, DoCredit, DoMarkRefunded, DoClaim, DoEnqueue, DoWriteStatus;
    hide DoCommit, DoRollback, Keeps, TxInv, Sound, IdsInv;
    match step
    case SelectUser(t) => SelectUserKept(s, t);
    case DebitUser(t) => DebitKept(s, t);
    case InsertPayment(t, id) => InsertPaymentKept(s, t, id);
    case InsertEvent(t, id) => InsertEventKept(s, t, id);
    case SelectPayment(t) => SelectPaymentKept(s, t);
    case CreditUser(t) => CreditKept(s, t);
    case MarkRefunded(t) => MarkRefundedKept(s, t);
    case ClaimBatch(t, rows, scan) => ClaimKept(s, t, rows, scan);
    case Enqueue(t, event, delivered) => EnqueueKept(s, t, event, delivered);
    case WriteStatus(t) => WriteStatusKept(s, t);
    case Commit(t) => EndKept(s, t);
    case Rollback(t) => EndKept(s, t);
  }

  lemma StepLocks(s: State, step: Step)
    requires LocksInv(s) && Next(s, step).Some? && !step.Begin?
    ensures LocksApart(s, Next(s, step).value, step.t) && OwnLocks(Next(s, step).value, step.t)
  {
    hide DoSelectUser, DoDebit, DoInsertPayment, DoInsertEvent, DoSelectPayment, DoCredit, DoMarkRefunded, DoClaim, DoEnqueue, DoWriteStatus;
    hide DoCommit, DoRollback, LocksApart, MayHold;
    if step.Commit? || step.Rollback? {
      EndMoves(s, step.t);
    } else {
      StepMoves(s, step);
    }
  }

  lemma LocksKept(s: State, step: Step)
    requires LocksInv(s) && Next(s, step).Some?
    ensures LocksInv(Next(s, step).value)
  {
    hide Next, MayHold;
    if step.Begin? {
      BeginMoves(s, step);
    } else {
      StepLocks(s, step);
      ActorMoves(s, step);
    }
  }

  lemma TablesKept(s: State, step: Step)
    requires Sound(s.db) && IdsInv(s) && Next(s, step).Some?
    requires !step.Begin? ==> step.t < |s.txs| && TxInv(s, step.t)
    ensures Sound(Next(s, step).value.db) && IdsInv(Next(s, step).value)
  {
    if step.Begin? {
      BeginMoves(s, step);
    } else if step.Commit? {
      hide TxInv, Sound, IdsInv, DoCommit;
      CommitSound(s, step.t);
    } else {
      hide Next, TxInv, LocksApart;
      StepLocal(s, step);
    }
  }

  // One statement keeps one transaction's part of the invariant.
  lemma TxKept(s: State, step: Step, t: nat)
    requires Inv(s) && Next(s, step).Some? && t < |Next(s, step).value.txs|
    ensures TxInv(Next(s, step).value, t)
  {
    if step.Begin? && t == |s.txs| {
      BeginMoves(s, step);
    } else {
      hide Next, TxInv, Apart, Sound, IdsInv, LocksInv;
      if step.Begin? {
        BeginMoves(s, step);
      } else {
        ActorMoves(s, step);
        assert TxInv(s, step.t);
      }
      if t == Actor(s, step) {
        ActorKept(s, step);
      } else {
        StepApart(s, step);
        OthersKept(s, Next(s, step).value, Actor(s, step), t);
      }
    }
  }

  /** Every statement keeps the invariant. */
  lemma StepKept(s: State, step: Step)
    requires Inv(s) && Next(s, step).Some?
    ensures Inv(Next(s, step).value)
  {
    hide Next, TxInv, Sound, IdsInv, LocksInv;
    if !step.Begin? {
      ActorMoves(s, step);
      assert TxInv(s, step.t);
    }
    TablesKept(s, step);
    LocksKept(s, step);
    forall t | 0 <= t < |Next(s, step).value.txs|
      ensures TxInv(Next(s, step).value, t)
    {
      TxKept(s, step, t);
    }
  }

  lemma {:induction false} RunKept(s: State, steps: seq<Step>)
    requires Inv(s) && Run(s, steps).Some?
    ensures Inv(Run(s, steps).value)
  {
    hide Next, Inv;
    if steps != [] {
      var front := steps[..|steps| - 1];
      RunKept(s, front);
      StepKept(Run(s, front).value, steps[|steps| - 1]);
    }
  }

  lemma InitInv(db: Db)
    requires Sound(db)
    ensures Inv(Init(db))
  {
  }

  // ---------- serialisability ----------

  lemma WholeBatch(s: State, t: nat)
    requires t < |s.txs| && TxInv(s, t) && s.txs[t].phase.Working?
    ensures Summary(s.txs[t]).Some? && Whole(s.db, Summary(s.txs[t]).value) == Some(Overlay(s.db, s.txs[t].writes))
  {
    var done := s.txs[t].phase.done;
    var outbox := s.db.outbox + s.txs[t].writes.outbox;
    assert outbox == map id | id in s.db.outbox :: if id in done then Settle(s.db.outbox[id], done[id]) else s.db.outbox[id];
    assert Overlay(s.db, s.txs[t].writes) == s.db.(outbox := outbox);
  }

  lemma WholeCharge(s: State, t: nat)
    requires t < |s.txs| && TxInv(s, t) && s.txs[t].phase.EventStaged?
    ensures Summary(s.txs[t]).Some? && Whole(s.db, Summary(s.txs[t]).value) == Some(Overlay(s.db, s.txs[t].writes))
  {
    assert Whole(s.db, Summary(s.txs[t]).value).value == Overlay(s.db, s.txs[t].writes);
  }

  lemma WholeRefund(s: State, t: nat)
    requires t < |s.txs| && TxInv(s, t) && s.txs[t].phase.MarkedRefunded?
    ensures Summary(s.txs[t]).Some? && Whole(s.db, Summary(s.txs[t]).value) == Some(Overlay(s.db, s.txs[t].writes))
  {
    assert Whole(s.db, Summary(s.txs[t]).value).value == Overlay(s.db, s.txs[t].writes);
  }

  // At its commit, a transaction's buffered writes are what it would do alone.
  lemma CommitIsWhole(s: State, t: nat)
    requires Inv(s) && t < |s.txs| && DoCommit(s, t).Some?
    ensures Summary(s.txs[t]).Some?
    ensures Whole(s.db, Summary(s.txs[t]).value) == Some(DoCommit(s, t).value.db)
  {
    hide Whole, Overlay, Release, TxInv;
    assert TxInv(s, t);
    match s.txs[t].phase
    case EventStaged(_, _) => WholeCharge(s, t);
    case MarkedRefunded(_) => WholeRefund(s, t);
    case Working(_, _) => WholeBatch(s, t);
  }

  lemma StepIsSerial(s: State, step: Step)
    requires Inv(s) && Next(s, step).Some?
    ensures step.Commit? ==> step.t < |s.txs| && Summary(s.txs[step.t]).Some?
    ensures step.Commit? ==> Whole(s.db, Summary(s.txs[step.t]).value) == Some(Next(s, step).value.db)
    ensures !step.Commit? ==> Next(s, step).value.db == s.db
  {
    hide Inv, Whole, Summary, DoCommit;
    if step.Commit? {
      CommitIsWhole(s, step.t);
    } else if step.Begin? {
      BeginMoves(s, step);
    } else {
      hide Next;
      ActorMoves(s, step);
    }
  }

  lemma InitDb(db: Db)
    ensures Init(db).db == db && Init(db).txs == []
  {
  }

  /** Serialisability: replaying the committed transactions whole, in commit order, gives the
      committed tables of the interleaved run. */
  lemma {:induction false} Serialisable(db: Db, steps: seq<Step>)
    requires Sound(db) && Run(Init(db), steps).Some?
    ensures Replay(db, CommitLog(Init(db), steps)) == Some(Run(Init(db), steps).value.db)
  {
    hide Next, Inv, Whole, Sound, Summary, Init;
    if steps == [] {
      assert Init(db).db == db by { InitDb(db); }
    } else {
      var front := steps[..|steps| - 1];
      var last := steps[|steps| - 1];
      Serialisable(db, front);
      InitInv(db);
      RunKept(Init(db), front);
      var mid := Run(Init(db), front).value;
      StepIsSerial(mid, last);
      if last.Commit? {
        var txn := Summary(mid.txs[last.t]).value;
        var log := CommitLog(Init(db), front);
        assert (log + [txn])[..|log|] == log;
      }
    }
  }

  // ---------- the log is complete ----------

  function ProgramOf(txn: Txn): Program {
    match txn
    case ChargeTxn(user, amount, currency, _, _, _) => Charge(user, amount, currency)
    case RefundTxn(payment) => Refund(payment)
    case DispatchTxn(_) => Dispatch
  }

  ghost function Logged(log: seq<Txn>): multiset<Program> {
    if log == [] then multiset{} else Logged(log[..|log| - 1]) + multiset{ProgramOf(log[|log| - 1])}
  }

  ghost function CommittedPrograms(txs: seq<Tx>): multiset<Program> {
    if txs == [] then multiset{}
    else
      var last := txs[|txs| - 1];
      CommittedPrograms(txs[..|txs| - 1]) + if last.phase.Committed? then multiset{last.program} else multiset{}
  }

  lemma {:induction false} CommittedAfter(txs: seq<Tx>, t: nat, tx: Tx)
    requires t < |txs| && txs[t].program == tx.program && !txs[t].phase.Committed?
    ensures CommittedPrograms(txs[t := tx]) ==
            CommittedPrograms(txs) + if tx.phase.Committed? then multiset{tx.program} else multiset{}
  {
    var n := |txs| - 1;
    if t < n {
      CommittedAfter(txs[..n], t, tx);
      assert txs[t := tx][..n] == txs[..n][t := tx];
    } else {
      assert txs[t := tx][..n] == txs[..n];
    }
  }

  lemma SummaryProgram(tx: Tx)
    requires Summary(tx).Some?
    ensures ProgramOf(Summary(tx).value) == tx.program
  {
  }

  lemma LogStep(s: State, step: Step, log: seq<Txn>)
    requires Inv(s) && Next(s, step).Some? && !step.Begin?
    requires Logged(log) == CommittedPrograms(s.txs)
    ensures step.Commit? ==> Summary(s.txs[step.t]).Some?
    ensures step.Commit? ==> Logged(log + [Summary(s.txs[step.t]).value]) == CommittedPrograms(Next(s, step).value.txs)
    ensures !step.Commit? ==> Logged(log) == CommittedPrograms(Next(s, step).value.txs)
  {
    hide Next, Inv, Whole;
    ActorMoves(s, step);
    CommittedAfter(s.txs, step.t, Next(s, step).value.txs[step.t]);
    if step.Commit? {
      StepIsSerial(s, step);
      SummaryProgram(s.txs[step.t]);
      assert (log + [Summary(s.txs[step.t]).value])[..|log|] == log;
    }
  }

  lemma LogBegin(s: State, step: Step)
    requires Next(s, step).Some? && step.Begin?
    ensures CommittedPrograms(Next(s, step).value.txs) == CommittedPrograms(s.txs)
  {
    hide Next;
    BeginMoves(s, step);
    assert Next(s, step).value.txs[..|s.txs|] == s.txs;
  }

  /** Every committed transaction is in the log, and the log holds nothing else. */
  lemma {:induction false} LogIsComplete(db: Db, steps: seq<Step>)
    requires Sound(db) && Run(Init(db), steps).Some?
    ensures Logged(CommitLog(Init(db), steps)) == CommittedPrograms(Run(Init(db), steps).value.txs)
  {
    hide Next, Inv, Sound, Summary, Init;
    if steps == [] {
      InitDb(db);
    } else {
      var front := steps[..|steps| - 1];
      var last := steps[|steps| - 1];
      LogIsComplete(db, front);
      InitInv(db);
      RunKept(Init(db), front);
      var mid := Run(Init(db), front).value;
      if last.Begin? {
        LogBegin(mid, last);
      } else {
        ActorMoves(mid, last);
        LogStep(mid, last, CommitLog(Init(db), front));
      }
    }
  }
}
