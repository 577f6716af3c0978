/** The ledger database as a transition system.

    A state holds the committed tables, every transaction ever begun with its buffered writes,
    the row locks and the task queue.  `Next` executes one statement of one transaction; a
    statement that would wait for a row lock is not enabled.  Charges, refunds and outbox
    batches are programs over these statements, and `Rollback` may strike at any point, which
    covers crashes, timeouts, lost connections and serialization failures. */
module Ledger {
  import opened Wrappers

  // Rows fetched by one outbox poll.
  const BATCH_LIMIT := 10

  // Primary keys.  gen_random_uuid() is a supply of ids that never repeats.
  type Id = nat

  // ---------- tables ----------

  // The enum payment_status of the schema.
  datatype PaymentStatus = Pending | Processing | Succeeded | Failed | Refunded

  datatype Payment = Payment(user: Id, amount: int, currency: string, status: PaymentStatus)

  datatype EventStatus = EventPending | EventProcessed | EventFailed

  // An outbox row: the aggregate is the payment, the next three fields are its webhook payload.
  datatype Event = Event(aggregate: Id, user: Id, amount: int, currency: string, createdAt: nat, status: EventStatus)

  datatype Db = Db(users: map<Id, int>, payments: map<Id, Payment>, outbox: map<Id, Event>)

  datatype Row = UserRow(id: Id) | PaymentRow(id: Id) | EventRow(id: Id)

  const NoWrites := Db(map[], map[], map[])

  function Overlay(db: Db, writes: Db): Db {
    Db(db.users + writes.users, db.payments + writes.payments, db.outbox + writes.outbox)
  }

  function StatusText(status: PaymentStatus): string {
    match status
    case Pending => "pending"
    case Processing => "processing"
    case Succeeded => "succeeded"
    case Failed => "failed"
    case Refunded => "refunded"
  }

  // The refund guard compares the status text with three words; two of them are not in the enum.
  predicate RefundableText(text: string) {
    text == "succeeded" || text == "paid" || text == "COMPLETED"
  }

  predicate Refundable(payment: Payment) {
    RefundableText(StatusText(payment.status))
  }

  function Settle(event: Event, delivered: bool): Event {
    event.(status := if delivered then EventProcessed else EventFailed)
  }

  // ---------- transactions ----------

  datatype Program =
    | Charge(user: Id, amount: int, currency: string)
    | Refund(payment: Id)
    | Dispatch

  datatype Phase =
    | Open
    // charge
    | UserRead(balance: int)
    | Debited
    | PaymentInserted(payment: Id)
    | EventStaged(payment: Id, event: Id)
    // refund
    | PaymentRead(record: Payment)
    | Credited(record: Payment)
    | MarkedRefunded(record: Payment)
    // outbox batch: `todo` is unsent, `done` says which events were enqueued
    | Working(todo: seq<Id>, done: map<Id, bool>)
    | Sent(todo: seq<Id>, done: map<Id, bool>, delivered: bool)
    // a guard or a statement failed, only the rollback remains
    | Refused
    | Committed
    | RolledBack

  datatype Tx = Tx(program: Program, startedAt: nat, phase: Phase, writes: Db)
  {
    predicate Live() {
      !phase.Committed? && !phase.RolledBack?
    }
  }

  // `issued` remembers which transaction drew each id; -1 marks ids of the initial tables.
  datatype State = State(db: Db, txs: seq<Tx>, locks: map<Row, nat>, issued: map<Id, int>, queue: seq<Id>)
  {
    predicate Free(row: Row, t: nat) {
      row in locks ==> locks[row] == t
    }
  }

  function Init(db: Db): State {
    State(db, [], map[], map id | id in db.payments.Keys + db.outbox.Keys :: -1, [])
  }

  datatype Step =
    | Begin(program: Program, at: nat)
    | SelectUser(t: nat)
    | DebitUser(t: nat)
    | InsertPayment(t: nat, id: Id)
    | InsertEvent(t: nat, id: Id)
    | SelectPayment(t: nat)
    | CreditUser(t: nat)
    | MarkRefunded(t: nat)
    | ClaimBatch(t: nat, rows: seq<Id>, scan: Scan)
    | Enqueue(t: nat, event: Id, delivered: bool)
    | WriteStatus(t: nat)
    | Commit(t: nat)
    | Rollback(t: nat)

  // ---------- statements ----------

  function Release(locks: map<Row, nat>, t: nat): map<Row, nat> {
    map row | row in locks && locks[row] != t :: locks[row]
  }

  function Put(s: State, t: nat, tx: Tx): State
    requires t < |s.txs|
  {
    s.(txs := s.txs[t := tx])
  }

  function Move(s: State, t: nat, phase: Phase): State
    requires t < |s.txs|
  {
    Put(s, t, s.txs[t].(phase := phase))
  }

  function Lock(s: State, row: Row, t: nat): State {
    s.(locks := s.locks[row := t])
  }

  // SELECT balance FROM users WHERE id = $1 FOR UPDATE
  function DoSelectUser(s: State, t: nat): Option<State>
    requires t < |s.txs|
  {
    var tx := s.txs[t];
    if !tx.program.Charge? || !tx.phase.Open? then None
    else
      var user := tx.program.user;
      if user !in s.db.users then Some(Move(s, t, Refused))
      else if !s.Free(UserRow(user), t) then None
      else Some(Lock(Move(s, t, UserRead(s.db.users[user])), UserRow(user), t))
  }

  // The overdraft check, then UPDATE users SET balance = balance - $1
  function DoDebit(s: State, t: nat): Option<State>
    requires t < |s.txs|
  {
    var tx := s.txs[t];
    if !tx.program.Charge? || !tx.phase.UserRead? then None
    else
      var Charge(user, amount, _) := tx.program;
      if tx.phase.balance < amount || user !in s.db.users then Some(Move(s, t, Refused))
      else
        var balance := s.db.users[user] - amount;
        Some(Put(s, t, tx.(phase := Debited, writes := tx.writes.(users := tx.writes.users[user := balance]))))
  }

  // INSERT INTO payments ... 'succeeded'
  function DoInsertPayment(s: State, t: nat, id: Id): Option<State>
    requires t < |s.txs|
  {
    var tx := s.txs[t];
    if !tx.program.Charge? || !tx.phase.Debited? || id in s.issued then None
    else
      var Charge(user, amount, currency) := tx.program;
      var row := Payment(user, amount, currency, Succeeded);
      Some(Put(s, t, tx.(phase := PaymentInserted(id), writes := tx.writes.(payments := tx.writes.payments[id := row])))
           .(issued := s.issued[id := t]))
  }

  // INSERT INTO outbox_events ... 'PENDING'
  function DoInsertEvent(s: State, t: nat, id: Id): Option<State>
    requires t < |s.txs|
  {
    var tx := s.txs[t];
    if !tx.program.Charge? || !tx.phase.PaymentInserted? || id in s.issued then None
    else
      var Charge(user, amount, currency) := tx.program;
      var payment := tx.phase.payment;
      var row := Event(payment, user, amount, currency, tx.startedAt, EventPending);
      Some(Put(s, t, tx.(phase := EventStaged(payment, id), writes := tx.writes.(outbox := tx.writes.outbox[id := row])))
           .(issued := s.issued[id := t]))
  }

  // SELECT ... FROM payments WHERE id = $1 FOR UPDATE
  function DoSelectPayment(s: State, t: nat): Option<State>
    requires t < |s.txs|
  {
    var tx := s.txs[t];
    if !tx.program.Refund? || !tx.phase.Open? then None
    else
      var payment := tx.program.payment;
      if payment !in s.db.payments then Some(Move(s, t, Refused))
      else if !s.Free(PaymentRow(payment), t) then None
      else Some(Lock(Move(s, t, PaymentRead(s.db.payments[payment])), PaymentRow(payment), t))
  }

  // The status guard, then UPDATE users SET balance = balance + $1, an error when BIGINT overflows.
  // The foreign key makes sure that the user row exists.
  function DoCredit(s: State, t: nat): Option<State>
    requires t < |s.txs|
  {
    var tx := s.txs[t];
    if !tx.program.Refund? || !tx.phase.PaymentRead? then None
    else
      var record := tx.phase.record;
      if !Refundable(record) || record.user !in s.db.users then Some(Move(s, t, Refused))
      else if !s.Free(UserRow(record.user), t) then None
      else if s.db.users[record.user] + record.amount > MAX_INT64 then Some(Move(s, t, Refused))
      else
        var balance := s.db.users[record.user] + record.amount;
        Some(Lock(Put(s, t, tx.(phase := Credited(record), writes := tx.writes.(users := tx.writes.users[record.user := balance]))),
                  UserRow(record.user), t))
  }

  // UPDATE payments SET status = 'refunded'
  function DoMarkRefunded(s: State, t: nat): Option<State>
    requires t < |s.txs|
  {
    var tx := s.txs[t];
    if !tx.program.Refund? || !tx.phase.Credited? then None
    else
      var payment := tx.program.payment;
      if payment !in s.db.payments then Some(Move(s, t, Refused))
      else
        var row := s.db.payments[payment].(status := Refunded);
        Some(Put(s, t, tx.(phase := MarkedRefunded(tx.phase.record), writes := tx.writes.(payments := tx.writes.payments[payment := row]))))
  }

  // A pending row that no transaction has locked; SKIP LOCKED passes over the others.
  predicate Claimable(s: State, id: Id) {
    id in s.db.outbox && s.db.outbox[id].status.EventPending? && EventRow(id) !in s.locks
  }

  // What one poll meets: rows that its scan passed over because they were locked at that moment or
  // committed too late for its snapshot, and rows that fail to scan.
  datatype Scan = Scan(passed: set<Id>, unread: set<Id>)

  // ORDER BY created_at ASC LIMIT 10 FOR UPDATE SKIP LOCKED
  predicate IsBatch(s: State, rows: seq<Id>, passed: set<Id>) {
    && |rows| <= BATCH_LIMIT
    && (forall i :: 0 <= i < |rows| ==> Claimable(s, rows[i]))
    && (forall i, j :: 0 <= i < j < |rows| ==> rows[i] != rows[j])
    && (forall i, j :: 0 <= i < j < |rows| ==> s.db.outbox[rows[i]].createdAt <= s.db.outbox[rows[j]].createdAt)
    && (forall id :: id in s.db.outbox && Claimable(s, id) && id !in rows && id !in passed ==>
          |rows| == BATCH_LIMIT && forall i :: 0 <= i < |rows| ==> s.db.outbox[rows[i]].createdAt <= s.db.outbox[id].createdAt)
  }

  // Rows whose scan failed stay locked but are not worked on.
  function Readable(rows: seq<Id>, unread: set<Id>): (todo: seq<Id>)
    ensures |todo| <= |rows|
    ensures forall id :: id in todo <==> id in rows && id !in unread
    ensures (forall i, j :: 0 <= i < j < |rows| ==> rows[i] != rows[j]) ==>
              forall i, j :: 0 <= i < j < |todo| ==> todo[i] != todo[j]
  {
    if rows == [] then []
    else if rows[0] in unread then Readable(rows[1..], unread)
    else [rows[0]] + Readable(rows[1..], unread)
  }

  function DoClaim(s: State, t: nat, rows: seq<Id>, scan: Scan): Option<State>
    requires t < |s.txs|
  {
    var tx := s.txs[t];
    if !tx.program.Dispatch? || !tx.phase.Open? || !IsBatch(s, rows, scan.passed) then None
    else
      var todo := Readable(rows, scan.unread);
      var moved := Move(s, t, if todo == [] then Refused else Working(todo, map[]));
      Some(moved.(locks := s.locks + map id | id in rows :: EventRow(id) := t))
  }

  // EnqueueContext, outside the transaction: a rollback does not take it back.
  function DoEnqueue(s: State, t: nat, event: Id, delivered: bool): Option<State>
    requires t < |s.txs|
  {
    var tx := s.txs[t];
    if !tx.program.Dispatch? || !tx.phase.Working? || tx.phase.todo == [] || tx.phase.todo[0] != event then None
    else
      Some(Move(s, t, Sent(tx.phase.todo, tx.phase.done, delivered)).(queue := if delivered then s.queue + [event] else s.queue))
  }

  // UPDATE outbox_events SET status = $1
  function DoWriteStatus(s: State, t: nat): Option<State>
    requires t < |s.txs|
  {
    var tx := s.txs[t];
    if !tx.program.Dispatch? || !tx.phase.Sent? then None
    else
      var Sent(todo, done, delivered) := tx.phase;
      if todo == [] || todo[0] !in s.db.outbox then Some(Move(s, t, Refused))
      else
        var row := Settle(s.db.outbox[todo[0]], delivered);
        Some(Put(s, t, tx.(phase := Working(todo[1..], done[todo[0] := delivered]),
                           writes := tx.writes.(outbox := tx.writes.outbox[todo[0] := row]))))
  }

  predicate ReadyToCommit(phase: Phase) {
    phase.EventStaged? || phase.MarkedRefunded? || (phase.Working? && phase.todo == [])
  }

  function DoCommit(s: State, t: nat): Option<State>
    requires t < |s.txs|
  {
    if !ReadyToCommit(s.txs[t].phase) then None
    else Some(Move(s, t, Committed).(db := Overlay(s.db, s.txs[t].writes), locks := Release(s.locks, t)))
  }

  function DoRollback(s: State, t: nat): Option<State>
    requires t < |s.txs|
  {
    if !s.txs[t].Live() then None
    else Some(Move(s, t, RolledBack).(locks := Release(s.locks, t)))
  }

  // ProcessCharge rejects non-positive amounts before it opens a transaction.
  predicate CanBegin(program: Program) {
    program.Charge? ==> program.amount > 0
  }

  function DoBegin(s: State, program: Program, at: nat): Option<State> {
    if CanBegin(program) then Some(s.(txs := s.txs + [Tx(program, at, Open, NoWrites)])) else None
  }

  /** One statement.  None means that the statement is not the program's next one or has to wait. */
  function Next(s: State, step: Step): Option<State> {
    if step.Begin? then DoBegin(s, step.program, step.at)
    else if step.t >= |s.txs| then None
    else
      match step
      case SelectUser(t) => DoSelectUser(s, t)
      case DebitUser(t) => DoDebit(s, t)
      case InsertPayment(t, id) => DoInsertPayment(s, t, id)
      case InsertEvent(t, id) => DoInsertEvent(s, t, id)
      case SelectPayment(t) => DoSelectPayment(s, t)
      case CreditUser(t) => DoCredit(s, t)
      case MarkRefunded(t) => DoMarkRefunded(s, t)
      case ClaimBatch(t, rows, scan) => DoClaim(s, t, rows, scan)
      case Enqueue(t, event, delivered) => DoEnqueue(s, t, event, delivered)
      case WriteStatus(t) => DoWriteStatus(s, t)
      case Commit(t) => DoCommit(s, t)
      case Rollback(t) => DoRollback(s, t)
  }

  /** A run: statements of any number of transactions in any interleaving. */
  function Run(s: State, steps: seq<Step>): Option<State> {
    if steps == [] then Some(s)
    else
      match Run(s, steps[..|steps| - 1])
      case None => None
      case Some(mid) => Next(mid, steps[|steps| - 1])
  }

  // ---------- whole transactions ----------

  /** What a committed transaction did, as one indivisible operation. */
  datatype Txn =
    | ChargeTxn(user: Id, amount: int, currency: string, at: nat, payment: Id, event: Id)
    | RefundTxn(payment: Id)
    | DispatchTxn(done: map<Id, bool>)

  /** The transaction run alone; None when one of its own checks refuses it. */
  function Whole(db: Db, txn: Txn): Option<Db> {
    match txn
    case ChargeTxn(user, amount, currency, at, payment, event) =>
      if user !in db.users || amount <= 0 || db.users[user] < amount || payment in db.payments || event in db.outbox then None
      else Some(Db(db.users[user := db.users[user] - amount],
                   db.payments[payment := Payment(user, amount, currency, Succeeded)],
                   db.outbox[event := Event(payment, user, amount, currency, at, EventPending)]))
    case RefundTxn(payment) =>
      if payment !in db.payments || !db.payments[payment].status.Succeeded? then None
      else
        var row := db.payments[payment];
        if row.user !in db.users || db.users[row.user] + row.amount > MAX_INT64 then None
        else Some(Db(db.users[row.user := db.users[row.user] + row.amount],
                     db.payments[payment := row.(status := Refunded)],
                     db.outbox))
    case DispatchTxn(done) =>
      if !(forall id :: id in done ==> id in db.outbox && db.outbox[id].status.EventPending?) then None
      else Some(db.(outbox := map id | id in db.outbox :: if id in done then Settle(db.outbox[id], done[id]) else db.outbox[id]))
  }

  function Replay(db: Db, log: seq<Txn>): Option<Db> {
    if log == [] then Some(db)
    else
      match Replay(db, log[..|log| - 1])
      case None => None
      case Some(mid) => Whole(mid, log[|log| - 1])
  }

  function Summary(tx: Tx): Option<Txn> {
    match (tx.program, tx.phase)
    case (Charge(user, amount, currency), EventStaged(payment, event)) =>
      Some(ChargeTxn(user, amount, currency, tx.startedAt, payment, event))
    case (Refund(payment), MarkedRefunded(_)) => Some(RefundTxn(payment))
    case (Dispatch, Working(_, done)) => Some(DispatchTxn(done))
    case _ => None
  }

  /** The committed transactions of a run, in commit order. */
  function CommitLog(s: State, steps: seq<Step>): seq<Txn> {
    if steps == [] then []
    else
      var front := steps[..|steps| - 1];
      var last := steps[|steps| - 1];
      match Run(s, front)
      case None => CommitLog(s, front)
      case Some(mid) =>
        if last.Commit? && last.t < |mid.txs| && Summary(mid.txs[last.t]).Some?
        then CommitLog(s, front) + [Summary(mid.txs[last.t]).value]
        else CommitLog(s, front)
  }
}
