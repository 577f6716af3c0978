/** The Go methods that drive transactions, as clients of the transition system.  Around each
    statement other sessions may run any statements, and each statement may fail; the deferred
    rollback cleans up.  The contracts say how every exit leaves the database. */
module PaymentService {
  import opened Wrappers
  import opened Ledger
  import opened Isolation

  // What happens around one statement of a method: statements of other sessions come first, and
  // the statement itself may fail (connection lost, context cancelled, row lock not granted in
  // time, serialization failure).  A failed COMMIT has not committed.
  datatype Turn = Turn(others: seq<Step>, fails: bool)

  // No interference and no failure.
  const Calm := Turn([], false)

  predicate AllCalm(turns: seq<Turn>) {
    forall i :: 0 <= i < |turns| ==> turns[i] == Calm
  }

  predicate NoneFails(turns: seq<Turn>) {
    forall i :: 0 <= i < |turns| ==> !turns[i].fails
  }

  lemma SliceTurns(turns: seq<Turn>, i: nat)
    requires 0 < i <= |turns|
    ensures turns[i..|turns|] == turns[i..]
    ensures AllCalm(turns) ==> turns[0] == Calm && AllCalm(turns[i..])
    ensures NoneFails(turns) ==> !turns[0].fails && NoneFails(turns[i..])
  {
  }

  // ---------- what a call adds to the trace ----------

  function OthersOf(turn: Turn): set<Step> {
    set step | step in turn.others
  }

  function OthersIn(turns: seq<Turn>): set<Step> {
    set i, step | 0 <= i < |turns| && step in turns[i].others :: step
  }

  lemma OthersWithin(turns: seq<Turn>, i: nat, j: nat)
    requires i <= j <= |turns|
    ensures OthersIn(turns[i..j]) <= OthersIn(turns)
    ensures i < |turns| ==> OthersOf(turns[i]) <= OthersIn(turns)
  {
    forall step | step in OthersIn(turns[i..j])
      ensures step in OthersIn(turns)
    {
      var k :| 0 <= k < j - i && step in turns[i..j][k].others;
      assert turns[i..j][k] == turns[i + k];
    }
  }

  // Only statements of transaction t and of the others were added.
  predicate Adds(before: seq<Step>, after: seq<Step>, t: nat, others: set<Step>) {
    && before <= after
    && forall p :: |before| <= p < |after| ==> after[p] in others || (!after[p].Begin? && after[p].t == t)
  }

  lemma AddsMore(a: seq<Step>, b: seq<Step>, c: seq<Step>, t: nat, others: set<Step>, more: set<Step>, all: set<Step>)
    requires Adds(a, b, t, others) && Adds(b, c, t, more) && others <= all && more <= all
    ensures Adds(a, c, t, all)
  {
    forall p | |a| <= p < |c|
      ensures c[p] in all || (!c[p].Begin? && c[p].t == t)
    {
      assert p < |b| ==> c[p] == b[p];
    }
  }

  lemma AddsNothing(a: seq<Step>, t: nat, others: set<Step>)
    ensures Adds(a, a, t, others)
  {
  }

  lemma AddsWider(a: seq<Step>, b: seq<Step>, t: nat, others: set<Step>, all: set<Step>)
    requires Adds(a, b, t, others) && others <= all
    ensures Adds(a, b, t, all)
  {
  }

  // The call opened transaction t by one BEGIN, and everything else it added belongs to t or the others.
  ghost predicate OneTx(origin: Db, before: seq<Step>, after: seq<Step>, t: nat, program: Program, at: nat, others: set<Step>) {
    exists b :: |before| <= b < |after| && OpensAt(origin, before, after, b, t, program, at, others)
  }

  ghost predicate OpensAt(origin: Db, before: seq<Step>, after: seq<Step>, b: nat, t: nat, program: Program, at: nat, others: set<Step>)
    requires |before| <= b < |after|
  {
    && before <= after && after[b] == Begin(program, at)
    && (forall p :: |before| <= p < b ==> after[p] in others)
    && Run(Init(origin), after[..b]).Some? && |Run(Init(origin), after[..b]).value.txs| == t
    && Adds(after[..b + 1], after, t, others)
  }

  lemma OneTxMore(origin: Db, a: seq<Step>, b: seq<Step>, c: seq<Step>, t: nat, program: Program, at: nat,
                  others: set<Step>, more: set<Step>, all: set<Step>)
    requires OneTx(origin, a, b, t, program, at, others) && Adds(b, c, t, more) && others <= all && more <= all
    ensures OneTx(origin, a, c, t, program, at, all)
  {
    hide Run;
    var k :| |a| <= k < |b| && OpensAt(origin, a, b, k, t, program, at, others);
    assert c[..k] == b[..k] && c[..k + 1] == b[..k + 1];
    AddsMore(b[..k + 1], b, c, t, others, more, all);
    assert OpensAt(origin, a, c, k, t, program, at, all);
  }

  lemma OneTxLonger(origin: Db, a: seq<Step>, b: seq<Step>, t: nat, program: Program, at: nat, others: set<Step>)
    requires OneTx(origin, a, b, t, program, at, others)
    ensures |a| < |b| && a <= b
  {
    hide Run;
  }

  // A call that opened at most this one transaction and otherwise let only the others act.
  ghost predicate OneTxAtMost(origin: Db, before: seq<Step>, after: seq<Step>, tx: Option<nat>, program: Program, at: nat, others: set<Step>) {
    if tx.Some? then OneTx(origin, before, after, tx.value, program, at, others)
    else before <= after && forall p :: |before| <= p < |after| ==> after[p] in others
  }

  lemma TurnWithin(before: seq<Step>, after: seq<Step>, turns: seq<Turn>)
    requires |turns| > 0 && forall p :: |before| <= p < |after| ==> after[p] in turns[0].others
    ensures forall p :: |before| <= p < |after| ==> after[p] in OthersIn(turns)
  {
  }

  // The database was in this state after some of the statements from position `from` on.
  ghost predicate Was(origin: Db, trace: seq<Step>, from: nat, s: State) {
    exists k :: from <= k <= |trace| && Run(Init(origin), trace[..k]) == Some(s)
  }

  lemma WasStill(origin: Db, trace: seq<Step>, longer: seq<Step>, from: nat, since: nat, s: State)
    requires Was(origin, trace, since, s) && trace <= longer && from <= since
    ensures Was(origin, longer, from, s)
  {
    hide Run;
    var k :| since <= k <= |trace| && Run(Init(origin), trace[..k]) == Some(s);
    assert longer[..k] == trace[..k];
  }

  ghost predicate NoLocks(s: State, t: nat) {
    forall row :: row in s.locks ==> s.locks[row] != t
  }

  // Transaction t and its locks are as before.
  ghost predicate SameTx(s: State, s': State, t: nat) {
    && t < |s.txs| <= |s'.txs| && s'.txs[t] == s.txs[t]
    && (forall row :: Holds(s, row, t) ==> Holds(s', row, t))
  }

  ghost predicate SameProgram(s: State, s': State, t: nat) {
    && t < |s.txs| <= |s'.txs|
    && s'.txs[t].program == s.txs[t].program && s'.txs[t].startedAt == s.txs[t].startedAt
  }

  // How a method leaves its transaction: ended, without locks, committed exactly on success.
  ghost predicate Closed(s: State, t: nat, program: Program, committed: bool) {
    && t < |s.txs| && s.txs[t].program == program && NoLocks(s, t)
    && s.txs[t].phase == (if committed then Committed else RolledBack)
  }

  lemma RunMore(s: State, steps: seq<Step>, step: Step)
    requires Run(s, steps).Some?
    ensures Run(s, steps + [step]) == Next(Run(s, steps).value, step)
  {
    assert (steps + [step])[..|steps|] == steps;
  }

  lemma OtherStep(s: State, step: Step, t: nat)
    requires Inv(s) && Next(s, step).Some? && t < |s.txs| && (step.Begin? || step.t != t)
    ensures SameTx(s, Next(s, step).value, t)
  {
    hide Next, TxInv, TablesApart;
    if step.Begin? {
      BeginMoves(s, step);
    } else {
      ActorMoves(s, step);
      assert TxInv(s, step.t);
    }
    StepApart(s, step);
  }

  /** One database, shared by all sessions; `trace` is every statement executed so far. */
  class Database {
    var st: State
    ghost var trace: seq<Step>
    ghost const origin: Db

    ghost predicate Valid()
      reads this
    {
      Sound(origin) && Run(Init(origin), trace) == Some(st)
    }

    lemma Lawful()
      requires Valid()
      ensures Inv(st)
    {
      InitInv(origin);
      RunKept(Init(origin), trace);
    }

    constructor (db: Db)
      requires Sound(db)
      ensures Valid() && st == Init(db) && trace == [] && origin == db
    {
      st := Init(db);
      trace := [];
      origin := db;
    }

    // An enabled statement.
    method Step(step: Step)
      requires Valid() && Next(st, step).Some?
      modifies this
      ensures Valid() && Some(st) == Next(old(st), step) && trace == old(trace) + [step]
    {
      RunMore(Init(origin), trace, step);
      st := Next(st, step).value;
      trace := trace + [step];
    }

    // Statements of sessions other than transaction t; one that is not enabled does not run.
    method Interfere(others: seq<Step>, t: nat)
      requires Valid() && t <= |st.txs|
      modifies this
      ensures Valid() && old(trace) <= trace
      ensures t < |old(st).txs| ==> SameTx(old(st), st, t)
      ensures |old(st).txs| <= |st.txs|
      ensures others == [] ==> st == old(st) && trace == old(trace)
      ensures forall p :: |old(trace)| <= p < |trace| ==> trace[p] in others
    {
      for i := 0 to |others|
        invariant Valid() && old(trace) <= trace
        invariant t < |old(st).txs| ==> SameTx(old(st), st, t)
        invariant |old(st).txs| <= |st.txs|
        invariant i == 0 ==> st == old(st) && trace == old(trace)
        invariant forall p :: |old(trace)| <= p < |trace| ==> trace[p] in others
      {
        if Next(st, others[i]).Some? && (others[i].Begin? || others[i].t != t) {
          if t < |old(st).txs| {
            Lawful();
            OtherStep(st, others[i], t);
          }
          TxsGrow(st, others[i]);
          Step(others[i]);
        }
      }
    }

    // BEGIN; on success t is the new transaction.
    method BeginTx(program: Program, at: nat, turn: Turn) returns (ok: bool, t: nat)
      requires Valid() && CanBegin(program)
      modifies this
      ensures Valid() && old(trace) <= trace
      ensures ok <==> !turn.fails
      ensures !ok ==> forall p :: |old(trace)| <= p < |trace| ==> trace[p] in turn.others
      ensures ok ==> OneTx(origin, old(trace), trace, t, program, at, OthersOf(turn))
      ensures ok ==> |old(st).txs| <= t < |st.txs| && st.txs[t] == Tx(program, at, Open, NoWrites)
      ensures ok && turn == Calm ==> t == |old(st).txs| && st == old(st).(txs := old(st).txs + [Tx(program, at, Open, NoWrites)])
    {
      Interfere(turn.others, |st.txs|);
      t := |st.txs|;
      ok := !turn.fails;
      if ok {
        ghost var before := trace;
        Step(Begin(program, at));
        hide Run;
        assert trace[..|before|] == before && trace[..|before| + 1] == trace;
        assert OpensAt(origin, old(trace), trace, |before|, t, program, at, OthersOf(turn));
      }
    }

    // One statement of transaction t; false is an error for the caller.  `mid` is the state just
    // before the statement.
    method Exec(step: Step, turn: Turn) returns (ok: bool, ghost mid: State)
      requires Valid() && !step.Begin? && step.t < |st.txs| && st.txs[step.t].Live()
      modifies this
      ensures Valid() && old(trace) <= trace
      ensures Inv(mid) && SameTx(old(st), mid, step.t)
      ensures step.t < |st.txs| && SameProgram(old(st), st, step.t)
      ensures turn.others == [] ==> mid == old(st)
      ensures Adds(old(trace), trace, step.t, OthersOf(turn)) && Was(origin, trace, |old(trace)|, mid)
      ensures if turn.fails || Next(mid, step).None? then !ok && st == mid
              else Some(st) == Next(mid, step) && step.t < |st.txs| && (ok <==> !st.txs[step.t].phase.Refused?)
    {
      Interfere(turn.others, step.t);
      mid := st;
      ghost var before := trace;
      Lawful();
      ok := false;
      if !turn.fails && Next(st, step).Some? {
        ActorMoves(st, step);
        Step(step);
        ok := !st.txs[step.t].phase.Refused?;
      }
      assert trace[..|before|] == before;
    }

    // tx.Rollback() has nothing to fail on: a lost connection rolls back as well.
    method RollbackTx(t: nat)
      requires Valid() && t < |st.txs| && st.txs[t].Live()
      modifies this
      ensures Valid() && old(trace) <= trace
      ensures Adds(old(trace), trace, t, {})
      ensures Closed(st, t, old(st).txs[t].program, false)
      ensures st.db == old(st).db && st.queue == old(st).queue
    {
      Step(Rollback(t));
    }

    // COMMIT of a transaction that has executed its last statement.
    method CommitTx(t: nat, turn: Turn) returns (ok: bool)
      requires Valid() && t < |st.txs| && ReadyToCommit(st.txs[t].phase)
      modifies this
      ensures Valid() && old(trace) <= trace
      ensures Adds(old(trace), trace, t, OthersOf(turn))
      ensures ok <==> !turn.fails
      ensures ok ==> Closed(st, t, old(st).txs[t].program, true)
      ensures !ok ==> t < |st.txs| && st.txs[t] == old(st).txs[t]
      ensures ok ==> Effective(st.db, old(st).txs[t])
      ensures ok && turn == Calm ==> Summary(old(st).txs[t]).Some? && Some(st.db) == Whole(old(st).db, Summary(old(st).txs[t]).value)
      ensures turn == Calm ==> st.queue == old(st).queue
    {
      ghost var mid;
      ok, mid := Exec(Commit(t), turn);
      if ok {
        CommitIsWhole(mid, t);
        CommitEffective(mid, t);
      }
    }
  }

  // What a transaction ready to commit shows for itself in the tables after its commit.
  ghost predicate Effective(db: Db, tx: Tx) {
    match (tx.program, tx.phase)
    case (Charge(user, amount, currency), EventStaged(payment, event)) =>
      && payment in db.payments && db.payments[payment] == Payment(user, amount, currency, Succeeded)
      && event in db.outbox && db.outbox[event] == Event(payment, user, amount, currency, tx.startedAt, EventPending)
    case (Refund(payment), MarkedRefunded(_)) => payment in db.payments && db.payments[payment].status.Refunded?
    case (Dispatch, Working(_, done)) =>
      forall id :: id in done ==> id in db.outbox && db.outbox[id].status == (if done[id] then EventProcessed else EventFailed)
    case _ => true
  }

  lemma CommitEffective(s: State, t: nat)
    requires t < |s.txs| && TxInv(s, t) && DoCommit(s, t).Some?
    ensures Effective(DoCommit(s, t).value.db, s.txs[t])
  {
  }

  lemma TxsGrow(s: State, step: Step)
    requires Next(s, step).Some?
    ensures |s.txs| <= |Next(s, step).value.txs|
  {
    hide Next;
    if step.Begin? {
      BeginMoves(s, step);
    } else {
      ActorMoves(s, step);
    }
  }

  // ---------- what can stand in the way of a call without failures ----------

  predicate UserBlocked(s: State, t: nat, user: Id, amount: int) {
    user !in s.db.users || s.db.users[user] < amount || !s.Free(UserRow(user), t)
  }

  // At some moment since `from` the user was missing, too poor, or locked by another transaction.
  ghost predicate UserMet(origin: Db, trace: seq<Step>, from: nat, t: nat, user: Id, amount: int) {
    exists s :: Was(origin, trace, from, s) && UserBlocked(s, t, user, amount)
  }

  // At some moment since `from` the id was taken.
  ghost predicate IdMet(origin: Db, trace: seq<Step>, from: nat, id: Id) {
    exists s :: Was(origin, trace, from, s) && id in s.issued
  }

  predicate RefundBlocked(s: State, t: nat, payment: Id) {
    payment !in s.db.payments || !s.Free(PaymentRow(payment), t)
    || (var row := s.db.payments[payment];
        row.status != Succeeded || row.user !in s.db.users || !s.Free(UserRow(row.user), t)
        || s.db.users[row.user] + row.amount > MAX_INT64)
  }

  // At some moment since `from` the payment was missing, locked or not refundable, or its user was.
  ghost predicate RefundMet(origin: Db, trace: seq<Step>, from: nat, t: nat, payment: Id) {
    exists s :: Was(origin, trace, from, s) && RefundBlocked(s, t, payment)
  }

  // At some moment since `from` the rows were not what the poll returns.
  ghost predicate BatchMet(origin: Db, trace: seq<Step>, from: nat, rows: seq<Id>, scan: Scan) {
    exists s :: Was(origin, trace, from, s) && !IsBatch(s, rows, scan.passed)
  }

  lemma UserMetStill(origin: Db, trace: seq<Step>, longer: seq<Step>, from: nat, since: nat, t: nat, user: Id, amount: int)
    requires UserMet(origin, trace, since, t, user, amount) && trace <= longer && from <= since
    ensures UserMet(origin, longer, from, t, user, amount)
  {
    hide Was;
    var s :| Was(origin, trace, since, s) && UserBlocked(s, t, user, amount);
    WasStill(origin, trace, longer, from, since, s);
  }

  lemma IdMetStill(origin: Db, trace: seq<Step>, longer: seq<Step>, from: nat, since: nat, id: Id)
    requires IdMet(origin, trace, since, id) && trace <= longer && from <= since
    ensures IdMet(origin, longer, from, id)
  {
    hide Was;
    var s :| Was(origin, trace, since, s) && id in s.issued;
    WasStill(origin, trace, longer, from, since, s);
  }

  lemma RefundMetStill(origin: Db, trace: seq<Step>, longer: seq<Step>, from: nat, since: nat, t: nat, payment: Id)
    requires RefundMet(origin, trace, since, t, payment) && trace <= longer && from <= since
    ensures RefundMet(origin, longer, from, t, payment)
  {
    hide Was;
    var s :| Was(origin, trace, since, s) && RefundBlocked(s, t, payment);
    WasStill(origin, trace, longer, from, since, s);
  }

  lemma BatchMetStill(origin: Db, trace: seq<Step>, longer: seq<Step>, from: nat, since: nat, rows: seq<Id>, scan: Scan)
    requires BatchMet(origin, trace, since, rows, scan) && trace <= longer && from <= since
    ensures BatchMet(origin, longer, from, rows, scan)
  {
    hide Was, IsBatch;
    var s :| Was(origin, trace, since, s) && !IsBatch(s, rows, scan.passed);
    WasStill(origin, trace, longer, from, since, s);
  }

  // ---------- charges ----------

  // SELECT balance FROM users WHERE id = $1 FOR UPDATE
  method SelectUserRow(d: Database, t: nat, user: Id, turn: Turn) returns (ok: bool)
    requires d.Valid() && t < |d.st.txs| && d.st.txs[t].program.Charge? && d.st.txs[t].program.user == user && d.st.txs[t].phase.Open?
    modifies d
    ensures d.Valid() && old(d.trace) <= d.trace && SameProgram(old(d.st), d.st, t)
    ensures Adds(old(d.trace), d.trace, t, OthersOf(turn))
    ensures !ok && !turn.fails ==> UserMet(d.origin, d.trace, |old(d.trace)|, t, user, old(d.st).txs[t].program.amount)
    ensures if ok then d.st.txs[t].phase.UserRead? else d.st.txs[t].Live()
    ensures turn == Calm ==> d.st.db == old(d.st).db && d.st.issued == old(d.st).issued
    ensures turn == Calm ==> (ok <==> user in d.st.db.users && old(d.st).Free(UserRow(user), t))
    ensures turn == Calm && ok ==> d.st.txs[t].phase == UserRead(d.st.db.users[user])
  {
    ghost var mid;
    ok, mid := d.Exec(SelectUser(t), turn);
    hide Adds, Was;
    assert !ok && !turn.fails ==> UserBlocked(mid, t, user, old(d.st).txs[t].program.amount);
  }

  // The overdraft check and UPDATE users SET balance = balance - $1
  method DebitUserRow(d: Database, t: nat, turn: Turn) returns (ok: bool)
    requires d.Valid() && t < |d.st.txs| && d.st.txs[t].program.Charge? && d.st.txs[t].phase.UserRead?
    modifies d
    ensures d.Valid() && old(d.trace) <= d.trace && SameProgram(old(d.st), d.st, t)
    ensures Adds(old(d.trace), d.trace, t, OthersOf(turn))
    ensures !ok && !turn.fails ==> UserMet(d.origin, d.trace, |old(d.trace)|, t, old(d.st).txs[t].program.user, old(d.st).txs[t].program.amount)
    ensures if ok then d.st.txs[t].phase.Debited? else d.st.txs[t].Live()
    ensures turn == Calm ==> d.st.db == old(d.st).db && d.st.issued == old(d.st).issued
    ensures turn == Calm ==> (ok <==> d.st.txs[t].program.amount <= old(d.st).txs[t].phase.balance)
  {
    ghost var mid;
    d.Lawful();
    assert TxInv(d.st, t);
    ok, mid := d.Exec(DebitUser(t), turn);
    hide Adds, Was;
    assert TxInv(mid, t);
    assert !ok && !turn.fails ==> UserBlocked(mid, t, old(d.st).txs[t].program.user, old(d.st).txs[t].program.amount);
  }

  // INSERT INTO payments ... RETURNING id
  method InsertPaymentRow(d: Database, t: nat, paymentId: Id, turn: Turn) returns (ok: bool)
    requires d.Valid() && t < |d.st.txs| && d.st.txs[t].program.Charge? && d.st.txs[t].phase.Debited?
    modifies d
    ensures d.Valid() && old(d.trace) <= d.trace && SameProgram(old(d.st), d.st, t)
    ensures Adds(old(d.trace), d.trace, t, OthersOf(turn))
    ensures !ok && !turn.fails ==> IdMet(d.origin, d.trace, |old(d.trace)|, paymentId)
    ensures if ok then d.st.txs[t].phase == PaymentInserted(paymentId) else d.st.txs[t].Live()
    ensures turn == Calm ==> d.st.db == old(d.st).db && (ok <==> paymentId !in old(d.st).issued)
    ensures turn == Calm && ok ==> d.st.issued == old(d.st).issued[paymentId := t]
  {
    ghost var mid;
    ok, mid := d.Exec(InsertPayment(t, paymentId), turn);
    hide Adds, Was;
    assert !ok && !turn.fails ==> paymentId in mid.issued;
  }

  // The charge's own checks and the row lock it needs.
  predicate ChargePasses(s: State, user: Id, amount: int) {
    user in s.db.users && amount <= s.db.users[user] && UserRow(user) !in s.locks
  }

  /** CreateTransactionRecordTx: lock and read the user, check, debit, insert the payment. */
  method CreateTransactionRecordTx(d: Database, t: nat, user: Id, amount: int, currency: string, paymentId: Id, turns: seq<Turn>)
    returns (ok: bool)
    requires d.Valid() && |turns| == 3
    requires t < |d.st.txs| && d.st.txs[t].program == Charge(user, amount, currency) && d.st.txs[t].phase.Open?
    modifies d
    ensures d.Valid() && old(d.trace) <= d.trace && SameProgram(old(d.st), d.st, t)
    ensures Adds(old(d.trace), d.trace, t, OthersIn(turns))
    ensures !ok && NoneFails(turns) ==>
              UserMet(d.origin, d.trace, |old(d.trace)|, t, user, amount) || IdMet(d.origin, d.trace, |old(d.trace)|, paymentId)
    ensures if ok then d.st.txs[t].phase == PaymentInserted(paymentId) else d.st.txs[t].Live()
    ensures AllCalm(turns) ==> d.st.db == old(d.st).db
    ensures AllCalm(turns) && ok ==> d.st.issued == old(d.st).issued[paymentId := t]
    ensures AllCalm(turns) && paymentId !in old(d.st).issued && UserRow(user) !in old(d.st).locks ==>
              (ok <==> ChargePasses(old(d.st), user, amount))
  {
    hide Adds, UserMet, IdMet, OthersIn, OthersOf;
    ghost var before, others := d.trace, OthersIn(turns);
    forall i: nat | i < 3
      ensures OthersOf(turns[i]) <= others
    {
      OthersWithin(turns, i, i);
    }
    ok := SelectUserRow(d, t, user, turns[0]);
    ghost var read := d.trace;
    AddsWider(before, read, t, OthersOf(turns[0]), others);
    if ok {
      ok := DebitUserRow(d, t, turns[1]);
      AddsMore(before, read, d.trace, t, others, OthersOf(turns[1]), others);
      if !ok && !turns[1].fails {
        UserMetStill(d.origin, d.trace, d.trace, |before|, |read|, t, user, amount);
      }
    }
    if ok {
      ghost var debited := d.trace;
      ok := InsertPaymentRow(d, t, paymentId, turns[2]);
      AddsMore(before, debited, d.trace, t, others, OthersOf(turns[2]), others);
      if !ok && !turns[2].fails {
        IdMetStill(d.origin, d.trace, d.trace, |before|, |debited|, paymentId);
      }
    }
  }

  /** SaveEventTx: insert the outbox row inside the caller's transaction. */
  method SaveEventTx(d: Database, t: nat, eventId: Id, turn: Turn) returns (ok: bool)
    requires d.Valid() && t < |d.st.txs| && d.st.txs[t].phase.PaymentInserted? && d.st.txs[t].program.Charge?
    modifies d
    ensures d.Valid() && old(d.trace) <= d.trace && SameProgram(old(d.st), d.st, t)
    ensures Adds(old(d.trace), d.trace, t, OthersOf(turn))
    ensures !ok && !turn.fails ==> IdMet(d.origin, d.trace, |old(d.trace)|, eventId)
    ensures if ok then d.st.txs[t].phase == EventStaged(old(d.st).txs[t].phase.payment, eventId) else d.st.txs[t].Live()
    ensures turn == Calm ==> d.st.db == old(d.st).db && (ok <==> eventId !in old(d.st).issued)
  {
    ghost var mid;
    ok, mid := d.Exec(InsertEvent(t, eventId), turn);
    hide Adds, Was;
    assert !ok && !turn.fails ==> eventId in mid.issued;
  }

  datatype ChargeError = BadAmount | NotBegun | Aborted

  // What ProcessCharge does between BEGIN and the deferred rollback.
  method ChargeStatements(d: Database, t: nat, user: Id, amount: int, currency: string, paymentId: Id, eventId: Id, turns: seq<Turn>)
    returns (ok: bool)
    requires d.Valid() && |turns| == 5
    requires t < |d.st.txs| && d.st.txs[t].program == Charge(user, amount, currency) && d.st.txs[t].phase.Open?
    modifies d
    ensures d.Valid() && Adds(old(d.trace), d.trace, t, OthersIn(turns))
    ensures ok ==> Closed(d.st, t, Charge(user, amount, currency), true)
    ensures !ok ==> t < |d.st.txs| && d.st.txs[t].Live() && d.st.txs[t].program == Charge(user, amount, currency)
    ensures ok ==> paymentId in d.st.db.payments && d.st.db.payments[paymentId] == Payment(user, amount, currency, Succeeded)
    ensures ok ==> eventId in d.st.db.outbox
                   && d.st.db.outbox[eventId] == Event(paymentId, user, amount, currency, old(d.st).txs[t].startedAt, EventPending)
    ensures !ok && NoneFails(turns) ==>
              || UserMet(d.origin, d.trace, |old(d.trace)|, t, user, amount)
              || IdMet(d.origin, d.trace, |old(d.trace)|, paymentId) || IdMet(d.origin, d.trace, |old(d.trace)|, eventId)
    ensures AllCalm(turns) ==>
              if ok then Some(d.st.db) == Whole(old(d.st).db, ChargeTxn(user, amount, currency, old(d.st).txs[t].startedAt, paymentId, eventId))
              else d.st.db == old(d.st).db
    ensures AllCalm(turns) && paymentId !in old(d.st).issued && eventId !in old(d.st).issued && paymentId != eventId
            && UserRow(user) !in old(d.st).locks ==>
              (ok <==> ChargePasses(old(d.st), user, amount))
  {
    hide Adds, UserMet, IdMet, OthersIn, OthersOf, Run, Next, Whole, Sound;
    ghost var before, others := d.trace, OthersIn(turns);
    OthersWithin(turns, 0, 3);
    OthersWithin(turns, 3, 3);
    OthersWithin(turns, 4, 4);
    ok := CreateTransactionRecordTx(d, t, user, amount, currency, paymentId, turns[0..3]);
    ghost var recorded := d.trace;
    AddsWider(before, recorded, t, OthersIn(turns[0..3]), others);
    if ok {
      ok := SaveEventTx(d, t, eventId, turns[3]);
      AddsMore(before, recorded, d.trace, t, others, OthersOf(turns[3]), others);
      if !ok && !turns[3].fails {
        IdMetStill(d.origin, d.trace, d.trace, |before|, |recorded|, eventId);
      }
    }
    if ok {
      ghost var staged := d.trace;
      ok := d.CommitTx(t, turns[4]);
      AddsMore(before, staged, d.trace, t, others, OthersOf(turns[4]), others);
    }
  }

  /** PaymentService.ProcessCharge; `failed` plays the Go variable err of the deferred rollback. */
  method ProcessCharge(d: Database, user: Id, amount: int, currency: string, at: nat, paymentId: Id, eventId: Id, turns: seq<Turn>)
    returns (r: Result<Id, ChargeError>, t: nat)
    requires d.Valid() && |turns| == 6
    modifies d
    ensures d.Valid() && old(d.trace) <= d.trace
    // no transaction was opened, or it has ended and holds no row lock
    ensures r == Err(BadAmount) <==> amount <= 0
    ensures r == Err(BadAmount) ==> d.st == old(d.st) && d.trace == old(d.trace)
    ensures r == Err(NotBegun) <==> amount > 0 && turns[0].fails
    ensures r == Err(NotBegun) ==> forall p :: |old(d.trace)| <= p < |d.trace| ==> d.trace[p] in turns[0].others
    ensures r.Ok? || r == Err(Aborted) ==> |old(d.st).txs| <= t && Closed(d.st, t, Charge(user, amount, currency), r.Ok?)
    // it is the only one, and every other new statement is of other sessions
    ensures r.Ok? || r == Err(Aborted) ==>
              OneTx(d.origin, old(d.trace), d.trace, t, Charge(user, amount, currency), at, OthersIn(turns))
    // without failures only the data or a lock stands in the way, whatever the others do
    ensures r == Err(Aborted) && NoneFails(turns) ==>
              || UserMet(d.origin, d.trace, |old(d.trace)| + 1, t, user, amount)
              || IdMet(d.origin, d.trace, |old(d.trace)| + 1, paymentId) || IdMet(d.origin, d.trace, |old(d.trace)| + 1, eventId)
    // success: the payment and its event are both in the committed tables
    ensures r.Ok? ==> r.value == paymentId && paymentId in d.st.db.payments && eventId in d.st.db.outbox
    ensures r.Ok? ==> d.st.db.payments[paymentId] == Payment(user, amount, currency, Succeeded)
    ensures r.Ok? ==> d.st.db.outbox[eventId] == Event(paymentId, user, amount, currency, at, EventPending)
    // alone and without failures, the call is the whole charge or nothing
    ensures AllCalm(turns) ==>
              if r.Ok? then Some(d.st.db) == Whole(old(d.st).db, ChargeTxn(user, amount, currency, at, paymentId, eventId))
              else d.st.db == old(d.st).db
    // and with unused ids and the row unlocked it succeeds exactly when the funds are there
    ensures AllCalm(turns) && amount > 0 && paymentId !in old(d.st).issued && eventId !in old(d.st).issued && paymentId != eventId
            && UserRow(user) !in old(d.st).locks ==>
              (r.Ok? <==> ChargePasses(old(d.st), user, amount))
  {
    t := 0;
    if amount <= 0 {
      return Err(BadAmount), t;
    }
    hide Adds, UserMet, IdMet, OthersIn, OthersOf, Run, Next, Whole, Sound, OneTx, NoLocks;
    SliceTurns(turns, 1);
    hide AllCalm, NoneFails;
    var program := Charge(user, amount, currency);
    ghost var before, others := d.trace, OthersIn(turns);
    OthersWithin(turns, 0, 0);
    OthersWithin(turns, 1, |turns|);
    var ok;
    ok, t := d.BeginTx(program, at, turns[0]);
    if !ok {
      return Err(NotBegun), t;
    }
    ghost var begun := d.trace;
    OneTxLonger(d.origin, before, begun, t, program, at, OthersOf(turns[0]));
    ok := ChargeStatements(d, t, user, amount, currency, paymentId, eventId, turns[1..]);
    ghost var done := d.trace;
    OneTxMore(d.origin, before, begun, done, t, program, at, OthersOf(turns[0]), OthersIn(turns[1..]), others);
    var failed := !ok;
    if failed {
      d.RollbackTx(t);
      OneTxMore(d.origin, before, done, d.trace, t, program, at, others, {}, others);
      ChargeMetStill(d.origin, done, d.trace, |before| + 1, |begun|, t, user, amount, paymentId, eventId);
      return Err(Aborted), t;
    }
    r := Ok(paymentId);
  }

  lemma ChargeMetStill(origin: Db, trace: seq<Step>, longer: seq<Step>, from: nat, since: nat,
                       t: nat, user: Id, amount: int, paymentId: Id, eventId: Id)
    requires trace <= longer && from <= since
    ensures UserMet(origin, trace, since, t, user, amount) ==> UserMet(origin, longer, from, t, user, amount)
    ensures IdMet(origin, trace, since, paymentId) ==> IdMet(origin, longer, from, paymentId)
    ensures IdMet(origin, trace, since, eventId) ==> IdMet(origin, longer, from, eventId)
  {
    hide UserMet, IdMet;
    if UserMet(origin, trace, since, t, user, amount) {
      UserMetStill(origin, trace, longer, from, since, t, user, amount);
    }
    if IdMet(origin, trace, since, paymentId) {
      IdMetStill(origin, trace, longer, from, since, paymentId);
    }
    if IdMet(origin, trace, since, eventId) {
      IdMetStill(origin, trace, longer, from, since, eventId);
    }
  }

  // ---------- refunds ----------

  datatype RefundError = EmptyId | RefundNotBegun | RefundAborted

  // The rows a refund locks are free.
  predicate RefundUnlocked(s: State, payment: Id) {
    payment in s.db.payments ==> PaymentRow(payment) !in s.locks && UserRow(s.db.payments[payment].user) !in s.locks
  }

  // SELECT ... FROM payments WHERE id = $1 FOR UPDATE
  method SelectPaymentRow(d: Database, t: nat, paymentId: Id, turn: Turn) returns (ok: bool)
    requires d.Valid() && t < |d.st.txs| && d.st.txs[t].program == Refund(paymentId) && d.st.txs[t].phase.Open?
    modifies d
    ensures d.Valid() && old(d.trace) <= d.trace && SameProgram(old(d.st), d.st, t)
    ensures Adds(old(d.trace), d.trace, t, OthersOf(turn))
    ensures !ok && !turn.fails ==> RefundMet(d.origin, d.trace, |old(d.trace)|, t, paymentId)
    ensures if ok then d.st.txs[t].phase.PaymentRead? else d.st.txs[t].Live()
    ensures turn == Calm ==> d.st.db == old(d.st).db
    ensures turn == Calm ==> (ok <==> paymentId in d.st.db.payments && old(d.st).Free(PaymentRow(paymentId), t))
    ensures turn == Calm && ok ==> d.st.txs[t].phase == PaymentRead(d.st.db.payments[paymentId])
    ensures turn == Calm && ok ==> d.st.locks == old(d.st).locks[PaymentRow(paymentId) := t]
  {
    ghost var mid;
    ok, mid := d.Exec(SelectPayment(t), turn);
    hide Adds, Was;
    assert !ok && !turn.fails ==> RefundBlocked(mid, t, paymentId);
  }

  lemma CreditBlocked(s: State, t: nat)
    requires Inv(s) && t < |s.txs| && s.txs[t].program.Refund? && s.txs[t].phase.PaymentRead?
    ensures (DoCredit(s, t).None? || DoCredit(s, t).value.txs[t].phase.Refused?) ==> RefundBlocked(s, t, s.txs[t].program.payment)
    ensures DoCredit(s, t).Some? ==> t < |DoCredit(s, t).value.txs|
  {
    assert TxInv(s, t);
  }

  // The status guard and UPDATE users SET balance = balance + $1
  method CreditUserRow(d: Database, t: nat, turn: Turn) returns (ok: bool)
    requires d.Valid() && t < |d.st.txs| && d.st.txs[t].program.Refund? && d.st.txs[t].phase.PaymentRead?
    modifies d
    ensures d.Valid() && old(d.trace) <= d.trace && SameProgram(old(d.st), d.st, t)
    ensures Adds(old(d.trace), d.trace, t, OthersOf(turn))
    ensures !ok && !turn.fails ==> RefundMet(d.origin, d.trace, |old(d.trace)|, t, old(d.st).txs[t].program.payment)
    ensures if ok then d.st.txs[t].phase.Credited? else d.st.txs[t].Live()
    ensures turn == Calm ==> d.st.db == old(d.st).db
    ensures turn == Calm ==>
              var row := old(d.st).txs[t].phase.record;
              (ok <==> row.status.Succeeded? && row.user in d.st.db.users && old(d.st).Free(UserRow(row.user), t)
                       && d.st.db.users[row.user] + row.amount <= MAX_INT64)
  {
    ghost var mid;
    ok, mid := d.Exec(CreditUser(t), turn);
    hide Adds, Was;
    CreditBlocked(mid, t);
  }

  // UPDATE payments SET status = 'refunded'
  method MarkPaymentRow(d: Database, t: nat, turn: Turn) returns (ok: bool)
    requires d.Valid() && t < |d.st.txs| && d.st.txs[t].program.Refund? && d.st.txs[t].phase.Credited?
    modifies d
    ensures d.Valid() && old(d.trace) <= d.trace && SameProgram(old(d.st), d.st, t)
    ensures Adds(old(d.trace), d.trace, t, OthersOf(turn))
    ensures !turn.fails ==> ok
    ensures if ok then d.st.txs[t].phase.MarkedRefunded? else d.st.txs[t].Live()
    ensures turn == Calm ==> ok && d.st.db == old(d.st).db
  {
    ghost var mid;
    d.Lawful();
    assert TxInv(d.st, t);
    ok, mid := d.Exec(MarkRefunded(t), turn);
    hide Adds, Was;
    assert TxInv(mid, t);
  }

  // The statements of RefundTransactionRecord between BEGIN and COMMIT.
  method RefundStatements(d: Database, t: nat, paymentId: Id, turns: seq<Turn>) returns (ok: bool)
    requires d.Valid() && |turns| == 3
    requires t < |d.st.txs| && d.st.txs[t].program == Refund(paymentId) && d.st.txs[t].phase.Open?
    modifies d
    ensures d.Valid() && old(d.trace) <= d.trace && SameProgram(old(d.st), d.st, t)
    ensures Adds(old(d.trace), d.trace, t, OthersIn(turns))
    ensures !ok && NoneFails(turns) ==> RefundMet(d.origin, d.trace, |old(d.trace)|, t, paymentId)
    ensures if ok then d.st.txs[t].phase.MarkedRefunded? else d.st.txs[t].Live()
    ensures AllCalm(turns) ==> d.st.db == old(d.st).db
    ensures AllCalm(turns) && RefundUnlocked(old(d.st), paymentId) ==>
              (ok <==> Whole(old(d.st).db, RefundTxn(paymentId)).Some?)
  {
    hide Adds, RefundMet, OthersIn, OthersOf;
    ghost var before, others := d.trace, OthersIn(turns);
    forall i: nat | i < 3
      ensures OthersOf(turns[i]) <= others
    {
      OthersWithin(turns, i, i);
    }
    ok := SelectPaymentRow(d, t, paymentId, turns[0]);
    ghost var read := d.trace;
    AddsWider(before, read, t, OthersOf(turns[0]), others);
    if ok {
      ok := CreditUserRow(d, t, turns[1]);
      AddsMore(before, read, d.trace, t, others, OthersOf(turns[1]), others);
      if !ok && !turns[1].fails {
        RefundMetStill(d.origin, d.trace, d.trace, |before|, |read|, t, paymentId);
      }
    }
    if ok {
      ghost var credited := d.trace;
      ok := MarkPaymentRow(d, t, turns[2]);
      AddsMore(before, credited, d.trace, t, others, OthersOf(turns[2]), others);
    }
  }

  // What RefundTransactionRecord does between BEGIN and the deferred rollback.
  method RefundAndCommit(d: Database, t: nat, paymentId: Id, turns: seq<Turn>) returns (ok: bool)
    requires d.Valid() && |turns| == 4
    requires t < |d.st.txs| && d.st.txs[t].program == Refund(paymentId) && d.st.txs[t].phase.Open?
    modifies d
    ensures d.Valid() && Adds(old(d.trace), d.trace, t, OthersIn(turns))
    ensures ok ==> Closed(d.st, t, Refund(paymentId), true)
    ensures !ok ==> t < |d.st.txs| && d.st.txs[t].Live() && d.st.txs[t].program == Refund(paymentId)
    ensures ok ==> paymentId in d.st.db.payments && d.st.db.payments[paymentId].status.Refunded?
    ensures !ok && NoneFails(turns) ==> RefundMet(d.origin, d.trace, |old(d.trace)|, t, paymentId)
    ensures AllCalm(turns) ==>
              if ok then Some(d.st.db) == Whole(old(d.st).db, RefundTxn(paymentId)) else d.st.db == old(d.st).db
    ensures AllCalm(turns) && RefundUnlocked(old(d.st), paymentId) ==>
              (ok <==> Whole(old(d.st).db, RefundTxn(paymentId)).Some?)
  {
    hide Adds, RefundMet, OthersIn, OthersOf, Run, Next, Whole, Sound;
    ghost var before, others := d.trace, OthersIn(turns);
    OthersWithin(turns, 0, 3);
    OthersWithin(turns, 3, 3);
    ok := RefundStatements(d, t, paymentId, turns[0..3]);
    ghost var marked := d.trace;
    AddsWider(before, marked, t, OthersIn(turns[0..3]), others);
    if ok {
      ok := d.CommitTx(t, turns[3]);
      AddsMore(before, marked, d.trace, t, others, OthersOf(turns[3]), others);
    }
  }

  /** PaymentService.ProcessRefund with RefundTransactionRecord; None stands for the empty id. */
  method ProcessRefund(d: Database, paymentId: Option<Id>, at: nat, turns: seq<Turn>)
    returns (r: Result<Id, RefundError>, t: nat)
    requires d.Valid() && |turns| == 5
    modifies d
    ensures d.Valid() && old(d.trace) <= d.trace
    ensures r == Err(EmptyId) <==> paymentId.None?
    ensures r == Err(EmptyId) ==> d.st == old(d.st) && d.trace == old(d.trace)
    ensures r == Err(RefundNotBegun) <==> paymentId.Some? && turns[0].fails
    ensures r.Ok? || r == Err(RefundAborted) ==>
              |old(d.st).txs| <= t && paymentId.Some? && Closed(d.st, t, Refund(paymentId.value), r.Ok?)
    ensures r == Err(RefundNotBegun) ==> forall p :: |old(d.trace)| <= p < |d.trace| ==> d.trace[p] in turns[0].others
    // the transaction is the only one, and every other new statement is of other sessions
    ensures (r.Ok? || r == Err(RefundAborted)) && paymentId.Some? ==>
              OneTx(d.origin, old(d.trace), d.trace, t, Refund(paymentId.value), at, OthersIn(turns))
    // without failures only the data or a lock stands in the way, whatever the others do
    ensures r == Err(RefundAborted) && NoneFails(turns) && paymentId.Some? ==>
              RefundMet(d.origin, d.trace, |old(d.trace)| + 1, t, paymentId.value)
    ensures r.Ok? ==> Some(r.value) == paymentId && r.value in d.st.db.payments && d.st.db.payments[r.value].status.Refunded?
    // alone and without failures, the call is the whole refund or nothing
    ensures AllCalm(turns) && paymentId.Some? ==>
              if r.Ok? then Some(d.st.db) == Whole(old(d.st).db, RefundTxn(paymentId.value)) else d.st.db == old(d.st).db
    // and with the rows unlocked it succeeds exactly when the refund is legal
    ensures AllCalm(turns) && paymentId.Some? && RefundUnlocked(old(d.st), paymentId.value) ==>
              (r.Ok? <==> Whole(old(d.st).db, RefundTxn(paymentId.value)).Some?)
  {
    t := 0;
    if paymentId.None? {
      return Err(EmptyId), t;
    }
    hide Adds, RefundMet, OthersIn, OthersOf, Run, Next, Whole, Sound, OneTx, NoLocks;
    SliceTurns(turns, 1);
    hide AllCalm, NoneFails;
    var program := Refund(paymentId.value);
    ghost var before, others := d.trace, OthersIn(turns);
    OthersWithin(turns, 0, 0);
    OthersWithin(turns, 1, |turns|);
    var ok;
    ok, t := d.BeginTx(program, at, turns[0]);
    if !ok {
      return Err(RefundNotBegun), t;
    }
    ghost var begun := d.trace;
    OneTxLonger(d.origin, before, begun, t, program, at, OthersOf(turns[0]));
    ok := RefundAndCommit(d, t, paymentId.value, turns[1..]);
    ghost var done := d.trace;
    OneTxMore(d.origin, before, begun, done, t, program, at, OthersOf(turns[0]), OthersIn(turns[1..]), others);
    if !ok {
      d.RollbackTx(t);
      OneTxMore(d.origin, before, done, d.trace, t, program, at, others, {}, others);
      if NoneFails(turns) {
        RefundMetStill(d.origin, done, d.trace, |before| + 1, |begun|, t, paymentId.value);
      }
      return Err(RefundAborted), t;
    }
    r := Ok(paymentId.value);
  }

  // ---------- outbox batches ----------

  // Of the first n events, those that the queue accepted, in order.
  function Accepted(events: seq<Id>, accepts: seq<bool>, n: nat): seq<Id>
    requires n <= |events| <= |accepts|
  {
    if n == 0 then [] else Accepted(events, accepts, n - 1) + if accepts[n - 1] then [events[n - 1]] else []
  }

  // The batch's record of deliveries after its first n events.
  function Recorded(events: seq<Id>, accepts: seq<bool>, n: nat): map<Id, bool>
    requires n <= |events| <= |accepts|
  {
    if n == 0 then map[] else Recorded(events, accepts, n - 1)[events[n - 1] := accepts[n - 1]]
  }

  lemma {:induction false} RecordedEach(events: seq<Id>, accepts: seq<bool>, n: nat)
    requires n <= |events| <= |accepts| && Distinct(events)
    ensures forall i :: 0 <= i < n ==> events[i] in Recorded(events, accepts, n) && Recorded(events, accepts, n)[events[i]] == accepts[i]
    ensures forall id :: id in Recorded(events, accepts, n) ==> id in events[..n]
  {
    if n > 0 {
      RecordedEach(events, accepts, n - 1);
      assert events[..n] == events[..n - 1] + [events[n - 1]];
    }
  }

  predicate Distinct(ids: seq<Id>) {
    forall i, j :: 0 <= i < j < |ids| ==> ids[i] != ids[j]
  }

  // EnqueueContext: outside the transaction, its error only decides the status.
  method EnqueueEvent(d: Database, t: nat, event: Id, accept: bool, others: seq<Step>)
    requires d.Valid() && t < |d.st.txs| && d.st.txs[t].program == Dispatch
    requires d.st.txs[t].phase.Working? && d.st.txs[t].phase.todo != [] && d.st.txs[t].phase.todo[0] == event
    modifies d
    ensures d.Valid() && old(d.trace) <= d.trace && SameProgram(old(d.st), d.st, t)
    ensures Adds(old(d.trace), d.trace, t, OthersOf(Turn(others, false)))
    ensures d.st.txs[t].phase == Sent(old(d.st).txs[t].phase.todo, old(d.st).txs[t].phase.done, accept)
    ensures others == [] ==> d.st.db == old(d.st).db && d.st.queue == old(d.st).queue + if accept then [event] else []
  {
    var _, _ := d.Exec(Enqueue(t, event, accept), Turn(others, false));
  }

  // UPDATE outbox_events SET status = $1
  method UpdateEventRow(d: Database, t: nat, turn: Turn) returns (ok: bool)
    requires d.Valid() && t < |d.st.txs| && d.st.txs[t].program == Dispatch && d.st.txs[t].phase.Sent? && d.st.txs[t].phase.todo != []
    modifies d
    ensures d.Valid() && old(d.trace) <= d.trace && SameProgram(old(d.st), d.st, t)
    ensures Adds(old(d.trace), d.trace, t, OthersOf(turn))
    ensures !turn.fails ==> ok
    ensures var Sent(todo, done, accept) := old(d.st).txs[t].phase;
            if ok then d.st.txs[t].phase == Working(todo[1..], done[todo[0] := accept]) else d.st.txs[t].Live()
    ensures turn == Calm ==> ok && d.st.db == old(d.st).db && d.st.queue == old(d.st).queue
  {
    ghost var mid;
    ok, mid := d.Exec(WriteStatus(t), turn);
    hide Adds, Was;
    assert TxInv(mid, t);
    WriteStatusKept(mid, t);
  }

  // One turn of the loop: enqueue outside the transaction, then write the status inside it.
  method SendEvent(d: Database, t: nat, event: Id, accept: bool, turns: seq<Turn>) returns (ok: bool)
    requires d.Valid() && |turns| == 2 && t < |d.st.txs| && d.st.txs[t].program == Dispatch
    requires d.st.txs[t].phase.Working? && d.st.txs[t].phase.todo != [] && d.st.txs[t].phase.todo[0] == event
    modifies d
    ensures d.Valid() && old(d.trace) <= d.trace && SameProgram(old(d.st), d.st, t)
    ensures Adds(old(d.trace), d.trace, t, OthersIn(turns))
    ensures NoneFails(turns) ==> ok
    ensures var Working(todo, done) := old(d.st).txs[t].phase;
            if ok then d.st.txs[t].phase == Working(todo[1..], done[event := accept]) else d.st.txs[t].Live()
    ensures AllCalm(turns) ==> ok && d.st.db == old(d.st).db
    ensures AllCalm(turns) ==> d.st.queue == old(d.st).queue + if accept then [event] else []
  {
    hide Adds, OthersIn;
    ghost var before := d.trace;
    OthersWithin(turns, 0, 0);
    OthersWithin(turns, 1, 1);
    EnqueueEvent(d, t, event, accept, turns[0].others);
    ghost var sent := d.trace;
    ok := UpdateEventRow(d, t, turns[1]);
    AddsMore(before, sent, d.trace, t, OthersOf(Turn(turns[0].others, false)), OthersOf(turns[1]), OthersIn(turns));
  }

  method ClaimRows(d: Database, t: nat, rows: seq<Id>, scan: Scan, turn: Turn) returns (ok: bool)
    requires d.Valid() && t < |d.st.txs| && d.st.txs[t].program == Dispatch && d.st.txs[t].phase.Open?
    modifies d
    ensures d.Valid() && old(d.trace) <= d.trace && SameProgram(old(d.st), d.st, t)
    ensures Adds(old(d.trace), d.trace, t, OthersOf(turn))
    ensures !ok && !turn.fails ==> Readable(rows, scan.unread) == [] || BatchMet(d.origin, d.trace, |old(d.trace)|, rows, scan)
    ensures if ok then d.st.txs[t].phase == Working(Readable(rows, scan.unread), map[]) else d.st.txs[t].Live()
    ensures ok ==> Readable(rows, scan.unread) != [] && Distinct(Readable(rows, scan.unread))
    ensures turn == Calm ==> d.st.db == old(d.st).db && d.st.queue == old(d.st).queue
    ensures turn == Calm ==> (ok <==> IsBatch(old(d.st), rows, scan.passed) && Readable(rows, scan.unread) != [])
  {
    ghost var mid;
    ok, mid := d.Exec(ClaimBatch(t, rows, scan), turn);
    hide Adds, Was;
    assert !ok && !turn.fails && Readable(rows, scan.unread) != [] ==> !IsBatch(mid, rows, scan.passed);
  }

  // The loop over the fetched events; it stops at the first failing status update.
  method SendAll(d: Database, t: nat, events: seq<Id>, accepts: seq<bool>, turns: seq<Turn>) returns (ok: bool)
    requires d.Valid() && |events| <= |accepts| && 2 * |events| <= |turns|
    requires t < |d.st.txs| && d.st.txs[t].program == Dispatch && d.st.txs[t].phase == Working(events, map[])
    modifies d
    ensures d.Valid() && old(d.trace) <= d.trace && SameProgram(old(d.st), d.st, t)
    ensures Adds(old(d.trace), d.trace, t, OthersIn(turns))
    ensures NoneFails(turns) ==> ok
    ensures if ok then d.st.txs[t].phase == Working([], Recorded(events, accepts, |events|)) else d.st.txs[t].Live()
    ensures AllCalm(turns) ==> ok && d.st.db == old(d.st).db
    ensures AllCalm(turns) ==> d.st.queue == old(d.st).queue + Accepted(events, accepts, |events|)
  {
    hide Adds, OthersIn, Run, Next, Sound;
    ok := true;
    ghost var before := d.trace;
    AddsNothing(before, t, OthersIn(turns));
    assert events[0..] == events;
    for i := 0 to |events|
      invariant d.Valid() && old(d.trace) <= d.trace && SameProgram(old(d.st), d.st, t)
      invariant d.st.txs[t].phase == Working(events[i..], Recorded(events, accepts, i))
      invariant Adds(before, d.trace, t, OthersIn(turns))
      invariant AllCalm(turns) ==> d.st.db == old(d.st).db
      invariant AllCalm(turns) ==> d.st.queue == old(d.st).queue + Accepted(events, accepts, i)
    {
      ghost var sofar := d.trace;
      ok := SendEvent(d, t, events[i], accepts[i], turns[2 * i..2 * i + 2]);
      OthersWithin(turns, 2 * i, 2 * i + 2);
      AddsMore(before, sofar, d.trace, t, OthersIn(turns), OthersIn(turns[2 * i..2 * i + 2]), OthersIn(turns));
      if !ok {
        return;
      }
      assert events[i..][1..] == events[i + 1..];
    }
    assert events[|events|..] == [];
    ok := true;
  }

  // Events in the order in which they were created.
  predicate OldestFirst(db: Db, ids: seq<Id>) {
    && (forall i :: 0 <= i < |ids| ==> ids[i] in db.outbox)
    && (forall i, j :: 0 <= i < j < |ids| ==> db.outbox[ids[i]].createdAt <= db.outbox[ids[j]].createdAt)
  }

  lemma {:induction false} ReadableOldest(db: Db, rows: seq<Id>, unread: set<Id>)
    requires OldestFirst(db, rows)
    ensures OldestFirst(db, Readable(rows, unread))
  {
    if rows != [] {
      var rest, todo := rows[1..], Readable(rows[1..], unread);
      ReadableOldest(db, rest, unread);
      forall id | id in todo
        ensures id in db.outbox && db.outbox[rows[0]].createdAt <= db.outbox[id].createdAt
      {
        assert id in rest;
        var i :| 0 <= i < |rest| && rest[i] == id;
        assert rows[i + 1] == id;
      }
      OldestBefore(db, rows[0], todo);
      hide OldestFirst;
    }
  }

  lemma OldestBefore(db: Db, first: Id, rest: seq<Id>)
    requires OldestFirst(db, rest) && first in db.outbox
    requires forall id :: id in rest ==> id in db.outbox && db.outbox[first].createdAt <= db.outbox[id].createdAt
    ensures OldestFirst(db, [first] + rest)
  {
  }

  lemma {:induction false} AcceptedOldest(db: Db, events: seq<Id>, accepts: seq<bool>, n: nat)
    requires n <= |events| <= |accepts| && OldestFirst(db, events)
    ensures OldestFirst(db, Accepted(events, accepts, n))
    ensures forall id :: id in Accepted(events, accepts, n) ==> id in events[..n]
  {
    if n > 0 {
      AcceptedOldest(db, events, accepts, n - 1);
      assert events[..n] == events[..n - 1] + [events[n - 1]];
      var before := Accepted(events, accepts, n - 1);
      forall i | 0 <= i < |before|
        ensures db.outbox[before[i]].createdAt <= db.outbox[events[n - 1]].createdAt
      {
        assert before[i] in events[..n - 1];
      }
    }
  }

  lemma BatchOldest(s: State, rows: seq<Id>, scan: Scan, accepts: seq<bool>)
    requires IsBatch(s, rows, scan.passed) && |Readable(rows, scan.unread)| <= |accepts|
    ensures OldestFirst(s.db, Accepted(Readable(rows, scan.unread), accepts, |Readable(rows, scan.unread)|))
  {
    ReadableOldest(s.db, rows, scan.unread);
    AcceptedOldest(s.db, Readable(rows, scan.unread), accepts, |Readable(rows, scan.unread)|);
  }

  // What ProcessPendingEvents does between BEGIN and the deferred rollback.
  method BatchStatements(d: Database, t: nat, rows: seq<Id>, scan: Scan, accepts: seq<bool>, turns: seq<Turn>) returns (ok: bool)
    requires d.Valid() && |accepts| >= |rows| && |turns| == 2 + 2 * |rows|
    requires t < |d.st.txs| && d.st.txs[t].program == Dispatch && d.st.txs[t].phase.Open?
    modifies d
    ensures d.Valid() && old(d.trace) <= d.trace && Adds(old(d.trace), d.trace, t, OthersIn(turns))
    ensures ok ==> Closed(d.st, t, Dispatch, true) && Readable(rows, scan.unread) != []
    ensures !ok ==> t < |d.st.txs| && d.st.txs[t].Live() && d.st.txs[t].program == Dispatch
    ensures ok ==> forall i :: 0 <= i < |Readable(rows, scan.unread)| ==>
              var id := Readable(rows, scan.unread)[i];
              id in d.st.db.outbox && d.st.db.outbox[id].status == (if accepts[i] then EventProcessed else EventFailed)
    ensures !ok && NoneFails(turns) ==> Readable(rows, scan.unread) == [] || BatchMet(d.origin, d.trace, |old(d.trace)|, rows, scan)
    ensures AllCalm(turns) ==> (ok <==> IsBatch(old(d.st), rows, scan.passed) && Readable(rows, scan.unread) != [])
    ensures AllCalm(turns) ==>
              if ok then
                && d.st.queue == old(d.st).queue + Accepted(Readable(rows, scan.unread), accepts, |Readable(rows, scan.unread)|)
                && Some(d.st.db) == Whole(old(d.st).db, DispatchTxn(Recorded(Readable(rows, scan.unread), accepts, |Readable(rows, scan.unread)|)))
              else d.st.queue == old(d.st).queue && d.st.db == old(d.st).db
  {
    hide IsBatch, Readable, Run, Next, Sound, Adds, BatchMet, OthersIn, OthersOf, Whole;
    ghost var before, others := d.trace, OthersIn(turns);
    OthersWithin(turns, 0, 0);
    OthersWithin(turns, 1, 1 + 2 * |rows|);
    OthersWithin(turns, 1 + 2 * |rows|, 1 + 2 * |rows|);
    var events := Readable(rows, scan.unread);
    ok := ClaimRows(d, t, rows, scan, turns[0]);
    ghost var claimed := d.trace;
    AddsWider(before, claimed, t, OthersOf(turns[0]), others);
    if ok {
      RecordedEach(events, accepts, |events|);
      ok := SendAll(d, t, events, accepts, turns[1..1 + 2 * |rows|]);
      AddsMore(before, claimed, d.trace, t, others, OthersIn(turns[1..1 + 2 * |rows|]), others);
    }
    if ok {
      ghost var sent := d.trace;
      ok := d.CommitTx(t, turns[1 + 2 * |rows|]);
      AddsMore(before, sent, d.trace, t, others, OthersOf(turns[1 + 2 * |rows|]), others);
    }
  }

  /** OutboxWorker.ProcessPendingEvents.  `rows` is what the claiming query returns, `scan.unread` the
      rows whose scan fails, `accepts` says which enqueues succeed. */
  method ProcessPendingEvents(d: Database, at: nat, rows: seq<Id>, scan: Scan, accepts: seq<bool>, turns: seq<Turn>)
    returns (begun: bool, committed: bool, t: nat)
    requires d.Valid() && |accepts| >= |rows| && |turns| == 3 + 2 * |rows|
    modifies d
    ensures d.Valid() && old(d.trace) <= d.trace
    ensures begun <==> !turns[0].fails
    ensures begun ==> |old(d.st).txs| <= t && Closed(d.st, t, Dispatch, committed)
    ensures !begun ==> forall p :: |old(d.trace)| <= p < |d.trace| ==> d.trace[p] in turns[0].others
    // the transaction is the only one, and every other new statement is of other sessions
    ensures begun ==> OneTx(d.origin, old(d.trace), d.trace, t, Dispatch, at, OthersIn(turns))
    // without failures only an empty poll, or rows that are not the poll's, stand in the way
    ensures begun && !committed && NoneFails(turns) ==>
              Readable(rows, scan.unread) == [] || BatchMet(d.origin, d.trace, |old(d.trace)| + 1, rows, scan)
    ensures committed ==> begun && Readable(rows, scan.unread) != []
    // a committed batch settles every event it read by the outcome of its enqueue
    ensures committed ==> forall i :: 0 <= i < |Readable(rows, scan.unread)| ==>
              var id := Readable(rows, scan.unread)[i];
              id in d.st.db.outbox && d.st.db.outbox[id].status == (if accepts[i] then EventProcessed else EventFailed)
    // alone and without failures it commits exactly when there is something to send
    ensures AllCalm(turns) ==> (committed <==> IsBatch(Begun(old(d.st), at), rows, scan.passed) && Readable(rows, scan.unread) != [])
    ensures AllCalm(turns) ==>
              if committed then
                && d.st.queue == old(d.st).queue + Accepted(Readable(rows, scan.unread), accepts, |Readable(rows, scan.unread)|)
                && Some(d.st.db) == Whole(old(d.st).db, DispatchTxn(Recorded(Readable(rows, scan.unread), accepts, |Readable(rows, scan.unread)|)))
              else d.st.queue == old(d.st).queue && d.st.db == old(d.st).db
    // the queue gains the accepted events oldest first
    ensures AllCalm(turns) && committed ==>
              old(d.st).queue <= d.st.queue && OldestFirst(old(d.st).db, d.st.queue[|old(d.st).queue|..])
  {
    hide IsBatch, Readable, Run, Next, Sound, Adds, BatchMet, OthersIn, OthersOf, OneTx, Whole, OldestFirst, Recorded;
    ghost var before, others := d.trace, OthersIn(turns);
    OthersWithin(turns, 0, 0);
    OthersWithin(turns, 1, |turns|);
    committed := false;
    begun, t := d.BeginTx(Dispatch, at, turns[0]);
    if !begun {
      return;
    }
    ghost var start, opening := d.trace, d.st;
    OneTxLonger(d.origin, before, start, t, Dispatch, at, OthersOf(turns[0]));
    committed := BatchStatements(d, t, rows, scan, accepts, turns[1..|turns|]);
    ghost var done := d.trace;
    OneTxMore(d.origin, before, start, done, t, Dispatch, at, OthersOf(turns[0]), OthersIn(turns[1..|turns|]), others);
    if !committed {
      d.RollbackTx(t);
      OneTxMore(d.origin, before, done, d.trace, t, Dispatch, at, others, {}, others);
      if NoneFails(turns) && Readable(rows, scan.unread) != [] {
        BatchMetStill(d.origin, done, d.trace, |before| + 1, |start|, rows, scan);
      }
    } else if AllCalm(turns) {
      BatchOldest(opening, rows, scan, accepts);
    }
  }

  // The state in which the batch's query runs.
  function Begun(s: State, at: nat): State {
    s.(txs := s.txs + [Tx(Dispatch, at, Open, NoWrites)])
  }
}
