/** What serialisability buys: money is conserved, balances stay in range, a payment is refunded
    at most once, and payments created by charges match outbox rows one to one. */
module Conservation {
  import opened Wrappers
  import opened Ledger
  import opened Isolation

  // ---------- money ----------

  function Share(payments: map<Id, Payment>, user: Id, id: Id): int
    requires id in payments
  {
    if payments[id].user == user && payments[id].status.Succeeded? then payments[id].amount else 0
  }

  ghost function SumOver(payments: map<Id, Payment>, user: Id, ids: set<Id>): int
    requires ids <= payments.Keys
  {
    if ids == {} then 0
    else
      var id :| id in ids;
      Share(payments, user, id) + SumOver(payments, user, ids - {id})
  }

  /** The amounts of a user's succeeded payments. */
  ghost function Outstanding(db: Db, user: Id): int {
    SumOver(db.payments, user, db.payments.Keys)
  }

  lemma {:induction false} SumPick(payments: map<Id, Payment>, user: Id, ids: set<Id>, id: Id)
    requires ids <= payments.Keys && id in ids
    ensures SumOver(payments, user, ids) == Share(payments, user, id) + SumOver(payments, user, ids - {id})
    decreases ids
  {
    var first :| first in ids && SumOver(payments, user, ids) == Share(payments, user, first) + SumOver(payments, user, ids - {first});
    if first != id {
      SumPick(payments, user, ids - {first}, id);
      SumPick(payments, user, ids - {id}, first);
      assert ids - {first} - {id} == ids - {id} - {first};
    }
  }

  lemma {:induction false} SumAgree(a: map<Id, Payment>, b: map<Id, Payment>, user: Id, ids: set<Id>)
    requires ids <= a.Keys && ids <= b.Keys
    requires forall id :: id in ids ==> a[id] == b[id]
    ensures SumOver(a, user, ids) == SumOver(b, user, ids)
    decreases ids
  {
    if ids != {} {
      var id :| id in ids;
      SumPick(a, user, ids, id);
      SumPick(b, user, ids, id);
      SumAgree(a, b, user, ids - {id});
    }
  }

  // Writing one payment changes the sum by what that payment contributes.
  lemma SumWrite(payments: map<Id, Payment>, user: Id, id: Id, row: Payment)
    ensures var after := payments[id := row];
            SumOver(after, user, after.Keys) - Share(after, user, id) ==
            SumOver(payments, user, payments.Keys) - if id in payments then Share(payments, user, id) else 0
  {
    var after := payments[id := row];
    var rest := payments.Keys - {id};
    SumPick(after, user, after.Keys, id);
    assert after.Keys - {id} == rest;
    SumAgree(after, payments, user, rest);
    if id in payments {
      SumPick(payments, user, payments.Keys, id);
    } else {
      assert rest == payments.Keys;
    }
  }

  lemma WholeConserves(db: Db, txn: Txn, user: Id)
    requires Whole(db, txn).Some? && user in db.users
    ensures var after := Whole(db, txn).value;
            user in after.users && after.users[user] + Outstanding(after, user) == db.users[user] + Outstanding(db, user)
  {
    match txn
    case ChargeTxn(payer, amount, currency, _, payment, _) =>
      SumWrite(db.payments, user, payment, Payment(payer, amount, currency, Succeeded));
    case RefundTxn(payment) =>
      SumWrite(db.payments, user, payment, db.payments[payment].(status := Refunded));
    case DispatchTxn(_) =>
  }

  lemma {:induction false} ReplayConserves(db: Db, log: seq<Txn>, user: Id)
    requires Replay(db, log).Some? && user in db.users
    ensures var after := Replay(db, log).value;
            user in after.users && after.users[user] + Outstanding(after, user) == db.users[user] + Outstanding(db, user)
  {
    if log != [] {
      ReplayConserves(db, log[..|log| - 1], user);
      WholeConserves(Replay(db, log[..|log| - 1]).value, log[|log| - 1], user);
    }
  }

  /** Conservation: in every reachable committed state, a user's balance plus the amounts of the
      user's succeeded payments is what it was at the start. */
  lemma Conserved(db: Db, steps: seq<Step>, user: Id)
    requires Sound(db) && Run(Init(db), steps).Some? && user in db.users
    ensures var after := Run(Init(db), steps).value.db;
            user in after.users && after.users[user] + Outstanding(after, user) == db.users[user] + Outstanding(db, user)
  {
    Serialisable(db, steps);
    ReplayConserves(db, CommitLog(Init(db), steps), user);
  }

  // ---------- range ----------

  ghost predicate Solvent(db: Db) {
    && (forall u :: u in db.users ==> db.users[u] >= 0)
    && (forall p :: p in db.payments ==> db.payments[p].amount > 0)
  }

  lemma {:induction false} ReplaySolvent(db: Db, log: seq<Txn>)
    requires Replay(db, log).Some? && Solvent(db)
    ensures Solvent(Replay(db, log).value)
  {
    if log != [] {
      ReplaySolvent(db, log[..|log| - 1]);
    }
  }

  lemma {:induction false} SumAtLeast(payments: map<Id, Payment>, user: Id, ids: set<Id>)
    requires ids <= payments.Keys
    requires forall p :: p in payments ==> payments[p].amount > 0
    ensures SumOver(payments, user, ids) >= 0
    decreases ids
  {
    if ids != {} {
      var id :| id in ids;
      SumPick(payments, user, ids, id);
      SumAtLeast(payments, user, ids - {id});
    }
  }

  /** Every reachable balance lies between zero and the user's initial wealth. */
  lemma InRange(db: Db, steps: seq<Step>, user: Id)
    requires Sound(db) && Solvent(db) && Run(Init(db), steps).Some? && user in db.users
    ensures user in Run(Init(db), steps).value.db.users
    ensures 0 <= Run(Init(db), steps).value.db.users[user] <= db.users[user] + Outstanding(db, user)
  {
    Serialisable(db, steps);
    Conserved(db, steps, user);
    ReplaySolvent(db, CommitLog(Init(db), steps));
    var after := Run(Init(db), steps).value.db;
    SumAtLeast(after.payments, user, after.payments.Keys);
  }

  /** A refund's credit never overflows BIGINT when the payer's initial wealth fits, so a refund
      that has locked both rows and passed its guard is never refused. */
  lemma CreditFits(db: Db, steps: seq<Step>, t: nat)
    requires Sound(db) && Solvent(db) && Run(Init(db), steps).Some?
    requires t < |Run(Init(db), steps).value.txs| && Run(Init(db), steps).value.txs[t].phase.PaymentRead?
    requires var s := Run(Init(db), steps).value;
             var payer := s.txs[t].phase.record.user;
             payer in db.users && db.users[payer] + Outstanding(db, payer) <= MAX_INT64 && s.Free(UserRow(payer), t)
    ensures var s := Run(Init(db), steps).value;
            Next(s, CreditUser(t)).Some? &&
            (Next(s, CreditUser(t)).value.txs[t].phase.Refused? <==> !s.txs[t].phase.record.status.Succeeded?)
  {
    var s := Run(Init(db), steps).value;
    InitInv(db);
    RunKept(Init(db), steps);
    assert TxInv(s, t);
    var record := s.txs[t].phase.record;
    if record.status.Succeeded? {
      var payment := s.txs[t].program.payment;
      Serialisable(db, steps);
      ReplaySolvent(db, CommitLog(Init(db), steps));
      Conserved(db, steps, record.user);
      SumPick(s.db.payments, record.user, s.db.payments.Keys, payment);
      SumAtLeast(s.db.payments, record.user, s.db.payments.Keys - {payment});
    }
  }

  // ---------- at most once ----------

  lemma {:induction false} SettledStays(db: Db, log: seq<Txn>, payment: Id)
    requires Replay(db, log).Some? && payment in db.payments && !db.payments[payment].status.Succeeded?
    ensures payment in Replay(db, log).value.payments
    ensures Replay(db, log).value.payments[payment] == db.payments[payment]
    ensures RefundTxn(payment) !in log
  {
    if log != [] {
      SettledStays(db, log[..|log| - 1], payment);
    }
  }

  lemma {:induction false} ReplaySplit(db: Db, a: seq<Txn>, b: seq<Txn>)
    requires Replay(db, a + b).Some?
    ensures Replay(db, a).Some? && Replay(Replay(db, a).value, b) == Replay(db, a + b)
  {
    if b == [] {
      assert a + b == a;
    } else {
      assert (a + b)[..|a + b| - 1] == a + b[..|b| - 1];
      ReplaySplit(db, a, b[..|b| - 1]);
    }
  }

  lemma OnceInLog(db: Db, log: seq<Txn>, payment: Id, i: nat, j: nat)
    requires Replay(db, log).Some? && i < j < |log| && log[i] == RefundTxn(payment)
    ensures log[j] != RefundTxn(payment)
  {
    var a, b := log[..i + 1], log[i + 1..];
    assert log == a + b;
    ReplaySplit(db, a, b);
    assert a[..|a| - 1] == log[..i];
    SettledStays(Replay(db, a).value, b, payment);
    assert b[j - i - 1] == log[j];
  }

  /** A payment is refunded at most once, over any interleaving of any number of refunds. */
  lemma RefundedOnce(db: Db, steps: seq<Step>, payment: Id, i: nat, j: nat)
    requires Sound(db) && Run(Init(db), steps).Some?
    requires i < j < |CommitLog(Init(db), steps)| && CommitLog(Init(db), steps)[i] == RefundTxn(payment)
    ensures CommitLog(Init(db), steps)[j] != RefundTxn(payment)
  {
    Serialisable(db, steps);
    OnceInLog(db, CommitLog(Init(db), steps), payment, i, j);
  }

  // ---------- atomic event capture ----------

  ghost predicate Describes(event: Event, payment: Id, row: Payment) {
    event.aggregate == payment && event.user == row.user && event.amount == row.amount && event.currency == row.currency
  }

  ghost predicate NewPayment(db: Db, after: Db, id: Id) {
    id in after.payments && id !in db.payments
  }

  ghost predicate NewEvent(db: Db, after: Db, id: Id) {
    id in after.outbox && id !in db.outbox
  }

  // Rows added since `db` was the committed state: payments and events match one to one.
  ghost predicate Captured(db: Db, after: Db) {
    && (forall p :: p in db.payments ==> p in after.payments)
    && (forall e :: e in db.outbox ==> e in after.outbox)
    && (forall p :: NewPayment(db, after, p) ==>
          exists e :: NewEvent(db, after, e) && Describes(after.outbox[e], p, after.payments[p]))
    && (forall e :: NewEvent(db, after, e) ==> NewPayment(db, after, after.outbox[e].aggregate))
    && (forall e, f :: NewEvent(db, after, e) && NewEvent(db, after, f) && e != f ==>
          after.outbox[e].aggregate != after.outbox[f].aggregate)
  }

  // A transaction keeps the events it does not add, up to their delivery status.
  ghost predicate Grows(mid: Db, after: Db) {
    && (forall p :: p in mid.payments ==> p in after.payments && after.payments[p] == mid.payments[p].(status := after.payments[p].status))
    && (forall e :: e in mid.outbox ==> e in after.outbox && after.outbox[e] == mid.outbox[e].(status := after.outbox[e].status))
  }

  lemma WholeGrows(db: Db, txn: Txn)
    requires Whole(db, txn).Some?
    ensures Grows(db, Whole(db, txn).value)
    ensures forall p :: NewPayment(db, Whole(db, txn).value, p) ==> txn.ChargeTxn? && p == txn.payment
    ensures forall e :: NewEvent(db, Whole(db, txn).value, e) ==> txn.ChargeTxn? && e == txn.event
  {
  }

  lemma WholeCaptures(db: Db, mid: Db, txn: Txn)
    requires Captured(db, mid) && Whole(mid, txn).Some?
    ensures Captured(db, Whole(mid, txn).value)
  {
    var after := Whole(mid, txn).value;
    WholeGrows(mid, txn);
    forall p | NewPayment(db, after, p)
      ensures exists e :: NewEvent(db, after, e) && Describes(after.outbox[e], p, after.payments[p])
    {
      if p in mid.payments {
        assert NewPayment(db, mid, p);
        var e :| NewEvent(db, mid, e) && Describes(mid.outbox[e], p, mid.payments[p]);
        assert NewEvent(db, after, e) && Describes(after.outbox[e], p, after.payments[p]);
      } else {
        assert NewPayment(mid, after, p);
        assert NewEvent(db, after, txn.event) && Describes(after.outbox[txn.event], p, after.payments[p]);
      }
    }
    forall e | NewEvent(db, after, e)
      ensures NewPayment(db, after, after.outbox[e].aggregate)
      ensures if e in mid.outbox then NewEvent(db, mid, e) else txn.ChargeTxn? && e == txn.event
    {
      assert e in mid.outbox || NewEvent(mid, after, e);
      assert e in mid.outbox ==> NewEvent(db, mid, e);
    }
  }

  lemma {:induction false} ReplayCaptures(db: Db, log: seq<Txn>)
    requires Replay(db, log).Some?
    ensures Captured(db, Replay(db, log).value)
  {
    if log != [] {
      ReplayCaptures(db, log[..|log| - 1]);
      WholeCaptures(db, Replay(db, log[..|log| - 1]).value, log[|log| - 1]);
    }
  }

  /** Atomic event capture: in every reachable committed state the payments created since the
      start and the outbox rows created since the start correspond one to one, payload included. */
  lemma EventsMatchPayments(db: Db, steps: seq<Step>)
    requires Sound(db) && Run(Init(db), steps).Some?
    ensures Captured(db, Run(Init(db), steps).value.db)
  {
    Serialisable(db, steps);
    ReplayCaptures(db, CommitLog(Init(db), steps));
  }
}
