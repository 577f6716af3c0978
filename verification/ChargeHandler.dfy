/** The charge route: the idempotency cache around the handler, the handler's lease around the
    charge, and the ledger below.  Other requests act on all three in between. */
module ChargeHandler {
  import opened Wrappers
  import Ledger
  import Lease
  import PaymentService
  import ChargeRuns
  import opened Idempotency

  datatype ChargeRequest = ChargeRequest(userId: string, amount: int, currency: string)

  // What the handler checks before it touches the lock.
  predicate Acceptable(req: ChargeRequest) {
    req.userId != "" && req.amount > 0 && (req.currency == "USD" || req.currency == "INR")
  }

  // What one call meets: the lock token and clock, commands of other handlers while the lease is
  // held, and the inputs of ProcessCharge.  `encode` is the JSON of a charged payment.
  datatype Setting = Setting(
    token: string, acquireAt: int, acquireLink: Lease.Link,
    meanwhile: seq<Lease.Op>,
    releaseAt: int, releaseLink: Lease.Link,
    row: string -> Ledger.Id, at: nat, paymentId: Ledger.Id, eventId: Ledger.Id, turns: seq<PaymentService.Turn>,
    encode: Ledger.Id -> string)

  // The body of the 409.
  const HELD := "{\"error\": \"Transaction processing in progress. Please don't double click.\"}"

  predicate Committed(s: Ledger.State, tx: Option<nat>) {
    tx.Some? && tx.value < |s.txs| && s.txs[tx.value].phase.Committed?
  }

  // The lease is free and the reply to SET NX arrives.
  predicate Enters(store: Lease.Store, req: ChargeRequest, c: Setting) {
    c.acquireLink.Answered? && !Lease.Live(store, req.userId, c.acquireAt)
  }

  // The lease store after a call that had entered.
  function AfterCall(store: Lease.Store, req: ChargeRequest, c: Setting): Lease.Store {
    var held := Lease.SetNx(store, req.userId, c.token, Lease.TTL, c.acquireAt).0;
    var busy := Lease.PerformedAll(held, c.meanwhile);
    if c.releaseLink.LostBefore? then busy else Lease.DeleteIfEqual(busy, req.userId, c.token, c.releaseAt)
  }

  function ProgramOf(req: ChargeRequest, c: Setting): Ledger.Program {
    Ledger.Charge(c.row(req.userId), req.amount, req.currency)
  }

  // Without failures only the user's data, a lock or a taken id keeps a charge from committing.
  ghost predicate Blocked(origin: Ledger.Db, trace: seq<Ledger.Step>, from: nat, tx: Option<nat>, req: ChargeRequest, c: Setting) {
    && tx.Some?
    && (|| PaymentService.UserMet(origin, trace, from + 1, tx.value, c.row(req.userId), req.amount)
        || PaymentService.IdMet(origin, trace, from + 1, c.paymentId) || PaymentService.IdMet(origin, trace, from + 1, c.eventId))
  }

  /** CreateChargeHandler; `req` is None for a body that does not decode.  `tx` is the transaction
      the call opened. */
  method CreateChargeHandler(d: PaymentService.Database, locker: Lease.DistributedLock, req: Option<ChargeRequest>, c: Setting)
    returns (actions: seq<Action>, ghost tx: Option<nat>)
    requires d.Valid() && |c.turns| == 6
    modifies d, locker
    ensures d.Valid() && old(d.trace) <= d.trace
    ensures HeaderFirst(actions) && Sent(actions) == Kept(actions)
    // the status, case by case
    ensures req.None? ==> Sent(actions).status == 400
    ensures req.Some? && !Acceptable(req.value) ==> Sent(actions).status == 422
    ensures req.Some? && Acceptable(req.value) && !c.acquireLink.Answered? ==> Sent(actions).status == 500
    ensures req.Some? && Acceptable(req.value) && c.acquireLink.Answered? && Lease.Live(old(locker.store), req.value.userId, c.acquireAt) ==>
              Sent(actions) == Reply(409, HELD)
    ensures req.Some? && Acceptable(req.value) && Enters(old(locker.store), req.value, c) ==>
              Sent(actions).status == if Committed(d.st, tx) then 200 else 422
    // nothing is charged before the lease is held
    ensures req.None? || !Acceptable(req.value) ==> locker.store == old(locker.store)
    ensures req.None? || !Acceptable(req.value) || !Enters(old(locker.store), req.value, c) ==>
              tx.None? && d.st == old(d.st) && d.trace == old(d.trace)
    // the transaction is of the requested charge, the only one of this call, and has ended
    ensures tx.Some? ==> req.Some? && |old(d.st).txs| <= tx.value
    ensures tx.Some? ==> PaymentService.Closed(d.st, tx.value, ProgramOf(req.value, c), Committed(d.st, tx))
    ensures req.Some? ==>
              PaymentService.OneTxAtMost(d.origin, old(d.trace), d.trace, tx, ProgramOf(req.value, c), c.at, PaymentService.OthersIn(c.turns))
    // 200 exactly when the transaction has committed, and then the payment is in the tables
    ensures Storable(Sent(actions)) <==> Committed(d.st, tx)
    ensures Committed(d.st, tx) ==>
              && req.Some? && c.paymentId in d.st.db.payments
              && d.st.db.payments[c.paymentId]
                 == Ledger.Payment(c.row(req.value.userId), req.value.amount, req.value.currency, Ledger.Succeeded)
              && Sent(actions).body == c.encode(c.paymentId)
    // undisturbed it is the whole charge or nothing; without failures it is refused only for cause
    ensures PaymentService.AllCalm(c.turns) && req.Some? ==>
              if Committed(d.st, tx) then
                Some(d.st.db) == Ledger.Whole(old(d.st).db, Ledger.ChargeTxn(c.row(req.value.userId), req.value.amount, req.value.currency,
                                                                             c.at, c.paymentId, c.eventId))
              else d.st.db == old(d.st).db
    ensures req.Some? && Acceptable(req.value) && Enters(old(locker.store), req.value, c)
            && PaymentService.NoneFails(c.turns) && !Committed(d.st, tx) ==>
              Blocked(d.origin, d.trace, |old(d.trace)|, tx, req.value, c)
    // an acquire whose reply is lost leaves a lease that nobody will release
    ensures req.Some? && Acceptable(req.value) && !Enters(old(locker.store), req.value, c) ==>
              locker.store == if c.acquireLink.LostBefore? then old(locker.store)
                              else Lease.SetNx(old(locker.store), req.value.userId, c.token, Lease.TTL, c.acquireAt).0
    // the deferred release runs on every way out after the acquire
    ensures req.Some? && Acceptable(req.value) && Enters(old(locker.store), req.value, c) ==>
              locker.store == AfterCall(old(locker.store), req.value, c)
  {
    tx := None;
    if req.None? {
      actions := Replied(400, "Malformed JSON layout string");
      return;
    }
    var r := req.value;
    hide PaymentService.OneTx, PaymentService.OthersIn, PaymentService.UserMet, PaymentService.IdMet, Ledger.Whole, Ledger.Run;
    if r.userId == "" || r.amount <= 0 || (r.currency != "USD" && r.currency != "INR") {
      actions := Replied(422, if r.userId == "" then "user_id is a mandatory required field"
                              else if r.amount <= 0 then "transaction amount must be strictly positive"
                              else "Invalid currency. Only USD and INR are supported.");
      return;
    }
    var lock := locker.AcquireLock(r.userId, c.token, Lease.TTL, c.acquireAt, c.acquireLink);
    if lock.Err? {
      actions := Replied(if lock.error.LockHeld? then 409 else 500,
                         if lock.error.LockHeld? then HELD else "Internal concurrency lock malfunction");
      return;
    }
    actions, tx := Charged(d, locker, r, c);
    var released := locker.ReleaseLock(r.userId, lock.value, c.releaseAt, c.releaseLink);
  }

  // The charge itself and the reply to its outcome, under the lease just acquired.
  method Charged(d: PaymentService.Database, locker: Lease.DistributedLock, r: ChargeRequest, c: Setting)
    returns (actions: seq<Action>, ghost tx: Option<nat>)
    requires d.Valid() && |c.turns| == 6 && r.amount > 0
    requires r.userId in locker.store && locker.store[r.userId] == Lease.Lease(c.token, c.acquireAt + 5000)
    modifies d, locker
    ensures d.Valid() && old(d.trace) <= d.trace
    ensures locker.store == Lease.PerformedAll(old(locker.store), c.meanwhile)
    ensures HeaderFirst(actions) && Sent(actions) == Kept(actions)
    ensures Sent(actions).status == if Committed(d.st, tx) then 200 else 422
    ensures tx.Some? ==> |old(d.st).txs| <= tx.value && PaymentService.Closed(d.st, tx.value, ProgramOf(r, c), Committed(d.st, tx))
    ensures PaymentService.OneTxAtMost(d.origin, old(d.trace), d.trace, tx, ProgramOf(r, c), c.at, PaymentService.OthersIn(c.turns))
    ensures Committed(d.st, tx) ==>
              && c.paymentId in d.st.db.payments
              && d.st.db.payments[c.paymentId] == Ledger.Payment(c.row(r.userId), r.amount, r.currency, Ledger.Succeeded)
              && Sent(actions).body == c.encode(c.paymentId)
    ensures PaymentService.AllCalm(c.turns) ==>
              if Committed(d.st, tx) then
                Some(d.st.db) == Ledger.Whole(old(d.st).db, Ledger.ChargeTxn(c.row(r.userId), r.amount, r.currency, c.at, c.paymentId, c.eventId))
              else d.st.db == old(d.st).db
    ensures PaymentService.NoneFails(c.turns) && !Committed(d.st, tx) ==> Blocked(d.origin, d.trace, |old(d.trace)|, tx, r, c)
  {
    hide PaymentService.OneTx, PaymentService.OthersIn, PaymentService.UserMet, PaymentService.IdMet, Ledger.Whole, Ledger.Run;
    hide PaymentService.AllCalm, PaymentService.NoneFails, PaymentService.NoLocks, PaymentService.ChargePasses;
    hide Lease.PerformedAll, Blocked, Sent, Kept, HeaderFirst;
    ghost var before := d.trace;
    tx := None;
    locker.Others(c.meanwhile);
    var charge, t := PaymentService.ProcessCharge(d, c.row(r.userId), r.amount, r.currency, c.at, c.paymentId, c.eventId, c.turns);
    if charge.Ok? || charge.error.Aborted? {
      tx := Some(t);
    } else {
      PaymentService.TurnWithin(before, d.trace, c.turns);
    }
    NotBegunFails(c.turns);
    if charge == Err(PaymentService.Aborted) && PaymentService.NoneFails(c.turns) {
      CauseBlocks(d.origin, d.trace, |before|, t, r, c);
    }
    actions := Replied(if charge.Ok? then 200 else 422, if charge.Ok? then c.encode(charge.value) else "charge refused");
  }

  lemma NotBegunFails(turns: seq<PaymentService.Turn>)
    requires |turns| > 0
    ensures turns[0].fails ==> !PaymentService.NoneFails(turns)
  {
  }

  lemma CauseBlocks(origin: Ledger.Db, trace: seq<Ledger.Step>, from: nat, t: nat, req: ChargeRequest, c: Setting)
    requires || PaymentService.UserMet(origin, trace, from + 1, t, c.row(req.userId), req.amount)
             || PaymentService.IdMet(origin, trace, from + 1, c.paymentId) || PaymentService.IdMet(origin, trace, from + 1, c.eventId)
    ensures Blocked(origin, trace, from, Some(t), req, c)
  {
  }

  // http.Error, or WriteHeader and a body.
  method Replied(code: int, text: string) returns (actions: seq<Action>)
    requires code != 0
    ensures HeaderFirst(actions) && Sent(actions) == Kept(actions) == Reply(code, text)
  {
    actions := [Header(code), Body(text)];
    assert actions[..1] == [Header(code)] && actions[..1][..0] == [];
    assert Sent(actions[..1]) == Reply(code, "") && Kept(actions[..1]) == Reply(code, "");
    assert "" + text == text;
  }

  // What other requests do while the handler of this one runs: events of theirs, each with the
  // number of statements before it, and the transactions they open.
  datatype Meanwhile = Meanwhile(events: seq<Event>, stamps: seq<nat>, claims: map<nat, nat>)

  // The history when the handler returns.
  ghost function Busy(h: ChargeRuns.History, id: nat, key: string, from: int, up: bool, steps: seq<Ledger.Step>, m: Meanwhile): ChargeRuns.History {
    ChargeRuns.Joined(ChargeRuns.Looked(h, id, key, from, up), steps, m.events, m.stamps, m.claims)
  }

  // The others keep the rules: they end no request but their own and claim no transaction of this one.
  ghost predicate OthersLawful(busy: ChargeRuns.History, l: nat, id: nat, tx: Option<nat>, entries: Cache) {
    && ChargeRuns.Lawful(busy) && ChargeRuns.Untouched(busy, l, id, tx)
    && entries == At(busy.events, |busy.events|).cache
  }

  // The history with this request's transaction and its end.
  ghost function Ended(busy: ChargeRuns.History, l: nat, id: nat, tx: Option<nat>, reply: Reply, until: int, up: bool): ChargeRuns.History {
    ChargeRuns.Finished(if tx.Some? then ChargeRuns.Claimed(busy, tx.value, l) else busy, id, reply, until, up)
  }

  // If the others keep the rules, this request ends by them, and the cache is that of the history.
  ghost predicate EndsLawfully(busy: ChargeRuns.History, l: nat, id: nat, tx: Option<nat>, entries: Cache,
                               reply: Reply, until: int, up: bool, after: Cache) {
    OthersLawful(busy, l, id, tx, entries) ==>
      var end := Ended(busy, l, id, tx, reply, until, up);
      ChargeRuns.Lawful(end) && after == At(end.events, |end.events|).cache
  }

  /** The idempotency middleware around the charge handler.  `busy` is the cache as other requests
      leave it while the handler runs; h is the history of all requests so far. */
  method Handle(cache: ResponseCache, d: PaymentService.Database, locker: Lease.DistributedLock, w: ResponseWriter,
                post: bool, key: string, req: Option<ChargeRequest>, c: Setting, from: int, readUp: bool, busy: Cache, until: int, writeUp: bool,
                ghost h: ChargeRuns.History, ghost id: nat, ghost m: Meanwhile)
    returns (ran: bool, ghost tx: Option<nat>)
    requires d.Valid() && |c.turns| == 6 && w.Value() == Reply(0, "")
    requires ChargeRuns.Lawful(h) && h.db == d.origin && h.steps == d.trace && cache.entries == At(h.events, |h.events|).cache
    modifies cache, d, locker, w
    ensures d.Valid() && old(d.trace) <= d.trace
    // without a key, and for other methods, the cache plays no part
    ensures !post || key == "" ==> ran && cache.entries == old(cache.entries)
    // a hit: the stored body with status 200, and nothing else happens
    ensures post && key != "" ==> (ran <==> !(readUp && Lookup(old(cache.entries), key, from).Some?))
    ensures !ran ==> w.Value() == Reply(200, Lookup(old(cache.entries), key, from).value)
    ensures !ran ==> tx.None? && d.st == old(d.st) && d.trace == old(d.trace) && locker.store == old(locker.store) && cache.entries == old(cache.entries)
    // a miss: the handler's reply goes out
    ensures ran && req.None? ==> w.Value().status == 400
    ensures ran && req.Some? && !Acceptable(req.value) ==> w.Value().status == 422
    ensures ran && req.Some? && Acceptable(req.value) && !c.acquireLink.Answered? ==> w.Value().status == 500
    ensures ran && req.Some? && Acceptable(req.value) && c.acquireLink.Answered?
            && Lease.Live(old(locker.store), req.value.userId, c.acquireAt) ==>
              w.Value() == Reply(409, HELD)
    ensures ran && req.Some? && Acceptable(req.value) && Enters(old(locker.store), req.value, c) ==>
              w.Value().status == if Committed(d.st, tx) then 200 else 422
    ensures ran ==> (Storable(w.Value()) <==> Committed(d.st, tx))
    // the charge is the requested one, the only one of this request, and ends with it
    ensures tx.Some? ==> req.Some? && |old(d.st).txs| <= tx.value
    ensures tx.Some? ==>
              PaymentService.Closed(d.st, tx.value, Ledger.Charge(c.row(req.value.userId), req.value.amount, req.value.currency), Committed(d.st, tx))
    ensures ran && req.Some? ==>
              PaymentService.OneTxAtMost(d.origin, old(d.trace), d.trace, tx, ProgramOf(req.value, c), c.at, PaymentService.OthersIn(c.turns))
    ensures Committed(d.st, tx) ==>
              && req.Some? && c.paymentId in d.st.db.payments
              && d.st.db.payments[c.paymentId]
                 == Ledger.Payment(c.row(req.value.userId), req.value.amount, req.value.currency, Ledger.Succeeded)
              && w.Value().body == c.encode(c.paymentId)
    ensures PaymentService.AllCalm(c.turns) && req.Some? ==>
              if Committed(d.st, tx) then
                Some(d.st.db) == Ledger.Whole(old(d.st).db, Ledger.ChargeTxn(c.row(req.value.userId), req.value.amount, req.value.currency,
                                                                             c.at, c.paymentId, c.eventId))
              else d.st.db == old(d.st).db
    ensures ran && req.Some? && Acceptable(req.value) && Enters(old(locker.store), req.value, c)
            && PaymentService.NoneFails(c.turns) && !Committed(d.st, tx) ==>
              Blocked(d.origin, d.trace, |old(d.trace)|, tx, req.value, c)
    ensures ran && (req.None? || !Acceptable(req.value)) ==> locker.store == old(locker.store)
    ensures ran && (req.None? || !Acceptable(req.value) || !Enters(old(locker.store), req.value, c)) ==>
              tx.None? && d.st == old(d.st) && d.trace == old(d.trace)
    ensures ran && req.Some? && Acceptable(req.value) && !Enters(old(locker.store), req.value, c) ==>
              locker.store == if c.acquireLink.LostBefore? then old(locker.store)
                              else Lease.SetNx(old(locker.store), req.value.userId, c.token, Lease.TTL, c.acquireAt).0
    ensures ran && req.Some? && Acceptable(req.value) && Enters(old(locker.store), req.value, c) ==>
              locker.store == AfterCall(old(locker.store), req.value, c)
    // and is stored if it is a success
    ensures ran && post && key != "" ==> cache.entries == Stored(busy, key, w.Value(), until, writeUp)
    // the history goes on by the rules: with the lookup, and with the end of a request that ran
    ensures post && key != "" ==> ChargeRuns.Lawful(ChargeRuns.Looked(h, id, key, from, readUp))
    ensures post && key != "" ==> (ran <==> Misses(ChargeRuns.Looked(h, id, key, from, readUp).events, |h.events|))
    ensures ran && post && key != "" ==>
              EndsLawfully(Busy(h, id, key, from, readUp, d.trace, m), |h.events|, id, tx, busy, w.Value(), until, writeUp, cache.entries)
  {
    ran, tx := true, None;
    if post && key != "" {
      LookKept(h, id, key, from, readUp);
      var hit := cache.Get(key, from, readUp);
      if hit.Some? {
        ran := false;
        w.WriteHeader(200);
        w.Write(hit.value);
        return;
      }
    }
    hide PaymentService.OneTxAtMost, PaymentService.OthersIn, Blocked, Ledger.Whole, AfterCall, Lease.SetNx;
    ghost var before := d.st;
    var actions;
    actions, tx := CreateChargeHandler(d, locker, req, c);
    if !post || key == "" {
      w.Perform(actions);
      return;
    }
    Record(cache, w, actions, key, busy, until, writeUp);
    hide *;
    FinishKept(h, id, key, from, readUp, d.trace, m, busy, tx, w.Value(), until, writeUp, before, d.st);
  }

  // The handler writes to a recorder, and a success is stored.
  method Record(cache: ResponseCache, w: ResponseWriter, actions: seq<Action>, key: string, busy: Cache, until: int, writeUp: bool)
    requires w.Value() == Reply(0, "")
    modifies cache, w
    ensures w.Value() == Sent(actions)
    ensures cache.entries == Stored(busy, key, Kept(actions), until, writeUp)
  {
    var rec := new ResponseRecorder(w);
    rec.Perform(actions);
    cache.Others(busy);
    if rec.statusCode == 200 || rec.statusCode == 201 {
      cache.Set(key, rec.body, DAY, until, writeUp);
    }
  }

  lemma LookKept(h: ChargeRuns.History, id: nat, key: string, from: int, up: bool)
    requires ChargeRuns.Lawful(h)
    ensures var looked := ChargeRuns.Looked(h, id, key, from, up);
            && ChargeRuns.Lawful(looked)
            && (Misses(looked.events, |h.events|) <==> !(up && Lookup(At(h.events, |h.events|).cache, key, from).Some?))
  {
    hide ChargeRuns.Lawful;
    ChargeRuns.LookLawful(h, id, key, from, up);
    AtPrefix(h.events, [Look(id, key, from, up)], |h.events|);
  }

  // A handler's transaction may be claimed for its request.
  lemma HandlerOpened(mid: ChargeRuns.History, p: nat, l: nat, id: nat, t: nat, before: Ledger.State, after: Ledger.State)
    requires ChargeRuns.Stamped(mid) && l < |mid.events| && mid.stamps[l] == p
    requires Ledger.Run(Ledger.Init(mid.db), mid.steps[..p]) == Some(before)
    requires Ledger.Run(Ledger.Init(mid.db), mid.steps) == Some(after)
    requires Runs(mid.events, |mid.events|, id, l) && Charging(Some(t), before, after)
    ensures ChargeRuns.Opened(mid, t, l)
    ensures ChargeRuns.CommittedAt(mid, |mid.steps|, t) <==> Committed(after, Some(t))
  {
    RunningLooked(mid.events, |mid.events|, id);
    assert mid.steps[..|mid.steps|] == mid.steps;
    hide Ledger.Run, Misses, Runs;
  }

  // What the handler promises about the ledger is what its request needs to end by the rules.
  lemma HandlerEnds(mid: ChargeRuns.History, p: nat, l: nat, id: nat, tx: Option<nat>, reply: Reply, until: int, up: bool,
                    before: Ledger.State, after: Ledger.State)
    requires ChargeRuns.Lawful(mid) && ChargeRuns.Stamped(mid) && l < |mid.events| && mid.stamps[l] == p
    requires Ledger.Run(Ledger.Init(mid.db), mid.steps[..p]) == Some(before)
    requires Ledger.Run(Ledger.Init(mid.db), mid.steps) == Some(after)
    requires ChargeRuns.Untouched(mid, l, id, tx)
    requires Charging(tx, before, after) && (Storable(reply) <==> Committed(after, tx))
    ensures ChargeRuns.Lawful(Ended(mid, l, id, tx, reply, until, up))
  {
    hide ChargeRuns.Lawful, ChargeRuns.Opened, Ledger.Run, Storable, ChargeRuns.CommittedAt, ChargeRuns.Stamped;
    if tx.None? {
      ChargeRuns.FinishLawful(mid, id, reply, until, up);
    } else {
      var t := tx.value;
      HandlerOpened(mid, p, l, id, t, before, after);
      ChargeRuns.ClaimLawful(mid, t, l);
      var claimed := ChargeRuns.Claimed(mid, t, l);
      SameCommits(mid, claimed, t);
      assert ChargeRuns.MayFinish(claimed, id, reply) by {
        assert t in claimed.owner && claimed.owner[t] == l;
      }
      ChargeRuns.FinishLawful(claimed, id, reply, until, up);
    }
  }

  // The acts by which this request ends.
  function EndActs(l: nat, id: nat, tx: Option<nat>, reply: Reply, until: int, up: bool): seq<ChargeRuns.Act> {
    (if tx.Some? then [ChargeRuns.Claims(tx.value, l)] else []) + [ChargeRuns.Finishes(id, reply, until, up)]
  }

  /** Its end is made of acts that the rules allow, so it is foreign and lawful to every other request. */
  lemma EndsByActs(mid: ChargeRuns.History, p: nat, l: nat, id: nat, tx: Option<nat>, reply: Reply, until: int, up: bool,
                   before: Ledger.State, after: Ledger.State)
    requires ChargeRuns.Lawful(mid) && ChargeRuns.Stamped(mid) && l < |mid.events| && mid.stamps[l] == p
    requires Ledger.Run(Ledger.Init(mid.db), mid.steps[..p]) == Some(before)
    requires Ledger.Run(Ledger.Init(mid.db), mid.steps) == Some(after)
    requires ChargeRuns.Untouched(mid, l, id, tx)
    requires Charging(tx, before, after) && (Storable(reply) <==> Committed(after, tx))
    ensures ChargeRuns.Generated(mid, EndActs(l, id, tx, reply, until, up))
    ensures ChargeRuns.Grown(mid, EndActs(l, id, tx, reply, until, up)) == Ended(mid, l, id, tx, reply, until, up)
  {
    hide ChargeRuns.Lawful, ChargeRuns.Opened, Ledger.Run, Storable, ChargeRuns.CommittedAt;
    var acts := EndActs(l, id, tx, reply, until, up);
    var n := |acts| - 1;
    if tx.None? {
      assert acts[..0] == [];
    } else {
      var t := tx.value;
      HandlerOpened(mid, p, l, id, t, before, after);
      var claimed := ChargeRuns.Claimed(mid, t, l);
      SameCommits(mid, claimed, t);
      assert ChargeRuns.MayFinish(claimed, id, reply) by {
        assert t in claimed.owner && claimed.owner[t] == l;
      }
      var first := acts[..1];
      assert first == [ChargeRuns.Claims(t, l)] && first[..0] == [];
      assert ChargeRuns.Grown(mid, first) == claimed && ChargeRuns.Generated(mid, first);
    }
  }

  lemma SameCommits(h: ChargeRuns.History, h': ChargeRuns.History, t: nat)
    requires h.db == h'.db && h.steps == h'.steps
    ensures ChargeRuns.CommittedAt(h', |h.steps|, t) <==> ChargeRuns.CommittedAt(h, |h.steps|, t)
  {
    ChargeRuns.SameStates(h, h');
  }

  // The transaction of a call: new, a charge, and ended.
  predicate Charging(tx: Option<nat>, before: Ledger.State, after: Ledger.State) {
    tx.Some? ==>
      |before.txs| <= tx.value < |after.txs| && after.txs[tx.value].program.Charge? && !after.txs[tx.value].Live()
  }

  // The end of a request that missed.
  lemma FinishKept(h: ChargeRuns.History, id: nat, key: string, from: int, up: bool, steps: seq<Ledger.Step>, m: Meanwhile, busy: Cache,
                   tx: Option<nat>, reply: Reply, until: int, writeUp: bool, before: Ledger.State, after: Ledger.State)
    requires ChargeRuns.Lawful(h) && h.steps <= steps
    requires Ledger.Run(Ledger.Init(h.db), h.steps) == Some(before) && Ledger.Run(Ledger.Init(h.db), steps) == Some(after)
    requires Charging(tx, before, after) && (Storable(reply) <==> Committed(after, tx))
    ensures EndsLawfully(Busy(h, id, key, from, up, steps, m), |h.events|, id, tx, busy, reply, until, writeUp,
                         Stored(busy, key, reply, until, writeUp))
  {
    var l, mid := |h.events|, Busy(h, id, key, from, up, steps, m);
    if OthersLawful(mid, l, id, tx, busy) {
      ChargeRuns.StampsOf(mid);
      ChargeRuns.StampsOf(h);
      hide ChargeRuns.Lawful;
      assert mid.events[l] == Look(id, key, from, up) && mid.stamps[l] == |h.steps|;
      assert mid.steps == steps && mid.db == h.db && steps[..|h.steps|] == h.steps;
      HandlerEnds(mid, |h.steps|, l, id, tx, reply, until, writeUp, before, after);
      FinishStores(mid, l, id, tx, reply, until, writeUp, key);
      hide *;
    }
  }

  lemma FinishStores(mid: ChargeRuns.History, l: nat, id: nat, tx: Option<nat>, reply: Reply, until: int, writeUp: bool, key: string)
    requires Runs(mid.events, |mid.events|, id, l) && l < |mid.events| && mid.events[l].Look? && mid.events[l].key == key
    ensures var end := Ended(mid, l, id, tx, reply, until, writeUp);
            At(end.events, |end.events|).cache == Stored(At(mid.events, |mid.events|).cache, key, reply, until, writeUp)
  {
    RunningLooked(mid.events, |mid.events|, id);
    AtPrefix(mid.events, [Finish(id, until, reply, writeUp)], |mid.events|);
    hide Stored;
  }

  /** The others keep the rules whenever they act by them: for any acts of theirs after the lookup,
      whatever overlaps, and any statements of this request's own among them. */
  lemma ForeignLawful(h: ChargeRuns.History, id: nat, key: string, from: int, up: bool, acts: seq<ChargeRuns.Act>, tx: Option<nat>)
    requires ChargeRuns.Lawful(h) && !(up && Lookup(At(h.events, |h.events|).cache, key, from).Some?)
    requires tx.Some? ==> tx.value !in h.owner
    requires ChargeRuns.Generated(ChargeRuns.Looked(h, id, key, from, up), acts)
    requires forall act :: act in acts ==> ChargeRuns.Foreign(act, |h.events|, id, tx)
    ensures var busy := ChargeRuns.Grown(ChargeRuns.Looked(h, id, key, from, up), acts);
            OthersLawful(busy, |h.events|, id, tx, At(busy.events, |busy.events|).cache)
  {
    hide ChargeRuns.Lawful, ChargeRuns.Generated, ChargeRuns.Grown, ChargeRuns.Foreign, Lookup;
    var looked := ChargeRuns.Looked(h, id, key, from, up);
    ChargeRuns.LookLawful(h, id, key, from, up);
    ChargeRuns.GeneratedLawful(looked, acts);
    AtPrefix(h.events, [Look(id, key, from, up)], |h.events|);
    OwnersBehind(h);
    ChargeRuns.ForeignActs(looked, acts, |h.events|, id, tx);
  }

  lemma OwnersBehind(h: ChargeRuns.History)
    requires ChargeRuns.Lawful(h)
    ensures forall t :: t in h.owner ==> h.owner[t] < |h.events|
  {
    hide Ledger.Run, Misses;
  }

  /** A request that no other disturbs meets the rules it asks of others. */
  lemma Undisturbed(h: ChargeRuns.History, id: nat, key: string, from: int, up: bool, steps: seq<Ledger.Step>,
                    tx: Option<nat>, before: Ledger.State)
    requires ChargeRuns.Lawful(h) && h.steps <= steps && Ledger.Run(Ledger.Init(h.db), steps).Some?
    requires Ledger.Run(Ledger.Init(h.db), h.steps) == Some(before) && (tx.Some? ==> |before.txs| <= tx.value)
    requires !(up && Lookup(At(h.events, |h.events|).cache, key, from).Some?)
    ensures OthersLawful(Busy(h, id, key, from, up, steps, Meanwhile([], [], map[])), |h.events|, id, tx, At(h.events, |h.events|).cache)
  {
    hide Ledger.Run, ChargeRuns.Lawful, Lookup;
    var looked, mid := ChargeRuns.Looked(h, id, key, from, up), Busy(h, id, key, from, up, steps, Meanwhile([], [], map[]));
    ChargeRuns.LookLawful(h, id, key, from, up);
    ChargeRuns.StatementsLawful(looked, steps);
    assert mid == looked.(steps := steps);
    AtPrefix(h.events, [Look(id, key, from, up)], |h.events|);
    OwnersBelow(h, before);
  }

  lemma OwnersBelow(h: ChargeRuns.History, before: Ledger.State)
    requires ChargeRuns.Lawful(h) && Ledger.Run(Ledger.Init(h.db), h.steps) == Some(before)
    ensures forall t :: t in h.owner ==> t < |before.txs| && h.owner[t] < |h.events|
  {
    assert h.steps[..|h.steps|] == h.steps;
    hide Ledger.Run, Misses;
  }

  // ---------- the handler's own checks and its lease, in full ----------

  /** A request passes the checks exactly with a user, a positive amount and one of two currencies. */
  lemma AcceptableExactly(req: ChargeRequest)
    ensures req.userId == "" || req.amount <= 0 || (req.currency != "USD" && req.currency != "INR") ==> !Acceptable(req)
    ensures req.userId != "" && req.amount > 0 && req.currency == "USD" ==> Acceptable(req)
    ensures req.userId != "" && req.amount > 0 && req.currency == "INR" ==> Acceptable(req)
  {
  }

  /** A call that nobody disturbs leaves its key free, unless the release does not reach Redis; other
      keys stay as they are. */
  lemma AfterCallFrees(store: Lease.Store, req: ChargeRequest, c: Setting, other: string)
    requires Enters(store, req, c) && c.meanwhile == []
    ensures !c.releaseLink.LostBefore? ==> !Lease.Live(AfterCall(store, req, c), req.userId, c.releaseAt)
    ensures c.releaseLink.LostBefore? ==>
              (Lease.Live(AfterCall(store, req, c), req.userId, c.releaseAt) <==> c.releaseAt <= c.acquireAt + 5000)
    ensures other != req.userId ==>
              (other in AfterCall(store, req, c) <==> other in store) && (other in store ==> AfterCall(store, req, c)[other] == store[other])
  {
  }
}
