/** Whole histories of the charge route: the statements of the ledger, the lookups and replies of the
    idempotency cache, and which request opened which transaction.  How often is a key debited? */
module ChargeRuns {
  import opened Wrappers
  import opened Ledger
  import opened Isolation
  import Idempotency

  // stamps[i] is the number of statements executed before event i.  `owner` maps a transaction to
  // the position of the Look of the request that opened it.
  datatype History = History(db: Db, steps: seq<Step>, events: seq<Idempotency.Event>, stamps: seq<nat>, owner: map<nat, nat>)

  // The ledger after the first p statements.
  function StateAt(h: History, p: nat): State
    requires p <= |h.steps|
  {
    match Run(Init(h.db), h.steps[..p])
    case Some(s) => s
    case None => Init(h.db)
  }

  predicate CommittedAt(h: History, p: nat, t: nat)
    requires p <= |h.steps|
  {
    t < |StateAt(h, p).txs| && StateAt(h, p).txs[t].phase.Committed?
  }

  // ---------- the rules that requests follow ----------

  predicate Stamped(h: History) {
    && |h.stamps| == |h.events|
    && (forall i :: 0 <= i < |h.stamps| ==> h.stamps[i] <= |h.steps|)
    && (forall i, j :: 0 <= i <= j < |h.stamps| ==> h.stamps[i] <= h.stamps[j])
  }

  // The request missed the cache and opened this charge afterwards.
  predicate Opened(h: History, t: nat, l: nat)
    requires Stamped(h)
  {
    && l < |h.events| && Idempotency.Misses(h.events, l)
    && |StateAt(h, h.stamps[l]).txs| <= t < |StateAt(h, |h.steps|).txs|
    && StateAt(h, |h.steps|).txs[t].program.Charge?
  }

  // A charge that request l opened has committed within the first p statements.
  ghost predicate Charged(h: History, p: nat, l: nat)
    requires p <= |h.steps|
  {
    exists t :: t in h.owner && h.owner[t] == l && CommittedAt(h, p, t)
  }

  // A request replies with a success only if its charge has committed.  With an error it may have
  // committed all the same, the acknowledgement being lost, or may still commit.
  ghost predicate Settled(h: History, i: nat, l: nat)
    requires Stamped(h) && i < |h.events| && h.events[i].Finish?
  {
    Idempotency.Storable(h.events[i].outcome) ==> Charged(h, h.stamps[i], l)
  }

  ghost predicate Lawful(h: History) {
    && Sound(h.db) && Run(Init(h.db), h.steps).Some? && Stamped(h)
    && (forall t :: t in h.owner ==> Opened(h, t, h.owner[t]))
    && (forall t, u :: t in h.owner && u in h.owner && t != u ==> h.owner[t] != h.owner[u])
    && (forall i: nat, l: nat :: i < |h.events| && Idempotency.Ends(h.events, i, l) ==> Settled(h, i, l))
  }

  // ---------- the ledger along a history ----------

  lemma {:induction false} RunPrefix(s: State, steps: seq<Step>, p: nat)
    requires Run(s, steps).Some? && p <= |steps|
    ensures Run(s, steps[..p]).Some?
    decreases |steps| - p
  {
    hide Next;
    if p == |steps| {
      assert steps[..p] == steps;
    } else {
      RunPrefix(s, steps, p + 1);
      assert steps[..p + 1][..p] == steps[..p];
    }
  }

  lemma StateStep(h: History, p: nat)
    requires Sound(h.db) && Run(Init(h.db), h.steps).Some? && p < |h.steps|
    ensures Inv(StateAt(h, p)) && Next(StateAt(h, p), h.steps[p]) == Some(StateAt(h, p + 1))
  {
    hide Next, Inv;
    RunPrefix(Init(h.db), h.steps, p + 1);
    RunPrefix(Init(h.db), h.steps, p);
    assert h.steps[..p + 1][..p] == h.steps[..p];
    InitInv(h.db);
    RunKept(Init(h.db), h.steps[..p]);
  }

  // An ended transaction takes no step and stays as it is; none disappears.
  lemma EndedStep(s: State, step: Step, t: nat)
    requires Inv(s) && Next(s, step).Some?
    ensures |s.txs| <= |Next(s, step).value.txs|
    ensures t < |s.txs| && !s.txs[t].Live() ==> step != Commit(t) && Next(s, step).value.txs[t] == s.txs[t]
  {
    hide Next, TxInv, TablesApart;
    if step.Begin? {
      BeginMoves(s, step);
    } else {
      ActorMoves(s, step);
      if t < |s.txs| && step.t == t {
        EndedIdle(s, step);
      }
    }
  }

  lemma EndedIdle(s: State, step: Step)
    requires !step.Begin? && step.t < |s.txs| && Next(s, step).Some?
    ensures s.txs[step.t].Live()
  {
  }

  lemma {:induction false} EndedStays(h: History, p: nat, q: nat, t: nat)
    requires Sound(h.db) && Run(Init(h.db), h.steps).Some? && p <= q <= |h.steps|
    ensures |StateAt(h, p).txs| <= |StateAt(h, q).txs|
    ensures t < |StateAt(h, p).txs| && !StateAt(h, p).txs[t].Live() ==> StateAt(h, q).txs[t] == StateAt(h, p).txs[t]
    decreases q - p
  {
    hide StateAt, Next, Inv;
    if p < q {
      StateStep(h, p);
      EndedStep(StateAt(h, p), h.steps[p], t);
      EndedStays(h, p + 1, q, t);
    }
  }

  lemma TxsGrow(h: History, p: nat, q: nat)
    requires Sound(h.db) && Run(Init(h.db), h.steps).Some? && p <= |h.steps| && q <= |h.steps|
    ensures p <= q ==> |StateAt(h, p).txs| <= |StateAt(h, q).txs|
  {
    if p <= q {
      EndedStays(h, p, q, 0);
    }
  }

  // ---------- how a request extends a history ----------

  function Looked(h: History, id: nat, key: string, now: int, up: bool): History {
    h.(events := h.events + [Idempotency.Look(id, key, now, up)], stamps := h.stamps + [|h.steps|])
  }

  // More statements, and what other requests do meanwhile.
  function Joined(h: History, steps: seq<Step>, events: seq<Idempotency.Event>, stamps: seq<nat>, claims: map<nat, nat>): History {
    History(h.db, steps, h.events + events, h.stamps + stamps, h.owner + claims)
  }

  // Transaction t is known to be the one of request l.
  function Claimed(h: History, t: nat, l: nat): History {
    h.(owner := h.owner[t := l])
  }

  function Finished(h: History, id: nat, reply: Idempotency.Reply, now: int, up: bool): History {
    h.(events := h.events + [Idempotency.Finish(id, now, reply, up)], stamps := h.stamps + [|h.steps|])
  }

  lemma SameStates(h: History, h': History)
    requires h.db == h'.db && h.steps == h'.steps
    ensures forall p: nat :: p <= |h.steps| ==> StateAt(h', p) == StateAt(h, p)
  {
  }

  // One more event now: requests, transactions and replies so far are as before.
  lemma OneMoreEvent(h: History, h': History, e: Idempotency.Event)
    requires Stamped(h) && h'.db == h.db && h'.steps == h.steps
    requires h'.events == h.events + [e] && h'.stamps == h.stamps + [|h.steps|]
    ensures Stamped(h')
    ensures forall t: nat, l: nat :: l < |h.events| ==> (Opened(h', t, l) <==> Opened(h, t, l))
    ensures forall i: nat, l: nat :: i < |h.events| ==> (Idempotency.Ends(h'.events, i, l) <==> Idempotency.Ends(h.events, i, l))
  {
    forall n: nat | n <= |h.events|
      ensures Idempotency.At(h'.events, n) == Idempotency.At(h.events, n)
    {
      Idempotency.AtPrefix(h.events, [e], n);
    }
  }

  // Later statements, events and claims do not unsettle a reply.
  lemma StillSettled(h: History, h': History, i: nat, l: nat)
    requires Stamped(h) && Stamped(h') && h.events <= h'.events && h.stamps <= h'.stamps && |h.steps| <= |h'.steps|
    requires forall p: nat :: p <= |h.steps| <= |h'.steps| ==> StateAt(h', p) == StateAt(h, p)
    requires forall t :: t in h.owner ==> t in h'.owner && h'.owner[t] == h.owner[t]
    requires i < |h.events| && h.events[i].Finish? && Settled(h, i, l)
    ensures Settled(h', i, l)
  {
    hide StateAt;
  }

  /** A lookup keeps the rules, whatever it finds. */
  lemma LookLawful(h: History, id: nat, key: string, now: int, up: bool)
    requires Lawful(h)
    ensures Lawful(Looked(h, id, key, now, up))
  {
    hide StateAt, Run;
    var h' := Looked(h, id, key, now, up);
    SameStates(h, h');
    OneMoreEvent(h, h', Idempotency.Look(id, key, now, up));
    forall i: nat, l: nat | i < |h'.events| && Idempotency.Ends(h'.events, i, l)
      ensures Settled(h', i, l)
    {
      assert i < |h.events| && Settled(h, i, l);
      hide Idempotency.Ends;
      StillSettled(h, h', i, l);
    }
    hide Settled, Opened, Idempotency.Ends;
  }

  // The reply of a running request is a success only if its charge has committed.
  ghost predicate MayFinish(h: History, id: nat, reply: Idempotency.Reply) {
    var running := Idempotency.At(h.events, |h.events|).running;
    id in running && Idempotency.Storable(reply) ==> Charged(h, |h.steps|, running[id].look)
  }

  lemma OwnSettled(h: History, h': History, id: nat, reply: Idempotency.Reply, now: int, up: bool, l: nat)
    requires Stamped(h) && MayFinish(h, id, reply) && Idempotency.Runs(h.events, |h.events|, id, l)
    requires h' == Finished(h, id, reply, now, up) && Stamped(h')
    ensures Settled(h', |h.events|, l)
  {
    SameStates(h, h');
    hide StateAt;
  }

  /** The end of a request keeps them, if a success is the reply to a committed charge of its own. */
  lemma FinishLawful(h: History, id: nat, reply: Idempotency.Reply, now: int, up: bool)
    requires Lawful(h) && MayFinish(h, id, reply)
    ensures Lawful(Finished(h, id, reply, now, up))
  {
    hide StateAt, Run;
    var e, h' := Idempotency.Finish(id, now, reply, up), Finished(h, id, reply, now, up);
    SameStates(h, h');
    OneMoreEvent(h, h', e);
    Idempotency.AtPrefix(h.events, [e], |h.events|);
    forall i: nat, m: nat | i < |h'.events| && Idempotency.Ends(h'.events, i, m)
      ensures Settled(h', i, m)
    {
      if i == |h.events| {
        OwnSettled(h, h', id, reply, now, up, m);
      } else {
        assert Idempotency.Ends(h.events, i, m);
        StillSettled(h, h', i, m);
      }
    }
    hide Settled, Opened, Idempotency.Ends, Idempotency.Runs;
  }

  /** So does noting which transaction a request opened, whether or not the request ever ends. */
  lemma ClaimLawful(h: History, t: nat, l: nat)
    requires Lawful(h) && t !in h.owner && l !in h.owner.Values && Opened(h, t, l)
    ensures Lawful(Claimed(h, t, l))
  {
    hide StateAt, Run;
    var h' := Claimed(h, t, l);
    SameStates(h, h');
    SameOpened(h, h');
    forall i: nat, m: nat | i < |h'.events| && Idempotency.Ends(h'.events, i, m)
      ensures Settled(h', i, m)
    {
      StillSettled(h, h', i, m);
    }
    hide Settled, Opened, Idempotency.Ends;
  }

  lemma SameOpened(h: History, h': History)
    requires Stamped(h) && h'.db == h.db && h'.steps == h.steps && h'.events == h.events && h'.stamps == h.stamps
    ensures Stamped(h') && forall t: nat, l: nat :: Opened(h', t, l) <==> Opened(h, t, l)
  {
  }

  lemma LongerStates(h: History, steps: seq<Step>)
    requires h.steps <= steps
    ensures forall p: nat :: p <= |h.steps| ==> StateAt(h.(steps := steps), p) == StateAt(h, p)
  {
    forall p: nat | p <= |h.steps|
      ensures StateAt(h.(steps := steps), p) == StateAt(h, p)
    {
      assert steps[..p] == h.steps[..p];
    }
  }

  /** Further statements of the ledger keep the rules. */
  lemma StatementsLawful(h: History, steps: seq<Step>)
    requires Lawful(h) && h.steps <= steps && Run(Init(h.db), steps).Some?
    ensures Lawful(h.(steps := steps))
  {
    hide StateAt, Run, Next, Inv;
    var h' := h.(steps := steps);
    LongerStates(h, steps);
    forall t | t in h.owner
      ensures Opened(h', t, h.owner[t])
    {
      assert Opened(h, t, h.owner[t]);
      ProgramStays(h', |h.steps|, |steps|, t);
    }
    forall i: nat, l: nat | i < |h.events| && Idempotency.Ends(h.events, i, l)
      ensures Settled(h', i, l)
    {
      StillSettled(h, h', i, l);
    }
    hide Opened, Settled, Idempotency.Ends;
  }

  // ---------- histories of requests that overlap freely ----------

  // What any request or session does next.
  datatype Act =
    | Looks(id: nat, key: string, now: int, up: bool)
    | Executes(step: Step)
    | Claims(t: nat, l: nat)
    | Finishes(id: nat, reply: Idempotency.Reply, now: int, up: bool)

  ghost predicate MayAct(h: History, act: Act)
    requires Stamped(h)
  {
    match act
    case Looks(_, _, _, _) => true
    case Executes(step) => Next(StateAt(h, |h.steps|), step).Some?
    case Claims(t, l) => t !in h.owner && l !in h.owner.Values && Opened(h, t, l)
    case Finishes(id, reply, _, _) => MayFinish(h, id, reply)
  }

  function Acted(h: History, act: Act): History {
    match act
    case Looks(id, key, now, up) => Looked(h, id, key, now, up)
    case Executes(step) => h.(steps := h.steps + [step])
    case Claims(t, l) => Claimed(h, t, l)
    case Finishes(id, reply, now, up) => Finished(h, id, reply, now, up)
  }

  lemma ExecuteLawful(h: History, step: Step)
    requires Lawful(h) && Next(StateAt(h, |h.steps|), step).Some?
    ensures Lawful(h.(steps := h.steps + [step]))
  {
    hide Next, Lawful;
    LawfulRuns(h);
    var all := h.steps + [step];
    assert all[..|h.steps|] == h.steps && h.steps[..|h.steps|] == h.steps;
    assert Run(Init(h.db), all) == Next(StateAt(h, |h.steps|), step);
    hide Run, StateAt;
    StatementsLawful(h, all);
  }

  lemma ActLawful(h: History, act: Act)
    requires Lawful(h) && Stamped(h) && MayAct(h, act)
    ensures Lawful(Acted(h, act))
  {
    hide Lawful, StateAt, Next, MayFinish, Opened;
    match act
    case Looks(id, key, now, up) => LookLawful(h, id, key, now, up);
    case Executes(step) => ExecuteLawful(h, step);
    case Claims(t, l) => ClaimLawful(h, t, l);
    case Finishes(id, reply, now, up) => FinishLawful(h, id, reply, now, up);
  }

  function Grown(h: History, acts: seq<Act>): History {
    if acts == [] then h else Acted(Grown(h, acts[..|acts| - 1]), acts[|acts| - 1])
  }

  ghost predicate Generated(h: History, acts: seq<Act>) {
    acts == []
    || (Generated(h, acts[..|acts| - 1])
        && Stamped(Grown(h, acts[..|acts| - 1])) && MayAct(Grown(h, acts[..|acts| - 1]), acts[|acts| - 1]))
  }

  /** However many requests act in whatever order, their histories are lawful. */
  lemma {:induction false} GeneratedLawful(h: History, acts: seq<Act>)
    requires Lawful(h) && Generated(h, acts)
    ensures Lawful(Grown(h, acts))
  {
    if acts != [] {
      hide Lawful, MayAct, Acted, Stamped;
      GeneratedLawful(h, acts[..|acts| - 1]);
      ActLawful(Grown(h, acts[..|acts| - 1]), acts[|acts| - 1]);
    }
  }

  lemma NothingYet(db: Db)
    requires Sound(db)
    ensures Lawful(History(db, [], [], [], map[]))
  {
  }

  // An act of others than request l, whose id and transaction these are.
  predicate Foreign(act: Act, l: nat, id: nat, tx: Option<nat>) {
    match act
    case Looks(i, _, _, _) => i != id
    case Executes(_) => true
    case Claims(t, m) => m != l && tx != Some(t)
    case Finishes(i, _, _, _) => i != id
  }

  // Request l runs and nobody has claimed it or its transaction.
  predicate Untouched(h: History, l: nat, id: nat, tx: Option<nat>) {
    && Idempotency.Runs(h.events, |h.events|, id, l) && l !in h.owner.Values
    && (tx.Some? ==> tx.value !in h.owner)
  }

  lemma ForeignAct(h: History, act: Act, l: nat, id: nat, tx: Option<nat>)
    requires Untouched(h, l, id, tx) && Foreign(act, l, id, tx)
    ensures Untouched(Acted(h, act), l, id, tx)
  {
    match act
    case Looks(i, key, now, up) => Idempotency.AtPrefix(h.events, [Idempotency.Look(i, key, now, up)], |h.events|);
    case Executes(_) =>
    case Claims(t, m) =>
      assert forall u :: u in Claimed(h, t, m).owner ==> Claimed(h, t, m).owner[u] != l;
    case Finishes(i, reply, now, up) => Idempotency.AtPrefix(h.events, [Idempotency.Finish(i, now, reply, up)], |h.events|);
  }

  /** Whatever others do, a request stays running and its transaction unclaimed. */
  lemma {:induction false} ForeignActs(h: History, acts: seq<Act>, l: nat, id: nat, tx: Option<nat>)
    requires Untouched(h, l, id, tx) && forall act :: act in acts ==> Foreign(act, l, id, tx)
    ensures Untouched(Grown(h, acts), l, id, tx)
  {
    if acts != [] {
      hide Untouched, Foreign, Acted;
      ForeignActs(h, acts[..|acts| - 1], l, id, tx);
      ForeignAct(Grown(h, acts[..|acts| - 1]), acts[|acts| - 1], l, id, tx);
    }
  }

  // ---------- debits ----------

  // Statement c commits a charge that a request with this key opened.
  predicate Debit(h: History, c: nat, key: string) {
    && c < |h.steps| && h.steps[c].Commit? && h.steps[c].t in h.owner
    && h.owner[h.steps[c].t] < |h.events| && h.events[h.owner[h.steps[c].t]].Look?
    && h.events[h.owner[h.steps[c].t]].key == key
  }

  function Request(h: History, c: nat, key: string): nat
    requires Debit(h, c, key)
  {
    h.owner[h.steps[c].t]
  }

  lemma CommitStep(s: State, t: nat)
    requires Inv(s) && Next(s, Commit(t)).Some?
    ensures t < |s.txs| == |Next(s, Commit(t)).value.txs|
    ensures s.txs[t].Live() && Next(s, Commit(t)).value.txs[t].phase.Committed?
  {
  }

  // A debit commits its transaction: it was alive before and is committed from then on.
  lemma DebitCommits(h: History, c: nat, key: string, p: nat)
    requires Lawful(h) && Debit(h, c, key) && p <= |h.steps|
    ensures p <= c && h.steps[c].t < |StateAt(h, p).txs| ==> StateAt(h, p).txs[h.steps[c].t].Live()
    ensures p > c ==> CommittedAt(h, p, h.steps[c].t)
    ensures h.steps[c].t < |StateAt(h, c).txs|
  {
    hide StateAt, Next, Inv;
    var t := h.steps[c].t;
    StateStep(h, c);
    CommitStep(StateAt(h, c), t);
    if p <= c {
      EndedStays(h, p, c, t);
    } else {
      EndedStays(h, c + 1, p, t);
    }
  }

  // It comes after the lookup and before a successful end of its request.
  lemma DebitInside(h: History, c: nat, key: string)
    requires Lawful(h) && Debit(h, c, key)
    ensures h.stamps[Request(h, c, key)] <= c
    ensures forall i: nat :: i < |h.events| && Idempotency.Ends(h.events, i, Request(h, c, key)) && Idempotency.Storable(h.events[i].outcome) ==>
              c < h.stamps[i] && Idempotency.Succeeds(h.events, i, key)
  {
    hide StateAt, Next, Inv;
    var t, l := h.steps[c].t, Request(h, c, key);
    assert Opened(h, t, l);
    DebitCommits(h, c, key, h.stamps[l]);
    TxsGrow(h, c, h.stamps[l]);
    forall i: nat | i < |h.events| && Idempotency.Ends(h.events, i, l) && Idempotency.Storable(h.events[i].outcome)
      ensures c < h.stamps[i] && Idempotency.Succeeds(h.events, i, key)
    {
      assert Settled(h, i, l);
      DebitCommits(h, c, key, h.stamps[i]);
      Idempotency.RunningLooked(h.events, i, h.events[i].id);
    }
  }

  lemma DebitsApart(h: History, c: nat, d: nat, key: string)
    requires Lawful(h) && Debit(h, c, key) && Debit(h, d, key) && c < d
    ensures h.steps[c].t != h.steps[d].t && Request(h, c, key) != Request(h, d, key)
  {
    hide StateAt;
    DebitCommits(h, c, key, d);
    DebitCommits(h, d, key, d);
  }

  // One clock: clock[c] is the time of statement c.
  predicate Clocked(h: History, clock: seq<int>) {
    && |clock| == |h.steps| && |h.stamps| == |h.events| && Idempotency.Ordered(h.events)
    && (forall c, d :: 0 <= c <= d < |clock| ==> clock[c] <= clock[d])
    && (forall i, c :: 0 <= i < |h.events| && 0 <= c < |clock| ==>
          if c < h.stamps[i] then clock[c] <= h.events[i].now else h.events[i].now <= clock[c])
  }

  // Request l has ended with a success, and that is stored, before event n.
  predicate StoredBefore(h: History, l: nat, n: nat)
    requires n <= |h.events|
  {
    exists i :: 0 <= i < n && Idempotency.Ends(h.events, i, l) && Idempotency.Storable(h.events[i].outcome) && h.events[i].up
  }

  /** Two debits of one key within a day: when the later request looked up, the earlier one's reply
      was not stored - still running, cut off, an error although the charge committed, or lost by
      Redis - or Redis did not answer. */
  lemma DoubleDebit(h: History, clock: seq<int>, c: nat, d: nat, key: string)
    requires Lawful(h) && Clocked(h, clock) && Debit(h, c, key) && Debit(h, d, key)
    requires c < d && clock[d] <= clock[c] + Idempotency.DAY
    ensures var l := Request(h, d, key); !h.events[l].up || !StoredBefore(h, Request(h, c, key), l)
  {
    hide StateAt, Lawful;
    var l := Request(h, d, key);
    DebitInside(h, c, key);
    DebitInside(h, d, key);
    MissedByOwner(h, d, key);
    Idempotency.MissesExactly(h.events, l);
    assert h.events[l].now <= clock[d];
    forall i: nat | i < l && Idempotency.Ends(h.events, i, Request(h, c, key)) && Idempotency.Storable(h.events[i].outcome) && h.events[i].up
      ensures clock[c] <= h.events[i].now
      ensures Idempotency.Fresh(h.events, i, l, key, h.events[l].now) <==> h.events[l].now <= h.events[i].now + Idempotency.DAY
    {
    }
  }

  lemma MissedByOwner(h: History, c: nat, key: string)
    requires Lawful(h) && Debit(h, c, key)
    ensures Idempotency.Misses(h.events, Request(h, c, key))
  {
    assert Opened(h, h.steps[c].t, Request(h, c, key));
  }

  // ---------- charge once ----------

  // Redis answers every lookup of the key, and by then every charge of an earlier request with the
  // key has its reply stored.
  ghost predicate Guarded(h: History, key: string)
    requires Stamped(h)
  {
    && (forall l :: 0 <= l < |h.events| && h.events[l].Look? && h.events[l].key == key ==> h.events[l].up)
    && (forall c, l: nat :: Debit(h, c, key) && Request(h, c, key) < l < |h.events| && h.events[l].Look? && h.events[l].key == key ==>
          StoredBefore(h, Request(h, c, key), l))
  }

  lemma NotStoredBefore(h: History, c: nat, d: nat, key: string)
    requires Lawful(h) && Debit(h, c, key) && Debit(h, d, key) && c < d
    ensures !StoredBefore(h, Request(h, d, key), Request(h, c, key))
  {
    hide StateAt, Lawful;
    DebitInside(h, c, key);
    DebitInside(h, d, key);
    StampsOf(h);
  }

  lemma StampsOf(h: History)
    requires Lawful(h)
    ensures Stamped(h)
  {
  }

  lemma OneDebit(h: History, clock: seq<int>, c: nat, d: nat, key: string)
    requires Lawful(h) && Clocked(h, clock) && Guarded(h, key) && Debit(h, c, key) && Debit(h, d, key) && c < d
    ensures clock[d] > clock[c] + Idempotency.DAY
  {
    hide StateAt, Lawful;
    DebitsApart(h, c, d, key);
    if Request(h, d, key) < Request(h, c, key) {
      NotStoredBefore(h, c, d, key);
    } else if clock[d] <= clock[c] + Idempotency.DAY {
      DoubleDebit(h, clock, c, d, key);
    }
  }

  function Balance(h: History, p: nat, user: Id): int
    requires p <= |h.steps|
  {
    if user in StateAt(h, p).db.users then StateAt(h, p).db.users[user] else 0
  }

  // What statement c takes from the user.
  function Taken(h: History, c: nat, user: Id): int
    requires c < |h.steps|
  {
    Balance(h, c, user) - Balance(h, c + 1, user)
  }

  // What the key has cost the user in the day from `from` on, up to statement n.
  function Cost(h: History, clock: seq<int>, key: string, user: Id, from: int, n: nat): int
    requires n <= |h.steps| == |clock|
    decreases n
  {
    if n == 0 then 0
    else
      Cost(h, clock, key, user, from, n - 1)
      + if Counts(h, clock, key, from, n - 1) then Taken(h, n - 1, user) else 0
  }

  predicate Counts(h: History, clock: seq<int>, key: string, from: int, c: nat)
    requires |h.steps| == |clock|
  {
    Debit(h, c, key) && from <= clock[c] <= from + Idempotency.DAY
  }

  lemma CommittedTakes(s: State, t: nat, user: Id)
    requires Inv(s) && Next(s, Commit(t)).Some? && t < |s.txs| && s.txs[t].program.Charge?
    ensures var before, after := s.db.users, Next(s, Commit(t)).value.db.users;
            && before.Keys == after.Keys && s.txs[t].program.amount > 0
            && (user in before ==> before[user] - after[user] == if user == s.txs[t].program.user then s.txs[t].program.amount else 0)
            && s.txs[t].program.user in before
  {
    hide Next, Inv;
    StepIsSerial(s, Commit(t));
    ChargeSummary(s.txs[t]);
  }

  lemma ChargeSummary(tx: Tx)
    requires Summary(tx).Some? && tx.program.Charge?
    ensures var txn := Summary(tx).value;
            txn.ChargeTxn? && txn.user == tx.program.user && txn.amount == tx.program.amount
  {
  }

  // Programs do not change.
  lemma ProgramStep(s: State, step: Step, t: nat)
    requires Inv(s) && Next(s, step).Some? && t < |s.txs|
    ensures t < |Next(s, step).value.txs| && Next(s, step).value.txs[t].program == s.txs[t].program
  {
    hide Next, TxInv, TablesApart;
    if step.Begin? {
      BeginMoves(s, step);
    } else {
      ActorMoves(s, step);
      hide Inv;
      ActorProgram(s, step);
    }
  }

  lemma ActorProgram(s: State, step: Step)
    requires !step.Begin? && step.t < |s.txs| && Next(s, step).Some?
    ensures step.t < |Next(s, step).value.txs| && Next(s, step).value.txs[step.t].program == s.txs[step.t].program
  {
  }

  lemma {:induction false} ProgramStays(h: History, p: nat, q: nat, t: nat)
    requires Sound(h.db) && Run(Init(h.db), h.steps).Some? && p <= q <= |h.steps| && t < |StateAt(h, p).txs|
    ensures t < |StateAt(h, q).txs| && StateAt(h, q).txs[t].program == StateAt(h, p).txs[t].program
    decreases q - p
  {
    hide StateAt, Next, Inv;
    if p < q {
      StateStep(h, p);
      ProgramStep(StateAt(h, p), h.steps[p], t);
      ProgramStays(h, p + 1, q, t);
    }
  }

  /** A debit takes exactly its charge's amount, from that charge's user and from nobody else. */
  lemma DebitTakes(h: History, c: nat, key: string, user: Id)
    requires Lawful(h) && Debit(h, c, key)
    ensures h.steps[c].t < |StateAt(h, |h.steps|).txs| && StateAt(h, |h.steps|).txs[h.steps[c].t].program.Charge?
    ensures var program := StateAt(h, |h.steps|).txs[h.steps[c].t].program;
            program.amount > 0 && Taken(h, c, user) == if user == program.user then program.amount else 0
  {
    hide StateAt, Next, Inv;
    var t := h.steps[c].t;
    assert Opened(h, t, Request(h, c, key));
    StateStep(h, c);
    DebitCommits(h, c, key, c);
    ProgramStays(h, c, |h.steps|, t);
    CommittedTakes(StateAt(h, c), t, user);
  }

  lemma {:induction false} NothingCounts(h: History, clock: seq<int>, key: string, user: Id, from: int, n: nat)
    requires n <= |h.steps| == |clock| && forall c :: 0 <= c < n ==> !Counts(h, clock, key, from, c)
    ensures Cost(h, clock, key, user, from, n) == 0
    decreases n
  {
    if n > 0 {
      NothingCounts(h, clock, key, user, from, n - 1);
    }
  }

  /** Charge once per key: in any day a guarded key costs a user nothing, or what one single committed
      charge takes. */
  lemma {:induction false} ChargedOnce(h: History, clock: seq<int>, key: string, user: Id, from: int, n: nat)
    requires Lawful(h) && Clocked(h, clock) && Guarded(h, key) && n <= |h.steps|
    ensures var cost := Cost(h, clock, key, user, from, n);
            cost == 0 || exists c :: 0 <= c < n && Counts(h, clock, key, from, c) && cost == Taken(h, c, user)
    decreases n
  {
    hide Lawful, Guarded, Taken, Debit;
    if n > 0 {
      if Counts(h, clock, key, from, n - 1) {
        forall c | 0 <= c < n - 1
          ensures !Counts(h, clock, key, from, c)
        {
          if Counts(h, clock, key, from, c) {
            OneDebit(h, clock, c, n - 1, key);
          }
        }
        NothingCounts(h, clock, key, user, from, n - 1);
      } else {
        ChargedOnce(h, clock, key, user, from, n - 1);
      }
    }
  }

  /** A debit is an entry of the commit log, that of its charge. */
  lemma DebitLogged(h: History, c: nat, key: string)
    requires Lawful(h) && Debit(h, c, key)
    ensures h.steps[c].t < |StateAt(h, |h.steps|).txs| && StateAt(h, |h.steps|).txs[h.steps[c].t].program.Charge?
    ensures var program := StateAt(h, |h.steps|).txs[h.steps[c].t].program;
            var before, after := CommitLog(Init(h.db), h.steps[..c]), CommitLog(Init(h.db), h.steps[..c + 1]);
            && |after| == |before| + 1 && after[..|before|] == before
            && after[|before|].ChargeTxn? && after[|before|].user == program.user && after[|before|].amount == program.amount
  {
    hide Next, Inv, Lawful;
    var t := h.steps[c].t;
    DebitTakes(h, c, key, 0);
    DebitCommits(h, c, key, c);
    LawfulRuns(h);
    StateStep(h, c);
    ProgramStays(h, c, |h.steps|, t);
    StepIsSerial(StateAt(h, c), h.steps[c]);
    ChargeSummary(StateAt(h, c).txs[t]);
    RunPrefix(Init(h.db), h.steps, c);
    assert h.steps[..c + 1][..c] == h.steps[..c];
  }

  lemma LawfulRuns(h: History)
    requires Lawful(h)
    ensures Sound(h.db) && Run(Init(h.db), h.steps).Some?
  {
  }

  // ---------- every way out of the guard debits twice ----------

  datatype Way = Overlapping | CutOff | LostCommit | LostStore | NoAnswer

  // A charge of 1 by the user 0, run alone as transaction t.
  function Alone(t: nat, payment: Id, event: Id): seq<Step> {
    [Begin(Charge(0, 1, "INR"), 0), SelectUser(t), DebitUser(t), InsertPayment(t, payment), InsertEvent(t, event), Commit(t)]
  }

  // The states of such a run, one after another.
  function Stage(s: State, t: nat, payment: Id, event: Id, n: nat): Option<State>
    requires n <= 6
    decreases n
  {
    if n == 0 then Some(s)
    else
      match Stage(s, t, payment, event, n - 1)
      case None => None
      case Some(mid) => Next(mid, Alone(t, payment, event)[n - 1])
  }

  lemma {:induction false} RunStages(s: State, steps: seq<Step>, mid: State, t: nat, payment: Id, event: Id, n: nat)
    requires Run(s, steps) == Some(mid) && n <= 6
    ensures Run(s, steps + Alone(t, payment, event)[..n]) == Stage(mid, t, payment, event, n)
    decreases n
  {
    hide Next;
    var all := steps + Alone(t, payment, event)[..n];
    if n == 0 {
      assert all == steps;
    } else {
      assert all[..|all| - 1] == steps + Alone(t, payment, event)[..n - 1];
      RunStages(s, steps, mid, t, payment, event, n - 1);
    }
  }

  const PROGRAM := Charge(0, 1, "INR")

  lemma StagesRead(s: State, t: nat, payment: Id, event: Id)
    requires t == |s.txs| && s.locks == map[] && 0 in s.db.users && s.db.users[0] >= 1
    ensures Stage(s, t, payment, event, 3)
         == Some(s.(txs := s.txs + [Tx(PROGRAM, 0, Debited, Db(map[0 := s.db.users[0] - 1], map[], map[]))], locks := map[UserRow(0) := t]))
  {
    var one := s.(txs := s.txs + [Tx(PROGRAM, 0, Open, NoWrites)]);
    assert Stage(s, t, payment, event, 0) == Some(s);
    assert Stage(s, t, payment, event, 1) == Some(one);
    var two := Lock(Move(one, t, UserRead(s.db.users[0])), UserRow(0), t);
    assert Stage(s, t, payment, event, 2) == Some(two);
    assert two.txs == s.txs + [Tx(PROGRAM, 0, UserRead(s.db.users[0]), NoWrites)];
    var after := Tx(PROGRAM, 0, Debited, Db(map[0 := s.db.users[0] - 1], map[], map[]));
    assert NoWrites.users[0 := s.db.users[0] - 1] == map[0 := s.db.users[0] - 1];
    assert Next(two, DebitUser(t)) == Some(Put(two, t, after));
    assert two.txs[t := after] == s.txs + [after];
  }

  lemma StageNext(s: State, t: nat, payment: Id, event: Id, n: nat, mid: State)
    requires n < 6 && Stage(s, t, payment, event, n) == Some(mid)
    ensures Stage(s, t, payment, event, n + 1) == Next(mid, Alone(t, payment, event)[n])
  {
  }

  lemma StagesWritten(s: State, t: nat, payment: Id, event: Id, mid: State)
    requires t < |mid.txs| && mid.txs[t].program == PROGRAM && mid.txs[t].phase.Debited?
    requires payment !in mid.issued && event !in mid.issued && payment != event
    requires Stage(s, t, payment, event, 3) == Some(mid)
    ensures Stage(s, t, payment, event, 6).Some?
    ensures var end := Stage(s, t, payment, event, 6).value;
            && end.db.users == mid.db.users + mid.txs[t].writes.users
            && end.locks == Release(mid.locks, t) && end.issued.Keys == mid.issued.Keys + {payment, event}
            && |end.txs| == |mid.txs| && end.txs == mid.txs[t := end.txs[t]] && end.txs[t].phase.Committed? && end.txs[t].program == PROGRAM
  {
    hide Stage;
    StageNext(s, t, payment, event, 3, mid);
    var four := InsertsPayment(mid, t, payment);
    StageNext(s, t, payment, event, 4, four);
    var five := InsertsEvent(four, t, event);
    StageNext(s, t, payment, event, 5, five);
    Commits(five, t);
    hide Next;
  }

  lemma InsertsPayment(s: State, t: nat, payment: Id) returns (next: State)
    requires t < |s.txs| && s.txs[t].program == PROGRAM && s.txs[t].phase.Debited? && payment !in s.issued
    ensures Next(s, InsertPayment(t, payment)) == Some(next)
    ensures next.db == s.db && next.locks == s.locks && next.issued.Keys == s.issued.Keys + {payment}
    ensures |next.txs| == |s.txs| && next.txs == s.txs[t := next.txs[t]] && next.txs[t].phase == PaymentInserted(payment)
    ensures next.txs[t].program == PROGRAM && next.txs[t].writes.users == s.txs[t].writes.users
  {
    next := DoInsertPayment(s, t, payment).value;
  }

  lemma InsertsEvent(s: State, t: nat, event: Id) returns (next: State)
    requires t < |s.txs| && s.txs[t].program == PROGRAM && s.txs[t].phase.PaymentInserted? && event !in s.issued
    ensures Next(s, InsertEvent(t, event)) == Some(next)
    ensures next.db == s.db && next.locks == s.locks && next.issued.Keys == s.issued.Keys + {event}
    ensures |next.txs| == |s.txs| && next.txs == s.txs[t := next.txs[t]] && next.txs[t].phase.EventStaged?
    ensures next.txs[t].program == PROGRAM && next.txs[t].writes.users == s.txs[t].writes.users
  {
    next := DoInsertEvent(s, t, event).value;
  }

  lemma Commits(s: State, t: nat)
    requires t < |s.txs| && s.txs[t].phase.EventStaged?
    ensures Next(s, Commit(t)).Some?
    ensures var next := Next(s, Commit(t)).value;
            && next.db.users == s.db.users + s.txs[t].writes.users && next.locks == Release(s.locks, t) && next.issued == s.issued
            && |next.txs| == |s.txs| && next.txs == s.txs[t := next.txs[t]] && next.txs[t].phase.Committed?
            && next.txs[t].program == s.txs[t].program
  {
  }

  // The whole charge from a state without locks.
  lemma AloneCharges(s: State, steps: seq<Step>, mid: State, payment: Id, event: Id)
    requires Run(s, steps) == Some(mid) && mid.locks == map[] && 0 in mid.db.users && mid.db.users[0] >= 1
    requires payment !in mid.issued && event !in mid.issued && payment != event
    ensures Run(s, steps + Alone(|mid.txs|, payment, event)).Some?
    ensures var end := Run(s, steps + Alone(|mid.txs|, payment, event)).value;
            && end.locks == map[] && end.db.users == mid.db.users[0 := mid.db.users[0] - 1]
            && end.issued.Keys == mid.issued.Keys + {payment, event}
            && |end.txs| == |mid.txs| + 1 && end.txs[..|mid.txs|] == mid.txs
            && end.txs[|mid.txs|].phase.Committed? && end.txs[|mid.txs|].program == PROGRAM
  {
    hide Next, Run;
    var t := |mid.txs|;
    var all := Alone(t, payment, event);
    assert all[..6] == all;
    RunStages(s, steps, mid, t, payment, event, 6);
    StagesRead(mid, t, payment, event);
    hide Stage;
    StagesWritten(mid, t, payment, event, Stage(mid, t, payment, event, 3).value);
  }

  // A user with a balance of 2 and two charges of 1, one after the other.
  const RICH := Db(map[0 := 2], map[], map[])

  const TWICE := Alone(0, 1, 2) + Alone(1, 3, 4)

  lemma TwoCharges()
    ensures Sound(RICH) && Run(Init(RICH), TWICE).Some?
    ensures var before, mid, end := Run(Init(RICH), []), Run(Init(RICH), Alone(0, 1, 2)), Run(Init(RICH), TWICE);
            && before == Some(Init(RICH)) && mid.Some? && end.Some?
            && |mid.value.txs| == 1 && mid.value.txs[0].phase.Committed? && mid.value.txs[0].program == PROGRAM
            && |end.value.txs| == 2 && end.value.txs[0] == mid.value.txs[0]
            && end.value.txs[1].phase.Committed? && end.value.txs[1].program == PROGRAM
            && end.value.db.users == map[0 := 0]
  {
    hide Next;
    var s := Init(RICH);
    assert s.db == RICH && s.txs == [] && s.locks == map[] && s.issued.Keys == {};
    assert Run(s, []) == Some(s);
    hide Run, Init;
    AloneCharges(s, [], s, 1, 2);
    assert [] + Alone(0, 1, 2) == Alone(0, 1, 2);
    var mid := Run(s, Alone(0, 1, 2)).value;
    AloneCharges(s, Alone(0, 1, 2), mid, 3, 4);
    var end := Run(s, TWICE).value;
    assert end.txs[0] == end.txs[..1][0];
  }

  // Both requests look up and reply at time 0.
  function Story(way: Way, key: string, ok: Idempotency.Reply): History {
    var look1, look2 := Idempotency.Look(1, key, 0, true), Idempotency.Look(2, key, 0, way != NoAnswer);
    var finish1 := Idempotency.Finish(1, 0, if way == LostCommit then Idempotency.Reply(422, "") else ok, way != LostStore);
    var finish2 := Idempotency.Finish(2, 0, ok, true);
    match way
    case Overlapping => History(RICH, TWICE, [look1, look2, finish1, finish2], [0, 0, 12, 12], map[0 := 0, 1 := 1])
    case CutOff => History(RICH, TWICE, [look1, look2, finish2], [0, 6, 12], map[0 := 0, 1 := 1])
    case _ => History(RICH, TWICE, [look1, finish1, look2, finish2], [0, 6, 6, 12], map[0 := 0, 1 := 2])
  }

  lemma StoryStates(way: Way, key: string, ok: Idempotency.Reply)
    ensures var h := Story(way, key, ok);
            && Sound(h.db) && Run(Init(h.db), h.steps).Some? && |h.steps| == 12
            && StateAt(h, 0).txs == []
            && |StateAt(h, 6).txs| == 1 && CommittedAt(h, 6, 0) && StateAt(h, 6).txs[0].program == PROGRAM
            && |StateAt(h, 12).txs| == 2 && CommittedAt(h, 12, 0) && CommittedAt(h, 12, 1)
            && StateAt(h, 12).txs[0].program == PROGRAM && StateAt(h, 12).txs[1].program == PROGRAM
            && Balance(h, 0, 0) == 2 && Balance(h, 12, 0) == 0
  {
    hide Next;
    TwoCharges();
    assert TWICE[..0] == [] && TWICE[..6] == Alone(0, 1, 2) && TWICE[..12] == TWICE;
    assert Init(RICH).db == RICH && Init(RICH).txs == [];
    hide Run, Init;
  }

  lemma StoryEvents(way: Way, key: string, ok: Idempotency.Reply)
    requires Idempotency.Storable(ok)
    ensures var h := Story(way, key, ok);
            && Idempotency.Misses(h.events, h.owner[0]) && Idempotency.Misses(h.events, h.owner[1])
            && (forall i: nat, l: nat :: i < |h.events| && Idempotency.Ends(h.events, i, l) ==>
                  (l == h.owner[0] && h.stamps[i] >= 6) || (l == h.owner[1] && h.stamps[i] == 12))
  {
    var e := Story(way, key, ok).events;
    assert Idempotency.At(e, 0) == Idempotency.World(map[], map[]);
    assert Idempotency.At(e, 1) == Idempotency.Applied(Idempotency.At(e, 0), e[0], 0);
    assert Idempotency.At(e, 2) == Idempotency.Applied(Idempotency.At(e, 1), e[1], 1);
    if way != CutOff {
      assert Idempotency.At(e, 3) == Idempotency.Applied(Idempotency.At(e, 2), e[2], 2);
    }
  }

  lemma StoryOpened(way: Way, key: string, ok: Idempotency.Reply)
    requires Idempotency.Storable(ok)
    ensures var h := Story(way, key, ok); Stamped(h) && Opened(h, 0, h.owner[0]) && Opened(h, 1, h.owner[1])
  {
    StoryStates(way, key, ok);
    StoryEvents(way, key, ok);
    hide StateAt, Idempotency.Misses, Idempotency.Ends, Run, TWICE, Idempotency.At;
  }

  lemma SettledBy(h: History, i: nat, l: nat, t: nat)
    requires Stamped(h) && i < |h.events| && h.events[i].Finish?
    requires t in h.owner && h.owner[t] == l && CommittedAt(h, h.stamps[i], t)
    ensures Settled(h, i, l)
  {
    hide StateAt;
  }

  lemma StorySettled(way: Way, key: string, ok: Idempotency.Reply, i: nat, l: nat)
    requires Idempotency.Storable(ok)
    requires i < |Story(way, key, ok).events| && Idempotency.Ends(Story(way, key, ok).events, i, l)
    ensures Stamped(Story(way, key, ok)) && Settled(Story(way, key, ok), i, l)
  {
    var h := Story(way, key, ok);
    StoryStates(way, key, ok);
    StoryEvents(way, key, ok);
    StoryOpened(way, key, ok);
    assert h.events[i].Finish?;
    hide StateAt, Run, TWICE, Idempotency.At, Idempotency.Ends, Idempotency.Storable, Idempotency.Misses, CommittedAt, Settled, Opened, Stamped;
    assert h.stamps[i] == 6 || h.stamps[i] == 12;
    SettledBy(h, i, l, if l == h.owner[0] then 0 else 1);
  }

  lemma StoryLawful(way: Way, key: string, ok: Idempotency.Reply)
    requires Idempotency.Storable(ok)
    ensures Lawful(Story(way, key, ok))
  {
    var h := Story(way, key, ok);
    StoryStates(way, key, ok);
    StoryOpened(way, key, ok);
    forall i: nat, l: nat | i < |h.events| && Idempotency.Ends(h.events, i, l)
      ensures Settled(h, i, l)
    {
      StorySettled(way, key, ok, i, l);
    }
    hide StateAt, Opened, Settled, Idempotency.Ends, Run, TWICE, Stamped;
  }

  lemma StoryClocked(way: Way, key: string, ok: Idempotency.Reply)
    ensures Clocked(Story(way, key, ok), seq(12, i => 0)) && |Story(way, key, ok).steps| == 12
    ensures Debit(Story(way, key, ok), 5, key) && Debit(Story(way, key, ok), 11, key)
  {
    assert TWICE[5] == Commit(0) && TWICE[11] == Commit(1);
  }

  /** Each of the five ways happens: a lawful history in which one key debits a user twice at once. */
  lemma EachWayDoubles(way: Way, key: string, ok: Idempotency.Reply)
    requires Idempotency.Storable(ok)
    ensures var h := Story(way, key, ok);
            && Lawful(h) && Clocked(h, seq(12, i => 0)) && |h.steps| == 12 && Debit(h, 5, key) && Debit(h, 11, key)
            && Balance(h, 0, 0) - Balance(h, 12, 0) == 2
    ensures var h := Story(way, key, ok);
            var first, second := h.owner[0], h.owner[1];
            match way
            case Overlapping => exists i :: second < i < |h.events| && Idempotency.Ends(h.events, i, first)
            case CutOff => forall i :: 0 <= i < |h.events| ==> !Idempotency.Ends(h.events, i, first)
            case LostCommit =>
              exists i :: 0 <= i < second && Idempotency.Ends(h.events, i, first) && !Idempotency.Storable(h.events[i].outcome)
            case LostStore => exists i :: 0 <= i < second && Idempotency.Ends(h.events, i, first) && !h.events[i].up
            case NoAnswer => StoredBefore(h, first, second) && !h.events[second].up
  {
    StoryStates(way, key, ok);
    StoryLawful(way, key, ok);
    StoryWays(way, key, ok);
    StoryClocked(way, key, ok);
    hide *;
  }

  lemma StoryWays(way: Way, key: string, ok: Idempotency.Reply)
    requires Idempotency.Storable(ok)
    ensures var h := Story(way, key, ok);
            var first, second := h.owner[0], h.owner[1];
            match way
            case Overlapping => exists i :: second < i < |h.events| && Idempotency.Ends(h.events, i, first)
            case CutOff => forall i :: 0 <= i < |h.events| ==> !Idempotency.Ends(h.events, i, first)
            case LostCommit =>
              exists i :: 0 <= i < second && Idempotency.Ends(h.events, i, first) && !Idempotency.Storable(h.events[i].outcome)
            case LostStore => exists i :: 0 <= i < second && Idempotency.Ends(h.events, i, first) && !h.events[i].up
            case NoAnswer => StoredBefore(h, first, second) && !h.events[second].up
  {
    var h := Story(way, key, ok);
    var e := h.events;
    assert Idempotency.At(e, 0) == Idempotency.World(map[], map[]);
    assert Idempotency.At(e, 1) == Idempotency.Applied(Idempotency.At(e, 0), e[0], 0);
    assert Idempotency.At(e, 2) == Idempotency.Applied(Idempotency.At(e, 1), e[1], 1);
    match way
    case Overlapping => assert h.owner[0] == 0 && h.owner[1] == 1 && Idempotency.Ends(e, 2, 0);
    case CutOff => assert !Idempotency.Ends(e, 0, 0) && !Idempotency.Ends(e, 1, 0) && !Idempotency.Ends(e, 2, 0);
    case LostCommit => assert Idempotency.Ends(e, 1, 0);
    case LostStore => assert Idempotency.Ends(e, 1, 0);
    case NoAnswer => assert Idempotency.Ends(e, 1, 0);
  }
}
