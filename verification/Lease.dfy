/** The Redis lease around a user's charge: SET NX with a time to live, and a delete that first
    compares the token.  Time is Redis's clock in milliseconds. */
module Lease {
  import opened Wrappers

  // The 5 s of the charge handler.
  const TTL := 5000

  datatype Lease = Lease(token: string, deadline: int)

  type Store = map<string, Lease>

  predicate Live(store: Store, key: string, now: int) {
    key in store && now <= store[key].deadline
  }

  function SetNx(store: Store, key: string, token: string, ttl: int, now: int): (Store, bool) {
    if Live(store, key, now) then (store, false) else (store[key := Lease(token, now + ttl)], true)
  }

  // The release script.
  function DeleteIfEqual(store: Store, key: string, token: string, now: int): Store {
    if Live(store, key, now) && store[key].token == token then store - {key} else store
  }

  // A command is answered, or fails before or after it took effect.
  datatype Link = Answered | LostBefore | LostAfter

  // ---------- the lock object ----------

  datatype LockError = LockHeld | LockUnreachable

  datatype Op = Acquiring(key: string, token: string, now: int, link: Link) | Releasing(key: string, token: string, now: int, link: Link)

  function Performed(store: Store, op: Op): Store {
    if op.link.LostBefore? then store
    else
      match op
      case Acquiring(key, token, now, _) => SetNx(store, key, token, TTL, now).0
      case Releasing(key, token, now, _) => DeleteIfEqual(store, key, token, now)
  }

  function PerformedAll(store: Store, ops: seq<Op>): Store {
    if ops == [] then store else Performed(PerformedAll(store, ops[..|ops| - 1]), ops[|ops| - 1])
  }

  class DistributedLock {
    var store: Store

    constructor ()
      ensures store == map[]
    {
      store := map[];
    }

    method AcquireLock(key: string, token: string, ttl: int, now: int, link: Link) returns (r: Result<string, LockError>)
      modifies this
      ensures link.LostBefore? ==> store == old(store)
      ensures !link.LostBefore? ==> store == SetNx(old(store), key, token, ttl, now).0
      ensures r == if !link.Answered? then Err(LockUnreachable)
                   else if Live(old(store), key, now) then Err(LockHeld) else Ok(token)
    {
      if link.LostBefore? {
        return Err(LockUnreachable);
      }
      var succeeded := key !in store || now > store[key].deadline;
      if succeeded {
        store := store[key := Lease(token, now + ttl)];
      }
      if link.LostAfter? {
        return Err(LockUnreachable);
      }
      if !succeeded {
        return Err(LockHeld);
      }
      return Ok(token);
    }

    method ReleaseLock(key: string, token: string, now: int, link: Link) returns (ok: bool)
      modifies this
      ensures ok == link.Answered?
      ensures store == if link.LostBefore? then old(store) else DeleteIfEqual(old(store), key, token, now)
    {
      if !link.LostBefore? && key in store && now <= store[key].deadline && store[key].token == token {
        store := store - {key};
      }
      ok := link.Answered?;
    }

    // Commands of other handlers.
    method Others(ops: seq<Op>)
      modifies this
      ensures store == PerformedAll(old(store), ops)
    {
      store := PerformedAll(store, ops);
    }
  }

  // ---------- handlers ----------

  // A handler between its acquire and its release.
  datatype Hold = Hold(key: string, token: string, since: int)

  // `clock` is the latest time.
  datatype World = World(store: Store, inside: map<nat, Hold>, clock: int)

  const EMPTY := World(map[], map[], 0)

  datatype Move =
    | Acquire(h: nat, key: string, token: string, now: int, link: Link)
    | Release(h: nat, now: int, link: Link)

  function Moved(w: World, m: Move): World {
    match m
    case Acquire(h, key, token, now, link) =>
      if link.LostBefore? then w.(clock := now)
      else
        var (store, ok) := SetNx(w.store, key, token, TTL, now);
        World(store, if ok && link.Answered? then w.inside[h := Hold(key, token, now)] else w.inside, now)
    case Release(h, now, link) =>
      if h !in w.inside then w.(clock := now)
      else
        var store := if link.LostBefore? then w.store else DeleteIfEqual(w.store, w.inside[h].key, w.inside[h].token, now);
        World(store, w.inside - {h}, now)
  }

  function Run(moves: seq<Move>): World {
    if moves == [] then EMPTY else Moved(Run(moves[..|moves| - 1]), moves[|moves| - 1])
  }

  // Time goes on, and a handler inside does not acquire.
  predicate Timely(w: World, m: Move) {
    w.clock <= m.now && (m.Acquire? ==> m.h !in w.inside)
  }

  // The acquire sets a lease.
  predicate Sets(w: World, m: Move) {
    m.Acquire? && !m.link.LostBefore? && !Live(w.store, m.key, m.now)
  }

  // A token that is set differs from those of the handlers still inside on that key.
  predicate Allowed(w: World, m: Move) {
    Timely(w, m) && (Sets(w, m) ==> forall h :: h in w.inside && w.inside[h].key == m.key ==> w.inside[h].token != m.token)
  }

  predicate Lawful(moves: seq<Move>) {
    moves == [] || (Lawful(moves[..|moves| - 1]) && Allowed(Run(moves[..|moves| - 1]), moves[|moves| - 1]))
  }

  // The handler's lease is the one stored, or has expired.
  ghost predicate OwnsOrExpired(w: World, h: nat)
    requires h in w.inside
  {
    var hold := w.inside[h];
    (hold.key in w.store && w.store[hold.key] == Lease(hold.token, hold.since + TTL)) || w.clock > hold.since + TTL
  }

  ghost predicate Apart(a: Hold, b: Hold) {
    a.key == b.key ==> a.token != b.token && (a.since + TTL < b.since || b.since + TTL < a.since)
  }

  ghost predicate Inv(w: World) {
    && (forall h :: h in w.inside ==> w.inside[h].since <= w.clock)
    && (forall h :: h in w.inside ==> OwnsOrExpired(w, h))
    && (forall h :: h in w.inside && w.inside[h].key in w.store && w.store[w.inside[h].key].token == w.inside[h].token ==>
          w.store[w.inside[h].key].deadline == w.inside[h].since + TTL)
    && (forall a, b :: a in w.inside && b in w.inside && a != b ==> Apart(w.inside[a], w.inside[b]))
  }

  lemma AcquireKeeps(w: World, m: Move)
    requires Inv(w) && Allowed(w, m) && m.Acquire?
    ensures Inv(Moved(w, m))
  {
  }

  lemma ReleaseKeeps(w: World, m: Move)
    requires Inv(w) && Allowed(w, m) && m.Release?
    ensures Inv(Moved(w, m))
  {
  }

  lemma {:induction false} RunKeeps(moves: seq<Move>)
    requires Lawful(moves)
    ensures Inv(Run(moves))
  {
    if moves != [] {
      var front, m := moves[..|moves| - 1], moves[|moves| - 1];
      RunKeeps(front);
      hide Inv;
      if m.Acquire? {
        AcquireKeeps(Run(front), m);
      } else {
        ReleaseKeeps(Run(front), m);
      }
    }
  }

  /** A release never removes another handler's lease: what it deletes is the lease its own acquire
      set, and it leaves every other key alone. */
  lemma {:induction false} ReleasesOnlyItsOwn(moves: seq<Move>, m: Move, key: string)
    requires Lawful(moves) && m.Release? && m.h in Run(moves).inside
    requires key in Run(moves).store && key !in Moved(Run(moves), m).store
    ensures var hold := Run(moves).inside[m.h];
            key == hold.key && Run(moves).store[key] == Lease(hold.token, hold.since + TTL)
  {
    RunKeeps(moves);
  }

  /** Two handlers are inside for one key text together only if the earlier one's lease had run out
      before the later one's began. */
  lemma TogetherOnlyExpired(moves: seq<Move>, a: nat, b: nat)
    requires Lawful(moves) && a in Run(moves).inside && b in Run(moves).inside && a != b
    requires Run(moves).inside[a].key == Run(moves).inside[b].key
    requires Run(moves).inside[a].since <= Run(moves).inside[b].since
    ensures Run(moves).inside[a].since + TTL < Run(moves).inside[b].since
  {
    RunKeeps(moves);
  }

  // While its lease lasts, a handler inside is the one whose lease is stored.
  lemma LeaseStands(moves: seq<Move>, h: nat, now: int)
    requires Lawful(moves) && h in Run(moves).inside && Run(moves).clock <= now <= Run(moves).inside[h].since + TTL
    ensures var hold := Run(moves).inside[h];
            forall token :: !SetNx(Run(moves).store, hold.key, token, TTL, now).1
  {
    RunKeeps(moves);
  }

  // ---------- one user, several texts ----------

  /** While a handler's lease lasts, an acquire under any other free key text succeeds, and under its
      own none does. */
  lemma ExcludesItsTextOnly(moves: seq<Move>, h: nat, key: string, token: string, now: int)
    requires Lawful(moves) && h in Run(moves).inside && Run(moves).clock <= now <= Run(moves).inside[h].since + TTL
    requires key != Run(moves).inside[h].key ==> !Live(Run(moves).store, key, now)
    ensures SetNx(Run(moves).store, key, token, TTL, now).1 <==> key != Run(moves).inside[h].key
  {
    LeaseStands(moves, h, now);
  }

  // Two handlers inside for one row of the users table, the earlier one's lease still standing when
  // the later one's began.
  ghost predicate Together(moves: seq<Move>, row: string -> nat, user: nat) {
    exists a, b ::
      && a in Run(moves).inside && b in Run(moves).inside && a != b
      && row(Run(moves).inside[a].key) == user == row(Run(moves).inside[b].key)
      && Run(moves).inside[a].since <= Run(moves).inside[b].since <= Run(moves).inside[a].since + TTL
  }

  // Two handlers that acquire under two texts at one moment.
  function TwoTexts(one: string, two: string): seq<Move> {
    [Acquire(1, one, "", 0, Answered), Acquire(2, two, "", 0, Answered)]
  }

  lemma TwoTextsMeet(one: string, two: string, row: string -> nat)
    requires one != two && row(one) == row(two)
    ensures Lawful(TwoTexts(one, two)) && Together(TwoTexts(one, two), row, row(one))
  {
    var moves := TwoTexts(one, two);
    var first := moves[..1];
    assert first == [Acquire(1, one, "", 0, Answered)] && first[..0] == [];
    assert Lawful([]) && Run([]) == EMPTY;
    assert Run(first) == Moved(EMPTY, moves[0]) && Lawful(first);
    assert Run(moves) == Moved(Run(first), moves[1]);
    var w := Run(moves);
    assert w.inside == map[1 := Hold(one, "", 0), 2 := Hold(two, "", 0)];
    assert 1 in w.inside && 2 in w.inside;
  }

  /** The lease keeps a user's charges apart if and only if the user has one text: two spellings of
      one id do not exclude each other. */
  lemma UserExcluded(row: string -> nat, user: nat)
    ensures (forall moves :: Lawful(moves) ==> !Together(moves, row, user))
       <==> forall one, two :: row(one) == user && row(two) == user ==> one == two
  {
    if one, two :| row(one) == user && row(two) == user && one != two {
      TwoTextsMeet(one, two, row);
      assert Lawful(TwoTexts(one, two)) && Together(TwoTexts(one, two), row, user);
    } else {
      forall moves | Lawful(moves)
        ensures !Together(moves, row, user)
      {
        forall a, b | a in Run(moves).inside && b in Run(moves).inside && a != b
                      && row(Run(moves).inside[a].key) == user == row(Run(moves).inside[b].key)
                      && Run(moves).inside[a].since <= Run(moves).inside[b].since
          ensures Run(moves).inside[b].since > Run(moves).inside[a].since + TTL
        {
          TogetherOnlyExpired(moves, a, b);
        }
      }
    }
  }

  // ---------- what equal tokens do ----------

  // Any tokens.
  predicate TimelyRun(moves: seq<Move>) {
    moves == [] || (TimelyRun(moves[..|moves| - 1]) && Timely(Run(moves[..|moves| - 1]), moves[|moves| - 1]))
  }

  // The handler is inside and its lease is the one stored.
  predicate Stands(w: World, b: nat, hold: Hold) {
    b in w.inside && w.inside[b] == hold && hold.key in w.store && w.store[hold.key] == Lease(hold.token, hold.since + TTL)
  }

  // Another handler inside on the key releases with the same token.
  predicate Steals(w: World, m: Move, b: nat, hold: Hold) {
    && m.Release? && !m.link.LostBefore? && m.h != b && m.h in w.inside
    && w.inside[m.h].key == hold.key && w.inside[m.h].token == hold.token
  }

  lemma StandsStep(w: World, m: Move, b: nat, hold: Hold)
    requires Timely(w, m) && Stands(w, b, hold) && m.now <= hold.since + TTL && !(m.Release? && m.h == b)
    ensures Stands(Moved(w, m), b, hold) <==> !Steals(w, m, b, hold)
  {
  }

  lemma RunStep(moves: seq<Move>, n: nat)
    requires n < |moves|
    ensures Run(moves[..n + 1]) == Moved(Run(moves[..n]), moves[n])
  {
    assert moves[..n + 1][..n] == moves[..n];
  }

  lemma {:induction false} ClockGrows(moves: seq<Move>, n: nat)
    requires TimelyRun(moves) && n < |moves|
    ensures Timely(Run(moves[..n]), moves[n]) && moves[n].now <= Run(moves).clock
  {
    var last := |moves| - 1;
    var front := moves[..last];
    if n < last {
      ClockGrows(front, n);
      assert front[..n] == moves[..n];
    }
  }

  predicate StandsThrough(moves: seq<Move>, p: nat, n: nat, b: nat, hold: Hold)
    requires n <= |moves|
  {
    forall k :: p <= k <= n ==> Stands(Run(moves[..k]), b, hold)
  }

  predicate Unstolen(moves: seq<Move>, p: nat, n: nat, b: nat, hold: Hold)
    requires n <= |moves|
  {
    forall i :: p <= i < n ==> !Steals(Run(moves[..i]), moves[i], b, hold)
  }

  lemma {:induction false} StandsUpTo(moves: seq<Move>, p: nat, n: nat, b: nat, hold: Hold)
    requires TimelyRun(moves) && p <= n <= |moves| && Stands(Run(moves[..p]), b, hold)
    requires Run(moves).clock <= hold.since + TTL
    requires forall i :: p <= i < |moves| ==> !(moves[i].Release? && moves[i].h == b)
    ensures StandsThrough(moves, p, n, b, hold) <==> Unstolen(moves, p, n, b, hold)
    decreases n
  {
    hide Run, Stands, Steals, Moved, Timely;
    if p < n {
      StandsUpTo(moves, p, n - 1, b, hold);
      RunStep(moves, n - 1);
      ClockGrows(moves, n - 1);
      if Stands(Run(moves[..n - 1]), b, hold) {
        StandsStep(Run(moves[..n - 1]), moves[n - 1], b, hold);
      }
    }
  }

  /** Whatever the tokens: through a run that ends within its time to live, and in which its handler
      does not release, a lease stands throughout if and only if no other handler inside on that key
      releases with the same token. */
  lemma StandsExactly(moves: seq<Move>, p: nat, b: nat, hold: Hold)
    requires TimelyRun(moves) && p <= |moves| && Stands(Run(moves[..p]), b, hold)
    requires Run(moves).clock <= hold.since + TTL
    requires forall i :: p <= i < |moves| ==> !(moves[i].Release? && moves[i].h == b)
    ensures StandsThrough(moves, p, |moves|, b, hold) <==> Unstolen(moves, p, |moves|, b, hold)
  {
    hide StandsThrough, Unstolen;
    StandsUpTo(moves, p, |moves|, b, hold);
  }

  /** Distinct tokens are needed: with one token for two acquires the first handler's late release
      removes the second's lease, and a third gets in while that lease should stand. */
  lemma SharedTokenBreaks(key: string, token: string, third: string)
    requires token != third
    ensures var moves := [Acquire(1, key, token, 0, Answered), Acquire(2, key, token, TTL + 1, Answered),
                          Release(1, TTL + 2, Answered), Acquire(3, key, third, TTL + 3, Answered)];
            var w := Run(moves);
            && 2 in w.inside && 3 in w.inside && w.inside[2].key == w.inside[3].key == key
            && w.inside[2].since <= w.inside[3].since <= w.inside[2].since + TTL
  {
    var moves := [Acquire(1, key, token, 0, Answered), Acquire(2, key, token, TTL + 1, Answered),
                  Release(1, TTL + 2, Answered), Acquire(3, key, third, TTL + 3, Answered)];
    assert moves[..3][..2] == moves[..2] && moves[..2][..1] == moves[..1] && moves[..1][..0] == [];
    assert Run(moves[..1]) == Moved(EMPTY, moves[0]);
    assert Run(moves[..2]) == Moved(Run(moves[..1]), moves[1]);
    assert Run(moves[..3]) == Moved(Run(moves[..2]), moves[2]);
    assert Run(moves) == Moved(Run(moves[..3]), moves[3]);
  }

  // ---------- the numbers ----------

  /** A lease of the charge handler refuses others for 5000 ms and no longer. */
  lemma FiveSeconds(store: Store, key: string, token: string, other: string, since: int, now: int)
    requires !Live(store, key, since) && since <= now
    ensures var held := SetNx(store, key, token, TTL, since).0;
            SetNx(held, key, other, TTL, now).1 <==> now > since + 5000
  {
  }
}
