/** The per-IP token bucket with its background cleaner.  Time is in nanoseconds and levels are
    counted in nanoseconds of refill: 5 tokens a second, at most 10 of them. */
module IpLimiter {
  import opened Wrappers

  const SECOND := 1_000_000_000
  const TOKEN := SECOND / 5
  const FULL := 10 * TOKEN
  const IDLE := 180 * SECOND

  // ---------- the bucket of golang.org/x/time/rate ----------

  datatype Bucket = Bucket(level: int, last: int)

  function LevelAt(b: Bucket, t: int): int {
    var level := if t > b.last then b.level + (t - b.last) else b.level;
    if level > FULL then FULL else level
  }

  // Allow(): take one token if there is one; a refusal changes nothing.
  function Take(b: Bucket, t: int): (Bucket, bool) {
    var level := LevelAt(b, t);
    if level >= TOKEN then (Bucket(level - TOKEN, t), true) else (b, false)
  }

  // ---------- the table of clients ----------

  datatype Client = Client(bucket: Bucket, lastSeen: int)

  type Table = map<string, Client>

  // One request: `seen` is the clock stored in lastSeen, `at` the later clock the limiter reads.
  // A round of the cleaner is a series of visits, one to each client, with its own clock reading.
  datatype Event = Request(ip: string, seen: int, at: int) | Visit(ip: string, now: int)

  function Entry(table: Table, ip: string, seen: int): Client {
    if ip in table then table[ip].(lastSeen := seen) else Client(Bucket(FULL, seen), seen)
  }

  function Serve(table: Table, ip: string, seen: int, at: int): (Table, bool) {
    var entry := Entry(table, ip, seen);
    var (bucket, allowed) := Take(entry.bucket, at);
    (table[ip := entry.(bucket := bucket)], allowed)
  }

  function Visited(table: Table, ip: string, now: int): Table {
    if ip in table && now - table[ip].lastSeen > IDLE then table - {ip} else table
  }

  function VisitedAll(table: Table, ips: seq<string>, readings: seq<int>): Table
    requires |ips| == |readings|
  {
    if ips == [] then table
    else
      var n := |ips| - 1;
      Visited(VisitedAll(table, ips[..n], readings[..n]), ips[n], readings[n])
  }

  datatype Decision = BadRequest | TooManyRequests | Passed

  class RateLimiter {
    var clients: Table

    constructor ()
      ensures clients == map[]
    {
      clients := map[];
    }

    // The middleware; None stands for a remote address that does not parse.
    method Limit(ip: Option<string>, seen: int, at: int) returns (d: Decision)
      modifies this
      ensures ip.None? ==> d == BadRequest && clients == old(clients)
      ensures ip.Some? ==> clients == Serve(old(clients), ip.value, seen, at).0
      ensures ip.Some? ==> d == if Serve(old(clients), ip.value, seen, at).1 then Passed else TooManyRequests
    {
      if ip.None? {
        return BadRequest;
      }
      var key := ip.value;
      if key !in clients {
        clients := clients[key := Client(Bucket(FULL, seen), seen)];
      }
      clients := clients[key := clients[key].(lastSeen := seen)];
      var (bucket, allowed) := Take(clients[key].bucket, at);
      clients := clients[key := clients[key].(bucket := bucket)];
      d := if allowed then Passed else TooManyRequests;
    }

    // One round of the cleaner: `ips` are the map's keys in iteration order, the clock is read at each.
    method Clean(ips: seq<string>, readings: seq<int>)
      requires |ips| == |readings| && Enumerates(ips, clients)
      modifies this
      ensures forall ip :: ip in clients ==> ip in old(clients) && clients[ip] == old(clients)[ip]
      ensures forall i :: 0 <= i < |ips| ==> (ips[i] in clients <==> readings[i] - old(clients)[ips[i]].lastSeen <= IDLE)
      ensures clients == VisitedAll(old(clients), ips, readings)
    {
      for i := 0 to |ips|
        invariant clients == VisitedAll(old(clients), ips[..i], readings[..i])
      {
        assert ips[..i + 1][..i] == ips[..i] && readings[..i + 1][..i] == readings[..i];
        if ips[i] in clients && readings[i] - clients[ips[i]].lastSeen > IDLE {
          clients := clients - {ips[i]};
        }
      }
      assert ips[..|ips|] == ips && readings[..|ips|] == readings;
      RoundRemoves(old(clients), ips, readings);
    }
  }

  // Every client exactly once.
  ghost predicate Enumerates(ips: seq<string>, table: Table) {
    && (forall i, j :: 0 <= i < j < |ips| ==> ips[i] != ips[j])
    && (forall ip :: ip in table <==> ip in ips)
  }

  // Exactly the clients idle at their own reading go; the others keep their entries.
  lemma {:induction false} RoundRemoves(table: Table, ips: seq<string>, readings: seq<int>)
    requires |ips| == |readings| && forall i, j :: 0 <= i < j < |ips| ==> ips[i] != ips[j]
    ensures forall ip :: ip in VisitedAll(table, ips, readings) ==> ip in table && VisitedAll(table, ips, readings)[ip] == table[ip]
    ensures forall i :: 0 <= i < |ips| && ips[i] in table ==>
              (ips[i] in VisitedAll(table, ips, readings) <==> readings[i] - table[ips[i]].lastSeen <= IDLE)
    ensures forall ip :: ip in table && ip !in ips ==> ip in VisitedAll(table, ips, readings)
  {
    if ips != [] {
      var n := |ips| - 1;
      RoundRemoves(table, ips[..n], readings[..n]);
      assert ips[n] !in ips[..n];
    }
  }

  /** The order of a round does not matter: two enumerations that read the clock alike at each
      client leave the same table. */
  lemma OrderIrrelevant(table: Table, ips: seq<string>, readings: seq<int>, ips': seq<string>, readings': seq<int>)
    requires |ips| == |readings| && |ips'| == |readings'| && Enumerates(ips, table) && Enumerates(ips', table)
    requires forall i, j :: 0 <= i < |ips| && 0 <= j < |ips'| && ips[i] == ips'[j] ==> readings[i] == readings'[j]
    ensures VisitedAll(table, ips, readings) == VisitedAll(table, ips', readings')
  {
    var one, two := VisitedAll(table, ips, readings), VisitedAll(table, ips', readings');
    RoundRemoves(table, ips, readings);
    RoundRemoves(table, ips', readings');
    hide VisitedAll;
    forall ip | ip in table
      ensures ip in one <==> ip in two
    {
      var i :| 0 <= i < |ips| && ips[i] == ip;
      var j :| 0 <= j < |ips'| && ips'[j] == ip;
    }
    assert one.Keys == two.Keys;
  }

  // ---------- runs ----------

  datatype Outcome = Outcome(table: Table, decisions: seq<bool>)

  function After(o: Outcome, e: Event): Outcome {
    match e
    case Request(ip, seen, at) =>
      var (table, allowed) := Serve(o.table, ip, seen, at);
      Outcome(table, o.decisions + [allowed])
    case Visit(ip, now) => o.(table := Visited(o.table, ip, now))
  }

  function Run(events: seq<Event>): Outcome {
    if events == [] then Outcome(map[], []) else After(Run(events[..|events| - 1]), events[|events| - 1])
  }

  // The same requests with no cleaner.
  function Requests(events: seq<Event>): seq<Event> {
    if events == [] then []
    else
      var front, last := Requests(events[..|events| - 1]), events[|events| - 1];
      if last.Request? then front + [last] else front
  }

  // A round as events of a run.
  function Round(ips: seq<string>, readings: seq<int>): seq<Event>
    requires |ips| == |readings|
  {
    seq(|ips|, i requires 0 <= i < |ips| => Visit(ips[i], readings[i]))
  }

  lemma {:induction false} RoundInRun(events: seq<Event>, ips: seq<string>, readings: seq<int>)
    requires |ips| == |readings|
    ensures Run(events + Round(ips, readings)).table == VisitedAll(Run(events).table, ips, readings)
    ensures Run(events + Round(ips, readings)).decisions == Run(events).decisions
  {
    var n, all := |ips| - 1, events + Round(ips, readings);
    if ips == [] {
      assert all == events;
    } else {
      assert all[..|all| - 1] == events + Round(ips[..n], readings[..n]);
      RoundInRun(events, ips[..n], readings[..n]);
    }
  }

  // The longest time between the two clock readings of one request for which eviction cannot show.
  const MAX_LAG := IDLE - TOKEN + 1

  // A monotone clock, read up to `now`; the two readings of a request are at most `lag` apart.
  predicate Ordered(events: seq<Event>, now: int, lag: int) {
    if events == [] then true
    else
      var front := events[..|events| - 1];
      match events[|events| - 1]
      case Request(_, seen, at) => seen <= at <= now && at - seen <= lag && Ordered(front, seen, lag)
      case Visit(_, t) => t <= now && Ordered(front, t, lag)
  }

  // ---------- eviction is unobservable ----------

  // By the time the cleaner may take the client, its bucket has refilled.
  predicate Healthy(c: Client, now: int) {
    0 <= c.bucket.level <= FULL && c.bucket.last <= now && c.bucket.last + (FULL - c.bucket.level) <= c.lastSeen + IDLE + 1
  }

  // The table with evictions against the one without: common buckets agree, missing ones are full.
  ghost predicate Similar(evicting: Table, keeping: Table, now: int) {
    && (forall ip :: ip in keeping ==> Healthy(keeping[ip], now))
    && (forall ip :: ip in evicting ==> ip in keeping && evicting[ip] == keeping[ip])
    && (forall ip :: ip in keeping && ip !in evicting ==> LevelAt(keeping[ip].bucket, now) == FULL)
  }

  lemma SimilarLater(evicting: Table, keeping: Table, now: int, later: int)
    requires Similar(evicting, keeping, now) && now <= later
    ensures Similar(evicting, keeping, later)
  {
  }

  // A bucket idle for more than three minutes is full again.
  lemma IdleIsFull(c: Client, now: int)
    requires Healthy(c, now) && now - c.lastSeen > IDLE
    ensures LevelAt(c.bucket, now) == FULL
  {
  }

  lemma VisitSimilar(evicting: Table, keeping: Table, ip: string, now: int)
    requires Similar(evicting, keeping, now)
    ensures Similar(Visited(evicting, ip, now), keeping, now)
  {
    if ip in evicting && now - evicting[ip].lastSeen > IDLE {
      IdleIsFull(keeping[ip], now);
    }
  }

  lemma ServeSimilar(evicting: Table, keeping: Table, ip: string, seen: int, at: int)
    requires Similar(evicting, keeping, seen) && seen <= at <= seen + MAX_LAG
    ensures Similar(Serve(evicting, ip, seen, at).0, Serve(keeping, ip, seen, at).0, at)
    ensures Serve(evicting, ip, seen, at).1 == Serve(keeping, ip, seen, at).1
  {
    SimilarLater(evicting, keeping, seen, at);
  }

  lemma {:induction false} RunsSimilar(events: seq<Event>, now: int)
    requires Ordered(events, now, MAX_LAG)
    ensures Similar(Run(events).table, Run(Requests(events)).table, now)
    ensures Run(events).decisions == Run(Requests(events)).decisions
  {
    if events != [] {
      var front, last := events[..|events| - 1], events[|events| - 1];
      match last
      case Request(ip, seen, at) =>
        RunsSimilar(front, seen);
        ServeSimilar(Run(front).table, Run(Requests(front)).table, ip, seen, at);
        SimilarLater(Run(events).table, Serve(Run(Requests(front)).table, ip, seen, at).0, at, now);
        assert (Requests(front) + [last])[..|Requests(front)|] == Requests(front);
      case Visit(ip, t) =>
        RunsSimilar(front, t);
        VisitSimilar(Run(front).table, Run(Requests(front)).table, ip, t);
        SimilarLater(Run(events).table, Run(Requests(front)).table, t, now);
    }
  }

  /** Eviction transparency: wherever the cleaner runs, every request gets the answer it would get
      from a table that never forgets anyone. */
  lemma EvictionUnobservable(events: seq<Event>, now: int)
    requires Ordered(events, now, MAX_LAG)
    ensures Run(events).decisions == Run(Requests(events)).decisions
  {
    RunsSimilar(events, now);
  }

  // ---------- the bound on the lag is sharp ----------

  function Repeat(e: Event, n: nat): seq<Event> {
    if n == 0 then [] else Repeat(e, n - 1) + [e]
  }

  function Yes(n: nat): seq<bool> {
    if n == 0 then [] else Yes(n - 1) + [true]
  }

  function Available(table: Table, ip: string, now: int): int {
    if ip in table then LevelAt(table[ip].bucket, now) else FULL
  }

  function Again(o: Outcome, e: Event, n: nat): Outcome
    decreases n
  {
    if n == 0 then o else After(Again(o, e, n - 1), e)
  }

  lemma {:induction false} RunRepeat(events: seq<Event>, e: Event, n: nat)
    ensures Run(events + Repeat(e, n)) == Again(Run(events), e, n)
  {
    hide After;
    var all := events + Repeat(e, n);
    if n == 0 {
      assert all == events;
    } else {
      assert all[..|all| - 1] == events + Repeat(e, n - 1);
      RunRepeat(events, e, n - 1);
    }
  }

  // n requests of one client at one moment, when its bucket holds them all.
  lemma {:induction false} Burst(o: Outcome, ip: string, seen: int, at: int, n: nat)
    requires n * TOKEN <= Available(o.table, ip, at) && n > 0
    ensures Again(o, Request(ip, seen, at), n).decisions == o.decisions + Yes(n)
    ensures ip in Again(o, Request(ip, seen, at), n).table
    ensures Again(o, Request(ip, seen, at), n).table[ip]
         == Client(Bucket(Available(o.table, ip, at) - n * TOKEN, at), seen)
  {
    var e := Request(ip, seen, at);
    if n == 1 {
      assert Again(o, e, 0) == o;
      assert Yes(1) == Yes(0) + [true];
    } else {
      Burst(o, ip, seen, at, n - 1);
      var before := Again(o, e, n - 1);
      assert Available(before.table, ip, at) == Available(o.table, ip, at) - (n - 1) * TOKEN;
      assert o.decisions + Yes(n - 1) + [true] == o.decisions + Yes(n);
    }
  }

  // One request that waits long between its clock readings, a visit of the cleaner, ten requests.
  function Late(ip: string): seq<Event> {
    [Request(ip, 0, MAX_LAG + 1), Visit(ip, IDLE + 1)] + Repeat(Request(ip, IDLE + 1, IDLE + 1), 10)
  }

  function Kept(ip: string): seq<Event> {
    [Request(ip, 0, MAX_LAG + 1)] + Repeat(Request(ip, IDLE + 1, IDLE + 1), 10)
  }

  lemma FirstRequest(ip: string)
    ensures Run([Request(ip, 0, MAX_LAG + 1)]).decisions == [true]
    ensures Run([Request(ip, 0, MAX_LAG + 1)]).table == map[ip := Client(Bucket(FULL - TOKEN, MAX_LAG + 1), 0)]
  {
    var one := [Request(ip, 0, MAX_LAG + 1)];
    assert one[..0] == [];
  }

  lemma FirstVisit(ip: string)
    ensures Run([Request(ip, 0, MAX_LAG + 1), Visit(ip, IDLE + 1)]) == Outcome(map[], [true])
  {
    var two := [Request(ip, 0, MAX_LAG + 1), Visit(ip, IDLE + 1)];
    assert two[..1] == [Request(ip, 0, MAX_LAG + 1)];
    FirstRequest(ip);
  }

  lemma LateEvicting(ip: string)
    ensures Run(Late(ip)).decisions == [true] + Yes(10)
  {
    hide Run, Again, Repeat;
    FirstVisit(ip);
    var two := [Request(ip, 0, MAX_LAG + 1), Visit(ip, IDLE + 1)];
    RunRepeat(two, Request(ip, IDLE + 1, IDLE + 1), 10);
    Burst(Run(two), ip, IDLE + 1, IDLE + 1, 10);
  }

  lemma LateKeeping(ip: string)
    ensures Run(Kept(ip)).decisions == [true] + Yes(9) + [false]
  {
    hide Run, Repeat;
    FirstRequest(ip);
    var one, e := [Request(ip, 0, MAX_LAG + 1)], Request(ip, IDLE + 1, IDLE + 1);
    RunRepeat(one, e, 10);
    Burst(Run(one), ip, IDLE + 1, IDLE + 1, 9);
    var o := Again(Run(one), e, 9);
    assert Again(Run(one), e, 10) == After(o, e);
    assert !Serve(o.table, ip, IDLE + 1, IDLE + 1).1;
  }

  lemma LateWithout(ip: string)
    ensures Requests(Late(ip)) == Kept(ip)
  {
    hide Repeat;
    var two := [Request(ip, 0, MAX_LAG + 1), Visit(ip, IDLE + 1)];
    var one := two[..1];
    assert one == [Request(ip, 0, MAX_LAG + 1)] && one[..0] == [];
    assert Requests(one) == Requests([]) + one;
    assert Requests(two) == one;
    RequestsOfRepeat(two, Request(ip, IDLE + 1, IDLE + 1), 10);
  }

  lemma {:induction false} OrderedRepeat(events: seq<Event>, ip: string, at: int, n: nat, lag: int)
    requires Ordered(events, at, lag) && lag >= 0
    ensures Ordered(events + Repeat(Request(ip, at, at), n), at, lag)
  {
    var all := events + Repeat(Request(ip, at, at), n);
    if n == 0 {
      assert all == events;
    } else {
      assert all[..|all| - 1] == events + Repeat(Request(ip, at, at), n - 1);
      OrderedRepeat(events, ip, at, n - 1, lag);
    }
  }

  lemma LateOrdered(ip: string, lag: int)
    requires lag > MAX_LAG
    ensures Ordered(Late(ip), IDLE + 1, lag)
  {
    hide Repeat;
    var two := [Request(ip, 0, MAX_LAG + 1), Visit(ip, IDLE + 1)];
    assert two[..1] == [Request(ip, 0, MAX_LAG + 1)] && two[..1][..0] == [];
    OrderedRepeat(two, ip, IDLE + 1, 10, lag);
  }

  // Eviction cannot be noticed in any run of this lag.
  ghost predicate Transparent(lag: int) {
    forall events, now :: Ordered(events, now, lag) ==> Run(events).decisions == Run(Requests(events)).decisions
  }

  lemma {:induction false} OrderedWider(events: seq<Event>, now: int, lag: int, wider: int)
    requires Ordered(events, now, lag) && lag <= wider
    ensures Ordered(events, now, wider)
  {
    if events != [] {
      var front := events[..|events| - 1];
      match events[|events| - 1]
      case Request(_, seen, _) => OrderedWider(front, seen, lag, wider);
      case Visit(_, t) => OrderedWider(front, t, lag, wider);
    }
  }

  /** The cleaner is transparent exactly up to this lag; one nanosecond more and it hands out an
      extra token. */
  lemma LagMatters(lag: int)
    ensures Transparent(lag) <==> lag <= MAX_LAG
  {
    hide Run, Requests, Ordered, Late, Kept;
    if lag <= MAX_LAG {
      forall events, now | Ordered(events, now, lag)
        ensures Run(events).decisions == Run(Requests(events)).decisions
      {
        OrderedWider(events, now, lag, MAX_LAG);
        EvictionUnobservable(events, now);
      }
    } else {
      var ip := "";
      LateOrdered(ip, lag);
      LateEvicting(ip);
      LateKeeping(ip);
      LateWithout(ip);
      assert Ordered(Late(ip), IDLE + 1, lag);
      assert Run(Late(ip)).decisions[10] != Run(Kept(ip)).decisions[10] by {
        YesLength(10);
        YesLength(9);
      }
    }
  }

  lemma {:induction false} YesLength(n: nat)
    ensures |Yes(n)| == n && forall i :: 0 <= i < n ==> Yes(n)[i]
  {
    if n > 0 {
      YesLength(n - 1);
    }
  }

  lemma {:induction false} RequestsOfRepeat(events: seq<Event>, e: Event, n: nat)
    requires e.Request?
    ensures Requests(events + Repeat(e, n)) == Requests(events) + Repeat(e, n)
  {
    var all := events + Repeat(e, n);
    if n == 0 {
      assert all == events;
    } else {
      assert all[..|all| - 1] == events + Repeat(e, n - 1);
      RequestsOfRepeat(events, e, n - 1);
    }
  }

  // ---------- the rate ----------

  // Requests of one client admitted at times in [s, t].
  function Admitted(events: seq<Event>, ip: string, s: int, t: int): nat {
    if events == [] then 0
    else
      var front, last := events[..|events| - 1], events[|events| - 1];
      Admitted(front, ip, s, t)
      + if last.Request? && last.ip == ip && s <= last.at <= t && Serve(Run(front).table, ip, last.seen, last.at).1 then 1 else 0
  }

  lemma AvailableGrows(table: Table, ip: string, now: int, later: int)
    requires ip in table ==> Healthy(table[ip], now)
    requires now <= later
    ensures 0 <= Available(table, ip, now) <= Available(table, ip, later) <= Available(table, ip, now) + (later - now)
    ensures Available(table, ip, later) <= FULL
  {
  }

  lemma VisitedAvailable(table: Table, ip: string, x: string, now: int, later: int)
    requires ip in table ==> Healthy(table[ip], now)
    requires now <= later
    ensures Available(Visited(table, x, now), ip, later) == Available(table, ip, later)
  {
    if x == ip && ip in table && now - table[ip].lastSeen > IDLE {
      IdleIsFull(table[ip], now);
    }
  }

  lemma ServedAvailable(table: Table, ip: string, e: Event, later: int)
    requires e.Request? && e.seen <= e.at <= later
    requires ip in table ==> Healthy(table[ip], e.seen)
    ensures Available(Serve(table, e.ip, e.seen, e.at).0, ip, later) <= Available(table, ip, later)
    ensures e.ip == ip && e.at == later && Serve(table, ip, e.seen, e.at).1
            ==> Available(Serve(table, ip, e.seen, e.at).0, ip, later) == Available(table, ip, later) - TOKEN
  {
  }

  lemma {:induction false} AllHealthy(events: seq<Event>, now: int)
    requires Ordered(events, now, MAX_LAG)
    ensures forall x :: x in Run(events).table ==> Healthy(Run(events).table[x], now)
  {
    if events != [] {
      var front, last := events[..|events| - 1], events[|events| - 1];
      match last
      case Request(_, seen, _) => AllHealthy(front, seen);
      case Visit(_, at) => AllHealthy(front, at);
    }
  }

  function Later(a: int, b: int): int {
    if a < b then b else a
  }

  // What the requests admitted since s cost, with what is left, never exceeds the burst and refill.
  ghost predicate Solvent(events: seq<Event>, ip: string, s: int, t: int, now: int) {
    TOKEN * Admitted(events, ip, s, t) + Available(Run(events).table, ip, Later(now, s)) <= FULL + Later(now, s) - s
  }

  lemma RequestSolvent(events: seq<Event>, last: Event, ip: string, s: int, t: int, now: int)
    requires last.Request? && last.seen <= last.at <= now
    requires ip in Run(events).table ==> Healthy(Run(events).table[ip], last.seen)
    requires Solvent(events, ip, s, t, last.seen)
    requires ip in Run(events + [last]).table ==> Healthy(Run(events + [last]).table[ip], last.at)
    ensures Solvent(events + [last], ip, s, t, now)
  {
    hide Available, Serve;
    var table, all := Run(events).table, events + [last];
    assert all[..|all| - 1] == events;
    assert Run(all).table == Serve(table, last.ip, last.seen, last.at).0;
    var at := Later(last.at, s);
    AvailableGrows(table, ip, Later(last.seen, s), at);
    ServedAvailable(table, ip, last, at);
    hide Run;
    AvailableGrows(Run(all).table, ip, at, Later(now, s));
  }

  lemma VisitSolvent(events: seq<Event>, x: string, at: int, ip: string, s: int, t: int, now: int)
    requires at <= now && Solvent(events, ip, s, t, at)
    requires ip in Run(events).table ==> Healthy(Run(events).table[ip], at)
    ensures Solvent(events + [Visit(x, at)], ip, s, t, now)
  {
    hide Available, Visited;
    var table, all := Run(events).table, events + [Visit(x, at)];
    assert all[..|all| - 1] == events;
    assert Run(all).table == Visited(table, x, at);
    VisitedAvailable(table, ip, x, at, Later(now, s));
    hide Run;
    AvailableGrows(table, ip, Later(at, s), Later(now, s));
  }

  lemma {:induction false} StaysSolvent(events: seq<Event>, ip: string, s: int, t: int, now: int)
    requires Ordered(events, now, MAX_LAG)
    ensures Solvent(events, ip, s, t, now)
  {
    if events != [] {
      hide Solvent;
      var front, last := events[..|events| - 1], events[|events| - 1];
      assert events == front + [last];
      match last
      case Request(_, seen, at) =>
        AllHealthy(front, seen);
        AllHealthy(events, at);
        StaysSolvent(front, ip, s, t, seen);
        RequestSolvent(front, last, ip, s, t, now);
      case Visit(x, at) =>
        AllHealthy(front, at);
        StaysSolvent(front, ip, s, t, at);
        VisitSolvent(front, x, at, ip, s, t, now);
    }
  }

  lemma Paid(events: seq<Event>, ip: string, s: int, t: int, now: int)
    requires Ordered(events, now, MAX_LAG)
    ensures TOKEN * Admitted(events, ip, s, t) <= FULL + (Later(now, s) - s)
  {
    StaysSolvent(events, ip, s, t, now);
    AllHealthy(events, now);
    AvailableGrows(Run(events).table, ip, now, Later(now, s));
  }

  // No request counted up to t comes later than t.
  lemma {:induction false} AdmittedUpTo(events: seq<Event>, ip: string, s: int, t: int, now: int)
    requires Ordered(events, now, MAX_LAG) && s <= t
    ensures TOKEN * Admitted(events, ip, s, t) <= FULL + (t - s)
  {
    if now <= t {
      Paid(events, ip, s, t, now);
    } else if events != [] {
      var front, last := events[..|events| - 1], events[|events| - 1];
      match last
      case Request(_, seen, at) =>
        if at <= t {
          Paid(events, ip, s, t, at);
        } else {
          AdmittedUpTo(front, ip, s, t, seen);
        }
      case Visit(_, x) => AdmittedUpTo(front, ip, s, t, x);
    }
  }

  /** Rate bound: with evictions anywhere, one client gets at most 10 + 5 * (t - s) requests
      through in any interval [s, t]. */
  lemma RateBound(events: seq<Event>, ip: string, s: int, t: int, now: int)
    requires Ordered(events, now, MAX_LAG) && s <= t
    ensures Admitted(events, ip, s, t) * SECOND <= 10 * SECOND + 5 * (t - s)
  {
    AdmittedUpTo(events, ip, s, t, now);
  }

  lemma {:induction false} BurstAdmitted(events: seq<Event>, ip: string, at: int, n: nat, s: int)
    requires n * TOKEN <= Available(Run(events).table, ip, at) && s <= at
    ensures Admitted(events + Repeat(Request(ip, at, at), n), ip, s, at) == Admitted(events, ip, s, at) + n
  {
    hide Run, Available, Admitted, Serve, Again;
    var e := Request(ip, at, at);
    if n == 0 {
      assert events + Repeat(e, 0) == events;
    } else {
      var front := events + Repeat(e, n - 1);
      assert events + Repeat(e, n) == front + [e];
      BurstAdmitted(events, ip, at, n - 1, s);
      RunRepeat(events, e, n - 1);
      StillAvailable(Run(events), ip, at, n);
      AdmittedAdd(front, e, ip, s, at);
      hide Repeat;
    }
  }

  lemma AdmittedAdd(events: seq<Event>, e: Event, ip: string, s: int, t: int)
    ensures Admitted(events + [e], ip, s, t) == Admitted(events, ip, s, t)
              + if e.Request? && e.ip == ip && s <= e.at <= t && Serve(Run(events).table, ip, e.seen, e.at).1 then 1 else 0
  {
    assert (events + [e])[..|events|] == events;
  }

  lemma StillAvailable(o: Outcome, ip: string, at: int, n: nat)
    requires n > 0 && n * TOKEN <= Available(o.table, ip, at)
    ensures Serve(Again(o, Request(ip, at, at), n - 1).table, ip, at, at).1
  {
    if n > 1 {
      Burst(o, ip, at, at, n - 1);
    }
  }

  lemma LateAdmitted(ip: string)
    ensures Admitted(Late(ip), ip, MAX_LAG + 1, IDLE + 1) == 11
  {
    var e, v := Request(ip, 0, MAX_LAG + 1), Visit(ip, IDLE + 1);
    assert Run([]) == Outcome(map[], []);
    assert [] + [e] == [e] && [e] + [v] == [e, v];
    AdmittedAdd([], e, ip, MAX_LAG + 1, IDLE + 1);
    AdmittedAdd([e], v, ip, MAX_LAG + 1, IDLE + 1);
    FirstVisit(ip);
    assert Admitted([], ip, MAX_LAG + 1, IDLE + 1) == 0;
    hide Run, Admitted;
    BurstAdmitted([e, v], ip, IDLE + 1, 10, MAX_LAG + 1);
  }

  // The bound of five requests a second and ten in a burst holds in every run of this lag.
  ghost predicate Bounded(lag: int) {
    forall events, ip, s, t, now :: Ordered(events, now, lag) && s <= t ==> Admitted(events, ip, s, t) * SECOND <= 10 * SECOND + 5 * (t - s)
  }

  /** The rate bound survives eviction exactly up to the same lag. */
  lemma RateLag(lag: int)
    ensures Bounded(lag) <==> lag <= MAX_LAG
  {
    hide Run, Ordered, Late, Admitted;
    if lag <= MAX_LAG {
      forall events, ip, s, t, now | Ordered(events, now, lag) && s <= t
        ensures Admitted(events, ip, s, t) * SECOND <= 10 * SECOND + 5 * (t - s)
      {
        OrderedWider(events, now, lag, MAX_LAG);
        RateBound(events, ip, s, t, now);
      }
    } else {
      LateOrdered("", lag);
      LateAdmitted("");
      assert Ordered(Late(""), IDLE + 1, lag);
      assert Admitted(Late(""), "", MAX_LAG + 1, IDLE + 1) == 11;
    }
  }

  // ---------- the numbers ----------

  /** A visit removes a client exactly if it was last seen more than 180 s before. */
  lemma ThreeMinutes(table: Table, ip: string, now: int)
    requires ip in table
    ensures ip in Visited(table, ip, now) <==> now - table[ip].lastSeen <= 180_000_000_000
  {
  }

  /** A new client gets ten requests through at once and no eleventh. */
  lemma TenAtOnce(ip: string, at: int)
    ensures Run(Repeat(Request(ip, at, at), 11)).decisions == Yes(10) + [false]
  {
    hide Run, Again, Repeat;
    var e := Request(ip, at, at);
    assert Run([]) == Outcome(map[], []) by { NothingServed(); }
    RunRepeat([], e, 11);
    assert [] + Repeat(e, 11) == Repeat(e, 11);
    Burst(Run([]), ip, at, at, 10);
    var o := Again(Run([]), e, 10);
    AgainOnce(Run([]), e, 10);
    assert [] + Yes(10) == Yes(10);
    assert !Serve(o.table, ip, at, at).1;
  }

  lemma NothingServed()
    ensures Run([]) == Outcome(map[], [])
  {
  }

  lemma AgainOnce(o: Outcome, e: Event, n: nat)
    ensures Again(o, e, n + 1) == After(Again(o, e, n), e)
  {
  }
}
