/** The response cache in front of the charge route: a reply is stored under the request's key and
    served again for a day.  Looking up and storing are separate steps, and requests interleave. */
module Idempotency {
  import opened Wrappers

  // ---------- responses and the recorder ----------

  // What a handler does with its ResponseWriter.
  datatype Action = Header(code: int) | Body(text: string)

  datatype Reply = Reply(status: int, body: string)

  // What the client gets; status 0 as long as no header went out.
  function Sent(actions: seq<Action>): Reply {
    if actions == [] then Reply(0, "")
    else
      var front := Sent(actions[..|actions| - 1]);
      match actions[|actions| - 1]
      case Header(code) => if front.status == 0 then front.(status := code) else front
      case Body(text) => Reply(if front.status == 0 then 200 else front.status, front.body + text)
  }

  // What the recorder keeps.
  function Kept(actions: seq<Action>): Reply {
    if actions == [] then Reply(0, "")
    else
      var front := Kept(actions[..|actions| - 1]);
      match actions[|actions| - 1]
      case Header(code) => front.(status := code)
      case Body(text) => front.(body := front.body + text)
  }

  // The header goes out once, before the body.
  predicate HeaderFirst(actions: seq<Action>) {
    actions != [] && actions[0].Header? && actions[0].code != 0 && forall i :: 0 < i < |actions| ==> actions[i].Body?
  }

  /** The recorder keeps the body the client gets, and for a handler that sends its header first
      also the status. */
  lemma {:induction false} RecorderFaithful(actions: seq<Action>)
    ensures Kept(actions).body == Sent(actions).body
    ensures HeaderFirst(actions) ==> Kept(actions).status == Sent(actions).status == actions[0].code
  {
    if actions != [] {
      RecorderFaithful(actions[..|actions| - 1]);
    }
  }

  /** A handler that only writes a body answers 200, yet the recorder keeps 0: it is never stored. */
  lemma {:induction false} ImplicitHeaderUnkept(actions: seq<Action>)
    requires forall i :: 0 <= i < |actions| ==> actions[i].Body?
    ensures Kept(actions).status == 0
    ensures actions != [] ==> Sent(actions).status == 200
  {
    if actions != [] {
      ImplicitHeaderUnkept(actions[..|actions| - 1]);
    }
  }

  // The code of the last header, or `code` if there is none.
  function LastCode(actions: seq<Action>, code: int): int {
    if actions == [] then code
    else LastCode(actions[1..], if actions[0].Header? then actions[0].code else code)
  }

  lemma {:induction false} LastCodeAdd(actions: seq<Action>, a: Action, code: int)
    ensures LastCode(actions + [a], code) == if a.Header? then a.code else LastCode(actions, code)
    decreases |actions|
  {
    if actions != [] {
      assert (actions + [a])[1..] == actions[1..] + [a];
      LastCodeAdd(actions[1..], a, if actions[0].Header? then actions[0].code else code);
    }
  }

  lemma {:induction false} Statuses(actions: seq<Action>)
    requires actions != [] && forall i :: 0 <= i < |actions| && actions[i].Header? ==> actions[i].code != 0
    ensures Sent(actions).status == if actions[0].Header? then actions[0].code else 200
    ensures Kept(actions).status == LastCode(actions, 0)
  {
    var n := |actions| - 1;
    assert actions == actions[..n] + [actions[n]];
    LastCodeAdd(actions[..n], actions[n], 0);
    if n > 0 {
      Statuses(actions[..n]);
    } else {
      assert actions[..n] == [];
    }
  }

  /** The recorder's status is the client's exactly if the last header repeats the first action's
      status; it is stored exactly if that last header is a success, whatever the client saw. */
  lemma StatusExactly(actions: seq<Action>)
    requires actions != [] && forall i :: 0 <= i < |actions| && actions[i].Header? ==> actions[i].code != 0
    ensures Kept(actions).status == Sent(actions).status
       <==> LastCode(actions, 0) == if actions[0].Header? then actions[0].code else 200
    ensures Storable(Kept(actions)) <==> LastCode(actions, 0) == 200 || LastCode(actions, 0) == 201
  {
    Statuses(actions);
  }

  class ResponseWriter {
    var status: int
    var body: string

    constructor ()
      ensures Value() == Sent([])
    {
      status, body := 0, "";
    }

    function Value(): Reply
      reads this
    {
      Reply(status, body)
    }

    method WriteHeader(code: int)
      modifies this
      ensures Value() == Reply(if old(status) == 0 then code else old(status), old(body))
    {
      if status == 0 {
        status := code;
      }
    }

    method Write(text: string)
      modifies this
      ensures Value() == Reply(if old(status) == 0 then 200 else old(status), old(body) + text)
    {
      if status == 0 {
        status := 200;
      }
      body := body + text;
    }

    // A handler's whole use of the writer.
    method Perform(actions: seq<Action>)
      requires Value() == Reply(0, "")
      modifies this
      ensures Value() == Sent(actions)
    {
      for i := 0 to |actions|
        invariant Value() == Sent(actions[..i])
      {
        assert actions[..i + 1][..i] == actions[..i];
        match actions[i]
        case Header(code) => WriteHeader(code);
        case Body(text) => Write(text);
      }
      assert actions[..|actions|] == actions;
    }
  }

  class ResponseRecorder {
    const inner: ResponseWriter
    var statusCode: int
    var body: string

    constructor (w: ResponseWriter)
      ensures inner == w && statusCode == 0 && body == ""
    {
      inner := w;
      statusCode, body := 0, "";
    }

    method WriteHeader(code: int)
      modifies this, inner
      ensures statusCode == code && body == old(body)
      ensures inner.Value() == Reply(if old(inner.status) == 0 then code else old(inner.status), old(inner.body))
    {
      statusCode := code;
      inner.WriteHeader(code);
    }

    method Write(text: string)
      modifies this, inner
      ensures statusCode == old(statusCode) && body == old(body) + text
      ensures inner.Value() == Reply(if old(inner.status) == 0 then 200 else old(inner.status), old(inner.body) + text)
    {
      body := body + text;
      inner.Write(text);
    }

    // A handler's whole use of the recorder.
    method Perform(actions: seq<Action>)
      requires statusCode == 0 && body == "" && inner.Value() == Reply(0, "")
      modifies this, inner
      ensures Reply(statusCode, body) == Kept(actions) && inner.Value() == Sent(actions)
    {
      for i := 0 to |actions|
        invariant Reply(statusCode, body) == Kept(actions[..i]) && inner.Value() == Sent(actions[..i])
      {
        assert actions[..i + 1][..i] == actions[..i];
        match actions[i]
        case Header(code) => WriteHeader(code);
        case Body(text) => Write(text);
      }
      assert actions[..|actions|] == actions;
    }
  }

  // ---------- the cache ----------

  const DAY := 24 * 60 * 60 * 1000

  datatype Cached = Cached(body: string, deadline: int)

  type Cache = map<string, Cached>

  function Lookup(cache: Cache, key: string, now: int): Option<string> {
    if key in cache && now <= cache[key].deadline then Some(cache[key].body) else None
  }

  predicate Storable(r: Reply) {
    r.status == 200 || r.status == 201
  }

  function Stored(cache: Cache, key: string, r: Reply, now: int, up: bool): Cache {
    if Storable(r) && up then cache[key := Cached(r.body, now + DAY)] else cache
  }

  class ResponseCache {
    var entries: Cache

    constructor ()
      ensures entries == map[]
    {
      entries := map[];
    }

    // Other requests store their replies.
    method Others(next: Cache)
      modifies this
      ensures entries == next
    {
      entries := next;
    }

    // `up` is false when Redis does not answer, which counts as a miss.
    method Get(key: string, now: int, up: bool) returns (r: Option<string>)
      ensures r == if up then Lookup(entries, key, now) else None
    {
      if up && key in entries && now <= entries[key].deadline {
        return Some(entries[key].body);
      }
      return None;
    }

    method Set(key: string, body: string, ttl: int, now: int, up: bool)
      modifies this
      ensures entries == if up then old(entries)[key := Cached(body, now + ttl)] else old(entries)
    {
      if up {
        entries := entries[key := Cached(body, now + ttl)];
      }
    }
  }

  // ---------- runs of many requests ----------

  // A request that misses runs the handler between its Look and its Finish.  One that is cut off in
  // between never finishes.
  datatype Event =
    | Look(id: nat, key: string, now: int, up: bool)
    | Finish(id: nat, now: int, outcome: Reply, up: bool)

  // A request is known by the position of its Look.
  datatype Pending = Pending(key: string, look: nat)

  // `running` are the requests whose handler runs.
  datatype World = World(cache: Cache, running: map<nat, Pending>)

  function Applied(w: World, e: Event, n: nat): World {
    match e
    case Look(id, key, now, up) =>
      if up && Lookup(w.cache, key, now).Some? then w else w.(running := w.running[id := Pending(key, n)])
    case Finish(id, now, outcome, up) =>
      if id !in w.running then w
      else World(Stored(w.cache, w.running[id].key, outcome, now, up), w.running - {id})
  }

  // The world before event n.
  function At(events: seq<Event>, n: nat): World
    requires n <= |events|
    decreases n
  {
    if n == 0 then World(map[], map[]) else Applied(At(events, n - 1), events[n - 1], n - 1)
  }

  // The handler runs for the request of this Look.
  predicate Misses(events: seq<Event>, l: nat)
    requires l < |events|
  {
    events[l].Look? && !(events[l].up && Lookup(At(events, l).cache, events[l].key, events[l].now).Some?)
  }

  // The handler of request l runs before event n.
  predicate Runs(events: seq<Event>, n: nat, id: nat, l: nat)
    requires n <= |events|
  {
    id in At(events, n).running && At(events, n).running[id].look == l
  }

  predicate Ends(events: seq<Event>, i: nat, l: nat)
    requires i < |events|
  {
    events[i].Finish? && Runs(events, i, events[i].id, l)
  }

  // Event i ends a request of this key with a 200 or 201 from the handler.
  predicate Succeeds(events: seq<Event>, i: nat, key: string)
    requires i < |events|
  {
    && events[i].Finish? && Storable(events[i].outcome)
    && events[i].id in At(events, i).running && At(events, i).running[events[i].id].key == key
  }

  predicate Ordered(events: seq<Event>) {
    forall i, j :: 0 <= i <= j < |events| ==> events[i].now <= events[j].now
  }

  lemma {:induction false} AtPrefix(events: seq<Event>, more: seq<Event>, n: nat)
    requires n <= |events|
    ensures At(events + more, n) == At(events, n)
    decreases n
  {
    if n > 0 {
      AtPrefix(events, more, n - 1);
    }
  }

  lemma {:induction false} RunningLooked(events: seq<Event>, n: nat, id: nat)
    requires n <= |events| && id in At(events, n).running
    ensures var p := At(events, n).running[id];
            p.look < n && Misses(events, p.look) && events[p.look].id == id && events[p.look].key == p.key
    decreases n
  {
    if n > 0 && id in At(events, n - 1).running && At(events, n - 1).running[id] == At(events, n).running[id] {
      RunningLooked(events, n - 1, id);
    }
  }

  // A request ends at most once.
  lemma {:induction false} EndedForGood(events: seq<Event>, i: nat, n: nat, id: nat, l: nat)
    requires i < n <= |events| && Ends(events, i, l)
    ensures !Runs(events, n, id, l)
    decreases n
  {
    RunningLooked(events, i, events[i].id);
    if n == i + 1 {
      if Runs(events, n, id, l) {
        RunningLooked(events, n, id);
      }
    } else {
      EndedForGood(events, i, n - 1, id, l);
    }
  }

  // The latest stored success of a key before event n.
  function LastStored(events: seq<Event>, n: nat, key: string): Option<Cached>
    requires n <= |events|
    decreases n
  {
    if n == 0 then None
    else if Succeeds(events, n - 1, key) && events[n - 1].up
    then Some(Cached(events[n - 1].outcome.body, events[n - 1].now + DAY))
    else LastStored(events, n - 1, key)
  }

  /** In every interleaving, overlapping or not, the cache holds the latest stored success of each
      key, until a day after. */
  lemma {:induction false} CacheIsLastStored(events: seq<Event>, n: nat, key: string)
    requires n <= |events|
    ensures key in At(events, n).cache <==> LastStored(events, n, key).Some?
    ensures key in At(events, n).cache ==> LastStored(events, n, key) == Some(At(events, n).cache[key])
    decreases n
  {
    if n > 0 {
      CacheIsLastStored(events, n - 1, key);
    }
  }

  // A success of the key, stored before event n, that a lookup at `now` still finds.
  predicate Fresh(events: seq<Event>, i: nat, n: nat, key: string, now: int)
    requires n <= |events|
  {
    i < n && Succeeds(events, i, key) && events[i].up && now <= events[i].now + DAY
  }

  lemma {:induction false} DeadlineGrows(events: seq<Event>, i: nat, n: nat, key: string)
    requires i < n <= |events| && Ordered(events) && Succeeds(events, i, key) && events[i].up
    ensures LastStored(events, n, key).Some? && LastStored(events, n, key).value.deadline >= events[i].now + DAY
    decreases n
  {
    if n > i + 1 {
      DeadlineGrows(events, i, n - 1, key);
    }
  }

  lemma {:induction false} LastStoredWhere(events: seq<Event>, n: nat, key: string) returns (i: nat)
    requires n <= |events| && LastStored(events, n, key).Some?
    ensures i < n && Succeeds(events, i, key) && events[i].up
    ensures LastStored(events, n, key).value == Cached(events[i].outcome.body, events[i].now + DAY)
    decreases n
  {
    if Succeeds(events, n - 1, key) && events[n - 1].up {
      i := n - 1;
    } else {
      i := LastStoredWhere(events, n - 1, key);
    }
  }

  /** The handler runs exactly if Redis does not answer the lookup or no success of the key was
      stored within the day before it. */
  lemma MissesExactly(events: seq<Event>, l: nat)
    requires l < |events| && Ordered(events) && events[l].Look?
    ensures Misses(events, l) <==> !events[l].up || forall i :: !Fresh(events, i, l, events[l].key, events[l].now)
  {
    var key, now := events[l].key, events[l].now;
    CacheIsLastStored(events, l, key);
    if i :| Fresh(events, i, l, key, now) {
      DeadlineGrows(events, i, l, key);
    } else if LastStored(events, l, key).Some? {
      var i := LastStoredWhere(events, l, key);
      assert !Fresh(events, i, l, key, now);
    }
  }

  /** If two requests of a key succeed, the second lookup coming within a day of the first success,
      then that lookup preceded the first store, or that store was lost, or the lookup got no answer. */
  lemma SecondSuccess(events: seq<Event>, i: nat, j: nat, l: nat, key: string)
    requires i < j < |events| && Ordered(events) && Succeeds(events, i, key) && Succeeds(events, j, key)
    requires Ends(events, j, l) && l < j && events[l].now <= events[i].now + DAY
    ensures l < i || !events[i].up || !events[l].up
  {
    RunningLooked(events, j, events[j].id);
    MissesExactly(events, l);
    assert Fresh(events, i, l, key, events[l].now) || l <= i || !events[i].up;
  }

  lemma {:induction false} StillLast(events: seq<Event>, i: nat, n: nat, key: string)
    requires i < n <= |events| && Succeeds(events, i, key) && events[i].up
    requires forall j :: i < j < n && Succeeds(events, j, key) ==> !events[j].up
    ensures LastStored(events, n, key) == Some(Cached(events[i].outcome.body, events[i].now + DAY))
    decreases n
  {
    if n > i + 1 {
      StillLast(events, i, n - 1, key);
    }
  }

  /** Every answered lookup within a day of the latest stored success gets the body of that success. */
  lemma RepliesRepeat(events: seq<Event>, i: nat, l: nat, key: string)
    requires i < l < |events| && events[l].Look? && events[l].key == key && events[l].now <= events[i].now + DAY
    requires Succeeds(events, i, key) && events[i].up
    requires forall j :: i < j < l && Succeeds(events, j, key) ==> !events[j].up
    ensures Lookup(At(events, l).cache, key, events[l].now) == Some(events[i].outcome.body)
  {
    StillLast(events, i, l, key);
    CacheIsLastStored(events, l, key);
  }

  // ---------- the numbers ----------

  /** A stored reply is found for 86400000 ms, with its body, and then no more; other keys are untouched. */
  lemma OneDay(cache: Cache, key: string, other: string, r: Reply, at: int, now: int)
    ensures r.status == 200 || r.status == 201 ==>
              Lookup(Stored(cache, key, r, at, true), key, now) == if now <= at + 86400000 then Some(r.body) else None
    ensures r.status != 200 && r.status != 201 ==> Stored(cache, key, r, at, true) == cache
    ensures other != key ==> Lookup(Stored(cache, key, r, at, true), other, now) == Lookup(cache, other, now)
    ensures Stored(cache, key, r, at, false) == cache
  {
  }
}
