/** Cursor pagination over the payments table: one page at a time, newest id first, the last id of a
    full page being the cursor of the next. */
module Pagination {
  import opened Wrappers

  // ---------- ids: sixteen bytes, compared as bytes, printed as text ----------

  newtype Byte = x: int | 0 <= x < 256

  type Uuid = u: seq<Byte> | |u| == 16 witness seq(16, i => 0)

  // Byte by byte, the first difference decides.
  predicate BytesBelow(a: seq<Byte>, b: seq<Byte>)
    requires |a| == |b|
  {
    a != [] && (a[0] < b[0] || (a[0] == b[0] && BytesBelow(a[1..], b[1..])))
  }

  // The order of ORDER BY id.
  predicate Below(a: Uuid, b: Uuid) {
    BytesBelow(a, b)
  }

  function Digit(d: int): char
    requires 0 <= d < 16
  {
    if d < 10 then '0' + d as char else 'a' + (d - 10) as char
  }

  function Hex(x: Byte): (h: string)
    ensures |h| == 2
  {
    [Digit(x as int / 16), Digit(x as int % 16)]
  }

  // What precedes a byte that has `left` bytes from it to the end.
  function Hyphen(left: nat): (h: string)
    ensures |h| <= 1
  {
    if left == 12 || left == 10 || left == 8 || left == 6 then "-" else ""
  }

  function BytesText(bytes: seq<Byte>): string {
    if bytes == [] then "" else Hyphen(|bytes|) + (Hex(bytes[0]) + BytesText(bytes[1..]))
  }

  // id::text, the canonical form with hyphens.
  function Text(u: Uuid): string {
    BytesText(u)
  }

  // The order of id::text < $2.
  predicate TextBelow(a: string, b: string)
    decreases |a|
  {
    if a == "" then b != "" else b != "" && (a[0] < b[0] || (a[0] == b[0] && TextBelow(a[1..], b[1..])))
  }

  lemma TextBelowPrefix(p: string, a: string, b: string)
    requires |p| <= 3
    ensures TextBelow(p + a, p + b) <==> TextBelow(a, b)
    decreases |p|
  {
    if p == "" {
      assert p + a == a && p + b == b;
    } else {
      assert (p + a)[1..] == p[1..] + a && (p + b)[1..] == p[1..] + b;
      TextBelowPrefix(p[1..], a, b);
    }
  }

  lemma HexBelow(x: Byte, y: Byte, a: string, b: string)
    requires x != y
    ensures TextBelow(Hex(x) + a, Hex(y) + b) <==> x < y
  {
    assert (Hex(x) + a)[1..] == [Digit(x as int % 16)] + a && (Hex(y) + b)[1..] == [Digit(y as int % 16)] + b;
  }

  lemma {:induction false} BytesTextOrder(a: seq<Byte>, b: seq<Byte>)
    requires |a| == |b|
    ensures TextBelow(BytesText(a), BytesText(b)) <==> BytesBelow(a, b)
  {
    if a != [] {
      var ta, tb, h := BytesText(a[1..]), BytesText(b[1..]), Hyphen(|a|);
      assert BytesText(a) == h + (Hex(a[0]) + ta) && BytesText(b) == h + (Hex(b[0]) + tb);
      TextBelowPrefix(h, Hex(a[0]) + ta, Hex(b[0]) + tb);
      if a[0] == b[0] {
        TextBelowPrefix(Hex(a[0]), ta, tb);
        BytesTextOrder(a[1..], b[1..]);
      } else {
        HexBelow(a[0], b[0], ta, tb);
      }
      hide TextBelow, BytesText;
    }
  }

  /** The filter on text and the ordering on bytes agree. */
  lemma TextOrder(a: Uuid, b: Uuid)
    ensures TextBelow(Text(a), Text(b)) <==> Below(a, b)
  {
    BytesTextOrder(a, b);
  }

  lemma {:induction false} BytesTotal(a: seq<Byte>, b: seq<Byte>)
    requires |a| == |b|
    ensures BytesBelow(a, b) || BytesBelow(b, a) || a == b
    ensures !(BytesBelow(a, b) && BytesBelow(b, a))
    ensures BytesBelow(a, b) ==> a != b
  {
    if a != [] && a[0] == b[0] {
      BytesTotal(a[1..], b[1..]);
      assert a == [a[0]] + a[1..] && b == [b[0]] + b[1..];
    }
  }

  lemma {:induction false} BytesTransitive(a: seq<Byte>, b: seq<Byte>, c: seq<Byte>)
    requires |a| == |b| == |c| && BytesBelow(a, b) && BytesBelow(b, c)
    ensures BytesBelow(a, c)
  {
    if a[0] == b[0] == c[0] {
      BytesTransitive(a[1..], b[1..], c[1..]);
    }
  }

  lemma Total(a: Uuid, b: Uuid)
    ensures Below(a, b) || Below(b, a) || a == b
    ensures !(Below(a, b) && Below(b, a))
    ensures Below(a, b) ==> a != b
  {
    BytesTotal(a, b);
  }

  lemma Transitive(a: Uuid, b: Uuid, c: Uuid)
    requires Below(a, b) && Below(b, c)
    ensures Below(a, c)
  {
    BytesTransitive(a, b, c);
  }

  // ---------- the query ----------

  predicate Sorted(q: seq<Uuid>) {
    forall i, j :: 0 <= i < j < |q| ==> Below(q[j], q[i])
  }

  function Ids(q: seq<Uuid>): set<Uuid> {
    set i | 0 <= i < |q| :: q[i]
  }

  predicate Tops(m: Uuid, s: set<Uuid>) {
    m in s && forall x :: x in s ==> x == m || Below(x, m)
  }

  lemma {:induction false} GreatestExists(s: set<Uuid>)
    requires s != {}
    ensures exists m :: Tops(m, s)
  {
    hide Below;
    var m :| m in s;
    var rest := s - {m};
    assert s == {m} + rest;
    if rest == {} {
      assert Tops(m, s);
    } else {
      GreatestExists(rest);
      var g :| Tops(g, rest);
      Total(m, g);
      if Below(g, m) {
        forall x | x in rest
          ensures Below(x, m)
        {
          if x != g {
            Transitive(x, g, m);
          }
        }
        assert forall x :: x in s ==> x == m || x in rest;
        assert Tops(m, s);
      } else {
        assert Tops(g, s);
      }
    }
  }

  ghost function Greatest(s: set<Uuid>): (m: Uuid)
    requires s != {}
    ensures Tops(m, s)
  {
    GreatestExists(s);
    var m :| Tops(m, s);
    m
  }

  // ORDER BY id DESC
  ghost function Descending(s: set<Uuid>): seq<Uuid> {
    if s == {} then []
    else
      var m := Greatest(s);
      [m] + Descending(s - {m})
  }

  lemma {:induction false} DescendingSorts(s: set<Uuid>)
    ensures Sorted(Descending(s)) && Ids(Descending(s)) == s && |Descending(s)| == |s|
  {
    hide Below;
    if s != {} {
      var m := Greatest(s);
      var rest := Descending(s - {m});
      DescendingSorts(s - {m});
      ConsIds(m, rest);
      forall i, j | 0 <= i < j < |rest| + 1
        ensures Below(([m] + rest)[j], ([m] + rest)[i])
      {
        if i == 0 {
          assert rest[j - 1] in Ids(rest);
        }
      }
    }
  }

  lemma ConsIds(m: Uuid, rest: seq<Uuid>)
    ensures Ids([m] + rest) == {m} + Ids(rest)
  {
    var all := [m] + rest;
    forall x | x in {m} + Ids(rest)
      ensures x in Ids(all)
    {
      if x != m {
        var i :| 0 <= i < |rest| && rest[i] == x;
        assert all[i + 1] == x;
      } else {
        assert all[0] == x;
      }
    }
  }

  lemma {:induction false} SortedUnique(p: seq<Uuid>, q: seq<Uuid>)
    requires Sorted(p) && Sorted(q) && Ids(p) == Ids(q)
    ensures p == q
  {
    if p == [] {
      NoIds(q);
    } else {
      assert p[0] in Ids(q);
      assert q != [] && q[0] in Ids(p);
      HeadGreatest(p, q[0]);
      HeadGreatest(q, p[0]);
      Total(p[0], q[0]);
      TailIds(p);
      TailIds(q);
      SortedUnique(p[1..], q[1..]);
      assert p == [p[0]] + p[1..] && q == [q[0]] + q[1..];
    }
  }

  lemma NoIds(q: seq<Uuid>)
    ensures Ids(q) == {} ==> q == []
  {
    if q != [] {
      assert q[0] in Ids(q);
    }
  }

  lemma HeadGreatest(p: seq<Uuid>, x: Uuid)
    requires Sorted(p) && x in Ids(p)
    ensures x == p[0] || Below(x, p[0])
  {
  }

  lemma TailIds(p: seq<Uuid>)
    requires Sorted(p) && p != []
    ensures Sorted(p[1..]) && Ids(p[1..]) == Ids(p) - {p[0]}
  {
    forall x | x in Ids(p) - {p[0]}
      ensures x in Ids(p[1..])
    {
      var i :| 0 <= i < |p| && p[i] == x;
      assert p[1..][i - 1] == x;
    }
    forall x | x in Ids(p[1..])
      ensures x in Ids(p) - {p[0]}
    {
      var i :| 0 <= i < |p[1..]| && p[1..][i] == x;
      assert x == p[i + 1];
      Total(x, p[0]);
    }
  }

  // WHERE id::text < $2, or no filter for the empty cursor
  function Matching(ids: set<Uuid>, cursor: string): set<Uuid> {
    set u | u in ids && (cursor == "" || TextBelow(Text(u), cursor))
  }

  ghost function Page(ids: set<Uuid>, limit: nat, cursor: string): seq<Uuid> {
    var all := Descending(Matching(ids, cursor));
    if |all| <= limit then all else all[..limit]
  }

  // One call: the ids it reads, and how many rows arrive before the iteration ends.
  datatype Visit = Visit(ids: set<Uuid>, delivered: nat)

  ghost function Got(v: Visit, limit: nat, cursor: string): seq<Uuid> {
    var page := Page(v.ids, limit, cursor);
    if v.delivered < |page| then page[..v.delivered] else page
  }

  function NextCursor(got: seq<Uuid>, limit: int): string {
    if |got| == limit && got != [] then Text(got[|got| - 1]) else ""
  }

  // ---------- the method ----------

  datatype Payment = Payment(amount: int, currency: string, status: string, createdAt: int)

  datatype Transaction = Transaction(id: string, details: Payment)

  datatype PageError = QueryError | ScanError

  // A row of the result; an unreadable one fails to scan.
  datatype Row = Row(id: Uuid, details: Payment, readable: bool)

  function Scanned(row: Row): Transaction {
    Transaction(Text(row.id), row.details)
  }

  function RowIds(rows: seq<Row>): seq<Uuid> {
    seq(|rows|, i requires 0 <= i < |rows| => rows[i].id)
  }

  // The rows are those of the page, in order, up to where the iteration ended.
  ghost predicate Delivers(table: map<Uuid, Payment>, limit: nat, cursor: string, rows: seq<Row>) {
    && RowIds(rows) == Got(Visit(table.Keys, |rows|), limit, cursor)
    && forall i :: 0 <= i < |rows| ==> rows[i].id in table && rows[i].details == table[rows[i].id]
  }

  method GetPaginatedTransactions(ghost table: map<Uuid, Payment>, limit: int, cursor: string, reachable: bool, rows: seq<Row>)
    returns (r: Result<(seq<Transaction>, string), PageError>)
    requires limit >= 0 ==> Delivers(table, limit, cursor, rows)
    ensures r == Err(QueryError) <==> limit < 0 || !reachable
    ensures r == Err(ScanError) <==> limit >= 0 && reachable && exists i :: 0 <= i < |rows| && !rows[i].readable
    ensures r.Ok? ==> |r.value.0| == |rows|
    ensures r.Ok? ==> forall i :: 0 <= i < |rows| ==> r.value.0[i] == Scanned(rows[i])
    ensures r.Ok? ==> r.value.1 == NextCursor(Got(Visit(table.Keys, |rows|), limit, cursor), limit)
  {
    if limit < 0 || !reachable {
      return Err(QueryError);
    }
    hide Text, Got;
    assert RowIds(rows) == Got(Visit(table.Keys, |rows|), limit, cursor);
    var transactions: seq<Transaction> := [];
    var lastID := "";
    for i := 0 to |rows|
      invariant |transactions| == i && forall j :: 0 <= j < i ==> rows[j].readable
      invariant forall j :: 0 <= j < i ==> transactions[j] == Scanned(rows[j])
      invariant lastID == if i == 0 then "" else Scanned(rows[i - 1]).id
    {
      if !rows[i].readable {
        return Err(ScanError);
      }
      var t := Scanned(rows[i]);
      transactions := transactions + [t];
      lastID := t.id;
    }
    var next := "";
    if |transactions| == limit {
      next := lastID;
    }
    return Ok((transactions, next));
  }

  /** A transaction carries the row's id as text and its amount, currency, status and time. */
  lemma ScannedFields(row: Row)
    ensures Scanned(row).id == Text(row.id)
    ensures Scanned(row).details.amount == row.details.amount && Scanned(row).details.currency == row.details.currency
    ensures Scanned(row).details.status == row.details.status && Scanned(row).details.createdAt == row.details.createdAt
  {
  }

  lemma TakeIds(q: seq<Uuid>, k: nat)
    requires Sorted(q) && k <= |q|
    ensures Sorted(q[..k]) && Ids(q[..k]) <= Ids(q)
  {
    forall x | x in Ids(q[..k])
      ensures x in Ids(q)
    {
      var i :| 0 <= i < k && q[..k][i] == x;
      assert q[i] == x;
    }
    hide Below, Ids;
  }

  lemma PageIds(ids: set<Uuid>, limit: nat, cursor: string)
    ensures Ids(Page(ids, limit, cursor)) <= Matching(ids, cursor) <= ids
    ensures Sorted(Page(ids, limit, cursor)) && |Page(ids, limit, cursor)| <= limit
  {
    hide Sorted, Ids, Descending;
    var all := Descending(Matching(ids, cursor));
    DescendingSorts(Matching(ids, cursor));
    if |all| > limit {
      TakeIds(all, limit);
    }
  }

  // ---------- following the cursors ----------

  // `cut` tells that the last page ended before its rows did.
  datatype Trip = Trip(rows: seq<Uuid>, ended: bool, cut: bool, calls: int)

  // Call after call, each cursor fed back, until an empty one comes.
  ghost function Drive(visits: seq<Visit>, limit: nat, cursor: string): Trip {
    if visits == [] then Trip([], false, false, 0)
    else
      var got := Got(visits[0], limit, cursor);
      var next := NextCursor(got, limit);
      if next == "" then Trip(got, true, |got| < |Page(visits[0].ids, limit, cursor)|, 1)
      else
        var rest := Drive(visits[1..], limit, next);
        Trip(got + rest.rows, rest.ended, rest.cut, rest.calls + 1)
  }

  lemma {:induction false} TextTransitive(a: string, b: string, c: string)
    requires TextBelow(a, b) && TextBelow(b, c)
    ensures TextBelow(a, c)
    decreases |a|
  {
    if a != "" && a[0] == b[0] == c[0] {
      TextTransitive(a[1..], b[1..], c[1..]);
    }
  }

  lemma TextNonempty(u: Uuid)
    ensures Text(u) != ""
  {
    assert BytesText(u) == Hyphen(16) + (Hex(u[0]) + BytesText(u[1..]));
  }

  // Behind a full page of at least one row come exactly the rows below its last.
  lemma Behind(ids: set<Uuid>, limit: nat, cursor: string)
    requires limit > 0 && |Page(ids, limit, cursor)| == limit
    ensures var page := Page(ids, limit, cursor);
            var next := Text(page[limit - 1]);
            && Ids(page) !! Matching(ids, next)
            && Matching(ids, cursor) == Ids(page) + Matching(ids, next)
  {
    hide Below, Text, TextBelow;
    var page := Page(ids, limit, cursor);
    var last := page[limit - 1];
    PageIds(ids, limit, cursor);
    TextNonempty(last);
    assert last in Ids(page);
    forall u | u in Matching(ids, Text(last))
      ensures u in Matching(ids, cursor) && u !in Ids(page)
    {
      TextOrder(u, last);
      if cursor != "" {
        TextTransitive(Text(u), Text(last), cursor);
      }
      BelowPage(page, u);
    }
    forall u | u in Matching(ids, cursor) && u !in Ids(page)
      ensures u in Matching(ids, Text(last))
    {
      AfterPage(Descending(Matching(ids, cursor)), limit, u) by {
        DescendingSorts(Matching(ids, cursor));
      }
      TextOrder(u, last);
    }
  }

  // What lies below the last row of a page lies below all of it.
  lemma BelowPage(page: seq<Uuid>, u: Uuid)
    requires Sorted(page) && page != [] && Below(u, page[|page| - 1])
    ensures forall x :: x in Ids(page) ==> Below(u, x)
    ensures u !in Ids(page)
  {
    hide Below;
    forall x | x in Ids(page)
      ensures Below(u, x)
    {
      var i :| 0 <= i < |page| && page[i] == x;
      if i < |page| - 1 {
        Transitive(u, page[|page| - 1], x);
      }
    }
    Total(u, u);
  }

  lemma AfterPage(all: seq<Uuid>, k: nat, u: Uuid)
    requires Sorted(all) && 0 < k <= |all| && u in Ids(all) && u !in Ids(all[..k])
    ensures Below(u, all[k - 1])
  {
    hide Below;
    var i :| 0 <= i < |all| && all[i] == u;
    FirstIds(all, k);
  }

  lemma FirstIds(all: seq<Uuid>, k: nat)
    requires k <= |all|
    ensures forall i :: 0 <= i < k ==> all[i] in Ids(all[..k])
  {
    forall i | 0 <= i < k
      ensures all[i] in Ids(all[..k])
    {
      assert all[..k][i] == all[i];
    }
  }

  predicate Growing(visits: seq<Visit>) {
    forall i, j :: 0 <= i <= j < |visits| ==> visits[i].ids <= visits[j].ids
  }

  lemma AppendSorted(p: seq<Uuid>, q: seq<Uuid>)
    requires Sorted(p) && Sorted(q) && forall x, y :: x in Ids(p) && y in Ids(q) ==> Below(y, x)
    ensures Sorted(p + q) && Ids(p + q) == Ids(p) + Ids(q)
  {
    hide Below;
    var all := p + q;
    forall i, j | 0 <= i < j < |all|
      ensures Below(all[j], all[i])
    {
      if i < |p| <= j {
        assert p[i] in Ids(p) && q[j - |p|] in Ids(q);
      }
    }
    forall x | x in Ids(p) + Ids(q)
      ensures x in Ids(all)
    {
      if x in Ids(p) {
        var i :| 0 <= i < |p| && p[i] == x;
        assert all[i] == x;
      } else {
        var i :| 0 <= i < |q| && q[i] == x;
        assert all[|p| + i] == x;
      }
    }
  }

  lemma GotIds(v: Visit, limit: nat, cursor: string)
    ensures Sorted(Got(v, limit, cursor)) && Ids(Got(v, limit, cursor)) <= Matching(v.ids, cursor)
    ensures |Got(v, limit, cursor)| <= |Page(v.ids, limit, cursor)| <= limit
    ensures |Got(v, limit, cursor)| == limit ==> Got(v, limit, cursor) == Page(v.ids, limit, cursor)
  {
    PageIds(v.ids, limit, cursor);
    var page := Page(v.ids, limit, cursor);
    hide Below, Ids, Sorted;
    if v.delivered < |page| {
      TakeIds(page, v.delivered);
    }
  }

  /** Rows come in strictly descending order, so none comes twice, whatever is inserted between two
      calls and wherever pages are cut short. */
  lemma {:induction false} NothingTwice(visits: seq<Visit>, limit: nat, cursor: string, ids: set<Uuid>)
    requires limit > 0 && forall v :: v in visits ==> v.ids <= ids
    ensures Sorted(Drive(visits, limit, cursor).rows)
    ensures Ids(Drive(visits, limit, cursor).rows) <= Matching(ids, cursor)
  {
    hide Below, Sorted, Ids, Text, TextBelow, Got, Page;
    if visits == [] {
      NoneSorted();
    } else {
      var got := Got(visits[0], limit, cursor);
      GotIds(visits[0], limit, cursor);
      if |got| == limit {
        var last := got[limit - 1];
        var rest := Drive(visits[1..], limit, Text(last)).rows;
        NothingTwice(visits[1..], limit, Text(last), ids);
        LastIn(got);
        TextNonempty(last);
        forall x, y | x in Ids(got) && y in Ids(rest)
          ensures Below(y, x)
        {
          TextOrder(y, last);
          BelowPage(got, y);
        }
        AppendSorted(got, rest);
        forall y | y in Ids(rest)
          ensures y in Matching(ids, cursor)
        {
          if cursor != "" {
            TextTransitive(Text(y), Text(last), cursor);
          }
        }
      }
    }
  }

  lemma NoneSorted()
    ensures Sorted([]) && Ids([]) == {}
  {
  }

  lemma LastIn(q: seq<Uuid>)
    requires q != []
    ensures q[|q| - 1] in Ids(q)
  {
  }

  /** Every row there at the first call comes back, if the calls end and the last page was whole. */
  lemma {:induction false} NothingMissed(visits: seq<Visit>, limit: nat, cursor: string)
    requires limit > 0 && visits != [] && Growing(visits)
    requires Drive(visits, limit, cursor).ended && !Drive(visits, limit, cursor).cut
    ensures Matching(visits[0].ids, cursor) <= Ids(Drive(visits, limit, cursor).rows)
  {
    hide Below, Ids, Sorted, Text, TextBelow, Page, Descending;
    var ids := visits[0].ids;
    var got := Got(visits[0], limit, cursor);
    GotIds(visits[0], limit, cursor);
    if |got| == limit {
      Behind(ids, limit, cursor);
      TextNonempty(got[limit - 1]);
      var rest := Drive(visits[1..], limit, Text(got[limit - 1])).rows;
      NothingMissed(visits[1..], limit, Text(got[limit - 1]));
      assert ids <= visits[1].ids;
      AppendIds(got, rest);
    } else {
      WholePage(ids, limit, cursor);
    }
  }

  lemma AppendIds(p: seq<Uuid>, q: seq<Uuid>)
    ensures Ids(p) + Ids(q) <= Ids(p + q)
  {
    var all := p + q;
    forall x | x in Ids(p) + Ids(q)
      ensures x in Ids(all)
    {
      if x in Ids(p) {
        var i :| 0 <= i < |p| && p[i] == x;
        assert all[i] == x;
      } else {
        var i :| 0 <= i < |q| && q[i] == x;
        assert all[|p| + i] == x;
      }
    }
  }

  lemma WholePage(ids: set<Uuid>, limit: nat, cursor: string)
    requires |Page(ids, limit, cursor)| < limit
    ensures Page(ids, limit, cursor) == Descending(Matching(ids, cursor))
    ensures Ids(Page(ids, limit, cursor)) == Matching(ids, cursor)
  {
    DescendingSorts(Matching(ids, cursor));
  }

  predicate Still(visits: seq<Visit>, ids: set<Uuid>) {
    forall v :: v in visits ==> v.ids == ids
  }

  // A full page and what lies behind it make up the listing.
  lemma PageSplits(ids: set<Uuid>, limit: nat, cursor: string)
    requires limit > 0 && |Page(ids, limit, cursor)| == limit
    ensures var page := Page(ids, limit, cursor);
            var behind := Matching(ids, Text(page[limit - 1]));
            && Descending(Matching(ids, cursor)) == page + Descending(behind)
            && |Matching(ids, cursor)| == limit + |behind|
  {
    hide Below, Ids, Sorted, Text, TextBelow;
    var page := Page(ids, limit, cursor);
    var next := Text(page[limit - 1]);
    var behind := Matching(ids, next);
    Behind(ids, limit, cursor);
    DescendingSorts(Matching(ids, cursor));
    DescendingSorts(behind);
    PageIds(ids, limit, cursor);
    TextNonempty(page[limit - 1]);
    forall x, y | x in Ids(page) && y in Ids(Descending(behind))
      ensures Below(y, x)
    {
      TextOrder(y, page[limit - 1]);
      BelowPage(page, y);
    }
    AppendSorted(page, Descending(behind));
    SortedUnique(Descending(Matching(ids, cursor)), page + Descending(behind));
  }

  // n / limit + 1
  function Calls(n: nat, limit: nat): nat
    requires limit > 0
    decreases n
  {
    if n < limit then 1 else Calls(n - limit, limit) + 1
  }

  lemma {:induction false} CallsCounted(n: nat, limit: nat)
    requires limit > 0
    ensures (Calls(n, limit) - 1) * limit <= n < Calls(n, limit) * limit
    decreases n
  {
    if n >= limit {
      CallsCounted(n - limit, limit);
    }
  }

  lemma CallsFloor(n: nat, limit: nat)
    requires limit > 0
    ensures Calls(n, limit) == n / limit + 1
  {
    CallsCounted(n, limit);
    Quotient(n, limit, Calls(n, limit) - 1);
  }

  lemma Quotient(n: nat, d: nat, q: int)
    requires d > 0 && q * d <= n < (q + 1) * d
    ensures n / d == q
  {
    var k := n / d;
    assert k * d <= n < (k + 1) * d;
    assert k + 1 <= q ==> (k + 1) * d <= q * d;
    assert q + 1 <= k ==> (q + 1) * d <= k * d;
  }

  // From any cursor on, if every call delivers its page whole.
  lemma {:induction false} EnumeratesOnce(visits: seq<Visit>, ids: set<Uuid>, limit: nat, cursor: string)
    requires limit > 0 && Still(visits, ids) && |visits| >= Calls(|Matching(ids, cursor)|, limit)
    requires forall v :: v in visits ==> v.delivered >= limit
    ensures var trip := Drive(visits, limit, cursor);
            trip == Trip(Descending(Matching(ids, cursor)), true, false, Calls(|Matching(ids, cursor)|, limit))
  {
    hide Below, Ids, Sorted, Text, TextBelow, Descending, Matching;
    assert visits[0] in visits;
    var n := |Matching(ids, cursor)|;
    PageSize(ids, limit, cursor);
    var page := Page(ids, limit, cursor);
    assert Got(visits[0], limit, cursor) == page;
    if n >= limit {
      hide Page;
      var next := Text(page[limit - 1]);
      PageSplits(ids, limit, cursor);
      TextNonempty(page[limit - 1]);
      EnumeratesOnce(visits[1..], ids, limit, next);
    } else {
      WholePage(ids, limit, cursor);
    }
  }

  /** Enumeration: over a table that does not change, n rows take n / limit + 1 calls and come once
      each in descending order. */
  lemma EnumeratesAll(visits: seq<Visit>, ids: set<Uuid>, limit: nat)
    requires limit > 0 && Still(visits, ids) && |visits| > |ids| / limit
    requires forall v :: v in visits ==> v.delivered >= limit
    ensures Drive(visits, limit, "") == Trip(Descending(ids), true, false, |ids| / limit + 1)
  {
    assert Matching(ids, "") == ids;
    hide Drive, Descending;
    CallsFloor(|ids|, limit);
    EnumeratesOnce(visits, ids, limit, "");
  }

  lemma PageSize(ids: set<Uuid>, limit: nat, cursor: string)
    ensures |Page(ids, limit, cursor)| == if |Matching(ids, cursor)| <= limit then |Matching(ids, cursor)| else limit
  {
    DescendingSorts(Matching(ids, cursor));
  }

  /** A page cut short looks like the last one.  The listing is complete exactly if none was cut. */
  lemma {:induction false} CompleteUnlessCut(visits: seq<Visit>, ids: set<Uuid>, limit: nat, cursor: string)
    requires limit > 0 && Still(visits, ids) && Drive(visits, limit, cursor).ended
    ensures Drive(visits, limit, cursor).rows == Descending(Matching(ids, cursor)) <==> !Drive(visits, limit, cursor).cut
  {
    hide Below, Ids, Sorted, Text, TextBelow, Descending, Matching;
    assert visits[0] in visits;
    PageSize(ids, limit, cursor);
    DescendingSorts(Matching(ids, cursor));
    var got := Got(visits[0], limit, cursor);
    if |got| == limit {
      PageSplits(ids, limit, cursor);
      TextNonempty(got[limit - 1]);
      hide Page;
      CompleteUnlessCut(visits[1..], ids, limit, Text(got[limit - 1]));
      Cancels(got, Drive(visits[1..], limit, Text(got[limit - 1])).rows, Descending(Matching(ids, Text(got[limit - 1]))));
    } else if |Page(ids, limit, cursor)| < limit {
      WholePage(ids, limit, cursor);
    }
  }

  lemma Cancels(p: seq<Uuid>, q: seq<Uuid>, r: seq<Uuid>)
    ensures p + q == p + r <==> q == r
  {
    assert q == (p + q)[|p|..] && r == (p + r)[|p|..];
  }

  // ---------- the canonical text ----------

  predicate HexDigit(c: char) {
    '0' <= c <= '9' || 'a' <= c <= 'f'
  }

  // Where the hyphens of n remaining bytes lie, counted from the end.
  lemma {:induction false} BytesTextShape(bytes: seq<Byte>)
    requires |bytes| <= 16
    ensures var s, n := BytesText(bytes), |bytes|;
            && |s| == 2 * n + (if n >= 6 then 1 else 0) + (if n >= 8 then 1 else 0) + (if n >= 10 then 1 else 0) + (if n >= 12 then 1 else 0)
            && forall i :: 0 <= i < |s| ==>
                 if |s| - i in {13, 18, 23, 28} then s[i] == '-' else HexDigit(s[i])
  {
    if bytes != [] {
      BytesTextShape(bytes[1..]);
      HexShape(bytes[0]);
      var rest := BytesText(bytes[1..]);
      assert BytesText(bytes) == Hyphen(|bytes|) + (Hex(bytes[0]) + rest);
      hide BytesText, Hex, HexDigit;
      Prefixed(Hyphen(|bytes|), Hex(bytes[0]), rest);
    }
  }

  lemma Prefixed(hyphen: string, hex: string, rest: string)
    requires |hex| == 2
    ensures var s := hyphen + (hex + rest);
            && |s| == |hyphen| + 2 + |rest|
            && (forall i :: 0 <= i < |hyphen| ==> s[i] == hyphen[i])
            && s[|hyphen|] == hex[0] && s[|hyphen| + 1] == hex[1]
            && forall i :: |hyphen| + 2 <= i < |s| ==> s[i] == rest[i - |hyphen| - 2]
  {
  }

  lemma HexShape(x: Byte)
    ensures HexDigit(Hex(x)[0]) && HexDigit(Hex(x)[1])
  {
  }

  /** The text of an id has 36 characters, hyphens at 8, 13, 18 and 23, and lower-case digits elsewhere. */
  lemma TextShape(u: Uuid)
    ensures |Text(u)| == 36
    ensures forall i :: 0 <= i < 36 ==> if i in {8, 13, 18, 23} then Text(u)[i] == '-' else HexDigit(Text(u)[i])
  {
    BytesTextShape(u);
  }

  /** Different ids have different texts. */
  lemma TextInjective(u: Uuid, v: Uuid)
    requires Text(u) == Text(v)
    ensures u == v
  {
    Total(u, v);
    TextOrder(u, v);
    TextOrder(v, u);
    TextIrreflexive(Text(u));
    hide Text, Below, TextBelow;
  }

  lemma {:induction false} TextIrreflexive(s: string)
    ensures !TextBelow(s, s)
  {
    if s != "" {
      TextIrreflexive(s[1..]);
    }
  }
}
