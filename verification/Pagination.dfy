/** Paging through the voltage events, newest first, while new events are recorded. */
module Pagination {
  import opened Options

  datatype Event = Event(
    id: int, phase: nat, startTime: int, endTime: Option<int>,
    minVoltage: real, maxVoltage: real, avgVoltage: real, duration: Option<int>)

  /** The event table in the order of its ids: they are positive, grow, and are never used again. */
  type Table = seq<Event>

  ghost predicate Ordered(t: Table) {
    && (forall i :: 0 <= i < |t| ==> 0 < t[i].id)
    && (forall i, j :: 0 <= i < j < |t| ==> t[i].id < t[j].id)
  }

  const DEFAULT_LIMIT := 20
  const MAX_LIMIT := 100

  /** A number in the query string. */
  datatype Param = Absent | Malformed | Number(n: int)

  datatype Response =
    | BadLimit
    | BadCursor
    | Page(events: seq<Event>, total: nat, next: int, hasMore: bool)

  // ---------------------------------------------------------------- one page

  predicate Selected(e: Event, before: int) {
    before > 0 ==> e.id < before
  }

  ghost predicate OlderThanAll(e: Event, events: seq<Event>) {
    forall i :: 0 <= i < |events| ==> e.id < events[i].id
  }

  /** The rows with an id below `before`, or all rows when it is 0: newest first and cut off at the limit. */
  ghost predicate IsPage(t: Table, before: int, limit: nat, events: seq<Event>) {
    && |events| <= limit
    && (forall i, j :: 0 <= i < j < |events| ==> events[i].id > events[j].id)
    && (forall e :: e in events ==> e in t && Selected(e, before))
    && (forall e :: e in t && Selected(e, before) ==> e in events || (|events| == limit && OlderThanAll(e, events)))
  }

  /** How many rows are selected: they are the oldest ones. */
  function Upto(t: Table, before: int): (n: nat)
    ensures n <= |t|
  {
    if t == [] then 0
    else if Selected(t[|t| - 1], before) then |t|
    else Upto(t[..|t| - 1], before)
  }

  lemma {:induction false} UptoSplits(t: Table, before: int, i: nat)
    requires Ordered(t) && i < |t|
    ensures Selected(t[i], before) <==> i < Upto(t, before)
    decreases t
  {
    var last := |t| - 1;
    if !Selected(t[last], before) && i < last {
      UptoSplits(t[..last], before, i);
    }
  }

  /** At most `limit` of the first `hi` rows, newest first. */
  function Newest(t: Table, hi: nat, limit: nat): seq<Event>
    requires hi <= |t|
  {
    if hi == 0 || limit == 0 then [] else [t[hi - 1]] + Newest(t, hi - 1, limit - 1)
  }

  lemma {:induction false} NewestAt(t: Table, hi: nat, limit: nat)
    requires hi <= |t|
    ensures |Newest(t, hi, limit)| == if limit <= hi then limit else hi
    ensures forall j :: 0 <= j < |Newest(t, hi, limit)| ==> Newest(t, hi, limit)[j] == t[hi - 1 - j]
    decreases hi
  {
    if hi > 0 && limit > 0 {
      NewestAt(t, hi - 1, limit - 1);
    }
  }

  lemma NewestIsPage(t: Table, before: int, limit: nat)
    requires Ordered(t)
    ensures IsPage(t, before, limit, Newest(t, Upto(t, before), limit))
  {
    var hi := Upto(t, before);
    var events := Newest(t, hi, limit);
    NewestAt(t, hi, limit);
    forall e | e in events ensures e in t && Selected(e, before) {
      var j :| 0 <= j < |events| && events[j] == e;
      UptoSplits(t, before, hi - 1 - j);
    }
    forall e | e in t && Selected(e, before) ensures e in events || (|events| == limit && OlderThanAll(e, events)) {
      var i :| 0 <= i < |t| && t[i] == e;
      UptoSplits(t, before, i);
      OnPageOrOlder(t, events, hi, i);
    }
  }

  lemma OnPageOrOlder(t: Table, events: seq<Event>, hi: nat, i: nat)
    requires Ordered(t) && i < hi <= |t| && |events| <= hi
    requires forall j :: 0 <= j < |events| ==> events[j] == t[hi - 1 - j]
    ensures if i >= hi - |events| then t[i] in events else OlderThanAll(t[i], events)
  {
    if i >= hi - |events| {
      assert events[hi - 1 - i] == t[i];
    }
  }

  /** There is only one such page. */
  lemma PageIsUnique(t: Table, before: int, limit: nat, p: seq<Event>, q: seq<Event>)
    requires Ordered(t) && IsPage(t, before, limit, p) && IsPage(t, before, limit, q)
    ensures p == q
  {
    forall i | 0 <= i < |p| && i < |q| ensures p[i] == q[i] {
      SameId(t, before, limit, p, q, i);
      ById(t, p[i], q[i]);
    }
    if |p| < |q| {
      Later(p, q);
    } else if |q| < |p| {
      Later(q, p);
    }
  }

  lemma {:induction false} SameId(t: Table, before: int, limit: nat, p: seq<Event>, q: seq<Event>, i: nat)
    requires IsPage(t, before, limit, p) && IsPage(t, before, limit, q) && i < |p| && i < |q|
    ensures p[i].id == q[i].id
    decreases i
  {
    forall j | 0 <= j < i ensures p[j].id == q[j].id {
      SameId(t, before, limit, p, q, j);
    }
    NoNewer(t, before, limit, p, q, i);
    NoNewer(t, before, limit, q, p, i);
  }

  lemma ById(t: Table, e: Event, f: Event)
    requires Ordered(t) && e in t && f in t && e.id == f.id
    ensures e == f
  {
    var i :| 0 <= i < |t| && t[i] == e;
    var j :| 0 <= j < |t| && t[j] == f;
    assert !(i < j) && !(j < i);
  }

  lemma Later(p: seq<Event>, q: seq<Event>)
    requires |p| < |q| && p == q[..|p|]
    requires forall i, j :: 0 <= i < j < |q| ==> q[i].id > q[j].id
    ensures q[|p|] !in p
  {
  }

  lemma NoNewer(t: Table, before: int, limit: nat, p: seq<Event>, q: seq<Event>, i: nat)
    requires IsPage(t, before, limit, p) && IsPage(t, before, limit, q) && i < |p| && i < |q|
    requires forall j :: 0 <= j < i ==> p[j].id == q[j].id
    ensures p[i].id <= q[i].id
  {
    if p[i] in q {
      var j :| 0 <= j < |q| && q[j] == p[i];
    } else {
      assert OlderThanAll(p[i], q);
    }
  }

  /** The query, walking down the ids. */
  method QueryVoltageEvents(t: Table, before: int, limit: nat) returns (events: seq<Event>, total: nat)
    requires Ordered(t)
    ensures total == |t|
    ensures IsPage(t, before, limit, events)
    ensures events == Newest(t, Upto(t, before), limit)
  {
    total := |t|;
    ghost var hi := Upto(t, before);
    var i := |t|;
    while i > 0 && !Selected(t[i - 1], before)
      invariant hi <= i <= |t|
    {
      UptoSplits(t, before, i - 1);
      i := i - 1;
    }
    if i > 0 {
      UptoSplits(t, before, i - 1);
    }
    events := Collect(t, i, limit);
    NewestIsPage(t, before, limit);
  }

  /** Up to `limit` rows from the one below hi on. */
  method Collect(t: Table, hi: nat, limit: nat) returns (events: seq<Event>)
    requires hi <= |t|
    ensures events == Newest(t, hi, limit)
  {
    events := [];
    var i := hi;
    while i > 0 && |events| < limit
      invariant 0 <= i <= hi && |events| == hi - i <= limit
      invariant forall j :: 0 <= j < |events| ==> events[j] == t[hi - 1 - j]
    {
      i := i - 1;
      events := events + [t[i]];
    }
    NewestAt(t, hi, limit);
  }

  /** Answers a request for a page. The limit is checked before the cursor. */
  method HandleGridVoltage(t: Table, before: Param, limit: Param) returns (r: Response)
    requires Ordered(t)
    ensures r.BadLimit? <==> !(limit.Absent? || (limit.Number? && 1 <= limit.n <= 100))
    ensures r.BadCursor? <==> !r.BadLimit? && !(before.Absent? || (before.Number? && before.n >= 0))
    ensures r.Page? ==>
      var cursor, n := if before.Absent? then 0 else before.n, if limit.Absent? then 20 else limit.n;
      && IsPage(t, cursor, n, r.events) && r.total == |t|
      && r.next == (if r.events == [] then 0 else r.events[|r.events| - 1].id)
      && (r.hasMore <==> |r.events| == n)
    ensures r.Page? ==>
      r == Respond(t, if before.Absent? then 0 else before.n, if limit.Absent? then DEFAULT_LIMIT else limit.n)
  {
    var n := DEFAULT_LIMIT;
    if !limit.Absent? {
      if limit.Number? && limit.n > 0 && limit.n <= MAX_LIMIT {
        n := limit.n;
      } else {
        return BadLimit;
      }
    }
    var cursor := 0;
    if !before.Absent? {
      if before.Malformed? || before.n < 0 {
        return BadCursor;
      }
      cursor := before.n;
    }
    var events, total := QueryVoltageEvents(t, cursor, n);
    r := Page(events, total, if |events| > 0 then events[|events| - 1].id else 0, |events| >= n);
  }

  function Respond(t: Table, before: int, limit: nat): Response {
    var events := Newest(t, Upto(t, before), limit);
    Page(events, |t|, if |events| > 0 then events[|events| - 1].id else 0, |events| >= limit)
  }

  // ---------------------------------------------------------------- following next while has_more

  /** How the table may change between two requests: rows are updated and newer ones inserted. */
  ghost predicate Evolves(t: Table, t': Table) {
    Ordered(t') && |t| <= |t'| && forall i :: 0 <= i < |t| ==> t'[i].id == t[i].id
  }

  ghost predicate Evolving(tables: seq<Table>) {
    && (forall i :: 0 <= i < |tables| ==> Ordered(tables[i]))
    && (forall i :: 0 < i < |tables| ==> Evolves(tables[i - 1], tables[i]))
  }

  /** The pages a client gets that asks for `before` and then follows next while has_more; request i finds tables[i],
      and the client gives up when these run out. */
  function Crawl(tables: seq<Table>, before: int, limit: nat): (pages: seq<Response>)
    ensures forall r :: r in pages ==> r.Page?
  {
    if tables == [] then []
    else
      var r := Respond(tables[0], before, limit);
      [r] + if r.hasMore then Crawl(tables[1..], r.next, limit) else []
  }

  function Ids(events: seq<Event>): seq<int> {
    if events == [] then [] else [events[0].id] + Ids(events[1..])
  }

  /** The ids on all pages together. */
  function Collected(pages: seq<Response>): seq<int>
    requires forall r :: r in pages ==> r.Page?
  {
    if pages == [] then [] else Ids(pages[0].events) + Collected(pages[1..])
  }

  /** The ids of the first `hi` rows, newest first. */
  function Descending(t: Table, hi: nat): seq<int>
    requires hi <= |t|
  {
    if hi == 0 then [] else [t[hi - 1].id] + Descending(t, hi - 1)
  }

  lemma {:induction false} NewestIds(t: Table, hi: nat, limit: nat, lo: int)
    requires hi <= |t| && lo == hi - limit
    ensures 0 <= lo ==> Ids(Newest(t, hi, limit)) + Descending(t, lo) == Descending(t, hi)
    ensures lo <= 0 ==> Ids(Newest(t, hi, limit)) == Descending(t, hi)
    decreases hi
  {
    if hi > 0 && limit > 0 {
      NewestIds(t, hi - 1, limit - 1, lo);
      var first, tail := t[hi - 1], Newest(t, hi - 1, limit - 1);
      assert ([first] + tail)[1..] == tail;
      if 0 <= lo {
        Associative(first.id, Ids(tail), Descending(t, lo));
      }
    }
  }

  lemma Associative(x: int, a: seq<int>, b: seq<int>)
    ensures ([x] + a) + b == [x] + (a + b)
  {
  }

  lemma {:induction false} SameIds(t: Table, t': Table, hi: nat)
    requires Evolves(t, t') && hi <= |t|
    ensures Descending(t, hi) == Descending(t', hi)
    decreases hi
  {
    if hi > 0 {
      SameIds(t, t', hi - 1);
    }
  }

  lemma UptoAt(t: Table, i: nat)
    requires Ordered(t) && i < |t|
    ensures Upto(t, t[i].id) == i
  {
    if Upto(t, t[i].id) > i {
      UptoSplits(t, t[i].id, i);
    } else if Upto(t, t[i].id) < i {
      UptoSplits(t, t[i].id, Upto(t, t[i].id));
    }
  }

  /** What one request of a crawl finds when the rows below hi are still to come. */
  lemma OnePage(t: Table, before: int, limit: nat, hi: nat, lo: int)
    requires Ordered(t) && limit > 0 && hi == Upto(t, before) && lo == hi - limit
    ensures var r := Respond(t, before, limit);
      && (r.hasMore <==> lo >= 0)
      && (lo >= 0 ==> r.next == t[lo].id && Ids(r.events) + Descending(t, lo) == Descending(t, hi))
      && (lo < 0 ==> Ids(r.events) == Descending(t, hi))
  {
    NewestAt(t, hi, limit);
    NewestIds(t, hi, limit, lo);
  }

  /** k full pages, and less than another one. */
  predicate FullPages(hi: nat, limit: nat, k: nat) {
    if k == 0 then hi < limit else hi >= limit && FullPages(hi - limit, limit, k - 1)
  }

  lemma {:induction false} QuotientPages(hi: nat, limit: nat, k: nat)
    requires k * limit <= hi < k * limit + limit
    ensures FullPages(hi, limit, k)
    decreases k
  {
    if k > 0 {
      assert (k - 1) * limit == k * limit - limit;
      QuotientPages(hi - limit, limit, k - 1);
    }
  }

  lemma CrawlOn(tables: seq<Table>, before: int, limit: nat, r: Response)
    requires tables != [] && r == Respond(tables[0], before, limit)
    ensures var pages, more := Crawl(tables, before, limit), Crawl(tables[1..], r.next, limit);
      && (r.hasMore ==> |pages| == |more| + 1 && Collected(pages) == Ids(r.events) + Collected(more))
      && (!r.hasMore ==> |pages| == 1 && Collected(pages) == Ids(r.events))
  {
    var pages, more := Crawl(tables, before, limit), Crawl(tables[1..], r.next, limit);
    if r.hasMore {
      assert pages[1..] == more;
    } else {
      assert pages == [r] && [r][1..] == [];
    }
  }

  lemma {:induction false} CrawlFrom(tables: seq<Table>, before: int, limit: nat, hi: nat, k: nat)
    requires Evolving(tables) && limit > 0 && |tables| > k
    requires hi == Upto(tables[0], before) && FullPages(hi, limit, k)
    ensures |Crawl(tables, before, limit)| == k + 1
    ensures Collected(Crawl(tables, before, limit)) == Descending(tables[0], hi)
    decreases tables
  {
    var t, r, lo := tables[0], Respond(tables[0], before, limit), hi - limit;
    OnePage(t, before, limit, hi, lo);
    CrawlOn(tables, before, limit, r);
    if k > 0 {
      var rest := tables[1..];
      RestEvolves(tables, rest, lo, r.next);
      CrawlFrom(rest, r.next, limit, lo, k - 1);
    }
  }

  lemma RestEvolves(tables: seq<Table>, rest: seq<Table>, i: nat, next: int)
    requires Evolving(tables) && |tables| > 1 && rest == tables[1..] && i < |tables[0]| && next == tables[0][i].id
    ensures Evolving(rest)
    ensures Upto(rest[0], next) == i && Descending(rest[0], i) == Descending(tables[0], i)
  {
    assert Evolves(tables[0], tables[1]);
    UptoAt(tables[1], i);
    SameIds(tables[0], tables[1], i);
  }

  /** A crawl takes one page for every `limit` events there are at its first request, and one more; whatever is recorded
      or updated meanwhile, it gets exactly those events, each once and newest first. */
  lemma CrawlIsComplete(tables: seq<Table>, limit: nat)
    requires Evolving(tables) && limit > 0 && |tables| > 0 && |tables| > |tables[0]| / limit
    ensures |Crawl(tables, 0, limit)| == |tables[0]| / limit + 1
    ensures Collected(Crawl(tables, 0, limit)) == Descending(tables[0], |tables[0]|)
  {
    QuotientPages(|tables[0]|, limit, |tables[0]| / limit);
    CrawlFrom(tables, 0, limit, |tables[0]|, |tables[0]| / limit);
  }
}
