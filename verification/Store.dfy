/** The store as the daemon uses it: the loops of aggregation and pruning over the tables, each proved to be the
    function of the tables that its name promises, and a whole aggregation cycle proved to be a run of Retention. */
module Store {
  import opened Accesses
  import opened Options
  import opened Rollup
  import opened Retention
  import opened Runs

  function HourlyGrouping(rows: seq<Row>): int -> Groups {
    (h: int) => HourGroups(rows, h)
  }

  function DailyGrouping(hourly: Table): int -> Groups {
    (d: int) => DayGroups(hourly, d)
  }

  /** No row is grouped into an hour before the earliest. */
  lemma EarliestHour(rows: seq<Row>, earliest: Option<int>)
    requires IsEarliest(earliest, HoursOf(rows))
    ensures EarliestFor(HourlyGrouping(rows), earliest)
  {
    if earliest.Some? {
      forall h | h < earliest.value ensures HourGroups(rows, h) == map[] {
        forall s ensures s !in HourGroups(rows, h) {
          HourGroupsAre(rows, h, s);
          SummariseNothing(rows, s, h, h + 1);
          assert forall r :: r in rows ==> HourOf(r.time) in HoursOf(rows);
        }
      }
    }
  }

  lemma EarliestDay(hourly: Table, earliest: Option<int>)
    requires IsEarliest(earliest, DaysOf(hourly))
    ensures EarliestFor(DailyGrouping(hourly), earliest)
  {
    if earliest.Some? {
      forall d | d < earliest.value ensures DayGroups(hourly, d) == map[] {
        forall s ensures s !in DayGroups(hourly, d) {
          DayGroupsAre(hourly, d, s);
          FoldDayNothing(hourly, s, d, 24);
          assert forall k :: k in hourly ==> k.bucket / 24 in DaysOf(hourly);
        }
      }
    }
  }

  method MaxBucket(table: Table) returns (cursor: int)
    ensures IsCursor(table, cursor)
  {
    cursor := 0;
    var seen, rest := {}, table.Keys;
    while rest != {}
      invariant seen + rest == table.Keys
      invariant seen == {} ==> cursor == 0
      invariant seen != {} ==> exists j :: j in seen && j.bucket == cursor
      invariant forall j :: j in seen ==> j.bucket <= cursor
      decreases rest
    {
      var k :| k in rest;
      if seen == {} || k.bucket > cursor {
        cursor := k.bucket;
      }
      seen, rest := seen + {k}, rest - {k};
    }
    assert rest == {};
  }

  /** MIN(sampled_at), truncated. If the query fails the loop just is not shortened. */
  method MinHour(rows: seq<Row>, answered: bool) returns (earliest: Option<int>)
    ensures IsEarliest(earliest, HoursOf(rows))
    ensures earliest.Some? <==> answered && rows != []
  {
    earliest := None;
    for i := 0 to |rows|
      invariant earliest.None? <==> i == 0
      invariant earliest.Some? ==> exists r :: r in rows && HourOf(r.time) == earliest.value
      invariant earliest.Some? ==> forall j :: 0 <= j < i ==> earliest.value <= HourOf(rows[j].time)
    {
      var h := HourOf(rows[i].time);
      if earliest.None? || h < earliest.value {
        assert rows[i] in rows;
        earliest := Some(h);
      }
    }
    if !answered {
      earliest := None;
    }
  }

  /** MIN(bucket_start), truncated to its day. */
  method MinDay(hourly: Table, answered: bool) returns (earliest: Option<int>)
    ensures IsEarliest(earliest, DaysOf(hourly))
    ensures earliest.Some? <==> answered && hourly != map[]
  {
    earliest := None;
    var seen, rest := {}, hourly.Keys;
    while rest != {}
      invariant seen + rest == hourly.Keys
      invariant earliest.None? <==> seen == {}
      invariant earliest.Some? ==> exists k :: k in hourly && k.bucket / 24 == earliest.value
      invariant earliest.Some? ==> forall k :: k in seen ==> earliest.value <= k.bucket / 24
      decreases rest
    {
      var k :| k in rest;
      if earliest.None? || k.bucket / 24 < earliest.value {
        assert k in hourly;
        earliest := Some(k.bucket / 24);
      }
      seen, rest := seen + {k}, rest - {k};
    }
    if !answered {
      earliest := None;
    }
  }

  // ---------------------------------------------------------------- pruning, statement by statement

  /** rowid is a key. */
  ghost predicate UniqueIds(rows: seq<Row>) {
    forall r, r' :: r in rows && r' in rows && r.id == r'.id ==> r == r'
  }

  function NotOlder(rows: seq<Row>, before: int): seq<Row> {
    Filter(rows, (r: Row) => r.time >= before)
  }

  predicate IsMatch(r: Row, sensor: Sensor, before: int) {
    r.sensor == sensor && r.time < before
  }

  lemma {:induction false} FilterCounts(rows: seq<Row>, p: Row -> bool)
    ensures |Filter(rows, p)| <= |rows|
    ensures |Filter(rows, p)| == |rows| <==> forall r :: r in rows ==> p(r)
    decreases rows
  {
    if rows != [] {
      FilterCounts(rows[..|rows| - 1], p);
      assert rows == rows[..|rows| - 1] + [rows[|rows| - 1]];
    }
  }

  lemma DeleteTwice(rows: seq<Row>, ids: set<nat>, more: set<nat>)
    ensures Delete(Delete(rows, ids), more) == Delete(rows, ids + more)
  {
    FilterTwice(rows, (r: Row) => r.id !in ids, (r: Row) => r.id !in more, (r: Row) => r.id !in ids + more);
  }

  lemma DeleteNone(rows: seq<Row>, ids: set<nat>)
    requires ids == {}
    ensures Delete(rows, ids) == rows
  {
    KeepAll(rows, (r: Row) => r.id !in ids);
  }

  lemma {:induction false} KeepAll(rows: seq<Row>, p: Row -> bool)
    requires forall r :: r in rows ==> p(r)
    ensures Filter(rows, p) == rows
    decreases rows
  {
    if rows != [] {
      KeepAll(rows[..|rows| - 1], p);
    }
  }

  /** SELECT rowid ... LIMIT: some matching rows, as many as the limit allows; a negative limit is none. */
  method PickBatch(rows: seq<Row>, sensor: Sensor, before: int, limit: int) returns (ids: set<nat>)
    requires UniqueIds(rows)
    ensures forall r :: r in rows && r.id in ids ==> IsMatch(r, sensor, before)
    ensures forall id :: id in ids ==> exists r :: r in rows && r.id == id
    ensures limit >= 0 ==> |ids| <= limit
    ensures ids == {} <==> limit == 0 || forall r :: r in rows ==> !IsMatch(r, sensor, before)
  {
    ids := {};
    for i := 0 to |rows|
      invariant forall r :: r in rows && r.id in ids ==> IsMatch(r, sensor, before)
      invariant forall id :: id in ids ==> exists r :: r in rows && r.id == id
      invariant limit >= 0 ==> |ids| <= limit
      invariant ids == {} <==> limit == 0 || forall j :: 0 <= j < i ==> !IsMatch(rows[j], sensor, before)
    {
      if IsMatch(rows[i], sensor, before) && (limit < 0 || |ids| < limit) {
        assert rows[i] in rows;
        ids := ids + {rows[i].id};
      }
    }
  }

  // ---------------------------------------------------------------- runs of the model

  ghost predicate Leads(s: State, s': State) {
    Reaches(Enabled, Apply, s, s')
  }

  lemma LeadsByStep(s: State, a: Action)
    requires Enabled(s, a)
    ensures Leads(s, Apply(s, a))
  {
    ReachesOne(Enabled, Apply, s, a);
  }

  lemma LeadsOn(s: State, t: State, u: State)
    requires Leads(s, t) && Leads(t, u)
    ensures Leads(s, u)
  {
    ReachesThen(Enabled, Apply, s, t, u);
  }

  /** The hourly loop with k buckets to go: what is there and what is to come make up the target. */
  ghost predicate HoursLeft(rows: seq<Row>, daily: Table, days: nat, until: int, stop: int, target: Table, s: State, k: nat) {
    && s.raw == rows && s.daily == daily && s.retentionDays == days
    && s.phase == HourlyLoop(stop - k, until) && (k > 0 ==> stop <= HourOf(until))
    && Fill(HourlyGrouping(rows), s.hourly, s.phase.hour, stop) == target
  }

  lemma FillFirst(group: int -> Groups, table: Table, b: int, end: int, next: Table, b': int)
    requires b < end && b' == b + 1 && next == Put(table, b, group(b))
    ensures Fill(group, table, b, end) == Fill(group, next, b', end)
  {
  }

  lemma HourStep(s: State) returns (s': State)
    requires s.phase.HourlyLoop? && s.phase.hour < HourOf(s.phase.until)
    ensures Enabled(s, HourStatement) && s' == Apply(s, HourStatement)
    ensures s'.raw == s.raw && s'.daily == s.daily && s'.phase == s.phase.(hour := s.phase.hour + 1)
    ensures s'.hourly == Put(s.hourly, s.phase.hour, HourlyGrouping(s.raw)(s.phase.hour))
    ensures s'.retentionDays == s.retentionDays
  {
    s' := Apply(s, HourStatement);
  }

  lemma OneHour(rows: seq<Row>, daily: Table, days: nat, until: int, stop: int, target: Table, s: State, k: nat)
    requires k > 0 && HoursLeft(rows, daily, days, until, stop, target, s, k)
    ensures Enabled(s, HourStatement)
    ensures HoursLeft(rows, daily, days, until, stop, target, Apply(s, HourStatement), k - 1)
  {
    var s' := HourStep(s);
    FillFirst(HourlyGrouping(rows), s.hourly, s.phase.hour, stop, s'.hourly, s'.phase.hour);
  }

  /** The hourly loop of the model, run from its present hour up to `stop`. */
  lemma HourlySteps(s: State, stop: int) returns (s': State)
    requires s.phase.HourlyLoop? && s.phase.hour <= stop
    requires s.phase.hour < stop ==> stop <= HourOf(s.phase.until)
    ensures Leads(s, s')
    ensures s'.raw == s.raw && s'.daily == s.daily && s'.phase == s.phase.(hour := stop)
    ensures s'.hourly == Fill(HourlyGrouping(s.raw), s.hourly, s.phase.hour, stop)
    ensures s'.retentionDays == s.retentionDays
  {
    var until, n := s.phase.until, stop - s.phase.hour;
    var target := Fill(HourlyGrouping(s.raw), s.hourly, s.phase.hour, stop);
    var left := (t: State, k: nat) => HoursLeft(s.raw, s.daily, s.retentionDays, until, stop, target, t, k);
    forall t, k: nat | k > 0 && left(t, k) ensures Enabled(t, HourStatement) && left(Apply(t, HourStatement), k - 1) {
      OneHour(s.raw, s.daily, s.retentionDays, until, stop, target, t, k);
    }
    s' := CountdownReaches(Enabled, Apply, HourStatement, left, s, n);
  }

  ghost predicate DaysLeft(rows: seq<Row>, hourly: Table, days: nat, until: int, stop: int, target: Table, s: State, k: nat) {
    && s.raw == rows && s.hourly == hourly && s.retentionDays == days
    && s.phase == DailyLoop(stop - k, until) && (k > 0 ==> stop <= DayOf(until))
    && Fill(DailyGrouping(hourly), s.daily, s.phase.day, stop) == target
  }

  lemma DayStep(s: State) returns (s': State)
    requires s.phase.DailyLoop? && s.phase.day < DayOf(s.phase.until)
    ensures Enabled(s, DayStatement) && s' == Apply(s, DayStatement)
    ensures s'.raw == s.raw && s'.hourly == s.hourly && s'.phase == s.phase.(day := s.phase.day + 1)
    ensures s'.daily == Put(s.daily, s.phase.day, DailyGrouping(s.hourly)(s.phase.day))
    ensures s'.retentionDays == s.retentionDays
  {
    s' := Apply(s, DayStatement);
  }

  lemma OneDay(rows: seq<Row>, hourly: Table, days: nat, until: int, stop: int, target: Table, s: State, k: nat)
    requires k > 0 && DaysLeft(rows, hourly, days, until, stop, target, s, k)
    ensures Enabled(s, DayStatement)
    ensures DaysLeft(rows, hourly, days, until, stop, target, Apply(s, DayStatement), k - 1)
  {
    var s' := DayStep(s);
    FillFirst(DailyGrouping(hourly), s.daily, s.phase.day, stop, s'.daily, s'.phase.day);
  }

  lemma DailySteps(s: State, stop: int) returns (s': State)
    requires s.phase.DailyLoop? && s.phase.day <= stop
    requires s.phase.day < stop ==> stop <= DayOf(s.phase.until)
    ensures Leads(s, s')
    ensures s'.raw == s.raw && s'.hourly == s.hourly && s'.phase == s.phase.(day := stop)
    ensures s'.daily == Fill(DailyGrouping(s.hourly), s.daily, s.phase.day, stop)
    ensures s'.retentionDays == s.retentionDays
  {
    var until, n := s.phase.until, stop - s.phase.day;
    var target := Fill(DailyGrouping(s.hourly), s.daily, s.phase.day, stop);
    var left := (t: State, k: nat) => DaysLeft(s.raw, s.hourly, s.retentionDays, until, stop, target, t, k);
    forall t, k: nat | k > 0 && left(t, k) ensures Enabled(t, DayStatement) && left(Apply(t, DayStatement), k - 1) {
      OneDay(s.raw, s.hourly, s.retentionDays, until, stop, target, t, k);
    }
    s' := CountdownReaches(Enabled, Apply, DayStatement, left, s, n);
  }

  // ---------------------------------------------------------------- the store

  /** The outcome of an aggregation: the buckets from start up to stop were gone through; all up to end if ok. */
  ghost predicate Filled(
    group: int -> Groups, table: Table, table': Table, start: int, stop: int, end: int, total: int, ok: bool)
  {
    && start <= stop && (start < stop ==> stop <= end)
    && table' == Fill(group, table, start, stop)
    && total == |table'| - |table|
    && (forall k :: k in table ==> k in table' && table'[k] == table[k])
    && (ok ==> end <= stop)
  }

  /** The table after the buckets from start up to b, and how much it has grown. */
  ghost predicate FilledTo(group: int -> Groups, table: Table, start: int, b: int, filled: Table, total: int) {
    start <= b && filled == Fill(group, table, start, b) && total == |filled| - |table|
  }

  lemma FillStep(
    group: int -> Groups, table: Table, start: int, b: int, filled: Table, total: int, groups: Groups, next: Table)
    requires Below(table, start) && FilledTo(group, table, start, b, filled, total)
    requires groups == group(b) && next == Put(filled, b, groups)
    ensures FilledTo(group, table, start, b + 1, next, total + |groups|)
  {
    FillCompose(group, table, start, b, b + 1);
    FillContents(group, table, start, b);
    PutGrows(filled, b, groups);
  }

  lemma HourFills(rows: seq<Row>, table: Table, start: int, hour: int, filled: Table, total: int, next: Table)
    requires Below(table, start) && FilledTo(HourlyGrouping(rows), table, start, hour, filled, total)
    requires next == Put(filled, hour, HourGroups(rows, hour))
    ensures FilledTo(HourlyGrouping(rows), table, start, hour + 1, next, total + |HourGroups(rows, hour)|)
  {
    FillStep(HourlyGrouping(rows), table, start, hour, filled, total, HourGroups(rows, hour), next);
  }

  lemma DayFills(hourly: Table, table: Table, start: int, day: int, filled: Table, total: int, next: Table)
    requires Below(table, start) && FilledTo(DailyGrouping(hourly), table, start, day, filled, total)
    requires next == Put(filled, day, DayGroups(hourly, day))
    ensures FilledTo(DailyGrouping(hourly), table, start, day + 1, next, total + |DayGroups(hourly, day)|)
  {
    FillStep(DailyGrouping(hourly), table, start, day, filled, total, DayGroups(hourly, day), next);
  }

  lemma FilledDone(
    group: int -> Groups, table: Table, table': Table, start: int, stop: int, end: int, total: int, ok: bool)
    requires Below(table, start) && FilledTo(group, table, start, stop, table', total)
    requires (start < stop ==> stop <= end) && (ok ==> end <= stop)
    ensures Filled(group, table, table', start, stop, end, total, ok)
  {
    FillContents(group, table, start, stop);
  }

  class Database {
    var raw: seq<Row>
    var hourly: Table
    var daily: Table

    /** What the database will answer, and how many accesses have been made. */
    const answers: Answers
    var asked: nat

    constructor (answers: Answers)
      ensures this.answers == answers && asked == 0
      ensures raw == [] && hourly == map[] && daily == map[]
    {
      raw, hourly, daily := [], map[], map[];
      this.answers, asked := answers, 0;
    }

    /** One access. */
    method Ask() returns (ok: bool)
      modifies `asked
      ensures ok == Succeeds(answers, old(asked)) && asked == old(asked) + 1
      ensures Went(answers, old(asked), asked, ok) && Went(answers, old(asked), asked, true)
    {
      ok := Succeeds(answers, asked);
      asked := asked + 1;
    }

    /** One turn of the loop: the statement, which says how many rows it inserted, and the look at the context. */
    method HourTurn(hour: int) returns (done: bool, ok: bool, n: int)
      modifies `hourly, `asked
      ensures Went(answers, old(asked), asked, ok) && (ok ==> done)
      ensures done ==> hourly == Put(old(hourly), hour, HourGroups(raw, hour)) && n == |HourGroups(raw, hour)|
      ensures !done ==> hourly == old(hourly)
    {
      n := 0;
      done := Ask();
      ok := done;
      if done {
        var groups := HourGroups(raw, hour);
        hourly := Put(hourly, hour, groups);
        n := |groups|;
        ok := Ask();
      }
    }

    /** The loop of AggregateHourly. It may stop before a statement that fails or after one, when cancelled. */
    method FillHours(start: int, end: int) returns (ok: bool, total: int, ghost stop: int)
      requires Below(hourly, start)
      modifies `hourly, `asked
      ensures Went(answers, old(asked), asked, ok)
      ensures Filled(HourlyGrouping(raw), old(hourly), hourly, start, stop, end, total, ok)
    {
      ghost var source, before := raw, hourly;
      var t := start;
      ok, total := true, 0;
      while ok && t < end
        invariant raw == source && (start < t ==> t <= end) && FilledTo(HourlyGrouping(source), before, start, t, hourly, total)
        invariant Went(answers, old(asked), asked, ok)
        decreases end - t, ok
      {
        ghost var table := hourly;
        var n;
        var done;
        done, ok, n := HourTurn(t);
        if done {
          HourFills(source, before, start, t, table, total, hourly);
          total := total + n;
          t := t + 1;
        }
      }
      stop := t;
      FilledDone(HourlyGrouping(source), before, hourly, start, t, end, total, ok);
    }

    /** Rolls finished hours up. No bucket that is there is overwritten, the number returned is the growth of the
        table, and when all goes well the table is what a loop over every hour from the cursor on would leave. */
    method AggregateHourly(since: int, until: int) returns (ok: bool, total: int, ghost start: int, ghost stop: int)
      modifies `hourly, `asked
      ensures Went(answers, old(asked), asked, ok)
      ensures Filled(HourlyGrouping(raw), old(hourly), hourly, start, stop, HourOf(until), total, ok)
      ensures start < stop || ok ==> StartedAt(old(hourly), HoursOf(raw), HourOf(since), HourOf(until), start)
      ensures ok ==> Complete(HourlyGrouping(raw), old(hourly), HourOf(since), HourOf(until), hourly)
    {
      total, start, stop := 0, 0, 0;
      ok := Ask();
      if !ok {
        return;
      }
      var cursor := MaxBucket(hourly);
      var answered := Ask();
      var earliest := MinHour(raw, answered);
      ghost var before := hourly;
      if raw == [] {
        start, stop := HourOf(until), HourOf(until);
        NoHours(raw, before, cursor, HourOf(since), HourOf(until));
        return;
      }
      var first := StartBucket(cursor, HourOf(since), earliest);
      start := first;
      StartIsBeyondTable(hourly, cursor, HourOf(since), earliest);
      ok, total, stop := FillHours(first, HourOf(until));
      HoursStarted(raw, before, cursor, HourOf(since), earliest, HourOf(until));
      if ok {
        AllHours(raw, before, cursor, HourOf(since), earliest, HourOf(until), stop, hourly);
      }
    }

    /** One turn of the loop: the statement, which says how many rows it inserted, and the look at the context. */
    method DayTurn(day: int) returns (done: bool, ok: bool, n: int)
      modifies `daily, `asked
      ensures Went(answers, old(asked), asked, ok) && (ok ==> done)
      ensures done ==> daily == Put(old(daily), day, DayGroups(hourly, day)) && n == |DayGroups(hourly, day)|
      ensures !done ==> daily == old(daily)
    {
      n := 0;
      done := Ask();
      ok := done;
      if done {
        var groups := DayGroups(hourly, day);
        daily := Put(daily, day, groups);
        n := |groups|;
        ok := Ask();
      }
    }

    /** The loop of AggregateDaily. */
    method FillDays(start: int, end: int) returns (ok: bool, total: int, ghost stop: int)
      requires Below(daily, start)
      modifies `daily, `asked
      ensures Went(answers, old(asked), asked, ok)
      ensures Filled(DailyGrouping(hourly), old(daily), daily, start, stop, end, total, ok)
    {
      ghost var source, before := hourly, daily;
      var t := start;
      ok, total := true, 0;
      while ok && t < end
        invariant hourly == source && (start < t ==> t <= end) && FilledTo(DailyGrouping(source), before, start, t, daily, total)
        invariant Went(answers, old(asked), asked, ok)
        decreases end - t, ok
      {
        ghost var table := daily;
        var n;
        var done;
        done, ok, n := DayTurn(t);
        if done {
          DayFills(source, before, start, t, table, total, daily);
          total := total + n;
          t := t + 1;
        }
      }
      stop := t;
      FilledDone(DailyGrouping(source), before, daily, start, t, end, total, ok);
    }

    /** Rolls finished days up from the hourly table, with the same promises. */
    method AggregateDaily(since: int, until: int) returns (ok: bool, total: int, ghost start: int, ghost stop: int)
      modifies `daily, `asked
      ensures Went(answers, old(asked), asked, ok)
      ensures Filled(DailyGrouping(hourly), old(daily), daily, start, stop, DayOf(until), total, ok)
      ensures start < stop || ok ==> StartedAt(old(daily), DaysOf(hourly), DayOf(since), DayOf(until), start)
      ensures ok ==> Complete(DailyGrouping(hourly), old(daily), DayOf(since), DayOf(until), daily)
    {
      total, start, stop := 0, 0, 0;
      ok := Ask();
      if !ok {
        return;
      }
      var cursor := MaxBucket(daily);
      var answered := Ask();
      var earliest := MinDay(hourly, answered);
      ghost var before := daily;
      if hourly == map[] {
        start, stop := DayOf(until), DayOf(until);
        NoDays(hourly, before, cursor, DayOf(since), DayOf(until));
        return;
      }
      var first := StartBucket(cursor, DayOf(since), earliest);
      start := first;
      StartIsBeyondTable(daily, cursor, DayOf(since), earliest);
      ok, total, stop := FillDays(first, DayOf(until));
      DaysStarted(hourly, before, cursor, DayOf(since), earliest, DayOf(until));
      if ok {
        AllDays(hourly, before, cursor, DayOf(since), earliest, DayOf(until), stop, daily);
      }
    }

    /** The inner loop of PruneSamples: batches of one sensor's rows, until a batch deletes nothing. */
    method PruneSensor(sensor: Sensor, before: int, batchSize: int) returns (ok: bool, total: int, ghost gone: set<nat>)
      requires UniqueIds(raw)
      modifies `raw, `asked
      ensures Went(answers, old(asked), asked, ok)
      ensures UniqueIds(raw) && raw == Delete(old(raw), gone) && total == |old(raw)| - |raw|
      ensures forall r :: r in old(raw) && r.id in gone ==> IsMatch(r, sensor, before)
      ensures ok && batchSize != 0 ==> forall r :: r in raw ==> !IsMatch(r, sensor, before)
      ensures batchSize == 0 ==> raw == old(raw)
    {
      total, gone := 0, {};
      DeleteNone(raw, gone);
      while true
        invariant UniqueIds(raw) && raw == Delete(old(raw), gone) && total == |old(raw)| - |raw|
        invariant forall r :: r in old(raw) && r.id in gone ==> IsMatch(r, sensor, before)
        invariant batchSize == 0 ==> raw == old(raw)
        invariant Went(answers, old(asked), asked, true)
        decreases |raw|
      {
        ok := Ask();
        if !ok {
          return;
        }
        var ids := PickBatch(raw, sensor, before, batchSize);
        var rows := raw;
        BatchDeletes(rows, ids);
        DeleteTwice(old(raw), gone, ids);
        FilterIn(old(raw), (r: Row) => r.id !in gone);
        raw := Delete(raw, ids);
        var n := |rows| - |raw|;
        gone := gone + ids;
        if n == 0 {
          return;
        }
        total := total + n;
      }
    }

    /** Batched deletion of old raw rows. When nothing fails it is one DELETE of exactly the rows before the cutoff,
        whatever the batch size (but zero) and whichever rows a batch picks; the result counts them. */
    method PruneSamples(before: int, batchSize: int) returns (ok: bool, total: int, ghost gone: set<nat>)
      requires UniqueIds(raw)
      modifies `raw, `asked
      ensures Went(answers, old(asked), asked, ok)
      ensures UniqueIds(raw) && raw == Delete(old(raw), gone) && total == |old(raw)| - |raw|
      ensures forall r :: r in old(raw) && r.id in gone ==> r.time < before
      ensures ok ==> raw == if batchSize != 0 then NotOlder(old(raw), before) else old(raw)
    {
      total, gone := 0, {};
      DeleteNone(raw, gone);
      ok := Ask();
      if !ok {
        return;
      }
      var names := Sensors(raw);
      while names != {}
        invariant UniqueIds(raw) && raw == Delete(old(raw), gone) && total == |old(raw)| - |raw|
        invariant forall r :: r in old(raw) && r.id in gone ==> r.time < before
        invariant batchSize != 0 ==> forall r :: r in raw && r.sensor !in names ==> r.time >= before
        invariant batchSize == 0 ==> raw == old(raw)
        invariant ok && Went(answers, old(asked), asked, true)
        decreases names
      {
        var name :| name in names;
        ghost var rows := raw;
        var n;
        ghost var more;
        ok, n, more := PruneSensor(name, before, batchSize);
        DeleteTwice(old(raw), gone, more);
        FilterIn(old(raw), (r: Row) => r.id !in gone);
        FilterIn(rows, (r: Row) => r.id !in more);
        gone := gone + more;
        total := total + n;
        if !ok {
          return;
        }
        ok := Ask();
        if !ok {
          return;
        }
        names := names - {name};
      }
      if batchSize != 0 {
        PrunedExactly(old(raw), raw, gone, before);
      }
    }

    /** One DELETE of a batch of old hourly rows. */
    method DeleteKeys(before: int, batchSize: int) returns (n: nat, ghost keys: set<Key>)
      modifies `hourly
      ensures hourly == old(hourly) - keys && n == |old(hourly)| - |hourly|
      ensures forall k :: k in keys ==> k.bucket * HOUR < before
      ensures n == 0 <==> batchSize == 0 || forall k :: k in old(hourly) ==> k.bucket * HOUR >= before
      ensures n == 0 ==> hourly == old(hourly)
    {
      var picked := PickKeys(hourly.Keys, before, batchSize);
      var table := hourly;
      KeysDelete(table, picked);
      hourly := hourly - picked;
      n, keys := |table| - |hourly|, picked;
    }

    /** Batched deletion of old hourly rows, with the same promise. */
    method PruneHourly(before: int, batchSize: int) returns (ok: bool, total: int, ghost gone: set<Key>)
      modifies `hourly, `asked
      ensures Went(answers, old(asked), asked, ok)
      ensures hourly == old(hourly) - gone && total == |old(hourly)| - |hourly|
      ensures forall k :: k in gone ==> k.bucket * HOUR < before
      ensures ok && batchSize != 0 ==> forall k :: k in hourly ==> k.bucket * HOUR >= before
      ensures batchSize == 0 ==> hourly == old(hourly)
    {
      total, gone := 0, {};
      while true
        invariant hourly == old(hourly) - gone && total == |old(hourly)| - |hourly|
        invariant forall k :: k in gone ==> k.bucket * HOUR < before
        invariant batchSize == 0 ==> hourly == old(hourly)
        invariant Went(answers, old(asked), asked, true)
        decreases |hourly|
      {
        ok := Ask();
        if !ok {
          return;
        }
        var n;
        ghost var keys;
        n, keys := DeleteKeys(before, batchSize);
        MinusTwice(old(hourly), gone, keys);
        gone := gone + keys;
        if n == 0 {
          return;
        }
        total := total + n;
        ok := Ask();
        if !ok {
          return;
        }
      }
    }

    /** The model's state is the present contents of the tables, between cycles. */
    ghost predicate Mirrors(s: State)
      reads this
    {
      s.raw == raw && s.hourly == hourly && s.daily == daily && s.phase == Idle
    }

    /** The first half of a cycle: hours, and if that succeeds, days. */
    method RollUp(now: int, ghost s: State)
      returns (hoursOk: bool, daysOk: bool, ghost middle: nat, ghost s': State)
      requires Mirrors(s)
      modifies `hourly, `daily, `asked
      ensures Went(answers, old(asked), middle, hoursOk) && middle <= asked
      ensures hoursOk ==> Went(answers, middle, asked, daysOk)
      ensures s'.raw == raw && s'.hourly == hourly && s'.daily == daily && s'.retentionDays == s.retentionDays
      ensures Leads(s, s') && (if daysOk then DaysFinished(s', now) else s'.phase.Idle?)
      ensures hoursOk ==> Complete(HourlyGrouping(raw), old(hourly), HourOf(ZERO_TIME), HourOf(now), hourly)
      ensures !hoursOk ==> daily == old(daily) && !daysOk
      ensures daysOk ==> Complete(DailyGrouping(hourly), old(daily), DayOf(ZERO_TIME), DayOf(now), daily)
    {
      var total;
      ghost var start, stop;
      daysOk := false;
      hoursOk, total, start, stop := AggregateHourly(ZERO_TIME, now);
      middle := asked;
      s' := CycleHours(s, now, start, stop, hourly, total, hoursOk);
      if !hoursOk {
        return;
      }
      ghost var s1 := s';
      daysOk, total, start, stop := AggregateDaily(ZERO_TIME, now);
      s' := CycleDays(s1, start, stop, daily, total, daysOk);
      LeadsOn(s, s1, s');
    }

    /** The second half, for a positive retention: first old raw rows. */
    method PruneOldSamples(now: int, retentionDays: nat, ghost s: State) returns (ok: bool, ghost s': State)
      requires s.raw == raw && s.hourly == hourly && s.daily == daily && UniqueIds(raw)
      requires s.phase == PruningRaw(now) && s.retentionDays == retentionDays > 0
      modifies `raw, `asked
      ensures Went(answers, old(asked), asked, ok)
      ensures s'.raw == raw && s'.hourly == hourly && s'.daily == daily && UniqueIds(raw)
      ensures s'.phase == PruningHourly(now) && Leads(s, s')
      ensures ok ==> raw == NotOlder(old(raw), now - retentionDays * 24 * HOUR)
      ensures SparesRaw(old(raw), raw, now, retentionDays)
    {
      var total;
      ghost var gone;
      ok, total, gone := PruneSamples(now - retentionDays * 24 * HOUR, 1000);
      DeleteSpares(old(raw), gone, now, retentionDays);
      s' := CyclePruneRaw(s, gone);
    }

    /** Then, whether or not that succeeded, old hourly rows. */
    method PruneOldHours(now: int, ghost s: State) returns (ok: bool, ghost s': State)
      requires s.raw == raw && s.hourly == hourly && s.daily == daily && s.phase == PruningHourly(now)
      modifies `hourly, `asked
      ensures Went(answers, old(asked), asked, ok)
      ensures Mirrors(s') && Leads(s, s')
      ensures ok ==> OnlyOlderGone(old(hourly), hourly, now - YEAR_DAYS * 24 * HOUR)
      ensures SparesHourly(old(hourly), hourly, now)
    {
      var total;
      ghost var keys;
      ok, total, keys := PruneHourly(now - YEAR_DAYS * 24 * HOUR, 1000);
      s' := CyclePruneHourly(s, keys);
    }

    method PruneOld(now: int, retentionDays: nat, ghost s: State)
      returns (rawOk: bool, hourlyOk: bool, ghost middle: nat, ghost s': State)
      requires s.raw == raw && s.hourly == hourly && s.daily == daily && UniqueIds(raw)
      requires s.phase == PruningRaw(now) && s.retentionDays == retentionDays > 0
      modifies `raw, `hourly, `asked
      ensures Mirrors(s') && Leads(s, s') && UniqueIds(raw)
      ensures rawOk ==> raw == NotOlder(old(raw), now - retentionDays * 24 * HOUR)
      ensures hourlyOk ==> OnlyOlderGone(old(hourly), hourly, now - YEAR_DAYS * 24 * HOUR)
      ensures Went(answers, old(asked), middle, rawOk) && Went(answers, middle, asked, hourlyOk)
      ensures rawOk && hourlyOk ==> Pruned(now, retentionDays)
      ensures SparesRaw(old(raw), raw, now, retentionDays) && SparesHourly(old(hourly), hourly, now)
    {
      ghost var s1;
      rawOk, s1 := PruneOldSamples(now, retentionDays, s);
      middle := asked;
      NothingOlder(old(raw), raw, now - retentionDays * 24 * HOUR, rawOk);
      hourlyOk, s' := PruneOldHours(now, s1);
      LeadsOn(s, s1, s');
    }

    /** One cycle of the daemon, or its cycle at startup: roll up, and if both aggregations succeed, prune. Whatever
        fails or is cancelled on the way, what the cycle does to the tables is a run of the model; each part that
        succeeds does all of its work, and fails only if one of its own accesses did. */
    method DoAggregate(now: int, retentionDays: nat, ghost s: State)
      returns (hoursOk: bool, daysOk: bool, rawOk: bool, hourlyOk: bool, ghost rolled: Table, ghost marks: Marks,
        ghost s': State)
      requires Mirrors(s) && s.retentionDays == retentionDays && UniqueIds(raw)
      modifies `raw, `hourly, `daily, `asked
      ensures Mirrors(s') && Leads(s, s') && UniqueIds(raw)
      ensures hoursOk ==> Complete(HourlyGrouping(old(raw)), old(hourly), HourOf(ZERO_TIME), HourOf(now), rolled)
      ensures daysOk ==> hoursOk && Complete(DailyGrouping(rolled), old(daily), DayOf(ZERO_TIME), DayOf(now), daily)
      ensures !hoursOk ==> daily == old(daily)
      ensures !daysOk || retentionDays == 0 ==> raw == old(raw) && hourly == rolled && !rawOk && !hourlyOk
      ensures rawOk ==> raw == NotOlder(old(raw), now - retentionDays * 24 * HOUR)
      ensures hourlyOk ==> OnlyOlderGone(rolled, hourly, now - YEAR_DAYS * 24 * HOUR)
      ensures Went(answers, old(asked), marks.hours, hoursOk)
      ensures hoursOk ==> Went(answers, marks.hours, marks.days, daysOk)
      ensures daysOk && retentionDays > 0 ==>
        Went(answers, marks.days, marks.raw, rawOk) && Went(answers, marks.raw, asked, hourlyOk)
      ensures Fine(answers, old(asked), asked) ==> hoursOk && daysOk && (retentionDays > 0 ==> Pruned(now, retentionDays))
      ensures SparesRaw(old(raw), raw, now, retentionDays) && SparesHourly(rolled, hourly, now)
    {
      rawOk, hourlyOk := false, false;
      ghost var middle;
      hoursOk, daysOk, middle, s' := RollUp(now, s);
      marks := Marks(middle, asked, asked);
      rolled := hourly;
      if daysOk {
        ghost var s1, s2 := s', Apply(s', DailyDone);
        LeadsByStep(s1, DailyDone);
        LeadsOn(s, s1, s2);
        s' := s2;
        if retentionDays > 0 {
          ghost var middle;
          rawOk, hourlyOk, middle, s' := PruneOld(now, retentionDays, s2);
          marks := marks.(raw := middle);
          LeadsOn(s, s2, s');
        }
      }
      PartsAreFine(answers, old(asked), marks.hours, marks.days, hoursOk, daysOk);
      if daysOk && retentionDays > 0 {
        PartsAreFine(answers, marks.days, marks.raw, asked, rawOk, hourlyOk);
      }
    }

    /** No raw row is older than the retention, and no hourly row older than 365 days. */
    ghost predicate Pruned(now: int, retentionDays: nat)
      reads this
    {
      && (forall r :: r in raw ==> r.time >= now - retentionDays * 86_400_000_000_000)
      && (forall k :: k in hourly ==> k.bucket * 3_600_000_000_000 >= now - 365 * 86_400_000_000_000)
    }
  }

  /** No raw row from within the retention is gone. */
  ghost predicate SparesRaw(before: seq<Row>, after: seq<Row>, now: int, retentionDays: nat) {
    forall r :: r in before && r.time >= now - retentionDays * 86_400_000_000_000 ==> r in after
  }

  /** No hourly row of the last 365 days is gone or changed. */
  ghost predicate SparesHourly(before: Table, after: Table, now: int) {
    forall k :: k in before && k.bucket * 3_600_000_000_000 >= now - 365 * 86_400_000_000_000 ==>
      k in after && after[k] == before[k]
  }

  lemma DeleteSpares(rows: seq<Row>, gone: set<nat>, now: int, retentionDays: nat)
    requires forall r :: r in rows && r.id in gone ==> r.time < now - retentionDays * 24 * HOUR
    ensures SparesRaw(rows, Delete(rows, gone), now, retentionDays)
  {
    FilterIn(rows, (r: Row) => r.id !in gone);
  }

  /** How many accesses had been made after the first three parts of a cycle. */
  datatype Marks = Marks(hours: nat, days: nat, raw: nat)

  lemma PartsAreFine(answers: Answers, start: nat, middle: nat, end: nat, first: bool, second: bool)
    requires Went(answers, start, middle, first) && middle <= end && (first ==> Went(answers, middle, end, second))
    ensures Fine(answers, start, end) ==> first && second
  {
    FineMeansOk(answers, start, middle, first);
    if first {
      FineMeansOk(answers, middle, end, second);
    }
  }

  lemma NothingOlder(before: seq<Row>, after: seq<Row>, cutoff: int, ok: bool)
    requires ok ==> after == NotOlder(before, cutoff)
    ensures ok ==> forall r :: r in after ==> r.time >= cutoff
  {
    FilterIn(before, (r: Row) => r.time >= cutoff);
  }

  ghost predicate DaysFinished(s: State, now: int) {
    s.phase.DailyLoop? && s.phase.until == now && s.phase.day >= DayOf(now)
  }

  /** The later table is the earlier one without its buckets that start before the cutoff. */
  ghost predicate OnlyOlderGone(earlier: Table, later: Table, before: int) {
    && later.Keys <= earlier.Keys
    && (forall k :: k in earlier ==> (k in later <==> k.bucket * HOUR >= before))
    && (forall k :: k in later ==> later[k] == earlier[k])
  }

  /** January 1 of the year 1, the zero value of a Go time. */
  const ZERO_TIME := -62_135_596_800_000_000_000

  lemma CycleHours(s: State, now: int, start: int, stop: int, table: Table, total: int, ok: bool) returns (s': State)
    requires s.phase == Idle
    requires Filled(HourlyGrouping(s.raw), s.hourly, table, start, stop, HourOf(now), total, ok)
    requires start < stop || ok ==> StartedAt(s.hourly, HoursOf(s.raw), HourOf(ZERO_TIME), HourOf(now), start)
    ensures Leads(s, s') && s'.raw == s.raw && s'.hourly == table && s'.daily == s.daily
    ensures s'.retentionDays == s.retentionDays
    ensures s'.phase == if ok then HourlyLoop(stop, now) else Idle
    ensures ok ==> stop >= HourOf(now)
  {
    if start < stop || ok {
      var first := StartOfHours(s, now, start);
      var s1 := Apply(s, StartCycle(now, first));
      LeadsByStep(s, StartCycle(now, first));
      var s2 := HourlySteps(s1, stop);
      LeadsOn(s, s1, s2);
      s' := s2;
      if !ok {
        s' := Apply(s2, Stop);
        LeadsByStep(s2, Stop);
        LeadsOn(s, s2, s');
      }
    } else {
      s' := s;
      ReachesSelf(Enabled, Apply, s);
    }
  }

  lemma StartOfHours(s: State, now: int, start: int) returns (first: int)
    requires s.phase == Idle && StartedAt(s.hourly, HoursOf(s.raw), HourOf(ZERO_TIME), HourOf(now), start)
    ensures Enabled(s, StartCycle(now, first)) && start == if s.raw == [] then HourOf(now) else first
  {
    var cursor, earliest :| IsCursor(s.hourly, cursor) && IsEarliest(earliest, HoursOf(s.raw))
      && start == if HoursOf(s.raw) == {} then HourOf(now) else StartBucket(cursor, HourOf(ZERO_TIME), earliest);
    first := StartBucket(cursor, ZERO_HOUR, earliest);
    if s.raw != [] {
      assert HourOf(s.raw[0].time) in HoursOf(s.raw);
    }
  }

  lemma CycleDays(s: State, start: int, stop: int, table: Table, total: int, ok: bool) returns (s': State)
    requires s.phase.HourlyLoop? && s.phase.hour >= HourOf(s.phase.until)
    requires Filled(DailyGrouping(s.hourly), s.daily, table, start, stop, DayOf(s.phase.until), total, ok)
    requires start < stop || ok ==>
      StartedAt(s.daily, DaysOf(s.hourly), DayOf(ZERO_TIME), DayOf(s.phase.until), start)
    ensures Leads(s, s') && s'.raw == s.raw && s'.hourly == s.hourly && s'.daily == table
    ensures s'.retentionDays == s.retentionDays
    ensures s'.phase == if ok then DailyLoop(stop, s.phase.until) else Idle
    ensures ok ==> stop >= DayOf(s.phase.until)
  {
    if start < stop || ok {
      var first := StartOfDays(s, start);
      var s1 := Apply(s, HourlyDone(first));
      LeadsByStep(s, HourlyDone(first));
      var s2 := DailySteps(s1, stop);
      LeadsOn(s, s1, s2);
      s' := s2;
      if !ok {
        s' := Apply(s2, Stop);
        LeadsByStep(s2, Stop);
        LeadsOn(s, s2, s');
      }
    } else {
      s' := Apply(s, Stop);
      LeadsByStep(s, Stop);
    }
  }

  lemma StartOfDays(s: State, start: int) returns (first: int)
    requires s.phase.HourlyLoop? && s.phase.hour >= HourOf(s.phase.until)
    requires StartedAt(s.daily, DaysOf(s.hourly), DayOf(ZERO_TIME), DayOf(s.phase.until), start)
    ensures Enabled(s, HourlyDone(first)) && start == if s.hourly == map[] then DayOf(s.phase.until) else first
  {
    var cursor, earliest :| IsCursor(s.daily, cursor) && IsEarliest(earliest, DaysOf(s.hourly))
      && start == if DaysOf(s.hourly) == {} then DayOf(s.phase.until) else StartBucket(cursor, DayOf(ZERO_TIME), earliest);
    first := StartBucket(cursor, ZERO_DAY, earliest);
    if s.hourly != map[] {
      var k :| k in s.hourly;
      assert k.bucket / 24 in DaysOf(s.hourly);
    }
  }

  lemma CyclePruneRaw(s: State, gone: set<nat>) returns (s': State)
    requires s.phase.PruningRaw? && s.retentionDays >= 1
    requires forall r :: r in s.raw && r.id in gone ==> r.time < s.phase.until - s.retentionDays * 24 * HOUR
    ensures Leads(s, s') && s'.raw == Delete(s.raw, gone) && s'.hourly == s.hourly && s'.daily == s.daily
    ensures s'.phase == PruningHourly(s.phase.until)
  {
    var s1 := Apply(s, DeleteRaw(gone));
    LeadsByStep(s, DeleteRaw(gone));
    s' := Apply(s1, RawDone);
    LeadsByStep(s1, RawDone);
    LeadsOn(s, s1, s');
  }

  lemma CyclePruneHourly(s: State, gone: set<Key>) returns (s': State)
    requires s.phase.PruningHourly?
    requires forall k :: k in gone ==> k.bucket * HOUR < s.phase.until - YEAR_DAYS * 24 * HOUR
    ensures Leads(s, s') && s'.raw == s.raw && s'.hourly == s.hourly - gone && s'.daily == s.daily
    ensures s'.phase == Idle
  {
    var s1 := Apply(s, DeleteHourly(gone));
    LeadsByStep(s, DeleteHourly(gone));
    s' := Apply(s1, Stop);
    LeadsByStep(s1, Stop);
    LeadsOn(s, s1, s');
  }

  /** SELECT sensor_name, bucket_start ... LIMIT: some matching keys, as many as the limit allows. */
  method PickKeys(keys: set<Key>, before: int, limit: int) returns (picked: set<Key>)
    ensures picked <= keys && forall k :: k in picked ==> k.bucket * HOUR < before
    ensures limit >= 0 ==> |picked| <= limit
    ensures picked == {} <==> limit == 0 || forall k :: k in keys ==> k.bucket * HOUR >= before
  {
    picked := {};
    var rest := keys;
    while rest != {}
      invariant picked <= keys && rest <= keys && forall k :: k in picked ==> k.bucket * HOUR < before
      invariant limit >= 0 ==> |picked| <= limit
      invariant picked == {} <==> limit == 0 || forall k :: k in keys - rest ==> k.bucket * HOUR >= before
      decreases rest
    {
      var k :| k in rest;
      if k.bucket * HOUR < before && (limit < 0 || |picked| < limit) {
        picked := picked + {k};
      }
      rest := rest - {k};
    }
  }

  lemma MinusTwice(table: Table, a: set<Key>, b: set<Key>)
    ensures (table - a) - b == table - (a + b)
  {
  }

  lemma KeysDelete(table: Table, keys: set<Key>)
    requires keys <= table.Keys
    ensures |table - keys| == |table| - |keys|
    ensures |keys| == 0 <==> keys == {}
  {
    assert (table - keys).Keys == table.Keys - keys;
  }

  lemma PrunedExactly(rows: seq<Row>, left: seq<Row>, gone: set<nat>, before: int)
    requires left == Delete(rows, gone)
    requires forall r :: r in rows && r.id in gone ==> r.time < before
    requires forall r :: r in left ==> r.time >= before
    ensures left == NotOlder(rows, before)
  {
    FilterIn(rows, (r: Row) => r.id !in gone);
    FilterAgree(rows, (r: Row) => r.id !in gone, (r: Row) => r.time >= before);
  }

  /** A batch deletes something exactly when it is not empty. */
  lemma BatchDeletes(rows: seq<Row>, ids: set<nat>)
    requires forall id :: id in ids ==> exists r :: r in rows && r.id == id
    ensures |Delete(rows, ids)| <= |rows|
    ensures |Delete(rows, ids)| == |rows| <==> ids == {}
    ensures UniqueIds(rows) ==> UniqueIds(Delete(rows, ids))
    ensures ids == {} ==> Delete(rows, ids) == rows
  {
    FilterCounts(rows, (r: Row) => r.id !in ids);
    FilterIn(rows, (r: Row) => r.id !in ids);
    if ids == {} {
      DeleteNone(rows, ids);
    }
  }

  /** Where an aggregation loop started, in terms of the table and the source it found. */
  ghost predicate StartedAt(table: Table, sources: set<int>, since: int, end: int, start: int) {
    exists cursor, earliest :: IsCursor(table, cursor) && IsEarliest(earliest, sources)
      && start == if sources == {} then end else StartBucket(cursor, since, earliest)
  }

  /** The table of a loop over all buckets from the cursor or `since` to the end. */
  ghost predicate Complete(group: int -> Groups, table: Table, since: int, end: int, table': Table) {
    exists cursor :: IsCursor(table, cursor) && table' == Fill(group, table, StartBucket(cursor, since, None), end)
  }

  lemma HoursStarted(rows: seq<Row>, table: Table, cursor: int, since: int, earliest: Option<int>, end: int)
    requires rows != [] && IsCursor(table, cursor) && IsEarliest(earliest, HoursOf(rows))
    ensures StartedAt(table, HoursOf(rows), since, end, StartBucket(cursor, since, earliest))
  {
    assert HourOf(rows[0].time) in HoursOf(rows);
  }

  lemma DaysStarted(hourly: Table, table: Table, cursor: int, since: int, earliest: Option<int>, end: int)
    requires hourly != map[] && IsCursor(table, cursor) && IsEarliest(earliest, DaysOf(hourly))
    ensures StartedAt(table, DaysOf(hourly), since, end, StartBucket(cursor, since, earliest))
  {
    var k :| k in hourly;
    assert k.bucket / 24 in DaysOf(hourly);
  }

  lemma NoHours(rows: seq<Row>, table: Table, cursor: int, since: int, end: int)
    requires rows == [] && IsCursor(table, cursor)
    ensures StartedAt(table, HoursOf(rows), since, end, end)
    ensures Complete(HourlyGrouping(rows), table, since, end, table)
  {
    assert IsEarliest(None, HoursOf(rows));
    var first := StartBucket(cursor, since, None);
    FillSkips(HourlyGrouping(rows), table, first, Max(first, end), end);
  }

  lemma AllBuckets(
    group: int -> Groups, table: Table, cursor: int, since: int, earliest: Option<int>, first: int, end: int, t: int,
    table': Table)
    requires IsCursor(table, cursor) && EarliestFor(group, earliest) && first == StartBucket(cursor, since, earliest)
    requires end <= t && table' == Fill(group, table, first, t)
    requires first < t ==> t <= end
    ensures Complete(group, table, since, end, table')
  {
    ClampIsInvisible(group, table, cursor, since, earliest, end);
  }

  lemma AllHours(
    rows: seq<Row>, table: Table, cursor: int, since: int, earliest: Option<int>, end: int, t: int, table': Table)
    requires IsCursor(table, cursor) && IsEarliest(earliest, HoursOf(rows))
    requires end <= t && table' == Fill(HourlyGrouping(rows), table, StartBucket(cursor, since, earliest), t)
    requires StartBucket(cursor, since, earliest) < t ==> t <= end
    ensures Complete(HourlyGrouping(rows), table, since, end, table')
  {
    EarliestHour(rows, earliest);
    AllBuckets(HourlyGrouping(rows), table, cursor, since, earliest, StartBucket(cursor, since, earliest), end, t, table');
  }

  lemma NoDays(hourly: Table, table: Table, cursor: int, since: int, end: int)
    requires hourly == map[] && IsCursor(table, cursor)
    ensures StartedAt(table, DaysOf(hourly), since, end, end)
    ensures Complete(DailyGrouping(hourly), table, since, end, table)
  {
    assert IsEarliest(None, DaysOf(hourly));
    var first := StartBucket(cursor, since, None);
    FillSkips(DailyGrouping(hourly), table, first, Max(first, end), end);
  }

  lemma AllDays(
    hourly: Table, table: Table, cursor: int, since: int, earliest: Option<int>, end: int, t: int, table': Table)
    requires IsCursor(table, cursor) && IsEarliest(earliest, DaysOf(hourly))
    requires end <= t && table' == Fill(DailyGrouping(hourly), table, StartBucket(cursor, since, earliest), t)
    requires StartBucket(cursor, since, earliest) < t ==> t <= end
    ensures Complete(DailyGrouping(hourly), table, since, end, table')
  {
    EarliestDay(hourly, earliest);
    AllBuckets(DailyGrouping(hourly), table, cursor, since, earliest, StartBucket(cursor, since, earliest), end, t, table');
  }

  /** What a cycle leaves is again a state a new installation can get into, and it keeps every daily row. */
  lemma CycleStaysReachable(s: State, s': State)
    requires Reachable(s) && Leads(s, s')
    ensures Reachable(s') && DaysKept(s, s')
  {
    ReachableInv(s);
    var days, before :| IsRun(days, before, s);
    var after: seq<Action> :| Legal(Enabled, Apply, s, after) && Exec(Apply, s, after) == s';
    ExecAppend(Enabled, Apply, Init(days), before, after);
    assert IsRun(days, before + after, s');
    RunsKeepDays(s, after);
  }
}
