/** Which samples the rollup counts: exactly those that are timely, between cycles and during an hourly loop. */
module Timeliness {
  import opened Options
  import opened Rollup
  import opened Retention
  import opened Runs

  // ---------------------------------------------------------------- what the next aggregation visits

  lemma HoursArePositive(s: State, k: Key)
    requires Inv(s) && k in s.hourly
    ensures k.bucket >= 24
  {
    BackedAt(s, k);
    SummariseNothing(s.ledger, k.sensor, k.bucket, k.bucket + 1);
    var r :| r in s.ledger && Selected(r, k.sensor, k.bucket, k.bucket + 1);
  }

  /** The hourly loop of a cycle up to `until` goes through a stored sample's hour if and only if it lies after the
      cursor and is over by then. */
  lemma NextAggregationVisits(s: State, row: Row, cursor: int, start: int, until: int)
    requires Reachable(s) && row in s.raw && IsCursor(s.hourly, cursor) && StartsHourly(s, start)
    ensures start <= HourOf(row.time) < HourOf(until) <==> cursor < HourOf(row.time) < HourOf(until)
  {
    ReachableInv(s);
    var c, earliest :| IsCursor(s.hourly, c) && IsEarliest(earliest, HoursOf(s.raw))
      && start == StartBucket(c, ZERO_HOUR, earliest);
    assert c == cursor;
    if s.hourly != map[] {
      var k :| k in s.hourly && k.bucket == cursor;
      HoursArePositive(s, k);
    }
    assert HourOf(row.time) in HoursOf(s.raw);
  }

  /** The same of the daily loop and the days of the hourly table. */
  lemma NextDailyAggregationVisits(s: State, k: Key, cursor: int, start: int, until: int)
    requires Reachable(s) && k in s.hourly && IsCursor(s.daily, cursor) && StartsDaily(s, start)
    ensures start <= k.bucket / 24 < DayOf(until) <==> cursor < k.bucket / 24 < DayOf(until)
  {
    ReachableInv(s);
    var c, earliest :| IsCursor(s.daily, c) && IsEarliest(earliest, DaysOf(s.hourly))
      && start == StartBucket(c, ZERO_DAY, earliest);
    assert c == cursor;
    if s.daily != map[] {
      var d :| d in s.daily && d.bucket == cursor;
      NoEarlyDay(s, d);
    }
    assert k.bucket / 24 in DaysOf(s.hourly);
  }

  // ---------------------------------------------------------------- a day that has been passed

  /** The day is behind the daily cursor or before 1970-01-02, and no cycle will come back to it. */
  ghost predicate DayPassed(s: State, day: int) {
    && 24 * day + 24 <= s.hoursDone
    && if day < 1 then DaysFrom(s, 1) else !Below(s.daily, day) && LoopBeyond(s.phase, day + 1)
  }

  predicate LoopBeyond(phase: Phase, day: int) {
    phase.DailyLoop? ==> phase.day >= day || phase.day >= DayOf(phase.until)
  }

  ghost predicate DaysFrom(s: State, day: int) {
    (forall k :: k in s.daily ==> k.bucket >= day) && LoopBeyond(s.phase, day)
  }

  lemma StartsBeyond(s: State, start: int, day: int)
    requires StartsDaily(s, start) && DayPassed(s, day)
    ensures start >= Max(day, 0) + 1
  {
    var cursor, earliest :| IsCursor(s.daily, cursor) && IsEarliest(earliest, DaysOf(s.hourly))
      && start == StartBucket(cursor, ZERO_DAY, earliest);
  }

  /** No numeric sample of a passed day is timely, and none is forgotten. */
  lemma StepKeepsPassed(s: State, a: Action, day: int)
    requires DayPassed(s, day) && Enabled(s, a)
    ensures DayPassed(Apply(s, a), day)
  {
    if a.HourlyDone? {
      StartsBeyond(s, a.start, day);
    }
    if day >= 1 {
      var k :| k in s.daily && k.bucket >= day;
      assert k in Apply(s, a).daily;
    }
  }

  lemma StepLeavesRow(s: State, a: Action, k: Key)
    requires DayPassed(s, k.bucket) && Enabled(s, a)
    ensures var s' := Apply(s, a);
      && (k in s'.daily <==> k in s.daily)
      && (k in s.daily ==> s'.daily[k] == s.daily[k])
  {
  }

  lemma StepLeavesLedger(s: State, a: Action, sensor: Sensor, day: int)
    requires DayPassed(s, day) && Enabled(s, a)
    ensures Summarise(Apply(s, a).ledger, sensor, 24 * day, 24 * day + 24)
      == Summarise(s.ledger, sensor, 24 * day, 24 * day + 24)
  {
    if a.Insert? {
      SummariseAppend(s.ledger, a.row, sensor, 24 * day, 24 * day + 24);
    } else if a.Purge? {
      SummariseFilter(s.ledger, (r: Row) => r.id !in a.ids || HourOf(r.time) < s.hoursDone,
        sensor, 24 * day, 24 * day + 24);
    }
  }

  // ---------------------------------------------------------------- a state less one sample

  /** The longer list has the row once more. */
  ghost predicate OneMore(fewer: seq<Row>, more: seq<Row>, row: Row) {
    exists i :: 0 <= i <= |fewer| && more == fewer[..i] + [row] + fewer[i..]
  }

  lemma {:induction false} FilterConcat(a: seq<Row>, b: seq<Row>, p: Row -> bool)
    ensures Filter(a + b, p) == Filter(a, p) + Filter(b, p)
    decreases b
  {
    if b == [] {
      assert a + b == a;
    } else {
      var n := |b| - 1;
      assert (a + b)[..|a + b| - 1] == a + b[..n];
      FilterConcat(a, b[..n], p);
    }
  }

  lemma FilterOneMore(fewer: seq<Row>, more: seq<Row>, row: Row, p: Row -> bool)
    requires OneMore(fewer, more, row)
    ensures if p(row) then OneMore(Filter(fewer, p), Filter(more, p), row) else Filter(more, p) == Filter(fewer, p)
  {
    var i :| 0 <= i <= |fewer| && more == fewer[..i] + [row] + fewer[i..];
    var a, b := fewer[..i], fewer[i..];
    assert fewer == a + b;
    FilterConcat(a, b, p);
    FilterConcat(a + [row], b, p);
    FilterAppend(a, row, p);
    var k := |Filter(a, p)|;
    assert Filter(fewer, p)[..k] == Filter(a, p) && Filter(fewer, p)[k..] == Filter(b, p);
  }

  lemma AppendOneMore(fewer: seq<Row>, more: seq<Row>, row: Row, r: Row)
    requires OneMore(fewer, more, row)
    ensures OneMore(fewer + [r], more + [r], row)
  {
    var i :| 0 <= i <= |fewer| && more == fewer[..i] + [row] + fewer[i..];
    assert (fewer + [r])[..i] == fewer[..i] && (fewer + [r])[i..] == fewer[i..] + [r];
    assert more + [r] == (fewer + [r])[..i] + [row] + (fewer + [r])[i..];
  }

  lemma OneMoreIn(fewer: seq<Row>, more: seq<Row>, row: Row)
    requires OneMore(fewer, more, row)
    ensures forall r :: r in more <==> r in fewer || r == row
  {
    var i :| 0 <= i <= |fewer| && more == fewer[..i] + [row] + fewer[i..];
    assert fewer == fewer[..i] + fewer[i..];
  }

  lemma {:induction false} SummariseConcat(a: seq<Row>, b: seq<Row>, s: Sensor, i: int, j: int)
    ensures Summarise(a + b, s, i, j) == Merge(Summarise(a, s, i, j), Summarise(b, s, i, j))
    decreases b
  {
    if b == [] {
      assert a + b == a;
    } else {
      var n := |b| - 1;
      assert (a + b)[..|a + b| - 1] == a + b[..n];
      SummariseConcat(a, b[..n], s, i, j);
      if b[n].value.Some? {
        MergeLaws(Summarise(a, s, i, j), Summarise(b[..n], s, i, j), Single(b[n].value.value));
      }
    }
  }

  lemma SummariseOneMore(fewer: seq<Row>, more: seq<Row>, row: Row, s: Sensor, i: int, j: int)
    requires OneMore(fewer, more, row)
    ensures Summarise(more, s, i, j) ==
      if Selected(row, s, i, j) then Merge(Summarise(fewer, s, i, j), Single(row.value.value))
      else Summarise(fewer, s, i, j)
  {
    var at :| 0 <= at <= |fewer| && more == fewer[..at] + [row] + fewer[at..];
    var a, b := fewer[..at], fewer[at..];
    assert fewer == a + b;
    SummariseConcat(a, b, s, i, j);
    SummariseConcat(a + [row], b, s, i, j);
    SummariseAppend(a, row, s, i, j);
    if Selected(row, s, i, j) {
      var x, y, v := Summarise(a, s, i, j), Summarise(b, s, i, j), Single(row.value.value);
      MergeLaws(x, v, y);
      MergeLaws(x, y, v);
      MergeLaws(v, y, x);
    }
  }

  /** One state is another without one of its samples, which may already be gone from the raw table. */
  ghost predicate Lacks(u: State, t: State, row: Row) {
    && u == t.(raw := u.raw, ledger := u.ledger)
    && OneMore(u.ledger, t.ledger, row)
    && (u.raw == t.raw || OneMore(u.raw, t.raw, row))
  }

  lemma SameGroups(u: State, t: State, row: Row, hour: int)
    requires Lacks(u, t, row) && HourOf(row.time) != hour
    ensures HourGroups(u.raw, hour) == HourGroups(t.raw, hour)
  {
    forall sensor
      ensures sensor in HourGroups(u.raw, hour) <==> sensor in HourGroups(t.raw, hour)
      ensures sensor in HourGroups(u.raw, hour) ==> HourGroups(u.raw, hour)[sensor] == HourGroups(t.raw, hour)[sensor]
    {
      HourGroupsAre(u.raw, hour, sensor);
      HourGroupsAre(t.raw, hour, sensor);
      if u.raw != t.raw {
        SummariseOneMore(u.raw, t.raw, row, sensor, hour, hour + 1);
      }
    }
  }

  lemma RawWithin(u: State, t: State, row: Row)
    requires Lacks(u, t, row)
    ensures forall r :: r in u.raw ==> r in t.raw
  {
    if u.raw != t.raw {
      OneMoreIn(u.raw, t.raw, row);
    }
  }

  /** Deleting rows by some test that the row of the ledger passes. */
  lemma FilteredLacks(u: State, t: State, row: Row, p: Row -> bool, q: Row -> bool) returns (u': State)
    requires Lacks(u, t, row) && q(row)
    ensures u' == u.(raw := Filter(u.raw, p), ledger := Filter(u.ledger, q))
    ensures Lacks(u', t.(raw := Filter(t.raw, p), ledger := Filter(t.ledger, q)), row)
  {
    u' := u.(raw := Filter(u.raw, p), ledger := Filter(u.ledger, q));
    FilterOneMore(u.ledger, t.ledger, row, q);
    if u.raw != t.raw {
      FilterOneMore(u.raw, t.raw, row, p);
    }
  }

  // ---------------------------------------------------------------- a sample whose hour has been passed

  /** Without the sample the state would be right, its day is still open, and its hour is behind the hourly cursor. */
  ghost predicate HourMissed(u: State, t: State, row: Row) {
    && row.value.Some? && HourOf(row.time) >= 24
    && Lacks(u, t, row) && Inv(u)
    && !Below(t.hourly, HourOf(row.time)) && Below(t.daily, DayOf(row.time))
  }

  lemma InsertKeepsMissed(u: State, t: State, row: Row, r: Row) returns (u': State)
    requires Lacks(u, t, row) && Inv(u) && Enabled(t, Insert(r))
    ensures Lacks(u', Apply(t, Insert(r)), row) && Inv(u')
  {
    u' := Apply(u, Insert(r));
    assert Timely(u, r);
    InsertKeeps(u, r);
    AppendOneMore(u.ledger, t.ledger, row, r);
    if u.raw != t.raw {
      AppendOneMore(u.raw, t.raw, row, r);
    }
  }

  lemma PurgeKeepsMissed(u: State, t: State, row: Row, ids: set<nat>) returns (u': State)
    requires HourMissed(u, t, row)
    ensures Lacks(u', Apply(t, Purge(ids)), row) && Inv(u')
  {
    PurgeKeeps(u, ids);
    u' := FilteredLacks(u, t, row,
      (r: Row) => r.id !in ids, (r: Row) => r.id !in ids || HourOf(r.time) < u.hoursDone);
  }

  lemma StartKeepsMissed(u: State, t: State, row: Row, until: int, start: int) returns (u': State)
    requires HourMissed(u, t, row) && Enabled(t, StartCycle(until, start))
    ensures Lacks(u', Apply(t, StartCycle(until, start)), row) && Inv(u')
  {
    var first := if t.raw == [] then HourOf(until) else start;
    u' := Started(u, until, first);
    var cursor, earliest :| IsCursor(t.hourly, cursor) && IsEarliest(earliest, HoursOf(t.raw))
      && start == StartBucket(cursor, ZERO_HOUR, earliest);
    StartIsBeyondTable(u.hourly, cursor, ZERO_HOUR, earliest);
    RawWithin(u, t, row);
    forall r | r in u.raw && NumericFrom(r, u.hoursDone) ensures HourOf(r.time) >= Min(first, HourOf(until)) {
      assert HourOf(r.time) in HoursOf(t.raw);
    }
    StartedKeeps(u, until, first);
  }

  lemma StatementKeepsMissed(u: State, t: State, row: Row) returns (u': State)
    requires Lacks(u, t, row) && Inv(u) && Enabled(t, HourStatement) && HourOf(row.time) != t.phase.hour
    ensures Lacks(u', Apply(t, HourStatement), row) && Inv(u')
  {
    SameGroups(u, t, row, t.phase.hour);
    u' := Apply(u, HourStatement);
    HourStatementKeeps(u);
  }

  lemma DeleteRawKeepsMissed(u: State, t: State, row: Row, ids: set<nat>) returns (u': State)
    requires HourMissed(u, t, row) && Enabled(t, DeleteRaw(ids))
    ensures Lacks(u', Apply(t, DeleteRaw(ids)), row) && Inv(u')
  {
    RawWithin(u, t, row);
    u' := Apply(u, DeleteRaw(ids));
    DeleteRawKeeps(u, ids);
    if u.raw != t.raw {
      FilterOneMore(u.raw, t.raw, row, (r: Row) => r.id !in ids);
    }
  }

  /** The hourly rows at or after the missed hour are not pruned: their days have not been rolled up. */
  lemma DeleteHourlyKeepsMissed(u: State, t: State, row: Row, keys: set<Key>) returns (u': State)
    requires HourMissed(u, t, row) && Enabled(t, DeleteHourly(keys))
    ensures Lacks(u', Apply(t, DeleteHourly(keys)), row) && Inv(u')
    ensures !Below(Apply(t, DeleteHourly(keys)).hourly, HourOf(row.time))
  {
    u' := Apply(u, DeleteHourly(keys));
    DeleteHourlyKeeps(u, keys);
    var k :| k in t.hourly && k.bucket >= HourOf(row.time);
    if k in keys {
      PrunedHourIsDaily(u, keys, k);
    } else {
      assert k in Apply(t, DeleteHourly(keys)).hourly;
    }
  }

  lemma PrunedHourIsDaily(s: State, keys: set<Key>, k: Key)
    requires Inv(s) && Enabled(s, DeleteHourly(keys)) && k in s.hourly && k in keys
    ensures Key(k.sensor, k.bucket / 24) in s.daily
  {
    CutoffHour(k.bucket * HOUR, s.phase.until, YEAR_DAYS);
    var d := k.bucket / 24;
    assert DayMatches(s.daily, s.ledger, k.sensor, d);
    SummariseSplit(s.ledger, k.sensor, 24 * d, k.bucket, 24 * d + 24);
    SummariseSplit(s.ledger, k.sensor, k.bucket, k.bucket + 1, 24 * d + 24);
    BackedAt(s, k);
  }

  /** The other steps do not look at samples. */
  lemma OtherKeepsMissed(u: State, t: State, row: Row, a: Action) returns (u': State)
    requires HourMissed(u, t, row) && Enabled(t, a)
    requires a.HourlyDone? || a.DayStatement? || a.DailyDone? || a.RawDone? || a.Stop? || a.Restart?
    ensures Lacks(u', Apply(t, a), row) && Inv(u')
  {
    u' := Apply(u, a);
    if a.HourlyDone? {
      HourlyDoneKeeps(u, a.start);
    } else if a.DayStatement? {
      DayStatementKeeps(u);
    }
  }

  lemma HourlyOnlyGrows(t: State, a: Action, hour: int)
    requires Enabled(t, a) && !a.DeleteHourly? && !Below(t.hourly, hour)
    ensures !Below(Apply(t, a).hourly, hour)
  {
    var k :| k in t.hourly && k.bucket >= hour;
    assert k in Apply(t, a).hourly;
  }

  /** Every step leaves a state that would be right without the sample, and its hour behind the cursor. */
  lemma StepKeepsMissed(u: State, t: State, row: Row, a: Action) returns (u': State)
    requires HourMissed(u, t, row) && Enabled(t, a)
    ensures Lacks(u', Apply(t, a), row) && Inv(u')
    ensures !Below(Apply(t, a).hourly, HourOf(row.time))
  {
    if a.DeleteHourly? {
      u' := DeleteHourlyKeepsMissed(u, t, row, a.keys);
    } else {
      u' := RowsKeptMissed(u, t, row, a);
      HourlyOnlyGrows(t, a, HourOf(row.time));
    }
  }

  lemma RowsKeptMissed(u: State, t: State, row: Row, a: Action) returns (u': State)
    requires HourMissed(u, t, row) && Enabled(t, a) && !a.DeleteHourly?
    ensures Lacks(u', Apply(t, a), row) && Inv(u')
  {
    match a
    case Insert(r) => u' := InsertKeepsMissed(u, t, row, r);
    case Purge(ids) => u' := PurgeKeepsMissed(u, t, row, ids);
    case StartCycle(until, start) => u' := StartKeepsMissed(u, t, row, until, start);
    case HourStatement => u' := StatementKeepsMissed(u, t, row);
    case DeleteRaw(ids) => u' := DeleteRawKeepsMissed(u, t, row, ids);
    case _ => u' := OtherKeepsMissed(u, t, row, a);
  }

  // ---------------------------------------------------------------- a lost sample

  /** The sample is not, and will not be, in a daily row. */
  ghost predicate Lost(t: State, row: Row) {
    || (exists u :: HourMissed(u, t, row))
    || (DayPassed(t, DayOf(row.time)) && !DayMatches(t.daily, t.ledger, row.sensor, DayOf(row.time)))
  }

  lemma MissedIsWrong(u: State, t: State, row: Row)
    requires HourMissed(u, t, row)
    ensures !DayMatches(t.daily, t.ledger, row.sensor, DayOf(row.time))
  {
    var d := DayOf(row.time);
    SummariseOneMore(u.ledger, t.ledger, row, row.sensor, 24 * d, 24 * d + 24);
  }

  /** When the day of a missed hour is rolled up, it is rolled up without the sample. */
  lemma RolledUpWithout(u: State, t: State, row: Row)
    requires Lacks(u, t, row) && Inv(u) && row.value.Some? && HourOf(row.time) >= 24
    requires !Below(t.daily, DayOf(row.time))
    ensures Lost(t, row)
  {
    var d := DayOf(row.time);
    assert d < u.daysDone;
    assert DayMatches(u.daily, u.ledger, row.sensor, d);
    SummariseOneMore(u.ledger, t.ledger, row, row.sensor, 24 * d, 24 * d + 24);
  }

  lemma StepKeepsLost(t: State, row: Row, a: Action)
    requires Lost(t, row) && Enabled(t, a)
    ensures Lost(Apply(t, a), row)
  {
    var d, t' := DayOf(row.time), Apply(t, a);
    if u :| HourMissed(u, t, row) {
      var u' := StepKeepsMissed(u, t, row, a);
      if Below(t'.daily, d) {
        assert HourMissed(u', t', row);
      } else {
        RolledUpWithout(u', t', row);
      }
    } else {
      StepKeepsPassed(t, a, d);
      StepLeavesRow(t, a, Key(row.sensor, d));
      StepLeavesLedger(t, a, row.sensor, d);
    }
  }

  lemma RunKeepsLost(t: State, row: Row, after: seq<Action>)
    requires Lost(t, row) && Legal(Enabled, Apply, t, after)
    ensures Lost(Exec(Apply, t, after), row)
    ensures !DayMatches(Exec(Apply, t, after).daily, Exec(Apply, t, after).ledger, row.sensor, DayOf(row.time))
  {
    var lost := (x: State) => Lost(x, row);
    forall x, a | lost(x) && Enabled(x, a) ensures lost(Apply(x, a)) {
      StepKeepsLost(x, row, a);
    }
    InvariantHolds(Enabled, Apply, lost, t, after);
    var t' := Exec(Apply, t, after);
    if u :| HourMissed(u, t', row) {
      MissedIsWrong(u, t', row);
    }
  }

  // ---------------------------------------------------------------- late samples are lost

  lemma StoredLacks(s: State, row: Row)
    ensures Lacks(s, Stored(s, row), row)
  {
    var t := Stored(s, row);
    assert t.ledger == s.ledger[..|s.ledger|] + [row] + s.ledger[|s.ledger|..];
    assert t.raw == s.raw[..|s.raw|] + [row] + s.raw[|s.raw|..];
  }

  lemma BehindIsLost(s: State, row: Row)
    requires Inv(s) && row.value.Some? && !AfterCursors(s, HourOf(row.time))
    ensures Lost(Stored(s, row), row)
  {
    var h, d, t := HourOf(row.time), DayOf(row.time), Stored(s, row);
    StoredLacks(s, row);
    if h < 24 {
      forall k | k in s.daily ensures k.bucket >= 1 {
        NoEarlyDay(s, k);
      }
      SummariseOneMore(s.ledger, t.ledger, row, row.sensor, 24 * d, 24 * d + 24);
    } else if !Below(s.daily, d) {
      RolledUpWithout(s, t, row);
    } else {
      assert HourMissed(s, t, row);
    }
  }

  /** A numeric sample stored behind either cursor, whatever the daemon is doing, is never counted: the daily row of its
      day, or its absence, is wrong in every continuation. */
  lemma LateSampleNeverCounted(s: State, row: Row, after: seq<Action>)
    requires Reachable(s) && row.value.Some? && !AfterCursors(s, HourOf(row.time))
    requires Legal(Enabled, Apply, Stored(s, row), after)
    ensures var s' := Exec(Apply, Stored(s, row), after);
      !DayMatches(s'.daily, s'.ledger, row.sensor, DayOf(row.time))
  {
    ReachableInv(s);
    BehindIsLost(s, row);
    RunKeepsLost(Stored(s, row), row, after);
  }

  lemma OneStep(s: State, a: Action) returns (s': State)
    requires Reachable(s) && Enabled(s, a)
    ensures Reachable(s') && s' == Apply(s, a)
  {
    s' := Apply(s, a);
    var days, actions :| IsRun(days, actions, s);
    ReachesOne(Enabled, Apply, s, a);
    var more: seq<Action> :| Legal(Enabled, Apply, s, more) && Exec(Apply, s, more) == s';
    ExecAppend(Enabled, Apply, Init(days), actions, more);
    assert IsRun(days, actions + more, s');
  }

  /** A cycle that is about to aggregate hour 12 of 1970-01-02. */
  lemma FirstHour() returns (s: State)
    ensures Reachable(s) && s.phase == HourlyLoop(36, 37 * HOUR) && s.daily == map[]
    ensures s.raw == [Row(1, "v", 36 * HOUR, Some(0.0))]
  {
    var none: seq<Action> := [];
    assert IsRun(0, none, Init(0));
    s := OneStep(Init(0), Insert(Row(1, "v", 36 * HOUR, Some(0.0))));
    assert HoursOf(s.raw) == {36};
    assert IsCursor(s.hourly, 0) && IsEarliest(Some(36), HoursOf(s.raw));
    s := OneStep(s, StartCycle(37 * HOUR, 36));
  }

  /** Such samples exist: one of 12:59:59 on 1970-01-02, stored after hour 12 was aggregated, while its day is open. */
  lemma LateHourHappens() returns (s: State, row: Row)
    ensures Reachable(s) && s.phase.Idle? && row.value.Some?
    ensures HourOf(row.time) == 36 && !Below(s.hourly, 36) && Below(s.daily, DayOf(row.time))
  {
    row := Row(2, "v", 37 * HOUR - 1_000_000_000, Some(1.0));
    s := FirstHour();
    HourGroupsAre(s.raw, 36, "v");
    SelectedShows(s.raw, s.raw[0], "v", 36, 37);
    s := OneStep(s, HourStatement);
    assert Key("v", 36) in s.hourly;
    s := OneStep(s, Stop);
  }

  // ---------------------------------------------------------------- timely samples are counted

  /** A day behind the daily cursor has the right daily row for the sensor. */
  ghost predicate CountedOncePassed(t: State, row: Row) {
    !Below(t.daily, DayOf(row.time)) ==> DayMatches(t.daily, t.ledger, row.sensor, DayOf(row.time))
  }

  /** Whatever follows the storing of a sample. */
  ghost predicate AlwaysCounted(s: State, row: Row) {
    forall t :: Reaches(Enabled, Apply, Apply(s, Insert(row)), t) ==> CountedOncePassed(t, row)
  }

  lemma RightOncePassed(s: State, row: Row)
    requires Inv(s)
    ensures CountedOncePassed(s, row)
  {
  }

  lemma TimelyIsCounted(s: State, row: Row)
    requires Reachable(s) && Timely(s, row)
    ensures AlwaysCounted(s, row)
  {
    ReachableInv(s);
    InsertKeeps(s, row);
    EveryStepKeeps();
    forall t | Reaches(Enabled, Apply, Apply(s, Insert(row)), t) ensures CountedOncePassed(t, row) {
      var after: seq<Action> :|
        Legal(Enabled, Apply, Apply(s, Insert(row)), after) && Exec(Apply, Apply(s, Insert(row)), after) == t;
      InvariantHolds(Enabled, Apply, Inv, Apply(s, Insert(row)), after);
      RightOncePassed(t, row);
    }
  }

  /** A sample of the current hour is timely: one that is not before the hour up to which any cycle was asked to
      aggregate. */
  lemma CurrentIsTimely(s: State, row: Row)
    requires Reachable(s) && HourOf(row.time) >= s.frontier
    ensures Timely(s, row)
  {
    ReachableInv(s);
  }

  // ---------------------------------------------------------------- any day can be passed

  lemma {:induction false} LatestBucket(table: Table, k: Key, bound: int) returns (cursor: int)
    requires k in table && Below(table, bound)
    ensures IsCursor(table, cursor) && cursor < bound
    decreases bound - k.bucket
  {
    if top :| top in table && top.bucket == bound - 1 {
      cursor := bound - 1;
    } else {
      cursor := LatestBucket(table, k, bound - 1);
    }
  }

  lemma CursorExists(table: Table, bound: int) returns (cursor: int)
    requires Below(table, bound)
    ensures IsCursor(table, cursor) && (table != map[] ==> cursor < bound)
  {
    if k :| k in table {
      cursor := LatestBucket(table, k, bound);
    } else {
      cursor := 0;
    }
  }

  const FRESH: Sensor := ""

  /** The hourly loop of a cycle through a day with a fresh sample at its start, k hours before the day's end. */
  ghost predicate HoursLeft(s: State, day: int, k: nat) {
    var hour := 24 * day + 24 - k;
    && s.phase == HourlyLoop(hour, (24 * day + 24) * HOUR)
    && Row(0, FRESH, 24 * day * HOUR, Some(0.0)) in s.raw
    && Below(s.daily, day)
    && (hour > 24 * day ==> Key(FRESH, 24 * day) in s.hourly)
  }

  lemma HourPasses(s: State, day: int, k: nat)
    requires k > 0 && HoursLeft(s, day, k)
    ensures Enabled(s, HourStatement) && HoursLeft(Apply(s, HourStatement), day, k - 1)
  {
    HourGroupsAre(s.raw, 24 * day, FRESH);
    SelectedShows(s.raw, Row(0, FRESH, 24 * day * HOUR, Some(0.0)), FRESH, 24 * day, 24 * day + 1);
  }

  ghost predicate DaysLeft(s: State, day: int, k: nat) {
    var d := day + 1 - k;
    && s.phase == DailyLoop(d, (24 * day + 24) * HOUR)
    && Key(FRESH, 24 * day) in s.hourly
    && (d > day ==> Key(FRESH, day) in s.daily)
  }

  lemma DayPasses(s: State, day: int, k: nat)
    requires k > 0 && DaysLeft(s, day, k)
    ensures Enabled(s, DayStatement) && DaysLeft(Apply(s, DayStatement), day, k - 1)
  {
    DayGroupsAre(s.hourly, day, FRESH);
    FoldDayNothing(s.hourly, FRESH, day, 24);
  }

  lemma HoursCanPass(s: State, day: int, k: nat) returns (s': State)
    requires HoursLeft(s, day, k)
    ensures Reaches(Enabled, Apply, s, s') && HoursLeft(s', day, 0)
  {
    var left := (x: State, n: nat) => HoursLeft(x, day, n);
    forall x, n: nat | n > 0 && left(x, n) ensures Enabled(x, HourStatement) && left(Apply(x, HourStatement), n - 1) {
      HourPasses(x, day, n);
    }
    s' := CountdownReaches(Enabled, Apply, HourStatement, left, s, k);
  }

  lemma DaysCanPass(s: State, day: int, k: nat) returns (s': State)
    requires DaysLeft(s, day, k)
    ensures Reaches(Enabled, Apply, s, s') && DaysLeft(s', day, 0)
  {
    var left := (x: State, n: nat) => DaysLeft(x, day, n);
    forall x, n: nat | n > 0 && left(x, n) ensures Enabled(x, DayStatement) && left(Apply(x, DayStatement), n - 1) {
      DayPasses(x, day, n);
    }
    s' := CountdownReaches(Enabled, Apply, DayStatement, left, s, k);
  }

  lemma AndThen(s: State, t: State, a: Action) returns (t': State)
    requires Reaches(Enabled, Apply, s, t) && Enabled(t, a)
    ensures t' == Apply(t, a) && Reaches(Enabled, Apply, s, t')
  {
    t' := Apply(t, a);
    ReachesOne(Enabled, Apply, t, a);
    ReachesThen(Enabled, Apply, s, t, t');
  }

  /** A fresh sample is stored and a cycle started that will get to it. */
  lemma CycleCanStart(s: State, day: int) returns (s': State, k: nat)
    requires day >= 1 && Below(s.hourly, 24 * day) && Below(s.daily, day)
    ensures Reaches(Enabled, Apply, s, s') && HoursLeft(s', day, k)
  {
    ReachesSelf(Enabled, Apply, s);
    s' := AndThen(s, s, Stop);
    s' := AndThen(s, s', Insert(Row(0, FRESH, 24 * day * HOUR, Some(0.0))));
    var cursor := CursorExists(s'.hourly, 24 * day);
    var start := StartBucket(cursor, ZERO_HOUR, None);
    assert IsEarliest(None, HoursOf(s'.raw));
    s' := AndThen(s, s', StartCycle((24 * day + 24) * HOUR, start));
    k := 24 * day + 24 - start;
  }

  /** From any state there is a run after which the day is behind the daily cursor. */
  lemma DayCanPass(s: State, day: int) returns (s': State)
    requires day >= 1 && Below(s.hourly, 24 * day) && Below(s.daily, day)
    ensures Reaches(Enabled, Apply, s, s') && !Below(s'.daily, day)
  {
    var k;
    var s1;
    s1, k := CycleCanStart(s, day);
    var s2 := HoursCanPass(s1, day, k);
    ReachesThen(Enabled, Apply, s, s1, s2);
    var cursor := CursorExists(s2.daily, day);
    var start := StartBucket(cursor, ZERO_DAY, None);
    assert IsEarliest(None, DaysOf(s2.hourly));
    var s3 := AndThen(s, s2, HourlyDone(start));
    s' := DaysCanPass(s3, day, day + 1 - start);
    ReachesThen(Enabled, Apply, s, s3, s');
    assert Key(FRESH, day) in s'.daily;
  }

  // ---------------------------------------------------------------- exactly the timely samples

  /** A lost sample makes some later daily table wrong about its day. */
  lemma LostShows(s: State, t: State, row: Row)
    requires Reaches(Enabled, Apply, Apply(s, Insert(row)), t) && Lost(t, row) && Bounded(t)
    ensures !AlwaysCounted(s, row)
  {
    var d := DayOf(row.time);
    var bound :| bound >= 1 && Below(t.hourly, 24 * bound) && Below(t.daily, bound);
    var later := Max(bound, d);
    var t' := DayCanPass(t, later);
    ReachesThen(Enabled, Apply, Apply(s, Insert(row)), t, t');
    var after: seq<Action> :| Legal(Enabled, Apply, t, after) && Exec(Apply, t, after) == t';
    RunKeepsLost(t, row, after);
    assert !CountedOncePassed(t', row);
  }

  ghost predicate Bounded(t: State) {
    exists day :: day >= 1 && Below(t.hourly, 24 * day) && Below(t.daily, day)
  }

  lemma RightIsBounded(s: State)
    requires Inv(s)
    ensures Bounded(s)
  {
    var day := s.hoursDone / 24 + 1;
    assert day >= 1 && Below(s.hourly, 24 * day) && Below(s.daily, day);
  }

  /** An hour statement that counts a probe but not the sample. */
  lemma StatementMisses(u: State, t: State, row: Row, probe: Row) returns (u': State)
    requires Lacks(u, t, row) && Inv(u) && Enabled(t, HourStatement) && probe in t.raw && probe.value.Some?
    requires HourOf(probe.time) == t.phase.hour && 24 <= HourOf(row.time) < t.phase.hour
    requires row.value.Some? && Below(t.daily, DayOf(row.time))
    ensures HourMissed(u', Apply(t, HourStatement), row)
  {
    var hour := t.phase.hour;
    u' := StatementKeepsMissed(u, t, row);
    HourGroupsAre(t.raw, hour, probe.sensor);
    SelectedShows(t.raw, probe, probe.sensor, hour, hour + 1);
    assert Key(probe.sensor, hour) in Apply(t, HourStatement).hourly;
  }

  /** The hourly loop is past the hour but nothing was aggregated since: when the next hour is, the sample is lost. */
  lemma PassedOverIsLost(s: State, row: Row) returns (t: State)
    requires Inv(s) && row.value.Some? && AfterCursors(s, HourOf(row.time))
    requires s.phase.HourlyLoop? && HourOf(row.time) < s.phase.hour < HourOf(s.phase.until)
    ensures Reaches(Enabled, Apply, Stored(s, row), t) && Lost(t, row) && Bounded(t)
  {
    var t0 := Stored(s, row);
    var probe := Row(0, FRESH, s.phase.hour * HOUR, Some(0.0));
    StoredLacks(s, row);
    ReachesSelf(Enabled, Apply, t0);
    var t1 := AndThen(t0, t0, Insert(probe));
    var u1 := InsertKeepsMissed(s, t0, row, probe);
    var u := StatementMisses(u1, t1, row, probe);
    t := AndThen(t0, t1, HourStatement);
    RightIsBounded(u);
  }

  /** Between cycles and during an hourly loop a numeric sample is in every later daily row of its day, and never
      missing from the daily table once that has got to its day, if and only if it is timely. */
  lemma TimelyIsExact(s: State, row: Row)
    requires Reachable(s) && row.value.Some?
    requires s.phase.Idle? || (s.phase.HourlyLoop? && s.phase.hour < HourOf(s.phase.until))
    ensures Timely(s, row) <==> AlwaysCounted(s, row)
  {
    ReachableInv(s);
    if Timely(s, row) {
      TimelyIsCounted(s, row);
    } else if AfterCursors(s, HourOf(row.time)) {
      var t := PassedOverIsLost(s, row);
      LostShows(s, t, row);
    } else {
      BehindIsLost(s, row);
      RightIsBounded(s);
      ReachesSelf(Enabled, Apply, Stored(s, row));
      LostShows(s, Stored(s, row), row);
    }
  }
}
