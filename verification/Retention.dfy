/** The life of the three tables under a daemon: samples are stored while, statement by statement, aggregation
    cycles roll them up and prune them, are cancelled, fail or are cut short by a restart. One SQL statement is one
    step; between any two steps of a cycle the poll loop may store or purge samples. */
module Retention {
  import opened Options
  import opened Rollup
  import opened Runs

  /** Where the aggregation cycle is; `until` is the `now` the cycle was started with. */
  datatype Phase =
    | Idle
    | HourlyLoop(hour: int, until: int)
    | DailyLoop(day: int, until: int)
    | PruningRaw(until: int)
    | PruningHourly(until: int)

  /** The tables, the phase and the retention setting are the program's; the other four fields only keep the books for
      the proofs.
      `ledger` holds every row ever inserted, less those PurgeBadSamples removed before their hour was aggregated;
      hours below `hoursDone` and days below `daysDone` have been aggregated; `frontier` is the latest hour up to
      which any cycle was asked to aggregate. */
  datatype State = State(
    retentionDays: nat, raw: seq<Row>, hourly: Table, daily: Table, phase: Phase,
    ledger: seq<Row>, hoursDone: int, daysDone: int, frontier: int)

  /** The database of a new installation. Day 0, 1970-01-01, is out of reach of the cursors' default. */
  function Init(retentionDays: nat): State {
    State(retentionDays, [], map[], map[], Idle, [], 24, 1, 24)
  }

  datatype Action =
    | Insert(row: Row)
    | Purge(ids: set<nat>)
    | StartCycle(until: int, start: int)
    | HourStatement
    | HourlyDone(start: int)
    | DayStatement
    | DailyDone
    | DeleteRaw(ids: set<nat>)
    | RawDone
    | DeleteHourly(keys: set<Key>)
    | Stop
    | Restart(retentionDays: nat)

  function Max(a: int, b: int): int { if a >= b then a else b }
  function Min(a: int, b: int): int { if a <= b then a else b }

  function Filter(rows: seq<Row>, p: Row -> bool): seq<Row>
    decreases rows
  {
    if rows == [] then
      []
    else
      var rest, r := Filter(rows[..|rows| - 1], p), rows[|rows| - 1];
      if p(r) then rest + [r] else rest
  }

  function Delete(rows: seq<Row>, ids: set<nat>): seq<Row> {
    Filter(rows, (r: Row) => r.id !in ids)
  }

  predicate NumericFrom(r: Row, hour: int) {
    r.value.Some? && HourOf(r.time) >= hour
  }

  /** The numeric rows from an hour on. */
  function From(rows: seq<Row>, hour: int): seq<Row> {
    Filter(rows, (r: Row) => NumericFrom(r, hour))
  }

  /** What a purge takes off the ledger: rows whose hour has not been aggregated. */
  function Forget(rows: seq<Row>, ids: set<nat>, hoursDone: int): seq<Row> {
    Filter(rows, (r: Row) => r.id !in ids || HourOf(r.time) < hoursDone)
  }

  const YEAR_DAYS := 365
  /** The hour of the zero time, which the daemon passes as `since`. */
  const ZERO_HOUR := -17_259_888
  const ZERO_DAY := -719_162

  /** The result of SELECT MIN(...) truncated to a bucket; None when the query failed and clamping is skipped. */
  ghost predicate IsEarliest(earliest: Option<int>, buckets: set<int>) {
    earliest.Some? ==> earliest.value in buckets && forall b :: b in buckets ==> earliest.value <= b
  }

  function HoursOf(rows: seq<Row>): set<int> { set r | r in rows :: HourOf(r.time) }
  function DaysOf(hourly: Table): set<int> { set k | k in hourly :: k.bucket / 24 }

  ghost predicate StartsHourly(s: State, start: int) {
    exists cursor, earliest :: IsCursor(s.hourly, cursor) && IsEarliest(earliest, HoursOf(s.raw))
      && start == StartBucket(cursor, ZERO_HOUR, earliest)
  }

  ghost predicate StartsDaily(s: State, start: int) {
    exists cursor, earliest :: IsCursor(s.daily, cursor) && IsEarliest(earliest, DaysOf(s.hourly))
      && start == StartBucket(cursor, ZERO_DAY, earliest)
  }

  /** The sample lies after both cursors, and not on 1970-01-01, which the cursors' default puts behind them. */
  ghost predicate AfterCursors(s: State, h: int) {
    h >= 24 && Below(s.hourly, h) && Below(s.daily, h / 24)
  }

  /** The cycle under way, if there is one, is not past the hour: the hourly loop has still to come to it; or it is
      over, and the hour belongs to a day that the cycle does not roll up. */
  predicate AheadOfLoop(phase: Phase, h: int) {
    match phase
    case Idle => true
    case HourlyLoop(hour, until) => if hour < HourOf(until) then hour <= h else DayOf(until) <= h / 24
    case DailyLoop(_, until) => DayOf(until) <= h / 24
    case PruningRaw(until) => DayOf(until) <= h / 24
    case PruningHourly(until) => DayOf(until) <= h / 24
  }

  /** A sample that aggregation will not step over. TimelyIsExact says that between cycles and during an hourly loop
      these are the only ones that are sure to be counted. */
  ghost predicate Timely(s: State, row: Row) {
    row.value.Some? ==> AfterCursors(s, HourOf(row.time)) && AheadOfLoop(s.phase, HourOf(row.time))
  }

  /** What the program and its environment may do next. The one assumption on the environment is that numeric
      samples are timely. */
  ghost predicate Enabled(s: State, a: Action) {
    match a
    case Insert(row) => Timely(s, row)
    case Purge(_) => true
    case StartCycle(until, start) => s.phase.Idle? && StartsHourly(s, start)
    case HourStatement => s.phase.HourlyLoop? && s.phase.hour < HourOf(s.phase.until)
    case HourlyDone(start) => s.phase.HourlyLoop? && s.phase.hour >= HourOf(s.phase.until) && StartsDaily(s, start)
    case DayStatement => s.phase.DailyLoop? && s.phase.day < DayOf(s.phase.until)
    case DailyDone => s.phase.DailyLoop? && s.phase.day >= DayOf(s.phase.until)
    case DeleteRaw(ids) =>
      && s.phase.PruningRaw? && s.retentionDays >= 1
      && forall r :: r in s.raw && r.id in ids ==> r.time < s.phase.until - s.retentionDays * 24 * HOUR
    case RawDone => s.phase.PruningRaw?
    case DeleteHourly(keys) =>
      && s.phase.PruningHourly?
      && forall k :: k in keys ==> k.bucket * HOUR < s.phase.until - YEAR_DAYS * 24 * HOUR
    case Stop => true
    case Restart(_) => true
  }

  function Stored(s: State, row: Row): State {
    s.(raw := s.raw + [row], ledger := s.ledger + [row])
  }

  function Started(s: State, until: int, first: int): State {
    s.(phase := HourlyLoop(first, until),
       frontier := Max(s.frontier, HourOf(until)),
       hoursDone := Max(s.hoursDone, Min(first, HourOf(until))))
  }

  /** The step itself; nothing, where it is not enabled. An aggregation over an empty source returns at once, which is a loop over no buckets. */
  ghost function Apply(s: State, a: Action): State
  {
    match a
    case Insert(row) =>
      var h := HourOf(row.time);
      var s' := Stored(s, row);
      if row.value.Some? && Timely(s, row) then
        s'.(hoursDone := Min(s.hoursDone, h), daysDone := Min(s.daysDone, h / 24))
      else s'
    case Purge(ids) =>
      s.(raw := Delete(s.raw, ids), ledger := Forget(s.ledger, ids, s.hoursDone))
    case StartCycle(until, start) =>
      Started(s, until, if s.raw == [] then HourOf(until) else start)
    case HourStatement => if !s.phase.HourlyLoop? then s else
      var h := s.phase.hour;
      s.(hourly := Put(s.hourly, h, HourGroups(s.raw, h)),
         phase := s.phase.(hour := h + 1),
         hoursDone := Max(s.hoursDone, h + 1))
    case HourlyDone(start) => if !s.phase.HourlyLoop? then s else
      var end := DayOf(s.phase.until);
      var first := if s.hourly == map[] then end else start;
      s.(phase := DailyLoop(first, s.phase.until), daysDone := Max(s.daysDone, Min(first, end)))
    case DayStatement => if !s.phase.DailyLoop? then s else
      var d := s.phase.day;
      s.(daily := Put(s.daily, d, DayGroups(s.hourly, d)),
         phase := s.phase.(day := d + 1),
         daysDone := Max(s.daysDone, d + 1))
    case DailyDone => if !s.phase.DailyLoop? then s else
      s.(phase := if s.retentionDays > 0 then PruningRaw(s.phase.until) else Idle)
    case DeleteRaw(ids) =>
      s.(raw := Delete(s.raw, ids))
    case RawDone => if !s.phase.PruningRaw? then s else
      s.(phase := PruningHourly(s.phase.until))
    case DeleteHourly(keys) =>
      s.(hourly := s.hourly - keys)
    case Stop =>
      s.(phase := Idle)
    case Restart(days) =>
      s.(phase := Idle, retentionDays := days)
  }

  // ---------------------------------------------------------------- the invariant

  ghost predicate HoursRight(s: State) {
    forall sensor, h :: 24 * s.daysDone <= h < s.hoursDone ==> HourMatches(s.hourly, s.ledger, sensor, h)
  }

  ghost predicate DaysRight(s: State) {
    forall sensor, d :: d < s.daysDone ==> DayMatches(s.daily, s.ledger, sensor, d)
  }

  ghost predicate HourlyBacked(s: State) {
    forall k :: k in s.hourly ==> Summarise(s.ledger, k.sensor, k.bucket, k.bucket + 1).Values?
  }

  ghost predicate RawLedgered(s: State) {
    forall r :: r in s.raw ==> r in s.ledger
  }

  /** What the loop positions and the phases after them know. */
  ghost predicate PhaseRight(s: State) {
    && (!s.phase.Idle? ==> HourOf(s.phase.until) <= s.frontier)
    && match s.phase
      case Idle => true
      case HourlyLoop(h, until) =>
        if h < HourOf(until) then h <= s.hoursDone && Below(s.hourly, h) else 24 * DayOf(until) <= s.hoursDone
      case DailyLoop(d, until) =>
        && 24 * DayOf(until) <= s.hoursDone
        && if d < DayOf(until) then 1 <= d <= s.daysDone && Below(s.daily, d) else DayOf(until) <= s.daysDone
      case PruningRaw(until) => 24 * DayOf(until) <= s.hoursDone && DayOf(until) <= s.daysDone
      case PruningHourly(until) => 24 * DayOf(until) <= s.hoursDone && DayOf(until) <= s.daysDone
  }

  /** No numeric sample of the ledger is from 1970-01-01 or earlier. */
  ghost predicate NothingEarly(s: State) {
    forall r :: r in s.ledger && r.value.Some? ==> HourOf(r.time) >= 24
  }

  ghost predicate Inv(s: State) {
    && 24 <= 24 * s.daysDone <= s.hoursDone <= s.frontier
    && Below(s.hourly, s.hoursDone) && Below(s.daily, s.daysDone)
    && From(s.raw, s.hoursDone) == From(s.ledger, s.hoursDone)
    && RawLedgered(s) && HoursRight(s) && DaysRight(s) && HourlyBacked(s)
    && NothingEarly(s) && PhaseRight(s)
  }

  // ---------------------------------------------------------------- filters

  lemma {:induction false} FilterAgree(rows: seq<Row>, p: Row -> bool, q: Row -> bool)
    requires forall r :: r in rows ==> p(r) == q(r)
    ensures Filter(rows, p) == Filter(rows, q)
    decreases rows
  {
    if rows != [] {
      FilterAgree(rows[..|rows| - 1], p, q);
    }
  }

  lemma FilterAppend(rows: seq<Row>, r: Row, p: Row -> bool)
    ensures Filter(rows + [r], p) == if p(r) then Filter(rows, p) + [r] else Filter(rows, p)
  {
    assert (rows + [r])[..|rows|] == rows;
  }

  lemma {:induction false} FilterTwice(rows: seq<Row>, p: Row -> bool, q: Row -> bool, both: Row -> bool)
    requires forall r :: r in rows ==> both(r) == (p(r) && q(r))
    ensures Filter(Filter(rows, p), q) == Filter(rows, both)
    decreases rows
  {
    if rows != [] {
      var rest, r := rows[..|rows| - 1], rows[|rows| - 1];
      FilterTwice(rest, p, q, both);
      if p(r) {
        FilterAppend(Filter(rest, p), r, q);
      }
    }
  }

  lemma {:induction false} FilterIn(rows: seq<Row>, p: Row -> bool)
    ensures forall r :: r in Filter(rows, p) <==> r in rows && p(r)
    decreases rows
  {
    if rows != [] {
      FilterIn(rows[..|rows| - 1], p);
      assert rows == rows[..|rows| - 1] + [rows[|rows| - 1]];
    }
  }

  /** Rows that are not selected may be left out. */
  lemma {:induction false} SummariseFilter(rows: seq<Row>, p: Row -> bool, s: Sensor, a: int, b: int)
    requires forall r :: r in rows && Selected(r, s, a, b) ==> p(r)
    ensures Summarise(Filter(rows, p), s, a, b) == Summarise(rows, s, a, b)
    decreases rows
  {
    if rows != [] {
      var rest, r := rows[..|rows| - 1], rows[|rows| - 1];
      assert rows == rest + [r];
      SummariseFilter(rest, p, s, a, b);
      if p(r) {
        SummariseAppend(Filter(rest, p), r, s, a, b);
      }
    }
  }

  lemma SummariseFrom(rows: seq<Row>, hour: int, s: Sensor, a: int, b: int)
    requires hour <= a
    ensures Summarise(From(rows, hour), s, a, b) == Summarise(rows, s, a, b)
  {
    SummariseFilter(rows, (r: Row) => NumericFrom(r, hour), s, a, b);
  }

  lemma FromLater(rows: seq<Row>, hour: int, later: int)
    requires hour <= later
    ensures From(From(rows, hour), later) == From(rows, later)
  {
    FilterTwice(rows, (r: Row) => NumericFrom(r, hour), (r: Row) => NumericFrom(r, later),
      (r: Row) => NumericFrom(r, later));
  }

  // ---------------------------------------------------------------- every step keeps the invariant

  /** Two ledgers agree about the hours below h. */
  ghost predicate SameBefore(a: seq<Row>, b: seq<Row>, h: int) {
    forall sensor, i, j :: j <= h ==> Summarise(a, sensor, i, j) == Summarise(b, sensor, i, j)
  }

  lemma BooksKept(s: State, s': State)
    requires Inv(s) && s' == s.(raw := s'.raw, ledger := s'.ledger) && SameBefore(s.ledger, s'.ledger, s.hoursDone)
    ensures HoursRight(s') && DaysRight(s') && HourlyBacked(s')
  {
    forall sensor, h | 24 * s.daysDone <= h < s.hoursDone ensures HourMatches(s.hourly, s'.ledger, sensor, h) {
      assert HourMatches(s.hourly, s.ledger, sensor, h);
      assert Summarise(s.ledger, sensor, h, h + 1) == Summarise(s'.ledger, sensor, h, h + 1);
    }
    forall sensor, d | d < s.daysDone ensures DayMatches(s.daily, s'.ledger, sensor, d) {
      assert DayMatches(s.daily, s.ledger, sensor, d);
      assert Summarise(s.ledger, sensor, 24 * d, 24 * d + 24) == Summarise(s'.ledger, sensor, 24 * d, 24 * d + 24);
    }
    forall k | k in s.hourly ensures Summarise(s'.ledger, k.sensor, k.bucket, k.bucket + 1).Values? {
      assert Summarise(s.ledger, k.sensor, k.bucket, k.bucket + 1) == Summarise(s'.ledger, k.sensor, k.bucket, k.bucket + 1);
    }
  }

  lemma TextInsertKeeps(s: State, row: Row)
    requires Inv(s) && row.value.None?
    ensures Inv(s.(raw := s.raw + [row], ledger := s.ledger + [row]))
  {
    var s' := s.(raw := s.raw + [row], ledger := s.ledger + [row]);
    FilterAppend(s.raw, row, (r: Row) => NumericFrom(r, s.hoursDone));
    FilterAppend(s.ledger, row, (r: Row) => NumericFrom(r, s.hoursDone));
    forall sensor, i, j ensures Summarise(s.ledger, sensor, i, j) == Summarise(s'.ledger, sensor, i, j) {
      SummariseAppend(s.ledger, row, sensor, i, j);
    }
    BooksKept(s, s');
  }

  lemma SubrangeEmpty(rows: seq<Row>, s: Sensor, a: int, i: int, j: int, b: int)
    requires a <= i <= j <= b && Summarise(rows, s, a, b) == Empty
    ensures Summarise(rows, s, i, j) == Empty
  {
    SummariseNothing(rows, s, a, b);
    SummariseNothing(rows, s, i, j);
    forall r | r in rows ensures !Selected(r, s, i, j) {
      assert !Selected(r, s, a, b);
    }
  }

  lemma SelectedShows(rows: seq<Row>, r: Row, s: Sensor, a: int, b: int)
    requires r in rows
    ensures Selected(r, s, a, b) ==> Summarise(rows, s, a, b).Values?
  {
    SummariseNothing(rows, s, a, b);
  }

  lemma BackedAt(s: State, k: Key)
    requires HourlyBacked(s)
    ensures k in s.hourly ==> Summarise(s.ledger, k.sensor, k.bucket, k.bucket + 1).Values?
  {
  }

  /** After both cursors there is nothing aggregated and nothing to aggregate but what is still pending. */
  lemma NothingAfterCursors(s: State, sensor: Sensor, i: int, h: int)
    requires Inv(s) && Below(s.hourly, h) && Below(s.daily, h / 24) && h / 24 <= i / 24 && i < s.hoursDone
    requires 24 * s.daysDone <= i ==> h <= i
    ensures Summarise(s.ledger, sensor, i, i + 1) == Empty
    ensures Key(sensor, i) !in s.hourly
  {
    if 24 * s.daysDone <= i {
      assert HourMatches(s.hourly, s.ledger, sensor, i);
    } else {
      var d := i / 24;
      assert DayMatches(s.daily, s.ledger, sensor, d);
      SubrangeEmpty(s.ledger, sensor, 24 * d, i, i + 1, 24 * d + 24);
      BackedAt(s, Key(sensor, i));
    }
  }

  lemma PendingFromCursors(s: State, h: int)
    requires Inv(s) && h < s.hoursDone && Below(s.hourly, h) && Below(s.daily, h / 24)
    ensures From(s.raw, h) == From(s.ledger, h)
  {
    forall r | r in s.ledger && r.value.Some? ensures NumericFrom(r, h) == NumericFrom(r, s.hoursDone) {
      var i := HourOf(r.time);
      if h <= i < s.hoursDone {
        NothingAfterCursors(s, r.sensor, i, h);
        SelectedShows(s.ledger, r, r.sensor, i, i + 1);
      }
    }
    FilterAgree(s.ledger, (r: Row) => NumericFrom(r, h), (r: Row) => NumericFrom(r, s.hoursDone));
    FilterAgree(s.raw, (r: Row) => NumericFrom(r, h), (r: Row) => NumericFrom(r, s.hoursDone));
  }

  lemma HourBeforeInsert(s: State, row: Row, sensor: Sensor, i: int)
    requires Inv(s) && Timely(s, row) && row.value.Some?
    requires 24 * Min(s.daysDone, DayOf(row.time)) <= i < Min(s.hoursDone, HourOf(row.time))
    ensures HourMatches(s.hourly, s.ledger + [row], sensor, i)
  {
    SummariseAppend(s.ledger, row, sensor, i, i + 1);
    if 24 * s.daysDone <= i {
      assert HourMatches(s.hourly, s.ledger, sensor, i);
    } else {
      NothingAfterCursors(s, sensor, i, HourOf(row.time));
    }
  }

  lemma InsertKeeps(s: State, row: Row)
    requires Inv(s) && Timely(s, row)
    ensures Inv(Apply(s, Insert(row)))
  {
    if row.value.None? {
      TextInsertKeeps(s, row);
    } else {
      var s', h := Apply(s, Insert(row)), HourOf(row.time);
      if h < s.hoursDone {
        PendingFromCursors(s, h);
      }
      FilterAppend(s.raw, row, (r: Row) => NumericFrom(r, s'.hoursDone));
      FilterAppend(s.ledger, row, (r: Row) => NumericFrom(r, s'.hoursDone));
      forall sensor, i | 24 * s'.daysDone <= i < s'.hoursDone ensures HourMatches(s.hourly, s'.ledger, sensor, i) {
        HourBeforeInsert(s, row, sensor, i);
      }
      forall sensor, d | d < s'.daysDone ensures DayMatches(s.daily, s'.ledger, sensor, d) {
        assert DayMatches(s.daily, s.ledger, sensor, d);
        SummariseAppend(s.ledger, row, sensor, 24 * d, 24 * d + 24);
      }
      forall k | k in s.hourly ensures Summarise(s'.ledger, k.sensor, k.bucket, k.bucket + 1).Values? {
        assert Summarise(s.ledger, k.sensor, k.bucket, k.bucket + 1).Values?;
        SummariseAppend(s.ledger, row, k.sensor, k.bucket, k.bucket + 1);
      }
    }
  }

  lemma PurgeKeeps(s: State, ids: set<nat>)
    requires Inv(s)
    ensures Inv(s.(raw := Delete(s.raw, ids), ledger := Forget(s.ledger, ids, s.hoursDone)))
  {
    var h := s.hoursDone;
    var s' := s.(raw := Delete(s.raw, ids), ledger := Forget(s.ledger, ids, h));
    var gone, kept := (r: Row) => r.id !in ids, (r: Row) => r.id !in ids || HourOf(r.time) < h;
    var late, both := (r: Row) => NumericFrom(r, h), (r: Row) => r.id !in ids && NumericFrom(r, h);
    FilterTwice(s.raw, gone, late, both);
    FilterTwice(s.raw, late, gone, both);
    FilterTwice(s.ledger, kept, late, both);
    FilterTwice(s.ledger, late, gone, both);
    FilterIn(s.raw, gone);
    FilterIn(s.ledger, kept);
    forall sensor, i, j | j <= h ensures Summarise(s.ledger, sensor, i, j) == Summarise(s'.ledger, sensor, i, j) {
      SummariseFilter(s.ledger, kept, sensor, i, j);
    }
    BooksKept(s, s');
  }

  lemma RawAgreesWithLedger(s: State, sensor: Sensor, a: int, b: int)
    requires Inv(s) && s.hoursDone <= a
    ensures Summarise(s.raw, sensor, a, b) == Summarise(s.ledger, sensor, a, b)
  {
    SummariseFrom(s.raw, s.hoursDone, sensor, a, b);
    SummariseFrom(s.ledger, s.hoursDone, sensor, a, b);
  }

  lemma RawWithinLedger(s: State, sensor: Sensor, a: int, b: int)
    requires RawLedgered(s) && Summarise(s.raw, sensor, a, b).Values?
    ensures Summarise(s.ledger, sensor, a, b).Values?
  {
    SummariseNothing(s.raw, sensor, a, b);
    SummariseNothing(s.ledger, sensor, a, b);
    var r :| r in s.raw && Selected(r, sensor, a, b);
    assert r in s.ledger;
  }

  /** A loop may start at any hour that leaves out no pending sample. */
  lemma StartedKeeps(s: State, until: int, first: int)
    requires Inv(s) && s.phase.Idle? && (first < HourOf(until) ==> Below(s.hourly, first))
    requires forall r :: r in s.raw && NumericFrom(r, s.hoursDone) ==> HourOf(r.time) >= Min(first, HourOf(until))
    ensures Inv(Started(s, until, first))
  {
    var s' := Started(s, until, first);
    FromLater(s.raw, s.hoursDone, s'.hoursDone);
    FromLater(s.ledger, s.hoursDone, s'.hoursDone);
    forall sensor, h | 24 * s.daysDone <= h < s'.hoursDone ensures HourMatches(s.hourly, s.ledger, sensor, h) {
      if h < s.hoursDone {
        assert HourMatches(s.hourly, s.ledger, sensor, h);
      } else {
        RawAgreesWithLedger(s, sensor, h, h + 1);
        SummariseNothing(s.raw, sensor, h, h + 1);
      }
    }
  }

  lemma StartCycleKeeps(s: State, until: int, start: int)
    requires Inv(s) && Enabled(s, StartCycle(until, start))
    ensures Inv(Apply(s, StartCycle(until, start)))
  {
    var cursor, earliest :| IsCursor(s.hourly, cursor) && IsEarliest(earliest, HoursOf(s.raw))
      && start == StartBucket(cursor, ZERO_HOUR, earliest);
    StartIsBeyondTable(s.hourly, cursor, ZERO_HOUR, earliest);
    assert cursor < s.hoursDone;
    forall r | r in s.raw && NumericFrom(r, s.hoursDone) ensures HourOf(r.time) >= start {
      assert HourOf(r.time) in HoursOf(s.raw);
    }
    StartedKeeps(s, until, if s.raw == [] then HourOf(until) else start);
  }

  lemma HourAfterStatement(s: State, h: int, sensor: Sensor, i: int)
    requires Inv(s) && h <= s.hoursDone && Below(s.hourly, h)
    requires 24 * s.daysDone <= i && (i < s.hoursDone || i == h)
    ensures HourMatches(Put(s.hourly, h, HourGroups(s.raw, h)), s.ledger, sensor, i)
  {
    HourGroupsAre(s.raw, h, sensor);
    if i < s.hoursDone {
      assert HourMatches(s.hourly, s.ledger, sensor, i);
      if i == h && Summarise(s.raw, sensor, h, h + 1).Values? {
        RawWithinLedger(s, sensor, h, h + 1);
      }
    } else {
      RawAgreesWithLedger(s, sensor, i, i + 1);
    }
  }

  lemma BackedAfterStatement(s: State, h: int, k: Key)
    requires RawLedgered(s) && HourlyBacked(s) && k in Put(s.hourly, h, HourGroups(s.raw, h))
    ensures Summarise(s.ledger, k.sensor, k.bucket, k.bucket + 1).Values?
  {
    if k !in s.hourly {
      HourGroupsAre(s.raw, h, k.sensor);
      RawWithinLedger(s, k.sensor, h, h + 1);
    }
  }

  lemma HourStatementKeeps(s: State)
    requires Inv(s) && Enabled(s, HourStatement)
    ensures Inv(Apply(s, HourStatement))
  {
    var s' := Apply(s, HourStatement);
    var h := s.phase.hour;
    FromLater(s.raw, s.hoursDone, s'.hoursDone);
    FromLater(s.ledger, s.hoursDone, s'.hoursDone);
    forall sensor, i | 24 * s.daysDone <= i < s'.hoursDone ensures HourMatches(s'.hourly, s.ledger, sensor, i) {
      HourAfterStatement(s, h, sensor, i);
    }
    forall k | k in s'.hourly ensures Summarise(s.ledger, k.sensor, k.bucket, k.bucket + 1).Values? {
      BackedAfterStatement(s, h, k);
    }
  }

  /** A day without hourly rows, all of whose hours are aggregated, has no samples in the ledger. */
  lemma EmptyDay(s: State, sensor: Sensor, d: int)
    requires Inv(s) && s.daysDone <= d && 24 * d + 24 <= s.hoursDone
    requires forall h :: 24 * d <= h < 24 * d + 24 ==> Key(sensor, h) !in s.hourly
    ensures Summarise(s.ledger, sensor, 24 * d, 24 * d + 24) == Empty
  {
    forall h | 24 * d <= h < 24 * d + 24 ensures HourMatches(s.hourly, s.ledger, sensor, h) {
    }
    FoldDayNothing(s.hourly, sensor, d, 24);
    TwoLevels(s.hourly, s.ledger, sensor, d, 24);
  }

  lemma NoEarlyDay(s: State, k: Key)
    requires Inv(s) && k in s.daily
    ensures k.bucket >= 1
  {
    var d := k.bucket;
    assert DayMatches(s.daily, s.ledger, k.sensor, d);
    SummariseNothing(s.ledger, k.sensor, 24 * d, 24 * d + 24);
    var r :| r in s.ledger && Selected(r, k.sensor, 24 * d, 24 * d + 24);
  }

  lemma HourlyDoneKeeps(s: State, start: int)
    requires Inv(s) && Enabled(s, HourlyDone(start))
    ensures Inv(Apply(s, HourlyDone(start)))
  {
    var s' := Apply(s, HourlyDone(start));
    var cursor, earliest :| IsCursor(s.daily, cursor) && IsEarliest(earliest, DaysOf(s.hourly))
      && start == StartBucket(cursor, ZERO_DAY, earliest);
    StartIsBeyondTable(s.daily, cursor, ZERO_DAY, earliest);
    assert cursor < s.daysDone;
    forall k | k in s.daily ensures k.bucket >= 1 {
      NoEarlyDay(s, k);
    }
    forall sensor, d | d < s'.daysDone ensures DayMatches(s.daily, s.ledger, sensor, d) {
      if d >= s.daysDone {
        forall k | k in s.hourly ensures k.bucket / 24 > d {
          assert k.bucket / 24 in DaysOf(s.hourly);
        }
        EmptyDay(s, sensor, d);
      }
    }
  }

  lemma DayAfterStatement(s: State, d: int, sensor: Sensor, i: int)
    requires Inv(s) && d <= s.daysDone && Below(s.daily, d) && 24 * d + 24 <= s.hoursDone
    requires i < s.daysDone || i == d
    ensures DayMatches(Put(s.daily, d, DayGroups(s.hourly, d)), s.ledger, sensor, i)
  {
    DayGroupsAre(s.hourly, d, sensor);
    if i < s.daysDone {
      assert DayMatches(s.daily, s.ledger, sensor, i);
      DayBacked(s, sensor, d);
    } else {
      forall h | 24 * d <= h < 24 * d + 24 ensures HourMatches(s.hourly, s.ledger, sensor, h) {
      }
      TwoLevels(s.hourly, s.ledger, sensor, d, 24);
    }
  }

  lemma DayStatementKeeps(s: State)
    requires Inv(s) && Enabled(s, DayStatement)
    ensures Inv(Apply(s, DayStatement))
  {
    var s' := Apply(s, DayStatement);
    forall sensor, i | i < s'.daysDone ensures DayMatches(s'.daily, s.ledger, sensor, i) {
      DayAfterStatement(s, s.phase.day, sensor, i);
    }
  }

  /** A day with hourly rows has samples in the ledger. */
  lemma DayBacked(s: State, sensor: Sensor, d: int)
    requires HourlyBacked(s)
    ensures FoldDay(s.hourly, sensor, d, 24).Rows? ==> Summarise(s.ledger, sensor, 24 * d, 24 * d + 24).Values?
  {
    FoldDayNothing(s.hourly, sensor, d, 24);
    if FoldDay(s.hourly, sensor, d, 24).Rows? {
      var h :| 24 * d <= h < 24 * d + 24 && Key(sensor, h) in s.hourly;
      SummariseSplit(s.ledger, sensor, 24 * d, h, 24 * d + 24);
      SummariseSplit(s.ledger, sensor, h, h + 1, 24 * d + 24);
      assert Summarise(s.ledger, Key(sensor, h).sensor, h, h + 1).Values?;
    }
  }

  lemma DeleteRawKeeps(s: State, ids: set<nat>)
    requires Inv(s) && Enabled(s, DeleteRaw(ids))
    ensures Inv(Apply(s, DeleteRaw(ids)))
  {
    var h := s.hoursDone;
    forall r | r in s.raw && r.id in ids ensures HourOf(r.time) < h {
      CutoffHour(r.time, s.phase.until, s.retentionDays);
    }
    var gone, late := (r: Row) => r.id !in ids, (r: Row) => NumericFrom(r, h);
    FilterTwice(s.raw, gone, late, late);
    FilterIn(s.raw, gone);
  }

  lemma CutoffHour(time: int, until: int, days: nat)
    requires days >= 1 && time < until - days * 24 * HOUR
    ensures HourOf(time) < HourOf(until) && DayOf(time) < DayOf(until)
  {
    assert days * 24 * HOUR >= 24 * HOUR;
  }

  lemma DeleteHourlyKeeps(s: State, keys: set<Key>)
    requires Inv(s) && Enabled(s, DeleteHourly(keys))
    ensures Inv(Apply(s, DeleteHourly(keys)))
  {
    var s' := Apply(s, DeleteHourly(keys));
    forall sensor, h | 24 * s.daysDone <= h < s.hoursDone ensures HourMatches(s'.hourly, s.ledger, sensor, h) {
      assert HourMatches(s.hourly, s.ledger, sensor, h);
      if Key(sensor, h) in keys {
        CutoffHour(h * HOUR, s.phase.until, YEAR_DAYS);
      }
    }
  }

  lemma StepKeeps(s: State, a: Action)
    requires Inv(s) && Enabled(s, a)
    ensures Inv(Apply(s, a))
  {
    match a
    case Insert(row) => InsertKeeps(s, row);
    case Purge(ids) => PurgeKeeps(s, ids);
    case StartCycle(until, start) => StartCycleKeeps(s, until, start);
    case HourStatement => HourStatementKeeps(s);
    case HourlyDone(start) => HourlyDoneKeeps(s, start);
    case DayStatement => DayStatementKeeps(s);
    case DailyDone =>
    case DeleteRaw(ids) => DeleteRawKeeps(s, ids);
    case RawDone =>
    case DeleteHourly(keys) => DeleteHourlyKeeps(s, keys);
    case Stop =>
    case Restart(_) =>
  }

  // ---------------------------------------------------------------- runs

  lemma EveryStepKeeps()
    ensures Inductive(Enabled, Apply, Inv)
  {
    forall s, a | Inv(s) && Enabled(s, a) ensures Inv(Apply(s, a)) {
      StepKeeps(s, a);
    }
  }

  ghost predicate IsRun(retentionDays: nat, actions: seq<Action>, s: State) {
    Legal(Enabled, Apply, Init(retentionDays), actions) && Exec(Apply, Init(retentionDays), actions) == s
  }

  /** Every state a new installation can get into. */
  ghost predicate Reachable(s: State) {
    exists days, actions :: IsRun(days, actions, s)
  }

  lemma ReachableInv(s: State)
    requires Reachable(s)
    ensures Inv(s)
  {
    var days, actions :| IsRun(days, actions, s);
    InitInv(days);
    EveryStepKeeps();
    InvariantHolds(Enabled, Apply, Inv, Init(days), actions);
  }

  lemma InitInv(retentionDays: nat)
    ensures Inv(Init(retentionDays))
  {
  }

  /** Daily rows are written once and kept for ever. */
  ghost predicate DaysKept(s: State, s': State) {
    forall k :: k in s.daily ==> k in s'.daily && s'.daily[k] == s.daily[k]
  }

  lemma StepKeepsDays(s: State, a: Action)
    requires Inv(s) && Enabled(s, a)
    ensures DaysKept(s, Apply(s, a))
  {
  }

  lemma RunsKeepDays(s: State, actions: seq<Action>)
    requires Inv(s) && Legal(Enabled, Apply, s, actions)
    ensures DaysKept(s, Exec(Apply, s, actions)) && Inv(Exec(Apply, s, actions))
  {
    EveryStepKeeps();
    forall t, a | Inv(t) && Enabled(t, a) ensures DaysKept(t, Apply(t, a)) {
      StepKeepsDays(t, a);
    }
    ProgressHolds(Enabled, Apply, Inv, DaysKept, s, actions);
    InvariantHolds(Enabled, Apply, Inv, s, actions);
  }

  /** Lifetime conservation. In every run of stores, purges, aggregations, prunes, failures and restarts from a new
      database, a daily row has the count, minimum and maximum of all numeric samples of its day in the ledger; and
      whatever follows, the row stays as it is and stays right, though the rows it was made from may be gone. */
  lemma LifetimeConservation(s: State, after: seq<Action>, sensor: Sensor, day: int)
    requires Reachable(s) && Legal(Enabled, Apply, s, after)
    requires Key(sensor, day) in s.daily
    ensures var s' := Exec(Apply, s, after);
      && DayMatches(s.daily, s.ledger, sensor, day)
      && DayMatches(s'.daily, s'.ledger, sensor, day)
      && Key(sensor, day) in s'.daily && s'.daily[Key(sensor, day)] == s.daily[Key(sensor, day)]
  {
    ReachableInv(s);
    RunsKeepDays(s, after);
  }

  /** Completeness. When a cycle gets as far as pruning, every day before its `now` has a daily row for exactly the
      sensors that have numeric samples of that day in the ledger. */
  lemma AggregationComplete(s: State, sensor: Sensor, day: int)
    requires Reachable(s)
    requires (s.phase.PruningRaw? || s.phase.PruningHourly?) && day < DayOf(s.phase.until)
    ensures DayMatches(s.daily, s.ledger, sensor, day)
  {
    ReachableInv(s);
  }

  /** The numeric row is counted where it can no longer be lost: in the daily row of its day, or in the hourly row of
      its hour, either of which agrees with the ledger. */
  ghost predicate Counted(s: State, r: Row) {
    && r in s.ledger
    && (|| (Key(r.sensor, DayOf(r.time)) in s.daily && DayMatches(s.daily, s.ledger, r.sensor, DayOf(r.time)))
        || (Key(r.sensor, HourOf(r.time)) in s.hourly && HourMatches(s.hourly, s.ledger, r.sensor, HourOf(r.time))))
  }

  lemma AggregatedIsCounted(s: State, r: Row)
    requires Inv(s) && r in s.raw && r.value.Some? && HourOf(r.time) < s.hoursDone
    ensures Counted(s, r)
  {
    var h, d := HourOf(r.time), DayOf(r.time);
    if d < s.daysDone {
      assert DayMatches(s.daily, s.ledger, r.sensor, d);
      SelectedShows(s.ledger, r, r.sensor, 24 * d, 24 * d + 24);
    } else {
      assert HourMatches(s.hourly, s.ledger, r.sensor, h);
      SelectedShows(s.ledger, r, r.sensor, h, h + 1);
    }
  }

  /** Prune safety. Whatever a cycle deletes from the raw table is already counted; whatever it deletes from the
      hourly table belongs to a day whose daily row is there and right. */
  lemma PruneSafety(s: State, a: Action)
    requires Reachable(s) && Enabled(s, a)
    ensures a.DeleteRaw? ==> forall r :: r in s.raw && r.id in a.ids && r.value.Some? ==> Counted(s, r)
    ensures a.DeleteHourly? ==> forall k :: k in s.hourly && k in a.keys ==>
      Key(k.sensor, k.bucket / 24) in s.daily && DayMatches(s.daily, s.ledger, k.sensor, k.bucket / 24)
  {
    ReachableInv(s);
    if a.DeleteRaw? {
      forall r | r in s.raw && r.id in a.ids && r.value.Some? ensures Counted(s, r) {
        CutoffHour(r.time, s.phase.until, s.retentionDays);
        AggregatedIsCounted(s, r);
      }
    } else if a.DeleteHourly? {
      forall k | k in s.hourly && k in a.keys
        ensures Key(k.sensor, k.bucket / 24) in s.daily && DayMatches(s.daily, s.ledger, k.sensor, k.bucket / 24)
      {
        CutoffHour(k.bucket * HOUR, s.phase.until, YEAR_DAYS);
        var d := k.bucket / 24;
        assert DayMatches(s.daily, s.ledger, k.sensor, d);
        SummariseSplit(s.ledger, k.sensor, 24 * d, k.bucket, 24 * d + 24);
        SummariseSplit(s.ledger, k.sensor, k.bucket, k.bucket + 1, 24 * d + 24);
      }
    }
  }

  // ---------------------------------------------------------------- what the ledger is

  function InsertedBy(a: Action): seq<Row> {
    if a.Insert? then [a.row] else []
  }

  /** Without purges the ledger is simply everything ever inserted. */
  lemma LedgerIsInserted(days: nat, actions: seq<Action>, s: State)
    requires IsRun(days, actions, s) && forall a :: a in actions ==> !a.Purge?
    ensures s.ledger == Outputs(InsertedBy, actions)
  {
    var ledger := (t: State) => t.ledger;
    LogHolds(Enabled, Apply, ledger, InsertedBy, Init(days), actions);
  }
}
