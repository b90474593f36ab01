/** Raw samples, what a GROUP BY makes of them, and the tables of hourly and daily buckets.

    Times are nanoseconds since 1970-01-01 UTC. Every bucket_start is written truncated to its hour or day, so a
    bucket is identified by its number: hour h starts at h * HOUR and day d at hour 24 * d. */
module Rollup {
  import opened Arithmetic
  import opened Options

  const HOUR := 3_600_000_000_000

  function HourOf(time: int): int { time / 3_600_000_000_000 }
  function DayOf(time: int): int { HourOf(time) / 24 }

  /** Truncate(24h) of a time is the truncation of its hour. */
  lemma DayOfTime(time: int)
    ensures DayOf(time) == time / (24 * 3_600_000_000_000)
  {
  }

  type Sensor = string

  datatype Row = Row(id: nat, sensor: Sensor, time: int, value: Option<real>)

  // ---------------------------------------------------------------- aggregates

  type Positive = n: nat | n > 0 witness 1

  /** MIN, MAX, SUM and COUNT of some numeric values. */
  datatype Summary = Empty | Values(min: real, max: real, total: real, count: Positive)

  function Single(v: real): Summary { Values(v, v, v, 1) }

  function Merge(a: Summary, b: Summary): Summary {
    if a.Empty? then b
    else if b.Empty? then a
    else Values(
      if a.min <= b.min then a.min else b.min,
      if a.max >= b.max then a.max else b.max,
      a.total + b.total,
      a.count + b.count)
  }

  predicate Selected(r: Row, s: Sensor, a: int, b: int) {
    r.sensor == s && a <= HourOf(r.time) < b && r.value.Some?
  }

  /** The aggregate of the sensor's numeric rows in hours a up to b. */
  function Summarise(rows: seq<Row>, s: Sensor, a: int, b: int): Summary
    decreases rows
  {
    if rows == [] then
      Empty
    else
      var r := rows[|rows| - 1];
      var rest := Summarise(rows[..|rows| - 1], s, a, b);
      if Selected(r, s, a, b) then Merge(rest, Single(r.value.value)) else rest
  }

  lemma MergeLaws(a: Summary, b: Summary, c: Summary)
    ensures Merge(a, b) == Merge(b, a)
    ensures Merge(Merge(a, b), c) == Merge(a, Merge(b, c))
  {
  }

  /** Adjacent ranges merge. */
  lemma {:induction false} SummariseSplit(rows: seq<Row>, s: Sensor, a: int, b: int, c: int)
    requires a <= b <= c
    ensures Summarise(rows, s, a, c) == Merge(Summarise(rows, s, a, b), Summarise(rows, s, b, c))
    decreases rows
  {
    if rows != [] {
      var rest, r := rows[..|rows| - 1], rows[|rows| - 1];
      SummariseSplit(rest, s, a, b, c);
      if r.value.Some? {
        var x, y, z := Summarise(rest, s, a, b), Summarise(rest, s, b, c), Single(r.value.value);
        MergeLaws(x, y, z);
        MergeLaws(x, z, y);
        MergeLaws(y, z, x);
      }
    }
  }

  lemma {:induction false} SummariseNothing(rows: seq<Row>, s: Sensor, a: int, b: int)
    ensures Summarise(rows, s, a, b) == Empty <==> forall r :: r in rows ==> !Selected(r, s, a, b)
    decreases rows
  {
    if rows != [] {
      SummariseNothing(rows[..|rows| - 1], s, a, b);
      assert rows == rows[..|rows| - 1] + [rows[|rows| - 1]];
    }
  }

  /** Some selected row holds the value. */
  ghost predicate Occurs(rows: seq<Row>, s: Sensor, a: int, b: int, v: real) {
    exists r :: r in rows && Selected(r, s, a, b) && r.value.value == v
  }

  lemma OccursLonger(rows: seq<Row>, r: Row, s: Sensor, a: int, b: int, v: real)
    requires Occurs(rows, s, a, b, v) || (Selected(r, s, a, b) && r.value.value == v)
    ensures Occurs(rows + [r], s, a, b, v)
  {
    if Occurs(rows, s, a, b, v) {
      var x :| x in rows && Selected(x, s, a, b) && x.value.value == v;
      assert x in rows + [r];
    } else {
      assert r in rows + [r];
    }
  }

  /** A summary is what its name says: extremes that occur among the selected values and bound them. */
  lemma {:induction false} SummariseBounds(rows: seq<Row>, s: Sensor, a: int, b: int)
    requires Summarise(rows, s, a, b).Values?
    ensures var m := Summarise(rows, s, a, b);
      && (forall r :: r in rows && Selected(r, s, a, b) ==> m.min <= r.value.value <= m.max)
      && Occurs(rows, s, a, b, m.min) && Occurs(rows, s, a, b, m.max)
    decreases rows
  {
    var n := |rows| - 1;
    var rest, r, m := Summarise(rows[..n], s, a, b), rows[n], Summarise(rows, s, a, b);
    assert rows == rows[..n] + [r];
    if rest.Values? {
      SummariseBounds(rows[..n], s, a, b);
    } else {
      SummariseNothing(rows[..n], s, a, b);
    }
    OccursLonger(rows[..n], r, s, a, b, m.min);
    OccursLonger(rows[..n], r, s, a, b, m.max);
  }

  lemma ScaleBound(x: real, y: real, n: nat)
    requires x <= y
    ensures x * (n as real) <= y * (n as real)
  {
  }

  lemma {:induction false} SummariseTotal(rows: seq<Row>, s: Sensor, a: int, b: int)
    requires Summarise(rows, s, a, b).Values?
    ensures var m := Summarise(rows, s, a, b);
      m.min * (m.count as real) <= m.total <= m.max * (m.count as real)
    decreases rows
  {
    var n := |rows| - 1;
    var rest, r, m := Summarise(rows[..n], s, a, b), rows[n], Summarise(rows, s, a, b);
    if rest.Values? {
      SummariseTotal(rows[..n], s, a, b);
      if Selected(r, s, a, b) {
        ScaleBound(m.min, rest.min, rest.count);
        ScaleBound(rest.max, m.max, rest.count);
      }
    }
  }

  // ---------------------------------------------------------------- tables of buckets

  datatype Key = Key(sensor: Sensor, bucket: int)
  datatype Agg = Agg(min: real, max: real, avg: real, count: Positive)
  type Table = map<Key, Agg>
  /** The result of a SELECT ... GROUP BY sensor_name for one bucket. */
  type Groups = map<Sensor, Agg>

  /** INSERT OR REPLACE of one bucket's groups. */
  function Put(table: Table, bucket: int, groups: Groups): (r: Table)
    ensures forall k :: k in r <==> k in table || (k.bucket == bucket && k.sensor in groups)
    ensures forall k :: k in r ==> r[k] == if k.bucket == bucket && k.sensor in groups then groups[k.sensor] else table[k]
  {
    table + map s | s in groups :: Key(s, bucket) := groups[s]
  }

  /** The bucket loop: one statement per bucket from b up to end. */
  function Fill(group: int -> Groups, table: Table, b: int, end: int): Table
    decreases end - b
  {
    if b >= end then table else Fill(group, Put(table, b, group(b)), b + 1, end)
  }

  ghost predicate Below(table: Table, b: int) {
    forall k :: k in table ==> k.bucket < b
  }

  /** What the loop leaves behind: the old rows, and the groups of every bucket it went through. */
  lemma {:induction false} FillContents(group: int -> Groups, table: Table, b: int, end: int)
    requires Below(table, b)
    ensures forall k :: k in Fill(group, table, b, end) <==>
      k in table || (b <= k.bucket < end && k.sensor in group(k.bucket))
    ensures forall k :: k in Fill(group, table, b, end) ==>
      Fill(group, table, b, end)[k] == if k in table then table[k] else group(k.bucket)[k.sensor]
    decreases end - b
  {
    if b < end {
      FillContents(group, Put(table, b, group(b)), b + 1, end);
    }
  }

  lemma {:induction false} FillCompose(group: int -> Groups, table: Table, b: int, m: int, end: int)
    requires b <= m <= end
    ensures Fill(group, table, b, end) == Fill(group, Fill(group, table, b, m), m, end)
    decreases m - b
  {
    if b < m {
      FillCompose(group, Put(table, b, group(b)), b + 1, m, end);
    }
  }

  /** Buckets without groups can be skipped. */
  lemma {:induction false} FillSkips(group: int -> Groups, table: Table, b: int, m: int, end: int)
    requires b <= m && forall i :: b <= i < m ==> group(i) == map[]
    ensures Fill(group, table, b, end) == Fill(group, table, m, end)
    decreases m - b
  {
    if b < m {
      assert Put(table, b, group(b)) == table;
      if b < end {
        FillSkips(group, table, b + 1, m, end);
      }
    }
  }

  // ---------------------------------------------------------------- where the loop starts

  /** MAX(bucket_start), or the epoch for an empty table. */
  ghost predicate IsCursor(table: Table, cursor: int) {
    if table == map[] then
      cursor == 0
    else
      (exists k :: k in table && k.bucket == cursor) && Below(table, cursor + 1)
  }

  /** The first bucket: the one after the cursor, not before `since`, not before the earliest source row. */
  function StartBucket(cursor: int, since: int, earliest: Option<int>): int {
    var start := if cursor + 1 < since then since else cursor + 1;
    if earliest.Some? && start < earliest.value then earliest.value else start
  }

  lemma StartIsBeyondTable(table: Table, cursor: int, since: int, earliest: Option<int>)
    requires IsCursor(table, cursor)
    ensures Below(table, StartBucket(cursor, since, earliest))
  {
  }

  /** Nothing is grouped before the earliest source row. */
  ghost predicate EarliestFor(group: int -> Groups, earliest: Option<int>) {
    earliest.Some? ==> forall b :: b < earliest.value ==> group(b) == map[]
  }

  /** Clamping the start to the earliest source row changes nothing but the number of empty statements. */
  lemma ClampIsInvisible(group: int -> Groups, table: Table, cursor: int, since: int, earliest: Option<int>, end: int)
    requires EarliestFor(group, earliest)
    ensures Fill(group, table, StartBucket(cursor, since, earliest), end)
      == Fill(group, table, StartBucket(cursor, since, None), end)
  {
    FillSkips(group, table, StartBucket(cursor, since, None), StartBucket(cursor, since, earliest), end);
  }

  /** No existing bucket is overwritten. */
  lemma WriteOnce(group: int -> Groups, table: Table, cursor: int, since: int, earliest: Option<int>, end: int)
    requires IsCursor(table, cursor)
    ensures var r := Fill(group, table, StartBucket(cursor, since, earliest), end);
      forall k :: k in table ==> k in r && r[k] == table[k]
  {
    FillContents(group, table, StartBucket(cursor, since, earliest), end);
  }

  /** Stopping before bucket m and running again over the same source gives the table of an uninterrupted run;
      with m at the end, running again changes nothing. */
  lemma RestartIsUninterrupted(
    group: int -> Groups, table: Table, cursor: int, since: int, earliest: Option<int>, m: int, end: int, cursor': int)
    requires IsCursor(table, cursor) && StartBucket(cursor, since, earliest) <= m <= end
    requires IsCursor(Fill(group, table, StartBucket(cursor, since, earliest), m), cursor')
    ensures Fill(group, Fill(group, table, StartBucket(cursor, since, earliest), m),
      StartBucket(cursor', since, earliest), end)
      == Fill(group, table, StartBucket(cursor, since, earliest), end)
  {
    var start := StartBucket(cursor, since, earliest);
    var half := Fill(group, table, start, m);
    var start' := StartBucket(cursor', since, earliest);
    FillContents(group, table, start, m);
    FillCompose(group, table, start, m, end);
    forall b | start' <= b < m ensures group(b) == map[] {
      assert forall s :: s in group(b) ==> Key(s, b) in half;
    }
    assert start' <= m;
    FillSkips(group, half, start', m, end);
  }

  /** The number of affected rows is the growth of the table. */
  lemma PutGrows(table: Table, b: int, groups: Groups)
    requires Below(table, b)
    ensures |Put(table, b, groups)| == |table| + |groups|
  {
    var added := map s | s in groups :: Key(s, b) := groups[s];
    assert Put(table, b, groups).Keys == table.Keys + added.Keys;
    assert table.Keys !! added.Keys;
    KeysOfGroups(groups.Keys, added.Keys, b);
  }

  lemma {:induction false} KeysOfGroups(sensors: set<Sensor>, keys: set<Key>, b: int)
    requires forall k :: k in keys <==> k.bucket == b && k.sensor in sensors
    ensures |keys| == |sensors|
    decreases |sensors|
  {
    if s :| s in sensors {
      KeysOfGroups(sensors - {s}, keys - {Key(s, b)}, b);
    } else if k :| k in keys {
      assert k.sensor in sensors;
    }
  }

  // ---------------------------------------------------------------- the two statements

  function Sensors(rows: seq<Row>): set<Sensor> {
    set r | r in rows :: r.sensor
  }

  function ToAgg(m: Summary): Agg
    requires m.Values?
  {
    Agg(m.min, m.max, m.total / (m.count as real), m.count)
  }

  /** AggregateHourly's SELECT for hour h. */
  function HourGroups(rows: seq<Row>, h: int): Groups {
    map s | s in Sensors(rows) && Summarise(rows, s, h, h + 1).Values? :: ToAgg(Summarise(rows, s, h, h + 1))
  }

  lemma HourGroupsAre(rows: seq<Row>, h: int, s: Sensor)
    ensures s in HourGroups(rows, h) <==> Summarise(rows, s, h, h + 1).Values?
    ensures s in HourGroups(rows, h) ==> HourGroups(rows, h)[s] == ToAgg(Summarise(rows, s, h, h + 1))
  {
    if Summarise(rows, s, h, h + 1).Values? {
      SummariseNothing(rows, s, h, h + 1);
      var r :| r in rows && Selected(r, s, h, h + 1);
      assert r.sensor in Sensors(rows);
    }
  }

  /** MIN(value_min), MAX(value_max), SUM(value_avg), COUNT(*) and SUM(sample_count) of some hourly rows. */
  datatype HourRows = NoRows | Rows(min: real, max: real, averages: real, hours: Positive, count: Positive)

  function AddRow(rows: HourRows, a: Agg): HourRows {
    if rows.NoRows? then
      Rows(a.min, a.max, a.avg, 1, a.count)
    else
      Rows(
        if a.min < rows.min then a.min else rows.min,
        if a.max > rows.max then a.max else rows.max,
        rows.averages + a.avg, rows.hours + 1, rows.count + a.count)
  }

  /** The sensor's hourly rows among the first n hours of day d. */
  function FoldDay(hourly: Table, s: Sensor, d: int, n: nat): HourRows {
    if n == 0 then
      NoRows
    else
      var rows := FoldDay(hourly, s, d, n - 1);
      var k := Key(s, 24 * d + n - 1);
      if k in hourly then AddRow(rows, hourly[k]) else rows
  }

  /** AggregateDaily's SELECT for day d: the average of a day is the unweighted mean of its hourly averages. */
  function DayGroups(hourly: Table, d: int): Groups {
    map s | s in (set k | k in hourly :: k.sensor) && FoldDay(hourly, s, d, 24).Rows? ::
      var rows := FoldDay(hourly, s, d, 24);
      Agg(rows.min, rows.max, rows.averages / (rows.hours as real), rows.count)
  }

  lemma {:induction false} FoldDayNothing(hourly: Table, s: Sensor, d: int, n: nat)
    ensures FoldDay(hourly, s, d, n) == NoRows <==> forall i :: 24 * d <= i < 24 * d + n ==> Key(s, i) !in hourly
    decreases n
  {
    if n > 0 {
      FoldDayNothing(hourly, s, d, n - 1);
    }
  }

  lemma DayGroupsAre(hourly: Table, d: int, s: Sensor)
    ensures s in DayGroups(hourly, d) <==> FoldDay(hourly, s, d, 24).Rows?
  {
    if FoldDay(hourly, s, d, 24).Rows? {
      FoldDayNothing(hourly, s, d, 24);
      var i :| 24 * d <= i < 24 * d + 24 && Key(s, i) in hourly;
      assert Key(s, i).sensor == s;
    }
  }

  // ---------------------------------------------------------------- buckets against samples

  /** Hour h of the table is the aggregate of the sensor's rows of that hour, and absent when there are none. */
  ghost predicate HourMatches(hourly: Table, rows: seq<Row>, s: Sensor, h: int) {
    && (Key(s, h) in hourly <==> Summarise(rows, s, h, h + 1).Values?)
    && (Key(s, h) in hourly ==> hourly[Key(s, h)] == ToAgg(Summarise(rows, s, h, h + 1)))
  }

  /** Day d of the table has the count, minimum and maximum of the sensor's rows of that day. */
  ghost predicate DayMatches(daily: Table, rows: seq<Row>, s: Sensor, d: int) {
    var m := Summarise(rows, s, 24 * d, 24 * d + 24);
    && (Key(s, d) in daily <==> m.Values?)
    && (Key(s, d) in daily ==>
      var a := daily[Key(s, d)];
      a.count == m.count && a.min == m.min && a.max == m.max)
  }

  lemma {:induction false} SummariseBackwards(rows: seq<Row>, s: Sensor, a: int, b: int)
    requires b <= a
    ensures Summarise(rows, s, a, b) == Empty
    decreases rows
  {
    if rows != [] {
      SummariseBackwards(rows[..|rows| - 1], s, a, b);
    }
  }

  ghost predicate SameExtremes(h: HourRows, m: Summary) {
    && (h.Rows? <==> m.Values?)
    && (h.Rows? ==> h.min == m.min && h.max == m.max && h.count == m.count)
  }

  /** Aggregating hours and then days selects and counts as aggregating the day's samples directly. */
  lemma {:induction false} TwoLevels(hourly: Table, rows: seq<Row>, s: Sensor, d: int, n: nat)
    requires forall h :: 24 * d <= h < 24 * d + n ==> HourMatches(hourly, rows, s, h)
    ensures SameExtremes(FoldDay(hourly, s, d, n), Summarise(rows, s, 24 * d, 24 * d + n))
    decreases n
  {
    if n == 0 {
      SummariseBackwards(rows, s, 24 * d, 24 * d);
    } else {
      var h := 24 * d + n - 1;
      TwoLevels(hourly, rows, s, d, n - 1);
      SummariseSplit(rows, s, 24 * d, h, h + 1);
      assert HourMatches(hourly, rows, s, h);
    }
  }

  ghost predicate MeanBounded(f: HourRows) {
    f.Rows? ==> f.min * (f.hours as real) <= f.averages <= f.max * (f.hours as real)
  }

  lemma OneMoreBounded(lo: real, hi: real, total: real, n: nat, v: real)
    requires lo * (n as real) <= total <= hi * (n as real) && lo <= v <= hi
    ensures lo * ((n + 1) as real) <= total + v <= hi * ((n + 1) as real)
  {
    assert (n + 1) as real == n as real + 1.0;
    assert lo * (n as real + 1.0) == lo * (n as real) + lo && hi * (n as real + 1.0) == hi * (n as real) + hi;
  }

  lemma AddRowBounded(f: HourRows, a: Agg)
    requires MeanBounded(f) && a.min <= a.avg <= a.max
    ensures MeanBounded(AddRow(f, a))
  {
    var g := AddRow(f, a);
    if f.Rows? {
      ScaleBound(g.min, f.min, f.hours);
      ScaleBound(f.max, g.max, f.hours);
      OneMoreBounded(g.min, g.max, f.averages, f.hours, a.avg);
    } else {
      OneMoreBounded(g.min, g.max, 0.0, 0, a.avg);
    }
  }

  lemma HourAverage(hourly: Table, rows: seq<Row>, s: Sensor, h: int)
    requires HourMatches(hourly, rows, s, h) && Key(s, h) in hourly
    ensures var a := hourly[Key(s, h)]; a.min <= a.avg <= a.max
  {
    SummariseTotal(rows, s, h, h + 1);
    MeanBetween(Summarise(rows, s, h, h + 1));
  }

  lemma {:induction false} FoldDayBounded(hourly: Table, rows: seq<Row>, s: Sensor, d: int, n: nat)
    requires forall h :: 24 * d <= h < 24 * d + n ==> HourMatches(hourly, rows, s, h)
    ensures MeanBounded(FoldDay(hourly, s, d, n))
    decreases n
  {
    if n > 0 {
      var k := Key(s, 24 * d + n - 1);
      FoldDayBounded(hourly, rows, s, d, n - 1);
      if k in hourly {
        HourAverage(hourly, rows, s, k.bucket);
        AddRowBounded(FoldDay(hourly, s, d, n - 1), hourly[k]);
      }
    }
  }

  /** The daily average lies between the day's extremes. */
  lemma DayAverageBetween(hourly: Table, rows: seq<Row>, s: Sensor, d: int)
    requires forall h :: 24 * d <= h < 24 * d + 24 ==> HourMatches(hourly, rows, s, h)
    requires s in DayGroups(hourly, d)
    ensures var a := DayGroups(hourly, d)[s]; a.min <= a.avg <= a.max
  {
    FoldDayBounded(hourly, rows, s, d, 24);
    DayGroupsAre(hourly, d, s);
    var f := FoldDay(hourly, s, d, 24);
    QuotientBetween(f.averages, f.hours as real, f.min, f.max);
  }

  /** With c samples in every hour that has any, c times the sum of the averages is the sum of the samples. */
  lemma {:induction false} FoldDayEqualCounts(hourly: Table, rows: seq<Row>, s: Sensor, d: int, n: nat, c: Positive)
    requires forall h :: 24 * d <= h < 24 * d + n ==> HourMatches(hourly, rows, s, h)
    requires forall h :: 24 * d <= h < 24 * d + n && Key(s, h) in hourly ==> hourly[Key(s, h)].count == c
    ensures var f, m := FoldDay(hourly, s, d, n), Summarise(rows, s, 24 * d, 24 * d + n);
      && SameExtremes(f, m)
      && (f.Rows? ==> f.averages * (c as real) == m.total && f.count == f.hours * c)
    decreases n
  {
    TwoLevels(hourly, rows, s, d, n);
    if n > 0 {
      var h := 24 * d + n - 1;
      FoldDayEqualCounts(hourly, rows, s, d, n - 1, c);
      SummariseSplit(rows, s, 24 * d, h, h + 1);
      assert HourMatches(hourly, rows, s, h);
      if Key(s, h) in hourly {
        var m := Summarise(rows, s, h, h + 1);
        CancelQuotient(m.total, c as real);
        if FoldDay(hourly, s, d, n - 1).Rows? {
          Distribute(FoldDay(hourly, s, d, n - 1), hourly[Key(s, h)], c);
        }
      }
    }
  }

  lemma Distribute(f: HourRows, a: Agg, c: Positive)
    requires f.Rows?
    ensures (f.averages + a.avg) * (c as real) == f.averages * (c as real) + a.avg * (c as real)
    ensures (f.hours + 1) * c == f.hours * c + c
  {
  }

  lemma SameQuotient(averages: real, hours: Positive, c: Positive, total: real, count: Positive)
    requires averages * (c as real) == total && count == hours * c
    ensures averages / (hours as real) == total / (count as real)
  {
    var q := averages / (hours as real);
    assert q * (hours as real) == averages;
    assert (count as real) == (hours as real) * (c as real);
    assert q * (count as real) == total;
  }

  /** It is the true mean of the day's samples when the hours that have samples have equally many. */
  lemma DayAverageIsMean(hourly: Table, rows: seq<Row>, s: Sensor, d: int, c: Positive)
    requires forall h :: 24 * d <= h < 24 * d + 24 ==> HourMatches(hourly, rows, s, h)
    requires forall h :: 24 * d <= h < 24 * d + 24 && Key(s, h) in hourly ==> hourly[Key(s, h)].count == c
    requires s in DayGroups(hourly, d)
    ensures var m := Summarise(rows, s, 24 * d, 24 * d + 24);
      m.Values? && DayGroups(hourly, d)[s] == ToAgg(m)
  {
    FoldDayEqualCounts(hourly, rows, s, d, 24, c);
    DayGroupsAre(hourly, d, s);
    var f, m := FoldDay(hourly, s, d, 24), Summarise(rows, s, 24 * d, 24 * d + 24);
    SameQuotient(f.averages, f.hours, c, m.total, m.count);
  }

  lemma SummariseAppend(rows: seq<Row>, r: Row, s: Sensor, a: int, b: int)
    ensures Summarise(rows + [r], s, a, b) ==
      if Selected(r, s, a, b) then Merge(Summarise(rows, s, a, b), Single(r.value.value)) else Summarise(rows, s, a, b)
  {
    assert (rows + [r])[..|rows|] == rows;
  }

  lemma {:induction false} FoldDayRest(hourly: Table, s: Sensor, d: int, m: nat, n: nat)
    requires m <= n && forall i :: 24 * d + m <= i < 24 * d + n ==> Key(s, i) !in hourly
    ensures FoldDay(hourly, s, d, n) == FoldDay(hourly, s, d, m)
    decreases n
  {
    if m < n {
      FoldDayRest(hourly, s, d, m, n - 1);
    }
  }

  /** In general it is not: a sample 0 in one hour and two samples 3 in the next have mean 2 but are stored as 1.5. */
  lemma DayAverageIsNotMean() returns (rows: seq<Row>, hourly: Table, s: Sensor)
    ensures forall h :: 0 <= h < 24 ==> HourMatches(hourly, rows, s, h)
    ensures s in DayGroups(hourly, 0) && DayGroups(hourly, 0)[s].avg == 1.5
    ensures Summarise(rows, s, 0, 24).Values? && ToAgg(Summarise(rows, s, 0, 24)).avg == 2.0
  {
    s := "v";
    var x, y, z := Row(1, s, 0, Some(0.0)), Row(2, s, HOUR, Some(3.0)), Row(3, s, HOUR + 1, Some(3.0));
    rows := [x, y, z];
    hourly := map[Key(s, 0) := Agg(0.0, 0.0, 0.0, 1), Key(s, 1) := Agg(3.0, 3.0, 3.0, 2)];
    forall a, b ensures Summarise(rows, s, a, b) == ThreeSamples(a, b) {
      SummariseThree(x, y, z, s, a, b);
    }
    TwoHours(hourly, s);
  }

  /** The aggregate of 0 in hour 0 and twice 3 in hour 1. */
  function ThreeSamples(a: int, b: int): Summary {
    var second := if a <= 1 < b then Values(3.0, 3.0, 6.0, 2) else Empty;
    if a <= 0 < b then Merge(Single(0.0), second) else second
  }

  lemma SummariseThree(x: Row, y: Row, z: Row, s: Sensor, a: int, b: int)
    requires x == Row(1, s, 0, Some(0.0)) && y == Row(2, s, HOUR, Some(3.0)) && z == Row(3, s, HOUR + 1, Some(3.0))
    ensures Summarise([x, y, z], s, a, b) == ThreeSamples(a, b)
  {
    SummariseAppend([], x, s, a, b);
    SummariseAppend([x], y, s, a, b);
    SummariseAppend([x, y], z, s, a, b);
    assert [] + [x] == [x] && [x] + [y] == [x, y] && [x, y] + [z] == [x, y, z];
  }

  lemma TwoHours(hourly: Table, s: Sensor)
    requires hourly.Keys == {Key(s, 0), Key(s, 1)}
    requires hourly[Key(s, 0)] == Agg(0.0, 0.0, 0.0, 1) && hourly[Key(s, 1)] == Agg(3.0, 3.0, 3.0, 2)
    ensures s in DayGroups(hourly, 0) && DayGroups(hourly, 0)[s].avg == 1.5
  {
    FoldDayRest(hourly, s, 0, 2, 24);
    assert FoldDay(hourly, s, 0, 1) == Rows(0.0, 0.0, 0.0, 1, 1);
    assert FoldDay(hourly, s, 0, 2) == Rows(0.0, 3.0, 3.0, 2, 3);
    DayGroupsAre(hourly, 0, s);
  }

  lemma MeanBetween(m: Summary)
    requires m.Values? && m.min * (m.count as real) <= m.total <= m.max * (m.count as real)
    ensures m.min <= ToAgg(m).avg <= m.max
  {
    QuotientBetween(m.total, m.count as real, m.min, m.max);
  }
}
