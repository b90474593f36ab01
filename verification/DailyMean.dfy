/** When the stored daily average, the unweighted mean of the hourly averages, is the mean of the day's samples. */
module DailyMean {
  import opened Options
  import opened Rollup

  /** The hourly rows of the day are those of the samples. */
  ghost predicate Describes(hourly: Table, rows: seq<Row>, s: Sensor, d: int) {
    forall h :: 24 * d <= h < 24 * d + 24 ==> HourMatches(hourly, rows, s, h)
  }

  /** The sample_count of each hour of the day; an hour without samples has no row. */
  ghost predicate HasCounts(hourly: Table, s: Sensor, d: int, counts: seq<nat>)
    requires |counts| == 24
  {
    forall i :: 0 <= i < 24 ==> CountAt(hourly, Key(s, 24 * d + i), counts[i])
  }

  ghost predicate CountAt(hourly: Table, k: Key, count: nat) {
    (k in hourly <==> count > 0) && (k in hourly ==> hourly[k].count == count)
  }

  /** The daily statement stores the mean of the samples. */
  ghost predicate AveragedRight(hourly: Table, rows: seq<Row>, s: Sensor, d: int) {
    var m := Summarise(rows, s, 24 * d, 24 * d + 24);
    s in DayGroups(hourly, d) && m.Values? && DayGroups(hourly, d)[s].avg == ToAgg(m).avg
  }

  /** The hours that have samples have equally many. */
  predicate Even(counts: seq<nat>) {
    forall i, j :: 0 <= i < |counts| && 0 <= j < |counts| && counts[i] > 0 && counts[j] > 0 ==> counts[i] == counts[j]
  }

  // ---------------------------------------------------------------- equal counts suffice

  lemma EvenIsRight(hourly: Table, rows: seq<Row>, s: Sensor, d: int, counts: seq<nat>, p: nat)
    requires |counts| == 24 && p < 24 && counts[p] > 0 && Even(counts)
    requires Describes(hourly, rows, s, d) && HasCounts(hourly, s, d, counts)
    ensures AveragedRight(hourly, rows, s, d)
  {
    forall h | 24 * d <= h < 24 * d + 24 && Key(s, h) in hourly ensures hourly[Key(s, h)].count == counts[p] {
      assert CountAt(hourly, Key(s, 24 * d + (h - 24 * d)), counts[h - 24 * d]);
    }
    assert CountAt(hourly, Key(s, 24 * d + p), counts[p]);
    FoldDayNothing(hourly, s, d, 24);
    DayGroupsAre(hourly, d, s);
    DayAverageIsMean(hourly, rows, s, d, counts[p]);
  }

  // ---------------------------------------------------------------- samples with given counts

  function Repeat(r: Row, k: nat): seq<Row> {
    if k == 0 then [] else Repeat(r, k - 1) + [r]
  }

  function Bulk(v: real, k: nat): Summary {
    if k == 0 then Empty else Values(v, v, v * (k as real), k)
  }

  lemma RepeatOneMore(rows: seq<Row>, r: Row, k: nat) returns (fewer: seq<Row>)
    requires k > 0
    ensures fewer == rows + Repeat(r, k - 1) && rows + Repeat(r, k) == fewer + [r]
  {
    fewer := rows + Repeat(r, k - 1);
  }

  /** The aggregate with k more samples of one hour. */
  function WithBulk(m: Summary, v: real, k: nat, selected: bool): Summary {
    if selected then Merge(m, Bulk(v, k)) else m
  }

  lemma {:induction false} SummariseRepeat(rows: seq<Row>, r: Row, k: nat, s: Sensor, a: int, b: int)
    requires r.value.Some?
    ensures Summarise(rows + Repeat(r, k), s, a, b) ==
      WithBulk(Summarise(rows, s, a, b), r.value.value, k, Selected(r, s, a, b))
    decreases k
  {
    if k == 0 {
      assert rows + [] == rows;
    } else {
      var fewer := RepeatOneMore(rows, r, k);
      SummariseRepeat(rows, r, k - 1, s, a, b);
      SummariseAppend(fewer, r, s, a, b);
      OneMoreBulk(Summarise(rows, s, a, b), r.value.value, k);
    }
  }

  lemma OneMoreBulk(m: Summary, v: real, k: nat)
    requires k > 0
    ensures Merge(Merge(m, Bulk(v, k - 1)), Single(v)) == Merge(m, Bulk(v, k))
  {
    MergeLaws(m, Bulk(v, k - 1), Single(v));
    assert v * (k as real) == v * ((k - 1) as real) + v;
  }

  /** One in hour p and zero in all other hours. */
  function ValueIn(i: int, p: int): real {
    if i == p then 1.0 else 0.0
  }

  function SampleIn(s: Sensor, d: int, i: int, p: int): Row {
    Row(0, s, (24 * d + i) * HOUR, Some(ValueIn(i, p)))
  }

  function Spread(s: Sensor, d: int, counts: seq<nat>, p: nat): seq<Row> {
    if counts == [] then []
    else
      var n := |counts| - 1;
      Spread(s, d, counts[..n], p) + Repeat(SampleIn(s, d, n, p), counts[n])
  }

  lemma SampleHour(s: Sensor, d: int, i: int, p: int)
    ensures HourOf(SampleIn(s, d, i, p).time) == 24 * d + i
  {
  }

  lemma {:induction false} SpreadHour(s: Sensor, d: int, counts: seq<nat>, p: nat, i: nat)
    ensures Summarise(Spread(s, d, counts, p), s, 24 * d + i, 24 * d + i + 1) ==
      if i < |counts| then Bulk(ValueIn(i, p), counts[i]) else Empty
    decreases counts
  {
    if counts != [] {
      var n := |counts| - 1;
      SpreadHour(s, d, counts[..n], p, i);
      SampleHour(s, d, n, p);
      SummariseRepeat(
        Spread(s, d, counts[..n], p), SampleIn(s, d, n, p), counts[n], s, 24 * d + i, 24 * d + i + 1);
    }
  }

  function CountOf(m: Summary): nat {
    if m.Empty? then 0 else m.count
  }

  function TotalOf(m: Summary): real {
    if m.Empty? then 0.0 else m.total
  }

  function Sum(counts: seq<nat>): nat {
    if counts == [] then 0 else Sum(counts[..|counts| - 1]) + counts[|counts| - 1]
  }

  lemma {:induction false} SpreadDay(s: Sensor, d: int, counts: seq<nat>, p: nat)
    requires |counts| <= 24
    ensures var m := Summarise(Spread(s, d, counts, p), s, 24 * d, 24 * d + 24);
      && CountOf(m) == Sum(counts)
      && TotalOf(m) == if p < |counts| then counts[p] as real else 0.0
    decreases counts
  {
    if counts != [] {
      var n := |counts| - 1;
      SpreadDay(s, d, counts[..n], p);
      SampleHour(s, d, n, p);
      SummariseRepeat(Spread(s, d, counts[..n], p), SampleIn(s, d, n, p), counts[n], s, 24 * d, 24 * d + 24);
    }
  }

  // ---------------------------------------------------------------- their hourly table

  function HourlyOf(rows: seq<Row>, s: Sensor, d: int): Table {
    map h | 24 * d <= h < 24 * d + 24 && Summarise(rows, s, h, h + 1).Values? ::
      Key(s, h) := ToAgg(Summarise(rows, s, h, h + 1))
  }

  lemma HourlyOfAt(rows: seq<Row>, s: Sensor, d: int, h: int)
    requires 24 * d <= h < 24 * d + 24
    ensures HourMatches(HourlyOf(rows, s, d), rows, s, h)
  {
  }

  lemma BulkAverage(v: real, k: nat)
    requires k > 0
    ensures ToAgg(Bulk(v, k)) == Agg(v, v, v, k)
  {
    CancelFactor(v, k as real);
  }

  lemma CancelFactor(v: real, n: real)
    requires n > 0.0
    ensures v * n / n == v
  {
    var q := v * n / n;
    assert q * n == v * n;
    assert (q - v) * n == 0.0;
  }

  lemma SpreadTable(s: Sensor, d: int, counts: seq<nat>, p: nat, i: nat, k: Key)
    requires |counts| == 24 && i < 24 && k == Key(s, 24 * d + i)
    ensures var hourly := HourlyOf(Spread(s, d, counts, p), s, d);
      && CountAt(hourly, k, counts[i])
      && (counts[i] > 0 ==> hourly[k].avg == ValueIn(i, p))
  {
    SpreadHour(s, d, counts, p, i);
    HourlyOfAt(Spread(s, d, counts, p), s, d, k.bucket);
    if counts[i] > 0 {
      BulkAverage(ValueIn(i, p), counts[i]);
    }
  }

  function Busy(counts: seq<nat>): nat {
    if counts == [] then 0 else Busy(counts[..|counts| - 1]) + if counts[|counts| - 1] > 0 then 1 else 0
  }

  function HoursIn(f: HourRows): nat {
    if f.NoRows? then 0 else f.hours
  }

  function AveragesIn(f: HourRows): real {
    if f.NoRows? then 0.0 else f.averages
  }

  lemma {:induction false} SpreadFold(s: Sensor, d: int, counts: seq<nat>, p: nat, hourly: Table, n: nat)
    requires |counts| == 24 && n <= 24 && hourly == HourlyOf(Spread(s, d, counts, p), s, d)
    ensures var f := FoldDay(hourly, s, d, n);
      HoursIn(f) == Busy(counts[..n]) && AveragesIn(f) == if p < n && counts[p] > 0 then 1.0 else 0.0
    decreases n
  {
    if n > 0 {
      assert counts[..n][..n - 1] == counts[..n - 1];
      SpreadFold(s, d, counts, p, hourly, n - 1);
      SpreadTable(s, d, counts, p, n - 1, Key(s, 24 * d + n - 1));
    }
  }

  /** These samples are stored as 1 / hours, and their mean is counts[p] / count. */
  lemma SpreadAverages(s: Sensor, d: int, counts: seq<nat>, p: nat) returns (hourly: Table, rows: seq<Row>)
    requires |counts| == 24 && p < 24 && counts[p] > 0
    ensures Describes(hourly, rows, s, d) && HasCounts(hourly, s, d, counts)
    ensures Busy(counts) > 0 && Sum(counts) > 0
    ensures s in DayGroups(hourly, d) && DayGroups(hourly, d)[s].avg == 1.0 / (Busy(counts) as real)
    ensures var m := Summarise(rows, s, 24 * d, 24 * d + 24);
      m.Values? && ToAgg(m).avg == (counts[p] as real) / (Sum(counts) as real)
  {
    rows := Spread(s, d, counts, p);
    hourly := HourlyOf(rows, s, d);
    forall h | 24 * d <= h < 24 * d + 24 ensures HourMatches(hourly, rows, s, h) {
      HourlyOfAt(rows, s, d, h);
    }
    forall i | 0 <= i < 24 ensures CountAt(hourly, Key(s, 24 * d + i), counts[i]) {
      SpreadTable(s, d, counts, p, i, Key(s, 24 * d + i));
    }
    assert CountAt(hourly, Key(s, 24 * d + p), counts[p]);
    FoldDayNothing(hourly, s, d, 24);
    DayGroupsAre(hourly, d, s);
    assert counts[..24] == counts;
    SpreadFold(s, d, counts, p, hourly, 24);
    SpreadDay(s, d, counts, p);
    TwoLevels(hourly, rows, s, d, 24);
  }

  // ---------------------------------------------------------------- and are necessary

  lemma SameFraction(hours: nat, c: nat, total: nat)
    requires hours > 0 && total > 0 && 1.0 / (hours as real) == (c as real) / (total as real)
    ensures c * hours == total
  {
    var q := 1.0 / (hours as real);
    assert q * (hours as real) == 1.0 && q * (total as real) == c as real;
    assert (c as real) * (hours as real) == q * (total as real) * (hours as real) == total as real;
    assert ((c * hours) as real) == (c as real) * (hours as real);
  }

  lemma SameProduct(x: nat, y: nat, hours: nat)
    requires hours > 0 && x * hours == y * hours
    ensures x == y
  {
    assert (x - y) * hours == 0;
  }

  lemma UnevenIsWrong(s: Sensor, d: int, counts: seq<nat>, i: nat, j: nat) returns (hourly: Table, rows: seq<Row>)
    requires |counts| == 24 && i < 24 && j < 24 && counts[i] > 0 && counts[j] > 0 && counts[i] != counts[j]
    ensures Describes(hourly, rows, s, d) && HasCounts(hourly, s, d, counts) && !AveragedRight(hourly, rows, s, d)
  {
    hourly, rows := SpreadAverages(s, d, counts, i);
    if AveragedRight(hourly, rows, s, d) {
      SameFraction(Busy(counts), counts[i], Sum(counts));
      hourly, rows := SpreadAverages(s, d, counts, j);
      if AveragedRight(hourly, rows, s, d) {
        SameFraction(Busy(counts), counts[j], Sum(counts));
        SameProduct(counts[i], counts[j], Busy(counts));
      }
    }
  }

  /** For given counts of the hours, whatever the samples are their mean is what is stored, if and only if the hours that
      have samples have equally many. */
  lemma DayAverageIsMeanIff(s: Sensor, d: int, counts: seq<nat>)
    requires |counts| == 24 && exists p :: 0 <= p < 24 && counts[p] > 0
    ensures Even(counts) <==> forall hourly, rows ::
      Describes(hourly, rows, s, d) && HasCounts(hourly, s, d, counts) ==> AveragedRight(hourly, rows, s, d)
  {
    if Even(counts) {
      var p :| 0 <= p < 24 && counts[p] > 0;
      forall hourly, rows | Describes(hourly, rows, s, d) && HasCounts(hourly, s, d, counts)
        ensures AveragedRight(hourly, rows, s, d)
      {
        EvenIsRight(hourly, rows, s, d, counts, p);
      }
    } else {
      var i, j :| 0 <= i < 24 && 0 <= j < 24 && counts[i] > 0 && counts[j] > 0 && counts[i] != counts[j];
      var hourly, rows := UnevenIsWrong(s, d, counts, i, j);
    }
  }
}
