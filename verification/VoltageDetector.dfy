/** What one electrical phase's detector does to its list of voltage events, sample by sample and run by run,
    and what that list says about the samples. */
module VoltageDetector {
  import opened Arithmetic
  import opened Options

  /** The band of IEC 60038: 230 V plus or minus ten per cent. */
  const VOLTAGE_MIN := 207.0
  const VOLTAGE_MAX := 253.0

  predicate Out(v: real) { v < VOLTAGE_MIN || v > VOLTAGE_MAX }

  /** A sample of one phase: when it was taken (nanoseconds) and its numeric value, if it has one. */
  datatype Reading = Reading(time: int, value: Option<real>)

  predicate OutReading(r: Reading) { r.value.Some? && Out(r.value.value) }
  predicate InReading(r: Reading) { r.value.Some? && !Out(r.value.value) }

  /** A voltage event with its provenance: every out-of-range value that belongs to it, and the part of them
      that came in the latest run which contributed any. Rows store statistics of the second list. */
  datatype Excursion = Excursion(
    start: int, end: Option<int>, duration: Option<int>, all: seq<real>, recent: seq<real>)

  /** One phase in the middle of a run: the phase's events, the event being extended, and whether this run has
      counted a sample into the statistics (`count` in phaseState is not zero). */
  datatype Scan = Scan(track: seq<Excursion>, open: Option<nat>, counted: bool)

  predicate PointsInto(open: Option<nat>, track: seq<Excursion>) {
    open.Some? ==> open.value < |track|
  }

  const NANOSECONDS := 1_000_000_000

  /** Whole seconds, truncated towards zero. */
  function Seconds(d: int): int {
    if d >= 0 then d / NANOSECONDS else -((-d) / NANOSECONDS)
  }

  function Step(s: Scan, r: Reading): (s': Scan)
    requires PointsInto(s.open, s.track)
    ensures PointsInto(s'.open, s'.track) && |s'.track| >= |s.track|
  {
    if r.value.None? then
      s
    else
      var v := r.value.value;
      if Out(v) then
        if s.open.None? then
          Scan(s.track + [Excursion(r.time, None, None, [v], [v])], Some(|s.track|), true)
        else
          var e := s.track[s.open.value];
          var e' := e.(all := e.all + [v], recent := if s.counted then e.recent + [v] else [v]);
          Scan(s.track[s.open.value := e'], s.open, true)
      else if s.open.Some? then
        var e := s.track[s.open.value];
        var e' := e.(end := Some(r.time), duration := Some(Seconds(r.time - e.start)));
        Scan(s.track[s.open.value := e'], None, s.counted)
      else
        s
  }

  function StepAll(s: Scan, chunk: seq<Reading>): (s': Scan)
    requires PointsInto(s.open, s.track)
    ensures PointsInto(s'.open, s'.track) && |s'.track| >= |s.track|
    decreases chunk
  {
    if chunk == [] then s else Step(StepAll(s, chunk[..|chunk| - 1]), chunk[|chunk| - 1])
  }

  /** A run over a chunk starts with nothing counted. */
  function Run(track: seq<Excursion>, open: Option<nat>, chunk: seq<Reading>): (s: Scan)
    requires PointsInto(open, track)
    ensures PointsInto(s.open, s.track) && |s.track| >= |track|
  {
    StepAll(Scan(track, open, false), chunk)
  }

  // ---------------------------------------------------------------- the intervals alone

  datatype Interval = Interval(start: int, end: Option<int>, duration: Option<int>)

  function Shape(e: Excursion): Interval { Interval(e.start, e.end, e.duration) }

  function Shapes(track: seq<Excursion>): (shapes: seq<Interval>)
    ensures |shapes| == |track| && forall i :: 0 <= i < |track| ==> shapes[i] == Shape(track[i])
  {
    if track == [] then [] else Shapes(track[..|track| - 1]) + [Shape(track[|track| - 1])]
  }

  predicate Ongoing(shapes: seq<Interval>) {
    shapes != [] && shapes[|shapes| - 1].end.None?
  }

  function Extend(shapes: seq<Interval>, r: Reading): seq<Interval> {
    if OutReading(r) && !Ongoing(shapes) then
      shapes + [Interval(r.time, None, None)]
    else if InReading(r) && Ongoing(shapes) then
      var last := shapes[|shapes| - 1];
      shapes[|shapes| - 1 := Interval(last.start, Some(r.time), Some(Seconds(r.time - last.start)))]
    else
      shapes
  }

  /** The reference: the intervals of a whole stream, with no notion of runs, cursors or statistics. */
  function Detect(stream: seq<Reading>): seq<Interval>
    decreases stream
  {
    if stream == [] then [] else Extend(Detect(stream[..|stream| - 1]), stream[|stream| - 1])
  }

  /** The ongoing id of the cursor names exactly the last event, and only while it is open. */
  ghost predicate PointsAtOngoing(open: Option<nat>, track: seq<Excursion>) {
    open == if Ongoing(Shapes(track)) then Some(|track| - 1) else None
  }

  /** A track is the trace of a stream when it has the stream's intervals and the pointer is right. */
  ghost predicate Traces(track: seq<Excursion>, open: Option<nat>, stream: seq<Reading>) {
    Shapes(track) == Detect(stream) && PointsAtOngoing(open, track)
  }

  lemma ShapesExtended(track: seq<Excursion>, e: Excursion)
    ensures Shapes(track + [e]) == Shapes(track) + [Shape(e)]
  {
  }

  lemma ShapesReplaced(track: seq<Excursion>, i: nat, e: Excursion)
    requires i < |track|
    ensures Shapes(track[i := e]) == Shapes(track)[i := Shape(e)]
  {
  }

  lemma StepExtends(s: Scan, r: Reading)
    requires PointsInto(s.open, s.track) && PointsAtOngoing(s.open, s.track)
    ensures Shapes(Step(s, r).track) == Extend(Shapes(s.track), r)
  {
    var s' := Step(s, r);
    if OutReading(r) && s.open.None? {
      ShapesExtended(s.track, s'.track[|s.track|]);
    } else if s.open.Some? && r.value.Some? {
      ShapesReplaced(s.track, s.open.value, s'.track[s.open.value]);
    }
  }

  lemma DetectOneMore(stream: seq<Reading>, r: Reading)
    ensures Detect(stream + [r]) == Extend(Detect(stream), r)
  {
    assert (stream + [r])[..|stream|] == stream;
  }

  lemma StepTraces(s: Scan, stream: seq<Reading>, r: Reading)
    requires PointsInto(s.open, s.track) && Traces(s.track, s.open, stream)
    ensures Traces(Step(s, r).track, Step(s, r).open, stream + [r])
  {
    DetectOneMore(stream, r);
    StepExtends(s, r);
  }

  lemma {:induction false} StepAllTraces(s: Scan, stream: seq<Reading>, chunk: seq<Reading>)
    requires PointsInto(s.open, s.track) && Traces(s.track, s.open, stream)
    ensures Traces(StepAll(s, chunk).track, StepAll(s, chunk).open, stream + chunk)
    decreases chunk
  {
    if chunk == [] {
      assert stream + chunk == stream;
    } else {
      var n := |chunk| - 1;
      StepAllTraces(s, stream, chunk[..n]);
      StepTraces(StepAll(s, chunk[..n]), stream + chunk[..n], chunk[n]);
      assert stream + chunk == stream + chunk[..n] + [chunk[n]];
    }
  }

  // ---------------------------------------------------------------- successive runs

  function Concat(chunks: seq<seq<Reading>>): seq<Reading>
    decreases chunks
  {
    if chunks == [] then [] else Concat(chunks[..|chunks| - 1]) + chunks[|chunks| - 1]
  }

  /** Error-free runs over successive chunks, each starting from the events and pointer the last one saved. */
  function RunAll(chunks: seq<seq<Reading>>): (s: Scan)
    ensures PointsInto(s.open, s.track)
    decreases chunks
  {
    if chunks == [] then
      Scan([], None, false)
    else
      var s := RunAll(chunks[..|chunks| - 1]);
      Run(s.track, s.open, chunks[|chunks| - 1])
  }

  lemma {:induction false} RunAllTraces(chunks: seq<seq<Reading>>)
    ensures Traces(RunAll(chunks).track, RunAll(chunks).open, Concat(chunks))
    decreases chunks
  {
    if chunks != [] {
      var n := |chunks| - 1;
      RunAllTraces(chunks[..n]);
      var s := RunAll(chunks[..n]);
      StepAllTraces(Scan(s.track, s.open, false), Concat(chunks[..n]), chunks[n]);
    }
  }

  /** However the stream is split into runs, the events have the same start, end and duration and the same one
      is left open; and they are the events of the stream read in one go. */
  lemma ChunkingIndependence(chunks: seq<seq<Reading>>, others: seq<seq<Reading>>)
    requires Concat(chunks) == Concat(others)
    ensures Shapes(RunAll(chunks).track) == Shapes(RunAll(others).track)
    ensures RunAll(chunks).open == RunAll(others).open
    ensures Shapes(RunAll(chunks).track) == Shapes(Run([], None, Concat(chunks)).track)
  {
    RunAllTraces(chunks);
    RunAllTraces(others);
    StepAllTraces(Scan([], None, false), [], Concat(chunks));
    assert [] + Concat(chunks) == Concat(chunks);
  }

  // ---------------------------------------------------------------- the events as an index

  predicate Covers(i: Interval, t: int) {
    i.start <= t && (i.end.Some? ==> t < i.end.value)
  }

  ghost predicate Increasing(stream: seq<Reading>) {
    forall j, k :: 0 <= j < k < |stream| ==> stream[j].time < stream[k].time
  }

  /** Ordered, disjoint, and closed except possibly the last; bounded by the stream's last time. */
  ghost predicate WellOrdered(shapes: seq<Interval>, stream: seq<Reading>) {
    && (forall i :: 0 <= i < |shapes| - 1 ==> shapes[i].end.Some?)
    && (forall i :: 0 <= i < |shapes| && shapes[i].end.Some? ==> shapes[i].start < shapes[i].end.value)
    && (forall i, k :: 0 <= i < k < |shapes| && shapes[i].end.Some? ==> shapes[i].end.value < shapes[k].start)
    && (shapes != [] ==> stream != [])
    && (forall i :: 0 <= i < |shapes| ==> shapes[i].start <= stream[|stream| - 1].time)
    && (forall i :: 0 <= i < |shapes| && shapes[i].end.Some? ==> shapes[i].end.value <= stream[|stream| - 1].time)
  }

  ghost predicate OutAt(stream: seq<Reading>, t: int) {
    exists j :: 0 <= j < |stream| && OutReading(stream[j]) && stream[j].time == t
  }

  ghost predicate InAt(stream: seq<Reading>, t: int) {
    exists j :: 0 <= j < |stream| && InReading(stream[j]) && stream[j].time == t
  }

  /** The event starts at an out-of-range sample, ends at an in-range one, and lasts the time between. */
  ghost predicate AnchoredAt(i: Interval, stream: seq<Reading>) {
    && OutAt(stream, i.start)
    && (i.end.None? ==> i.duration.None?)
    && (i.end.Some? ==> InAt(stream, i.end.value) && i.duration == Some(Seconds(i.end.value - i.start)))
  }

  ghost predicate Anchored(shapes: seq<Interval>, stream: seq<Reading>) {
    forall i :: 0 <= i < |shapes| ==> AnchoredAt(shapes[i], stream)
  }

  ghost predicate OnlyCover(shapes: seq<Interval>, t: int, i: nat) {
    && i < |shapes| && Covers(shapes[i], t)
    && forall k :: 0 <= k < |shapes| && k != i ==> !Covers(shapes[k], t)
  }

  ghost predicate CoveredOnce(shapes: seq<Interval>, t: int) {
    exists i :: OnlyCover(shapes, t, i)
  }

  ghost predicate Uncovered(shapes: seq<Interval>, t: int) {
    forall i :: 0 <= i < |shapes| ==> !Covers(shapes[i], t)
  }

  /** The table of events answers, for every numeric sample, whether it was in range. */
  ghost predicate IndexesAt(shapes: seq<Interval>, r: Reading) {
    && (OutReading(r) ==> CoveredOnce(shapes, r.time))
    && (InReading(r) ==> Uncovered(shapes, r.time))
  }

  /** What holds of the events of a stream with increasing times. */
  ghost predicate ExactIndex(shapes: seq<Interval>, stream: seq<Reading>) {
    && WellOrdered(shapes, stream)
    && Anchored(shapes, stream)
    && forall j :: 0 <= j < |stream| ==> IndexesAt(shapes, stream[j])
  }

  ghost predicate OutsideAt(stream: seq<Reading>, t: int) {
    exists j :: 0 <= j < |stream| && stream[j].time == t && stream[j].value.Some? && Outside(stream[j].value.value)
  }

  ghost predicate InsideAt(stream: seq<Reading>, t: int) {
    exists j :: 0 <= j < |stream| && stream[j].time == t && stream[j].value.Some? && Inside(stream[j].value.value)
  }

  /** Below 207 V or above 253 V. */
  predicate Outside(v: real) { v < 207.0 || v > 253.0 }

  predicate Inside(v: real) { 207.0 <= v <= 253.0 }

  /** The event starts at a sample outside the band and ends at one inside, and its duration is the whole seconds in
      between. */
  ghost predicate SpansValues(i: Interval, stream: seq<Reading>) {
    && OutsideAt(stream, i.start)
    && (i.end.Some? <==> i.duration.Some?)
    && (i.end.Some? ==>
      && InsideAt(stream, i.end.value)
      && 0 <= (i.end.value - i.start) - i.duration.value * 1_000_000_000 < 1_000_000_000)
  }

  /** ExactIndex, told on the voltages themselves. */
  ghost predicate IndexOfValues(shapes: seq<Interval>, stream: seq<Reading>) {
    && (forall j :: 0 <= j < |stream| && stream[j].value.Some? && Outside(stream[j].value.value) ==>
      CoveredOnce(shapes, stream[j].time))
    && (forall j :: 0 <= j < |stream| && stream[j].value.Some? && Inside(stream[j].value.value) ==>
      Uncovered(shapes, stream[j].time))
    && (forall i :: 0 <= i < |shapes| ==> SpansValues(shapes[i], stream))
  }

  lemma ExactIndexOfValues(shapes: seq<Interval>, stream: seq<Reading>)
    requires ExactIndex(shapes, stream)
    ensures IndexOfValues(shapes, stream)
  {
    forall j | 0 <= j < |stream| ensures IndexesAt(shapes, stream[j]) {
    }
    forall i | 0 <= i < |shapes| ensures SpansValues(shapes[i], stream) {
      AnchoredSpans(shapes[i], stream);
    }
  }

  lemma AnchoredSpans(i: Interval, stream: seq<Reading>)
    requires AnchoredAt(i, stream) && (i.end.Some? ==> i.start < i.end.value)
    ensures SpansValues(i, stream)
  {
    var j :| 0 <= j < |stream| && OutReading(stream[j]) && stream[j].time == i.start;
    assert Outside(stream[j].value.value);
    if i.end.Some? {
      var k :| 0 <= k < |stream| && InReading(stream[k]) && stream[k].time == i.end.value;
      assert Inside(stream[k].value.value);
    }
  }

  lemma ExtendWellOrdered(shapes: seq<Interval>, stream: seq<Reading>, r: Reading)
    requires WellOrdered(shapes, stream) && (stream != [] ==> stream[|stream| - 1].time < r.time)
    ensures WellOrdered(Extend(shapes, r), stream + [r])
  {
    assert (stream + [r])[|stream + [r]| - 1] == r;
  }

  lemma AnchoredLonger(i: Interval, stream: seq<Reading>, r: Reading)
    requires AnchoredAt(i, stream)
    ensures AnchoredAt(i, stream + [r])
  {
    var longer := stream + [r];
    var j :| 0 <= j < |stream| && OutReading(stream[j]) && stream[j].time == i.start;
    assert OutReading(longer[j]) && longer[j].time == i.start;
    if i.end.Some? {
      var k :| 0 <= k < |stream| && InReading(stream[k]) && stream[k].time == i.end.value;
      assert InReading(longer[k]) && longer[k].time == i.end.value;
    }
  }

  lemma ExtendAnchored(shapes: seq<Interval>, stream: seq<Reading>, r: Reading)
    requires Anchored(shapes, stream)
    ensures Anchored(Extend(shapes, r), stream + [r])
  {
    var longer, shapes' := stream + [r], Extend(shapes, r);
    assert longer[|stream|] == r;
    assert OutReading(r) ==> OutAt(longer, r.time);
    assert InReading(r) ==> InAt(longer, r.time);
    forall i | 0 <= i < |shapes'| ensures AnchoredAt(shapes'[i], longer) {
      if i < |shapes| {
        AnchoredLonger(shapes[i], stream, r);
      }
    }
  }

  /** An older sample is covered by the same events as before. */
  lemma ExtendKeepsCover(shapes: seq<Interval>, r: Reading, t: int)
    requires t < r.time
    ensures |shapes| <= |Extend(shapes, r)|
    ensures forall i :: 0 <= i < |Extend(shapes, r)| ==>
      (Covers(Extend(shapes, r)[i], t) <==> i < |shapes| && Covers(shapes[i], t))
  {
  }

  lemma ExtendKeepsIndex(shapes: seq<Interval>, r: Reading, before: Reading)
    requires before.time < r.time && IndexesAt(shapes, before)
    ensures IndexesAt(Extend(shapes, r), before)
  {
    var longer := Extend(shapes, r);
    ExtendKeepsCover(shapes, r, before.time);
    if OutReading(before) {
      var i :| OnlyCover(shapes, before.time, i);
      assert OnlyCover(longer, before.time, i);
    }
  }

  lemma EarlierDoNotCover(shapes: seq<Interval>, stream: seq<Reading>, t: int)
    requires WellOrdered(shapes, stream) && (stream != [] ==> stream[|stream| - 1].time < t)
    ensures forall i :: 0 <= i < |shapes| ==> (Covers(shapes[i], t) <==> i == |shapes| - 1 && Ongoing(shapes))
  {
  }

  lemma ExtendIndexesNew(shapes: seq<Interval>, stream: seq<Reading>, r: Reading)
    requires WellOrdered(shapes, stream) && (stream != [] ==> stream[|stream| - 1].time < r.time)
    ensures IndexesAt(Extend(shapes, r), r)
  {
    var longer := Extend(shapes, r);
    EarlierDoNotCover(shapes, stream, r.time);
    if OutReading(r) {
      assert OnlyCover(longer, r.time, |longer| - 1);
    }
  }

  lemma ExtendIndexes(shapes: seq<Interval>, stream: seq<Reading>, r: Reading)
    requires ExactIndex(shapes, stream)
    requires forall j :: 0 <= j < |stream| ==> stream[j].time < r.time
    ensures ExactIndex(Extend(shapes, r), stream + [r])
  {
    ExtendWellOrdered(shapes, stream, r);
    ExtendAnchored(shapes, stream, r);
    ExtendIndexesNew(shapes, stream, r);
    forall j | 0 <= j < |stream + [r]| ensures IndexesAt(Extend(shapes, r), (stream + [r])[j]) {
      if j < |stream| {
        assert IndexesAt(shapes, stream[j]);
        ExtendKeepsIndex(shapes, r, stream[j]);
      }
    }
  }

  lemma {:induction false} DetectIndexes(stream: seq<Reading>)
    requires Increasing(stream)
    ensures ExactIndex(Detect(stream), stream)
    decreases stream
  {
    if stream != [] {
      var n := |stream| - 1;
      assert stream == stream[..n] + [stream[n]];
      DetectIndexes(stream[..n]);
      ExtendIndexes(Detect(stream[..n]), stream[..n], stream[n]);
    }
  }

  /** The events left by any sequence of error-free runs over samples with increasing times: a numeric sample is
      out of range exactly when one event covers it, at most the last event is open, and the saved id names
      that event. */
  lemma EventsAreExactIndex(chunks: seq<seq<Reading>>)
    requires Increasing(Concat(chunks))
    ensures ExactIndex(Shapes(RunAll(chunks).track), Concat(chunks))
    ensures IndexOfValues(Shapes(RunAll(chunks).track), Concat(chunks))
    ensures var shapes, stream := Shapes(RunAll(chunks).track), Concat(chunks);
      forall j :: 0 <= j < |stream| && stream[j].value.Some? ==>
        var v, t := stream[j].value.value, stream[j].time;
        && (v < 207.0 || v > 253.0 ==> CoveredOnce(shapes, t))
        && (207.0 <= v <= 253.0 ==> Uncovered(shapes, t))
    ensures PointsAtOngoing(RunAll(chunks).open, RunAll(chunks).track)
  {
    RunAllTraces(chunks);
    DetectIndexes(Concat(chunks));
    ExactIndexOfValues(Shapes(RunAll(chunks).track), Concat(chunks));
  }

  // ---------------------------------------------------------------- statistics

  function MinOf(vals: seq<real>): real
    requires vals != []
    decreases vals
  {
    var n := |vals| - 1;
    if n == 0 then vals[0] else if vals[n] < MinOf(vals[..n]) then vals[n] else MinOf(vals[..n])
  }

  function MaxOf(vals: seq<real>): real
    requires vals != []
    decreases vals
  {
    var n := |vals| - 1;
    if n == 0 then vals[0] else if vals[n] > MaxOf(vals[..n]) then vals[n] else MaxOf(vals[..n])
  }

  function Total(vals: seq<real>): real
    decreases vals
  {
    if vals == [] then 0.0 else Total(vals[..|vals| - 1]) + vals[|vals| - 1]
  }

  function Average(vals: seq<real>): real
    requires vals != []
  {
    Total(vals) / (|vals| as real)
  }

  /** min and max are values of the list and bound it. */
  lemma {:induction false} ExtremesBound(vals: seq<real>)
    requires vals != []
    ensures MinOf(vals) in vals && MaxOf(vals) in vals
    ensures forall i :: 0 <= i < |vals| ==> MinOf(vals) <= vals[i] <= MaxOf(vals)
    decreases vals
  {
    if |vals| > 1 {
      ExtremesBound(vals[..|vals| - 1]);
    }
  }

  lemma {:induction false} TotalBetween(vals: seq<real>, lo: real, hi: real)
    requires forall i :: 0 <= i < |vals| ==> lo <= vals[i] <= hi
    ensures lo * (|vals| as real) <= Total(vals) <= hi * (|vals| as real)
    decreases vals
  {
    if vals != [] {
      TotalBetween(vals[..|vals| - 1], lo, hi);
    }
  }

  lemma AverageBetween(vals: seq<real>)
    requires vals != []
    ensures MinOf(vals) <= Average(vals) <= MaxOf(vals)
  {
    ExtremesBound(vals);
    TotalBetween(vals, MinOf(vals), MaxOf(vals));
    QuotientBetween(Total(vals), |vals| as real, MinOf(vals), MaxOf(vals));
  }

  /** The average is the mean: the sum of the values, each taken once, over their number. */
  lemma {:induction false} AverageIsMean(a: seq<real>, b: seq<real>, v: real)
    requires a != []
    ensures Average(a) * (|a| as real) == Total(a)
    ensures Total([v]) == v && Total(a + b) == Total(a) + Total(b)
    decreases b
  {
    CancelQuotient(Total(a), |a| as real);
    assert [v][..0] == [];
    assert Total([v]) == Total([v][..|[v]| - 1]) + v;
    if b == [] {
      assert a + b == a;
    } else {
      var n := |b| - 1;
      assert (a + b)[..|a + b| - 1] == a + b[..n];
      AverageIsMean(a, b[..n], v);
    }
  }

  /** The out-of-range values of a stream that an event covers. */
  function CoveredValues(stream: seq<Reading>, i: Interval): seq<real>
    decreases stream
  {
    if stream == [] then
      []
    else
      var r := stream[|stream| - 1];
      CoveredValues(stream[..|stream| - 1], i)
        + if OutReading(r) && Covers(i, r.time) then [r.value.value] else []
  }

  lemma {:induction false} CoveredValuesAppend(a: seq<Reading>, b: seq<Reading>, i: Interval)
    ensures CoveredValues(a + b, i) == CoveredValues(a, i) + CoveredValues(b, i)
    decreases b
  {
    if b == [] {
      assert a + b == a;
    } else {
      var n := |b| - 1;
      assert (a + b)[..|a + b| - 1] == a + b[..n];
      CoveredValuesAppend(a, b[..n], i);
    }
  }

  lemma {:induction false} CoveredValuesOutside(stream: seq<Reading>, i: Interval)
    ensures forall v :: v in CoveredValues(stream, i) ==> Outside(v)
    decreases stream
  {
    if stream != [] {
      CoveredValuesOutside(stream[..|stream| - 1], i);
    }
  }

  /** Coverage only depends on which of the stream's times are covered. */
  lemma {:induction false} CoveredValuesSame(stream: seq<Reading>, i: Interval, k: Interval)
    requires forall j :: 0 <= j < |stream| ==> (Covers(i, stream[j].time) <==> Covers(k, stream[j].time))
    ensures CoveredValues(stream, i) == CoveredValues(stream, k)
    decreases stream
  {
    if stream != [] {
      CoveredValuesSame(stream[..|stream| - 1], i, k);
    }
  }

  lemma {:induction false} CoveredValuesNone(stream: seq<Reading>, i: Interval)
    requires forall j :: 0 <= j < |stream| ==> !Covers(i, stream[j].time)
    ensures CoveredValues(stream, i) == []
    decreases stream
  {
    if stream != [] {
      CoveredValuesNone(stream[..|stream| - 1], i);
    }
  }

  /** What a run may do to the events it found. Only the open one changes: its values grow, what the run adds
      becomes its recent part, and it may be closed at one of the run's samples. Events the run itself starts
      are recent as a whole. */
  ghost predicate RunEffect(track: seq<Excursion>, open: Option<nat>, chunk: seq<Reading>, s: Scan)
    requires PointsInto(open, track) && |s.track| >= |track|
  {
    && (forall i :: 0 <= i < |track| && open != Some(i) ==> s.track[i] == track[i])
    && (open.Some? ==> OpenEffect(track[open.value], chunk, s.track[open.value], s.open == open, s.counted))
    && (forall i :: |track| <= i < |s.track| ==> NewEffect(s.track[i], chunk))
    && (s.open.Some? ==> s.open == open || (s.open.value >= |track| && s.counted))
  }

  ghost predicate NewEffect(e: Excursion, chunk: seq<Reading>) {
    && e.recent == e.all != []
    && exists j :: 0 <= j < |chunk| && chunk[j].time == e.start
  }

  ghost predicate OpenEffect(e: Excursion, chunk: seq<Reading>, e': Excursion, stillOpen: bool, counted: bool) {
    && e'.start == e.start
    && e.all <= e'.all
    && e'.recent == (if e'.all == e.all then e.recent else e'.all[|e.all|..])
    && (stillOpen ==> counted == (e'.all != e.all) && e'.end == e.end && e'.duration == e.duration)
    && (e'.end != e.end ==> e'.end.Some? && exists j :: 0 <= j < |chunk| && chunk[j].time == e'.end.value)
  }

  lemma {:induction false} RunHasEffect(track: seq<Excursion>, open: Option<nat>, chunk: seq<Reading>)
    requires PointsInto(open, track)
    ensures RunEffect(track, open, chunk, Run(track, open, chunk))
    decreases chunk
  {
    if chunk != [] {
      var n := |chunk| - 1;
      RunHasEffect(track, open, chunk[..n]);
      assert chunk == chunk[..n] + [chunk[n]];
      StepEffect(track, open, chunk[..n], chunk[n], Run(track, open, chunk[..n]));
    }
  }

  lemma StepEffect(track: seq<Excursion>, open: Option<nat>, chunk: seq<Reading>, r: Reading, s: Scan)
    requires PointsInto(open, track) && PointsInto(s.open, s.track) && |s.track| >= |track|
    requires RunEffect(track, open, chunk, s)
    ensures RunEffect(track, open, chunk + [r], Step(s, r))
  {
    var s' := Step(s, r);
    if open.Some? {
      StepOpenEffect(track[open.value], chunk, r, s, s', open.value);
    }
    forall i | |track| <= i < |s'.track| ensures NewEffect(s'.track[i], chunk + [r]) {
      StepNewEffect(chunk, r, s, s', i);
    }
  }

  lemma StepNewEffect(chunk: seq<Reading>, r: Reading, s: Scan, s': Scan, i: nat)
    requires PointsInto(s.open, s.track) && s' == Step(s, r) && i < |s'.track|
    requires i < |s.track| ==> NewEffect(s.track[i], chunk) && (s.open == Some(i) ==> s.counted)
    ensures NewEffect(s'.track[i], chunk + [r])
  {
    if i < |s.track| {
      var j :| 0 <= j < |chunk| && chunk[j].time == s.track[i].start;
      assert (chunk + [r])[j].time == s'.track[i].start;
    } else {
      assert (chunk + [r])[|chunk|].time == s'.track[i].start;
    }
  }

  lemma StepOpenEffect(e: Excursion, chunk: seq<Reading>, r: Reading, s: Scan, s': Scan, k: nat)
    requires k < |s.track| && PointsInto(s.open, s.track) && s' == Step(s, r)
    requires OpenEffect(e, chunk, s.track[k], s.open == Some(k), s.counted)
    ensures OpenEffect(e, chunk + [r], s'.track[k], s'.open == Some(k), s'.counted)
  {
    var e1, e2 := s.track[k], s'.track[k];
    if e1.end != e.end && e2.end == e1.end {
      var j :| 0 <= j < |chunk| && chunk[j].time == e1.end.value;
      assert (chunk + [r])[j].time == e2.end.value;
    } else if e2.end != e1.end {
      assert (chunk + [r])[|chunk|].time == e2.end.value;
    }
  }

  ghost predicate AllCovered(track: seq<Excursion>, stream: seq<Reading>) {
    forall i :: 0 <= i < |track| ==> track[i].all == CoveredValues(stream, Shape(track[i]))
  }

  lemma CoverOneMore(i: Interval, i': Interval, stream: seq<Reading>, r: Reading)
    requires forall j :: 0 <= j < |stream| ==> (Covers(i, stream[j].time) <==> Covers(i', stream[j].time))
    ensures CoveredValues(stream + [r], i') ==
      CoveredValues(stream, i) + if OutReading(r) && Covers(i', r.time) then [r.value.value] else []
  {
    assert (stream + [r])[..|stream|] == stream;
    CoveredValuesSame(stream, i, i');
  }

  lemma StepAllCovered(s: Scan, stream: seq<Reading>, r: Reading)
    requires PointsInto(s.open, s.track) && Traces(s.track, s.open, stream) && AllCovered(s.track, stream)
    requires WellOrdered(Shapes(s.track), stream)
    requires forall j :: 0 <= j < |stream| ==> stream[j].time < r.time
    ensures AllCovered(Step(s, r).track, stream + [r])
  {
    var track' := Step(s, r).track;
    EarlierDoNotCover(Shapes(s.track), stream, r.time);
    forall i | 0 <= i < |track'| ensures track'[i].all == CoveredValues(stream + [r], Shape(track'[i])) {
      if i < |s.track| {
        assert Covers(Shapes(s.track)[i], r.time) <==> s.open == Some(i);
        CoverOneMore(Shape(s.track[i]), Shape(track'[i]), stream, r);
      } else {
        CoverOneMore(Shape(track'[i]), Shape(track'[i]), stream, r);
        CoveredValuesNone(stream, Shape(track'[i]));
      }
    }
  }

  lemma {:induction false} StepAllAllCovered(s: Scan, stream: seq<Reading>, chunk: seq<Reading>)
    requires PointsInto(s.open, s.track) && Traces(s.track, s.open, stream) && AllCovered(s.track, stream)
    requires Increasing(stream + chunk)
    ensures AllCovered(StepAll(s, chunk).track, stream + chunk)
    decreases chunk
  {
    if chunk == [] {
      assert stream + chunk == stream;
    } else {
      var n := |chunk| - 1;
      var longer, r := stream + chunk[..n], chunk[n];
      assert stream + chunk == longer + [r];
      assert Increasing(longer) by {
        assert forall j :: 0 <= j < |longer| ==> longer[j] == (stream + chunk)[j];
      }
      assert forall j :: 0 <= j < |longer| ==> longer[j].time < r.time by {
        assert forall j :: 0 <= j < |longer| ==> longer[j] == (stream + chunk)[j];
        assert r == (stream + chunk)[|longer|];
      }
      StepAllAllCovered(s, stream, chunk[..n]);
      StepAllTraces(s, stream, chunk[..n]);
      DetectIndexes(longer);
      StepAllCovered(StepAll(s, chunk[..n]), longer, r);
    }
  }

  lemma {:induction false} RunAllCovered(chunks: seq<seq<Reading>>)
    requires Increasing(Concat(chunks))
    ensures AllCovered(RunAll(chunks).track, Concat(chunks))
    decreases chunks
  {
    if chunks != [] {
      var n := |chunks| - 1;
      var s := RunAll(chunks[..n]);
      IncreasingPrefix(Concat(chunks[..n]), chunks[n]);
      RunAllCovered(chunks[..n]);
      RunAllTraces(chunks[..n]);
      StepAllAllCovered(Scan(s.track, s.open, false), Concat(chunks[..n]), chunks[n]);
    }
  }

  lemma IncreasingPrefix(a: seq<Reading>, b: seq<Reading>)
    requires Increasing(a + b)
    ensures Increasing(a)
    ensures forall j, k :: 0 <= j < |a| && 0 <= k < |b| ==> a[j].time < b[k].time
  {
    assert forall j :: 0 <= j < |a| ==> a[j] == (a + b)[j];
    assert forall k :: 0 <= k < |b| ==> b[k] == (a + b)[|a| + k];
  }

  lemma {:induction false} ConcatHolds(chunks: seq<seq<Reading>>, m: nat, j: nat) returns (k: nat)
    requires m < |chunks| && j < |chunks[m]|
    ensures k < |Concat(chunks)| && Concat(chunks)[k] == chunks[m][j]
    decreases chunks
  {
    var n := |chunks| - 1;
    if m == n {
      k := |Concat(chunks[..n])| + j;
    } else {
      k := ConcatHolds(chunks[..n], m, j);
    }
  }

  /** Run m is the latest that contributed to the event, and its recent values are that run's contribution. */
  ghost predicate LatestRun(e: Excursion, chunks: seq<seq<Reading>>, m: nat) {
    && m < |chunks|
    && e.recent == CoveredValues(chunks[m], Shape(e)) != []
    && forall k :: m < k < |chunks| ==> CoveredValues(chunks[k], Shape(e)) == []
  }

  ghost predicate Earlier(a: seq<Reading>, b: seq<Reading>) {
    forall j, k :: 0 <= j < |a| && 0 <= k < |b| ==> a[j].time < b[k].time
  }

  lemma NewEventLatest(chunks: seq<seq<Reading>>, c: seq<Reading>, e: Excursion)
    requires NewEffect(e, c) && Earlier(Concat(chunks), c)
    requires e.all == CoveredValues(Concat(chunks) + c, Shape(e))
    ensures LatestRun(e, chunks + [c], |chunks|)
  {
    CoveredValuesAppend(Concat(chunks), c, Shape(e));
    CoveredValuesNone(Concat(chunks), Shape(e));
  }

  lemma OldEventLatest(
    chunks: seq<seq<Reading>>, c: seq<Reading>, e0: Excursion, e: Excursion, open: bool, m: nat,
    stillOpen: bool, counted: bool) returns (m': nat)
    requires LatestRun(e0, chunks, m) && Earlier(Concat(chunks), c)
    requires e0.all == CoveredValues(Concat(chunks), Shape(e0))
    requires e.all == CoveredValues(Concat(chunks) + c, Shape(e))
    requires if open then e0.end.None? && OpenEffect(e0, c, e, stillOpen, counted) else e == e0
    ensures LatestRun(e, chunks + [c], m')
  {
    var stream := Concat(chunks);
    CoveredValuesAppend(stream, c, Shape(e));
    SameCoverBefore(e0, e, stream, c, open);
    CoveredValuesSame(stream, Shape(e0), Shape(e));
    SameCoverInChunks(chunks, Shape(e0), Shape(e));
    m' := LaterRun(e0, e, chunks, c, m);
  }

  /** What an event's stored statistics summarise: exactly the out-of-range samples it covers among those of the
      latest run that added one. EventStatistics says when that is the whole event. */
  lemma {:induction false} RecentIsLatestRun(chunks: seq<seq<Reading>>, i: nat) returns (m: nat)
    requires Increasing(Concat(chunks)) && i < |RunAll(chunks).track|
    ensures LatestRun(RunAll(chunks).track[i], chunks, m)
    ensures RunAll(chunks).track[i].all == CoveredValues(Concat(chunks), Shape(RunAll(chunks).track[i]))
    decreases chunks
  {
    var n := |chunks| - 1;
    var s, e := RunAll(chunks[..n]), RunAll(chunks).track[i];
    RunAllCovered(chunks);
    IncreasingPrefix(Concat(chunks[..n]), chunks[n]);
    RunHasEffect(s.track, s.open, chunks[n]);
    assert chunks == chunks[..n] + [chunks[n]];
    if i >= |s.track| {
      NewEventLatest(chunks[..n], chunks[n], e);
      m := n;
    } else {
      RunAllCovered(chunks[..n]);
      RunAllTraces(chunks[..n]);
      m := RecentIsLatestRun(chunks[..n], i);
      var s' := Run(s.track, s.open, chunks[n]);
      m := OldEventLatest(chunks[..n], chunks[n], s.track[i], e, s.open == Some(i), m, s'.open == s.open, s'.counted);
    }
  }

  lemma {:induction false} CoveredNoneIff(chunks: seq<seq<Reading>>, i: Interval)
    ensures CoveredValues(Concat(chunks), i) == [] <==>
      forall k :: 0 <= k < |chunks| ==> CoveredValues(chunks[k], i) == []
    decreases chunks
  {
    if chunks != [] {
      var n := |chunks| - 1;
      CoveredNoneIff(chunks[..n], i);
      CoveredValuesAppend(Concat(chunks[..n]), chunks[n], i);
    }
  }

  lemma {:induction false} CoveredUpTo(chunks: seq<seq<Reading>>, m: nat, i: Interval)
    requires m <= |chunks| && forall k :: m <= k < |chunks| ==> CoveredValues(chunks[k], i) == []
    ensures CoveredValues(Concat(chunks), i) == CoveredValues(Concat(chunks[..m]), i)
    decreases chunks
  {
    if m == |chunks| {
      assert chunks[..m] == chunks;
    } else {
      var n := |chunks| - 1;
      assert chunks[..n][..m] == chunks[..m];
      CoveredUpTo(chunks[..n], m, i);
      CoveredValuesAppend(Concat(chunks[..n]), chunks[n], i);
    }
  }

  /** At most one run read samples of the event that are out of range. */
  ghost predicate OneContributor(chunks: seq<seq<Reading>>, i: Interval) {
    forall j, k :: 0 <= j < k < |chunks| ==> CoveredValues(chunks[j], i) == [] || CoveredValues(chunks[k], i) == []
  }

  /** The statistics of an event are taken over all its out-of-range samples if and only if one run read them all. */
  lemma WholeEventIff(chunks: seq<seq<Reading>>, i: nat)
    requires Increasing(Concat(chunks)) && i < |RunAll(chunks).track|
    ensures var e := RunAll(chunks).track[i];
      e.recent == e.all <==> OneContributor(chunks, Shape(e))
  {
    var e := RunAll(chunks).track[i];
    var m := RecentIsLatestRun(chunks, i);
    LatestIsAllIff(e, chunks, m);
  }

  lemma LatestIsAllIff(e: Excursion, chunks: seq<seq<Reading>>, m: nat)
    requires LatestRun(e, chunks, m) && e.all == CoveredValues(Concat(chunks), Shape(e))
    ensures e.recent == e.all <==> OneContributor(chunks, Shape(e))
  {
    var shape, earlier := Shape(e), chunks[..m];
    CoveredUpTo(chunks, m + 1, shape);
    assert chunks[..m + 1][..m] == earlier;
    CoveredValuesAppend(Concat(earlier), chunks[m], shape);
    CoveredNoneIff(earlier, shape);
    OneContributorIff(chunks, m, shape);
  }

  lemma OneContributorIff(chunks: seq<seq<Reading>>, m: nat, i: Interval)
    requires m < |chunks| && CoveredValues(chunks[m], i) != []
    requires forall k :: m < k < |chunks| ==> CoveredValues(chunks[k], i) == []
    ensures OneContributor(chunks, i) <==> forall k :: 0 <= k < m ==> CoveredValues(chunks[..m][k], i) == []
  {
    assert forall k :: 0 <= k < m ==> chunks[..m][k] == chunks[k];
  }

  lemma RunOfOne(track: seq<Excursion>, open: Option<nat>, r: Reading)
    requires PointsInto(open, track)
    ensures Run(track, open, [r]) == Step(Scan(track, open, false), r)
  {
    StepAllOne(Scan(track, open, false), r);
  }

  lemma StepAllOne(s: Scan, r: Reading)
    requires PointsInto(s.open, s.track)
    ensures StepAll(s, [r]) == Step(s, r)
  {
    var chunk := [r];
    assert chunk[..|chunk| - 1] == [];
    assert StepAll(s, chunk[..|chunk| - 1]) == s;
    assert StepAll(s, chunk) == Step(StepAll(s, chunk[..|chunk| - 1]), chunk[|chunk| - 1]);
  }

  /** An event over two runs whose stored minimum is not its minimum: 200 V read by the first, 205 V by the second. */
  lemma StatisticsStartAfresh() returns (chunks: seq<seq<Reading>>)
    ensures Increasing(Concat(chunks)) && |RunAll(chunks).track| == 1
    ensures var e := RunAll(chunks).track[0];
      e.recent != [] && e.all != [] && MinOf(e.recent) == 205.0 && MinOf(e.all) == 200.0
  {
    var a, b := [Reading(0, Some(200.0))], [Reading(1, Some(205.0))];
    chunks := [a, b];
    var one := chunks[..1];
    assert one[..0] == [] && one[0] == a;
    assert Concat(one) == a && Concat(chunks) == a + b;
    RunOfOne([], None, a[0]);
    RunOfOne(RunAll(one).track, RunAll(one).open, b[0]);
    assert RunAll(one).track == [Excursion(0, None, None, [200.0], [200.0])];
    assert RunAll(one).open == Some(0) && RunAll(chunks) == Run(RunAll(one).track, RunAll(one).open, b);
    assert [200.0] + [205.0] == [200.0, 205.0];
    assert RunAll(chunks).track == [Excursion(0, None, None, [200.0, 205.0], [205.0])];
    assert [200.0, 205.0][..1] == [200.0];
  }

  lemma LaterRun(e0: Excursion, e: Excursion, chunks: seq<seq<Reading>>, c: seq<Reading>, m: nat) returns (m': nat)
    requires LatestRun(e0, chunks, m)
    requires forall k :: 0 <= k < |chunks| ==> CoveredValues(chunks[k], Shape(e)) == CoveredValues(chunks[k], Shape(e0))
    requires e.all == e0.all + CoveredValues(c, Shape(e))
    requires e.recent == if e.all == e0.all then e0.recent else e.all[|e0.all|..]
    ensures LatestRun(e, chunks + [c], m')
  {
    var added := CoveredValues(c, Shape(e));
    if added == [] {
      assert e.all == e0.all;
      m' := m;
    } else {
      assert |e.all| > |e0.all| && e.all[|e0.all|..] == added;
      m' := |chunks|;
    }
  }

  lemma SameCoverInChunks(chunks: seq<seq<Reading>>, i: Interval, i': Interval)
    requires var stream := Concat(chunks);
      forall j :: 0 <= j < |stream| ==> (Covers(i, stream[j].time) <==> Covers(i', stream[j].time))
    ensures forall k :: 0 <= k < |chunks| ==> CoveredValues(chunks[k], i') == CoveredValues(chunks[k], i)
  {
    forall k | 0 <= k < |chunks| ensures CoveredValues(chunks[k], i') == CoveredValues(chunks[k], i) {
      forall j | 0 <= j < |chunks[k]| ensures Covers(i, chunks[k][j].time) <==> Covers(i', chunks[k][j].time) {
        var _ := ConcatHolds(chunks, k, j);
      }
      CoveredValuesSame(chunks[k], i, i');
    }
  }

  /** A run can only close an event later than everything read before. */
  lemma SameCoverBefore(e0: Excursion, e: Excursion, stream: seq<Reading>, c: seq<Reading>, open: bool)
    requires open ==> e0.end.None? && e.start == e0.start
    requires open && e.end != e0.end ==> e.end.Some? && exists j :: 0 <= j < |c| && c[j].time == e.end.value
    requires !open ==> e == e0
    requires forall j, k :: 0 <= j < |stream| && 0 <= k < |c| ==> stream[j].time < c[k].time
    ensures forall j :: 0 <= j < |stream| ==> (Covers(Shape(e0), stream[j].time) <==> Covers(Shape(e), stream[j].time))
  {
  }

  // ---------------------------------------------------------------- runs that stop on an error

  /** Two event lists store the same rows; provenance aside, every column agrees. */
  ghost predicate SameRows(a: seq<Excursion>, b: seq<Excursion>) {
    |a| == |b| && forall i :: 0 <= i < |a| ==> Shape(a[i]) == Shape(b[i]) && a[i].recent == b[i].recent
  }

  ghost predicate SameScan(a: Scan, b: Scan) {
    SameRows(a.track, b.track) && a.open == b.open && a.counted == b.counted
  }

  lemma {:induction false} StepAllSameScan(a: Scan, b: Scan, chunk: seq<Reading>)
    requires PointsInto(a.open, a.track) && PointsInto(b.open, b.track) && SameScan(a, b)
    ensures SameScan(StepAll(a, chunk), StepAll(b, chunk))
    decreases chunk
  {
    if chunk != [] {
      StepAllSameScan(a, b, chunk[..|chunk| - 1]);
    }
  }

  lemma {:induction false} StepAllAppend(s: Scan, a: seq<Reading>, b: seq<Reading>)
    requires PointsInto(s.open, s.track)
    ensures StepAll(s, a + b) == StepAll(StepAll(s, a), b)
    decreases b
  {
    if b == [] {
      assert a + b == a;
    } else {
      var n := |b| - 1;
      assert (a + b)[..|a + b| - 1] == a + b[..n];
      StepAllAppend(s, a, b[..n]);
    }
  }

  /** Two scans with pointers set or not set alike grow by the same number of events. */
  lemma {:induction false} StepAllSameGrowth(a: Scan, b: Scan, chunk: seq<Reading>)
    requires PointsInto(a.open, a.track) && PointsInto(b.open, b.track) && a.open.Some? == b.open.Some?
    ensures StepAll(a, chunk).open.Some? == StepAll(b, chunk).open.Some?
    ensures |StepAll(a, chunk).track| - |a.track| == |StepAll(b, chunk).track| - |b.track|
    decreases chunk
  {
    if chunk != [] {
      StepAllSameGrowth(a, b, chunk[..|chunk| - 1]);
    }
  }

  /** A scan b that redoes the work of scan a, on a table `done` where that work has already been recorded. */
  ghost predicate Redoes(a: Scan, b: Scan, done: seq<Excursion>, open: Option<nat>) {
    && |a.track| == |b.track| == |done|
    && a.open == b.open && a.counted == b.counted
    && (forall i :: 0 <= i < |done| ==> Shape(b.track[i]) == Shape(done[i]))
    && (forall i :: 0 <= i < |done| && open != Some(i) ==> a.track[i].recent == b.track[i].recent)
    && (open.Some? && open.value < |done| ==>
      b.track[open.value].recent == if a.counted then a.track[open.value].recent else done[open.value].recent)
    && (a.open.Some? ==> a.open == open)
  }

  lemma RedoesStep(a: Scan, b: Scan, r: Reading, done: seq<Excursion>, open: Option<nat>)
    requires PointsInto(a.open, a.track) && PointsInto(b.open, b.track) && Redoes(a, b, done, open)
    requires |Step(a, r).track| == |a.track|
    requires a.open.Some? && Step(a, r).open.None? ==>
      Shape(Step(a, r).track[a.open.value]) == Shape(done[a.open.value])
    ensures Redoes(Step(a, r), Step(b, r), done, open)
  {
  }

  /** Events that are not open stay as they are. */
  lemma {:induction false} ClosedStays(s: Scan, chunk: seq<Reading>, i: nat)
    requires PointsInto(s.open, s.track) && i < |s.track| && s.open != Some(i)
    ensures StepAll(s, chunk).track[i] == s.track[i] && StepAll(s, chunk).open != Some(i)
    decreases chunk
  {
    if chunk != [] {
      ClosedStays(s, chunk[..|chunk| - 1], i);
    }
  }

  lemma {:induction false} RedoesPrefix(
    track: seq<Excursion>, open: Option<nat>, u: seq<Reading>, k: nat, done: seq<Excursion>)
    requires PointsInto(open, track) && k <= |u|
    requires done == Run(track, open, u).track && |done| == |track|
    ensures Redoes(Run(track, open, u[..k]), Run(done, open, u[..k]), done, open)
    decreases k
  {
    if k == 0 {
      RunHasEffect(track, open, u);
    } else {
      RedoesPrefix(track, open, u, k - 1, done);
      assert u[..k][..k - 1] == u[..k - 1] && u[..k][k - 1] == u[k - 1];
      var a, b, r := Run(track, open, u[..k - 1]), Run(done, open, u[..k - 1]), u[k - 1];
      var a' := Run(track, open, u[..k]);
      assert a' == Step(a, r) && Run(done, open, u[..k]) == Step(b, r);
      assert u == u[..k] + u[k..];
      StepAllAppend(Scan(track, open, false), u[..k], u[k..]);
      assert done == StepAll(a', u[k..]).track;
      if a.open.Some? && a'.open.None? {
        ClosedStays(a', u[k..], a.open.value);
      }
      RedoesStep(a, b, r, done, open);
    }
  }

  /** Whether an event is open after some samples: the latest numeric one decides. */
  predicate OpenAfter(open: bool, u: seq<Reading>) {
    if u == [] then open
    else
      var n := |u| - 1;
      if u[n].value.None? then OpenAfter(open, u[..n]) else OutReading(u[n])
  }

  /** Some sample is out of range while no event is open. */
  predicate Inserts(open: bool, u: seq<Reading>) {
    exists j :: 0 <= j < |u| && InsertsAt(open, u, j)
  }

  predicate InsertsAt(open: bool, u: seq<Reading>, j: nat)
    requires j < |u|
  {
    OutReading(u[j]) && !OpenAfter(open, u[..j])
  }

  lemma {:induction false} InsertsIff(s: Scan, u: seq<Reading>)
    requires PointsInto(s.open, s.track)
    ensures StepAll(s, u).open.Some? == OpenAfter(s.open.Some?, u)
    ensures |StepAll(s, u).track| > |s.track| <==> Inserts(s.open.Some?, u)
    decreases u
  {
    if u != [] {
      var n, open := |u| - 1, s.open.Some?;
      var fewer := u[..n];
      InsertsIff(s, fewer);
      forall j | 0 <= j < n ensures InsertsAt(open, fewer, j) == InsertsAt(open, u, j) {
        assert fewer[..j] == u[..j];
      }
      assert Inserts(open, u) <==> Inserts(open, fewer) || InsertsAt(open, u, n) by {
        if Inserts(open, fewer) {
          var j: nat :| j < n && InsertsAt(open, fewer, j);
          assert InsertsAt(open, u, j);
        }
      }
    }
  }

  /** A run that failed after the samples u left its changes in the table but not in the cursor, so the next run
      reads u again. It ends with the rows an undisturbed run would have left if and only if no sample of u was out of
      range while no event was open; otherwise every event the failed run inserted is there twice. */
  lemma RetryAfterError(track: seq<Excursion>, open: Option<nat>, u: seq<Reading>, rest: seq<Reading>)
    requires PointsInto(open, track)
    ensures var done := Run(track, open, u).track;
      var retried, clean := Run(done, open, u + rest), Run(track, open, u + rest);
      && (|done| == |track| <==> !Inserts(open.Some?, u))
      && (SameRows(retried.track, clean.track) <==> !Inserts(open.Some?, u))
      && (!Inserts(open.Some?, u) ==> retried.open == clean.open)
      && |retried.track| == |clean.track| + (|done| - |track|)
  {
    var done := Run(track, open, u).track;
    var again, first := Scan(done, open, false), Scan(track, open, false);
    InsertsIff(first, u);
    StepAllSameGrowth(first, again, u + rest);
    if |done| == |track| {
      RedoesPrefix(track, open, u, |u|, done);
      assert u[..|u|] == u;
      StepAllAppend(first, u, rest);
      StepAllAppend(again, u, rest);
      StepAllSameScan(StepAll(first, u), StepAll(again, u), rest);
      SameRowsSymmetric(StepAll(first, u + rest).track, StepAll(again, u + rest).track);
    }
  }

  /** One sample of 200 V, recorded by a run that then fails, becomes two events. */
  lemma RetryCanDuplicate() returns (u: seq<Reading>)
    ensures var done := Run([], None, u).track;
      |Run(done, None, u).track| == 2 && |Run([], None, u).track| == 1
  {
    u := [Reading(0, Some(200.0))];
    assert u[..0] == [];
    assert InsertsAt(false, u, 0);
    assert Run([], None, u).track == [Excursion(0, None, None, [200.0], [200.0])];
    assert u + [] == u;
    RetryAfterError([], None, u, []);
  }

  lemma SameRowsSymmetric(a: seq<Excursion>, b: seq<Excursion>)
    requires SameRows(a, b)
    ensures SameRows(b, a)
  {
  }
}
