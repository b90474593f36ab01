/** The analysis run over the database: three phases, one row-id cursor, one table of events. */
module VoltageAnalysis {
  import opened Accesses
  import opened Options
  import opened VoltageDetector

  /** Sensors 0, 1 and 2 are meter_voltage1, meter_voltage2 and meter_voltage3; all others are larger. */
  type Sensor = nat
  const PHASES := 3

  datatype SampleRow = SampleRow(id: int, sensor: Sensor, time: int, value: Option<real>)

  /** A row of voltage_events. Row ids are handed out in order and never reused: row id is its index plus one. */
  datatype EventRow = EventRow(
    phase: Sensor, start: int, end: Option<int>, duration: Option<int>, min: real, max: real, avg: real)

  datatype Cursor = Cursor(last: int, ongoing: seq<Option<nat>>)

  // ---------------------------------------------------------------- queries

  /** The sensor's rows beyond the cursor, in row-id order. */
  function NewRows(samples: seq<SampleRow>, sensor: Sensor, since: int): seq<SampleRow>
    decreases samples
  {
    if samples == [] then
      []
    else
      var n := |samples| - 1;
      NewRows(samples[..n], sensor, since)
        + if samples[n].sensor == sensor && samples[n].id > since then [samples[n]] else []
  }

  function Readings(rows: seq<SampleRow>): (readings: seq<Reading>)
    ensures |readings| == |rows|
    ensures forall i :: 0 <= i < |rows| ==> readings[i] == Reading(rows[i].time, rows[i].value)
    decreases rows
  {
    if rows == [] then [] else Readings(rows[..|rows| - 1]) + [Reading(rows[|rows| - 1].time, rows[|rows| - 1].value)]
  }

  function MaxId(rows: seq<SampleRow>, floor: int): int
    decreases rows
  {
    if rows == [] then
      floor
    else
      var m := MaxId(rows[..|rows| - 1], floor);
      if rows[|rows| - 1].id > m then rows[|rows| - 1].id else m
  }

  /** One phase's rows of the event table, in row-id order. */
  function Of(events: seq<EventRow>, p: Sensor): seq<EventRow>
    decreases events
  {
    if events == [] then
      []
    else
      var n := |events| - 1;
      Of(events[..n], p) + if events[n].phase == p then [events[n]] else []
  }

  /** How many of the phase's rows come before row id. */
  function Position(events: seq<EventRow>, p: Sensor, id: nat): nat
    requires 1 <= id <= |events|
  {
    |Of(events[..id - 1], p)|
  }

  lemma {:induction false} AtPosition(events: seq<EventRow>, p: Sensor, id: nat)
    requires 1 <= id <= |events| && events[id - 1].phase == p
    ensures Position(events, p, id) < |Of(events, p)|
    ensures Of(events, p)[Position(events, p, id)] == events[id - 1]
    decreases events
  {
    var n := |events| - 1;
    if id <= n {
      assert events[..n][..id - 1] == events[..id - 1];
      AtPosition(events[..n], p, id);
    }
  }

  lemma {:induction false} UpdateOf(events: seq<EventRow>, id: nat, e: EventRow, p: Sensor)
    requires 1 <= id <= |events| && events[id - 1].phase == e.phase
    ensures |Of(events[id - 1 := e], p)| == |Of(events, p)|
    ensures p != e.phase ==> Of(events[id - 1 := e], p) == Of(events, p)
    ensures p == e.phase ==>
      && Position(events, p, id) < |Of(events, p)|
      && Of(events[id - 1 := e], p) == Of(events, p)[Position(events, p, id) := e]
    decreases events
  {
    var n := |events| - 1;
    var changed := events[id - 1 := e];
    if id <= n {
      assert changed[..n] == events[..n][id - 1 := e];
      assert events[..n][..id - 1] == events[..id - 1];
      UpdateOf(events[..n], id, e, p);
    } else {
      assert changed[..n] == events[..n];
    }
  }

  lemma UpdatePosition(events: seq<EventRow>, id: nat, e: EventRow, p: Sensor, other: nat)
    requires 1 <= id <= |events| && events[id - 1].phase == e.phase && 1 <= other <= |events|
    ensures Position(events[id - 1 := e], p, other) == Position(events, p, other)
  {
    var changed := events[id - 1 := e];
    if id <= other - 1 {
      assert changed[..other - 1] == events[..other - 1][id - 1 := e];
      UpdateOf(events[..other - 1], id, e, p);
    } else {
      assert changed[..other - 1] == events[..other - 1];
    }
  }

  lemma AppendOf(events: seq<EventRow>, e: EventRow, p: Sensor)
    ensures Of(events + [e], p) == Of(events, p) + if e.phase == p then [e] else []
    ensures forall id :: 1 <= id <= |events| ==> Position(events + [e], p, id) == Position(events, p, id)
    ensures Position(events + [e], p, |events| + 1) == |Of(events, p)|
  {
    assert (events + [e])[..|events|] == events;
    forall id | 1 <= id <= |events| ensures Position(events + [e], p, id) == Position(events, p, id) {
      assert (events + [e])[..id - 1] == events[..id - 1];
    }
  }

  // ---------------------------------------------------------------- rows and the detector's events

  /** The row that stores an event: its interval and the statistics of its recent values. */
  ghost predicate Stores(row: EventRow, p: Sensor, e: Excursion) {
    && e.recent != []
    && row == EventRow(p, e.start, e.end, e.duration, MinOf(e.recent), MaxOf(e.recent), Average(e.recent))
  }

  ghost predicate Mirrors(rows: seq<EventRow>, p: Sensor, track: seq<Excursion>) {
    |rows| == |track| && forall i :: 0 <= i < |rows| ==> Stores(rows[i], p, track[i])
  }

  /** A pointer of the cursor names an existing row of the phase, the k-th of them. */
  ghost predicate Names(events: seq<EventRow>, p: Sensor, id: Option<nat>, k: Option<nat>) {
    if id.None? then
      k.None?
    else
      && 1 <= id.value <= |events|
      && events[id.value - 1].phase == p
      && k == Some(Position(events, p, id.value))
  }

  ghost predicate MirrorsAll(events: seq<EventRow>, tracks: seq<seq<Excursion>>) {
    |tracks| == PHASES && forall p :: 0 <= p < PHASES ==> Mirrors(Of(events, p), p, tracks[p])
  }

  lemma SingleValue(v: real)
    ensures MinOf([v]) == v && MaxOf([v]) == v && Average([v]) == v
  {
    assert [v][..0] == [];
    assert Total([v]) == Total([]) + v;
  }

  lemma InsertMirrors(events: seq<EventRow>, tracks: seq<seq<Excursion>>, row: EventRow, e: Excursion)
    requires MirrorsAll(events, tracks) && row.phase < PHASES && Stores(row, row.phase, e)
    ensures MirrorsAll(events + [row], tracks[row.phase := tracks[row.phase] + [e]])
  {
    forall p | 0 <= p < PHASES ensures Mirrors(Of(events + [row], p), p, tracks[row.phase := tracks[row.phase] + [e]][p]) {
      AppendOf(events, row, p);
    }
  }

  lemma ReplaceMirrors(events: seq<EventRow>, tracks: seq<seq<Excursion>>, id: nat, row: EventRow, e: Excursion)
    requires MirrorsAll(events, tracks) && row.phase < PHASES && Stores(row, row.phase, e)
    requires 1 <= id <= |events| && events[id - 1].phase == row.phase
    ensures Position(events, row.phase, id) < |tracks[row.phase]|
    ensures MirrorsAll(events[id - 1 := row],
      tracks[row.phase := tracks[row.phase][Position(events, row.phase, id) := e]])
  {
    AtPosition(events, row.phase, id);
    var changed := tracks[row.phase := tracks[row.phase][Position(events, row.phase, id) := e]];
    forall p | 0 <= p < PHASES ensures Mirrors(Of(events[id - 1 := row], p), p, changed[p]) {
      UpdateOf(events, id, row, p);
    }
  }

  /** Pointers keep naming the same rows when a row is added or replaced. */
  ghost predicate SameNames(events: seq<EventRow>, changed: seq<EventRow>) {
    && |events| <= |changed|
    && (forall i :: 0 <= i < |events| ==> changed[i].phase == events[i].phase)
    && (forall p, id :: 1 <= id <= |events| ==> Position(changed, p, id) == Position(events, p, id))
  }

  lemma SameNamesTransitive(a: seq<EventRow>, b: seq<EventRow>, c: seq<EventRow>)
    requires SameNames(a, b) && SameNames(b, c)
    ensures SameNames(a, c)
  {
    forall p, id | 1 <= id <= |a| ensures Position(c, p, id) == Position(a, p, id) {
      assert Position(b, p, id) == Position(a, p, id);
    }
  }

  lemma NamesKept(events: seq<EventRow>, changed: seq<EventRow>, p: Sensor, id: Option<nat>, k: Option<nat>)
    requires SameNames(events, changed) && Names(events, p, id, k)
    ensures Names(changed, p, id, k)
  {
  }

  ghost predicate AllNamed(events: seq<EventRow>, ids: seq<Option<nat>>, ks: seq<Option<nat>>) {
    |ids| == |ks| == PHASES && forall p :: 0 <= p < PHASES ==> Names(events, p, ids[p], ks[p])
  }

  lemma AllNamedKept(events: seq<EventRow>, changed: seq<EventRow>, ids: seq<Option<nat>>, ks: seq<Option<nat>>)
    requires SameNames(events, changed) && AllNamed(events, ids, ks)
    ensures AllNamed(changed, ids, ks)
  {
    forall p | 0 <= p < PHASES ensures Names(changed, p, ids[p], ks[p]) {
      NamesKept(events, changed, p, ids[p], ks[p]);
    }
  }

  lemma NamedAfter(
    events: seq<EventRow>, changed: seq<EventRow>, ids: seq<Option<nat>>, ks: seq<Option<nat>>,
    p: Sensor, id: Option<nat>, k: Option<nat>)
    requires SameNames(events, changed) && AllNamed(events, ids, ks) && p < PHASES && Names(changed, p, id, k)
    ensures AllNamed(changed, ids[p := id], ks[p := k])
  {
    AllNamedKept(events, changed, ids, ks);
  }

  lemma InsertNames(events: seq<EventRow>, row: EventRow)
    ensures SameNames(events, events + [row])
  {
    forall p, id | 1 <= id <= |events| ensures Position(events + [row], p, id) == Position(events, p, id) {
      AppendOf(events, row, p);
    }
  }

  lemma ReplaceNames(events: seq<EventRow>, id: nat, row: EventRow)
    requires 1 <= id <= |events| && events[id - 1].phase == row.phase
    ensures SameNames(events, events[id - 1 := row])
  {
    forall p, other | 1 <= other <= |events|
      ensures Position(events[id - 1 := row], p, other) == Position(events, p, other)
    {
      UpdatePosition(events, id, row, p, other);
    }
  }

  ghost predicate Summarises(vals: seq<real>, minV: real, maxV: real, sumV: real, count: nat) {
    vals != [] && minV == MinOf(vals) && maxV == MaxOf(vals) && sumV == Total(vals) && count == |vals|
  }

  lemma SummariseOneMore(vals: seq<real>, v: real)
    requires vals != []
    ensures MinOf(vals + [v]) == (if v < MinOf(vals) then v else MinOf(vals))
    ensures MaxOf(vals + [v]) == (if v > MaxOf(vals) then v else MaxOf(vals))
    ensures Total(vals + [v]) == Total(vals) + v
  {
    assert (vals + [v])[..|vals|] == vals;
  }

  datatype PhaseState = PhaseState(
    eventId: Option<nat>, startTime: int, minV: real, maxV: real, sumV: real, count: nat)

  /** A phaseState stands for a scan of the phase. */
  ghost predicate Represents(events: seq<EventRow>, p: Sensor, s: Scan, state: PhaseState) {
    && PointsInto(s.open, s.track)
    && Names(events, p, state.eventId, s.open)
    && s.counted == (state.count > 0)
    && (s.open.Some? ==> RepresentsOpen(s.track[s.open.value], state))
  }

  ghost predicate RepresentsOpen(e: Excursion, state: PhaseState) {
    && state.startTime == e.start
    && (state.count > 0 ==> Summarises(e.recent, state.minV, state.maxV, state.sumV, state.count))
  }

  /** What the three queries of a run return. */
  function NewChunks(samples: seq<SampleRow>, since: int): (chunks: seq<seq<Reading>>)
    ensures |chunks| == PHASES
    ensures forall p :: 0 <= p < PHASES ==> chunks[p] == Readings(NewRows(samples, p, since))
  {
    [Readings(NewRows(samples, 0, since)), Readings(NewRows(samples, 1, since)), Readings(NewRows(samples, 2, since))]
  }

  /** Each phase's events are what the detector makes of the first cuts[p] samples read. */
  ghost predicate ReadTo(
    tracks0: seq<seq<Excursion>>, open0: seq<Option<nat>>, chunks: seq<seq<Reading>>,
    tracks: seq<seq<Excursion>>, cuts: seq<nat>)
  {
    && |tracks0| == |open0| == |chunks| == |tracks| == |cuts| == PHASES
    && forall p :: 0 <= p < PHASES ==> PhaseReadTo(tracks0[p], open0[p], chunks[p], tracks[p], cuts[p])
  }

  ghost predicate PhaseReadTo(
    track0: seq<Excursion>, open0: Option<nat>, chunk: seq<Reading>, track: seq<Excursion>, cut: nat)
  {
    PointsInto(open0, track0) && cut <= |chunk| && track == Run(track0, open0, chunk[..cut]).track
  }

  /** The first n phases have been read to the end and their pointers moved; the others are untouched. */
  ghost predicate Finished(
    tracks0: seq<seq<Excursion>>, open0: seq<Option<nat>>, chunks: seq<seq<Reading>>,
    cuts: seq<nat>, ks: seq<Option<nat>>, n: nat)
    requires |tracks0| == |open0| == |chunks| == |cuts| == |ks| == PHASES
  {
    forall p :: 0 <= p < PHASES ==>
      if p < n then PhaseFinished(tracks0[p], open0[p], chunks[p], cuts[p], ks[p])
      else cuts[p] == 0 && ks[p] == open0[p]
  }

  ghost predicate PhaseFinished(
    track0: seq<Excursion>, open0: Option<nat>, chunk: seq<Reading>, cut: nat, k: Option<nat>)
  {
    PointsInto(open0, track0) && cut == |chunk| && k == Run(track0, open0, chunk).open
  }

  lemma OneMoreRow(rows: seq<SampleRow>, chunk: seq<Reading>, seen: int, s: Scan, i: nat)
    requires i < |rows| == |chunk| && PointsInto(s.open, s.track)
    ensures StepAll(s, chunk[..i + 1]) == Step(StepAll(s, chunk[..i]), chunk[i])
    ensures var m := MaxId(rows[..i], seen); MaxId(rows[..i + 1], seen) == if rows[i].id > m then rows[i].id else m
  {
    assert rows[..i + 1][..i] == rows[..i] && chunk[..i + 1][..i] == chunk[..i];
  }

  class VoltageDb {
    var samples: seq<SampleRow>
    var events: seq<EventRow>
    var cursor: Cursor
    /** What the detector has made of each phase so far, and which of its events the cursor points at. */
    ghost var tracks: seq<seq<Excursion>>
    ghost var open: seq<Option<nat>>

    ghost predicate Valid()
      reads this
    {
      MirrorsAll(events, tracks) && AllNamed(events, cursor.ongoing, open)
    }

    /** What the database will answer, and how many accesses have been made. */
    const answers: Answers
    var asked: nat

    constructor (answers: Answers)
      ensures Valid() && this.answers == answers && asked == 0
      ensures samples == [] && events == [] && cursor.last == 0
      ensures tracks == [[], [], []] && open == [None, None, None]
    {
      samples, events := [], [];
      cursor := Cursor(0, [None, None, None]);
      tracks := [[], [], []];
      open := [None, None, None];
      this.answers, asked := answers, 0;
    }

    /** One access. */
    method Ask() returns (ok: bool)
      modifies `asked
      ensures ok == Succeeds(answers, old(asked)) && asked == old(asked) + 1
      ensures Went(answers, old(asked), asked, ok) && Went(answers, old(asked), asked, true)
    {
      ok := Succeeds(answers, asked);
      asked := asked + 1;
    }

    // -------------------------------------------------------------- store operations, any of which may fail

    method InsertVoltageEvent(phase: Sensor, start: int, v: real) returns (ok: bool, id: nat)
      requires MirrorsAll(events, tracks) && phase < PHASES
      modifies `events, `tracks, `asked
      ensures Went(answers, old(asked), asked, ok)
      ensures MirrorsAll(events, tracks) && SameNames(old(events), events)
      ensures !ok ==> events == old(events) && tracks == old(tracks)
      ensures ok ==> events == old(events) + [EventRow(phase, start, None, None, v, v, v)] && id == |events|
      ensures ok ==> tracks == old(tracks)[phase := old(tracks)[phase] + [Excursion(start, None, None, [v], [v])]]
    {
      ok := Ask();
      id := 0;
      if ok {
        var row := EventRow(phase, start, None, None, v, v, v);
        ghost var e := Excursion(start, None, None, [v], [v]);
        SingleValue(v);
        InsertMirrors(events, tracks, row, e);
        InsertNames(events, row);
        events := events + [row];
        tracks := tracks[phase := tracks[phase] + [e]];
        id := |events|;
      }
    }

    method UpdateVoltageEvent(id: nat, minV: real, maxV: real, avg: real, ghost e: Excursion) returns (ok: bool)
      requires MirrorsAll(events, tracks) && 1 <= id <= |events| && events[id - 1].phase < PHASES
      requires Stores(events[id - 1].(min := minV, max := maxV, avg := avg), events[id - 1].phase, e)
      modifies `events, `tracks, `asked
      ensures Went(answers, old(asked), asked, ok)
      ensures MirrorsAll(events, tracks) && SameNames(old(events), events)
      ensures !ok ==> events == old(events) && tracks == old(tracks)
      ensures ok ==> events == old(events)[id - 1 := old(events)[id - 1].(min := minV, max := maxV, avg := avg)]
      ensures var p := old(events)[id - 1].phase;
        && Position(old(events), p, id) < |old(tracks)[p]|
        && (ok ==> tracks == old(tracks)[p := old(tracks)[p][Position(old(events), p, id) := e]])
    {
      ghost var p := events[id - 1].phase;
      var row := events[id - 1].(min := minV, max := maxV, avg := avg);
      ReplaceMirrors(events, tracks, id, row, e);
      ReplaceNames(events, id, row);
      ok := Ask();
      if ok {
        tracks := tracks[p := tracks[p][Position(events, p, id) := e]];
        events := events[id - 1 := row];
      }
    }

    method CloseVoltageEvent(id: nat, endTime: int, duration: int, ghost e: Excursion) returns (ok: bool)
      requires MirrorsAll(events, tracks) && 1 <= id <= |events| && events[id - 1].phase < PHASES
      requires Stores(events[id - 1].(end := Some(endTime), duration := Some(duration)), events[id - 1].phase, e)
      modifies `events, `tracks, `asked
      ensures Went(answers, old(asked), asked, ok)
      ensures MirrorsAll(events, tracks) && SameNames(old(events), events)
      ensures !ok ==> events == old(events) && tracks == old(tracks)
      ensures var row := old(events)[id - 1].(end := Some(endTime), duration := Some(duration));
        ok ==> events == old(events)[id - 1 := row]
      ensures var p := old(events)[id - 1].phase;
        && Position(old(events), p, id) < |old(tracks)[p]|
        && (ok ==> tracks == old(tracks)[p := old(tracks)[p][Position(old(events), p, id) := e]])
    {
      ghost var p := events[id - 1].phase;
      var row := events[id - 1].(end := Some(endTime), duration := Some(duration));
      ReplaceMirrors(events, tracks, id, row, e);
      ReplaceNames(events, id, row);
      ok := Ask();
      if ok {
        tracks := tracks[p := tracks[p][Position(events, p, id) := e]];
        events := events[id - 1 := row];
      }
    }

    method GetVoltageEvent(id: nat) returns (ok: bool, start: Option<int>)
      modifies `asked
      ensures Went(answers, old(asked), asked, ok)
      ensures ok ==> start == if 1 <= id <= |events| then Some(events[id - 1].start) else None
    {
      ok := Ask();
      start := if 1 <= id <= |events| then Some(events[id - 1].start) else None;
    }
  
    // -------------------------------------------------------------- one phase of a run

    method StartEvent(p: Sensor, r: Reading, ghost s: Scan, before: PhaseState) returns (ok: bool, state: PhaseState)
      requires p < PHASES && MirrorsAll(events, tracks) && tracks[p] == s.track
      requires Represents(events, p, s, before) && OutReading(r) && before.eventId.None?
      modifies `events, `tracks, `asked
      ensures Went(answers, old(asked), asked, ok)
      ensures MirrorsAll(events, tracks) && SameNames(old(events), events)
      ensures !ok ==> events == old(events) && tracks == old(tracks)
      ensures ok ==> tracks == old(tracks)[p := Step(s, r).track] && Represents(events, p, Step(s, r), state)
    {
      var v := r.value.value;
      state := PhaseState(None, r.time, v, v, v, 1);
      var inserted, id := InsertVoltageEvent(p, state.startTime, v);
      ok := inserted;
      if ok {
        AppendOf(old(events), events[id - 1], p);
        SingleValue(v);
        assert Total([v]) == Total([]) + v;
        state := state.(eventId := Some(id));
      }
    }

    method ExtendEvent(p: Sensor, r: Reading, ghost s: Scan, before: PhaseState) returns (ok: bool, state: PhaseState)
      requires p < PHASES && MirrorsAll(events, tracks) && tracks[p] == s.track
      requires Represents(events, p, s, before) && OutReading(r) && before.eventId.Some?
      modifies `events, `tracks, `asked
      ensures Went(answers, old(asked), asked, ok)
      ensures MirrorsAll(events, tracks) && SameNames(old(events), events)
      ensures !ok ==> events == old(events) && tracks == old(tracks)
      ensures ok ==> tracks == old(tracks)[p := Step(s, r).track] && Represents(events, p, Step(s, r), state)
    {
      var v := r.value.value;
      state := before;
      if state.count == 0 {
        state := state.(minV := v, maxV := v, sumV := v, count := 1);
      } else {
        if v < state.minV {
          state := state.(minV := v);
        }
        if v > state.maxV {
          state := state.(maxV := v);
        }
        state := state.(sumV := state.sumV + v, count := state.count + 1);
      }
      var avg := state.sumV / (state.count as real);
      var id := state.eventId.value;
      ghost var e := s.track[s.open.value];
      ghost var e' := Step(s, r).track[s.open.value];
      SingleValue(v);
      if before.count > 0 {
        SummariseOneMore(e.recent, v);
      }
      assert Summarises(e'.recent, state.minV, state.maxV, state.sumV, state.count);
      AtPosition(events, p, id);
      assert Stores(events[id - 1], p, e);
      ok := UpdateVoltageEvent(id, state.minV, state.maxV, avg, e');
    }

    method EndEvent(p: Sensor, r: Reading, ghost s: Scan, before: PhaseState) returns (ok: bool, state: PhaseState)
      requires p < PHASES && MirrorsAll(events, tracks) && tracks[p] == s.track
      requires Represents(events, p, s, before) && InReading(r) && before.eventId.Some?
      modifies `events, `tracks, `asked
      ensures Went(answers, old(asked), asked, ok)
      ensures MirrorsAll(events, tracks) && SameNames(old(events), events)
      ensures !ok ==> events == old(events) && tracks == old(tracks)
      ensures ok ==> tracks == old(tracks)[p := Step(s, r).track] && Represents(events, p, Step(s, r), state)
    {
      var duration := Seconds(r.time - before.startTime);
      var id := before.eventId.value;
      AtPosition(events, p, id);
      assert Stores(events[id - 1], p, s.track[s.open.value]);
      ok := CloseVoltageEvent(id, r.time, duration, Step(s, r).track[s.open.value]);
      state := before.(eventId := None);
    }
  
    /** The body of the loop over samples. */
    method Observe(p: Sensor, r: Reading, ghost s: Scan, before: PhaseState) returns (ok: bool, state: PhaseState)
      requires p < PHASES && MirrorsAll(events, tracks) && tracks[p] == s.track
      requires Represents(events, p, s, before)
      modifies `events, `tracks, `asked
      ensures Went(answers, old(asked), asked, ok)
      ensures MirrorsAll(events, tracks) && SameNames(old(events), events)
      ensures !ok ==> events == old(events) && tracks == old(tracks)
      ensures ok ==> tracks == old(tracks)[p := Step(s, r).track] && Represents(events, p, Step(s, r), state)
    {
      ok, state := true, before;
      if r.value.Some? {
        if Out(r.value.value) {
          if state.eventId.None? {
            ok, state := StartEvent(p, r, s, state);
          } else {
            ok, state := ExtendEvent(p, r, s, state);
          }
        } else if state.eventId.Some? {
          ok, state := EndEvent(p, r, s, state);
        }
      }
    }

    /** Picks up an event left open by an earlier run; nothing has been counted into it yet. */
    method Resume(p: Sensor, ongoing: Option<nat>, ghost k: Option<nat>) returns (ok: bool, state: PhaseState)
      requires p < PHASES && MirrorsAll(events, tracks) && Names(events, p, ongoing, k)
      modifies `asked
      ensures Went(answers, old(asked), asked, ok)
      ensures PointsInto(k, tracks[p])
      ensures ok ==> Represents(events, p, Scan(tracks[p], k, false), state)
    {
      ok, state := true, PhaseState(ongoing, 0, 0.0, 0.0, 0.0, 0);
      if ongoing.Some? {
        AtPosition(events, p, ongoing.value);
        assert Stores(events[ongoing.value - 1], p, tracks[p][k.value]);
        var start;
        ok, start := GetVoltageEvent(ongoing.value);
        if start.Some? {
          state := state.(startTime := start.value);
        }
      }
    }

    /** The loop over one phase's samples. If a store operation fails, it stops after the samples before `cut`. */
    method ScanRows(p: Sensor, rows: seq<SampleRow>, seen: int, before: PhaseState, ghost s: Scan, ghost chunk: seq<Reading>)
      returns (ok: bool, maxSeen: int, state: PhaseState, ghost cut: nat)
      requires p < PHASES && MirrorsAll(events, tracks) && tracks[p] == s.track && Represents(events, p, s, before)
      requires chunk == Readings(rows)
      modifies `events, `tracks, `asked
      ensures Went(answers, old(asked), asked, ok)
      ensures MirrorsAll(events, tracks) && SameNames(old(events), events)
      ensures cut <= |chunk| && tracks == old(tracks)[p := StepAll(s, chunk[..cut]).track]
      ensures ok ==> cut == |chunk| && Represents(events, p, StepAll(s, chunk), state)
      ensures ok ==> maxSeen == MaxId(rows, seen)
    {
      ghost var scan := s;
      ok, maxSeen, state, cut := true, seen, before, 0;
      for i := 0 to |rows|
        invariant ok && cut == i && Went(answers, old(asked), asked, true)
        invariant MirrorsAll(events, tracks) && SameNames(old(events), events)
        invariant PointsInto(scan.open, scan.track) && scan == StepAll(s, chunk[..i])
        invariant tracks == old(tracks)[p := scan.track]
        invariant Represents(events, p, scan, state)
        invariant maxSeen == MaxId(rows[..i], seen)
      {
        OneMoreRow(rows, chunk, seen, s, i);
        if rows[i].id > maxSeen {
          maxSeen := rows[i].id;
        }
        ghost var earlier := events;
        var r := Reading(rows[i].time, rows[i].value);
        ok, state := Observe(p, r, scan, state);
        SameNamesTransitive(old(events), earlier, events);
        if !ok {
          return;
        }
        scan := Step(scan, r);
        cut := i + 1;
      }
      assert rows[..|rows|] == rows && chunk[..|chunk|] == chunk;
    }

    /** The body of the loop over phases. */
    method ScanPhase(p: Sensor, since: int, seen: int, ongoing: Option<nat>, ghost k0: Option<nat>, ghost chunk: seq<Reading>)
      returns (ok: bool, maxSeen: int, eventId: Option<nat>, ghost cut: nat, ghost k: Option<nat>)
      requires p < PHASES && MirrorsAll(events, tracks) && Names(events, p, ongoing, k0)
      requires chunk == Readings(NewRows(samples, p, since))
      modifies `events, `tracks, `asked
      ensures Went(answers, old(asked), asked, ok)
      ensures MirrorsAll(events, tracks) && SameNames(old(events), events)
      ensures tracks == old(tracks)[p := tracks[p]]
      ensures PhaseReadTo(old(tracks)[p], k0, chunk, tracks[p], cut)
      ensures ok ==> PhaseFinished(old(tracks)[p], k0, chunk, cut, k)
      ensures ok ==> Names(events, p, eventId, k) && maxSeen == MaxId(NewRows(samples, p, since), seen)
    {
      var state;
      maxSeen, eventId, cut, k := seen, ongoing, 0, k0;
      assert chunk[..0] == [];
      PointsAreValid(events, p, ongoing, k0, tracks);
      ok := Ask();
      if !ok {
        return;
      }
      ok, state := Resume(p, ongoing, k0);
      if !ok {
        return;
      }
      ok, maxSeen, state, cut := ScanRows(p, NewRows(samples, p, since), seen, state, Scan(tracks[p], k0, false), chunk);
      eventId, k := state.eventId, Run(old(tracks)[p], k0, chunk).open;
    }

    // -------------------------------------------------------------- the run

    /** The loop over phases. Each phase's events become what the detector makes of them and of the samples read. */
    method ScanPhases(since: int, ids: seq<Option<nat>>, ghost open0: seq<Option<nat>>, ghost chunks: seq<seq<Reading>>)
      returns (ok: bool, maxSeen: int, ongoing: seq<Option<nat>>, ghost cuts: seq<nat>, ghost pointers: seq<Option<nat>>)
      requires MirrorsAll(events, tracks) && AllNamed(events, ids, open0) && chunks == NewChunks(samples, since)
      modifies `events, `tracks, `asked
      ensures Went(answers, old(asked), asked, ok)
      ensures MirrorsAll(events, tracks) && AllNamed(events, ids, open0)
      ensures ReadTo(old(tracks), open0, chunks, tracks, cuts)
      ensures ok ==> AllNamed(events, ongoing, pointers) && Finished(old(tracks), open0, chunks, cuts, pointers, PHASES)
      ensures ok ==> maxSeen == NewestId(samples, since, PHASES)
    {
      PointersValid(events, ids, open0, tracks);
      NothingRead(tracks, open0, chunks);
      ok, maxSeen, ongoing, cuts, pointers := true, since, ids, [0, 0, 0], open0;
      for i := 0 to PHASES
        invariant ok && MirrorsAll(events, tracks) && Went(answers, old(asked), asked, true)
        invariant AllNamed(events, ids, open0) && AllNamed(events, ongoing, pointers)
        invariant ReadTo(old(tracks), open0, chunks, tracks, cuts)
        invariant Finished(old(tracks), open0, chunks, cuts, pointers, i)
        invariant maxSeen == NewestId(samples, since, i)
      {
        ghost var before, untouched, cut, k := events, tracks, 0, None;
        var eventId;
        UntouchedPhase(old(tracks), open0, chunks, tracks, cuts, pointers, i);
        ok, maxSeen, eventId, cut, k := ScanPhase(i, since, maxSeen, ongoing[i], pointers[i], chunks[i]);
        AllNamedKept(before, events, ids, open0);
        PhaseRead(old(tracks), open0, chunks, untouched, cuts, pointers, i, tracks, cut, k);
        cuts := cuts[i := cut];
        if !ok {
          return;
        }
        NamedAfter(before, events, ongoing, pointers, i, eventId, k);
        ongoing, pointers := ongoing[i := eventId], pointers[i := k];
      }
    }

    /** Reads every phase's new samples into events and saves the cursor. Only a run that succeeds moves the cursor,
        past every row it read. A run that fails has read just a part of each phase's samples. */
    method RunVoltageAnalysis() returns (ok: bool, ghost cuts: seq<nat>)
      requires Valid()
      modifies `events, `cursor, `tracks, `open, `asked
      ensures Went(answers, old(asked), asked, ok) && (Fine(answers, old(asked), asked) ==> ok)
      ensures Valid()
      ensures ReadTo(old(tracks), old(open), NewChunks(samples, old(cursor.last)), tracks, cuts)
      ensures !ok ==> cursor == old(cursor) && open == old(open)
      ensures ok ==> Finished(old(tracks), old(open), NewChunks(samples, old(cursor.last)), cuts, open, PHASES)
      ensures ok ==> cursor.last == NewestId(samples, old(cursor.last), PHASES)
    {
      ghost var chunks := NewChunks(samples, cursor.last);
      PointersValid(events, cursor.ongoing, open, tracks);
      NothingRead(tracks, open, chunks);
      cuts := [0, 0, 0];
      ok := Ask();
      if !ok {
        FineMeansOk(answers, old(asked), asked, ok);
        return;
      }
      var maxSeen, ongoing;
      ghost var pointers;
      ok, maxSeen, ongoing, cuts, pointers := ScanPhases(cursor.last, cursor.ongoing, open, chunks);
      var saved := Ask();
      ok := ok && saved;
      if ok {
        cursor := Cursor(maxSeen, ongoing);
        open := pointers;
      }
      FineMeansOk(answers, old(asked), asked, ok);
    }

    /** A daemon's poll cycles from a new database: each stores a batch of samples and analyses them, and before it any
        rows may have been pruned or purged. If no run fails, every sample ever stored has been read exactly once, in
        order, and the events are those of the runs. */
    method PollCycles(batches: seq<seq<SampleRow>>, deleted: seq<set<int>>)
      returns (ok: bool, ghost chunks: seq<seq<seq<Reading>>>)
      requires Valid() && samples == [] && cursor.last == 0
      requires tracks == [[], [], []] && open == [None, None, None]
      requires IncreasingIds(Flatten(batches), 0) && |deleted| == |batches|
      modifies this
      ensures Fine(answers, old(asked), asked) ==> ok
      ensures Valid()
      ensures ok ==> AllCaughtUp(Flatten(batches), chunks, tracks, open, cursor.last)
      ensures ok ==> samples == Survivors(batches, deleted)
    {
      ok, chunks := true, [[], [], []];
      for i := 0 to |batches|
        invariant ok && Went(answers, old(asked), asked, true)
        invariant Valid() && samples == Survivors(batches[..i], deleted[..i])
        invariant AllCaughtUp(Flatten(batches[..i]), chunks, tracks, open, cursor.last)
        invariant NoneNew(samples, cursor.last)
      {
        IncreasingUpTo(batches, i + 1);
        OneMoreBatch(batches, deleted, i);
        ghost var rows, last := Flatten(batches[..i]), cursor.last;
        ghost var tracks0, open0 := tracks, open;
        NoneNewKept(samples, deleted[i], last);
        ghost var kept := Kept(samples, deleted[i]);
        samples := Kept(samples, deleted[i]) + batches[i];
        SameNewRows(kept, rows, batches[i], chunks, tracks, open, last);
        ghost var cuts;
        ok, cuts := RunVoltageAnalysis();
        if !ok {
          FineMeansOk(answers, old(asked), asked, ok);
          return;
        }
        NoneNewAtNewest(samples, last);
        chunks := CatchUp(rows, batches[i], chunks, tracks0, open0, last, tracks, open, cuts);
      }
      assert batches[..|batches|] == batches && deleted[..|batches|] == deleted;
    }
  }

  // ---------------------------------------------------------------- rows that are deleted

  /** DELETE of some rows. */
  function Kept(rows: seq<SampleRow>, gone: set<int>): seq<SampleRow>
    decreases rows
  {
    if rows == [] then []
    else
      var n := |rows| - 1;
      Kept(rows[..n], gone) + if rows[n].id in gone then [] else [rows[n]]
  }

  /** The table after some batches were stored and before each some rows deleted. */
  function Survivors(batches: seq<seq<SampleRow>>, deleted: seq<set<int>>): seq<SampleRow>
    requires |deleted| == |batches|
    decreases batches
  {
    if batches == [] then []
    else
      var n := |batches| - 1;
      Kept(Survivors(batches[..n], deleted[..n]), deleted[n]) + batches[n]
  }

  ghost predicate NoneNew(rows: seq<SampleRow>, last: int) {
    forall p :: 0 <= p < PHASES ==> NewRows(rows, p, last) == []
  }

  lemma OneMoreBatch(batches: seq<seq<SampleRow>>, deleted: seq<set<int>>, i: nat)
    requires |deleted| == |batches| && i < |batches|
    ensures Flatten(batches[..i + 1]) == Flatten(batches[..i]) + batches[i]
    ensures Survivors(batches[..i + 1], deleted[..i + 1]) ==
      Kept(Survivors(batches[..i], deleted[..i]), deleted[i]) + batches[i]
  {
    assert batches[..i + 1][..i] == batches[..i] && deleted[..i + 1][..i] == deleted[..i];
  }

  lemma {:induction false} KeptNewRows(rows: seq<SampleRow>, gone: set<int>, p: Sensor, last: int)
    requires NewRows(rows, p, last) == []
    ensures NewRows(Kept(rows, gone), p, last) == []
    decreases rows
  {
    if rows != [] {
      var n := |rows| - 1;
      KeptNewRows(rows[..n], gone, p, last);
      var r := rows[n];
      NewRowsAppend(Kept(rows[..n], gone), [r], p, last);
      assert [r][..0] == [];
      assert Kept(rows[..n], gone) + [] == Kept(rows[..n], gone);
    }
  }

  lemma NoneNewKept(rows: seq<SampleRow>, gone: set<int>, last: int)
    requires NoneNew(rows, last)
    ensures NoneNew(Kept(rows, gone), last)
  {
    forall p | 0 <= p < PHASES ensures NewRows(Kept(rows, gone), p, last) == [] {
      KeptNewRows(rows, gone, p, last);
    }
  }

  lemma NoneNewAtNewest(rows: seq<SampleRow>, since: int)
    ensures NoneNew(rows, NewestId(rows, since, PHASES))
  {
    forall p | 0 <= p < PHASES ensures NewRows(rows, p, NewestId(rows, since, PHASES)) == [] {
      NothingNewAtNewest(rows, since, p);
    }
  }

  /** A run reads the same of a table with deleted rows as of one without, if none of them are new. */
  lemma SameNewRows(
    kept: seq<SampleRow>, rows: seq<SampleRow>, more: seq<SampleRow>, chunks: seq<seq<seq<Reading>>>,
    tracks: seq<seq<Excursion>>, open: seq<Option<nat>>, last: int)
    requires NoneNew(kept, last) && AllCaughtUp(rows, chunks, tracks, open, last)
    ensures NewChunks(kept + more, last) == NewChunks(rows + more, last)
    ensures NewestId(kept + more, last, PHASES) == NewestId(rows + more, last, PHASES)
  {
    forall p | 0 <= p < PHASES ensures NewRows(kept + more, p, last) == NewRows(rows + more, p, last) {
      assert CaughtUp(rows, p, chunks[p], tracks[p], open[p], last);
      NewRowsAppend(kept, more, p, last);
      NewRowsAppend(rows, more, p, last);
    }
    SameNewest(kept + more, rows + more, last, PHASES);
  }

  lemma {:induction false} SameNewest(a: seq<SampleRow>, b: seq<SampleRow>, last: int, n: nat)
    requires n <= PHASES && forall p :: 0 <= p < PHASES ==> NewRows(a, p, last) == NewRows(b, p, last)
    ensures NewestId(a, last, n) == NewestId(b, last, n)
    decreases n
  {
    if n > 0 {
      SameNewest(a, b, last, n - 1);
    }
  }

  lemma UntouchedPhase(
    tracks0: seq<seq<Excursion>>, open0: seq<Option<nat>>, chunks: seq<seq<Reading>>,
    tracks: seq<seq<Excursion>>, cuts: seq<nat>, ks: seq<Option<nat>>, n: nat)
    requires ReadTo(tracks0, open0, chunks, tracks, cuts) && |ks| == PHASES && n < PHASES
    requires Finished(tracks0, open0, chunks, cuts, ks, n)
    ensures tracks[n] == tracks0[n] && ks[n] == open0[n]
  {
    assert PhaseReadTo(tracks0[n], open0[n], chunks[n], tracks[n], cuts[n]);
    assert chunks[n][..0] == [];
  }

  lemma PhaseRead(
    tracks0: seq<seq<Excursion>>, open0: seq<Option<nat>>, chunks: seq<seq<Reading>>,
    tracks: seq<seq<Excursion>>, cuts: seq<nat>, ks: seq<Option<nat>>, n: nat,
    tracks': seq<seq<Excursion>>, cut: nat, k: Option<nat>)
    requires ReadTo(tracks0, open0, chunks, tracks, cuts) && |ks| == PHASES && n < PHASES
    requires |tracks'| == PHASES && tracks' == tracks[n := tracks'[n]]
    requires PhaseReadTo(tracks0[n], open0[n], chunks[n], tracks'[n], cut)
    ensures ReadTo(tracks0, open0, chunks, tracks', cuts[n := cut])
    ensures Finished(tracks0, open0, chunks, cuts, ks, n) && PhaseFinished(tracks0[n], open0[n], chunks[n], cut, k) ==>
      Finished(tracks0, open0, chunks, cuts[n := cut], ks[n := k], n + 1)
  {
    forall p | 0 <= p < PHASES
      ensures PhaseReadTo(tracks0[p], open0[p], chunks[p], tracks'[p], cuts[n := cut][p])
    {
      if p != n {
        assert PhaseReadTo(tracks0[p], open0[p], chunks[p], tracks[p], cuts[p]);
      }
    }
  }

  lemma NothingRead(tracks0: seq<seq<Excursion>>, open0: seq<Option<nat>>, chunks: seq<seq<Reading>>)
    requires |tracks0| == |open0| == |chunks| == PHASES
    requires forall p :: 0 <= p < PHASES ==> PointsInto(open0[p], tracks0[p])
    ensures ReadTo(tracks0, open0, chunks, tracks0, [0, 0, 0])
    ensures Finished(tracks0, open0, chunks, [0, 0, 0], open0, 0)
  {
    forall p | 0 <= p < PHASES ensures PhaseReadTo(tracks0[p], open0[p], chunks[p], tracks0[p], [0, 0, 0][p]) {
      assert chunks[p][..0] == [];
    }
  }

  lemma PointsAreValid(
    events: seq<EventRow>, p: Sensor, id: Option<nat>, k: Option<nat>, tracks: seq<seq<Excursion>>)
    requires p < PHASES && Names(events, p, id, k) && MirrorsAll(events, tracks)
    ensures PointsInto(k, tracks[p])
  {
    if id.Some? {
      AtPosition(events, p, id.value);
    }
  }

  lemma PointersValid(
    events: seq<EventRow>, ids: seq<Option<nat>>, ks: seq<Option<nat>>, tracks: seq<seq<Excursion>>)
    requires AllNamed(events, ids, ks) && MirrorsAll(events, tracks)
    ensures forall p :: 0 <= p < PHASES ==> PointsInto(ks[p], tracks[p])
  {
    forall p | 0 <= p < PHASES ensures PointsInto(ks[p], tracks[p]) {
      PointsAreValid(events, p, ids[p], ks[p], tracks);
    }
  }

  /** The largest row id among the first n phases' rows beyond the cursor. */
  function NewestId(samples: seq<SampleRow>, since: int, n: nat): int {
    if n == 0 then since else MaxId(NewRows(samples, n - 1, since), NewestId(samples, since, n - 1))
  }

  // ---------------------------------------------------------------- the cursor reads every row once

  function Flatten(batches: seq<seq<SampleRow>>): seq<SampleRow>
    decreases batches
  {
    if batches == [] then [] else Flatten(batches[..|batches| - 1]) + batches[|batches| - 1]
  }

  /** Row ids grow along the table and start above floor. */
  ghost predicate IncreasingIds(rows: seq<SampleRow>, floor: int) {
    && (forall i :: 0 <= i < |rows| ==> floor < rows[i].id)
    && forall i, j :: 0 <= i < j < |rows| ==> rows[i].id < rows[j].id
  }

  lemma {:induction false} NewRowsAppend(a: seq<SampleRow>, b: seq<SampleRow>, p: Sensor, since: int)
    ensures NewRows(a + b, p, since) == NewRows(a, p, since) + NewRows(b, p, since)
    decreases b
  {
    if b == [] {
      assert a + b == a;
    } else {
      assert (a + b)[..|a + b| - 1] == a + b[..|b| - 1];
      NewRowsAppend(a, b[..|b| - 1], p, since);
    }
  }

  lemma {:induction false} ReadingsAppend(a: seq<SampleRow>, b: seq<SampleRow>)
    ensures Readings(a + b) == Readings(a) + Readings(b)
  {
  }

  /** Nothing of the sensor is new to a cursor at or beyond all its rows. */
  lemma {:induction false} NothingNew(rows: seq<SampleRow>, p: Sensor, since: int)
    requires forall i :: 0 <= i < |rows| && rows[i].sensor == p ==> rows[i].id <= since
    ensures NewRows(rows, p, since) == []
    decreases rows
  {
    if rows != [] {
      NothingNew(rows[..|rows| - 1], p, since);
    }
  }

  /** Everything is equally new to two cursors below all rows. */
  lemma {:induction false} AllNew(rows: seq<SampleRow>, p: Sensor, since: int, other: int)
    requires forall i :: 0 <= i < |rows| ==> since < rows[i].id && other < rows[i].id
    ensures NewRows(rows, p, since) == NewRows(rows, p, other)
    decreases rows
  {
    if rows != [] {
      AllNew(rows[..|rows| - 1], p, since, other);
    }
  }

  lemma {:induction false} MaxIdBounds(rows: seq<SampleRow>, floor: int)
    ensures floor <= MaxId(rows, floor) && forall i :: 0 <= i < |rows| ==> rows[i].id <= MaxId(rows, floor)
    ensures MaxId(rows, floor) == floor || exists i :: 0 <= i < |rows| && rows[i].id == MaxId(rows, floor)
    decreases rows
  {
    if rows != [] {
      MaxIdBounds(rows[..|rows| - 1], floor);
    }
  }

  lemma {:induction false} NewRowsAreRows(rows: seq<SampleRow>, p: Sensor, since: int)
    ensures forall r :: r in NewRows(rows, p, since) <==> r in rows && r.sensor == p && r.id > since
    decreases rows
  {
    if rows != [] {
      NewRowsAreRows(rows[..|rows| - 1], p, since);
      assert rows == rows[..|rows| - 1] + [rows[|rows| - 1]];
    }
  }

  lemma PhaseBound(rows: seq<SampleRow>, since: int, p: Sensor, floor: int)
    requires since <= floor
    ensures forall i :: 0 <= i < |rows| && rows[i].sensor == p ==> rows[i].id <= MaxId(NewRows(rows, p, since), floor)
    ensures floor <= MaxId(NewRows(rows, p, since), floor)
  {
    var mine := NewRows(rows, p, since);
    MaxIdBounds(mine, floor);
    NewRowsAreRows(rows, p, since);
    forall i | 0 <= i < |rows| && rows[i].sensor == p ensures rows[i].id <= MaxId(mine, floor) {
      if rows[i].id > since {
        assert rows[i] in mine;
      }
    }
  }

  lemma {:induction false} NewestIdIsBound(rows: seq<SampleRow>, since: int, n: nat)
    ensures since <= NewestId(rows, since, n)
    ensures forall i :: 0 <= i < |rows| && rows[i].sensor < n ==> rows[i].id <= NewestId(rows, since, n)
    decreases n
  {
    if n > 0 {
      NewestIdIsBound(rows, since, n - 1);
      PhaseBound(rows, since, n - 1, NewestId(rows, since, n - 1));
    }
  }

  lemma {:induction false} NewestIdIsRow(rows: seq<SampleRow>, since: int, n: nat)
    ensures NewestId(rows, since, n) == since || exists i :: 0 <= i < |rows| && rows[i].id == NewestId(rows, since, n)
    decreases n
  {
    if n > 0 {
      NewestIdIsRow(rows, since, n - 1);
      var mine, floor := NewRows(rows, n - 1, since), NewestId(rows, since, n - 1);
      MaxIdBounds(mine, floor);
      NewRowsAreRows(rows, n - 1, since);
      if MaxId(mine, floor) != floor {
        var i :| 0 <= i < |mine| && mine[i].id == MaxId(mine, floor);
        assert mine[i] in rows;
      }
    }
  }

  /** The new cursor is at or beyond every row of the first n phases, and is the old one or some row's id. */
  lemma NewestIdBounds(rows: seq<SampleRow>, since: int, n: nat)
    ensures since <= NewestId(rows, since, n)
    ensures forall i :: 0 <= i < |rows| && rows[i].sensor < n ==> rows[i].id <= NewestId(rows, since, n)
    ensures NewestId(rows, since, n) == since || exists i :: 0 <= i < |rows| && rows[i].id == NewestId(rows, since, n)
  {
    NewestIdIsBound(rows, since, n);
    NewestIdIsRow(rows, since, n);
  }

  /** What one run reads and what the next run reads, after more rows were stored, together are what one run would
      have read: no row is skipped and none is read twice. */
  lemma CursorSplitsRows(rows: seq<SampleRow>, more: seq<SampleRow>, since: int, p: Sensor)
    requires p < PHASES
    requires forall i :: 0 <= i < |more| ==> since < more[i].id
    requires forall i, j :: 0 <= i < |rows| && 0 <= j < |more| ==> rows[i].id < more[j].id
    ensures var next := NewestId(rows, since, PHASES);
      NewRows(rows, p, since) + NewRows(rows + more, p, next) == NewRows(rows + more, p, since)
  {
    var next := NewestId(rows, since, PHASES);
    NewestIdBounds(rows, since, PHASES);
    NewRowsAppend(rows, more, p, since);
    NewRowsAppend(rows, more, p, next);
    NothingNew(rows, p, next);
    AllNew(more, p, since, next);
  }

  /** A phase whose events and pointer are those of runs over chunks that make up all its rows. */
  ghost predicate CaughtUp(
    rows: seq<SampleRow>, p: Sensor, chunks: seq<seq<Reading>>, track: seq<Excursion>, open: Option<nat>, last: int)
  {
    && track == RunAll(chunks).track && open == RunAll(chunks).open
    && Concat(chunks) == Readings(NewRows(rows, p, 0))
    && NewRows(rows, p, last) == []
  }

  ghost predicate AllCaughtUp(
    rows: seq<SampleRow>, chunks: seq<seq<seq<Reading>>>,
    tracks: seq<seq<Excursion>>, open: seq<Option<nat>>, last: int)
  {
    && |chunks| == |tracks| == |open| == PHASES
    && (last == 0 || IsRowId(rows, last))
    && forall p :: 0 <= p < PHASES ==> CaughtUp(rows, p, chunks[p], tracks[p], open[p], last)
  }

  lemma CaughtUpStep(
    rows: seq<SampleRow>, more: seq<SampleRow>, p: Sensor, chunks: seq<seq<Reading>>,
    track: seq<Excursion>, open: Option<nat>, last: int)
    requires p < PHASES && CaughtUp(rows, p, chunks, track, open, last)
    requires forall i :: 0 <= i < |more| ==> 0 < more[i].id && last < more[i].id
    ensures var chunk := Readings(NewRows(rows + more, p, last));
      && PointsInto(open, track)
      && CaughtUp(rows + more, p, chunks + [chunk],
        Run(track, open, chunk).track, Run(track, open, chunk).open, NewestId(rows + more, last, PHASES))
  {
    var chunk := Readings(NewRows(rows + more, p, last));
    OneMoreChunk(chunks, chunk);
    NewRowsAppend(rows, more, p, last);
    NewRowsAppend(rows, more, p, 0);
    AllNew(more, p, last, 0);
    assert NewRows(rows + more, p, last) == NewRows(more, p, 0);
    ReadingsAppend(NewRows(rows, p, 0), NewRows(more, p, 0));
    NothingNewAtNewest(rows + more, last, p);
  }

  lemma OneMoreChunk(chunks: seq<seq<Reading>>, chunk: seq<Reading>)
    ensures Concat(chunks + [chunk]) == Concat(chunks) + chunk
    ensures RunAll(chunks + [chunk]) == Run(RunAll(chunks).track, RunAll(chunks).open, chunk)
  {
    assert (chunks + [chunk])[..|chunks|] == chunks;
  }

  lemma NothingNewAtNewest(rows: seq<SampleRow>, since: int, p: Sensor)
    requires p < PHASES
    ensures NewRows(rows, p, NewestId(rows, since, PHASES)) == []
  {
    NewestIdBounds(rows, since, PHASES);
    NothingNew(rows, p, NewestId(rows, since, PHASES));
  }

  ghost predicate IsRowId(rows: seq<SampleRow>, id: int) {
    exists i :: 0 <= i < |rows| && rows[i].id == id
  }

  lemma MoreIsNewer(rows: seq<SampleRow>, more: seq<SampleRow>, last: int)
    requires IncreasingIds(rows + more, 0) && (last == 0 || IsRowId(rows, last))
    ensures forall i :: 0 <= i < |more| ==> 0 < more[i].id && last < more[i].id
  {
    var table := rows + more;
    forall i | 0 <= i < |more| ensures 0 < more[i].id && last < more[i].id {
      assert table[|rows| + i] == more[i];
      if last != 0 {
        var j :| 0 <= j < |rows| && rows[j].id == last;
        assert table[j] == rows[j];
      }
    }
  }

  lemma NewestIsRow(rows: seq<SampleRow>, more: seq<SampleRow>, last: int)
    requires last == 0 || IsRowId(rows, last)
    ensures var next := NewestId(rows + more, last, PHASES); next == 0 || IsRowId(rows + more, next)
  {
    NewestIdBounds(rows + more, last, PHASES);
    if last != 0 {
      var j :| 0 <= j < |rows| && rows[j].id == last;
      assert (rows + more)[j].id == last;
    }
  }

  lemma PhaseFinal(
    track0: seq<Excursion>, open0: Option<nat>, chunk: seq<Reading>,
    track: seq<Excursion>, cut: nat, k: Option<nat>)
    requires PhaseReadTo(track0, open0, chunk, track, cut) && PhaseFinished(track0, open0, chunk, cut, k)
    ensures track == Run(track0, open0, chunk).track && k == Run(track0, open0, chunk).open
  {
    assert chunk[..cut] == chunk;
  }

  lemma PhaseCatchesUp(
    rows: seq<SampleRow>, more: seq<SampleRow>, p: Sensor, chunks: seq<seq<Reading>>,
    track0: seq<Excursion>, open0: Option<nat>, last: int,
    chunk: seq<Reading>, track: seq<Excursion>, cut: nat, k: Option<nat>)
    requires p < PHASES && CaughtUp(rows, p, chunks, track0, open0, last)
    requires forall i :: 0 <= i < |more| ==> 0 < more[i].id && last < more[i].id
    requires chunk == Readings(NewRows(rows + more, p, last))
    requires PhaseReadTo(track0, open0, chunk, track, cut) && PhaseFinished(track0, open0, chunk, cut, k)
    ensures CaughtUp(rows + more, p, chunks + [chunk], track, k, NewestId(rows + more, last, PHASES))
  {
    CaughtUpStep(rows, more, p, chunks, track0, open0, last);
    PhaseFinal(track0, open0, chunk, track, cut, k);
  }

  lemma CatchUp(
    rows: seq<SampleRow>, more: seq<SampleRow>, chunks: seq<seq<seq<Reading>>>,
    tracks: seq<seq<Excursion>>, open: seq<Option<nat>>, last: int,
    tracks': seq<seq<Excursion>>, open': seq<Option<nat>>, cuts: seq<nat>)
    returns (chunks': seq<seq<seq<Reading>>>)
    requires AllCaughtUp(rows, chunks, tracks, open, last) && IncreasingIds(rows + more, 0)
    requires ReadTo(tracks, open, NewChunks(rows + more, last), tracks', cuts) && |open'| == PHASES
    requires Finished(tracks, open, NewChunks(rows + more, last), cuts, open', PHASES)
    ensures AllCaughtUp(rows + more, chunks', tracks', open', NewestId(rows + more, last, PHASES))
  {
    var table, news, next := rows + more, NewChunks(rows + more, last), NewestId(rows + more, last, PHASES);
    chunks' := [chunks[0] + [news[0]], chunks[1] + [news[1]], chunks[2] + [news[2]]];
    MoreIsNewer(rows, more, last);
    NewestIsRow(rows, more, last);
    forall p | 0 <= p < PHASES ensures CaughtUp(table, p, chunks'[p], tracks'[p], open'[p], next) {
      assert chunks'[p] == chunks[p] + [news[p]];
      PhaseCatchesUp(rows, more, p, chunks[p], tracks[p], open[p], last, news[p], tracks'[p], cuts[p], open'[p]);
    }
  }

  lemma {:induction false} IncreasingUpTo(batches: seq<seq<SampleRow>>, n: nat)
    requires n <= |batches| && IncreasingIds(Flatten(batches), 0)
    ensures IncreasingIds(Flatten(batches[..n]), 0)
    decreases |batches|
  {
    if n == |batches| {
      assert batches[..n] == batches;
    } else {
      var most := batches[..|batches| - 1];
      assert most[..n] == batches[..n];
      assert forall i :: 0 <= i < |Flatten(most)| ==> Flatten(most)[i] == Flatten(batches)[i];
      IncreasingUpTo(most, n);
    }
  }

  lemma {:induction false} PositionGrows(events: seq<EventRow>, p: Sensor, id: nat, later: nat)
    requires 1 <= id < later <= |events| && events[id - 1].phase == p
    ensures Position(events, p, id) < Position(events, p, later)
    decreases later
  {
    var n := later - 1;
    var upTo := events[..n];
    assert upTo[..n - 1] == events[..n - 1];
    if id < n {
      PositionGrows(events, p, id, n);
    }
  }

  /** The id is that of the phase's last row. */
  ghost predicate IsLast(events: seq<EventRow>, p: Sensor, id: nat) {
    && 1 <= id <= |events| && events[id - 1].phase == p
    && forall j :: id <= j < |events| ==> events[j].phase != p
  }

  ghost predicate IsOpen(rows: seq<EventRow>) {
    rows != [] && rows[|rows| - 1].end.None?
  }

  /** The cursor's ongoing id is set exactly while the phase's last row is open, and then it is that row's. */
  lemma OngoingIsOpen(
    events: seq<EventRow>, tracks: seq<seq<Excursion>>, ids: seq<Option<nat>>, open: seq<Option<nat>>, p: Sensor)
    requires p < PHASES && MirrorsAll(events, tracks) && AllNamed(events, ids, open)
    requires PointsAtOngoing(open[p], tracks[p])
    ensures ids[p].Some? <==> IsOpen(Of(events, p))
    ensures ids[p].Some? ==> IsLast(events, p, ids[p].value)
  {
    var mine, track := Of(events, p), tracks[p];
    assert Mirrors(mine, p, track) && Names(events, p, ids[p], open[p]);
    assert forall i :: 0 <= i < |mine| ==> Stores(mine[i], p, track[i]);
    if ids[p].Some? {
      var id := ids[p].value;
      AtPosition(events, p, id);
      NothingAfterLast(events, p, id);
    }
  }

  lemma NothingAfterLast(events: seq<EventRow>, p: Sensor, id: nat)
    requires 1 <= id <= |events| && events[id - 1].phase == p && Position(events, p, id) == |Of(events, p)| - 1
    ensures IsLast(events, p, id)
  {
    forall j | id <= j < |events| ensures events[j].phase != p {
      if events[j].phase == p {
        AtPosition(events, p, j + 1);
        PositionGrows(events, p, id, j + 1);
      }
    }
  }

  /** The table of events after any number of error-free poll cycles: for each phase, its rows are exactly the
      intervals the reference finds in all samples ever stored, and with increasing sample times they answer for
      every numeric sample whether it was in range. The cursor names the phase's last row exactly while it is open. */
  lemma EventTableIsIndex(
    rows: seq<SampleRow>, chunks: seq<seq<seq<Reading>>>, events: seq<EventRow>,
    tracks: seq<seq<Excursion>>, ids: seq<Option<nat>>, open: seq<Option<nat>>, last: int, p: Sensor)
    requires p < PHASES && MirrorsAll(events, tracks) && AllCaughtUp(rows, chunks, tracks, open, last)
    requires AllNamed(events, ids, open)
    ensures var mine, stream := Of(events, p), Readings(NewRows(rows, p, 0));
      && |mine| == |Detect(stream)|
      && (forall i :: 0 <= i < |mine| ==> Interval(mine[i].start, mine[i].end, mine[i].duration) == Detect(stream)[i])
      && (Increasing(stream) ==> ExactIndex(Detect(stream), stream) && IndexOfValues(Detect(stream), stream))
    ensures ids[p].Some? <==> IsOpen(Of(events, p))
    ensures ids[p].Some? ==> IsLast(events, p, ids[p].value)
  {
    assert CaughtUp(rows, p, chunks[p], tracks[p], open[p], last);
    RunAllTraces(chunks[p]);
    OngoingIsOpen(events, tracks, ids, open, p);
    if Increasing(Readings(NewRows(rows, p, 0))) {
      DetectIndexes(Concat(chunks[p]));
      ExactIndexOfValues(Detect(Concat(chunks[p])), Concat(chunks[p]));
    }
  }

  /** The statistics of a stored row: its extremes are out-of-range values of samples the event covers, the average
      lies between them, and all three are taken over what the latest contributing run read. That is the whole event if
      and only if no other run read any of its out-of-range samples. */
  lemma RowStatistics(
    rows: seq<SampleRow>, chunks: seq<seq<seq<Reading>>>, events: seq<EventRow>,
    tracks: seq<seq<Excursion>>, open: seq<Option<nat>>, last: int, p: Sensor, i: nat) returns (m: nat)
    requires p < PHASES && MirrorsAll(events, tracks) && AllCaughtUp(rows, chunks, tracks, open, last)
    requires i < |Of(events, p)| && Increasing(Readings(NewRows(rows, p, 0)))
    ensures var row := Of(events, p)[i];
      m < |chunks[p]| &&
      var vals := CoveredValues(chunks[p][m], Interval(row.start, row.end, row.duration));
      && vals != []
      && row.min in vals && row.max in vals && row.min <= row.avg <= row.max
      && (row.min < 207.0 || row.min > 253.0) && (row.max < 207.0 || row.max > 253.0)
      && (forall v :: v in vals ==> row.min <= v <= row.max)
      && row.avg == Average(vals)
      && (forall k :: m < k < |chunks[p]| ==>
        CoveredValues(chunks[p][k], Interval(row.start, row.end, row.duration)) == [])
      && (vals == CoveredValues(Readings(NewRows(rows, p, 0)), Interval(row.start, row.end, row.duration)) <==>
        OneContributor(chunks[p], Interval(row.start, row.end, row.duration)))
  {
    assert CaughtUp(rows, p, chunks[p], tracks[p], open[p], last);
    var e := tracks[p][i];
    assert Stores(Of(events, p)[i], p, e);
    m := RecentIsLatestRun(chunks[p], i);
    LatestIsAllIff(e, chunks[p], m);
    CoveredValuesOutside(chunks[p][m], Shape(e));
    ExtremesBound(e.recent);
    AverageBetween(e.recent);
  }
}
