/** The history of one sensor as the dashboard gets it: the newest rows of a time window, oldest first, thinned out and
    taken relative to a reference sample. */
module RawQuery {
  import opened Options

  /** Nanoseconds. */
  type Time = int

  datatype Sample = Sample(value: Option<real>, text: Option<string>, unit: string, time: Time)
  datatype Row = Row(sensor: string, sample: Sample)

  const DEFAULT_LIMIT := 100000
  const MAX_POINTS := 2000
  const DAY: Time := 24 * 3_600_000_000_000

  // ---------------------------------------------------------------- what the SELECT statements mean

  function Matching(table: seq<Row>, sensor: string, since: Time, until: Time): seq<Sample> {
    if table == [] then []
    else
      var rest := Matching(table[1..], sensor, since, until);
      if table[0].sensor == sensor && since <= table[0].sample.time <= until then [table[0].sample] + rest else rest
  }

  lemma {:induction false} MatchingIff(table: seq<Row>, sensor: string, since: Time, until: Time, s: Sample)
    ensures s in Matching(table, sensor, since, until) <==> Row(sensor, s) in table && since <= s.time <= until
    decreases table
  {
    if table != [] {
      MatchingIff(table[1..], sensor, since, until, s);
    }
  }

  ghost predicate NewestFirst(samples: seq<Sample>) {
    forall i, j :: 0 <= i < j < |samples| ==> samples[i].time >= samples[j].time
  }

  ghost predicate OldestFirst(samples: seq<Sample>) {
    forall i, j :: 0 <= i < j < |samples| ==> samples[i].time <= samples[j].time
  }

  /** ORDER BY sampled_at DESC: rows of the same time may come in any order. */
  ghost predicate OrdersBy(sorted: seq<Sample>, samples: seq<Sample>) {
    multiset(sorted) == multiset(samples) && NewestFirst(sorted)
  }

  /** LIMIT. */
  function Cut(sorted: seq<Sample>, limit: nat): seq<Sample> {
    if limit < |sorted| then sorted[..limit] else sorted
  }

  /** A result set of the query of QueryRawSamples. */
  ghost predicate IsResult(
    table: seq<Row>, sensor: string, since: Time, until: Time, limit: nat, result: seq<Sample>)
  {
    exists sorted :: OrdersBy(sorted, Matching(table, sensor, since, until)) && result == Cut(sorted, limit)
  }

  /** A result of the query of SampleAt: a latest sample of the sensor that is not after the time. */
  ghost predicate IsSampleAt(table: seq<Row>, sensor: string, at: Time, found: Option<Sample>) {
    && (found.Some? ==> Row(sensor, found.value) in table && found.value.time <= at)
    && (forall row :: row in table && row.sensor == sensor && row.sample.time <= at ==>
          found.Some? && row.sample.time <= found.value.time)
  }

  // ---------------------------------------------------------------- the query

  function Reverse(samples: seq<Sample>): seq<Sample> {
    if samples == [] then [] else Reverse(samples[1..]) + [samples[0]]
  }

  lemma {:induction false} ReverseAt(samples: seq<Sample>)
    ensures |Reverse(samples)| == |samples|
    ensures forall k :: 0 <= k < |samples| ==> Reverse(samples)[k] == samples[|samples| - 1 - k]
    decreases samples
  {
    if samples != [] {
      ReverseAt(samples[1..]);
    }
  }

  /** Swaps its way from both ends to the middle. */
  method ReverseInPlace(samples: array<Sample>)
    modifies samples
    ensures samples[..] == Reverse(old(samples[..]))
  {
    ghost var was := samples[..];
    var i, j := 0, samples.Length - 1;
    while i < j
      invariant 0 <= i <= samples.Length && j == samples.Length - 1 - i && i <= j + 1
      invariant forall k :: i <= k <= j ==> samples[k] == was[k]
      invariant forall k :: 0 <= k < i || j < k < samples.Length ==> samples[k] == was[samples.Length - 1 - k]
    {
      samples[i], samples[j] := samples[j], samples[i];
      i, j := i + 1, j - 1;
    }
    ReverseAt(was);
  }

  /** The newest rows of the window, oldest first. */
  method QueryRawSamples(
    ghost table: seq<Row>, ghost sensor: string, ghost since: Time, ghost until: Time, ghost limit: nat,
    result: seq<Sample>) returns (samples: array<Sample>)
    requires IsResult(table, sensor, since, until, limit, result)
    ensures fresh(samples)
    ensures IsHistory(table, sensor, since, until, limit, samples[..])
    ensures samples[..] == Reverse(result)
  {
    samples := new Sample[|result|](i requires 0 <= i < |result| => result[i]);
    assert samples[..] == result;
    ReverseInPlace(samples);
    ResultIsHistory(table, sensor, since, until, limit, result);
  }

  /** What a caller gets: samples of the window, oldest first, as many as there are up to the limit, and none left out
      that is newer than one of them. */
  ghost predicate IsHistory(
    table: seq<Row>, sensor: string, since: Time, until: Time, limit: nat, samples: seq<Sample>)
  {
    IsNewestOf(Matching(table, sensor, since, until), limit, samples)
  }

  ghost predicate IsNewestOf(all: seq<Sample>, limit: nat, samples: seq<Sample>) {
    && OldestFirst(samples)
    && multiset(samples) <= multiset(all)
    && |samples| == (if limit < |all| then limit else |all|)
    && NotNewer(multiset(all) - multiset(samples), multiset(samples))
  }

  ghost predicate NotNewer(left: multiset<Sample>, taken: multiset<Sample>) {
    forall s, t :: s in left && t in taken ==> s.time <= t.time
  }

  lemma {:induction false} ReverseKeepsMultiset(samples: seq<Sample>)
    ensures multiset(Reverse(samples)) == multiset(samples)
    decreases samples
  {
    if samples != [] {
      ReverseKeepsMultiset(samples[1..]);
      assert samples == [samples[0]] + samples[1..];
    }
  }

  lemma ResultIsHistory(
    table: seq<Row>, sensor: string, since: Time, until: Time, limit: nat, result: seq<Sample>)
    requires IsResult(table, sensor, since, until, limit, result)
    ensures IsHistory(table, sensor, since, until, limit, Reverse(result))
  {
    var all := Matching(table, sensor, since, until);
    var sorted :| OrdersBy(sorted, all) && result == Cut(sorted, limit);
    CutIsNewest(sorted, all, limit, result, sorted[|result|..], Reverse(result));
  }

  lemma CutIsNewest(
    sorted: seq<Sample>, all: seq<Sample>, limit: nat, result: seq<Sample>, rest: seq<Sample>, back: seq<Sample>)
    requires OrdersBy(sorted, all) && result == Cut(sorted, limit) && rest == sorted[|result|..]
    requires back == Reverse(result)
    ensures IsNewestOf(all, limit, back)
  {
    CutSplits(sorted, all, result, rest);
    CutNotNewer(sorted, result, rest);
    ReverseKeepsMultiset(result);
    BackIsOldestFirst(result, back);
  }

  lemma BackIsOldestFirst(result: seq<Sample>, back: seq<Sample>)
    requires NewestFirst(result) && back == Reverse(result)
    ensures OldestFirst(back) && |back| == |result|
  {
    ReverseAt(result);
  }

  lemma CutNotNewer(sorted: seq<Sample>, result: seq<Sample>, rest: seq<Sample>)
    requires NewestFirst(sorted) && sorted == result + rest
    ensures NotNewer(multiset(rest), multiset(result))
  {
    forall s, t | s in multiset(rest) && t in multiset(result) ensures s.time <= t.time {
      var j :| 0 <= j < |rest| && rest[j] == s;
      var i :| 0 <= i < |result| && result[i] == t;
      assert sorted[i] == t && sorted[|result| + j] == s;
    }
  }

  lemma CutSplits(sorted: seq<Sample>, all: seq<Sample>, result: seq<Sample>, rest: seq<Sample>)
    requires multiset(sorted) == multiset(all)
    requires |result| <= |sorted| && result == sorted[..|result|] && rest == sorted[|result|..]
    ensures |sorted| == |all| && sorted == result + rest
    ensures multiset(result) <= multiset(all) && multiset(all) - multiset(result) == multiset(rest)
  {
    assert sorted == result + rest;
    assert |sorted| == |multiset(sorted)| == |multiset(all)| == |all|;
  }

  // ---------------------------------------------------------------- thinning out

  /** Every step-th sample, from the first on. */
  function Every(samples: seq<Sample>, step: nat): seq<Sample>
    requires step > 0
  {
    if |samples| <= step then (if samples == [] then [] else [samples[0]])
    else [samples[0]] + Every(samples[step..], step)
  }

  lemma OneLess(k: nat, step: nat)
    ensures (k - 1) * step == k * step - step
  {
  }

  /** There are ceil(|samples| / step) of them. */
  lemma {:induction false} EveryCount(samples: seq<Sample>, step: nat)
    requires step > 0
    ensures |samples| <= |Every(samples, step)| * step < |samples| + step
    decreases samples
  {
    if |samples| > step {
      EveryCount(samples[step..], step);
    }
    OneLess(|Every(samples, step)|, step);
  }

  lemma {:induction false} EveryAt(samples: seq<Sample>, step: nat, k: nat, at: int)
    requires step > 0 && k < |Every(samples, step)| && at == k * step
    ensures 0 <= at < |samples| && Every(samples, step)[k] == samples[at]
    decreases k
  {
    if k > 0 {
      OneLess(k, step);
      EveryAt(samples[step..], step, k - 1, at - step);
    }
  }

  /** The step that gets n samples down to at most max. */
  function Step(n: nat, max: nat): nat
    requires max > 0
  {
    if n <= max then 1 else (n + max - 1) / max
  }

  /** It is the smallest step that does: it gives at most max points, and any smaller one more than max. */
  lemma StepIsLeast(samples: seq<Sample>, max: nat, smaller: nat)
    requires max > 0
    ensures Step(|samples|, max) > 0 && |Every(samples, Step(|samples|, max))| <= max
    ensures 0 < smaller < Step(|samples|, max) ==> |Every(samples, smaller)| > max
  {
    var n := |samples|;
    var step := Step(n, max);
    StepBounds(n, max, step);
    EveryCount(samples, step);
    CountAtMost(|Every(samples, step)|, step, n, max);
    if 0 < smaller < step {
      EveryCount(samples, smaller);
      CountAbove(|Every(samples, smaller)|, smaller, step, n, max);
    }
  }

  lemma StepBounds(n: nat, max: nat, step: nat)
    requires max > 0 && step == Step(n, max)
    ensures step > 0 && n <= step * max
    ensures n > max ==> step * max < n + max
  {
    if n > max {
      var total := n + max - 1;
      assert total == max * (total / max) + total % max;
    }
  }

  lemma Scale(a: nat, b: nat, s: nat)
    ensures a <= b ==> a * s <= b * s
  {
  }

  lemma CountAtMost(count: nat, step: nat, n: nat, max: nat)
    requires step > 0 && count * step < n + step && n <= step * max
    ensures count <= max
  {
    Scale(max + 1, count, step);
    assert (max + 1) * step == step * max + step;
  }

  lemma CountAbove(count: nat, smaller: nat, step: nat, n: nat, max: nat)
    requires 0 < smaller < step && n <= count * smaller && n > max > 0 && step == Step(n, max)
    ensures count > max
  {
    StepBounds(n, max, step);
    Scale(count, max, smaller);
    Scale(smaller, step - 1, max);
    assert (step - 1) * max == step * max - max;
  }

  method Downsample(samples: seq<Sample>, max: nat) returns (result: seq<Sample>)
    requires max > 0
    ensures result == Every(samples, Step(|samples|, max))
    ensures |result| <= max
    ensures samples != [] ==> result != [] && result[0] == samples[0]
  {
    StepIsLeast(samples, max, 0);
    if |samples| <= max {
      EveryFirst(samples);
      return samples;
    }
    var step := (|samples| + max - 1) / max;
    result := [];
    var i := 0;
    while i < |samples|
      invariant 0 <= i
      invariant i < |samples| ==> Every(samples, step) == result + Every(samples[i..], step)
      invariant i >= |samples| ==> Every(samples, step) == result
      decreases |samples| - i
    {
      var rest := samples[i..];
      assert |rest| > step ==> rest[step..] == samples[i + step..];
      result := result + [samples[i]];
      i := i + step;
    }
  }

  lemma {:induction false} EveryFirst(samples: seq<Sample>)
    ensures Every(samples, 1) == samples
    decreases samples
  {
    if |samples| > 1 {
      EveryFirst(samples[1..]);
    }
  }

  // ---------------------------------------------------------------- relative to a reference

  function Less(s: Sample, reference: real): Sample {
    if s.value.None? then s else s.(value := Some(s.value.value - reference))
  }

  function AllLess(samples: seq<Sample>, reference: real): seq<Sample> {
    if samples == [] then [] else [Less(samples[0], reference)] + AllLess(samples[1..], reference)
  }

  /** The k-th sample of a relative history: what has to be added to the reference to get the k-th value back, with text,
      unit and time as they were. */
  ghost predicate IsRelative(s: Sample, was: Sample, reference: real) {
    && (s.value.Some? <==> was.value.Some?)
    && (s.value.Some? ==> reference + s.value.value == was.value.value)
    && s.text == was.text && s.unit == was.unit && s.time == was.time
  }

  lemma {:induction false} AllLessAt(samples: seq<Sample>, reference: real)
    ensures |AllLess(samples, reference)| == |samples|
    ensures forall k :: 0 <= k < |samples| ==> AllLess(samples, reference)[k] == Less(samples[k], reference)
    ensures forall k :: 0 <= k < |samples| ==> IsRelative(AllLess(samples, reference)[k], samples[k], reference)
    decreases samples
  {
    if samples != [] {
      AllLessAt(samples[1..], reference);
    }
  }

  /** Thinning out and taking differences commute. */
  lemma {:induction false} DeltaCommutes(samples: seq<Sample>, step: nat, reference: real)
    requires step > 0
    ensures AllLess(Every(samples, step), reference) == Every(AllLess(samples, reference), step)
    decreases samples
  {
    AllLessAt(samples, reference);
    if |samples| > step {
      var rest := samples[step..];
      DeltaCommutes(rest, step, reference);
      AllLessAt(rest, reference);
      assert AllLess(samples, reference)[step..] == AllLess(rest, reference);
      assert Every(samples, step)[1..] == Every(rest, step);
    }
  }

  /** Replaces every value by its difference from the reference. */
  method AdjustInPlace(samples: array<Sample>, reference: real)
    modifies samples
    ensures samples[..] == AllLess(old(samples[..]), reference)
    ensures forall k :: 0 <= k < samples.Length ==> IsRelative(samples[k], old(samples[..])[k], reference)
  {
    ghost var was := samples[..];
    for i := 0 to samples.Length
      invariant forall k :: 0 <= k < i ==> samples[k] == Less(was[k], reference)
      invariant forall k :: i <= k < samples.Length ==> samples[k] == was[k]
    {
      if samples[i].value.Some? {
        var adjusted := samples[i].value.value - reference;
        samples[i] := samples[i].(value := Some(adjusted));
      }
    }
    AllLessAt(was, reference);
  }

  // ---------------------------------------------------------------- the request

  datatype Request = Request(since: Option<Time>, until: Option<Time>, limit: Option<int>, delta: Option<Time>)
  datatype Response = Refused | Samples(samples: seq<Sample>)

  function Since(r: Request, now: Time): (t: Time)
    ensures r.since.None? ==> now - t == 86_400_000_000_000
  {
    if r.since.Some? then r.since.value else now - DAY
  }

  /** Never in the future. */
  function Until(r: Request, now: Time): Time {
    if r.until.Some? && r.until.value <= now then r.until.value else now
  }

  function Limit(r: Request): (n: nat)
    ensures n == if r.limit.Some? && r.limit.value >= 1 then r.limit.value else 100_000
  {
    if r.limit.Some? && r.limit.value > 0 then r.limit.value else DEFAULT_LIMIT
  }

  predicate Answerable(r: Request, now: Time, reference: Option<Sample>) {
    && Since(r, now) <= Until(r, now)
    && (r.delta.Some? ==> reference.Some? && reference.value.value.Some?)
  }

  /** The answer to a request for raw samples, given what the two queries return. */
  method GetAggregate(
    ghost table: seq<Row>, sensor: string, r: Request, now: Time, result: seq<Sample>, reference: Option<Sample>)
    returns (response: Response)
    requires IsResult(table, sensor, Since(r, now), Until(r, now), Limit(r), result)
    requires r.delta.Some? ==> IsSampleAt(table, sensor, r.delta.value, reference)
    ensures response.Samples? <==> Answerable(r, now, reference)
    ensures response.Samples? ==>
      && |response.samples| <= 2000
      && exists history: seq<Sample> ::
        && IsHistory(table, sensor, Since(r, now), Until(r, now), Limit(r), history)
        && response.samples == Every(
          if r.delta.Some? then AllLess(history, reference.value.value.value) else history,
          Step(|history|, MAX_POINTS))
  {
    var since := if r.since.Some? then r.since.value else now - DAY;
    var until := if r.until.Some? then r.until.value else now;
    if until > now {
      until := now;
    }
    if since > until {
      return Refused;
    }
    if r.delta.Some? && (reference.None? || reference.value.value.None?) {
      return Refused;
    }
    var history := QueryRawSamples(table, sensor, since, until, Limit(r), result);
    var samples := Downsample(history[..], MAX_POINTS);
    if r.delta.Some? {
      samples := Adjust(samples, history[..], Step(history.Length, MAX_POINTS), reference.value.value.value);
    }
    response := Samples(samples);
  }

  method Adjust(samples: seq<Sample>, ghost history: seq<Sample>, ghost step: nat, reference: real)
    returns (result: seq<Sample>)
    requires step > 0 && samples == Every(history, step)
    ensures |result| == |samples| && result == Every(AllLess(history, reference), step)
  {
    var adjusted := new Sample[|samples|](i requires 0 <= i < |samples| => samples[i]);
    assert adjusted[..] == samples;
    AdjustInPlace(adjusted, reference);
    DeltaCommutes(history, step, reference);
    AllLessAt(samples, reference);
    result := adjusted[..];
  }
}
