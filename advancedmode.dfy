/** The advanced-mode chart of the volume hook: one record per slot of the
    time grid with the expected cumulative and per-slot volumes and the
    volume typed into that slot; the projection of the day's volume from
    those inputs (`calculateVolumeProjection`); and the chart that follows
    the observed cumulative volume up to the last input and then blends,
    over about an hour, into the projected curve (`smoothInterpolation`). */
module AdvancedMode {
  import opened Wrappers
  import opened JsRuntime
  import opened Constants
  import opened Clock
  import opened VolumeCurve
  import opened Formatters

  /** One record of the hook's `data` array: the slot's label, its rounded
      expected cumulative and per-slot volumes, the parsed input and the
      slot's session flags. */
  datatype SlotData = SlotData(
    time: string,
    expected: Option<real>,
    expectedIndividual: Option<real>,
    userInput: Option<real>,
    isPreMarket: bool,
    isAfterMarket: bool)

  /** What `calculateVolumeProjection` returns when it does not return null. */
  datatype Projection = Projection(
    projectedDailyVolume: real,
    volumeRatio: real,
    lastInputTime: string,
    cumulativeActual: real,
    cumulativeExpected: real,
    manualDailyVolume: bool)

  /** One point of the chart that `smoothInterpolation` returns. */
  datatype ChartPoint = ChartPoint(
    time: string,
    expected: Option<real>,
    actual: Option<real>,
    isPreMarket: bool,
    isAfterMarket: bool)

  /** The truth value JavaScript gives a number that may be null: present
      and not zero. */
  predicate Truthy(x: Option<real>) {
    x.Some? && x.value != 0.0
  }

  /** `x || 0` on a number that may be null. */
  function OrZero(x: Option<real>): (r: real)
    ensures Truthy(x) ==> r == x.value
    ensures !Truthy(x) ==> r == 0.0
  {
    if x.Some? then x.value else 0.0
  }

  /** Neither pre- nor after-market. */
  predicate InSession(p: SlotData) {
    !p.isPreMarket && !p.isAfterMarket
  }

  /** A slot the projection reads: in the session and with an input. */
  predicate IsSessionInput(p: SlotData) {
    p.userInput.Some? && InSession(p)
  }

  // ========================================================== the builder

  /** `x ? Math.round(x) : null`. */
  function RoundedIfTruthy(x: Option<real>): (r: Option<real>)
    ensures r.None? <==> !Truthy(x)
    ensures r.Some? ==> r.value == Round(x.value) as real
  {
    if Truthy(x) then Some(Round(x.value) as real) else None
  }

  /** `inputValue ? parseVolumeInput(inputValue) : null` for the text typed
      for the slot at `time`: no entry and an empty entry give null. */
  function ParsedInput(granular: map<string, string>, time: string): Option<real> {
    if time in granular && granular[time] != [] then ParseVolumeInput(Text(granular[time])) else None
  }

  /** The record the advanced builder makes of one time slot. */
  function BuildSlot(slot: TimeSlot, avg: real, granular: map<string, string>): SlotData
    requires IsClockLabel(slot.time)
  {
    var t := ClockMinutes(slot.time);
    SlotData(
      slot.time,
      RoundedIfTruthy(ExpectedVolumeAt(avg, t)),
      RoundedIfTruthy(IndividualVolumeAt(avg, t)),
      ParsedInput(granular, slot.time),
      slot.isPreMarket,
      slot.isAfterMarket)
  }

  /** Every slot carries an "HH:MM" label. */
  predicate Labelled(slots: seq<TimeSlot>) {
    forall k :: 0 <= k < |slots| ==> IsClockLabel(slots[k].time)
  }

  /** `timeSlots.map(...)`: the advanced builder over a grid of slots. */
  function BuildData(slots: seq<TimeSlot>, avg: real, granular: map<string, string>): (data: seq<SlotData>)
    requires Labelled(slots)
    ensures |data| == |slots|
    ensures forall k :: 0 <= k < |slots| ==> data[k].userInput == ParsedInput(granular, slots[k].time)
  {
    seq(|slots|, k requires 0 <= k < |slots| => BuildSlot(slots[k], avg, granular))
  }

  // ======================================================= the projection

  /** The accumulators of the loop of `calculateVolumeProjection`. */
  datatype Totals = Totals(actual: real, expected: real, last: Option<string>)

  /** One turn of that loop: an input in the session adds to the actual
      total and resets the expected total to the slot's expected cumulative
      volume; a session slot without input adds its expected volume to the
      expected total only while that total is 0. */
  function TotalsStep(acc: Totals, p: SlotData): Totals {
    if IsSessionInput(p) then
      Totals(acc.actual + p.userInput.value, OrZero(p.expected), Some(p.time))
    else if p.userInput.None? && InSession(p) && acc.expected == 0.0 then
      Totals(acc.actual, acc.expected + OrZero(p.expectedIndividual), acc.last)
    else acc
  }

  /** The accumulators after the first `n` records. */
  function TotalsAfter(data: seq<SlotData>, n: nat): Totals
    requires n <= |data|
  {
    if n == 0 then Totals(0.0, 0.0, None)
    else TotalsStep(TotalsAfter(data, n - 1), data[n - 1])
  }

  /** The inputs of the session slots among the first `n` records, in
      order (the source's `userInputs` filter). */
  function SessionInputValues(data: seq<SlotData>, n: nat): seq<real>
    requires n <= |data|
  {
    if n == 0 then []
    else
      var rest := SessionInputValues(data, n - 1);
      if IsSessionInput(data[n - 1]) then rest + [data[n - 1].userInput.value] else rest
  }

  /** The sum of a sequence of numbers. */
  function Sum(s: seq<real>): real {
    if s == [] then 0.0 else Sum(s[..|s| - 1]) + s[|s| - 1]
  }

  /** The daily volume typed by hand: an empty string counts as none. */
  function ManualVolume(s: string): Option<real> {
    if s == [] then None else ParseVolumeInput(Text(s))
  }

  /** `calculateVolumeProjection`: null without an input in the session or
      when the expected total is not positive; otherwise the ratio of the
      actual to the expected total, and the projected daily volume: the
      manual one when it is a nonzero number, else the average times the
      ratio. */
  function ProjectionOf(data: seq<SlotData>, avg: real, manualInput: string): Option<Projection> {
    if |SessionInputValues(data, |data|)| == 0 then None
    else
      var t := TotalsAfter(data, |data|);
      if t.expected <= 0.0 then None
      else
        InputSetsLast(data, |data|);
        var manual := ManualVolume(manualInput);
        var ratio := t.actual / t.expected;
        Some(Projection(
          if Truthy(manual) then manual.value else Share(avg, ratio),
          ratio,
          t.last.value,
          t.actual,
          t.expected,
          Truthy(manual)))
  }

  /** Once an input has been met, the loop has recorded its time. */
  lemma {:induction false} InputSetsLast(data: seq<SlotData>, n: nat)
    requires n <= |data|
    ensures |SessionInputValues(data, n)| > 0 ==> TotalsAfter(data, n).last.Some?
  {
    if n > 0 {
      InputSetsLast(data, n - 1);
    }
  }

  /** `calculateVolumeProjection`: the filter, then one pass over the
      records with the three accumulators. */
  method CalculateVolumeProjection(data: seq<SlotData>, avg: real, manualInput: string)
    returns (r: Option<Projection>)
    ensures r == ProjectionOf(data, avg, manualInput)
  {
    if |SessionInputValues(data, |data|)| == 0 {
      return None;
    }
    var cumulativeActual := 0.0;
    var cumulativeExpected := 0.0;
    var lastInputTime: Option<string> := None;
    var i := 0;
    while i < |data|
      invariant 0 <= i <= |data|
      invariant TotalsAfter(data, i) == Totals(cumulativeActual, cumulativeExpected, lastInputTime)
    {
      var point := data[i];
      if point.userInput.Some? && !point.isPreMarket && !point.isAfterMarket {
        cumulativeActual := cumulativeActual + point.userInput.value;
        cumulativeExpected := OrZero(point.expected);
        lastInputTime := Some(point.time);
      } else if point.userInput.None? && !point.isPreMarket && !point.isAfterMarket && cumulativeExpected == 0.0 {
        cumulativeExpected := cumulativeExpected + OrZero(point.expectedIndividual);
      }
      i := i + 1;
    }
    assert TotalsAfter(data, |data|) == Totals(cumulativeActual, cumulativeExpected, lastInputTime);
    if cumulativeExpected <= 0.0 {
      return None;
    }
    InputSetsLast(data, |data|);
    var manualDailyVolume := ManualVolume(manualInput);
    var volumeRatio := cumulativeActual / cumulativeExpected;
    var autoProjectedDailyVolume := Share(avg, volumeRatio);
    var projectedDailyVolume := if Truthy(manualDailyVolume) then manualDailyVolume.value else autoProjectedDailyVolume;
    return Some(Projection(projectedDailyVolume, volumeRatio, lastInputTime.value,
      cumulativeActual, cumulativeExpected, Truthy(manualDailyVolume)));
  }

  // ======================================================== the smoothing

  /** The accumulators of the first loop of `smoothInterpolation`. */
  datatype Running = Running(actual: real, last: int)

  /** One turn of that loop at index `i`: an input in the session adds to
      the running total and becomes the last input; before the first such
      input, a session slot without input adds its expected volume. */
  function RunningStep(acc: Running, p: SlotData, i: int): Running {
    if IsSessionInput(p) then Running(acc.actual + p.userInput.value, i)
    else if p.userInput.None? && InSession(p) && acc.last == -1 then
      Running(acc.actual + OrZero(p.expectedIndividual), acc.last)
    else acc
  }

  /** The accumulators after the first `n` records. */
  function RunningAfter(data: seq<SlotData>, n: nat): (r: Running)
    requires n <= |data|
    ensures -1 <= r.last < n
  {
    if n == 0 then Running(0.0, -1)
    else RunningStep(RunningAfter(data, n - 1), data[n - 1], n - 1)
  }

  /** The running total recorded with record `i` (its `cumulativeActual`). */
  function Plotted(data: seq<SlotData>, i: nat): real
    requires i < |data|
  {
    RunningAfter(data, i + 1).actual
  }

  /** The index of the last input in the session, -1 without one. */
  function LastInputIndex(data: seq<SlotData>): (l: int)
    ensures -1 <= l < |data|
  {
    RunningAfter(data, |data|).last
  }

  /** `Math.min(distance / 12, 1)`: the weight of the projected curve,
      full after twelve slots. */
  function SmoothingFactor(distance: int): real
    requires distance >= 1
  {
    Min(distance as real / 12.0, 1.0)
  }

  /** The point at weight `f` on the way from `from` to `to`. */
  function Blend(from: real, to: real, f: real): real {
    from + (to - from) * f
  }

  /** The average is never 0 where a record's expected volume is used. */
  predicate AverageDivides(data: seq<SlotData>, avg: real) {
    avg == 0.0 ==> forall k :: 0 <= k < |data| ==> !Truthy(data[k].expected)
  }

  /** `point.expected ? point.expected / avgVolume50Day : 0`. */
  function ExpectedPct(p: SlotData, avg: real): real
    requires Truthy(p.expected) ==> avg != 0.0
  {
    if Truthy(p.expected) then p.expected.value / avg else 0.0
  }

  /** The `actual` of record `i` under a projection: null outside the
      session, the rounded running total up to the last input, and after it
      the rounded blend from the running total at the last input (0 without
      one) toward the projected daily volume's share of the record. */
  function SmoothedActual(data: seq<SlotData>, proj: Projection, avg: real, i: nat): Option<real>
    requires i < |data| && AverageDivides(data, avg)
  {
    var p := data[i];
    var last := LastInputIndex(data);
    if p.isPreMarket || p.isAfterMarket then None
    else if i <= last then Some(Round(Plotted(data, i)) as real)
    else
      var projectedValue := Share(proj.projectedDailyVolume, ExpectedPct(p, avg));
      var lastActualValue := if last >= 0 then Plotted(data, last) else 0.0;
      Some(Round(Blend(lastActualValue, projectedValue, SmoothingFactor(i - last))) as real)
  }

  /** Chart point `i`: the record's time, expected volume and flags, with
      the expected volume as `actual` when there is no projection. */
  function SmoothedPoint(data: seq<SlotData>, proj: Option<Projection>, avg: real, i: nat): ChartPoint
    requires i < |data|
    requires proj.Some? ==> AverageDivides(data, avg)
  {
    var p := data[i];
    ChartPoint(p.time, p.expected,
      if proj.None? then p.expected else SmoothedActual(data, proj.value, avg, i),
      p.isPreMarket, p.isAfterMarket)
  }

  /** `smoothInterpolation` as a whole. */
  function SmoothInterpolationOf(data: seq<SlotData>, proj: Option<Projection>, avg: real): seq<ChartPoint>
    requires proj.Some? ==> AverageDivides(data, avg)
  {
    seq(|data|, i requires 0 <= i < |data| => SmoothedPoint(data, proj, avg, i))
  }

  /** `smoothInterpolation`: without a projection, the records with their
      expected volume as `actual`; with one, a first pass recording the
      running total with each record (`result` keeps only that total, the
      rest of the record being `data[i]`) and a second pass computing each
      point. */
  method SmoothInterpolation(data: seq<SlotData>, projection: Option<Projection>, avg: real)
    returns (out: seq<ChartPoint>)
    requires projection.Some? ==> AverageDivides(data, avg)
    ensures out == SmoothInterpolationOf(data, projection, avg)
  {
    if projection.None? {
      return seq(|data|, i requires 0 <= i < |data| =>
        ChartPoint(data[i].time, data[i].expected, data[i].expected, data[i].isPreMarket, data[i].isAfterMarket));
    }
    var result: seq<real> := [];
    var cumulativeActual := 0.0;
    var lastUserInputIndex := -1;
    var i := 0;
    while i < |data|
      invariant 0 <= i <= |data|
      invariant RunningAfter(data, i) == Running(cumulativeActual, lastUserInputIndex)
      invariant |result| == i
      invariant forall k :: 0 <= k < i ==> result[k] == Plotted(data, k)
    {
      var point := data[i];
      if point.userInput.Some? && !point.isPreMarket && !point.isAfterMarket {
        cumulativeActual := cumulativeActual + point.userInput.value;
        lastUserInputIndex := i;
      } else if point.userInput.None? && !point.isPreMarket && !point.isAfterMarket && lastUserInputIndex == -1 {
        cumulativeActual := cumulativeActual + OrZero(point.expectedIndividual);
      }
      result := result + [cumulativeActual];
      i := i + 1;
    }
    var finalResult: seq<ChartPoint> := [];
    i := 0;
    while i < |result|
      invariant 0 <= i <= |data| && |result| == |data|
      invariant |finalResult| == i
      invariant forall k :: 0 <= k < i ==> finalResult[k] == SmoothedPoint(data, projection, avg, k)
    {
      var point := data[i];
      var actualValue: Option<real> := None;
      if point.isPreMarket || point.isAfterMarket {
        actualValue := None;
      } else if i <= lastUserInputIndex {
        actualValue := Some(Round(result[i]) as real);
      } else {
        var expectedPctAtThisTime := if Truthy(point.expected) then point.expected.value / avg else 0.0;
        var projectedValue := Share(projection.value.projectedDailyVolume, expectedPctAtThisTime);
        var distanceFromLastInput := i - lastUserInputIndex;
        var smoothingFactor := Min(distanceFromLastInput as real / 12.0, 1.0);
        var lastActualValue := if lastUserInputIndex >= 0 then result[lastUserInputIndex] else 0.0;
        actualValue := Some(Round(Blend(lastActualValue, projectedValue, smoothingFactor)) as real);
      }
      finalResult := finalResult + [ChartPoint(point.time, point.expected, actualValue, point.isPreMarket, point.isAfterMarket)];
      i := i + 1;
    }
    return finalResult;
  }

  // ========================================================= the pipeline

  /** The advanced branch of the hook's effect: build the records from the
      slots, project, smooth. */
  function AdvancedChart(slots: seq<TimeSlot>, avg: real, granular: map<string, string>, manualInput: string): (chart: seq<ChartPoint>)
    requires Labelled(slots)
    ensures |chart| == |slots|
  {
    var data := BuildData(slots, avg, granular);
    BuiltAverageDivides(slots, avg, granular);
    SmoothShape(data, ProjectionOf(data, avg, manualInput), avg);
    SmoothInterpolationOf(data, ProjectionOf(data, avg, manualInput), avg)
  }

  /** With a zero average every expected volume is 0, so no record's
      expected volume is truthy and nothing is divided by the average. */
  lemma BuiltAverageDivides(slots: seq<TimeSlot>, avg: real, granular: map<string, string>)
    requires Labelled(slots)
    ensures AverageDivides(BuildData(slots, avg, granular), avg)
  {
    if avg == 0.0 {
      var data := BuildData(slots, avg, granular);
      forall k | 0 <= k < |data|
        ensures !Truthy(data[k].expected)
      {
        var t := ClockMinutes(slots[k].time);
        var e := ExpectedVolumeAt(avg, t);
        assert e.Some? ==> e.value == 0.0;
      }
    }
  }

  // ================================================ lemmas: accumulators

  /** No session input among the first `n` records. */
  predicate BeforeFirstInput(data: seq<SlotData>, n: nat)
    requires n <= |data|
  {
    forall k :: 0 <= k < n ==> !IsSessionInput(data[k])
  }

  /** The expected per-slot volumes the first loop of `smoothInterpolation`
      adds in before the first input: those of the session slots without
      input that come before every session input. */
  function Filler(data: seq<SlotData>, n: nat): real
    requires n <= |data|
  {
    if n == 0 then 0.0
    else
      var p := data[n - 1];
      Filler(data, n - 1)
        + (if p.userInput.None? && InSession(p) && BeforeFirstInput(data, n - 1) then OrZero(p.expectedIndividual) else 0.0)
  }

  /** The filter is empty exactly when no session slot has an input: inputs
      in pre- and after-market slots are not counted. */
  lemma {:induction false} NoSessionInput(data: seq<SlotData>, n: nat)
    requires n <= |data|
    ensures |SessionInputValues(data, n)| == 0 <==> BeforeFirstInput(data, n)
  {
    if n > 0 {
      NoSessionInput(data, n - 1);
    }
  }

  lemma SumAppend(s: seq<real>, x: real)
    ensures Sum(s + [x]) == Sum(s) + x
  {
    assert (s + [x])[..|s|] == s;
  }

  /** The actual total of `calculateVolumeProjection` is the sum of the
      session inputs, and nothing else. */
  lemma {:induction false} TotalsActual(data: seq<SlotData>, n: nat)
    requires n <= |data|
    ensures TotalsAfter(data, n).actual == Sum(SessionInputValues(data, n))
  {
    if n > 0 {
      TotalsActual(data, n - 1);
      if IsSessionInput(data[n - 1]) {
        SumAppend(SessionInputValues(data, n - 1), data[n - 1].userInput.value);
      }
    }
  }

  /** The last input found by the first loop of `smoothInterpolation`: -1
      exactly when there is none, else a session input with none after it. */
  lemma {:induction false} RunningLast(data: seq<SlotData>, n: nat)
    requires n <= |data|
    ensures var l := RunningAfter(data, n).last;
      (l == -1 <==> BeforeFirstInput(data, n))
      && (l >= 0 ==> IsSessionInput(data[l]) && forall k :: l < k < n ==> !IsSessionInput(data[k]))
  {
    if n > 0 {
      RunningLast(data, n - 1);
    }
  }

  /** The running total of `smoothInterpolation` is the sum of the session
      inputs plus the filler before the first of them: the projection's
      actual total leaves the filler out. */
  lemma {:induction false} RunningActual(data: seq<SlotData>, n: nat)
    requires n <= |data|
    ensures RunningAfter(data, n).actual == Sum(SessionInputValues(data, n)) + Filler(data, n)
  {
    if n > 0 {
      RunningActual(data, n - 1);
      RunningLast(data, n - 1);
      if IsSessionInput(data[n - 1]) {
        SumAppend(SessionInputValues(data, n - 1), data[n - 1].userInput.value);
      }
    }
  }

  /** The two loops agree on the last input: `calculateVolumeProjection`
      records its time, and once that slot's expected cumulative volume is
      positive the expected total is that volume. */
  lemma {:induction false} TotalsAtLast(data: seq<SlotData>, n: nat)
    requires n <= |data|
    ensures var l := RunningAfter(data, n).last;
      (l == -1 ==> TotalsAfter(data, n).last == None)
      && (l >= 0 ==> TotalsAfter(data, n).last == Some(data[l].time))
      && (l >= 0 && OrZero(data[l].expected) > 0.0 ==> TotalsAfter(data, n).expected == OrZero(data[l].expected))
  {
    if n > 0 {
      TotalsAtLast(data, n - 1);
    }
  }

  // ================================================== lemmas: projection

  /** The projection is null exactly when no session slot has an input
      (inputs in pre- and after-market slots do not count) or when the
      expected total is not positive. */
  lemma ProjectionNull(data: seq<SlotData>, avg: real, manualInput: string)
    ensures ProjectionOf(data, avg, manualInput).None? <==>
      BeforeFirstInput(data, |data|) || TotalsAfter(data, |data|).expected <= 0.0
  {
    NoSessionInput(data, |data|);
  }

  /** A projection divides the sum of the session inputs by a positive
      expected total: the expected cumulative volume of the last input's
      slot whenever that is positive; it names that slot's time. */
  lemma ProjectionRatio(data: seq<SlotData>, avg: real, manualInput: string)
    ensures var r := ProjectionOf(data, avg, manualInput);
      var l := LastInputIndex(data);
      r.Some? ==>
        l >= 0
        && r.value.cumulativeActual == Sum(SessionInputValues(data, |data|))
        && r.value.cumulativeExpected > 0.0
        && r.value.volumeRatio == r.value.cumulativeActual / r.value.cumulativeExpected
        && r.value.lastInputTime == data[l].time
        && (OrZero(data[l].expected) > 0.0 ==> r.value.cumulativeExpected == OrZero(data[l].expected))
  {
    NoSessionInput(data, |data|);
    TotalsActual(data, |data|);
    RunningLast(data, |data|);
    TotalsAtLast(data, |data|);
  }

  /** The projected daily volume is the manual one exactly when it reads as
      a nonzero number, and the flag says so; otherwise it is the average
      scaled by the ratio. */
  lemma ManualOverride(data: seq<SlotData>, avg: real, manualInput: string)
    ensures var r := ProjectionOf(data, avg, manualInput);
      var manual := ManualVolume(manualInput);
      r.Some? ==>
        (r.value.manualDailyVolume <==> manualInput != [] && Truthy(manual))
        && (r.value.manualDailyVolume ==> r.value.projectedDailyVolume == manual.value && IsWhole(manual.value))
        && (!r.value.manualDailyVolume ==> r.value.projectedDailyVolume == Share(avg, r.value.volumeRatio))
  {
  }

  /** Two record arrays that differ at most in the inputs of pre- and
      after-market slots. */
  predicate SameInSession(d1: seq<SlotData>, d2: seq<SlotData>) {
    |d1| == |d2|
    && forall k :: 0 <= k < |d1| ==>
      d2[k] == d1[k].(userInput := d2[k].userInput)
      && (InSession(d1[k]) ==> d2[k].userInput == d1[k].userInput)
  }

  lemma {:induction false} SameAccumulators(d1: seq<SlotData>, d2: seq<SlotData>, n: nat)
    requires SameInSession(d1, d2) && n <= |d1|
    ensures TotalsAfter(d1, n) == TotalsAfter(d2, n)
    ensures RunningAfter(d1, n) == RunningAfter(d2, n)
    ensures SessionInputValues(d1, n) == SessionInputValues(d2, n)
  {
    if n > 0 {
      SameAccumulators(d1, d2, n - 1);
      assert IsSessionInput(d1[n - 1]) == IsSessionInput(d2[n - 1]);
    }
  }

  /** Chart point `i` does not depend on the inputs of pre- and
      after-market slots. */
  lemma SamePoint(d1: seq<SlotData>, d2: seq<SlotData>, p: Projection, avg: real, i: nat)
    requires SameInSession(d1, d2) && i < |d1| && AverageDivides(d1, avg) && AverageDivides(d2, avg)
    ensures SmoothedPoint(d1, Some(p), avg, i) == SmoothedPoint(d2, Some(p), avg, i)
  {
    SameAccumulators(d1, d2, |d1|);
    SameAccumulators(d1, d2, i + 1);
    var l := LastInputIndex(d1);
    if l >= 0 {
      SameAccumulators(d1, d2, l + 1);
    }
    assert d1[i].expected == d2[i].expected;
  }

  /** Inputs typed for pre- or after-market slots change neither the
      projection nor the chart. */
  lemma OffSessionInputsIgnored(d1: seq<SlotData>, d2: seq<SlotData>, avg: real, manualInput: string)
    requires SameInSession(d1, d2)
    ensures ProjectionOf(d1, avg, manualInput) == ProjectionOf(d2, avg, manualInput)
    ensures AverageDivides(d1, avg) <==> AverageDivides(d2, avg)
    ensures var p := ProjectionOf(d1, avg, manualInput);
      p.Some? && AverageDivides(d1, avg) ==>
        SmoothInterpolationOf(d1, p, avg) == SmoothInterpolationOf(d2, p, avg)
  {
    SameAccumulators(d1, d2, |d1|);
    assert forall k :: 0 <= k < |d1| ==> d1[k].expected == d2[k].expected;
    var p := ProjectionOf(d1, avg, manualInput);
    if p.Some? && AverageDivides(d1, avg) {
      forall i | 0 <= i < |d1|
        ensures SmoothedPoint(d1, p, avg, i) == SmoothedPoint(d2, p, avg, i)
      {
        SamePoint(d1, d2, p.value, avg, i);
      }
    }
  }

  // =================================================== lemmas: smoothing

  /** The chart has one point per record, in the same order, with the
      record's time, expected volume and flags. */
  lemma SmoothShape(data: seq<SlotData>, proj: Option<Projection>, avg: real)
    requires proj.Some? ==> AverageDivides(data, avg)
    ensures var out := SmoothInterpolationOf(data, proj, avg);
      |out| == |data|
      && forall i :: 0 <= i < |data| ==>
        out[i].time == data[i].time && out[i].expected == data[i].expected
        && out[i].isPreMarket == data[i].isPreMarket && out[i].isAfterMarket == data[i].isAfterMarket
  {
  }

  /** Without a projection every point shows its expected volume. */
  lemma NoProjectionFallback(data: seq<SlotData>, avg: real)
    ensures var out := SmoothInterpolationOf(data, None, avg);
      forall i :: 0 <= i < |data| ==> out[i].actual == data[i].expected
  {
  }

  /** With a projection, pre- and after-market points have no actual
      volume. */
  lemma OffSessionBlank(data: seq<SlotData>, proj: Projection, avg: real)
    requires AverageDivides(data, avg)
    ensures var out := SmoothInterpolationOf(data, Some(proj), avg);
      forall i :: 0 <= i < |data| && !InSession(data[i]) ==> out[i].actual.None?
  {
  }

  /** Up to the last input a session point shows the rounded sum of the
      session inputs so far plus the expected volumes filled in before the
      first input. */
  lemma ObservedPrefix(data: seq<SlotData>, proj: Projection, avg: real, i: nat)
    requires AverageDivides(data, avg)
    requires i < |data| && InSession(data[i]) && i <= LastInputIndex(data)
    ensures SmoothInterpolationOf(data, Some(proj), avg)[i].actual
      == Some(Round(Sum(SessionInputValues(data, i + 1)) + Filler(data, i + 1)) as real)
  {
    RunningActual(data, i + 1);
  }

  /** The weight of the projected curve grows by a twelfth per slot after
      the last input, from above 0 to exactly 1 from the twelfth slot on. */
  lemma FactorBounds(distance: int)
    requires distance >= 1
    ensures 0.0 < SmoothingFactor(distance) <= 1.0
    ensures distance < 12 ==> SmoothingFactor(distance) == distance as real / 12.0
    ensures distance >= 12 ==> SmoothingFactor(distance) == 1.0
  {
  }

  /** A blend with a weight between 0 and 1 lies between its two ends. */
  lemma BlendBetween(from: real, to: real, f: real)
    requires 0.0 <= f <= 1.0
    ensures Min(from, to) <= Blend(from, to, f) <= from + to - Min(from, to)
    ensures f == 0.0 ==> Blend(from, to, f) == from
    ensures f == 1.0 ==> Blend(from, to, f) == to
  {
    if from <= to {
      ScaleMonotone(to - from, f, 1.0);
    } else {
      ScaleMonotone(from - to, f, 1.0);
      assert (to - from) * f == -((from - to) * f);
    }
  }

  /** After the last input a session point shows, rounded, a value between
      the running total at the last input (0 without one) and the projected
      daily volume's share of the point. */
  lemma SmoothedBetween(data: seq<SlotData>, proj: Projection, avg: real, i: nat)
    requires AverageDivides(data, avg)
    requires i < |data| && InSession(data[i]) && i > LastInputIndex(data)
    ensures var l := LastInputIndex(data);
      var from := if l >= 0 then Plotted(data, l) else 0.0;
      var to := Share(proj.projectedDailyVolume, ExpectedPct(data[i], avg));
      var a := SmoothInterpolationOf(data, Some(proj), avg)[i].actual;
      a.Some? && Min(from, to) - 0.5 < a.value <= from + to - Min(from, to) + 0.5
  {
    var l := LastInputIndex(data);
    FactorBounds(i - l);
    var from := if l >= 0 then Plotted(data, l) else 0.0;
    var to := Share(proj.projectedDailyVolume, ExpectedPct(data[i], avg));
    BlendBetween(from, to, SmoothingFactor(i - l));
  }

  /** Twelve slots or more after the last input a session point is exactly
      on the projected curve: the projected daily volume times the point's
      expected fraction of the day, rounded. */
  lemma ProjectedAfterAnHour(data: seq<SlotData>, proj: Projection, avg: real, i: nat)
    requires AverageDivides(data, avg)
    requires i < |data| && InSession(data[i]) && i >= LastInputIndex(data) + 12
    ensures SmoothInterpolationOf(data, Some(proj), avg)[i].actual
      == Some(Round(Share(proj.projectedDailyVolume, ExpectedPct(data[i], avg))) as real)
  {
    var l := LastInputIndex(data);
    FactorBounds(i - l);
    var from := if l >= 0 then Plotted(data, l) else 0.0;
    BlendBetween(from, Share(proj.projectedDailyVolume, ExpectedPct(data[i], avg)), 1.0);
  }

  // ============================================ lemmas: a single input

  /** Record `j` holds the only input in the session. */
  predicate OnlyInputAt(data: seq<SlotData>, j: nat) {
    j < |data| && IsSessionInput(data[j])
    && forall k :: 0 <= k < |data| && k != j ==> !IsSessionInput(data[k])
  }

  /** With a single input in the session, the filter keeps just its value
      once past it. */
  lemma {:induction false} OnlyInputValues(data: seq<SlotData>, j: nat, n: nat)
    requires OnlyInputAt(data, j) && n <= |data|
    ensures SessionInputValues(data, n) == if n > j then [data[j].userInput.value] else []
  {
    if n > 0 {
      OnlyInputValues(data, j, n - 1);
    }
  }

  /** With a single input in the session, that input is the last one. */
  lemma OnlyInputLast(data: seq<SlotData>, j: nat)
    requires OnlyInputAt(data, j)
    ensures LastInputIndex(data) == j
  {
    RunningLast(data, |data|);
    assert !BeforeFirstInput(data, |data|) by {
      assert IsSessionInput(data[j]);
    }
  }

  /** A single input `v` in the session, at a slot whose expected
      cumulative volume `e` is positive, with no manual daily volume: the
      ratio is v / e and the day is projected at the average times it; yet
      the chart plots, at that slot, v plus the expected volumes filled in
      before it, and the next session slot moves a twelfth of the way from
      that value toward the projected curve. */
  lemma SingleInput(data: seq<SlotData>, avg: real, manualInput: string, j: nat)
    requires AverageDivides(data, avg) && OnlyInputAt(data, j)
    requires OrZero(data[j].expected) > 0.0 && !Truthy(ManualVolume(manualInput))
    ensures var r := ProjectionOf(data, avg, manualInput);
      var v := data[j].userInput.value;
      var e := OrZero(data[j].expected);
      var shown := v + Filler(data, j);
      var out := SmoothInterpolationOf(data, r, avg);
      r.Some? && r.value.volumeRatio == v / e && r.value.projectedDailyVolume == Share(avg, v / e)
      && out[j].actual == Some(Round(shown) as real)
      && (j + 1 < |data| && InSession(data[j + 1]) ==>
        out[j + 1].actual
          == Some(Round(Blend(shown, Share(r.value.projectedDailyVolume, ExpectedPct(data[j + 1], avg)), 1.0 / 12.0)) as real))
  {
    SingleProjection(data, avg, manualInput, j);
    var r := ProjectionOf(data, avg, manualInput);
    SinglePlotted(data, r.value, avg, j);
    if j + 1 < |data| && InSession(data[j + 1]) {
      SingleNext(data, r.value, avg, j);
    }
  }

  /** The projection of a single input `v` at a slot expecting `e > 0`:
      the ratio v / e, and without a manual volume the average times it. */
  lemma SingleProjection(data: seq<SlotData>, avg: real, manualInput: string, j: nat)
    requires OnlyInputAt(data, j)
    requires OrZero(data[j].expected) > 0.0 && !Truthy(ManualVolume(manualInput))
    ensures var r := ProjectionOf(data, avg, manualInput);
      var v := data[j].userInput.value;
      var e := OrZero(data[j].expected);
      r.Some? && r.value.volumeRatio == v / e && r.value.projectedDailyVolume == Share(avg, v / e)
  {
    var v := data[j].userInput.value;
    OnlyInputValues(data, j, |data|);
    OnlyInputLast(data, j);
    NoSessionInput(data, |data|);
    TotalsActual(data, |data|);
    TotalsAtLast(data, |data|);
    ProjectionNull(data, avg, manualInput);
    ProjectionRatio(data, avg, manualInput);
    ManualOverride(data, avg, manualInput);
    assert Sum([v]) == v by {
      assert [v][..0] == [];
    }
  }

  /** The running total at a single input: the input plus the filler
      before it. */
  lemma SingleRunning(data: seq<SlotData>, j: nat)
    requires OnlyInputAt(data, j)
    ensures Plotted(data, j) == data[j].userInput.value + Filler(data, j)
  {
    var v := data[j].userInput.value;
    OnlyInputValues(data, j, j + 1);
    assert Sum([v]) == v by {
      assert [v][..0] == [];
    }
    assert Filler(data, j + 1) == Filler(data, j);
    RunningActual(data, j + 1);
  }

  /** The point plotted at a single input shows that running total,
      rounded. */
  lemma SinglePlotted(data: seq<SlotData>, proj: Projection, avg: real, j: nat)
    requires AverageDivides(data, avg) && OnlyInputAt(data, j)
    ensures Plotted(data, j) == data[j].userInput.value + Filler(data, j)
    ensures SmoothInterpolationOf(data, Some(proj), avg)[j].actual
      == Some(Round(data[j].userInput.value + Filler(data, j)) as real)
  {
    SingleRunning(data, j);
    OnlyInputLast(data, j);
  }

  /** The session slot after a single input blends a twelfth of the way
      from the plotted input toward the projected curve. */
  lemma SingleNext(data: seq<SlotData>, proj: Projection, avg: real, j: nat)
    requires AverageDivides(data, avg) && OnlyInputAt(data, j)
    requires j + 1 < |data| && InSession(data[j + 1])
    ensures SmoothInterpolationOf(data, Some(proj), avg)[j + 1].actual
      == Some(Round(Blend(data[j].userInput.value + Filler(data, j),
           Share(proj.projectedDailyVolume, ExpectedPct(data[j + 1], avg)), 1.0 / 12.0)) as real)
  {
    SinglePlotted(data, proj, avg, j);
    OnlyInputLast(data, j);
    FactorBounds(1);
  }

  /** The 10:00 scenario: 3,000,000 shares typed at a slot expecting
      10,000,000 with a 50,000,000 average and no manual volume give a
      ratio of 0.3 and a projected day of 15,000,000, while the point
      plotted there is 3,000,000 plus the filler before it. */
  lemma SingleInputExample(data: seq<SlotData>, j: nat)
    requires AverageDivides(data, 50000000.0) && OnlyInputAt(data, j)
    requires data[j].userInput == Some(3000000.0) && data[j].expected == Some(10000000.0)
    ensures var r := ProjectionOf(data, 50000000.0, "");
      r.Some? && r.value.volumeRatio == 0.3 && r.value.projectedDailyVolume == 15000000.0
      && SmoothInterpolationOf(data, r, 50000000.0)[j].actual == Some(Round(3000000.0 + Filler(data, j)) as real)
  {
    SingleInput(data, 50000000.0, "", j);
  }

  /** With a 50,000,000 average a 10:00 slot expects 10,000,000 shares by
      then. */
  lemma TenOClockExpected(slots: seq<TimeSlot>, granular: map<string, string>, k: nat)
    requires Labelled(slots) && k < |slots| && ClockMinutes(slots[k].time) == 10 * 60
    ensures BuildData(slots, 50000000.0, granular)[k].expected == Some(10000000.0)
  {
    ExpectedAtAnchor(50000000.0, 1);
    BuiltExpected(slots, 50000000.0, granular, k);
  }

  // ===================================================== lemmas: builder

  /** One record per slot, in order, with the slot's time and flags. */
  lemma BuildShape(slots: seq<TimeSlot>, avg: real, granular: map<string, string>)
    requires Labelled(slots)
    ensures var data := BuildData(slots, avg, granular);
      |data| == |slots|
      && forall k :: 0 <= k < |slots| ==>
        data[k].time == slots[k].time
        && data[k].isPreMarket == slots[k].isPreMarket && data[k].isAfterMarket == slots[k].isAfterMarket
  {
  }

  /** A record's expected volumes are null outside 09:30-16:00 and
      wherever the unrounded value is 0, and otherwise the rounded values of
      the expected curve at the slot's minute. */
  lemma BuiltExpected(slots: seq<TimeSlot>, avg: real, granular: map<string, string>, k: nat)
    requires Labelled(slots) && k < |slots|
    ensures var t := ClockMinutes(slots[k].time);
      var d := BuildData(slots, avg, granular)[k];
      var outside := t < MarketOpenMinutes || t > MarketCloseMinutes;
      (d.expected.None? <==> outside || ExpectedVolumeAt(avg, t).value == 0.0)
      && (d.expected.Some? ==> d.expected.value == Round(ExpectedVolumeAt(avg, t).value) as real)
      && (d.expectedIndividual.None? <==> outside || IndividualVolumeAt(avg, t).value == 0.0)
      && (d.expectedIndividual.Some? ==> d.expectedIndividual.value == Round(IndividualVolumeAt(avg, t).value) as real)
  {
  }

  /** With a positive average the expected cumulative volume is present
      exactly from 09:30 to 16:00, both included. */
  lemma BuiltExpectedPositive(slots: seq<TimeSlot>, avg: real, granular: map<string, string>, k: nat)
    requires Labelled(slots) && k < |slots| && avg > 0.0
    ensures var t := ClockMinutes(slots[k].time);
      BuildData(slots, avg, granular)[k].expected.Some? <==> MarketOpenMinutes <= t <= MarketCloseMinutes
  {
    var t := ClockMinutes(slots[k].time);
    if MarketOpenMinutes <= t <= MarketCloseMinutes {
      ExpectedBounds(avg, t);
    }
  }

  /** A record has an input exactly when its slot has a non-empty entry
      that reads as a number; that number is whole. */
  lemma BuiltInput(slots: seq<TimeSlot>, avg: real, granular: map<string, string>, k: nat)
    requires Labelled(slots) && k < |slots|
    ensures var time := slots[k].time;
      var u := BuildData(slots, avg, granular)[k].userInput;
      (u.Some? <==> time in granular && granular[time] != [] && ParseVolumeInput(Text(granular[time])).Some?)
      && (u.Some? ==> IsWhole(u.value))
  {
  }

  // ==================================================== lemmas: pipeline

  /** The advanced chart has one point per slot, with the slot's time and
      flags and the record's expected volume. */
  lemma AdvancedShape(slots: seq<TimeSlot>, avg: real, granular: map<string, string>, manualInput: string)
    requires Labelled(slots)
    ensures var chart := AdvancedChart(slots, avg, granular, manualInput);
      var data := BuildData(slots, avg, granular);
      |chart| == |slots|
      && forall k :: 0 <= k < |slots| ==>
        chart[k].time == slots[k].time && chart[k].expected == data[k].expected
        && chart[k].isPreMarket == slots[k].isPreMarket && chart[k].isAfterMarket == slots[k].isAfterMarket
  {
  }

  /** With no entry for any session slot, the chart shows the expected
      volume everywhere, whatever is typed for pre- and after-market
      slots. */
  lemma AdvancedNoInputs(slots: seq<TimeSlot>, avg: real, granular: map<string, string>, manualInput: string)
    requires Labelled(slots)
    requires forall k :: 0 <= k < |slots| && !slots[k].isPreMarket && !slots[k].isAfterMarket ==>
      ParsedInput(granular, slots[k].time).None?
    ensures var chart := AdvancedChart(slots, avg, granular, manualInput);
      forall k :: 0 <= k < |chart| ==> chart[k].actual == chart[k].expected
  {
    var data := BuildData(slots, avg, granular);
    assert BeforeFirstInput(data, |data|);
    ProjectionNull(data, avg, manualInput);
  }

  /** The grid's slots all carry labels. */
  lemma GridLabelled()
    ensures Labelled(TimeGrid()) && |TimeGrid()| == 108
  {
    TimeGridShape();
  }

  /** A slot at 16:00 expects the whole average (rounded) when the
      average is nonzero; flagged after-market, its point has no actual
      volume once there is a projection. */
  lemma CloseRecord(slots: seq<TimeSlot>, avg: real, granular: map<string, string>, manualInput: string, k: nat)
    requires Labelled(slots) && k < |slots| && avg != 0.0
    requires ClockMinutes(slots[k].time) == MarketCloseMinutes
    ensures var data := BuildData(slots, avg, granular);
      var chart := AdvancedChart(slots, avg, granular, manualInput);
      data[k].expected == Some(Round(avg) as real)
      && chart[k].expected == data[k].expected
      && (slots[k].isAfterMarket && ProjectionOf(data, avg, manualInput).Some? ==> chart[k].actual.None?)
  {
    ExpectedAtClose(avg);
    BuiltExpected(slots, avg, granular, k);
    AdvancedShape(slots, avg, granular, manualInput);
    var data := BuildData(slots, avg, granular);
    var proj := ProjectionOf(data, avg, manualInput);
    if slots[k].isAfterMarket && proj.Some? {
      BuiltAverageDivides(slots, avg, granular);
      OffSessionBlank(data, proj.value, avg);
    }
  }

  /** The grid's 16:00 slot is the 97th; it is flagged after-market. */
  lemma GridCloseSlot()
    ensures |TimeGrid()| == 108
    ensures ClockMinutes(TimeGrid()[96].time) == MarketCloseMinutes
    ensures TimeGrid()[96].isAfterMarket && !TimeGrid()[96].isPreMarket
  {
    GridSlotFacts(96);
  }
}
