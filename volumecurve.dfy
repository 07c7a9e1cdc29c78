/** The expected-volume lookups of the volume hook, taken out of it as
    functions of the 50-day average volume and a minute of the day:
    the expected cumulative volume by linear interpolation between the
    anchors of the regular-session table, the expected volume of one
    five-minute slot by differencing, and the step lookup of the expected
    volume "now". */
module VolumeCurve {
  import opened Wrappers
  import opened Constants

  // ------------------------------------------------------------ the search

  /** The first anchor at or after minute `t`, searching from index `from`;
      `|tbl|` when every anchor from there on is earlier. */
  function FirstAtOrAfter(tbl: seq<Anchor>, t: int, from: nat): (j: nat)
    requires from <= |tbl|
    ensures from <= j <= |tbl|
    ensures forall k :: from <= k < j ==> tbl[k].minute < t
    ensures j < |tbl| ==> tbl[j].minute >= t
    decreases |tbl| - from
  {
    if from == |tbl| then from
    else if tbl[from].minute >= t then from
    else FirstAtOrAfter(tbl, t, from + 1)
  }

  /** The fraction on the straight line between two anchors at minute `t`. */
  function Interpolate(prev: Anchor, next: Anchor, t: int): real
    requires prev.minute < next.minute
  {
    prev.pct + (next.pct - prev.pct) * ((t - prev.minute) as real / (next.minute - prev.minute) as real)
  }

  /** The loop of `getExpectedVolumeAtTime` over an anchor table, from
      index `i` on: at the first anchor at or after `t`, that anchor's
      fraction if it is the first of the table, else the straight line from
      the anchor before it; 1.0 when every anchor is earlier than `t`. */
  function LookupFrom(tbl: seq<Anchor>, t: int, i: nat): real
    requires i <= |tbl|
    requires i == 0 || tbl[i - 1].minute < t
    decreases |tbl| - i
  {
    if i == |tbl| then 1.0
    else if tbl[i].minute >= t then
      if i == 0 then tbl[i].pct else Interpolate(tbl[i - 1], tbl[i], t)
    else LookupFrom(tbl, t, i + 1)
  }

  /** The fraction of the loop of `getExpectedVolumeAtTime` at minute `t`. */
  function Lookup(tbl: seq<Anchor>, t: int): real {
    LookupFrom(tbl, t, 0)
  }

  /** The part `fraction` of a volume. */
  function Share(volume: real, fraction: real): real {
    volume * fraction
  }

  // ------------------------------------------------- cumulative expectation

  /** The hook's `getExpectedVolumeAtTime`: the expected cumulative volume
      at minute `t`, the average volume times the session table's lookup;
      None before 09:30 and after 16:00. */
  function ExpectedVolumeAt(avg: real, t: int): (r: Option<real>)
    ensures r.None? <==> t < MarketOpenMinutes || t > MarketCloseMinutes
  {
    if t < MarketOpenMinutes || t > MarketCloseMinutes then None
    else Some(Share(avg, Lookup(VolumeDistribution, t)))
  }

  /** `getExpectedVolumeAtTime`: None outside the session, else the walk
      over the session table. */
  method GetExpectedVolumeAtTime(avg: real, t: int) returns (r: Option<real>)
    ensures r == ExpectedVolumeAt(avg, t)
  {
    if t < MarketOpenMinutes || t > MarketCloseMinutes {
      return None;
    }
    var v := WalkTable(VolumeDistribution, avg, t);
    return Some(v);
  }

  /** The loop of `getExpectedVolumeAtTime` over an anchor table, returning
      as soon as it meets the first anchor at or after `t`: the average
      times that anchor's fraction when it is the first anchor, times the
      interpolated fraction otherwise, and the whole average when every
      anchor is earlier. */
  method WalkTable(tbl: seq<Anchor>, avg: real, t: int) returns (v: real)
    ensures v == Share(avg, Lookup(tbl, t))
  {
    var i := 0;
    while i < |tbl|
      invariant 0 <= i <= |tbl|
      invariant i == 0 || tbl[i - 1].minute < t
      invariant LookupFrom(tbl, t, i) == Lookup(tbl, t)
    {
      var distMinutes := tbl[i].minute;
      if distMinutes >= t {
        if i == 0 {
          return avg * tbl[i].pct;
        }
        var prevMinutes := tbl[i - 1].minute;
        var ratio := (t - prevMinutes) as real / (distMinutes - prevMinutes) as real;
        var prevPct := tbl[i - 1].pct;
        var currPct := tbl[i].pct;
        var interpolatedPct := prevPct + (currPct - prevPct) * ratio;
        return avg * interpolatedPct;
      }
      i := i + 1;
    }
    return avg;
  }

  // ------------------------------------------------------ per-slot volume

  /** The hook's `getIndividualVolumeAtTime`: the expected volume of the
      five minutes ending at `t`, the difference of two cumulative values,
      or the whole cumulative value when `t - 5` is before the open. */
  function IndividualVolumeAt(avg: real, t: int): (r: Option<real>)
    ensures r.None? <==> t < MarketOpenMinutes || t > MarketCloseMinutes
  {
    if t < MarketOpenMinutes || t > MarketCloseMinutes then None
    else
      match ExpectedVolumeAt(avg, t)
      case None => None
      case Some(cumulativeAtTime) =>
        var prevMinutes := t - 5;
        if prevMinutes < MarketOpenMinutes then Some(cumulativeAtTime)
        else
          match ExpectedVolumeAt(avg, prevMinutes)
          case None => Some(cumulativeAtTime)
          case Some(cumulativePrev) => Some(cumulativeAtTime - cumulativePrev)
  }

  /** The slot volumes from 09:30 through `Open + 5 * k`, added up. */
  function SessionVolume(avg: real, k: nat): real
    requires MarketOpenMinutes + 5 * k <= MarketCloseMinutes
  {
    var v := IndividualVolumeAt(avg, MarketOpenMinutes + 5 * k).value;
    if k == 0 then v else SessionVolume(avg, k - 1) + v
  }

  // ---------------------------------------------------- expected volume now

  /** The loop of `getCurrentExpected` over an anchor table, from index `i`
      on: the average times the fraction of the first anchor at or after
      `now`, with no interpolation; the whole average when every anchor is
      earlier. */
  function StepFrom(tbl: seq<Anchor>, avg: real, now: int, i: nat): real
    requires i <= |tbl|
    decreases |tbl| - i
  {
    if i == |tbl| then avg
    else if tbl[i].minute >= now then Share(avg, tbl[i].pct)
    else StepFrom(tbl, avg, now, i + 1)
  }

  /** The hook's `getCurrentExpected` on the session table. */
  function CurrentExpected(avg: real, now: int): real {
    StepFrom(VolumeDistribution, avg, now, 0)
  }

  /** The linear search of `getCurrentExpected`. */
  method GetCurrentExpected(avg: real, now: int) returns (r: real)
    ensures r == CurrentExpected(avg, now)
  {
    var i := 0;
    while i < |VolumeDistribution|
      invariant 0 <= i <= |VolumeDistribution|
      invariant StepFrom(VolumeDistribution, avg, now, i) == CurrentExpected(avg, now)
    {
      var pointMinutes := VolumeDistribution[i].minute;
      if pointMinutes >= now {
        return avg * VolumeDistribution[i].pct;
      }
      i := i + 1;
    }
    return avg;
  }

  // ======================================== lemmas about any rising table

  /** The loop's value is the value at the anchor the search finds. */
  lemma {:induction false} LookupFromFound(tbl: seq<Anchor>, t: int, i: nat)
    requires i <= |tbl|
    requires i == 0 || tbl[i - 1].minute < t
    ensures var j := FirstAtOrAfter(tbl, t, i);
      LookupFrom(tbl, t, i)
      == if j == |tbl| then 1.0 else if j == 0 then tbl[0].pct else Interpolate(tbl[j - 1], tbl[j], t)
    decreases |tbl| - i
  {
    if i < |tbl| && tbl[i].minute < t {
      LookupFromFound(tbl, t, i + 1);
    }
  }

  /** The step loop's value is the share of the anchor the search finds. */
  lemma {:induction false} StepFromFound(tbl: seq<Anchor>, avg: real, now: int, i: nat)
    requires i <= |tbl|
    ensures var j := FirstAtOrAfter(tbl, now, i);
      StepFrom(tbl, avg, now, i) == if j == |tbl| then avg else Share(avg, tbl[j].pct)
    decreases |tbl| - i
  {
    if i < |tbl| && tbl[i].minute < now {
      StepFromFound(tbl, avg, now, i + 1);
    }
  }

  /** In a table rising in time the search stops at the first anchor
      reached from `t`'s side. */
  lemma SearchStopsAt(tbl: seq<Anchor>, t: int, k: nat)
    requires StrictlyIncreasing(tbl) && k < |tbl|
    requires k == 0 || tbl[k - 1].minute < t
    requires t <= tbl[k].minute
    ensures FirstAtOrAfter(tbl, t, 0) == k
  {
  }

  lemma InterpolateAtEnd(prev: Anchor, next: Anchor)
    requires prev.minute < next.minute
    ensures Interpolate(prev, next, next.minute) == next.pct
  {
    var d := (next.minute - prev.minute) as real;
    assert d / d == 1.0;
  }

  lemma ScaleMonotone(delta: real, r1: real, r2: real)
    requires delta >= 0.0 && 0.0 <= r1 <= r2 <= 1.0
    ensures 0.0 <= delta * r1 <= delta * r2 <= delta
    ensures 0.0 <= Share(delta, r1) <= Share(delta, r2) <= delta
  {}

  lemma RatioMonotone(a: real, b: real, d: real)
    requires 0.0 <= a <= b <= d && d > 0.0
    ensures 0.0 <= a / d <= b / d <= 1.0
  {
    var x, y := a / d, b / d;
    assert x * d == a && y * d == b;
    assert (y - x) * d == b - a;
    assert (1.0 - y) * d == d - b;
  }

  /** On a rising segment the straight line rises from one end's fraction
      to the other's. */
  lemma InterpolateWithin(prev: Anchor, next: Anchor, t1: int, t2: int)
    requires prev.minute <= t1 <= t2 <= next.minute && prev.minute < next.minute
    requires prev.pct <= next.pct
    ensures prev.pct <= Interpolate(prev, next, t1) <= Interpolate(prev, next, t2) <= next.pct
  {
    var d := (next.minute - prev.minute) as real;
    var r1 := (t1 - prev.minute) as real / d;
    var r2 := (t2 - prev.minute) as real / d;
    RatioMonotone((t1 - prev.minute) as real, (t2 - prev.minute) as real, d);
    ScaleMonotone(next.pct - prev.pct, r1, r2);
  }

  /** At an anchor's own minute the lookup gives that anchor's fraction. */
  lemma LookupAtAnchor(tbl: seq<Anchor>, k: nat)
    requires StrictlyIncreasing(tbl) && k < |tbl|
    ensures Lookup(tbl, tbl[k].minute) == tbl[k].pct
  {
    LookupFromFound(tbl, tbl[k].minute, 0);
    SearchStopsAt(tbl, tbl[k].minute, k);
    if k > 0 {
      InterpolateAtEnd(tbl[k - 1], tbl[k]);
    }
  }

  /** Between two neighbouring anchors the lookup is the straight line
      joining them. */
  lemma LookupBetween(tbl: seq<Anchor>, k: nat, t: int)
    requires StrictlyIncreasing(tbl) && 1 <= k < |tbl|
    requires tbl[k - 1].minute < t <= tbl[k].minute
    ensures Lookup(tbl, t) == Interpolate(tbl[k - 1], tbl[k], t)
  {
    LookupFromFound(tbl, t, 0);
    SearchStopsAt(tbl, t, k);
  }

  /** Up to the last anchor the lookup lies between the fractions of the
      anchors on either side of `t`. */
  lemma LookupInSegment(tbl: seq<Anchor>, t: int)
    requires StrictlyIncreasing(tbl) && |tbl| > 0 && t <= tbl[|tbl| - 1].minute
    ensures var j := FirstAtOrAfter(tbl, t, 0);
      j < |tbl| && Lookup(tbl, t) <= tbl[j].pct && (j == 0 || tbl[j - 1].pct <= Lookup(tbl, t))
  {
    LookupFromFound(tbl, t, 0);
    var j := FirstAtOrAfter(tbl, t, 0);
    if j > 0 {
      InterpolateWithin(tbl[j - 1], tbl[j], t, t);
    }
  }

  /** Up to the last anchor the lookup stays between the first and the last
      fraction. */
  lemma LookupBounds(tbl: seq<Anchor>, t: int)
    requires StrictlyIncreasing(tbl) && |tbl| > 0 && t <= tbl[|tbl| - 1].minute
    ensures tbl[0].pct <= Lookup(tbl, t) <= tbl[|tbl| - 1].pct
  {
    LookupInSegment(tbl, t);
    var j := FirstAtOrAfter(tbl, t, 0);
    assert tbl[j].pct <= tbl[|tbl| - 1].pct;
    if j > 0 {
      assert tbl[0].pct <= tbl[j - 1].pct;
    }
  }

  /** Up to the last anchor the lookup never decreases. */
  lemma LookupMonotone(tbl: seq<Anchor>, t1: int, t2: int)
    requires StrictlyIncreasing(tbl) && |tbl| > 0 && t1 <= t2 <= tbl[|tbl| - 1].minute
    ensures Lookup(tbl, t1) <= Lookup(tbl, t2)
  {
    var j1 := FirstAtOrAfter(tbl, t1, 0);
    var j2 := FirstAtOrAfter(tbl, t2, 0);
    LookupInSegment(tbl, t1);
    LookupInSegment(tbl, t2);
    if j1 == j2 {
      if j1 > 0 {
        LookupFromFound(tbl, t1, 0);
        LookupFromFound(tbl, t2, 0);
        InterpolateWithin(tbl[j1 - 1], tbl[j1], t1, t2);
      }
    } else if j1 < j2 {
      assert tbl[j1].pct <= tbl[j2 - 1].pct;
    }
  }

  /** A non-negative volume's share of the lookup never decreases. */
  lemma ShareMonotone(tbl: seq<Anchor>, avg: real, t1: int, t2: int)
    requires StrictlyIncreasing(tbl) && |tbl| > 0 && t1 <= t2 <= tbl[|tbl| - 1].minute
    requires 0.0 <= tbl[0].pct && tbl[|tbl| - 1].pct <= 1.0 && avg >= 0.0
    ensures Share(avg, Lookup(tbl, t1)) <= Share(avg, Lookup(tbl, t2))
  {
    LookupMonotone(tbl, t1, t2);
    LookupBounds(tbl, t1);
    LookupBounds(tbl, t2);
    ScaleMonotone(avg, Lookup(tbl, t1), Lookup(tbl, t2));
  }

  /** A non-negative volume's share of the lookup lies between its shares
      of the first and the last fraction. */
  lemma ShareBounds(tbl: seq<Anchor>, avg: real, t: int)
    requires StrictlyIncreasing(tbl) && |tbl| > 0 && t <= tbl[|tbl| - 1].minute
    requires 0.0 <= tbl[0].pct && tbl[|tbl| - 1].pct <= 1.0 && avg >= 0.0
    ensures Share(avg, tbl[0].pct) <= Share(avg, Lookup(tbl, t)) <= Share(avg, tbl[|tbl| - 1].pct)
  {
    var f := Lookup(tbl, t);
    LookupBounds(tbl, t);
    ScaleMonotone(avg, tbl[0].pct, f);
    ScaleMonotone(avg, f, tbl[|tbl| - 1].pct);
  }

  /** A non-negative volume's share of the lookup is at most its share of
      the anchor the step search finds. */
  lemma ShareBelowStep(tbl: seq<Anchor>, avg: real, t: int)
    requires StrictlyIncreasing(tbl) && |tbl| > 0 && t <= tbl[|tbl| - 1].minute
    requires 0.0 <= tbl[0].pct && tbl[|tbl| - 1].pct <= 1.0 && avg >= 0.0
    ensures Share(avg, Lookup(tbl, t)) <= StepFrom(tbl, avg, t, 0)
  {
    LookupInSegment(tbl, t);
    LookupBounds(tbl, t);
    StepFromFound(tbl, avg, t, 0);
    var j := FirstAtOrAfter(tbl, t, 0);
    assert tbl[j].pct <= tbl[|tbl| - 1].pct;
    ScaleMonotone(avg, Lookup(tbl, t), tbl[j].pct);
  }

  /** Once every anchor of a rising table is past, the step loop gives the
      whole volume. */
  lemma StepPastLast(tbl: seq<Anchor>, avg: real, now: int)
    requires StrictlyIncreasing(tbl) && |tbl| > 0 && now > tbl[|tbl| - 1].minute
    ensures StepFrom(tbl, avg, now, 0) == avg
  {
    StepFromFound(tbl, avg, now, 0);
  }

  // ============================================ lemmas about the session

  /** Inside the session some anchor is at or after `t`: the search never
      falls through to its final `return avgVolume50Day`. */
  lemma FallThroughUnreachable(t: int)
    requires MarketOpenMinutes <= t <= MarketCloseMinutes
    ensures FirstAtOrAfter(VolumeDistribution, t, 0) < |VolumeDistribution|
  {
    VolumeDistributionShape();
  }

  /** At an anchor's own minute the curve takes that anchor's fraction. */
  lemma FractionAtAnchor(k: nat)
    requires k < |VolumeDistribution|
    ensures Lookup(VolumeDistribution, VolumeDistribution[k].minute) == VolumeDistribution[k].pct
  {
    VolumeDistributionShape();
    LookupAtAnchor(VolumeDistribution, k);
  }

  /** Between two neighbouring anchors the curve is the straight line
      joining them. */
  lemma FractionBetweenAnchors(k: nat, t: int)
    requires 1 <= k < |VolumeDistribution|
    requires VolumeDistribution[k - 1].minute < t <= VolumeDistribution[k].minute
    ensures Lookup(VolumeDistribution, t) == Interpolate(VolumeDistribution[k - 1], VolumeDistribution[k], t)
  {
    VolumeDistributionShape();
    LookupBetween(VolumeDistribution, k, t);
  }

  /** Inside the session the fraction is between the first anchor's 0.12
      and the last anchor's 1.0. */
  lemma FractionBounds(t: int)
    requires MarketOpenMinutes <= t <= MarketCloseMinutes
    ensures 0.12 <= Lookup(VolumeDistribution, t) <= 1.0
  {
    VolumeDistributionShape();
    LookupBounds(VolumeDistribution, t);
  }

  /** The fraction never decreases during the session. */
  lemma FractionMonotone(t1: int, t2: int)
    requires MarketOpenMinutes <= t1 <= t2 <= MarketCloseMinutes
    ensures Lookup(VolumeDistribution, t1) <= Lookup(VolumeDistribution, t2)
  {
    VolumeDistributionShape();
    LookupMonotone(VolumeDistribution, t1, t2);
  }

  /** At each anchor the expected volume is the average times its fraction. */
  lemma ExpectedAtAnchor(avg: real, k: nat)
    requires k < |VolumeDistribution|
    ensures ExpectedVolumeAt(avg, VolumeDistribution[k].minute).value == avg * VolumeDistribution[k].pct
  {
    VolumeDistributionShape();
    FractionAtAnchor(k);
  }

  /** For a non-negative average the expected volume never decreases during
      the session. */
  lemma ExpectedMonotone(avg: real, t1: int, t2: int)
    requires avg >= 0.0
    requires MarketOpenMinutes <= t1 <= t2 <= MarketCloseMinutes
    ensures ExpectedVolumeAt(avg, t1).value <= ExpectedVolumeAt(avg, t2).value
  {
    VolumeDistributionShape();
    ShareMonotone(VolumeDistribution, avg, t1, t2);
  }

  /** For a non-negative average the expected volume during the session is
      between 12% of the average and the average. */
  lemma ExpectedBounds(avg: real, t: int)
    requires avg >= 0.0
    requires MarketOpenMinutes <= t <= MarketCloseMinutes
    ensures avg * 0.12 <= ExpectedVolumeAt(avg, t).value <= avg
  {
    VolumeDistributionShape();
    ShareBounds(VolumeDistribution, avg, t);
  }

  /** A slot's volume is the whole cumulative value at 09:30 and the
      difference of the cumulative values five minutes apart after it. */
  lemma IndividualIsDifference(avg: real, t: int)
    requires MarketOpenMinutes <= t <= MarketCloseMinutes
    ensures t < MarketOpenMinutes + 5 ==> IndividualVolumeAt(avg, t) == ExpectedVolumeAt(avg, t)
    ensures t >= MarketOpenMinutes + 5 ==>
      IndividualVolumeAt(avg, t) == Some(ExpectedVolumeAt(avg, t).value - ExpectedVolumeAt(avg, t - 5).value)
  {}

  /** For a non-negative average no slot expects negative volume. */
  lemma IndividualNonNegative(avg: real, t: int)
    requires avg >= 0.0
    requires MarketOpenMinutes <= t <= MarketCloseMinutes
    ensures IndividualVolumeAt(avg, t).value >= 0.0
  {
    if t >= MarketOpenMinutes + 5 {
      ExpectedMonotone(avg, t - 5, t);
    } else {
      ExpectedBounds(avg, t);
    }
  }

  /** Adding up the slot volumes from 09:30 gives back the cumulative value:
      the differences telescope. */
  lemma {:induction false} IndividualTelescopes(avg: real, k: nat)
    requires MarketOpenMinutes + 5 * k <= MarketCloseMinutes
    ensures SessionVolume(avg, k) == ExpectedVolumeAt(avg, MarketOpenMinutes + 5 * k).value
  {
    IndividualIsDifference(avg, MarketOpenMinutes + 5 * k);
    if k > 0 {
      IndividualTelescopes(avg, k - 1);
    }
  }

  /** The 79 slot volumes of the session add up to the whole average. */
  lemma SessionAddsUpToAverage(avg: real)
    ensures SessionVolume(avg, 78) == avg
  {
    IndividualTelescopes(avg, 78);
    ExpectedAtClose(avg);
  }

  /** At the close the expected cumulative volume is the whole average. */
  lemma ExpectedAtClose(avg: real)
    ensures ExpectedVolumeAt(avg, MarketCloseMinutes) == Some(avg)
  {
    VolumeDistributionShape();
    ExpectedAtAnchor(avg, 13);
  }

  /** Up to 09:30 `getCurrentExpected` gives 12% of the average. */
  lemma CurrentExpectedBeforeOpen(avg: real, now: int)
    requires now <= MarketOpenMinutes
    ensures CurrentExpected(avg, now) == avg * 0.12
  {
    VolumeDistributionShape();
    StepFromFound(VolumeDistribution, avg, now, 0);
    SearchStopsAt(VolumeDistribution, now, 0);
  }

  /** After 16:00 `getCurrentExpected` gives the whole average. */
  lemma CurrentExpectedAfterClose(avg: real, now: int)
    requires now > MarketCloseMinutes
    ensures CurrentExpected(avg, now) == avg
  {
    VolumeDistributionShape();
    StepPastLast(VolumeDistribution, avg, now);
  }

  /** From one anchor (exclusive) to the next (inclusive)
      `getCurrentExpected` gives the next anchor's share: a step function. */
  lemma CurrentExpectedStep(avg: real, now: int, k: nat)
    requires 1 <= k < |VolumeDistribution|
    requires VolumeDistribution[k - 1].minute < now <= VolumeDistribution[k].minute
    ensures CurrentExpected(avg, now) == avg * VolumeDistribution[k].pct
  {
    VolumeDistributionShape();
    StepFromFound(VolumeDistribution, avg, now, 0);
    SearchStopsAt(VolumeDistribution, now, k);
  }

  /** During the session the step value is never below the interpolated
      curve, for a non-negative average. */
  lemma CurrentExpectedAboveCurve(avg: real, now: int)
    requires avg >= 0.0
    requires MarketOpenMinutes <= now <= MarketCloseMinutes
    ensures ExpectedVolumeAt(avg, now).value <= CurrentExpected(avg, now)
  {
    VolumeDistributionShape();
    ShareBelowStep(VolumeDistribution, avg, now);
  }

  /** At an anchor the step value and the interpolated curve meet. */
  lemma CurrentExpectedAtAnchor(avg: real, k: nat)
    requires k < |VolumeDistribution|
    ensures CurrentExpected(avg, VolumeDistribution[k].minute) == ExpectedVolumeAt(avg, VolumeDistribution[k].minute).value
  {
    VolumeDistributionShape();
    var now := VolumeDistribution[k].minute;
    StepFromFound(VolumeDistribution, avg, now, 0);
    SearchStopsAt(VolumeDistribution, now, k);
    FractionAtAnchor(k);
  }
}
