/** The simple-mode chart of the volume hook: one point per anchor of the
    session table, with the expected cumulative volume and, once a current
    volume is known, the cumulative volume projected from it. */
module SimpleMode {
  import opened Wrappers
  import opened JsRuntime
  import opened Constants
  import opened Clock
  import opened VolumeCurve

  /** A chart point: the anchor's "HH:MM" label, the rounded expected
      cumulative volume and the rounded projected one (null without a
      current volume). */
  datatype SimplePoint = SimplePoint(time: string, expected: int, actual: Option<int>)

  /** `Array.prototype.find` over an anchor table from index `i`: the first
      anchor at or after minute `t`, if any. */
  function FindAtOrAfter(tbl: seq<Anchor>, t: int, i: nat): Option<Anchor>
    requires i <= |tbl|
    decreases |tbl| - i
  {
    if i == |tbl| then None
    else if tbl[i].minute >= t then Some(tbl[i])
    else FindAtOrAfter(tbl, t, i + 1)
  }

  /** The fraction of the day's volume taken to have traded by `now`: the
      first anchor's during the session (`?.pct || 1.0`, so 1.0 should no
      anchor be found or its fraction be 0), the first anchor's before the
      open and 1.0 after the close. */
  function CurrentPct(now: int): (p: real)
    ensures p != 0.0
  {
    if MarketOpenMinutes <= now <= MarketCloseMinutes then
      match FindAtOrAfter(VolumeDistribution, now, 0)
      case Some(point) => if point.pct != 0.0 then point.pct else 1.0
      case None => 1.0
    else if now < MarketOpenMinutes then VolumeDistribution[0].pct
    else 1.0
  }

  /** The chart point of one anchor, given the current fraction: the
      average's share of the anchor's fraction, and the current volume
      scaled from the current fraction to the anchor's when it is positive
      (`actualVolume ? Math.round(actualVolume) : null`). */
  function PointAt(point: Anchor, avg: real, currentVolume: real, currentPct: real): SimplePoint
    requires 0 <= point.minute < 100 * 60 && currentPct != 0.0
  {
    var expectedVolume := Share(avg, point.pct);
    var actualVolume := if currentVolume > 0.0 then Some(Share(currentVolume / currentPct, point.pct)) else None;
    SimplePoint(
      LabelAt(point.minute),
      Round(expectedVolume),
      if actualVolume.Some? && actualVolume.value != 0.0 then Some(Round(actualVolume.value)) else None)
  }

  /** `VOLUME_DISTRIBUTION.map(...)` over any table of anchors. */
  function PointsOf(tbl: seq<Anchor>, avg: real, currentVolume: real, currentPct: real): seq<SimplePoint>
    requires forall k :: 0 <= k < |tbl| ==> 0 <= tbl[k].minute < 100 * 60
    requires currentPct != 0.0
  {
    seq(|tbl|, k requires 0 <= k < |tbl| => PointAt(tbl[k], avg, currentVolume, currentPct))
  }

  /** The simple-mode chart for the 50-day average `avg`, the volume traded
      so far `currentVolume` and the minute of the day `now`; the current
      fraction, the same for every point, is worked out once. */
  function SimpleChart(avg: real, currentVolume: real, now: int): (c: seq<SimplePoint>)
    ensures |c| == |VolumeDistribution|
  {
    VolumeDistributionShape();
    PointsOf(VolumeDistribution, avg, currentVolume, CurrentPct(now))
  }

  // ================================================================ lemmas

  /** The find returns the anchor the search finds. */
  lemma {:induction false} FindFound(tbl: seq<Anchor>, t: int, i: nat)
    requires i <= |tbl|
    ensures var j := FirstAtOrAfter(tbl, t, i);
      FindAtOrAfter(tbl, t, i) == if j < |tbl| then Some(tbl[j]) else None
    decreases |tbl| - i
  {
    if i < |tbl| && tbl[i].minute < t {
      FindFound(tbl, t, i + 1);
    }
  }

  /** During the session the current fraction is that of the first anchor
      at or after `now`: the fallback to 1.0 is never taken. */
  lemma CurrentPctInSession(now: int)
    requires MarketOpenMinutes <= now <= MarketCloseMinutes
    ensures var j := FirstAtOrAfter(VolumeDistribution, now, 0);
      j < |VolumeDistribution| && CurrentPct(now) == VolumeDistribution[j].pct
  {
    VolumeDistributionShape();
    FindFound(VolumeDistribution, now, 0);
  }

  /** Before the open the current fraction is 0.12, after the close 1.0, and
      it always lies between the two. */
  lemma CurrentPctBounds(now: int)
    ensures now < MarketOpenMinutes ==> CurrentPct(now) == 0.12
    ensures now > MarketCloseMinutes ==> CurrentPct(now) == 1.0
    ensures 0.12 <= CurrentPct(now) <= 1.0
  {
    VolumeDistributionShape();
    if MarketOpenMinutes <= now <= MarketCloseMinutes {
      CurrentPctInSession(now);
    }
  }

  /** The simple chart's current fraction and the hook's `getCurrentExpected`
      agree: the average's share of the one is the other, at every minute. */
  lemma CurrentPctIsCurrentExpected(avg: real, now: int)
    ensures Share(avg, CurrentPct(now)) == CurrentExpected(avg, now)
  {
    VolumeDistributionShape();
    if now < MarketOpenMinutes {
      CurrentPctBounds(now);
      CurrentExpectedBeforeOpen(avg, now);
    } else if now > MarketCloseMinutes {
      CurrentPctBounds(now);
      CurrentExpectedAfterClose(avg, now);
    } else {
      CurrentPctInSession(now);
      StepFromFound(VolumeDistribution, avg, now, 0);
    }
  }

  /** One point per anchor, in table order, labelled with the anchor's time
      and carrying the rounded expected cumulative volume. */
  lemma PointsShape(tbl: seq<Anchor>, avg: real, currentVolume: real, currentPct: real)
    requires forall k :: 0 <= k < |tbl| ==> 0 <= tbl[k].minute < 100 * 60
    requires currentPct != 0.0
    ensures var c := PointsOf(tbl, avg, currentVolume, currentPct);
      |c| == |tbl|
      && forall k :: 0 <= k < |c| ==>
        IsClockLabel(c[k].time) && ClockMinutes(c[k].time) == tbl[k].minute
        && c[k].expected == Round(Share(avg, tbl[k].pct))
  {
    var c := PointsOf(tbl, avg, currentVolume, currentPct);
    forall k | 0 <= k < |c|
      ensures IsClockLabel(c[k].time) && ClockMinutes(c[k].time) == tbl[k].minute
    {
      LabelAtMinutes(tbl[k].minute);
    }
  }

  /** A point of a positive fraction has a projected volume exactly when a
      positive current volume is known, and the projection is the current
      volume scaled from a positive current fraction to the point's. */
  lemma PointAtActual(point: Anchor, avg: real, currentVolume: real, currentPct: real)
    requires 0 <= point.minute < 100 * 60
    requires point.pct > 0.0 && currentPct > 0.0
    ensures var p := PointAt(point, avg, currentVolume, currentPct);
      (p.actual.Some? <==> currentVolume > 0.0)
      && (currentVolume > 0.0 ==>
            p.actual == Some(Round(Share(currentVolume / currentPct, point.pct))))
  {
    if currentVolume > 0.0 {
      assert Share(currentVolume / currentPct, point.pct) > 0.0 by {
        PositiveQuotient(currentVolume, currentPct);
        PositiveProduct(currentVolume / currentPct, point.pct);
      }
    }
  }

  /** The same for the points of a table. */
  lemma PointActual(tbl: seq<Anchor>, avg: real, currentVolume: real, currentPct: real, k: nat)
    requires forall k :: 0 <= k < |tbl| ==> 0 <= tbl[k].minute < 100 * 60
    requires k < |tbl| && tbl[k].pct > 0.0 && currentPct > 0.0
    ensures var c := PointsOf(tbl, avg, currentVolume, currentPct);
      k < |c|
      && (c[k].actual.Some? <==> currentVolume > 0.0)
      && (currentVolume > 0.0 ==>
            c[k].actual == Some(Round(Share(currentVolume / currentPct, tbl[k].pct))))
  {
    PointAtActual(tbl[k], avg, currentVolume, currentPct);
  }

  /** A non-negative volume's share grows with the fraction. */
  lemma ShareOrder(volume: real, f1: real, f2: real)
    requires volume >= 0.0 && f1 <= f2
    ensures Share(volume, f1) <= Share(volume, f2)
    ensures volume > 0.0 && f1 < f2 ==> Share(volume, f1) < Share(volume, f2)
  {
    assert Share(volume, f2) - Share(volume, f1) == volume * (f2 - f1);
    if volume > 0.0 && f1 < f2 {
      PositiveProduct(volume, f2 - f1);
    } else {
      assert volume * (f2 - f1) >= 0.0;
    }
  }

  lemma PositiveQuotient(a: real, b: real)
    requires a > 0.0 && b > 0.0
    ensures a / b > 0.0
  {
  }

  lemma PositiveProduct(a: real, b: real)
    requires a > 0.0 && b > 0.0
    ensures a * b > 0.0 && Share(a, b) > 0.0
  {
  }

  /** On pace: when the current volume is exactly the average's share of a
      positive current fraction, the projected point of a positive fraction
      equals the expected one. */
  lemma PointOnPace(tbl: seq<Anchor>, avg: real, currentPct: real, k: nat)
    requires forall k :: 0 <= k < |tbl| ==> 0 <= tbl[k].minute < 100 * 60
    requires k < |tbl| && tbl[k].pct > 0.0 && currentPct > 0.0 && avg > 0.0
    ensures var c := PointsOf(tbl, avg, Share(avg, currentPct), currentPct);
      k < |c| && c[k].actual == Some(c[k].expected)
  {
    var cv := Share(avg, currentPct);
    assert cv > 0.0 by {
      PositiveProduct(avg, currentPct);
    }
    assert cv / currentPct == avg by {
      ShareQuotient(avg, currentPct);
    }
    PointAtActual(tbl[k], avg, cv, currentPct);
  }

  /** Scaling by a non-zero fraction and back gives the volume back. */
  lemma ShareQuotient(volume: real, fraction: real)
    requires fraction != 0.0
    ensures Share(volume, fraction) / fraction == volume
  {
  }

  /** The simple chart: one point per anchor, in table order, labelled with
      the anchor's time and carrying the rounded expected cumulative volume. */
  lemma SimpleChartShape(avg: real, currentVolume: real, now: int)
    ensures var c := SimpleChart(avg, currentVolume, now);
      |c| == |VolumeDistribution|
      && forall k :: 0 <= k < |c| ==>
        IsClockLabel(c[k].time) && ClockMinutes(c[k].time) == VolumeDistribution[k].minute
        && c[k].expected == Round(Share(avg, VolumeDistribution[k].pct))
  {
    VolumeDistributionShape();
    PointsShape(VolumeDistribution, avg, currentVolume, CurrentPct(now));
  }

  /** One point of the simple chart: its label reads back as its anchor's
      minute and it expects the average's share of its anchor's fraction. */
  lemma SimpleChartPoint(avg: real, currentVolume: real, now: int, k: nat)
    requires k < |VolumeDistribution|
    ensures var c := SimpleChart(avg, currentVolume, now);
      |c| == |VolumeDistribution| && IsClockLabel(c[k].time)
      && ClockMinutes(c[k].time) == VolumeDistribution[k].minute
      && c[k].expected == Round(Share(avg, VolumeDistribution[k].pct))
  {
    SimpleChartShape(avg, currentVolume, now);
  }

  /** In the simple chart a point has a projected volume exactly when a
      positive current volume is known, and the projection is the current
      volume scaled from the current fraction to the point's fraction. */
  lemma SimpleActual(avg: real, currentVolume: real, now: int, k: nat)
    requires k < |VolumeDistribution|
    ensures var c := SimpleChart(avg, currentVolume, now);
      k < |c|
      && (c[k].actual.Some? <==> currentVolume > 0.0)
      && (currentVolume > 0.0 ==>
            c[k].actual == Some(Round(Share(currentVolume / CurrentPct(now), VolumeDistribution[k].pct))))
  {
    VolumeDistributionShape();
    CurrentPctBounds(now);
    PointActual(VolumeDistribution, avg, currentVolume, CurrentPct(now), k);
  }

  /** On pace: when the current volume is exactly the expected volume now
      (the average's share of the current fraction), every projected point
      equals the expected one. */
  lemma SimpleOnPace(avg: real, now: int, k: nat)
    requires avg > 0.0
    requires k < |VolumeDistribution|
    ensures var c := SimpleChart(avg, CurrentExpected(avg, now), now);
      k < |c| && c[k].actual == Some(c[k].expected)
  {
    VolumeDistributionShape();
    CurrentPctBounds(now);
    CurrentPctIsCurrentExpected(avg, now);
    PointOnPace(VolumeDistribution, avg, CurrentPct(now), k);
  }

  /** The projected point at 16:00 is the projected daily total, the
      current volume divided by the current fraction. */
  lemma SimpleProjectedTotal(avg: real, currentVolume: real, now: int)
    requires currentVolume > 0.0
    ensures var c := SimpleChart(avg, currentVolume, now);
      |c| == 14 && c[13].actual == Some(Round(currentVolume / CurrentPct(now)))
  {
    VolumeDistributionShape();
    SimpleActual(avg, currentVolume, now, 13);
  }

  /** For a non-negative average the expected points never decrease. */
  lemma SimpleExpectedRises(avg: real, currentVolume: real, now: int, k: nat, l: nat)
    requires avg >= 0.0
    requires k <= l < |VolumeDistribution|
    ensures var c := SimpleChart(avg, currentVolume, now);
      l < |c| && c[k].expected <= c[l].expected
  {
    VolumeDistributionShape();
    SimpleChartPoint(avg, currentVolume, now, k);
    SimpleChartPoint(avg, currentVolume, now, l);
    var pk, pl := VolumeDistribution[k].pct, VolumeDistribution[l].pct;
    assert pk <= pl;
    ShareOrder(avg, pk, pl);
    RoundMonotone(Share(avg, pk), Share(avg, pl));
  }

  /** With a 50,000,000 average the 12:00 point expects 19,500,000,
      whatever the current volume and time. */
  lemma SimpleNoonExpected(avg: real, currentVolume: real, now: int)
    requires avg == 50000000.0
    ensures var c := SimpleChart(avg, currentVolume, now);
      |c| == 14 && ClockMinutes(c[5].time) == 12 * 60 && c[5].expected == 19500000
  {
    SimpleChartPoint(avg, currentVolume, now, 5);
    assert VolumeDistribution[5] == Anchor(12 * 60, 0.39);
    assert Round(Share(avg, 0.39)) == 19500000 by {
      assert Share(avg, 0.39) == 19500000.0;
      RoundWhole(19500000);
    }
  }

  /** The same day, on pace at 12:00, projects 50,000,000 at 16:00. */
  lemma SimpleNoonProjected(avg: real, currentVolume: real, now: int)
    requires avg == 50000000.0 && currentVolume == 19500000.0 && now == 12 * 60
    ensures var c := SimpleChart(avg, currentVolume, now);
      |c| == 14 && ClockMinutes(c[13].time) == 16 * 60 && c[13].actual == Some(50000000)
  {
    assert CurrentPct(now) == 0.39 by {
      VolumeDistributionShape();
      CurrentPctInSession(now);
      SearchStopsAt(VolumeDistribution, now, 5);
    }
    SimpleActual(avg, currentVolume, now, 13);
    SimpleChartPoint(avg, currentVolume, now, 13);
    assert VolumeDistribution[13] == Anchor(16 * 60, 1.0);
    assert Round(Share(currentVolume / 0.39, 1.0)) == 50000000 by {
      assert Share(currentVolume / 0.39, 1.0) == 50000000.0;
      RoundWhole(50000000);
    }
  }
}
