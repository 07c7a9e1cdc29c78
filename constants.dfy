/** The fixed calibration data: the expected cumulative fraction of a day's
    volume at anchor times of the regular session and of the pre-market,
    and the session bounds. Anchor times are minutes of the day
    (`hour * 60 + minute` of the source's "HH:MM" keys). */
module Constants {

  datatype Anchor = Anchor(minute: int, pct: real)

  const MarketOpenMinutes: int := 9 * 60 + 30
  const MarketCloseMinutes: int := 16 * 60

  /** Cumulative fraction of the day's volume, 09:30 to 16:00. */
  const VolumeDistribution: seq<Anchor> := [
    Anchor(9 * 60 + 30, 0.12),
    Anchor(10 * 60, 0.2),
    Anchor(10 * 60 + 30, 0.26),
    Anchor(11 * 60, 0.31),
    Anchor(11 * 60 + 30, 0.35),
    Anchor(12 * 60, 0.39),
    Anchor(12 * 60 + 30, 0.42),
    Anchor(13 * 60, 0.45),
    Anchor(13 * 60 + 30, 0.48),
    Anchor(14 * 60, 0.51),
    Anchor(14 * 60 + 30, 0.54),
    Anchor(15 * 60, 0.58),
    Anchor(15 * 60 + 30, 0.68),
    Anchor(16 * 60, 1.0)
  ]

  /** Cumulative pre-market fraction of the day's volume, 08:00 to 09:25. */
  const PremarketDistribution: seq<Anchor> := [
    Anchor(8 * 60, 0.001),
    Anchor(8 * 60 + 5, 0.0015),
    Anchor(8 * 60 + 10, 0.002),
    Anchor(8 * 60 + 15, 0.0025),
    Anchor(8 * 60 + 20, 0.003),
    Anchor(8 * 60 + 25, 0.0035),
    Anchor(8 * 60 + 30, 0.005),
    Anchor(8 * 60 + 35, 0.006),
    Anchor(8 * 60 + 40, 0.007),
    Anchor(8 * 60 + 45, 0.008),
    Anchor(8 * 60 + 50, 0.009),
    Anchor(8 * 60 + 55, 0.01),
    Anchor(9 * 60, 0.012),
    Anchor(9 * 60 + 5, 0.014),
    Anchor(9 * 60 + 10, 0.016),
    Anchor(9 * 60 + 15, 0.018),
    Anchor(9 * 60 + 20, 0.02),
    Anchor(9 * 60 + 25, 0.022)
  ]

  /** From anchor `i` on, each anchor comes `step` minutes after the one
      before it and carries a strictly larger fraction. */
  predicate RisingFrom(tbl: seq<Anchor>, i: nat, step: int)
    decreases |tbl| - i
  {
    i + 1 >= |tbl|
    || (tbl[i + 1].minute == tbl[i].minute + step
        && tbl[i].pct < tbl[i + 1].pct
        && RisingFrom(tbl, i + 1, step))
  }

  /** A table strictly increasing in time and in fraction. */
  predicate StrictlyIncreasing(tbl: seq<Anchor>) {
    forall i, j :: 0 <= i < j < |tbl| ==> tbl[i].minute < tbl[j].minute && tbl[i].pct < tbl[j].pct
  }

  /** The step-by-step check gives even spacing and strict growth between
      any two anchors. */
  lemma {:induction false} RisingIsIncreasing(tbl: seq<Anchor>, i: nat, step: int)
    requires i <= |tbl| && step > 0 && RisingFrom(tbl, i, step)
    ensures forall k :: i <= k < |tbl| ==> tbl[k].minute == tbl[i].minute + step * (k - i)
    ensures forall k, l :: i <= k < l < |tbl| ==> tbl[k].minute < tbl[l].minute && tbl[k].pct < tbl[l].pct
    decreases |tbl| - i
  {
    if i + 1 < |tbl| {
      RisingIsIncreasing(tbl, i + 1, step);
    }
  }

  /** 14 anchors, 09:30 to 16:00 every 30 minutes, fractions strictly rising
      from 0.12 to exactly 1.0, the ends on the session bounds. */
  lemma VolumeDistributionShape()
    ensures |VolumeDistribution| == 14
    ensures forall k :: 0 <= k < 14 ==> VolumeDistribution[k].minute == MarketOpenMinutes + 30 * k
    ensures StrictlyIncreasing(VolumeDistribution)
    ensures VolumeDistribution[0].pct == 0.12 && VolumeDistribution[13].pct == 1.0
    ensures VolumeDistribution[0].minute == MarketOpenMinutes
    ensures VolumeDistribution[13].minute == MarketCloseMinutes
    ensures MarketOpenMinutes < MarketCloseMinutes
    ensures forall k :: 0 <= k < 14 ==> 0.0 < VolumeDistribution[k].pct <= 1.0
  {
    assert RisingFrom(VolumeDistribution, 13, 30);
    assert RisingFrom(VolumeDistribution, 12, 30);
    assert RisingFrom(VolumeDistribution, 11, 30);
    assert RisingFrom(VolumeDistribution, 10, 30);
    assert RisingFrom(VolumeDistribution, 9, 30);
    assert RisingFrom(VolumeDistribution, 8, 30);
    assert RisingFrom(VolumeDistribution, 7, 30);
    assert RisingFrom(VolumeDistribution, 6, 30);
    assert RisingFrom(VolumeDistribution, 5, 30);
    assert RisingFrom(VolumeDistribution, 4, 30);
    assert RisingFrom(VolumeDistribution, 3, 30);
    assert RisingFrom(VolumeDistribution, 2, 30);
    assert RisingFrom(VolumeDistribution, 1, 30);
    assert RisingFrom(VolumeDistribution, 0, 30);
    RisingIsIncreasing(VolumeDistribution, 0, 30);
    forall k | 0 <= k < 14 ensures 0.0 < VolumeDistribution[k].pct <= 1.0 {
      assert VolumeDistribution[0].pct <= VolumeDistribution[k].pct <= VolumeDistribution[13].pct;
    }
  }

  /** 18 anchors, 08:00 to 09:25 every 5 minutes (the last one five minutes
      before the open), fractions strictly rising from 0.001 to 0.022, each
      below the first regular-session fraction. */
  lemma PremarketDistributionShape()
    ensures |PremarketDistribution| == 18
    ensures forall k :: 0 <= k < 18 ==> PremarketDistribution[k].minute == 8 * 60 + 5 * k
    ensures PremarketDistribution[17].minute + 5 == MarketOpenMinutes
    ensures StrictlyIncreasing(PremarketDistribution)
    ensures PremarketDistribution[0].pct == 0.001 && PremarketDistribution[17].pct == 0.022
    ensures forall k :: 0 <= k < 18 ==> 0.0 < PremarketDistribution[k].pct < VolumeDistribution[0].pct
  {
    assert RisingFrom(PremarketDistribution, 17, 5);
    assert RisingFrom(PremarketDistribution, 16, 5);
    assert RisingFrom(PremarketDistribution, 15, 5);
    assert RisingFrom(PremarketDistribution, 14, 5);
    assert RisingFrom(PremarketDistribution, 13, 5);
    assert RisingFrom(PremarketDistribution, 12, 5);
    assert RisingFrom(PremarketDistribution, 11, 5);
    assert RisingFrom(PremarketDistribution, 10, 5);
    assert RisingFrom(PremarketDistribution, 9, 5);
    assert RisingFrom(PremarketDistribution, 8, 5);
    assert RisingFrom(PremarketDistribution, 7, 5);
    assert RisingFrom(PremarketDistribution, 6, 5);
    assert RisingFrom(PremarketDistribution, 5, 5);
    assert RisingFrom(PremarketDistribution, 4, 5);
    assert RisingFrom(PremarketDistribution, 3, 5);
    assert RisingFrom(PremarketDistribution, 2, 5);
    assert RisingFrom(PremarketDistribution, 1, 5);
    assert RisingFrom(PremarketDistribution, 0, 5);
    RisingIsIncreasing(PremarketDistribution, 0, 5);
    forall k | 0 <= k < 18 ensures 0.0 < PremarketDistribution[k].pct < VolumeDistribution[0].pct {
      assert PremarketDistribution[0].pct <= PremarketDistribution[k].pct <= PremarketDistribution[17].pct;
    }
  }
}
