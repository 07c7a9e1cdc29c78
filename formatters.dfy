/** The string utilities of the volume engine: reading a volume typed by the
    user ("1.5k", "2,000,000", " 3M "), showing a volume with a B/M/K
    suffix, classifying a time of day into the three trading sessions, and
    the five-minute time grid from 08:00 to 16:55. */
module Formatters {
  import opened Wrappers
  import opened JsRuntime
  import opened Constants
  import opened Clock

  // ============================================================ parsing

  /** What `parseVolumeInput` is handed: a number, or a string typed by
      the user. */
  datatype VolumeInput = Number(n: real) | Text(s: string)

  /** The multiplier of the first suffix letter found, in the order b, m,
      k: a 'b' anywhere wins over an 'm' and an 'm' over a 'k'. */
  function Multiplier(clean: string): (m: real)
    ensures 'b' in clean ==> m == 1000000000.0
    ensures 'b' !in clean && 'm' in clean ==> m == 1000000.0
    ensures 'b' !in clean && 'm' !in clean && 'k' in clean ==> m == 1000.0
    ensures 'b' !in clean && 'm' !in clean && 'k' !in clean ==> m == 1.0
  {
    if 'b' in clean then 1000000000.0
    else if 'm' in clean then 1000000.0
    else if 'k' in clean then 1000.0
    else 1.0
  }

  /** `parseVolumeInput`: a number passes through unchanged; a string is
      lower-cased and trimmed (null when that leaves nothing), stripped of
      commas and read with `parseFloat` (null when no number starts it),
      then scaled by its suffix and rounded to a whole number. */
  function ParseVolumeInput(value: VolumeInput): (r: Option<real>)
    ensures value.Number? ==> r == Some(value.n)
    ensures value.Text? && r.Some? ==> IsWhole(r.value)
  {
    match value
    case Number(n) => Some(n)
    case Text(s) => ReadTrimmed(Trim(ToLower(s)))
  }

  /** The string part of `parseVolumeInput` once the text is lower-cased
      and trimmed. */
  function ReadTrimmed(str: string): (r: Option<real>)
    ensures r.Some? ==> IsWhole(r.value)
  {
    if str == [] then None else ReadClean(RemoveCommas(str))
  }

  /** `parseFloat` of the text without commas, scaled by its suffix and
      rounded. */
  function ReadClean(clean: string): (r: Option<real>)
    ensures r.Some? ==> IsWhole(r.value)
  {
    match ParseFloat(clean)
    case None => None
    case Some(num) =>
      Some(Round(Times(num, Multiplier(clean))) as real)
  }

  /** The number read times the suffix's multiplier. */
  function Times(num: real, m: real): real {
    num * m
  }

  // ========================================================= formatting

  /** How `formatVolume` shows a volume, before the digits are written: not
      available, a scaled value with a number of decimals and a suffix, or
      the plain value. */
  datatype Shown = NotAvailable | Tiered(scaled: real, decimals: nat, suffix: char) | Plain(value: real)

  /** The tier `formatVolume` picks: B with 2 decimals from 1e9, M with 1
      decimal from 1e6, K with 1 decimal from 1e3, the plain value below. */
  function Display(vol: Option<real>): (d: Shown)
    ensures vol.None? <==> d.NotAvailable?
    ensures d.Tiered? <==> vol.Some? && vol.value >= 1000.0
    ensures d.Plain? ==> d.value == vol.value
    ensures d.Tiered? && d.suffix == 'B' ==> vol.value >= 1000000000.0 && d.decimals == 2
    ensures d.Tiered? && d.suffix == 'M' ==> 1000000.0 <= vol.value < 1000000000.0 && d.decimals == 1
    ensures d.Tiered? && d.suffix == 'K' ==> 1000.0 <= vol.value < 1000000.0 && d.decimals == 1
    ensures d.Tiered? ==> d.suffix in "BMK" && d.scaled * TierUnit(d.suffix) == vol.value
  {
    match vol
    case None => NotAvailable
    case Some(v) =>
      if v >= 1000000000.0 then Tiered(v / 1000000000.0, 2, 'B')
      else if v >= 1000000.0 then Tiered(v / 1000000.0, 1, 'M')
      else if v >= 1000.0 then Tiered(v / 1000.0, 1, 'K')
      else Plain(v)
  }

  /** The volume one unit of a suffix stands for. */
  function TierUnit(suffix: char): real {
    if suffix == 'B' then 1000000000.0
    else if suffix == 'M' then 1000000.0
    else 1000.0
  }

  /** The text of a shown volume; a plain value is written by `toString`,
      which here covers whole numbers. */
  function ShownText(d: Shown): string
    requires d.Tiered? ==> d.scaled >= 0.0
    requires d.Plain? ==> IsWhole(d.value)
  {
    match d
    case NotAvailable => "N/A"
    case Tiered(scaled, decimals, suffix) => ToFixed(scaled, decimals) + [suffix]
    case Plain(value) => IntToString(value.Floor)
  }

  /** `formatVolume`. */
  function FormatVolume(vol: Option<real>): (r: string)
    requires vol.Some? && vol.value < 1000.0 ==> IsWhole(vol.value)
    ensures vol.None? ==> r == "N/A"
    ensures vol.Some? && vol.value >= 1000.0 ==> |r| >= 2 && r[|r| - 1] in "BMK" && IsDigit(r[0])
  {
    ShownText(Display(vol))
  }

  // ===================================================== trading session

  /** The three session flags and the status word of `getMarketStatus`. */
  datatype MarketStatus = MarketStatus(isMarketOpen: bool, isPreMarket: bool, isAfterMarket: bool, status: string)

  /** `getMarketStatus` on the hour and minute of the local time. */
  function GetMarketStatus(hour: int, minute: int): (m: MarketStatus)
    ensures (m.isMarketOpen && !m.isPreMarket && !m.isAfterMarket)
         || (!m.isMarketOpen && m.isPreMarket && !m.isAfterMarket)
         || (!m.isMarketOpen && !m.isPreMarket && m.isAfterMarket)
    ensures m.status == (if m.isMarketOpen then "open" else if m.isPreMarket then "pre-market" else "after-hours")
    ensures 0 <= minute < 60 ==>
      (m.isMarketOpen <==> MarketOpenMinutes <= hour * 60 + minute < MarketCloseMinutes)
      && (m.isPreMarket <==> hour * 60 + minute < MarketOpenMinutes)
      && (m.isAfterMarket <==> MarketCloseMinutes <= hour * 60 + minute)
  {
    var isMarketOpen := (hour > 9 || (hour == 9 && minute >= 30)) && hour < 16;
    var isPreMarket := hour < 9 || (hour == 9 && minute < 30);
    var isAfterMarket := hour >= 16;
    MarketStatus(isMarketOpen, isPreMarket, isAfterMarket,
      if isMarketOpen then "open" else if isPreMarket then "pre-market" else "after-hours")
  }

  // ========================================================== time grid

  /** One five-minute slot of the grid: its "HH:MM" label and session flags. */
  datatype TimeSlot = TimeSlot(time: string, isPreMarket: bool, isAfterMarket: bool, isMarketHours: bool)

  /** The slot that starts at `hour:minute`. */
  function SlotFor(hour: nat, minute: nat): TimeSlot
    requires hour < 24 && minute < 60
  {
    TimeSlot(
      Label(hour, minute),
      hour < 9 || (hour == 9 && minute < 30),
      hour >= 16,
      (hour > 9 || (hour == 9 && minute >= 30)) && hour < 16)
  }

  /** The twelve slots of one hour, at minutes 0, 5, ..., 55. */
  function HourSlots(hour: nat): seq<TimeSlot>
    requires hour < 24
  {
    seq(12, k requires 0 <= k < 12 => SlotFor(hour, 5 * k))
  }

  /** The slots of the hours from 8 up to, not including, `hour`. */
  function GridBefore(hour: nat): seq<TimeSlot>
    requires 8 <= hour <= 17
  {
    if hour == 8 then [] else GridBefore(hour - 1) + HourSlots(hour - 1)
  }

  /** The grid as a whole: every slot of the hours 8 to 16. */
  function TimeGrid(): seq<TimeSlot> {
    GridBefore(17)
  }

  /** `generateTimeSlots`: hours 8 to 16, minutes 0 to 55 in steps of 5,
      one slot pushed for each. */
  method GenerateTimeSlots() returns (slots: seq<TimeSlot>)
    ensures slots == TimeGrid()
  {
    slots := [];
    var hour := 8;
    while hour <= 16
      invariant 8 <= hour <= 17
      invariant slots == GridBefore(hour)
    {
      var min := 0;
      ghost var step := 0;
      while min < 60
        invariant 0 <= step <= 12 && min == 5 * step
        invariant slots == GridBefore(hour) + HourSlots(hour)[..step]
      {
        if hour == 16 && min > 55 {
          break;
        }
        HourPrefix(hour, step);
        slots := slots + [SlotFor(hour, min)];
        min, step := min + 5, step + 1;
      }
      assert HourSlots(hour)[..step] == HourSlots(hour);
      hour := hour + 1;
    }
  }

  /** The first `step + 1` slots of an hour extend its first `step`. */
  lemma HourPrefix(hour: nat, step: nat)
    requires hour < 24 && step < 12
    ensures HourSlots(hour)[..step + 1] == HourSlots(hour)[..step] + [SlotFor(hour, 5 * step)]
  {
  }

  /** Slot `i` of the hours before `hour` starts `5 * i` minutes after
      08:00. */
  lemma {:induction false} GridBeforeSlots(hour: nat)
    requires 8 <= hour <= 17
    ensures |GridBefore(hour)| == 12 * (hour - 8)
    ensures forall i :: 0 <= i < |GridBefore(hour)| ==>
      GridBefore(hour)[i] == SlotFor(8 + i / 12, 5 * (i % 12))
    decreases hour
  {
    if hour > 8 {
      GridBeforeSlots(hour - 1);
      var g := GridBefore(hour);
      var n := 12 * (hour - 9);
      forall i | 0 <= i < |g|
        ensures g[i] == SlotFor(8 + i / 12, 5 * (i % 12))
      {
        if i < n {
          assert g[i] == GridBefore(hour - 1)[i];
        } else {
          assert g[i] == HourSlots(hour - 1)[i - n];
          assert 8 + i / 12 == hour - 1 && i % 12 == i - n by {
            DivTwelve(hour - 9, i - n);
          }
        }
      }
    }
  }

  lemma DivTwelve(q: int, r: int)
    requires 0 <= r < 12 && q >= 0
    ensures (12 * q + r) / 12 == q && (12 * q + r) % 12 == r
  {
  }

  /** A slot carries the flags `getMarketStatus` gives for its own hour
      and minute, and it is in market hours exactly when it is neither pre-
      nor after-market. */
  lemma SlotStatus(hour: nat, minute: nat)
    requires hour < 24 && minute < 60
    ensures var s := SlotFor(hour, minute);
      var m := GetMarketStatus(hour, minute);
      s.isPreMarket == m.isPreMarket && s.isAfterMarket == m.isAfterMarket
      && s.isMarketHours == m.isMarketOpen
      && s.isMarketHours == (!s.isPreMarket && !s.isAfterMarket)
  {
  }

  /** Slot `i` of the grid starts `5 * i` minutes after 08:00. */
  lemma GridSlot(i: nat)
    requires i < 108
    ensures |TimeGrid()| == 108 && TimeGrid()[i] == SlotFor(8 + i / 12, 5 * (i % 12))
    ensures (8 + i / 12) * 60 + 5 * (i % 12) == 8 * 60 + 5 * i
  {
    GridBeforeSlots(17);
    var q, r := i / 12, i % 12;
    assert i == 12 * q + r;
  }

  /** Slot `i` is labelled with its minute of the day and flagged by it. */
  lemma GridSlotFacts(i: nat)
    requires i < 108
    ensures |TimeGrid()| == 108
    ensures IsClockLabel(TimeGrid()[i].time) && ClockMinutes(TimeGrid()[i].time) == 8 * 60 + 5 * i
    ensures var s := TimeGrid()[i];
      (s.isPreMarket <==> 8 * 60 + 5 * i < MarketOpenMinutes)
      && (s.isAfterMarket <==> MarketCloseMinutes <= 8 * 60 + 5 * i)
      && s.isMarketHours == (!s.isPreMarket && !s.isAfterMarket)
  {
    GridSlot(i);
    LabelMinutes(8 + i / 12, 5 * (i % 12));
  }

  /** The grid of `generateTimeSlots`: 108 slots labelled "HH:MM" from
      08:00 to 16:55, each five minutes after the one before; a slot is
      pre-market before 09:30, after-market from 16:00, and in market hours
      exactly when it is neither. */
  lemma TimeGridShape()
    ensures |TimeGrid()| == 108
    ensures forall i :: 0 <= i < 108 ==>
      IsClockLabel(TimeGrid()[i].time) && ClockMinutes(TimeGrid()[i].time) == 8 * 60 + 5 * i
    ensures TimeGrid()[0].time == "08:00" && TimeGrid()[107].time == "16:55"
    ensures forall i :: 0 <= i < 108 ==>
      var s := TimeGrid()[i];
      (s.isPreMarket <==> 8 * 60 + 5 * i < MarketOpenMinutes)
      && (s.isAfterMarket <==> MarketCloseMinutes <= 8 * 60 + 5 * i)
      && s.isMarketHours == (!s.isPreMarket && !s.isAfterMarket)
  {
    forall i | 0 <= i < 108
      ensures IsClockLabel(TimeGrid()[i].time) && ClockMinutes(TimeGrid()[i].time) == 8 * 60 + 5 * i
      ensures var s := TimeGrid()[i];
        (s.isPreMarket <==> 8 * 60 + 5 * i < MarketOpenMinutes)
        && (s.isAfterMarket <==> MarketCloseMinutes <= 8 * 60 + 5 * i)
        && s.isMarketHours == (!s.isPreMarket && !s.isAfterMarket)
    {
      GridSlotFacts(i);
    }
    GridSlot(0);
    GridSlot(107);
    FirstLastLabels();
  }

  lemma FirstLastLabels()
    ensures Label(8, 0) == "08:00" && Label(16, 55) == "16:55"
  {
  }

  // ====================================================== parsing lemmas

  /** The string is null exactly when nothing is left after trimming or
      when no number starts the cleaned text; a number never is. */
  lemma ParseNull(value: VolumeInput)
    ensures ParseVolumeInput(value).None? <==>
      value.Text?
      && (Trim(ToLower(value.s)) == []
          || ParseFloat(RemoveCommas(Trim(ToLower(value.s)))).None?)
  {
    if value.Text? {
      var str := Trim(ToLower(value.s));
      if str != [] && ParseFloat(RemoveCommas(str)).Some? {
        assert ReadClean(RemoveCommas(str)).Some?;
      }
    }
  }

  lemma {:induction false} ToLowerAppend(a: string, b: string)
    ensures ToLower(a + b) == ToLower(a) + ToLower(b)
  {
    assert forall i :: 0 <= i < |a + b| ==> ToLower(a + b)[i] == (ToLower(a) + ToLower(b))[i];
  }

  /** Letter case is ignored: the string and its lower-case form read the
      same. */
  lemma ParseIgnoresCase(s: string)
    ensures ParseVolumeInput(Text(s)) == ParseVolumeInput(Text(ToLower(s)))
  {
    assert ToLower(ToLower(s)) == ToLower(s) by {
      assert forall i :: 0 <= i < |s| ==> LowerChar(LowerChar(s[i])) == LowerChar(s[i]);
    }
  }

  lemma {:induction false} LowerWhitespace(w: string)
    requires AllWhitespace(w)
    ensures ToLower(w) == w
  {
    assert forall i :: 0 <= i < |w| ==> LowerChar(w[i]) == w[i];
  }

  lemma {:induction false} TrimStartWhitespace(w: string, y: string)
    requires AllWhitespace(w)
    ensures TrimStart(w + y) == TrimStart(y)
    decreases |w|
  {
    if w != [] {
      assert (w + y)[1..] == w[1..] + y;
      TrimStartWhitespace(w[1..], y);
    } else {
      assert w + y == y;
    }
  }

  lemma {:induction false} TrimEndWhitespace(y: string, w: string)
    requires AllWhitespace(w)
    ensures TrimEnd(y + w) == TrimEnd(y)
    decreases |w|
  {
    if w != [] {
      assert (y + w)[..|y + w| - 1] == y + w[..|w| - 1];
      TrimEndWhitespace(y, w[..|w| - 1]);
    } else {
      assert y + w == y;
    }
  }

  /** Trailing white space survives the removal of leading white space
      unless everything is white space. */
  lemma {:induction false} TrimStartAppend(x: string, w: string)
    requires AllWhitespace(w)
    ensures AllWhitespace(x) ==> TrimStart(x + w) == []
    ensures !AllWhitespace(x) ==> TrimStart(x + w) == TrimStart(x) + w
    decreases |x|
  {
    if x == [] {
      assert x + w == w;
      TrimStartWhitespace(w, []);
      assert w + [] == w;
    } else {
      assert (x + w)[1..] == x[1..] + w;
      if IsWhitespace(x[0]) {
        TrimStartAppend(x[1..], w);
        WhitespaceTail(x);
      } else {
        assert !AllWhitespace(x);
      }
    }
  }

  lemma WhitespaceTail(x: string)
    requires x != [] && IsWhitespace(x[0])
    ensures AllWhitespace(x) <==> AllWhitespace(x[1..])
  {
    if AllWhitespace(x[1..]) {
      forall i | 0 <= i < |x|
        ensures IsWhitespace(x[i])
      {
        if i > 0 {
          assert x[i] == x[1..][i - 1];
        }
      }
    }
  }

  /** White space around a text does not change its trimmed form. */
  lemma TrimSurrounded(w1: string, x: string, w2: string)
    requires AllWhitespace(w1) && AllWhitespace(w2)
    ensures Trim(w1 + x + w2) == Trim(x)
  {
    assert w1 + x + w2 == w1 + (x + w2);
    TrimStartWhitespace(w1, x + w2);
    TrimStartAppend(x, w2);
    if AllWhitespace(x) {
      TrimStartWhitespace(x, []);
      assert x + [] == x;
    } else {
      TrimEndWhitespace(TrimStart(x), w2);
    }
  }

  /** Surrounding white space is ignored. */
  lemma ParseIgnoresSurroundingWhitespace(w1: string, s: string, w2: string)
    requires AllWhitespace(w1) && AllWhitespace(w2)
    ensures ParseVolumeInput(Text(w1 + s + w2)) == ParseVolumeInput(Text(s))
  {
    ToLowerAppend(w1 + s, w2);
    ToLowerAppend(w1, s);
    LowerWhitespace(w1);
    LowerWhitespace(w2);
    TrimSurrounded(w1, ToLower(s), w2);
  }

  lemma {:induction false} RemoveCommasAppend(a: string, b: string)
    ensures RemoveCommas(a + b) == RemoveCommas(a) + RemoveCommas(b)
    decreases |a|
  {
    if a == [] {
      assert a + b == b;
    } else {
      assert (a + b)[1..] == a[1..] + b;
      RemoveCommasAppend(a[1..], b);
    }
  }

  /** A text that neither starts nor ends with white space is its own
      trimmed form. */
  lemma TrimNothing(x: string)
    requires x != [] && !IsWhitespace(x[0]) && !IsWhitespace(x[|x| - 1])
    ensures Trim(x) == x
  {
    assert TrimStart(x) == x;
  }

  /** Lower-casing keeps the first and the last character out of white
      space. */
  lemma LowerEnds(x: string)
    requires x != [] && !IsWhitespace(x[0]) && !IsWhitespace(x[|x| - 1])
    ensures var l := ToLower(x); l != [] && !IsWhitespace(l[0]) && !IsWhitespace(l[|l| - 1])
  {
  }

  /** Lower-casing a text with a comma inside lower-cases both sides. */
  lemma LowerAroundComma(a: string, b: string)
    ensures ToLower(a + "," + b) == ToLower(a) + "," + ToLower(b)
  {
    ToLowerAppend(a + ",", b);
    ToLowerAppend(a, ",");
    assert ToLower(",") == ",";
  }

  /** A comma inside the text, between two parts that do not start or end
      it with white space, is ignored: "1,000" reads as "1000". */
  lemma ParseIgnoresComma(a: string, b: string)
    requires a != [] && !IsWhitespace(a[0])
    requires b != [] && !IsWhitespace(b[|b| - 1])
    ensures ParseVolumeInput(Text(a + "," + b)) == ParseVolumeInput(Text(a + b))
  {
    var la, lb := ToLower(a), ToLower(b);
    CommaTrimmed(a, b);
    JoinedTrimmed(a, b);
    CommaRemoved(la, lb);
    assert |la + lb| > 0 && |la + "," + lb| > 0;
    assert ParseVolumeInput(Text(a + "," + b)) == ReadClean(RemoveCommas(la + "," + lb));
    assert ParseVolumeInput(Text(a + b)) == ReadClean(RemoveCommas(la + lb));
  }

  /** Trimming and lower-casing a text with a comma inside. */
  lemma CommaTrimmed(a: string, b: string)
    requires a != [] && !IsWhitespace(a[0])
    requires b != [] && !IsWhitespace(b[|b| - 1])
    ensures Trim(ToLower(a + "," + b)) == ToLower(a) + "," + ToLower(b)
  {
    var withComma := a + "," + b;
    assert withComma[0] == a[0] && withComma[|withComma| - 1] == b[|b| - 1];
    LowerEnds(withComma);
    TrimNothing(ToLower(withComma));
    LowerAroundComma(a, b);
  }

  /** Trimming and lower-casing the same text without the comma. */
  lemma JoinedTrimmed(a: string, b: string)
    requires a != [] && !IsWhitespace(a[0])
    requires b != [] && !IsWhitespace(b[|b| - 1])
    ensures Trim(ToLower(a + b)) == ToLower(a) + ToLower(b)
  {
    var without := a + b;
    assert without[0] == a[0] && without[|without| - 1] == b[|b| - 1];
    LowerEnds(without);
    TrimNothing(ToLower(without));
    ToLowerAppend(a, b);
  }

  /** Dropping the commas of a text with one more comma inside. */
  lemma CommaRemoved(x: string, y: string)
    ensures RemoveCommas(x + "," + y) == RemoveCommas(x + y)
  {
    RemoveCommasAppend(x + ",", y);
    RemoveCommasAppend(x, ",");
    RemoveCommasAppend(x, y);
    assert RemoveCommas(",") == [] by {
      assert ","[1..] == [];
    }
    assert RemoveCommas(x) + [] == RemoveCommas(x);
  }

  /** How a text reads, stage by stage. */
  lemma ReadsAs(s: string, str: string, clean: string, num: real, m: real)
    requires Trim(ToLower(s)) == str && str != []
    requires RemoveCommas(str) == clean && ParseFloat(clean) == Some(num)
    requires Multiplier(clean) == m
    ensures ParseVolumeInput(Text(s)) == Some(Round(Times(num, m)) as real)
  {
    assert ParseVolumeInput(Text(s)) == ReadTrimmed(str);
    assert ReadTrimmed(str) == ReadClean(clean);

  }

  /** A lower-case text without white space at either end reads as
      itself through the first two stages. */
  lemma AlreadyTrimmed(s: string)
    requires s != [] && !IsWhitespace(s[0]) && !IsWhitespace(s[|s| - 1])
    requires forall i :: 0 <= i < |s| ==> !('A' <= s[i] <= 'Z')
    ensures Trim(ToLower(s)) == s
  {
    assert ToLower(s) == s;
    TrimNothing(s);
  }

  /** "1000" reads as 1000. */
  lemma ParseExampleThousand()
    ensures ParseVolumeInput(Text("1000")) == Some(1000.0)
  {
    AlreadyTrimmed("1000");
    ThousandSuffix();
    ThousandFloat();
    ReadsAs("1000", "1000", "1000", 1000.0, 1.0);
    assert Times(1000.0, 1.0) == 1000 as real;
    RoundWhole(1000);
  }

  lemma ThousandSuffix()
    ensures RemoveCommas("1000") == "1000" && Multiplier("1000") == 1.0
  {
    var s := "1000";
    assert s == ['1', '0', '0', '0'];
    assert ',' !in s && 'b' !in s && 'm' !in s && 'k' !in s;
  }

  lemma ThousandFloat()
    ensures ParseFloat("1000") == Some(1000.0)
  {
    ThousandDigits();
    ParseDigits("1000", []);
    assert "1000" + [] == "1000";
  }

  lemma ThousandDigits()
    ensures DigitsValue("1000") == 1000
  {
    var d := "1000";
    assert DigitsValue(d[..1]) == 1 by { assert d[..1][..0] == []; }
    assert DigitsValue(d[..2]) == 10 by { assert d[..2][..1] == d[..1]; }
    assert DigitsValue(d[..3]) == 100 by { assert d[..3][..2] == d[..2]; }
    assert d[..3] == d[..|d| - 1];
  }

  /** "0" reads as 0, not as null. */
  lemma ParseExampleZero()
    ensures ParseVolumeInput(Text("0")) == Some(0.0)
  {
    AlreadyTrimmed("0");
    ZeroSuffix();
    ZeroFloat();
    ReadsAs("0", "0", "0", 0.0, 1.0);
    assert Times(0.0, 1.0) == 0 as real;
    RoundWhole(0);
  }

  lemma ZeroSuffix()
    ensures RemoveCommas("0") == "0" && Multiplier("0") == 1.0
  {
    var s := "0";
    assert s == ['0'];
    assert ',' !in s && 'b' !in s && 'm' !in s && 'k' !in s;
  }

  lemma ZeroFloat()
    ensures ParseFloat("0") == Some(0.0)
  {
    ZeroDigits();
    ParseDigits("0", []);
    assert "0" + [] == "0";
  }

  lemma ZeroDigits()
    ensures DigitsValue("0") == 0
  {
    assert "0"[..0] == [];
  }

  /** "500" reads as 500. */
  lemma ParseExampleFiveHundred()
    ensures ParseVolumeInput(Text("500")) == Some(500.0)
  {
    AlreadyTrimmed("500");
    FiveHundredSuffix();
    FiveHundredFloat();
    ReadsAs("500", "500", "500", 500.0, 1.0);
    assert Times(500.0, 1.0) == 500 as real;
    RoundWhole(500);
  }

  lemma FiveHundredSuffix()
    ensures RemoveCommas("500") == "500" && Multiplier("500") == 1.0
  {
    var s := "500";
    assert s == ['5', '0', '0'];
    assert ',' !in s && 'b' !in s && 'm' !in s && 'k' !in s;
  }

  lemma FiveHundredFloat()
    ensures ParseFloat("500") == Some(500.0)
  {
    FiveHundredDigits();
    ParseDigits("500", []);
    assert "500" + [] == "500";
  }

  lemma FiveHundredDigits()
    ensures DigitsValue("500") == 500
  {
    var d := "500";
    assert DigitsValue(d[..1]) == 5 by { assert d[..1][..0] == []; }
    assert DigitsValue(d[..2]) == 50 by { assert d[..2][..1] == d[..1]; }
    assert d[..2] == d[..|d| - 1];
  }

  /** "1.5k" reads as 1500. */
  lemma ParseExampleK()
    ensures ParseVolumeInput(Text("1.5k")) == Some(1500.0)
  {
    AlreadyTrimmed("1.5k");
    ThousandsSuffix();
    OneAndAHalfFloat();
    ReadsAs("1.5k", "1.5k", "1.5k", 1.5, 1000.0);
    assert Times(1.5, 1000.0) == 1500 as real;
    RoundWhole(1500);
  }

  lemma ThousandsSuffix()
    ensures RemoveCommas("1.5k") == "1.5k" && Multiplier("1.5k") == 1000.0
  {
    var s := "1.5k";
    assert s == ['1', '.', '5', 'k'];
    assert ',' !in s && 'b' !in s && 'm' !in s && 'k' in s;
  }

  lemma OneAndAHalfFloat()
    ensures ParseFloat("1.5k") == Some(1.5)
  {
    OneAndAHalfSplit();
    ParseNumeral("1", "5", "k");
    OneAndAHalfDecimal();
  }

  lemma OneAndAHalfSplit()
    ensures "1" + "." + "5" + "k" == "1.5k" && AllDigits("1") && AllDigits("5")
  {
    var t := "1" + "." + "5" + "k";
    assert |t| == 4 && t[0] == '1' && t[1] == '.' && t[2] == '5' && t[3] == 'k';
  }

  lemma OneAndAHalfDecimal()
    ensures DecimalValue("1", "5") == 1.5
  {
    var w, f := "1", "5";
    assert DigitsValue(w) == 1 by { assert w[..0] == []; }
    assert DigitsValue(f) == 5 by { assert f[..0] == []; }
    assert Pow10(|f|) == 10;
  }

  /** "2m" reads as 2000000. */
  lemma ParseExampleM()
    ensures ParseVolumeInput(Text("2m")) == Some(2000000.0)
  {
    AlreadyTrimmed("2m");
    MillionsSuffix();
    TwoFloat();
    ReadsAs("2m", "2m", "2m", 2.0, 1000000.0);
    assert Times(2.0, 1000000.0) == 2000000 as real;
    RoundWhole(2000000);
  }

  lemma MillionsSuffix()
    ensures RemoveCommas("2m") == "2m" && Multiplier("2m") == 1000000.0
  {
    var s := "2m";
    assert s == ['2', 'm'];
    assert ',' !in s && 'b' !in s && 'm' in s;
  }

  lemma TwoFloat()
    ensures ParseFloat("2m") == Some(2.0)
  {
    assert DigitsValue("2") == 2 by { assert "2"[..0] == []; }
    ParseDigits("2", "m");
    var t := "2" + "m";
    assert t == "2m" by { assert |t| == 2 && t[0] == '2' && t[1] == 'm'; }
  }

  /** "1b" reads as 1000000000. */
  lemma ParseExampleB()
    ensures ParseVolumeInput(Text("1b")) == Some(1000000000.0)
  {
    AlreadyTrimmed("1b");
    BillionsSuffix();
    OneFloat();
    ReadsAs("1b", "1b", "1b", 1.0, 1000000000.0);
    assert Times(1.0, 1000000000.0) == 1000000000 as real;
    RoundWhole(1000000000);
  }

  lemma BillionsSuffix()
    ensures RemoveCommas("1b") == "1b" && Multiplier("1b") == 1000000000.0
  {
    var s := "1b";
    assert s == ['1', 'b'];
    assert ',' !in s && 'b' in s;
  }

  lemma OneFloat()
    ensures ParseFloat("1b") == Some(1.0)
  {
    assert DigitsValue("1") == 1 by { assert "1"[..0] == []; }
    ParseDigits("1", "b");
    var t := "1" + "b";
    assert t == "1b" by { assert |t| == 2 && t[0] == '1' && t[1] == 'b'; }
  }

  /** "1,000" reads as 1000: the thousands separator is dropped. */
  lemma ParseExampleComma()
    ensures ParseVolumeInput(Text("1,000")) == Some(1000.0)
  {
    CommaSplit();
    ParseIgnoresComma("1", "000");
    ParseExampleThousand();
  }

  lemma CommaSplit()
    ensures "1" + "," + "000" == "1,000" && "1" + "000" == "1000"
  {
    var t, u := "1" + "," + "000", "1" + "000";
    assert |t| == 5 && t[0] == '1' && t[1] == ',' && t[2] == '0' && t[3] == '0' && t[4] == '0';
    assert |u| == 4 && u[0] == '1' && u[1] == '0' && u[2] == '0' && u[3] == '0';
  }

  /** "  500  " reads as 500: the spaces around it are trimmed. */
  lemma ParseExamplePadded()
    ensures ParseVolumeInput(Text("  500  ")) == Some(500.0)
  {
    PaddingSplit();
    ParseIgnoresSurroundingWhitespace("  ", "500", "  ");
    ParseExampleFiveHundred();
  }

  lemma PaddingSplit()
    ensures "  " + "500" + "  " == "  500  " && AllWhitespace("  ")
  {
    var t := "  " + "500" + "  ";
    assert |t| == 7 && t[0] == ' ' && t[1] == ' ' && t[2] == '5' && t[3] == '0' && t[4] == '0' && t[5] == ' ' && t[6] == ' ';
  }

  /** "abc" reads as null: no number starts it. */
  lemma ParseExampleLetters()
    ensures ParseVolumeInput(Text("abc")) == None
  {
    AlreadyTrimmed("abc");
    LettersFloat();
  }

  lemma LettersFloat()
    ensures RemoveCommas("abc") == "abc" && ParseFloat("abc") == None
  {
    assert TrimStart("abc") == "abc";
    assert DigitRun("abc") == 0;
  }

  /** "" reads as null. */
  lemma ParseExampleEmpty()
    ensures ParseVolumeInput(Text("")) == None
  {
    assert Trim(ToLower("")) == "";
  }

  // ================================================== formatting lemmas

  /** The volume a tiered display stands for: the scaled value rounded to
      the decimals shown, times the unit of the suffix. */
  function ShownAmount(d: Shown): real
    requires d.Tiered? && d.scaled >= 0.0
  {
    Times(FixedValue(d.scaled, d.decimals), TierUnit(d.suffix))
  }

  /** A numeral followed by a lower-cased suffix letter has no comma and
      the multiplier that stands for the suffix's unit. */
  lemma SuffixedNumeral(t: string, suffix: char)
    requires AllNumeralChars(t) && suffix in "BMK"
    ensures var c := LowerChar(suffix);
      c in "bmk" && !IsDigit(c) && c != '.' && !IsWhitespace(c)
    ensures var l := t + [LowerChar(suffix)];
      RemoveCommas(l) == l && Multiplier(l) == TierUnit(suffix)
  {
    assert 'b' !in t && 'm' !in t && 'k' !in t && ',' !in t;
    var c := LowerChar(suffix);
    if suffix == 'B' {
      assert c == 'b';
    } else if suffix == 'M' {
      assert c == 'm';
    } else {
      assert c == 'k';
    }
    assert ',' !in t + [c];
  }

  /** A numeral followed by a suffix letter reads, through
      `parseVolumeInput`, as what `parseFloat` makes of it times the
      suffix's unit, rounded to a whole number. */
  lemma SuffixedReads(t: string, suffix: char, num: real)
    requires |t| >= 1 && IsDigit(t[0]) && AllNumeralChars(t) && suffix in "BMK"
    requires ParseFloat(t + [LowerChar(suffix)]) == Some(num)
    ensures ParseVolumeInput(Text(t + [suffix])) == Some(Round(Times(num, TierUnit(suffix))) as real)
  {
    var c := LowerChar(suffix);
    var l := t + [c];
    SuffixedNumeral(t, suffix);
    LowerSuffixed(t, suffix);
    assert Trim(l) == l by {
      TrimNothing(l);
    }
    ReadsAs(t + [suffix], l, l, num, TierUnit(suffix));
  }

  /** Lower-casing a numeral and a suffix lower-cases the suffix only. */
  lemma LowerSuffixed(t: string, suffix: char)
    requires AllNumeralChars(t)
    ensures ToLower(t + [suffix]) == t + [LowerChar(suffix)]
  {
    ToLowerAppend(t, [suffix]);
    NumeralLower(t);
    assert |ToLower([suffix])| == 1 && ToLower([suffix])[0] == LowerChar(suffix);
  }

  /** A `toFixed` numeral followed by a suffix letter reads back as the
      value `toFixed` shows times the suffix's unit, rounded. */
  lemma SuffixedReadsBack(x: real, f: nat, suffix: char)
    requires x >= 0.0 && f >= 1 && suffix in "BMK"
    ensures ParseVolumeInput(Text(ToFixed(x, f) + [suffix]))
      == Some(Round(Times(FixedValue(x, f), TierUnit(suffix))) as real)
  {
    ToFixedChars(x, f);
    SuffixedNumeral([], suffix);
    ParseToFixed(x, f, [LowerChar(suffix)]);
    SuffixedReads(ToFixed(x, f), suffix, FixedValue(x, f));
  }

  /** What `formatVolume` writes from 1000 on: the scaled value with its
      decimals, then the suffix. */
  lemma TieredText(v: real)
    requires v >= 1000.0
    ensures var d := Display(Some(v));
      FormatVolume(Some(v)) == ToFixed(d.scaled, d.decimals) + [d.suffix]
  {
  }

  /** What `formatVolume` writes from 1000 on reads back, through
      `parseVolumeInput`, as the shown amount rounded to a whole number. */
  lemma TieredReadsBack(v: real)
    requires v >= 1000.0
    ensures var d := Display(Some(v));
      ParseVolumeInput(Text(FormatVolume(Some(v)))) == Some(Round(ShownAmount(d)) as real)
  {
    var d := Display(Some(v));
    TieredText(v);
    SuffixedReadsBack(d.scaled, d.decimals, d.suffix);
  }

  /** A whole number `q` of whole units rounds to itself. */
  lemma WholeRound(v: real, unit: real, q: real)
    requires IsWhole(unit) && IsWhole(q) && q * unit == v
    ensures Round(v) as real == v
  {
    var f := q.Floor;
    var u := unit.Floor;
    assert v == (f * u) as real;
    RoundWhole(f * u);
  }

  /** A value within `half` of `v`, and equal to it when `v` is a whole
      number `q` of `unit`s, rounds to within `half` plus one half of `v`,
      and to `v` itself in the whole case. */
  lemma RoundedNear(v: real, a: real, half: real, unit: real, q: real)
    requires IsWhole(unit) && q * unit == v
    requires v - half < a <= v + half
    requires IsWhole(q) ==> a == v
    ensures v - half - 0.5 < Round(a) as real <= v + half + 0.5
    ensures IsWhole(q) ==> Round(a) as real == v
  {
    if IsWhole(q) {
      WholeRound(v, unit, q);
    }
  }

  /** The resolutions of the three tiers are whole numbers. */
  lemma StepsWhole()
    ensures IsWhole(10000000.0) && IsWhole(100000.0) && IsWhole(100.0)
  {
    assert (10000000.0).Floor == 10000000;
    assert (100000.0).Floor == 100000;
    assert (100.0).Floor == 100;
  }

  lemma BillionsDisplay(v: real)
    requires 1000000000.0 <= v
    ensures var d := Display(Some(v));
      d == Tiered(v / 1000000000.0, 2, 'B')
  {
  }

  /** The billions tier shows `v` to the nearest 10000000. */
  lemma BillionsAmount(v: real)
    requires 1000000000.0 <= v
    ensures var a := ShownAmount(Display(Some(v)));
      v - 5000000.0 < a <= v + 5000000.0 && (IsWhole(v / 10000000.0) ==> a == v)
  {
    BillionsDisplay(v);
    var x := v / 1000000000.0;
    assert Pow10(2) == 100;
    var n := ScaledRound(x, 100);
    var y := x * 100.0;
    assert y == v / 10000000.0;
    assert FixedValue(x, 2) == n as real / 100.0;
    assert Times(n as real / 100.0, 1000000000.0) == n as real * 10000000.0;
    if IsWhole(y) {
      RoundWhole(y.Floor);
    }
  }

  lemma MillionsDisplay(v: real)
    requires 1000000.0 <= v < 1000000000.0
    ensures var d := Display(Some(v));
      d == Tiered(v / 1000000.0, 1, 'M')
  {
  }

  /** The millions tier shows `v` to the nearest 100000. */
  lemma MillionsAmount(v: real)
    requires 1000000.0 <= v < 1000000000.0
    ensures var a := ShownAmount(Display(Some(v)));
      v - 50000.0 < a <= v + 50000.0 && (IsWhole(v / 100000.0) ==> a == v)
  {
    MillionsDisplay(v);
    var x := v / 1000000.0;
    assert Pow10(1) == 10;
    var n := ScaledRound(x, 10);
    var y := x * 10.0;
    assert y == v / 100000.0;
    assert FixedValue(x, 1) == n as real / 10.0;
    assert Times(n as real / 10.0, 1000000.0) == n as real * 100000.0;
    if IsWhole(y) {
      RoundWhole(y.Floor);
    }
  }

  lemma ThousandsDisplay(v: real)
    requires 1000.0 <= v < 1000000.0
    ensures var d := Display(Some(v));
      d == Tiered(v / 1000.0, 1, 'K')
  {
  }

  /** The thousands tier shows `v` to the nearest 100. */
  lemma ThousandsAmount(v: real)
    requires 1000.0 <= v < 1000000.0
    ensures var a := ShownAmount(Display(Some(v)));
      v - 50.0 < a <= v + 50.0 && (IsWhole(v / 100.0) ==> a == v)
  {
    ThousandsDisplay(v);
    var x := v / 1000.0;
    assert Pow10(1) == 10;
    var n := ScaledRound(x, 10);
    var y := x * 10.0;
    assert y == v / 100.0;
    assert FixedValue(x, 1) == n as real / 10.0;
    assert Times(n as real / 10.0, 1000.0) == n as real * 100.0;
    if IsWhole(y) {
      RoundWhole(y.Floor);
    }
  }

  /** A numeral without surrounding white space passes the first stages
      of `parseVolumeInput` unchanged, with no multiplier. */
  lemma PlainNumeral(t: string)
    requires |t| >= 1 && AllNumeralChars(t)
    requires !IsWhitespace(t[0]) && !IsWhitespace(t[|t| - 1])
    ensures Trim(ToLower(t)) == t && RemoveCommas(t) == t && Multiplier(t) == 1.0
  {
    NumeralLower(t);
    TrimNothing(t);
    assert 'b' !in t && 'm' !in t && 'k' !in t && ',' !in t;
  }

  /** Below 1000 `formatVolume` writes the whole volume's digits. */
  lemma PlainFormat(v: real)
    requires v < 1000.0 && IsWhole(v)
    ensures FormatVolume(Some(v)) == IntToString(v.Floor)
  {
  }

  /** What `formatVolume` writes below 1000 reads back as the volume. */
  lemma PlainReadsBack(v: real)
    requires v < 1000.0 && IsWhole(v)
    ensures ParseVolumeInput(Text(FormatVolume(Some(v)))) == Some(v)
  {
    PlainFormat(v);
    IntReadsBack(v.Floor);
  }

  /** An integer written by `toString` reads back as itself. */
  lemma IntReadsBack(i: int)
    ensures ParseVolumeInput(Text(IntToString(i))) == Some(i as real)
  {
    var t := IntToString(i);
    assert Trim(ToLower(t)) == t && RemoveCommas(t) == t && Multiplier(t) == 1.0 && t != [] by {
      IntToStringChars(i);
      PlainNumeral(t);
    }
    assert ParseFloat(t) == Some(i as real) by {
      ParseIntToString(i, []);
      assert t + [] == t;
    }
    ReadsAs(t, t, t, i as real, 1.0);
    assert Times(i as real, 1.0) == i as real;
    RoundWhole(i);
  }

  /** The billions tier's shown amount, rounded to a whole number, is
      within 5000000.5 of the volume, and is the volume on a whole number of
      ten millions. */
  lemma BillionsRounded(v: real)
    requires 1000000000.0 <= v
    ensures var a := Round(ShownAmount(Display(Some(v)))) as real;
      v - 5000000.0 - 0.5 < a <= v + 5000000.0 + 0.5 && (IsWhole(v / 10000000.0) ==> a == v)
  {
    BillionsAmount(v);
    StepsWhole();
    RoundedNear(v, ShownAmount(Display(Some(v))), 5000000.0, 10000000.0, v / 10000000.0);
  }

  /** The billions tier reads back to within 5000000 (plus the final
      rounding), and exactly on a whole number of ten millions. */
  lemma BillionsReadBack(v: real)
    requires 1000000000.0 <= v
    ensures var r := ParseVolumeInput(Text(FormatVolume(Some(v))));
      r.Some? && v - 5000000.0 - 0.5 < r.value <= v + 5000000.0 + 0.5
      && (IsWhole(v / 10000000.0) ==> r.value == v)
  {
    TieredReadsBack(v);
    BillionsRounded(v);
  }

  /** The millions tier's shown amount, rounded to a whole number, is
      within 50000.5 of the volume, and is the volume on a whole number of
      hundred thousands. */
  lemma MillionsRounded(v: real)
    requires 1000000.0 <= v < 1000000000.0
    ensures var a := Round(ShownAmount(Display(Some(v)))) as real;
      v - 50000.0 - 0.5 < a <= v + 50000.0 + 0.5 && (IsWhole(v / 100000.0) ==> a == v)
  {
    MillionsAmount(v);
    StepsWhole();
    RoundedNear(v, ShownAmount(Display(Some(v))), 50000.0, 100000.0, v / 100000.0);
  }

  /** The millions tier reads back to within 50000 (plus the final
      rounding), and exactly on a whole number of hundred thousands. */
  lemma MillionsReadBack(v: real)
    requires 1000000.0 <= v < 1000000000.0
    ensures var r := ParseVolumeInput(Text(FormatVolume(Some(v))));
      r.Some? && v - 50000.0 - 0.5 < r.value <= v + 50000.0 + 0.5
      && (IsWhole(v / 100000.0) ==> r.value == v)
  {
    TieredReadsBack(v);
    MillionsRounded(v);
  }

  /** The thousands tier's shown amount, rounded to a whole number, is
      within 50.5 of the volume, and is the volume on a whole number of
      hundreds. */
  lemma ThousandsRounded(v: real)
    requires 1000.0 <= v < 1000000.0
    ensures var a := Round(ShownAmount(Display(Some(v)))) as real;
      v - 50.0 - 0.5 < a <= v + 50.0 + 0.5 && (IsWhole(v / 100.0) ==> a == v)
  {
    ThousandsAmount(v);
    StepsWhole();
    RoundedNear(v, ShownAmount(Display(Some(v))), 50.0, 100.0, v / 100.0);
  }

  /** The thousands tier reads back to within 50 (plus the final
      rounding), and exactly on a whole number of hundreds. */
  lemma ThousandsReadBack(v: real)
    requires 1000.0 <= v < 1000000.0
    ensures var r := ParseVolumeInput(Text(FormatVolume(Some(v))));
      r.Some? && v - 50.0 - 0.5 < r.value <= v + 50.0 + 0.5
      && (IsWhole(v / 100.0) ==> r.value == v)
  {
    TieredReadsBack(v);
    ThousandsRounded(v);
  }

  /** `formatVolume` then `parseVolumeInput` always gives a number: a
      whole volume below 1000 comes back as it was; from 1000 on, the volume
      comes back to within half a unit of the last digit shown (10000000,
      100000 or 100 by tier) plus the final rounding to a whole number, and
      exactly when it is a whole number of those units. */
  lemma FormatThenParse(v: real)
    requires v < 1000.0 ==> IsWhole(v)
    ensures var r := ParseVolumeInput(Text(FormatVolume(Some(v))));
      r.Some? && (v < 1000.0 ==> r.value == v)
    ensures var r := ParseVolumeInput(Text(FormatVolume(Some(v))));
      1000000000.0 <= v ==>
        r.Some? && v - 5000000.0 - 0.5 < r.value <= v + 5000000.0 + 0.5
        && (IsWhole(v / 10000000.0) ==> r.value == v)
    ensures var r := ParseVolumeInput(Text(FormatVolume(Some(v))));
      1000000.0 <= v < 1000000000.0 ==>
        r.Some? && v - 50000.0 - 0.5 < r.value <= v + 50000.0 + 0.5
        && (IsWhole(v / 100000.0) ==> r.value == v)
    ensures var r := ParseVolumeInput(Text(FormatVolume(Some(v))));
      1000.0 <= v < 1000000.0 ==>
        r.Some? && v - 50.0 - 0.5 < r.value <= v + 50.0 + 0.5
        && (IsWhole(v / 100.0) ==> r.value == v)
  {
    if v < 1000.0 {
      PlainReadsBack(v);
    } else if v >= 1000000000.0 {
      BillionsReadBack(v);
    } else if v >= 1000000.0 {
      MillionsReadBack(v);
    } else {
      ThousandsReadBack(v);
    }
  }

  // ---------------------------------------- worked examples of formatting

  /** 1500000 is shown as "1.5M". */
  lemma FormatExampleMillions()
    ensures FormatVolume(Some(1500000.0)) == "1.5M"
  {
    MillionsDisplay(1500000.0);
    FixedDigits(15, 1, 5);
  }

  /** 2500 is shown as "2.5K". */
  lemma FormatExampleThousands()
    ensures FormatVolume(Some(2500.0)) == "2.5K"
  {
    ThousandsDisplay(2500.0);
    FixedDigits(25, 2, 5);
  }

  /** 2000000000 is shown as "2.00B". */
  lemma FormatExampleBillions()
    ensures FormatVolume(Some(2000000000.0)) == "2.00B"
  {
    BillionsDisplay(2000000000.0);
    TwoToFixed();
  }

  /** `(2).toFixed(2)` is "2.00". */
  lemma TwoToFixed()
    ensures ToFixed(2.0, 2) == "2.00"
  {
    RoundWhole(200);
    assert ScaledRound(2.0, Pow10(2)) == 200;
    TwoHundredths();
  }

  /** The numeral of 200 hundredths. */
  lemma TwoHundredths()
    ensures FixedNumeral(200, 2) == "2.00"
  {
    Hundredths(200, 2, 0);
    assert NatToString(0) == "0";
    assert PadStart("0", 2) == "00";
  }

  /** The numeral of `n` hundredths, split into its whole part `w` and its
      hundredths `c`. */
  lemma Hundredths(n: nat, w: nat, c: nat)
    requires c < 100 && n == 100 * w + c
    ensures FixedNumeral(n, 2) == NatToString(w) + "." + PadStart(NatToString(c), 2)
  {
    assert Pow10(2) == 100;
    DivMod(n, 100);
    assert n / 100 == w && n % 100 == c;
  }

  /** 500 is shown as "500". */
  lemma FormatExamplePlain()
    ensures FormatVolume(Some(500.0)) == "500"
  {
    assert NatToString(500) == NatToString(50) + "0";
    assert NatToString(50) == NatToString(5) + "0";
  }

  /** `toFixed(1)` of a value `n / 10` with one-digit whole part `w` and
      tenth `d`. */
  lemma FixedDigits(n: nat, w: nat, d: nat)
    requires w < 10 && d < 10 && n == 10 * w + d
    ensures ToFixed(n as real / 10.0, 1) == [DigitChar(w), '.', DigitChar(d)]
  {
    RoundWhole(n);
    assert n as real / 10.0 * 10.0 == n as real;
    assert ScaledRound(n as real / 10.0, 10) == n;
    DivMod(n, 10);
    assert n / 10 == w && n % 10 == d;
  }
}
