# Intraday volume analyzer — a Dafny model of its calculation core

The intraday volume analyzer compares a stock's trading volume during the
day with the volume its 50-day average predicts for that time of day. This
project models, and proves properties of, the part that does the
computing:

* **The expected-volume curve.** The session table gives the cumulative
  share of the daily volume at each half hour from 09:30 to 16:00. The
  hook's `getExpectedVolumeAtTime` interpolates along it. From it,
  `getIndividualVolumeAtTime` derives each five-minute slot's volume and
  `getCurrentExpected` derives the step-wise "expected by now".
* **Simple mode.** One point per table anchor: the expected volume, and
  the current volume extrapolated along the curve.
* **Advanced mode.** One record per five-minute slot from 08:00 to 16:55,
  built from the per-slot entries the user types.
  * `calculateVolumeProjection` derives the actual-to-expected ratio and a
    projected daily volume.
  * `smoothInterpolation` plots the observed cumulative volume up to the
    last entry. After it, the plot blends toward the projection over one
    hour.
* **The formatters.**
  * `parseVolumeInput`: "1,000", " 1.5k ", "2M" and "1b" are accepted.
  * `formatVolume`: B/M/K tiers with `toFixed`.
  * `getMarketStatus`.
  * `generateTimeSlots`.
* **The constants.** The two distribution tables and the open and close
  minutes.

Numbers are `real`s. JavaScript's `Math.round` is `JsRuntime.Round`
(halves round up). Times of day are minutes. Labels "HH:MM" are
`Clock.Label`; `Clock.ClockMinutes` reads a label back the way the hook's
`split(':').map(Number)` does.

Flavour:
* The source's loops are methods proved equal to specification functions:
  the table walks, the projection loop, the two smoothing passes and the
  slot generator.
* The `map` builders and the formatters are functions.
* The properties are lemmas about those functions.

Modules, one file each:

* `Wrappers`: Option.
* `JsRuntime`: the JavaScript built-ins the core relies on:
  * `Math.round`;
  * `toLowerCase`, `trim`, `replace(/,/g, '')` and `padStart`;
  * `toString` and `toFixed`;
  * a `parseFloat` for decimal literals.
* `Clock`: "HH:MM" labels.
* `Constants`: `constants.js`.
* `VolumeCurve`: the three hook-local curve helpers.
* `SimpleMode`: the simple-mode builder.
* `Formatters`: `formatters.js`.
* `AdvancedMode`: the advanced-mode builder, `calculateVolumeProjection`
  and `smoothInterpolation`.

Where this model follows the code rather than the published description
of the design:

* **Plotted prefix.** Up to the last entry, the advanced chart plots the
  running sum of the entries, plus the expected slot volumes of the
  session slots before the first entry. The ratio's numerator counts the
  entries only. `AdvancedMode.ObservedPrefix` and
  `AdvancedMode.ProjectionRatio` state the two as written;
  `AdvancedMode.SingleInputExample` works one case through: 3,000,000
  typed at 10:00 with a 50,000,000 average gives a ratio of 0.3 and a
  projected day of 15,000,000, while the 10:00 point plots 3,000,000
  plus the expected volumes of 09:30 to 09:55.
* **Expected total.** The expected total is the last entry's cumulative
  expected value. The filler before the first entry is only added while
  that total is 0, so it resumes after an entry whose expected value is 0
  or missing. `AdvancedMode.TotalsAtLast` states the value when the last
  entry's expected value is positive.
* **The 16:00 slot.** It is flagged after-market by `generateTimeSlots`,
  yet its expected volume is the whole average. Once a projection exists,
  its plotted actual volume is null (`AdvancedMode.CloseRecord`).

## Model

| member | source | states |
|---|---|---|
| JsRuntime.Round | src/utils/formatters.js:17 | `Math.round` gives the integer within one half of its argument, halves going up |
| JsRuntime.RoundMonotone | src/hooks/useVolumeCalculations.js:266 | rounding keeps order |
| JsRuntime.RoundWhole | src/hooks/useVolumeCalculations.js:100 | rounding a whole number leaves it unchanged |
| JsRuntime.ToLower | src/utils/formatters.js:4 | `toLowerCase` keeps the length and lowers each character |
| JsRuntime.TrimStart | src/utils/formatters.js:4 | trimming removes exactly the leading white space |
| JsRuntime.TrimEnd | src/utils/formatters.js:4 | trimming removes exactly the trailing white space |
| JsRuntime.RemoveCommas | src/utils/formatters.js:8 | no comma is left, every other character is kept, and a text without commas is unchanged |
| JsRuntime.PadStart | src/utils/formatters.js:50 | the result has the padded width: zeros, then the original text |
| JsRuntime.NatToString | src/utils/formatters.js:25 | `toString` of a natural number is decimal digits without a leading zero, worth the number |
| JsRuntime.ScaledRound | src/utils/formatters.js:22-24 | `toFixed` keeps the integer nearest to the value times 10^decimals, within one half of it, the larger one on a tie |
| JsRuntime.ToFixed | src/utils/formatters.js:22-24 | `toFixed(f)` writes a digit first and, for f >= 1, a point followed by exactly f digits; `ParseToFixed` reads it back |
| JsRuntime.FixedNumeralShape | src/utils/formatters.js:22-24 | the whole part, a point and the fraction padded to exactly f digits |
| JsRuntime.ParseToFixed | src/utils/formatters.js:22-24 | `parseFloat` reads a `toFixed` numeral, followed by a suffix, back as the rounded value |
| JsRuntime.ParseIntToString | src/utils/formatters.js:25 | `parseFloat` reads an integer's `toString` back as that integer |
| JsRuntime.ParseDigits | src/utils/formatters.js:9 | `parseFloat` of a digit run, followed by a non-numeral character, is the run's value |
| JsRuntime.ParseFloat | src/utils/formatters.js:9 | `parseFloat` of an empty or all-blank string is NaN; what it reads from a numeral is stated in `ParseNumeral` |
| JsRuntime.ParseNumeral | src/utils/formatters.js:9 | `parseFloat` of `whole.frac`, followed by a non-numeral character, is its decimal value |
| Clock.Pad2IsPadStart | src/utils/formatters.js:50 | a two-digit field is `toString().padStart(2, '0')` |
| Clock.Pad2Digits | src/utils/formatters.js:50 | the two-digit field holds digits worth the number |
| Clock.Label | src/utils/formatters.js:50 | the label is "HH:MM": two digits, a colon and two digits |
| Clock.ClockMinutes | src/hooks/useVolumeCalculations.js:141-142 | a label "HH:MM" stands for the minute HH*60 + MM, each pair of digits read in base ten |
| Clock.TwoDigits | src/hooks/useVolumeCalculations.js:141 | `Number` of two digits is ten times the first plus the second |
| Clock.LabelMinutes | src/hooks/useVolumeCalculations.js:141-142 | splitting a label at the colon gives back hour*60 + minute |
| Clock.LabelAtMinutes | src/hooks/useVolumeCalculations.js:194-197 | the label built for a minute of the day reads back as that minute |
| Constants.VolumeDistributionShape | src/utils/constants.js:1-16 | 14 anchors 30 minutes apart from 09:30 (570) to 16:00 (960), strictly rising from 0.12 to 1.0 |
| Constants.PremarketDistributionShape | src/utils/constants.js:22-44 | 18 entries five minutes apart from 08:00 to 09:25, strictly rising from 0.001 to 0.022, all below the session's first share; the last is five minutes before the open |
| VolumeCurve.FirstAtOrAfter | src/hooks/useVolumeCalculations.js:152-156 | the search stops at the first anchor at or after the minute, every earlier anchor being before it |
| VolumeCurve.ExpectedVolumeAt | src/hooks/useVolumeCalculations.js:144-149 | the expected cumulative volume is null exactly before 09:30 and after 16:00 |
| VolumeCurve.GetExpectedVolumeAtTime | src/hooks/useVolumeCalculations.js:140-175 | the loop of `getExpectedVolumeAtTime` computes the expected cumulative volume |
| VolumeCurve.WalkTable | src/hooks/useVolumeCalculations.js:152-174 | the table walk gives the average times the interpolated share |
| VolumeCurve.IndividualVolumeAt | src/hooks/useVolumeCalculations.js:182-187 | the slot volume is null exactly before 09:30 and after 16:00 |
| VolumeCurve.GetCurrentExpected | src/hooks/useVolumeCalculations.js:211-225 | the loop of `getCurrentExpected` computes the step-wise expected volume |
| VolumeCurve.LookupFromFound | src/hooks/useVolumeCalculations.js:152-174 | the lookup is the first anchor's share at or before it, the straight line from the previous anchor after it, and 1.0 past the table |
| VolumeCurve.StepFromFound | src/hooks/useVolumeCalculations.js:216-224 | the step search gives the share of the first anchor at or after the minute, or the whole average past the table |
| VolumeCurve.SearchStopsAt | src/hooks/useVolumeCalculations.js:156 | on a rising table the search stops at the anchor whose segment holds the minute |
| VolumeCurve.InterpolateAtEnd | src/hooks/useVolumeCalculations.js:164-168 | the straight line reaches the later anchor's share at its minute |
| VolumeCurve.InterpolateWithin | src/hooks/useVolumeCalculations.js:164-168 | on a rising segment the interpolation rises and stays between the two shares |
| VolumeCurve.LookupAtAnchor | src/hooks/useVolumeCalculations.js:156-170 | at an anchor's own minute the lookup is that anchor's share |
| VolumeCurve.LookupBetween | src/hooks/useVolumeCalculations.js:156-170 | between two neighbouring anchors the lookup is the line joining them |
| VolumeCurve.LookupInSegment | src/hooks/useVolumeCalculations.js:156-170 | the lookup lies between the shares of the anchors around the minute |
| VolumeCurve.LookupBounds | src/hooks/useVolumeCalculations.js:152-172 | the lookup lies between the first and the last share |
| VolumeCurve.LookupMonotone | src/hooks/useVolumeCalculations.js:152-172 | the lookup never decreases with the minute |
| VolumeCurve.ShareMonotone | src/hooks/useVolumeCalculations.js:170 | for a non-negative average the expected volume never decreases |
| VolumeCurve.ShareBounds | src/hooks/useVolumeCalculations.js:157-170 | the expected volume lies between the first and the last anchor's volume |
| VolumeCurve.ShareBelowStep | src/hooks/useVolumeCalculations.js:216-224 | the interpolated expectation never exceeds the step-wise one |
| VolumeCurve.StepPastLast | src/hooks/useVolumeCalculations.js:224 | past the last anchor the step search gives the whole average |
| VolumeCurve.FallThroughUnreachable | src/hooks/useVolumeCalculations.js:174 | within the session the search always finds an anchor, so the final `return avgVolume50Day` is never reached |
| VolumeCurve.FractionAtAnchor | src/hooks/useVolumeCalculations.js:157-170 | at each session anchor the share is the table's |
| VolumeCurve.FractionBetweenAnchors | src/hooks/useVolumeCalculations.js:159-170 | between session anchors the share is their straight line |
| VolumeCurve.FractionBounds | src/hooks/useVolumeCalculations.js:144-172 | during the session the share lies between 0.12 and 1.0 |
| VolumeCurve.FractionMonotone | src/hooks/useVolumeCalculations.js:144-172 | during the session the share never decreases |
| VolumeCurve.ExpectedAtAnchor | src/hooks/useVolumeCalculations.js:157-170 | at an anchor the expected volume is the average times its share |
| VolumeCurve.ExpectedMonotone | src/hooks/useVolumeCalculations.js:140-175 | for a non-negative average the expected cumulative volume never decreases during the session |
| VolumeCurve.ExpectedBounds | src/hooks/useVolumeCalculations.js:140-175 | the expected cumulative volume lies between 12% of the average and the average |
| VolumeCurve.ExpectedAtClose | src/hooks/useVolumeCalculations.js:157-170 | at 16:00 the expected cumulative volume is the whole average |
| VolumeCurve.IndividualIsDifference | src/hooks/useVolumeCalculations.js:189-208 | a slot's volume is the cumulative volume at 09:30, and afterwards the difference from five minutes earlier |
| VolumeCurve.IndividualNonNegative | src/hooks/useVolumeCalculations.js:178-209 | slot volumes are never negative for a non-negative average |
| VolumeCurve.IndividualTelescopes | src/hooks/useVolumeCalculations.js:194-208 | the slot volumes from 09:30 add up to the cumulative volume |
| VolumeCurve.SessionAddsUpToAverage | src/hooks/useVolumeCalculations.js:178-209 | the 79 slot volumes of the session add up to the whole average |
| VolumeCurve.CurrentExpectedBeforeOpen | src/hooks/useVolumeCalculations.js:216-222 | up to 09:30 the expected volume now is 12% of the average |
| VolumeCurve.CurrentExpectedAfterClose | src/hooks/useVolumeCalculations.js:224 | after 16:00 it is the whole average |
| VolumeCurve.CurrentExpectedStep | src/hooks/useVolumeCalculations.js:216-222 | after one anchor and up to the next, it is the next anchor's share of the average |
| VolumeCurve.CurrentExpectedAboveCurve | src/hooks/useVolumeCalculations.js:211-225 | during the session it is never below the interpolated curve |
| VolumeCurve.CurrentExpectedAtAnchor | src/hooks/useVolumeCalculations.js:211-225 | at an anchor it equals the interpolated curve |
| SimpleMode.CurrentPct | src/hooks/useVolumeCalculations.js:245-258 | the share used to extrapolate is never zero |
| SimpleMode.FindFound | src/hooks/useVolumeCalculations.js:250-254 | `find` returns the first anchor at or after the current minute |
| SimpleMode.CurrentPctInSession | src/hooks/useVolumeCalculations.js:247-254 | during the session the share is that of the first anchor at or after now |
| SimpleMode.CurrentPctBounds | src/hooks/useVolumeCalculations.js:245-258 | before the open the share is 0.12, after the close it is 1.0, and it always lies between them |
| SimpleMode.CurrentPctIsCurrentExpected | src/hooks/useVolumeCalculations.js:245-258 | the simple chart's share times the average is `getCurrentExpected` |
| SimpleMode.PointsShape | src/hooks/useVolumeCalculations.js:234-269 | one point per anchor, labelled with its time, with the rounded expected volume |
| SimpleMode.PointAtActual | src/hooks/useVolumeCalculations.js:240-267 | a point has an actual volume exactly when the current volume is positive: the rounded extrapolation |
| SimpleMode.PointActual | src/hooks/useVolumeCalculations.js:260-267 | the same, for the k-th point of a built chart |
| SimpleMode.PointOnPace | src/hooks/useVolumeCalculations.js:261-267 | a volume exactly on pace plots the expected curve |
| SimpleMode.SimpleChartShape | src/hooks/useVolumeCalculations.js:234-269 | the simple chart has 14 points at the anchors' times with the rounded expected volumes |
| SimpleMode.SimpleChartPoint | src/hooks/useVolumeCalculations.js:264-268 | the k-th point carries the k-th anchor's time and rounded expected volume |
| SimpleMode.SimpleChart | src/hooks/useVolumeCalculations.js:234-269 | the simple chart has one point per distribution point; its values are stated in `SimpleActual` and `SimpleOnPace` |
| SimpleMode.SimpleActual | src/hooks/useVolumeCalculations.js:243-267 | the k-th point's actual volume is the current volume divided by the current share, times its share, rounded |
| SimpleMode.SimpleOnPace | src/hooks/useVolumeCalculations.js:243-267 | when the current volume is what `getCurrentExpected` predicts, actual equals expected at every point |
| SimpleMode.SimpleProjectedTotal | src/hooks/useVolumeCalculations.js:261 | the 16:00 point projects the current volume divided by the current share |
| SimpleMode.SimpleExpectedRises | src/hooks/useVolumeCalculations.js:238-266 | the expected volumes rise along the chart |
| SimpleMode.SimpleNoonExpected | src/hooks/useVolumeCalculations.js:238-266 | with a 50M average, the 12:00 point expects 19.5M |
| SimpleMode.SimpleNoonProjected | src/hooks/useVolumeCalculations.js:245-267 | 19.5M traded by 12:00 projects 50M at 16:00 |
| Formatters.Multiplier | src/utils/formatters.js:13-15 | the suffix test: 'b' before 'm' before 'k', otherwise 1 |
| Formatters.ParseVolumeInput | src/utils/formatters.js:1-18 | a number is returned as is; text reads as a whole number or null |
| Formatters.ReadTrimmed | src/utils/formatters.js:8-17 | a non-empty trimmed text reads as a whole number or null |
| Formatters.ReadClean | src/utils/formatters.js:9-17 | a comma-free text reads as a whole number or null |
| Formatters.ParseNull | src/utils/formatters.js:5-11 | the result is null exactly for text that is blank or has no leading number |
| Formatters.ParseIgnoresCase | src/utils/formatters.js:4 | upper and lower case read alike |
| Formatters.ParseIgnoresSurroundingWhitespace | src/utils/formatters.js:4 | surrounding white space is ignored |
| Formatters.TrimSurrounded | src/utils/formatters.js:4 | `trim` removes white space added on both sides |
| Formatters.ParseIgnoresComma | src/utils/formatters.js:7-8 | a comma inside the text is ignored |
| Formatters.RemoveCommasAppend | src/utils/formatters.js:8 | comma removal distributes over concatenation |
| Formatters.ReadsAs | src/utils/formatters.js:4-17 | the reading is the rounded product of the parsed number and the suffix multiplier |
| Formatters.ParseExampleThousand | src/utils/formatters.js:1-18 | "1000" reads as 1000 |
| Formatters.ParseExampleZero | src/utils/formatters.js:1-18 | "0" reads as 0 |
| Formatters.ParseExampleFiveHundred | src/utils/formatters.js:1-18 | "500" reads as 500 |
| Formatters.ParseExampleK | src/utils/formatters.js:15 | "1.5k" reads as 1500 |
| Formatters.ParseExampleM | src/utils/formatters.js:14 | "2m" reads as 2000000 |
| Formatters.ParseExampleB | src/utils/formatters.js:13 | "1b" reads as 1000000000 |
| Formatters.ParseExampleComma | src/utils/formatters.js:8 | "1,000" reads as 1000 |
| Formatters.ParseExamplePadded | src/utils/formatters.js:4 | "  500  " reads as 500 |
| Formatters.ParseExampleLetters | src/utils/formatters.js:9-11 | "abc" reads as null |
| Formatters.ParseExampleEmpty | src/utils/formatters.js:5 | "" reads as null |
| Formatters.Display | src/utils/formatters.js:20-25 | null shows N/A; B with 2 decimals from 1e9, M with 1 from 1e6, K with 1 from 1e3, the plain value below, the scaled value times the unit being the volume |
| Formatters.FormatVolume | src/utils/formatters.js:20-26 | "N/A" for null; from 1000 on, a digit first and a B, M or K suffix last; `FormatThenParse` reads every result back |
| Formatters.TieredText | src/utils/formatters.js:22-24 | a tiered volume is written as `toFixed` of the scaled value followed by the suffix |
| Formatters.SuffixedReadsBack | src/utils/formatters.js:22-24 | a `toFixed` numeral with a B/M/K suffix reads back as the rounded value times the unit |
| Formatters.TieredReadsBack | src/utils/formatters.js:22-24 | a formatted tiered volume reads back as the rounded shown amount |
| Formatters.BillionsDisplay | src/utils/formatters.js:22 | from 1e9 the volume is shown in billions with 2 decimals |
| Formatters.MillionsDisplay | src/utils/formatters.js:23 | from 1e6 to 1e9 it is shown in millions with 1 decimal |
| Formatters.ThousandsDisplay | src/utils/formatters.js:24 | from 1e3 to 1e6 it is shown in thousands with 1 decimal |
| Formatters.BillionsAmount | src/utils/formatters.js:22 | the billions tier shows the volume to within 5M, exactly when it is a multiple of 10M |
| Formatters.MillionsAmount | src/utils/formatters.js:23 | the millions tier shows the volume to within 50K, exactly when it is a multiple of 100K |
| Formatters.ThousandsAmount | src/utils/formatters.js:24 | the thousands tier shows the volume to within 50, exactly when it is a multiple of 100 |
| Formatters.PlainReadsBack | src/utils/formatters.js:25 | a whole volume below 1000 formats and reads back unchanged |
| Formatters.PlainFormat | src/utils/formatters.js:25 | below 1000 a whole volume is written as its integer's digits |
| Formatters.IntReadsBack | src/utils/formatters.js:1-17 | `parseVolumeInput` reads an integer's `toString` back as that integer, sign included |
| Formatters.BillionsReadBack | src/utils/formatters.js:22 | reading a billions display back gives the volume within 5M, exactly for multiples of 10M |
| Formatters.MillionsReadBack | src/utils/formatters.js:23 | reading a millions display back gives the volume within 50K, exactly for multiples of 100K |
| Formatters.ThousandsReadBack | src/utils/formatters.js:24 | reading a thousands display back gives the volume within 50, exactly for multiples of 100 |
| Formatters.FormatThenParse | src/utils/formatters.js:1-25 | `parseVolumeInput(formatVolume(v))` always reads a number: v itself below 1000, and within each tier's rounding above it |
| Formatters.FormatExampleMillions | src/utils/formatters.js:23 | 1500000 is shown as "1.5M" |
| Formatters.FormatExampleThousands | src/utils/formatters.js:24 | 2500 is shown as "2.5K" |
| Formatters.FormatExampleBillions | src/utils/formatters.js:22 | 2000000000 is shown as "2.00B" |
| Formatters.FormatExamplePlain | src/utils/formatters.js:25 | 500 is shown as "500" |
| Formatters.GetMarketStatus | src/utils/formatters.js:28-43 | exactly one of open, pre-market and after-hours holds, the status text names it, and for a valid minute they are the ranges before 09:30, from 09:30 to before 16:00, and from 16:00 |
| Formatters.GenerateTimeSlots | src/utils/formatters.js:45-60 | the nested loops produce the slot grid |
| Formatters.HourPrefix | src/utils/formatters.js:48-56 | each inner step appends one slot to the hour's slots |
| Formatters.GridBeforeSlots | src/utils/formatters.js:47-58 | after h hours there are 12*(h-8) slots, slot i being hour 8 + i/12 and minute 5*(i%12) |
| Formatters.SlotStatus | src/utils/formatters.js:53-55 | a slot's flags agree with `getMarketStatus` at its time, and market hours means neither pre- nor after-market |
| Formatters.GridSlot | src/utils/formatters.js:45-60 | the grid has 108 slots, slot i at hour 8 + i/12 and minute 5*(i%12) |
| Formatters.GridSlotFacts | src/utils/formatters.js:45-60 | slot i is labelled with minute 480 + 5i; pre-market before 570, after-market from 960 |
| Formatters.TimeGridShape | src/utils/formatters.js:45-60 | 108 labelled slots five minutes apart from "08:00" to "16:55", with their flags |
| Formatters.FirstLastLabels | src/utils/formatters.js:49-50 | the first and last labels are "08:00" and "16:55" |
| AdvancedMode.OrZero | src/hooks/useVolumeCalculations.js:26 | a missing or zero value counts as 0, any other value as itself |
| AdvancedMode.RoundedIfTruthy | src/hooks/useVolumeCalculations.js:283-284 | `x ? Math.round(x) : null` is null exactly for null or 0, else the rounded value |
| AdvancedMode.BuildShape | src/hooks/useVolumeCalculations.js:275-289 | one record per slot, with the slot's time and flags |
| AdvancedMode.BuildData | src/hooks/useVolumeCalculations.js:275-289 | one record per slot, whose input is the slot's parsed entry; the expected volumes are stated in `BuiltExpected` and `BuiltInput` |
| AdvancedMode.BuiltExpected | src/hooks/useVolumeCalculations.js:276-284 | the expected volumes are null outside the session or when 0, else the rounded curve values |
| AdvancedMode.BuiltExpectedPositive | src/hooks/useVolumeCalculations.js:276-283 | for a positive average, the expected volume is present exactly from 09:30 to 16:00 |
| AdvancedMode.BuiltInput | src/hooks/useVolumeCalculations.js:278-285 | a record has an input exactly when its slot's entry is non-empty and readable; the input is whole |
| AdvancedMode.BuiltAverageDivides | src/hooks/useVolumeCalculations.js:103 | with a zero average no expected volume is truthy, so the average is never divided by |
| AdvancedMode.CalculateVolumeProjection | src/hooks/useVolumeCalculations.js:10-56 | the loop of `calculateVolumeProjection` computes the projection |
| AdvancedMode.InputSetsLast | src/hooks/useVolumeCalculations.js:24-27 | once a session input is met, its time is recorded |
| AdvancedMode.NoSessionInput | src/hooks/useVolumeCalculations.js:11-16 | the filter is empty exactly when no session record has an input |
| AdvancedMode.TotalsActual | src/hooks/useVolumeCalculations.js:23-25 | the actual total is the sum of the session inputs |
| AdvancedMode.TotalsAtLast | src/hooks/useVolumeCalculations.js:23-31 | the recorded time is the last session input's, and the expected total is its expected value when that is positive |
| AdvancedMode.ProjectionNull | src/hooks/useVolumeCalculations.js:13-36 | there is no projection exactly when there is no session input or the expected total is not positive |
| AdvancedMode.ProjectionRatio | src/hooks/useVolumeCalculations.js:42-55 | the ratio is the sum of the inputs over the positive expected total at the last input |
| AdvancedMode.ManualOverride | src/hooks/useVolumeCalculations.js:39-54 | a non-empty, readable, nonzero manual volume replaces the average times the ratio, and the flag says so |
| AdvancedMode.SameAccumulators | src/hooks/useVolumeCalculations.js:23-31 | inputs outside the session do not affect the loops' totals |
| AdvancedMode.SamePoint | src/hooks/useVolumeCalculations.js:92-121 | nor any smoothed point |
| AdvancedMode.OffSessionInputsIgnored | src/hooks/useVolumeCalculations.js:11-36 | inputs typed in pre- or after-market slots change neither the projection nor the chart |
| AdvancedMode.RunningAfter | src/hooks/useVolumeCalculations.js:70-78 | the last input index lies between -1 and the records read |
| AdvancedMode.LastInputIndex | src/hooks/useVolumeCalculations.js:70-78 | the last input index is -1 or a record's index |
| AdvancedMode.RunningLast | src/hooks/useVolumeCalculations.js:76-79 | the index is -1 exactly before any session input; otherwise it is the last session input's |
| AdvancedMode.RunningActual | src/hooks/useVolumeCalculations.js:73-82 | the plotted running total is the inputs plus the expected slot volumes before the first input |
| AdvancedMode.SmoothInterpolation | src/hooks/useVolumeCalculations.js:59-125 | the two passes compute the smoothed chart |
| AdvancedMode.SmoothShape | src/hooks/useVolumeCalculations.js:115-121 | one point per record, with its time, expected volume and flags |
| AdvancedMode.NoProjectionFallback | src/hooks/useVolumeCalculations.js:60-66 | with no projection, actual equals expected everywhere |
| AdvancedMode.OffSessionBlank | src/hooks/useVolumeCalculations.js:96-97 | pre- and after-market points have no actual volume |
| AdvancedMode.ObservedPrefix | src/hooks/useVolumeCalculations.js:98-100 | up to the last input, a session point shows the rounded running total |
| AdvancedMode.FactorBounds | src/hooks/useVolumeCalculations.js:107-108 | the smoothing factor is distance/12 below an hour and 1 from then on |
| AdvancedMode.BlendBetween | src/hooks/useVolumeCalculations.js:110-112 | the blend lies between its two ends, at the start for factor 0 and at the target for factor 1 |
| AdvancedMode.SmoothedBetween | src/hooks/useVolumeCalculations.js:101-113 | after the last input, a session point lies (within rounding) between the last observed total and the projected value |
| AdvancedMode.OnlyInputValues | src/hooks/useVolumeCalculations.js:11 | with one session input, the filter holds just its value once past it, and nothing before |
| AdvancedMode.OnlyInputLast | src/hooks/useVolumeCalculations.js:73-88 | with one session input, the first pass of `smoothInterpolation` ends with it as the last input |
| AdvancedMode.SingleProjection | src/hooks/useVolumeCalculations.js:23-46 | one input v at a slot expecting e > 0, no manual volume: ratio v / e, projected day the average times it |
| AdvancedMode.SingleRunning | src/hooks/useVolumeCalculations.js:73-87 | the running total at a single input is the input plus the filler before it |
| AdvancedMode.SinglePlotted | src/hooks/useVolumeCalculations.js:73-100 | the point at a single input plots v plus the filler before it, not v alone |
| AdvancedMode.SingleNext | src/hooks/useVolumeCalculations.js:101-112 | the next session point moves one twelfth of the way from that plotted value toward the projected curve |
| AdvancedMode.SingleInput | src/hooks/useVolumeCalculations.js:23-112 | the three together: the ratio ignores the filler that the plotted point includes |
| AdvancedMode.SingleInputExample | src/hooks/useVolumeCalculations.js:23-100 | 3,000,000 typed at a slot expecting 10,000,000, average 50,000,000: ratio 0.3, projected 15,000,000, plotted 3,000,000 plus the filler |
| AdvancedMode.TenOClockExpected | src/hooks/useVolumeCalculations.js:276-283 | with a 50,000,000 average the 10:00 record expects 10,000,000 (20% of the day) |
| AdvancedMode.ProjectedAfterAnHour | src/hooks/useVolumeCalculations.js:103-112 | from twelve slots after the last input, a point shows the projection times the expected share |
| AdvancedMode.AdvancedChart | src/hooks/useVolumeCalculations.js:275-293 | one chart point per slot; its contents are stated in `AdvancedShape` and `AdvancedNoInputs` |
| AdvancedMode.AdvancedShape | src/hooks/useVolumeCalculations.js:291-293 | the advanced chart has one point per slot, with the slot's time, flags and the record's expected volume |
| AdvancedMode.AdvancedNoInputs | src/hooks/useVolumeCalculations.js:291-293 | when no session slot has a readable entry (absent, cleared to "" or not a number), the chart shows the expected volume everywhere |
| AdvancedMode.GridLabelled | src/hooks/useVolumeCalculations.js:137 | the hook's slots all carry "HH:MM" labels |
| AdvancedMode.CloseRecord | src/hooks/useVolumeCalculations.js:276-283 | the 16:00 record expects the rounded average; flagged after-market, it shows no actual volume under a projection |
| AdvancedMode.GridCloseSlot | src/utils/formatters.js:54 | the grid's 97th slot is 16:00 and is flagged after-market |

## Left out

- React: the state, effects and memoisation of `useVolumeCalculations` are not modelled; the chart is the value of `SimpleChart` or `AdvancedChart`.
- `useMarketTime` and `Date`: the current time is a minute-of-day parameter, and `getMarketStatus` takes hour and minute.
- The UI components are not part of this model.
- Floating point: numbers are exact reals. Float rounding, NaN, Infinity and `-0` are not modelled.
- A `Number` passed to `parseVolumeInput` is returned as is, including NaN.
- JsRuntime.ParseFloat: reads optional white space, a sign, digits and an optional fraction; the exponent form ("1e6") is not read. It is the only form reachable from `parseVolumeInput` that the model reads differently ("Infinity" is lower-cased before `parseFloat` sees it).
- JsRuntime.ToLower: lowers ASCII letters only; the rest of Unicode case mapping is not modelled.
- JsRuntime.ToFixed: follows the decimal rule for values below 1e21; the exponential form above that is not modelled.
- Formatters.FormatVolume: a plain value below 1000 is written only when it is whole; `toString` of fractions is not modelled.
- Formatters.ParseIgnoresComma: covers a comma inside the text, not a leading or trailing one.
- Formatters.FormatThenParse: states the read-back within each tier's rounding step, exact only for multiples of the step.
- The pre-market table is described by its shape only; the core never looks it up.
- SimpleMode.PointAt: takes the current share as a parameter, computed once by `CurrentPct`; the source evaluates it inside every point.
- `smoothInterpolation`'s `newDailyVolumeInput` parameter is unused by the source and left out.
- The spread of the input record's extra fields into the no-projection result and into the first pass's records is not modelled; the chart points carry exactly the fields the second pass writes.
- AdvancedMode.SmoothInterpolation: requires that the average is nonzero whenever an expected volume is truthy. Otherwise JavaScript divides by 0 and plots Infinity. `BuiltAverageDivides` shows that the builder always meets this.
