/** The "HH:MM" labels that name the five-minute slots and the calibration
    anchors, and the minute of the day they stand for. */
module Clock {
  import opened JsRuntime

  /** Two decimal digits of `n`, a leading zero below 10. */
  function Pad2(n: nat): (s: string)
    requires n < 100
    ensures |s| == 2
  {
    [DigitChar(n / 10), DigitChar(n % 10)]
  }

  /** The two digits spell `n`. */
  lemma Pad2Digits(n: nat)
    requires n < 100
    ensures AllDigits(Pad2(n)) && DigitsValue(Pad2(n)) == n
  {
    var s := Pad2(n);
    var tens := s[0];
    assert DigitsValue([tens]) == n / 10 by {
      assert [tens][..0] == [];
    }
    assert s[..1] == [tens];
    assert DigitsValue(s) == 10 * (n / 10) + n % 10;
  }

  /** The two digits are what `n.toString().padStart(2, '0')` writes. */
  lemma Pad2IsPadStart(n: nat)
    requires n < 100
    ensures Pad2(n) == PadStart(NatToString(n), 2)
  {
    NatToStringLength(n, 2);
    var d := NatToString(n);
    var p := PadStart(d, 2);
    LeadingZeros(p[..|p| - |d|], d);
    Pad2Digits(n);
    assert |p| == 2;
  }

  /** The zero-padded label of an hour and a minute. */
  function Label(hour: nat, minute: nat): (s: string)
    requires hour < 100 && minute < 100
    ensures IsClockLabel(s)
  {
    Pad2Digits(hour);
    Pad2Digits(minute);
    Pad2(hour) + ":" + Pad2(minute)
  }

  /** The label of a minute of the day. */
  function LabelAt(t: nat): string
    requires t < 100 * 60
  {
    Label(t / 60, t % 60)
  }

  predicate IsClockLabel(s: string) {
    |s| == 5 && IsDigit(s[0]) && IsDigit(s[1]) && s[2] == ':' && IsDigit(s[3]) && IsDigit(s[4])
  }

  /** `const [h, m] = s.split(':').map(Number); h * 60 + m` on a label. */
  function ClockMinutes(s: string): (m: int)
    requires IsClockLabel(s)
    ensures m == (10 * DigitValue(s[0]) + DigitValue(s[1])) * 60 + 10 * DigitValue(s[3]) + DigitValue(s[4])
  {
    TwoDigits(s[..2]);
    TwoDigits(s[3..]);
    DigitsValue(s[..2]) * 60 + DigitsValue(s[3..])
  }

  /** The value of two digits. */
  lemma TwoDigits(d: string)
    requires |d| == 2 && AllDigits(d)
    ensures DigitsValue(d) == 10 * DigitValue(d[0]) + DigitValue(d[1])
  {
    var head := d[..1];
    assert head == [d[0]];
    assert DigitsValue(head) == DigitValue(d[0]) by {
      assert head[..0] == [];
    }
  }

  /** Reading a label back gives the hour and minute it was built from. */
  lemma LabelMinutes(hour: nat, minute: nat)
    requires hour < 100 && minute < 100
    ensures ClockMinutes(Label(hour, minute)) == hour * 60 + minute
  {
    var s := Label(hour, minute);
    Pad2Digits(hour);
    Pad2Digits(minute);
    assert s[..2] == Pad2(hour);
    assert s[3..] == Pad2(minute);
  }

  /** Reading the label of a minute of the day gives that minute back, so
      distinct minutes have distinct labels. */
  lemma LabelAtMinutes(t: nat)
    requires t < 100 * 60
    ensures ClockMinutes(LabelAt(t)) == t
  {
    LabelMinutes(t / 60, t % 60);
  }
}
