/**
 * Pace per kilometre and its `mm:ss` display (`formatPaceFromSeconds_`).
 * Seconds are JavaScript numbers; the model takes them as exact reals and
 * writes `Math.round` out as `floor(x + 0.5)`.
 */
module Pace {
  import opened Wrappers
  import opened Text

  /** `Math.round`: the nearest integer, halves rounded up. */
  function Round(x: real): (n: int)
    ensures x - 0.5 < n as real <= x + 0.5
  {
    (x + 0.5).Floor
  }

  /** `n < 10 ? '0' + n : n`. */
  function Pad2(n: nat): (s: string)
    ensures |s| >= 2 && AllDigits(s)
    ensures n < 100 ==> |s| == 2
    ensures n >= 10 ==> s[0] != '0'
  {
    if n < 10 then "0" + NatToString(n) else NatToString(n)
  }

  /** `formatPaceFromSeconds_`: "" for no pace, otherwise `mm:ss` of the rounded seconds. */
  function FormatPace(secondsPerKm: real): (s: string)
    ensures secondsPerKm <= 0.0 <==> s == ""
    ensures secondsPerKm > 0.0 && Round(secondsPerKm) / 60 < 100 ==> |s| == 5
    ensures secondsPerKm > 0.0 && Round(secondsPerKm) / 60 >= 10 ==> s[0] != '0'
  {
    if secondsPerKm <= 0.0 then ""
    else
      var total := Round(secondsPerKm);
      Pad2(total / 60) + ":" + Pad2(total % 60)
  }

  /** Reads `mm:ss` back: digits, one colon, digits. */
  function ParseClock(s: string): Option<(nat, nat)> {
    var parts := Split(s, ':');
    if |parts| == 2 && parts[0] != "" && parts[1] != "" && AllDigits(parts[0]) && AllDigits(parts[1])
    then Some((DigitsValue(parts[0]), DigitsValue(parts[1])))
    else None
  }

  lemma Pad2Value(n: nat)
    ensures DigitsValue(Pad2(n)) == n
  {
    NatToStringValue(n);
    if n < 10 {
      LeadingZeroValue(NatToString(n));
    }
  }

  /**
   * The display reads back as the minutes and seconds of the rounded total,
   * which they recompose; the seconds field always has two digits and the
   * minutes field at least two.
   */
  lemma FormatPaceRoundTrip(secondsPerKm: real)
    requires secondsPerKm > 0.0
    ensures var total := Round(secondsPerKm);
      && total >= 0
      && ParseClock(FormatPace(secondsPerKm)) == Some((total / 60, total % 60))
      && (total / 60) * 60 + total % 60 == total
      && total % 60 < 60
  {
    var total := Round(secondsPerKm);
    var mm := Pad2(total / 60);
    var ss := Pad2(total % 60);
    assert ':' !in mm && ':' !in ss by {
      assert forall i :: 0 <= i < |mm| ==> IsDigit(mm[i]);
      assert forall i :: 0 <= i < |ss| ==> IsDigit(ss[i]);
    }
    assert FormatPace(secondsPerKm) == mm + [':'] + ss;
    SplitAtOnlySeparator(mm, ss, ':');
    Pad2Value(total / 60);
    Pad2Value(total % 60);
  }

  /** The seconds field is two characters long, whatever the minutes. */
  lemma SecondsFieldHasTwoDigits(secondsPerKm: real)
    requires secondsPerKm > 0.0
    ensures var s := FormatPace(secondsPerKm);
      |s| >= 5 && s[|s| - 3] == ':' && '0' <= s[|s| - 2] <= '5'
  {
    var total := Round(secondsPerKm);
    var ss := Pad2(total % 60);
    assert |ss| == 2;
    if total % 60 >= 10 {
      var d := NatToString(total % 60);
      assert d == NatToString((total % 60) / 10) + [DigitChar((total % 60) % 10)];
    }
  }

  /** `movingTime / distanceKm` when the activity has a distance, else the sentinel 0. */
  function PaceSecondsPerKm(distanceMeters: real, movingTime: real): (p: real)
    ensures distanceMeters <= 0.0 ==> p == 0.0
    ensures distanceMeters > 0.0 ==> p * (distanceMeters / 1000.0) == movingTime
  {
    var distanceKm := distanceMeters / 1000.0;
    if distanceKm > 0.0 then movingTime / distanceKm else 0.0
  }

  lemma FormatPaceExamples()
    ensures FormatPace(125.0) == "02:05"
    ensures FormatPace(300.0) == "05:00"
    ensures FormatPace(0.4) == "00:00"
    ensures FormatPace(PaceSecondsPerKm(10000.0, 3000.0)) == "05:00"
  {
    assert Round(125.0) == 125;
    assert Round(300.0) == 300;
    assert Round(0.4) == 0;
    assert PaceSecondsPerKm(10000.0, 3000.0) == 300.0;
  }

  /** From 10 minutes on the minutes field is `String(mm)`, without padding. */
  lemma FormatPaceLongExamples()
    ensures FormatPace(600.0) == "10:00"
    ensures FormatPace(6000.0) == "100:00"
  {
    assert Round(600.0) == 600;
    assert NatToString(10) == "10";
    assert Pad2(10) == "10";
    assert Round(6000.0) == 6000;
    assert NatToString(100) == NatToString(10) + "0";
    assert Pad2(100) == "100";
  }
}
