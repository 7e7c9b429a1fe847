/**
 * The stats bar: a countdown to the next draw, refreshed every minute, and
 * compact number formatting with K and M suffixes.
 */
module Stats {
  import opened Text

  const MsPerMinute: int := 60000
  const MsPerHour: int := 3600000
  const MsPerDay: int := 86400000

  datatype TimeLeft = DrawingNow | Remaining(days: nat, hours: nat, minutes: nat)

  /** The milliseconds a countdown accounts for. */
  function Accounted(days: nat, hours: nat, minutes: nat): int {
    days * MsPerDay + hours * MsPerHour + minutes * MsPerMinute
  }

  /**
   * `calculateTimeLeft` on `difference = draw - now` (milliseconds): whole days,
   * then the hours and minutes of what is left; seconds are dropped.
   */
  function TimeLeftOf(difference: int): (r: TimeLeft)
    ensures r.DrawingNow? <==> difference <= 0
    ensures r.Remaining? ==> && r.hours < 24 && r.minutes < 60
                             && Accounted(r.days, r.hours, r.minutes) <= difference
                             && difference < Accounted(r.days, r.hours, r.minutes) + MsPerMinute
  {
    if difference > 0 then
      var days := difference / MsPerDay;
      var hours := (difference % MsPerDay) / MsPerHour;
      var minutes := (difference % MsPerHour) / MsPerMinute;
      HourMinuteSplit(difference);
      Remaining(days, hours, minutes)
    else
      DrawingNow
  }

  lemma HourMinuteSplit(d: int)
    requires d > 0
    ensures d % MsPerHour == ((d % MsPerDay) % MsPerHour)
    ensures d == (d / MsPerDay) * MsPerDay + ((d % MsPerDay) / MsPerHour) * MsPerHour + d % MsPerHour
    ensures (d % MsPerHour) == ((d % MsPerHour) / MsPerMinute) * MsPerMinute + d % MsPerMinute
  {
    var e := d % MsPerDay;
    assert d == (d / MsPerDay) * MsPerDay + e;
    assert e == (e / MsPerHour) * MsPerHour + e % MsPerHour;
    assert (d / MsPerDay) * MsPerDay == ((d / MsPerDay) * 24) * MsPerHour;
    ModOfMultiple(d, (d / MsPerDay) * 24 + e / MsPerHour, e % MsPerHour);
  }

  lemma ModOfMultiple(d: int, k: int, r: int)
    requires 0 <= r < MsPerHour && d == k * MsPerHour + r
    ensures d % MsPerHour == r
  {
  }

  /** The countdown text: "Dd Hh Mm" with days, "Hh Mm" without. */
  function TimeLeftText(t: TimeLeft): string {
    match t
    case DrawingNow => "Drawing now..."
    case Remaining(d, h, m) =>
      if d > 0 then DecimalString(d) + "d " + DecimalString(h) + "h " + DecimalString(m) + "m"
      else DecimalString(h) + "h " + DecimalString(m) + "m"
  }

  /** "Drawing now..." is shown exactly when the draw time has been reached. */
  lemma DrawingNowIffDue(difference: int)
    ensures TimeLeftText(TimeLeftOf(difference)) == "Drawing now..." <==> difference <= 0
  {
    var t := TimeLeftOf(difference);
    if t.Remaining? {
      var s := TimeLeftText(t);
      assert s[|s| - 1] == 'm';
    }
  }

  /** The days part is shown exactly when at least a full day is left before the draw. */
  lemma DaysShownIffADayLeft(difference: int)
    ensures 'd' in TimeLeftText(TimeLeftOf(difference)) <==> difference >= MsPerDay
  {
    var t := TimeLeftOf(difference);
    var s := TimeLeftText(t);
    if t.DrawingNow? {
      assert s == "Drawing now...";
      assert 'd' !in s;
    } else if t.days > 0 {
      assert s[|DecimalString(t.days)|] == 'd';
    } else {
      var hs, ms := DecimalString(t.hours), DecimalString(t.minutes);
      assert s == hs + "h " + ms + "m";
      forall i | 0 <= i < |s|
        ensures s[i] != 'd'
      {
        if i < |hs| {
          assert s[i] == hs[i];
        } else if |hs| + 2 <= i < |hs| + 2 + |ms| {
          assert s[i] == ms[i - |hs| - 2];
        }
      }
    }
  }

  class StatsBar {
    var timeLeft: string

    constructor()
      ensures timeLeft == ""
    {
      timeLeft := "";
    }

    /** One run of `calculateTimeLeft` at time `now` for a draw at `draw` (both in epoch milliseconds). */
    method CalculateTimeLeft(now: int, draw: int)
      modifies this
      ensures timeLeft == TimeLeftText(TimeLeftOf(draw - now))
    {
      var difference := draw - now;
      if difference > 0 {
        var days := difference / MsPerDay;
        var hours := (difference % MsPerDay) / MsPerHour;
        var minutes := (difference % MsPerHour) / MsPerMinute;
        if days > 0 {
          timeLeft := DecimalString(days) + "d " + DecimalString(hours) + "h " + DecimalString(minutes) + "m";
        } else {
          timeLeft := DecimalString(hours) + "h " + DecimalString(minutes) + "m";
        }
      } else {
        timeLeft := "Drawing now...";
      }
    }
  }

  /**
   * `formatNumber`'s three cases: a number shown in millions with the suffix M, in
   * thousands with the suffix K, or as it is (the one-decimal rendering is left out).
   */
  datatype Compact = Millions(scaled: real) | Thousands(scaled: real) | Plain(value: real)

  function FormatNumber(num: real): (r: Compact)
    ensures r.Millions? <==> num >= 1000000.0
    ensures r.Thousands? <==> 1000.0 <= num < 1000000.0
    ensures r.Plain? <==> num < 1000.0
    ensures r.Millions? ==> r.scaled * 1000000.0 == num
    ensures r.Thousands? ==> r.scaled * 1000.0 == num && 1.0 <= r.scaled < 1000.0
    ensures r.Plain? ==> r.value == num
  {
    if num >= 1000000.0 then Millions(num / 1000000.0)
    else if num >= 1000.0 then Thousands(num / 1000.0)
    else Plain(num)
  }
}
