/** Splitting a millisecond distance into days, hours, minutes and seconds by
    floor division and remainders, as the countdown (LaunchCountdown.tsx) and
    the remaining-time line (LaunchSchedule.tsx) both do. */
module Duration {

  const MsPerSecond: nat := 1000
  const MsPerMinute: nat := 60000
  const MsPerHour: nat := 3600000
  const MsPerDay: nat := 86400000

  /** The `TimeLeft` record: one count per unit. */
  datatype TimeLeft = TimeLeft(days: nat, hours: nat, minutes: nat, seconds: nat)

  const Zero := TimeLeft(0, 0, 0, 0)

  /** Each count below the next unit up: hours < 24, minutes and seconds < 60. */
  predicate InRange(t: TimeLeft) {
    t.hours < 24 && t.minutes < 60 && t.seconds < 60
  }

  /** The milliseconds a tuple stands for. */
  function Millis(t: TimeLeft): nat {
    t.days * MsPerDay + t.hours * MsPerHour + t.minutes * MsPerMinute + t.seconds * MsPerSecond
  }

  /** The decomposition of a non-negative distance, each unit taken from the
      distance modulo the next larger unit. */
  function Decompose(distance: nat): (t: TimeLeft)
    ensures InRange(t)
  {
    TimeLeft(distance / MsPerDay,
             (distance % MsPerDay) / MsPerHour,
             (distance % MsPerHour) / MsPerMinute,
             (distance % MsPerMinute) / MsPerSecond)
  }

  /** The remainder modulo an hour is the remainder of the day-remainder. */
  lemma HourRemainder(d: nat)
    ensures (d % MsPerDay) % MsPerHour == d % MsPerHour
  {
    var r := d % MsPerDay;
    var k := d / MsPerDay * 24 + r / MsPerHour;
    assert d == k * MsPerHour + r % MsPerHour;
  }

  /** The remainder modulo a minute is the remainder of the hour-remainder. */
  lemma MinuteRemainder(d: nat)
    ensures (d % MsPerHour) % MsPerMinute == d % MsPerMinute
  {
    var r := d % MsPerHour;
    var k := d / MsPerHour * 60 + r / MsPerMinute;
    assert d == k * MsPerMinute + r % MsPerMinute;
  }

  /** The remainder modulo a second is the remainder of the minute-remainder. */
  lemma SecondRemainder(d: nat)
    ensures (d % MsPerMinute) % MsPerSecond == d % MsPerSecond
  {
    var r := d % MsPerMinute;
    var k := d / MsPerMinute * 60 + r / MsPerSecond;
    assert d == k * MsPerSecond + r % MsPerSecond;
  }

  /** The tuple accounts for the whole distance down to the whole second:
      only the sub-second remainder is lost. */
  lemma DecomposeRoundTrip(distance: nat)
    ensures Millis(Decompose(distance)) == distance - distance % MsPerSecond
  {
    var d := distance;
    HourRemainder(d);
    MinuteRemainder(d);
    SecondRemainder(d);
    var t := Decompose(d);
    assert d == t.days * MsPerDay + d % MsPerDay;
    assert d % MsPerDay == t.hours * MsPerHour + d % MsPerHour;
    assert d % MsPerHour == t.minutes * MsPerMinute + d % MsPerMinute;
    assert d % MsPerMinute == t.seconds * MsPerSecond + d % MsPerSecond;
  }

  /** Every in-range tuple is what the decomposition gives for its own
      milliseconds plus any sub-second remainder. */
  lemma DecomposeUnique(t: TimeLeft, r: nat)
    requires InRange(t) && r < MsPerSecond
    ensures Decompose(Millis(t) + r) == t
  {
    var d := Millis(t) + r;
    var rs := t.seconds * MsPerSecond + r;
    var rm := t.minutes * MsPerMinute + rs;
    var rh := t.hours * MsPerHour + rm;
    assert rs < MsPerMinute && rm < MsPerHour && rh < MsPerDay;
    assert d == t.days * MsPerDay + rh;
    assert d / MsPerDay == t.days && d % MsPerDay == rh;
    assert rh / MsPerHour == t.hours;
    HourRemainder(d);
    assert d % MsPerHour == rm;
    MinuteRemainder(d);
    assert d % MsPerMinute == rs;
    assert rm / MsPerMinute == t.minutes;
    assert rs / MsPerSecond == t.seconds;
  }

  /** Two distances in the same whole minute decompose to the same days,
      hours and minutes; only the seconds may differ. */
  lemma SameMinuteSameDecomposition(d1: nat, d2: nat)
    requires d1 / MsPerMinute == d2 / MsPerMinute
    ensures Decompose(d1).days == Decompose(d2).days
    ensures Decompose(d1).hours == Decompose(d2).hours
    ensures Decompose(d1).minutes == Decompose(d2).minutes
  {
    var t1 := Decompose(d1);
    DecomposeRoundTrip(d1);
    SecondRemainder(d1);
    var whole := TimeLeft(t1.days, t1.hours, t1.minutes, 0);
    assert Millis(whole) == d1 - d1 % MsPerMinute;
    assert d1 - d1 % MsPerMinute == d2 - d2 % MsPerMinute;
    var r := d2 % MsPerMinute;
    var t := TimeLeft(t1.days, t1.hours, t1.minutes, r / MsPerSecond);
    assert Millis(t) + r % MsPerSecond == d2;
    DecomposeUnique(t, r % MsPerSecond);
  }

  /** One day, one hour, one minute and one second. */
  lemma DecomposeExample()
    ensures Decompose(90061000) == TimeLeft(1, 1, 1, 1)
    ensures Millis(TimeLeft(1, 1, 1, 1)) == 90061000
  {
  }
}
