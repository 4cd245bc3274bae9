/** The launch schedule panel (LaunchSchedule.tsx): the remaining-time line
    refreshed every minute, the mission status colour and label, and the
    launch time converted into a selectable zone. */
module LaunchSchedule {
  import opened Common
  import opened Text
  import opened Duration
  import LaunchTime

  /** The line shown once the launch instant is not in the future. */
  const Passed := "Launch time has passed"

  /** Days, hours and minutes of a tuple, in ms; the seconds are left out. */
  function WholeMinutesMillis(t: TimeLeft): nat {
    t.days * MsPerDay + t.hours * MsPerHour + t.minutes * MsPerMinute
  }

  /** The template "<D> days <H> hours <M> minutes", written as its six
      words joined by single spaces; split on spaces it reads back as the
      three counts, each followed by its unit word. */
  function RemainingText(t: TimeLeft): (r: string)
    ensures |r| > 0 && '0' <= r[0] <= '9'
    ensures Split(r, ' ') ==
            [Decimal(t.days), "days", Decimal(t.hours), "hours", Decimal(t.minutes), "minutes"]
  {
    var d, h, m := Decimal(t.days), Decimal(t.hours), Decimal(t.minutes);
    assert ' ' !in d && ' ' !in h && ' ' !in m by {
      assert !('0' <= ' ' <= '9');
    }
    var words := [d, "days", h, "hours", m, "minutes"];
    JoinSplit(words, ' ');
    assert Join(words, ' ') == d + [' '] + Join(words[1..], ' ');
    Join(words, ' ')
  }

  /** `updateRemainingTime` for `diff = launch - now`: "Launch time has
      passed" exactly when the difference is not positive, otherwise the
      text of its decomposition. */
  function RemainingTime(diff: int): (r: string)
    ensures |r| > 0
    ensures r == Passed <==> diff <= 0
    ensures diff > 0 ==> r == RemainingText(Decompose(diff))
  {
    if diff > 0 then
      var r := RemainingText(Decompose(diff));
      assert r[0] != Passed[0];
      r
    else Passed
  }

  /** The days, hours (< 24) and minutes (< 60) shown for a positive
      difference account for it down to the whole minute. */
  lemma RemainingTimeAccounts(diff: int)
    requires diff > 0
    ensures var t := Decompose(diff);
            RemainingTime(diff) == RemainingText(t) && t.hours < 24 && t.minutes < 60 &&
            WholeMinutesMillis(t) == diff - diff % MsPerMinute
  {
    var t := Decompose(diff);
    DecomposeRoundTrip(diff);
    SecondRemainder(diff);
    assert t.seconds * MsPerSecond == diff % MsPerMinute - diff % MsPerSecond;
  }

  /** The seconds are discarded: two positive differences in the same whole
      minute give the same line. */
  lemma RemainingTimeIgnoresSeconds(d1: int, d2: int)
    requires d1 > 0 && d2 > 0 && d1 / MsPerMinute == d2 / MsPerMinute
    ensures RemainingTime(d1) == RemainingTime(d2)
  {
    SameMinuteSameDecomposition(d1, d2);
  }

  // ---------------------------------------------------------------------------
  // The mount effect on [date, time]
  // ---------------------------------------------------------------------------

  /** What the effect on [date, time] does: nothing (the first token of the
      time is empty), throws out of the effect, or starts with the parsed
      launch instant, stored as its ISO string, and the minute timer. */
  datatype EffectResult = Skipped | Threw | Started(originalTime: string, instant: int)

  /** The first space-separated token of the time string. */
  function FirstToken(time: string): (r: string)
    ensures ' ' !in r && StartsWith(time, r)
    ensures |r| == |time| || time[|r|] == ' '
  {
    var parts := Split(time, ' ');
    SplitJoin(time, ' ');
    parts[0]
  }

  /** The effect as written: only an empty first token is guarded against;
      a token that makes an Invalid Date reaches `toISOString`, which throws. */
  function MountEffectAsWritten(date: string, time: string,
                                parse: LaunchTime.DateParser, iso: int -> string): (r: EffectResult)
    ensures r == Skipped <==> FirstToken(time) == ""
    ensures r == Threw <==> FirstToken(time) != "" && parse(date, FirstToken(time)).None?
    ensures r.Started? ==> Some(r.instant) == parse(date, FirstToken(time)) && r.originalTime == iso(r.instant)
  {
    var timeValue := FirstToken(time);
    if timeValue == "" then Skipped
    else match parse(date, timeValue)
      case None => Threw
      case Some(utc) => Started(iso(utc), utc)
  }

  /** A time without a parseable clock value, such as "TBD", throws out of
      the effect as written. */
  lemma MalformedTimeThrows(date: string, parse: LaunchTime.DateParser, iso: int -> string)
    requires parse(date, "TBD").None?
    ensures MountEffectAsWritten(date, "TBD", parse, iso) == Threw
  {
    assert "TBD" == "TBD" + [];
    assert ' ' !in "TBD";
    SplitNoSeparator("TBD", ' ');
  }

  /** The effect with the guard extended to an Invalid Date: it never throws,
      skips exactly when there is no parseable instant, and otherwise agrees
      with the effect as written. */
  function MountEffect(date: string, time: string,
                       parse: LaunchTime.DateParser, iso: int -> string): (r: EffectResult)
    ensures !r.Threw?
    ensures r == Skipped <==> FirstToken(time) == "" || parse(date, FirstToken(time)).None?
    ensures r.Started? ==> r == MountEffectAsWritten(date, time, parse, iso)
  {
    var timeValue := FirstToken(time);
    if timeValue == "" then Skipped
    else match parse(date, timeValue)
      case None => Skipped
      case Some(utc) => Started(iso(utc), utc)
  }

  // ---------------------------------------------------------------------------
  // Mission status and time zone conversion
  // ---------------------------------------------------------------------------

  /** The `missionStatus` prop, 'scheduled' when it is not given. */
  function MissionStatusOrDefault(missionStatus: Option<string>): (r: string)
    ensures missionStatus.None? ==> r == "scheduled"
    ensures missionStatus.Some? ==> r == missionStatus.value
  {
    match missionStatus
    case None => "scheduled"
    case Some(s) => s
  }

  /** `getStatusColor`: green, yellow, orange and red for the four known
      statuses and gray for every other string. */
  function StatusColor(status: string): (c: string)
    ensures c == "text-gray-500" <==> status !in {"scheduled", "delayed", "hold", "scrubbed"}
    ensures status == "scheduled" ==> c == "text-green-500"
    ensures status == "delayed" ==> c == "text-yellow-500"
    ensures status == "hold" ==> c == "text-orange-500"
    ensures status == "scrubbed" ==> c == "text-red-500"
  {
    match status
    case "scheduled" => "text-green-500"
    case "delayed" => "text-yellow-500"
    case "hold" => "text-orange-500"
    case "scrubbed" => "text-red-500"
    case _ => "text-gray-500"
  }

  /** The status line: only the first character of the status is upper-cased. */
  function StatusLine(missionStatus: string): (r: string)
    ensures StartsWith(r, "Mission Status: ")
    ensures r[16..] == Capitalize(missionStatus)
  {
    var r := "Mission Status: " + Capitalize(missionStatus);
    assert r[..16] == "Mission Status: ";
    r
  }

  /** The zone formatter: None when `Intl.DateTimeFormat` throws (an
      unsupported zone identifier, an unparseable date). */
  type ZoneFormatter = (string, string) -> Option<string>

  /** `formatDateInTimezone`: the formatted string, or "Invalid date" when
      formatting throws; the exception never escapes. */
  function FormatDateInTimezone(isoDate: string, timezone: string, format: ZoneFormatter): (r: string)
    ensures format(isoDate, timezone).None? ==> r == "Invalid date"
    ensures format(isoDate, timezone).Some? ==> r == format(isoDate, timezone).value
  {
    match format(isoDate, timezone)
    case None => "Invalid date"
    case Some(s) => s
  }

  /** The panel's state: the selected zone, `originalTime`, `remainingTime`
      and the launch instant the minute timer refreshes against. */
  class LaunchScheduleView {
    const missionStatus: string
    var selectedTimezone: string
    var originalTime: string
    var remainingTime: string
    var launchInstant: int
    var timerArmed: bool

    constructor (missionStatusProp: Option<string>, localZone: string)
      ensures missionStatus == MissionStatusOrDefault(missionStatusProp)
      ensures selectedTimezone == localZone
      ensures originalTime == "" && remainingTime == "" && !timerArmed
    {
      missionStatus := MissionStatusOrDefault(missionStatusProp);
      selectedTimezone := localZone;
      originalTime := "";
      remainingTime := "";
      launchInstant := 0;
      timerArmed := false;
    }

    /** The effect on [date, time], with the Invalid Date guard of
      `MountEffect`: when it starts, `originalTime` holds the ISO string,
      `remainingTime` the line for `now` and the minute timer is armed;
      otherwise both strings stay as they were. */
    method Mount(date: string, time: string, now: int,
                 parse: LaunchTime.DateParser, iso: int -> string)
      modifies this`originalTime, this`launchInstant, this`remainingTime, this`timerArmed
      ensures var effect := MountEffect(date, time, parse, iso);
              if effect.Started? then
                originalTime == effect.originalTime && launchInstant == effect.instant &&
                RemainingIsCurrent(now) && timerArmed
              else
                originalTime == old(originalTime) && remainingTime == old(remainingTime) &&
                !timerArmed
    {
      timerArmed := false;
      var effect := MountEffect(date, time, parse, iso);
      if effect.Started? {
        originalTime := effect.originalTime;
        launchInstant := effect.instant;
        timerArmed := true;
        Refresh(now);
      }
    }

    /** The remaining-time line is the one for the stored instant at `now`. */
    predicate RemainingIsCurrent(now: int)
      reads this
    {
      remainingTime == RemainingTime(launchInstant - now)
    }

    /** One firing of the 60 000 ms timer. */
    method Refresh(now: int)
      requires timerArmed
      modifies this`remainingTime
      ensures RemainingIsCurrent(now)
      ensures remainingTime != ""
    {
      remainingTime := RemainingTime(launchInstant - now);
    }

    method SelectTimezone(zone: string)
      modifies this`selectedTimezone
      ensures selectedTimezone == zone
    {
      selectedTimezone := zone;
    }

    /** The "Time Remaining" box is shown only for an upcoming launch with a
      non-empty remaining time. */
    function ShowsRemaining(status: LaunchStatus): (b: bool)
      reads this
      ensures b <==> status == Upcoming && remainingTime != ""
    {
      status == Upcoming && remainingTime != ""
    }

    /** Once the line is current (after a started mount or any refresh) it
      is never empty, so the box shows exactly for an upcoming launch. */
    lemma ShowsRemainingWhenCurrent(status: LaunchStatus, now: int)
      requires RemainingIsCurrent(now)
      ensures ShowsRemaining(status) <==> status == Upcoming
    {
    }

    /** The converted-time box: absent until `originalTime` is set. */
    function ConvertedTime(format: ZoneFormatter): (r: Option<string>)
      reads this
      ensures r.None? <==> originalTime == ""
      ensures r.Some? ==> r.value == FormatDateInTimezone(originalTime, selectedTimezone, format)
    {
      if originalTime == "" then None
      else Some(FormatDateInTimezone(originalTime, selectedTimezone, format))
    }
  }
}
