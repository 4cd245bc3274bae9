/** The launch time line (LaunchTime.tsx): a "<time> UTC" guard, the display
    for upcoming launches, and for past ones the display followed by a
    "time ago" phrase chosen by exact millisecond cut points. */
module LaunchTime {
  import opened Common
  import opened Text
  import opened Duration

  /** The text shown whenever the time cannot be displayed. */
  const DateTbd := "Date TBD"

  /** The two `Intl.DateTimeFormat` option sets the component uses. */
  datatype DateStyle = UpcomingStyle | PastStyle

  /** `new Date(`${date}T${timeValue}Z`)`: the instant in ms, or None for an
      Invalid Date. */
  type DateParser = (string, string) -> Option<int>

  /** `new Intl.DateTimeFormat('en-US', style).format(instant)`: None when
      formatting throws (it does for an Invalid Date). */
  type DateFormatter = (DateStyle, int) -> Option<string>

  /** The guard on `time.split(' ')`: the first token, provided it is
      non-empty and the second token is exactly "UTC". */
  function TimeGuard(time: string): (r: Option<string>)
    ensures r.Some? ==> r.value != "" && ' ' !in r.value
  {
    var parts := Split(time, ' ');
    if parts[0] != "" && |parts| >= 2 && parts[1] == "UTC" then Some(parts[0]) else None
  }

  /** A value the guard accepts is followed by " UTC" and then by the end of
      the string or a space. */
  lemma TimeGuardSound(time: string, v: string)
    requires TimeGuard(time) == Some(v)
    ensures StartsWith(time, v + " UTC") && (|time| == |v| + 4 || time[|v| + 4] == ' ')
  {
    var parts := Split(time, ' ');
    SplitJoin(time, ' ');
    var tail := Join(parts[1..], ' ');
    assert time == v + [' '] + tail;
    if |parts| == 2 {
      assert tail == "UTC";
      assert time == v + " UTC";
    } else {
      assert parts[1..][1..] == parts[2..];
      assert tail == "UTC" + [' '] + Join(parts[2..], ' ');
      assert time == v + " UTC" + ([' '] + Join(parts[2..], ' '));
    }
  }

  /** A non-empty, space-free value followed by " UTC" and then by the end
      of the string or a space is accepted. */
  lemma TimeGuardComplete(time: string, v: string)
    requires v != "" && ' ' !in v && StartsWith(time, v + " UTC")
    requires |time| == |v| + 4 || time[|v| + 4] == ' '
    ensures TimeGuard(time) == Some(v)
  {
    var rest := time[|v| + 4..];
    assert time == v + [' '] + ("UTC" + rest);
    SplitAtFirst(v, ' ', "UTC" + rest);
    if rest == "" {
      assert ' ' !in "UTC";
      SplitNoSeparator("UTC", ' ');
      assert "UTC" + rest == "UTC";
    } else {
      assert "UTC" + rest == "UTC" + [' '] + rest[1..];
      SplitAtFirst("UTC", ' ', rest[1..]);
    }
  }

  /** The guard accepts exactly the strings "<v> UTC" and "<v> UTC <anything>"
      with a non-empty first token `v` free of spaces. */
  lemma TimeGuardIff(time: string, v: string)
    ensures TimeGuard(time) == Some(v) <==>
            v != "" && ' ' !in v && StartsWith(time, v + " UTC") &&
            (|time| == |v| + 4 || time[|v| + 4] == ' ')
  {
    if TimeGuard(time) == Some(v) {
      TimeGuardSound(time, v);
    }
    if v != "" && ' ' !in v && StartsWith(time, v + " UTC") &&
       (|time| == |v| + 4 || time[|v| + 4] == ' ') {
      TimeGuardComplete(time, v);
    }
  }

  /** The launch instant, when the guard and the date parsing both succeed. */
  function LaunchInstant(date: string, time: string, parse: DateParser): (r: Option<int>)
    ensures r.Some? ==> TimeGuard(time).Some? && parse(date, TimeGuard(time).value) == r
    ensures TimeGuard(time).Some? ==> r == parse(date, TimeGuard(time).value)
  {
    match TimeGuard(time)
    case None => None
    case Some(timeValue) => parse(date, timeValue)
  }

  /** The bucket of the "time ago" phrase. */
  datatype Ago = JustNow | MinutesAgo(minutes: nat) | HoursAgo(hours: nat) | DaysAgo(days: nat)

  /** The bucket for `diff = now - launch`: below one minute (including every
      negative difference) "just now", then whole minutes, hours or days,
      each count the floor of the difference in that unit. */
  function TimeAgo(diff: int): (a: Ago)
    ensures a == JustNow <==> diff < MsPerMinute
    ensures a.MinutesAgo? <==> MsPerMinute <= diff < MsPerHour
    ensures a.HoursAgo? <==> MsPerHour <= diff < MsPerDay
    ensures a.DaysAgo? <==> MsPerDay <= diff
    ensures a.MinutesAgo? ==>
              (1 <= a.minutes <= 59 && a.minutes * MsPerMinute <= diff < (a.minutes + 1) * MsPerMinute)
    ensures a.HoursAgo? ==>
              (1 <= a.hours <= 23 && a.hours * MsPerHour <= diff < (a.hours + 1) * MsPerHour)
    ensures a.DaysAgo? ==>
              (1 <= a.days && a.days * MsPerDay <= diff < (a.days + 1) * MsPerDay)
  {
    if diff < 60000 then JustNow
    else if diff < 3600000 then MinutesAgo(diff / 60000)
    else if diff < 86400000 then HoursAgo(diff / 3600000)
    else DaysAgo(diff / 86400000)
  }

  /** The count of a bucket other than "just now". */
  function Count(a: Ago): nat
    requires !a.JustNow?
  {
    match a
    case MinutesAgo(m) => m
    case HoursAgo(h) => h
    case DaysAgo(d) => d
  }

  function UnitWord(a: Ago): string
    requires !a.JustNow?
  {
    match a
    case MinutesAgo(_) => "minute"
    case HoursAgo(_) => "hour"
    case DaysAgo(_) => "day"
  }

  /** `${n} ${word}${n === 1 ? '' : 's'} ago`: the count, its unit, and an
      's' exactly when the count is not 1. */
  function Phrase(n: nat, word: string): (r: string)
    requires word != "" && word[|word| - 1] != 's'
    ensures StartsWith(r, Decimal(n) + " " + word)
    ensures EndsWith(r, " ago") && (EndsWith(r, "s ago") <==> n != 1)
    ensures |r| == |Decimal(n)| + |word| + (if n == 1 then 5 else 6)
  {
    var stem := Decimal(n) + " " + word;
    var r := stem + (if n == 1 then "" else "s") + " ago";
    assert r[..|stem|] == stem;
    assert r[|r| - 4..] == " ago";
    assert r[|r| - 5] == if n == 1 then word[|word| - 1] else 's';
    assert r[|r| - 5..] == [r[|r| - 5]] + " ago";
    r
  }

  /** The phrase of a bucket. */
  function AgoText(a: Ago): (r: string)
    ensures a.JustNow? ==> r == "just now"
    ensures !a.JustNow? ==> r == Phrase(Count(a), UnitWord(a))
  {
    match a
    case JustNow => "just now"
    case MinutesAgo(m) => Phrase(m, "minute")
    case HoursAgo(h) => Phrase(h, "hour")
    case DaysAgo(d) => Phrase(d, "day")
  }

  /** The boundary between "just now" and minutes: 59 s and 60 s. */
  lemma MinuteBoundary()
    ensures AgoText(TimeAgo(59000)) == "just now"
    ensures AgoText(TimeAgo(60000)) == "1 minute ago"
  {
    assert TimeAgo(60000) == MinutesAgo(1);
    assert Decimal(1) == "1";
    assert Phrase(1, "minute") == "1" + " " + "minute" + "" + " ago";
  }

  lemma DecimalFiftyNine()
    ensures Decimal(59) == "59"
  {
    assert Decimal(59) == Decimal(5) + [DigitChar(9)];
  }

  /** The last minute before the hour: 3599 s. */
  lemma LastMinuteBucket()
    ensures AgoText(TimeAgo(3599000)) == "59 minutes ago"
  {
    assert TimeAgo(3599000) == MinutesAgo(59);
    DecimalFiftyNine();
  }

  /** The first hour: 3600 s. */
  lemma FirstHourBucket()
    ensures AgoText(TimeAgo(3600000)) == "1 hour ago"
  {
    assert TimeAgo(3600000) == HoursAgo(1);
    assert Decimal(1) == "1";
  }

  /** `updateTime`: None when the guard throws or formatting fails (the
      catch shows "Date TBD"); for an upcoming launch exactly the formatted
      instant, otherwise the formatted instant and " (<phrase>)". */
  function Display(date: string, time: string, status: LaunchStatus, now: int,
                   parse: DateParser, format: DateFormatter): (r: Option<string>)
    ensures r.Some? ==> LaunchInstant(date, time, parse).Some?
    ensures TimeGuard(time).None? ==> r.None?
    ensures r.Some? && status == Upcoming ==>
              format(UpcomingStyle, LaunchInstant(date, time, parse).value) == r
    ensures r.Some? && status != Upcoming ==>
              var s := format(PastStyle, LaunchInstant(date, time, parse).value);
              var phrase := AgoText(TimeAgo(now - LaunchInstant(date, time, parse).value));
              s.Some? && r.value == s.value + " (" + phrase + ")"
    ensures LaunchInstant(date, time, parse).Some? ==>
              var style := if status == Upcoming then UpcomingStyle else PastStyle;
              (r.Some? <==> format(style, LaunchInstant(date, time, parse).value).Some?)
  {
    match LaunchInstant(date, time, parse)
    case None => None
    case Some(launch) =>
      if status == Upcoming then format(UpcomingStyle, launch)
      else
        var timeAgo := AgoText(TimeAgo(now - launch));
        match format(PastStyle, launch)
        case None => None
        case Some(s) => Some(s + " (" + timeAgo + ")")
  }

  /** The `timeDisplay` state that `updateTime` sets. */
  function UpdateTime(date: string, time: string, status: LaunchStatus, now: int,
                      parse: DateParser, format: DateFormatter): (r: string)
    ensures TimeGuard(time).None? ==> r == DateTbd
    ensures Display(date, time, status, now, parse, format).None? ==> r == DateTbd
    ensures Display(date, time, status, now, parse, format).Some? ==>
              r == Display(date, time, status, now, parse, format).value
  {
    match Display(date, time, status, now, parse, format)
    case None => DateTbd
    case Some(s) => s
  }

  /** The rendered text: "Date TBD" whenever the date or the time prop is
      empty, whatever `timeDisplay` holds. */
  function Rendered(date: string, time: string, timeDisplay: string): (r: string)
    ensures date == "" || time == "" ==> r == DateTbd
    ensures date != "" && time != "" ==> r == timeDisplay
  {
    if date == "" || time == "" then DateTbd else timeDisplay
  }
}
