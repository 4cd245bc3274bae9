/** The launch countdown (LaunchCountdown.tsx): a target fixed at mount, a
    once-a-second recalculation of the time left, a sticky expiry flag and
    the card formatting. */
module Countdown {
  import opened Duration
  import opened Text

  /** The launch instant chosen at mount: thirty calendar days after `now`,
      at 12:00:00.000 local time, for a local zone `tzOffset` ms ahead of UTC. */
  function LaunchTarget(now: int, tzOffset: int): (target: int)
    ensures (target + tzOffset) % MsPerDay == 12 * MsPerHour
    ensures 30 * MsPerDay - 12 * MsPerHour < target - now <= 30 * MsPerDay + 12 * MsPerHour
  {
    var local := now + tzOffset;
    (local / MsPerDay + 30) * MsPerDay + 12 * MsPerHour - tzOffset
  }

  /** What `calculateTimeLeft` returns for `distance = target - now`: all
      zeros once the distance is negative, the decomposition otherwise. */
  function TimeLeftAt(distance: int): (t: TimeLeft)
    ensures InRange(t)
    ensures distance <= 0 ==> t == Zero
    ensures distance >= 0 ==> Millis(t) == distance - distance % MsPerSecond
  {
    if distance < 0 then Zero
    else
      DecomposeRoundTrip(distance);
      Decompose(distance)
  }

  /** The expiry flag after calculations at the instants `nows`, in order,
      starting from `was`. */
  function ExpiredAfter(was: bool, target: int, nows: seq<int>): (r: bool)
    ensures was ==> r
    ensures forall i :: 0 <= i < |nows| && target - nows[i] < 0 ==> r
    decreases |nows|
  {
    if nows == [] then was else ExpiredAfter(was || target - nows[0] < 0, target, nows[1..])
  }

  /** Expiry is sticky: the flag is set after a run of calculations exactly
      when it was set before or some calculation saw a negative distance. */
  lemma {:induction false} ExpirySticky(was: bool, target: int, nows: seq<int>)
    ensures ExpiredAfter(was, target, nows) <==>
            was || exists i :: 0 <= i < |nows| && target - nows[i] < 0
    decreases |nows|
  {
    if nows != [] {
      ExpirySticky(was || target - nows[0] < 0, target, nows[1..]);
      if i :| 0 <= i < |nows[1..]| && target - nows[1..][i] < 0 {
        assert target - nows[i + 1] < 0;
      }
      if i :| 0 <= i < |nows| && target - nows[i] < 0 {
        if i > 0 {
          assert target - nows[1..][i - 1] < 0;
        }
      }
    }
  }

  /** `formatNumber`: `num.toString().padStart(2, '0')`. */
  function FormatNumber(n: nat): (r: string)
    ensures |r| >= 2 && IsDigits(r)
    ensures DecimalValue(r) == n
    ensures n < 10 ==> |r| == 2 && r == "0" + Decimal(n)
    ensures n >= 10 ==> r == Decimal(n)
  {
    var s := Decimal(n);
    DecimalRoundTrip(n);
    if |s| < 2 then
      LeadingZeroValue(s);
      "0" + s
    else s
  }

  /** The singular label of a unit; anything but days, hours and minutes is
      labelled as seconds. */
  function UnitStem(unit: string): string {
    if unit == "days" then "DAY"
    else if unit == "hours" then "HOUR"
    else if unit == "minutes" then "MINUTE"
    else "SECOND"
  }

  /** `getUnitLabel`: the singular form exactly when the value is 1 (so 0 is
      plural), the plural adds an 'S'. */
  function UnitLabel(unit: string, value: int): (r: string)
    ensures StartsWith(r, UnitStem(unit))
    ensures r == UnitStem(unit) <==> value == 1
    ensures value != 1 ==> r == UnitStem(unit) + "S"
  {
    if unit == "days" then (if value == 1 then "DAY" else "DAYS")
    else if unit == "hours" then (if value == 1 then "HOUR" else "HOURS")
    else if unit == "minutes" then (if value == 1 then "MINUTE" else "MINUTES")
    else if value == 1 then "SECOND" else "SECONDS"
  }

  /** The keys of `TimeLeft` in `Object.entries` order. */
  const Units: seq<string> := ["days", "hours", "minutes", "seconds"]

  function Values(t: TimeLeft): seq<nat> {
    [t.days, t.hours, t.minutes, t.seconds]
  }

  /** One card of the board: the padded number and its unit label. */
  datatype Card = Card(number: string, caption: string)

  /** The four cards rendered from `timeLeft`: each number reads back as the
      unit's count, and each label is singular exactly when the count is 1. */
  function Cards(t: TimeLeft): (cs: seq<Card>)
    ensures |cs| == 4
    ensures forall i :: 0 <= i < 4 ==>
              |cs[i].number| >= 2 && DecimalValue(cs[i].number) == Values(t)[i] &&
              StartsWith(cs[i].caption, UnitStem(Units[i])) &&
              (cs[i].caption == UnitStem(Units[i]) <==> Values(t)[i] == 1)
    ensures forall i :: 0 <= i < 4 && Values(t)[i] != 1 ==> cs[i].caption == UnitStem(Units[i]) + "S"
    ensures forall i :: 0 <= i < 4 && Values(t)[i] < 10 ==> cs[i].number == "0" + Decimal(Values(t)[i])
    ensures forall i :: 0 <= i < 4 && Values(t)[i] >= 10 ==> cs[i].number == Decimal(Values(t)[i])
  {
    seq(4, i requires 0 <= i < 4 =>
      Card(FormatNumber(Values(t)[i]), UnitLabel(Units[i], Values(t)[i])))
  }

  /** What the component renders: a skeleton while loading, otherwise the
      heading, the four cards and, before expiry, the mission banner. */
  datatype Screen = Skeleton | Board(heading: string, cards: seq<Card>, showsMission: bool)

  function Render(isLoading: bool, isExpired: bool, t: TimeLeft): (s: Screen)
    ensures s.Skeleton? <==> isLoading
    ensures s.Board? ==> s.cards == Cards(t)
    ensures s.Board? ==> (s.heading == "LAUNCH COMPLETED" <==> isExpired)
    ensures s.Board? ==> (s.heading == "NEXT LAUNCH" <==> !isExpired)
    ensures s.Board? ==> (s.showsMission <==> !isExpired)
  {
    if isLoading then Skeleton
    else Board(if isExpired then "LAUNCH COMPLETED" else "NEXT LAUNCH", Cards(t), !isExpired)
  }

  /** The component state: `timeLeft`, `isExpired`, `isLoading` and the
      launch date captured by the mount effect. */
  class LaunchCountdown {
    var target: int
    var timeLeft: TimeLeft
    var isExpired: bool
    var isLoading: bool

    /** The initial state before the mount effect runs. */
    constructor ()
      ensures timeLeft == Zero && !isExpired && isLoading
    {
      target := 0;
      timeLeft := Zero;
      isExpired := false;
      isLoading := true;
    }

    /** `calculateTimeLeft` at instant `now`: sets the expiry flag (and clears
      loading) when the distance is negative, and returns the time left. */
    method CalculateTimeLeft(now: int) returns (t: TimeLeft)
      modifies this`isExpired, this`isLoading
      ensures t == TimeLeftAt(target - now)
      ensures isExpired == (old(isExpired) || target - now < 0)
      ensures isLoading == (old(isLoading) && target - now >= 0)
    {
      var distance := target - now;
      if distance < 0 {
        isExpired := true;
        isLoading := false;
        return Zero;
      }
      t := Decompose(distance);
    }

    /** The mount effect: fix the target, compute the first time left and
      leave the loading state. A fresh countdown is never expired. */
    method Mount(now: int, tzOffset: int)
      requires isLoading && !isExpired
      modifies this
      ensures target == LaunchTarget(now, tzOffset)
      ensures timeLeft == TimeLeftAt(target - now)
      ensures !isLoading && !isExpired
    {
      target := LaunchTarget(now, tzOffset);
      var t := CalculateTimeLeft(now);
      timeLeft := t;
      isLoading := false;
    }

    /** One firing of the 1000 ms interval: only the current time is read
      again; the target stays as it was fixed at mount. */
    method Tick(now: int)
      requires !isLoading
      modifies this`timeLeft, this`isExpired, this`isLoading
      ensures timeLeft == TimeLeftAt(target - now)
      ensures isExpired == (old(isExpired) || target - now < 0)
      ensures old(isExpired) ==> isExpired
      ensures !isLoading
    {
      var t := CalculateTimeLeft(now);
      timeLeft := t;
    }
  }
}
