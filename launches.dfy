/** The launches page (Launches.tsx): launches split into upcoming and past
    by status, each list sorted by date with a stable sort, the status badge,
    the empty-list message, and the 50-step count-up of the mission stats. */
module Launches {
  import opened Common

  /** A launch; `date` is the instant its date string parses to, in ms. */
  datatype Launch = Launch(id: string, date: int, status: LaunchStatus)

  // ---------------------------------------------------------------------------
  // Stable sort by date
  // ---------------------------------------------------------------------------

  /** `x` may come before `y`: dates ascending, or descending for the
      reversed comparator. */
  predicate InOrder(x: Launch, y: Launch, ascending: bool) {
    if ascending then x.date <= y.date else x.date >= y.date
  }

  predicate Sorted(s: seq<Launch>, ascending: bool) {
    forall i, j :: 0 <= i < j < |s| ==> InOrder(s[i], s[j], ascending)
  }

  /** The launches with date `d`, in their order. */
  function WithDate(s: seq<Launch>, d: int): seq<Launch>
    decreases |s|
  {
    if s == [] then []
    else (if s[0].date == d then [s[0]] else []) + WithDate(s[1..], d)
  }

  /** `x` placed before the first element it may precede. */
  function Insert(x: Launch, s: seq<Launch>, ascending: bool): (r: seq<Launch>)
    ensures multiset(r) == multiset(s) + multiset{x}
    decreases |s|
  {
    if s == [] || InOrder(x, s[0], ascending) then
      [x] + s
    else
      assert s == [s[0]] + s[1..];
      [s[0]] + Insert(x, s[1..], ascending)
  }

  /** Inserting into a sorted list gives a sorted list. */
  lemma {:induction false} InsertSorted(x: Launch, s: seq<Launch>, ascending: bool)
    requires Sorted(s, ascending)
    ensures Sorted(Insert(x, s, ascending), ascending)
    decreases |s|
  {
    if !(s == [] || InOrder(x, s[0], ascending)) {
      var rest := Insert(x, s[1..], ascending);
      InsertSorted(x, s[1..], ascending);
      forall y | y in rest
        ensures InOrder(s[0], y, ascending)
      {
        assert y in multiset(rest);
        assert y == x || y in multiset(s[1..]);
      }
    }
  }

  /** The launch itself when it has date `d`, nothing otherwise. */
  function Keep(y: Launch, d: int): seq<Launch> {
    if y.date == d then [y] else []
  }

  lemma WithDateCons(y: Launch, t: seq<Launch>, d: int)
    ensures WithDate([y] + t, d) == Keep(y, d) + WithDate(t, d)
  {
    assert ([y] + t)[1..] == t;
  }

  /** Launches of different dates can trade places without changing what
      any one date sees. */
  lemma KeepCommute(x: Launch, y: Launch, d: int, w: seq<Launch>)
    requires x.date != y.date
    ensures Keep(x, d) + (Keep(y, d) + w) == Keep(y, d) + (Keep(x, d) + w)
  {
    if x.date == d {
      assert Keep(y, d) == [];
    } else {
      assert Keep(x, d) == [];
    }
  }

  /** Inserting keeps the launches of every date in the order they had, with
      `x` at the front of its own date. */
  lemma {:induction false} InsertKeepsDateOrder(x: Launch, s: seq<Launch>, ascending: bool, d: int)
    ensures WithDate(Insert(x, s, ascending), d) == WithDate([x] + s, d)
    decreases |s|
  {
    if !(s == [] || InOrder(x, s[0], ascending)) {
      var head, tail := s[0], s[1..];
      assert s == [head] + tail;
      var rest := Insert(x, tail, ascending);
      assert Insert(x, s, ascending) == [head] + rest;
      InsertKeepsDateOrder(x, tail, ascending, d);
      WithDateCons(head, rest, d);
      WithDateCons(x, tail, d);
      WithDateCons(x, s, d);
      WithDateCons(head, tail, d);
      KeepCommute(head, x, d, WithDate(tail, d));
    }
  }

  /** `Array.prototype.sort` with the date comparator: sorted, a permutation
      of the input. */
  function SortByDate(s: seq<Launch>, ascending: bool): (r: seq<Launch>)
    ensures Sorted(r, ascending)
    ensures multiset(r) == multiset(s)
    decreases |s|
  {
    if s == [] then []
    else
      var rest := SortByDate(s[1..], ascending);
      assert s == [s[0]] + s[1..];
      InsertSorted(s[0], rest, ascending);
      Insert(s[0], rest, ascending)
  }

  /** The sort is stable: launches with the same date keep their order. */
  lemma {:induction false} SortIsStable(s: seq<Launch>, ascending: bool, d: int)
    ensures WithDate(SortByDate(s, ascending), d) == WithDate(s, d)
    decreases |s|
  {
    if s != [] {
      var rest := SortByDate(s[1..], ascending);
      InsertKeepsDateOrder(s[0], rest, ascending, d);
      SortIsStable(s[1..], ascending, d);
      assert ([s[0]] + rest)[1..] == rest;
    }
  }

  // ---------------------------------------------------------------------------
  // Partition
  // ---------------------------------------------------------------------------

  /** `launches.filter(launch => (launch.status === 'upcoming') === upcoming)`. */
  function ByStatus(s: seq<Launch>, upcoming: bool): (r: seq<Launch>)
    ensures forall l :: l in r <==> l in s && (l.status == Upcoming) == upcoming
    ensures IsSubsequence(r, s)
    decreases |s|
  {
    if s == [] then []
    else
      var rest := ByStatus(s[1..], upcoming);
      assert forall l :: l in s <==> l == s[0] || l in s[1..];
      if (s[0].status == Upcoming) == upcoming then [s[0]] + rest else rest
  }

  /** The filter of a list with a first launch: that launch when it passes,
      then the filter of the rest. */
  lemma ByStatusCons(x: Launch, t: seq<Launch>, upcoming: bool)
    ensures ByStatus([x] + t, upcoming) ==
            (if (x.status == Upcoming) == upcoming then [x] else []) + ByStatus(t, upcoming)
  {
    assert ([x] + t)[0] == x && ([x] + t)[1..] == t;
  }

  /** The two halves of the filter together hold every launch exactly once. */
  lemma {:induction false} ByStatusPartition(s: seq<Launch>)
    ensures multiset(ByStatus(s, true)) + multiset(ByStatus(s, false)) == multiset(s)
    decreases |s|
  {
    if s != [] {
      var x, t := s[0], s[1..];
      assert s == [x] + t;
      ByStatusPartition(t);
      ByStatusCons(x, t, true);
      ByStatusCons(x, t, false);
    }
  }

  /** `upcomingLaunches`: the upcoming launches, earliest first. */
  function UpcomingLaunches(s: seq<Launch>): (r: seq<Launch>)
    ensures Sorted(r, true)
    ensures multiset(r) == multiset(ByStatus(s, true))
  {
    SortByDate(ByStatus(s, true), true)
  }

  /** `pastLaunches`: every other launch, latest first. */
  function PastLaunches(s: seq<Launch>): (r: seq<Launch>)
    ensures Sorted(r, false)
    ensures multiset(r) == multiset(ByStatus(s, false))
  {
    SortByDate(ByStatus(s, false), false)
  }

  /** Every launch lands in exactly one list: upcoming exactly when its status
      is 'upcoming'; each list is sorted its way and stable. */
  lemma LaunchPartition(s: seq<Launch>)
    ensures multiset(UpcomingLaunches(s)) + multiset(PastLaunches(s)) == multiset(s)
    ensures forall l :: l in UpcomingLaunches(s) <==> l in s && l.status == Upcoming
    ensures forall l :: l in PastLaunches(s) <==> l in s && l.status != Upcoming
    ensures Sorted(UpcomingLaunches(s), true) && Sorted(PastLaunches(s), false)
    ensures forall d :: WithDate(UpcomingLaunches(s), d) == WithDate(ByStatus(s, true), d)
    ensures forall d :: WithDate(PastLaunches(s), d) == WithDate(ByStatus(s, false), d)
  {
    forall d
      ensures WithDate(UpcomingLaunches(s), d) == WithDate(ByStatus(s, true), d)
      ensures WithDate(PastLaunches(s), d) == WithDate(ByStatus(s, false), d)
    {
      SortIsStable(ByStatus(s, true), true, d);
      SortIsStable(ByStatus(s, false), false, d);
    }
    ByStatusPartition(s);
    var up, past := ByStatus(s, true), ByStatus(s, false);
    forall l
      ensures l in UpcomingLaunches(s) <==> l in up
      ensures l in PastLaunches(s) <==> l in past
    {
      assert l in UpcomingLaunches(s) <==> l in multiset(UpcomingLaunches(s));
      assert l in PastLaunches(s) <==> l in multiset(PastLaunches(s));
    }
  }

  // ---------------------------------------------------------------------------
  // Badge and empty state
  // ---------------------------------------------------------------------------

  /** The badge text: UPCOMING, SUCCESSFUL, and FAILED for anything else. */
  function StatusLabel(status: LaunchStatus): (r: string)
    ensures r == "UPCOMING" <==> status == Upcoming
    ensures r == "SUCCESSFUL" <==> status == Success
    ensures r == "FAILED" <==> status != Upcoming && status != Success
  {
    if status == Upcoming then "UPCOMING"
    else if status == Success then "SUCCESSFUL"
    else "FAILED"
  }

  /** The badge colour: green for success, red for failure, the brand blue
      otherwise. */
  function StatusBadgeColor(status: LaunchStatus): (c: string)
    ensures c == "bg-green-600" <==> status == Success
    ensures c == "bg-red-600" <==> status == Failure
    ensures c == "bg-[#005288]" <==> status == Upcoming
  {
    assert "bg-green-600"[3] != "bg-[#005288]"[3];
    match status
    case Success => "bg-green-600"
    case Failure => "bg-red-600"
    case Upcoming => "bg-[#005288]"
  }

  datatype Tab = UpcomingTab | PastTab

  function ActiveList(tab: Tab, s: seq<Launch>): seq<Launch> {
    if tab == UpcomingTab then UpcomingLaunches(s) else PastLaunches(s)
  }

  /** The empty-state message, when it is shown: exactly when the active
      tab's list is empty, which for the upcoming tab means no launch has
      status 'upcoming'. */
  function EmptyMessage(tab: Tab, s: seq<Launch>): (r: Option<string>)
    ensures r.Some? <==> ActiveList(tab, s) == []
    ensures tab == UpcomingTab ==> (r.Some? <==> forall l :: l in s ==> l.status != Upcoming)
    ensures tab == PastTab ==> (r.Some? <==> forall l :: l in s ==> l.status == Upcoming)
    ensures r.Some? ==> r.value == if tab == UpcomingTab then "No upcoming launches scheduled."
                                   else "No past launches to display."
  {
    LaunchPartition(s);
    var active := ActiveList(tab, s);
    if active == [] then
      Some(if tab == UpcomingTab then "No upcoming launches scheduled." else "No past launches to display.")
    else
      assert active[0] in active;
      None
  }

  // ---------------------------------------------------------------------------
  // Count-up of the mission stats
  // ---------------------------------------------------------------------------

  const Steps: nat := 50

  /** `Math.round(target * (k / 50))` in exact arithmetic: the integer
      nearest to target·k/50, halves rounded up. */
  function CountUp(target: nat, k: nat): (r: nat)
    ensures 100 * r <= 2 * target * k + 50 < 100 * r + 100
  {
    (2 * target * k + 50) / 100
  }

  /** The count starts at 0 and ends exactly on the target. */
  lemma CountUpEnds(target: nat)
    ensures CountUp(target, 0) == 0
    ensures CountUp(target, Steps) == target
  {
    assert 2 * target * Steps + 50 == 100 * target + 50;
  }

  /** The count never decreases from one step to a later one. */
  lemma CountUpMonotone(target: nat, k1: nat, k2: nat)
    requires k1 <= k2
    ensures CountUp(target, k1) <= CountUp(target, k2)
  {
    assert target * k1 <= target * k2 by {
      assert target * k2 == target * k1 + target * (k2 - k1);
    }
  }

  /** Up to the last step the count never passes the target. */
  lemma CountUpBounded(target: nat, k: nat)
    requires k <= Steps
    ensures CountUp(target, k) <= target
  {
    CountUpMonotone(target, k, Steps);
    CountUpEnds(target);
  }

  /** `animatedStats` and `missionStats`. */
  datatype Stats = Stats(completedMissions: nat, totalLandings: nat, totalReflights: nat)

  const MissionStats := Stats(227, 185, 157)

  /** The stats shown after step `k`: each is its target times k/50,
      rounded half up. */
  function StatsAt(k: nat): (r: Stats)
    ensures 100 * r.completedMissions <= 2 * MissionStats.completedMissions * k + 50 < 100 * r.completedMissions + 100
    ensures 100 * r.totalLandings <= 2 * MissionStats.totalLandings * k + 50 < 100 * r.totalLandings + 100
    ensures 100 * r.totalReflights <= 2 * MissionStats.totalReflights * k + 50 < 100 * r.totalReflights + 100
  {
    Stats(CountUp(MissionStats.completedMissions, k),
          CountUp(MissionStats.totalLandings, k),
          CountUp(MissionStats.totalReflights, k))
  }

  /** The shown stats start at all zeros. */
  lemma StatsStart()
    ensures StatsAt(0) == Stats(0, 0, 0)
  {
  }

  /** After the last step the shown stats are exactly `missionStats`. */
  lemma StatsEnd()
    ensures StatsAt(Steps) == MissionStats
  {
  }

  /** In between, each shown stat never goes down and never passes its
      target. */
  lemma StatsClimb(k1: nat, k2: nat)
    requires k1 <= k2 <= Steps
    ensures StatsAt(k1).completedMissions <= StatsAt(k2).completedMissions <= MissionStats.completedMissions
    ensures StatsAt(k1).totalLandings <= StatsAt(k2).totalLandings <= MissionStats.totalLandings
    ensures StatsAt(k1).totalReflights <= StatsAt(k2).totalReflights <= MissionStats.totalReflights
  {
    CountUpMonotone(MissionStats.completedMissions, k1, k2);
    CountUpMonotone(MissionStats.totalLandings, k1, k2);
    CountUpMonotone(MissionStats.totalReflights, k1, k2);
    CountUpBounded(MissionStats.completedMissions, k2);
    CountUpBounded(MissionStats.totalLandings, k2);
    CountUpBounded(MissionStats.totalReflights, k2);
  }

  /** The mount effect's interval: the `step` counter, the shown stats and
      whether the interval has been cleared. */
  class StatsAnimator {
    var step: nat
    var shown: Stats
    var cleared: bool

    ghost predicate Valid()
      reads this
    {
      step <= Steps && shown == StatsAt(step) && (cleared <==> step == Steps)
    }

    constructor ()
      ensures Valid() && step == 0 && shown == Stats(0, 0, 0) && !cleared
    {
      step := 0;
      shown := StatsAt(0);
      cleared := false;
    }

    /** One firing: advance the step, show its stats, clear at step 50. */
    method Tick()
      requires Valid() && !cleared
      modifies this
      ensures Valid()
      ensures step == old(step) + 1 && shown == StatsAt(step)
      ensures cleared <==> step == Steps
    {
      step := step + 1;
      shown := StatsAt(step);
      if step == Steps {
        cleared := true;
      }
    }

    /** Firing until the interval clears itself takes exactly the remaining
      steps, and leaves `missionStats` on show. */
    method RunToCompletion() returns (ticks: nat)
      requires Valid()
      modifies this
      ensures Valid() && cleared && step == Steps && shown == MissionStats
      ensures ticks == Steps - old(step)
    {
      ticks := 0;
      while !cleared
        invariant Valid()
        invariant ticks == step - old(step)
        decreases Steps - step
      {
        Tick();
        ticks := ticks + 1;
      }
      StatsEnd();
    }
  }
}
