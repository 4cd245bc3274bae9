/** The mission page's stat counters (Mission.tsx): every 20 ms tick bumps
    each value by one towards its target, and the interval is meant to stop
    once every value has reached its target. */
module Mission {

  datatype MissionStat = MissionStat(value: int, target: int, title: string)

  /** The three counters as the page mounts them. */
  const InitialStats := [
    MissionStat(0, 227, "TOTAL LAUNCHES"),
    MissionStat(0, 185, "TOTAL LANDINGS"),
    MissionStat(0, 157, "TOTAL REFLIGHTS")
  ]

  function Min(a: int, b: int): int {
    if a <= b then a else b
  }

  /** One counter after a tick: one closer to its target, never past it. */
  function Bump(s: MissionStat): (r: MissionStat)
    ensures r.target == s.target && r.title == s.title
    ensures s.value <= s.target ==> r.value == Min(s.value + 1, s.target)
    ensures r.value == s.value <==> s.value == s.target
  {
    s.(value := if s.value < s.target then s.value + 1 else s.target)
  }

  /** `animateStats`: every counter bumped, in place in the list. */
  function AnimateStats(stats: seq<MissionStat>): (r: seq<MissionStat>)
    ensures |r| == |stats|
    ensures forall i :: 0 <= i < |stats| ==> r[i] == Bump(stats[i])
  {
    seq(|stats|, i requires 0 <= i < |stats| => Bump(stats[i]))
  }

  predicate AllComplete(stats: seq<MissionStat>) {
    forall i :: 0 <= i < |stats| ==> stats[i].value == stats[i].target
  }

  predicate WithinTargets(stats: seq<MissionStat>) {
    forall i :: 0 <= i < |stats| ==> stats[i].value <= stats[i].target
  }

  /** A tick keeps every counter within its target, and changes nothing once
      every counter has reached it. */
  lemma AnimateStatsInvariant(stats: seq<MissionStat>)
    ensures WithinTargets(stats) ==> WithinTargets(AnimateStats(stats))
    ensures AllComplete(stats) ==> AnimateStats(stats) == stats
  {
  }

  /** The counters after `k` ticks. */
  function Ticks(stats: seq<MissionStat>, k: nat): (r: seq<MissionStat>)
    ensures |r| == |stats|
    ensures WithinTargets(stats) ==> WithinTargets(r)
  {
    if k == 0 then stats
    else
      AnimateStatsInvariant(Ticks(stats, k - 1));
      AnimateStats(Ticks(stats, k - 1))
  }

  /** After `k` ticks a counter that started within its target stands at
      `min(value + k, target)`, with its target and title unchanged. */
  lemma {:induction false} TicksValue(stats: seq<MissionStat>, k: nat, i: nat)
    requires i < |stats| && stats[i].value <= stats[i].target
    ensures Ticks(stats, k)[i] == stats[i].(value := Min(stats[i].value + k, stats[i].target))
  {
    if k > 0 {
      TicksValue(stats, k - 1, i);
    }
  }

  lemma AllCompleteOfThree(t: seq<MissionStat>)
    requires |t| == 3
    ensures AllComplete(t) <==>
            t[0].value == t[0].target && t[1].value == t[1].target && t[2].value == t[2].target
  {
  }

  /** From the mounted counters every value has reached its target exactly
      from tick 227 on, the largest target. */
  lemma InitialCompletesAt(k: nat)
    ensures AllComplete(Ticks(InitialStats, k)) <==> k >= 227
  {
    var t := Ticks(InitialStats, k);
    TicksValue(InitialStats, k, 0);
    TicksValue(InitialStats, k, 1);
    TicksValue(InitialStats, k, 2);
    assert t[0].value == Min(k, 227) && t[0].target == 227;
    assert t[1].value == Min(k, 185) && t[1].target == 185;
    assert t[2].value == Min(k, 157) && t[2].target == 157;
    AllCompleteOfThree(t);
  }

  // ---------------------------------------------------------------------------
  // The interval
  // ---------------------------------------------------------------------------

  /** The counters and whether the interval has been cleared. */
  datatype Interval = Interval(stats: seq<MissionStat>, cleared: bool)

  /** One firing as written: the stop check reads `snapshot`, the `stats`
      the effect closed over at mount, not the current counters. */
  function StepAsWritten(snapshot: seq<MissionStat>, iv: Interval): (r: Interval)
    ensures iv.cleared ==> r == iv
    ensures !iv.cleared && !AllComplete(snapshot) ==> r == Interval(AnimateStats(iv.stats), false)
    ensures !iv.cleared && AllComplete(snapshot) ==> r == Interval(iv.stats, true)
  {
    if iv.cleared then iv
    else if !AllComplete(snapshot) then iv.(stats := AnimateStats(iv.stats))
    else iv.(cleared := true)
  }

  /** One firing with the stop check on the current counters. */
  function Step(iv: Interval): (r: Interval)
    ensures iv.cleared ==> r == iv
    ensures !iv.cleared && !AllComplete(iv.stats) ==> r == Interval(AnimateStats(iv.stats), false)
    ensures !iv.cleared && AllComplete(iv.stats) ==> r == Interval(iv.stats, true)
  {
    if iv.cleared then iv
    else if !AllComplete(iv.stats) then iv.(stats := AnimateStats(iv.stats))
    else iv.(cleared := true)
  }

  const Mounted := Interval(InitialStats, false)

  /** The interval after `k` firings, as written: the mounted snapshot is
      not complete, so no firing clears it. */
  function RunAsWritten(k: nat): (r: Interval)
    ensures !r.cleared && |r.stats| == 3
  {
    assert InitialStats[0].value != InitialStats[0].target;
    if k == 0 then Mounted else StepAsWritten(InitialStats, RunAsWritten(k - 1))
  }

  /** The interval after `k` firings, with the corrected stop check: the
      counters stay within their targets, and the interval is cleared only
      once all of them have reached it. */
  function Run(k: nat): (r: Interval)
    ensures |r.stats| == 3 && WithinTargets(r.stats)
    ensures r.cleared ==> AllComplete(r.stats)
  {
    if k == 0 then Mounted
    else
      AnimateStatsInvariant(Run(k - 1).stats);
      Step(Run(k - 1))
  }

  /** As written the interval never clears itself: the snapshot is never
      complete, so every firing only ticks, long after every counter has
      reached its target (from firing 227 on). */
  lemma {:induction false} AsWrittenNeverClears(k: nat)
    ensures RunAsWritten(k) == Interval(Ticks(InitialStats, k), false)
    ensures k >= 227 ==> AllComplete(RunAsWritten(k).stats)
  {
    InitialCompletesAt(0);
    InitialCompletesAt(k);
    if k > 0 {
      AsWrittenNeverClears(k - 1);
    }
  }

  /** Corrected, the counters climb for 227 firings and the 228th clears the
      interval, leaving every counter on its target. */
  lemma {:induction false} RunStopsWhenComplete(k: nat)
    ensures Run(k) == Interval(Ticks(InitialStats, Min(k, 227)), k >= 228)
  {
    if k > 0 {
      RunStopsWhenComplete(k - 1);
      InitialCompletesAt(k - 1);
      var prev := Run(k - 1);
      if k - 1 < 227 {
        assert !AllComplete(prev.stats) && !prev.cleared;
        assert Ticks(InitialStats, k) == AnimateStats(prev.stats);
      } else if k - 1 == 227 {
        assert AllComplete(prev.stats) && !prev.cleared;
        assert Run(k) == Interval(prev.stats, true);
      } else {
        assert prev.cleared;
      }
    }
  }

  /** The page's counter state: the current counters, the snapshot the
      interval closed over, and whether the interval has been cleared. */
  class MissionCounters {
    var stats: seq<MissionStat>
    const snapshot: seq<MissionStat>
    var cleared: bool

    constructor ()
      ensures stats == InitialStats && snapshot == InitialStats && !cleared
    {
      stats := InitialStats;
      snapshot := InitialStats;
      cleared := false;
    }

    function State(): Interval
      reads this
    {
      Interval(stats, cleared)
    }

    /** The interval callback as written. */
    method FireAsWritten()
      modifies this
      ensures State() == StepAsWritten(snapshot, old(State()))
    {
      if !cleared {
        if !AllComplete(snapshot) {
          stats := AnimateStats(stats);
        } else {
          cleared := true;
        }
      }
    }

    /** The interval callback with the stop check on the current counters. */
    method Fire()
      modifies this
      ensures State() == Step(old(State()))
    {
      if !cleared {
        if !AllComplete(stats) {
          stats := AnimateStats(stats);
        } else {
          cleared := true;
        }
      }
    }
  }
}
