/** Choosing the next scheduled run (`WaitUntilNextRunTime` in
    Services/JobSyncService.cs). Instants are whole seconds of local time
    since a local midnight, so that "today" and "tomorrow" are exact. */
module Schedule {
  import opened Wrappers

  const DaySeconds: nat := 86400

  /** `_runTimes`: 09:00, 12:00 and 18:30 as seconds into the day. */
  const RunTimes: seq<nat> := [32400, 43200, 66600]

  /** A usable run-time list: not empty, every entry a time of day. */
  predicate ValidRunTimes(ts: seq<nat>)
  {
    |ts| > 0 && forall i :: 0 <= i < |ts| ==> ts[i] < DaySeconds
  }

  predicate Ascending(ts: seq<nat>)
  {
    forall i, k :: 0 <= i < k < |ts| ==> ts[i] <= ts[k]
  }

  /** `nowLocal.Date`: the local midnight at or before `now`. */
  function StartOfDay(now: nat): (d: nat)
    ensures d <= now < d + DaySeconds
    ensures d % DaySeconds == 0
  {
    now - now % DaySeconds
  }

  /** The earliest of today's run instants still ahead of `now`, when there is one. */
  function EarliestAhead(today: nat, now: nat, ts: seq<nat>): (r: Option<nat>)
    ensures r.None? <==> forall i :: 0 <= i < |ts| ==> today + ts[i] <= now
    ensures r.Some? ==> r.value > now && exists i :: 0 <= i < |ts| && r.value == today + ts[i]
    ensures r.Some? ==> forall i :: 0 <= i < |ts| && today + ts[i] > now ==> r.value <= today + ts[i]
  {
    if |ts| == 0 then None
    else
      var rest := EarliestAhead(today, now, ts[1..]);
      assert forall i :: 1 <= i < |ts| ==> ts[i] == ts[1..][i - 1];
      var here := today + ts[0];
      if here <= now then rest
      else if rest.Some? && rest.value < here then rest
      else Some(here)
  }

  /** `nextRunLocal`: today's earliest remaining run, or else tomorrow at the first listed time. */
  function NextRun(now: nat, ts: seq<nat>): (next: nat)
    requires ValidRunTimes(ts)
    ensures now < next <= now + DaySeconds
  {
    var today := StartOfDay(now);
    match EarliestAhead(today, now, ts)
    case Some(t) => t
    case None => today + DaySeconds + ts[0]
  }

  /** `delay = nextRun - now`, set to zero when negative. */
  function ClampedDelay(now: int, next: int): (delay: nat)
    ensures next >= now ==> delay == next - now
    ensures next < now ==> delay == 0
  {
    if next - now < 0 then 0 else next - now
  }

  /** The next run is one of the configured times, today or tomorrow. */
  lemma NextRunIsConfigured(now: nat, ts: seq<nat>)
    requires ValidRunTimes(ts)
    ensures exists i :: (0 <= i < |ts| &&
                         (NextRun(now, ts) == StartOfDay(now) + ts[i] ||
                          NextRun(now, ts) == StartOfDay(now) + DaySeconds + ts[i]))
  {
    var today := StartOfDay(now);
    if EarliestAhead(today, now, ts).None? {
      assert NextRun(now, ts) == today + DaySeconds + ts[0];
    }
  }

  /** With ascending run times the next run is the earliest configured instant, today or
      tomorrow, that lies strictly after `now`. */
  lemma NextRunIsEarliest(now: nat, ts: seq<nat>)
    requires ValidRunTimes(ts) && Ascending(ts)
    ensures forall i :: 0 <= i < |ts| && StartOfDay(now) + ts[i] > now ==>
      NextRun(now, ts) <= StartOfDay(now) + ts[i]
    ensures forall i :: 0 <= i < |ts| ==> NextRun(now, ts) <= StartOfDay(now) + DaySeconds + ts[i]
  {
  }

  /** Whenever the schedule waits, the wait is positive and at most a day. */
  lemma WaitIsPositiveAndBounded(now: nat)
    ensures 0 < ClampedDelay(now, NextRun(now, RunTimes)) <= DaySeconds
  {
  }

  /** At 13:00 the next run is 18:30 the same day. */
  lemma AfterNoonRunsAtSixThirty(day: nat)
    ensures NextRun(day * DaySeconds + 46800, RunTimes) == day * DaySeconds + 66600
  {
    assert StartOfDay(day * DaySeconds + 46800) == day * DaySeconds;
    var today := day * DaySeconds;
    assert RunTimes[1..] == [43200, 66600] && RunTimes[2..] == [66600];
    assert EarliestAhead(today, today + 46800, [66600]) == Some(today + 66600);
  }

  /** At 19:00 every run of the day is over: the next run is 09:00 the next day. */
  lemma EveningRunsNextMorning(day: nat)
    ensures NextRun(day * DaySeconds + 68400, RunTimes) == (day + 1) * DaySeconds + 32400
  {
  }
}
