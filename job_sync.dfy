/** The sync service's state and its cycle (`JobSyncService` in Services/JobSyncService.cs).
    The download and conversion collaborators are replaced by the outcome they produced;
    an exception is an outcome of its own. The status callback's messages are kept as a
    log of `Status` values; the channel's messages as the `sent` trace. */
module JobSync {
  import opened Wrappers
  import opened Jobs
  import opened JobDiff
  import opened Schedule
  import opened Posting

  /** What `RunCsvDownloader` and `GetJobs` produced this cycle. */
  datatype FetchResult =
    | DownloadFailed
    | ConvertFailed
    | Parsed(jobs: seq<JobInfo>)

  /** Everything from outside that one cycle depends on: the local time when the wait is
      computed, the fetch outcome, whether the channel resolves, the footer's date and the
      number of the send that throws, if any. */
  datatype CycleInput = CycleInput(
    now: nat, fetch: FetchResult, channelFound: bool, datePosted: string, sendFailsAt: Option<nat>)

  /** The status lines the service reports through `LogCurrentStatus`. */
  datatype Status =
    | Starting
    | FirstRun
    | NextRunAt(next: nat, delay: nat)
    | DownloadStarted
    | DownloadComplete
    | NoNewJobs
    | Posted(count: nat)
    | Failed

  /** The fields the cycle reads and writes, plus what left the service. */
  datatype SyncState = SyncState(
    previous: seq<JobInfo>, current: seq<JobInfo>, hasRunOnce: bool,
    sent: seq<Message>, log: seq<Status>)

  const Initial: SyncState := SyncState([], [], false, [], [])

  /** The wait `WaitUntilNextRunTime` sleeps: none on the first call, then until the next run. */
  function WaitDelay(hasRunOnce: bool, now: nat): (delay: nat)
    ensures !hasRunOnce ==> delay == 0
    ensures hasRunOnce ==> 0 < delay <= DaySeconds
  {
    if !hasRunOnce then 0 else ClampedDelay(now, NextRun(now, RunTimes))
  }

  /** The status line `WaitUntilNextRunTime` reports. */
  function WaitStatus(hasRunOnce: bool, now: nat): (st: Status)
    ensures !hasRunOnce ==> st == FirstRun
    ensures hasRunOnce ==> st.NextRunAt? && now < st.next <= now + DaySeconds && st.delay == st.next - now
  {
    if !hasRunOnce then FirstRun else NextRunAt(NextRun(now, RunTimes), WaitDelay(hasRunOnce, now))
  }

  /** Whether the try-body of the cycle runs to its end: the download and the conversion
      succeed and, when something is new, the post does not throw. */
  predicate CycleSucceeds(s: SyncState, input: CycleInput): (ok: bool)
    ensures ok ==> input.fetch.Parsed?
    ensures input.fetch.Parsed? && !ok ==>
      var planned := PlannedSends(input.channelFound, input.fetch.jobs, input.datePosted);
      NewJobs(s.previous, input.fetch.jobs) != [] &&
      input.sendFailsAt.Some? && input.sendFailsAt.value < |planned|
  {
    input.fetch.Parsed? &&
    (NewJobs(s.previous, input.fetch.jobs) == [] ||
     Completes(PlannedSends(input.channelFound, input.fetch.jobs, input.datePosted), input.sendFailsAt))
  }

  /** The state after `WaitUntilNextRunTime` and the "Starting CSV downloader" line. */
  function Waited(s: SyncState, now: nat): SyncState
  {
    s.(hasRunOnce := true, log := s.log + [WaitStatus(s.hasRunOnce, now), DownloadStarted])
  }

  /** The state after converting `input.fetch.jobs` and posting them because `count` listings
      are new: the post's messages are sent, and only a post that does not throw lets the
      fetched list become the previous one. */
  function AfterPost(waited: SyncState, input: CycleInput, count: nat): SyncState
    requires input.fetch.Parsed?
  {
    var jobs := input.fetch.jobs;
    var planned := PlannedSends(input.channelFound, jobs, input.datePosted);
    var out := waited.sent + SentPrefix(planned, input.sendFailsAt);
    if Completes(planned, input.sendFailsAt) then
      waited.(current := jobs, previous := jobs, sent := out,
              log := waited.log + [DownloadComplete, Posted(count)])
    else
      waited.(current := jobs, sent := out, log := waited.log + [DownloadComplete, Failed])
  }

  /** One pass of the loop in `Start`, as the code is written: wait, download, convert, diff,
      post the whole current list when anything is new, then keep the current list as the
      previous one. An exception skips the rest of the try-body. */
  function Cycle(s: SyncState, input: CycleInput): (r: SyncState)
    ensures r.hasRunOnce
    ensures |r.log| >= |s.log| + 3
    ensures r.log[..|s.log| + 2] == s.log + [WaitStatus(s.hasRunOnce, input.now), DownloadStarted]
    ensures var last := r.log[|r.log| - 1]; last == NoNewJobs || last == Failed || last.Posted?
    ensures s.sent <= r.sent
  {
    var waited := Waited(s, input.now);
    match input.fetch
    case DownloadFailed => waited.(log := waited.log + [Failed])
    case ConvertFailed => waited.(log := waited.log + [DownloadComplete, Failed])
    case Parsed(jobs) =>
      var newJobs := NewJobs(s.previous, jobs);
      if |newJobs| == 0 then
        waited.(current := jobs, previous := jobs, log := waited.log + [DownloadComplete, NoNewJobs])
      else
        AfterPost(waited, input, |newJobs|)
  }

  /** Several passes of the loop, in order. */
  function Cycles(s: SyncState, inputs: seq<CycleInput>): (r: SyncState)
    ensures |r.log| >= |s.log| + 3 * |inputs|
    decreases |inputs|
  {
    if |inputs| == 0 then s else Cycles(Cycle(s, inputs[0]), inputs[1..])
  }

  class JobSyncService {
    var previousJobs: seq<JobInfo>
    var currentJobs: seq<JobInfo>
    var hasRunOnce: bool
    var sent: seq<Message>
    var log: seq<Status>

    function State(): SyncState
      reads this
    {
      SyncState(previousJobs, currentJobs, hasRunOnce, sent, log)
    }

    /** Both snapshots start empty and the first run has not happened. */
    constructor ()
      ensures State() == Initial
    {
      previousJobs, currentJobs := [], [];
      hasRunOnce := false;
      sent, log := [], [];
    }

    method UpdateStatus(msg: Status)
      modifies this`log
      ensures log == old(log) + [msg]
    {
      log := log + [msg];
    }

    /** `WaitUntilNextRunTime`: the first call sets `hasRunOnce` and does not wait; later
        calls wait until the next configured run. Returns the wait in seconds. */
    method WaitUntilNextRunTime(now: nat) returns (delay: nat)
      modifies this`hasRunOnce, this`log
      ensures hasRunOnce
      ensures delay == WaitDelay(old(hasRunOnce), now)
      ensures log == old(log) + [WaitStatus(old(hasRunOnce), now)]
    {
      if !hasRunOnce {
        hasRunOnce := true;
        UpdateStatus(FirstRun);
        return 0;
      }
      var today := StartOfDay(now);
      var nextRun: nat;
      match EarliestAhead(today, now, RunTimes) {
        case Some(t) => nextRun := t;
        case None => nextRun := today + DaySeconds + RunTimes[0];
      }
      delay := ClampedDelay(now, nextRun);
      UpdateStatus(NextRunAt(nextRun, delay));
    }

    /** One pass of the loop in `Start`; returns the scheduled wait it began with. */
    method RunCycle(input: CycleInput) returns (delay: nat)
      modifies this
      ensures State() == Cycle(old(State()), input)
      ensures delay == WaitDelay(old(hasRunOnce), input.now)
    {
      ghost var s := State();
      delay := WaitUntilNextRunTime(input.now);
      log := log + [DownloadStarted];
      ghost var waited := State();
      assert waited == Waited(s, input.now);
      match input.fetch {
        case DownloadFailed =>
          log := log + [Failed];
        case ConvertFailed =>
          log := log + [DownloadComplete, Failed];
        case Parsed(jobs) =>
          currentJobs := jobs;
          var newJobs := NewJobs(previousJobs, currentJobs);
          if |newJobs| == 0 {
            log := log + [DownloadComplete, NoNewJobs];
            previousJobs := currentJobs;
          } else {
            var out, completed := PostJobs(input.channelFound, currentJobs, input.datePosted, input.sendFailsAt);
            sent := sent + out;
            if completed {
              log := log + [DownloadComplete, Posted(|newJobs|)];
              previousJobs := currentJobs;
            } else {
              log := log + [DownloadComplete, Failed];
            }
          }
      }
    }

    /** `Start`'s loop, for as many passes as outcomes are given. Returns the wait of each pass. */
    method Start(inputs: seq<CycleInput>) returns (delays: seq<nat>)
      modifies this
      ensures State() == Cycles(old(State()).(log := old(log) + [Starting]), inputs)
      ensures |delays| == |inputs|
      ensures |inputs| > 0 ==> delays[0] == WaitDelay(old(hasRunOnce), inputs[0].now)
      ensures forall i :: 0 < i < |inputs| ==> delays[i] == WaitDelay(true, inputs[i].now)
    {
      UpdateStatus(Starting);
      ghost var start := State();
      delays := [];
      for i := 0 to |inputs|
        invariant Cycles(start, inputs) == Cycles(State(), inputs[i..])
        invariant |delays| == i
        invariant i > 0 ==> hasRunOnce
        invariant i == 0 ==> hasRunOnce == old(hasRunOnce)
        invariant i > 0 ==> delays[0] == WaitDelay(old(hasRunOnce), inputs[0].now)
        invariant forall k :: 0 < k < i ==> delays[k] == WaitDelay(true, inputs[k].now)
      {
        CyclesStep(State(), inputs[i..]);
        assert inputs[i..][1..] == inputs[i + 1..];
        var delay := RunCycle(inputs[i]);
        delays := delays + [delay];
      }
    }
  }

  /** Running several passes is running the first, then the rest. */
  lemma CyclesStep(s: SyncState, inputs: seq<CycleInput>)
    requires |inputs| > 0
    ensures Cycles(s, inputs) == Cycles(Cycle(s, inputs[0]), inputs[1..])
  {
  }

  /** The previous snapshot becomes the fetched list exactly when the try-body completes;
      otherwise it is left as it was. */
  lemma SnapshotReplacedOnlyOnSuccess(s: SyncState, input: CycleInput)
    ensures CycleSucceeds(s, input) ==> Cycle(s, input).previous == input.fetch.jobs
    ensures !CycleSucceeds(s, input) ==> Cycle(s, input).previous == s.previous
  {
  }

  /** A cycle posts only when the fetched list has a listing with an unseen key, and then it
      sends (a prefix of) the post of the whole fetched list, not only the new listings. */
  lemma PostsOnlyWhenSomethingIsNew(s: SyncState, input: CycleInput)
    ensures Cycle(s, input).sent != s.sent ==>
      input.fetch.Parsed? && NewJobs(s.previous, input.fetch.jobs) != []
    ensures input.fetch.Parsed? && NewJobs(s.previous, input.fetch.jobs) != [] ==>
      Cycle(s, input).sent ==
        s.sent + SentPrefix(PlannedSends(input.channelFound, input.fetch.jobs, input.datePosted), input.sendFailsAt)
  {
  }

  /** Nothing is sent when every fetched key was already in the previous snapshot. */
  lemma NothingSentWhenAllSeen(s: SyncState, input: CycleInput)
    requires input.fetch.Parsed?
    requires forall j :: j in input.fetch.jobs ==> KeySeen(JobKey(j), s.previous)
    ensures Cycle(s, input).sent == s.sent
    ensures Cycle(s, input).log[|Cycle(s, input).log| - 1] == NoNewJobs
  {
    NothingNewIff(s.previous, input.fetch.jobs);
  }

  /** Once a cycle has run the first-run flag is set and no later cycle clears it. */
  lemma {:induction false} FlagNeverReset(s: SyncState, inputs: seq<CycleInput>)
    requires s.hasRunOnce || |inputs| > 0
    ensures Cycles(s, inputs).hasRunOnce
    decreases |inputs|
  {
    if |inputs| > 0 {
      FlagNeverReset(Cycle(s, inputs[0]), inputs[1..]);
    }
  }

  /** Messages are only ever appended, and status lines too. */
  lemma {:induction false} TracesOnlyGrow(s: SyncState, inputs: seq<CycleInput>)
    ensures s.sent <= Cycles(s, inputs).sent
    ensures s.log <= Cycles(s, inputs).log
    decreases |inputs|
  {
    if |inputs| > 0 {
      var t := Cycle(s, inputs[0]);
      assert s.sent <= t.sent && s.log <= t.log;
      TracesOnlyGrow(t, inputs[1..]);
    }
  }

  /** The first cycle of a fresh service runs at once; the next one waits for a scheduled run. */
  lemma FirstCycleRunsAtOnce(first: CycleInput, second: CycleInput)
    ensures WaitStatus(Initial.hasRunOnce, first.now) == FirstRun
    ensures Cycle(Initial, first).hasRunOnce
    ensures WaitStatus(Cycle(Initial, first).hasRunOnce, second.now)
      == NextRunAt(NextRun(second.now, RunTimes), ClampedDelay(second.now, NextRun(second.now, RunTimes)))
  {
  }

  /** A cycle that fetches a list with something new and posts without a failure sends the
      post of the whole list and keeps the list as the previous one. */
  lemma CleanPost(s: SyncState, input: CycleInput)
    requires input.fetch.Parsed? && input.sendFailsAt.None?
    requires NewJobs(s.previous, input.fetch.jobs) != []
    ensures Cycle(s, input).previous == input.fetch.jobs
    ensures Cycle(s, input).sent == s.sent + PlannedSends(input.channelFound, input.fetch.jobs, input.datePosted)
  {
  }

  /** After [A, B], the list [A, B, C] has only C new when C's key differs from theirs. */
  lemma OnlyCIsNew(a: JobInfo, b: JobInfo, c: JobInfo)
    requires JobKey(c) != JobKey(a) && JobKey(c) != JobKey(b)
    ensures NewJobs([a, b], [a, b, c]) == [c]
  {
  }

  /** Two cycles from a fresh service: [A, B] and then [A, B, C] with distinct keys. The first
      posts A and B; the second, having found only C new, posts A, B and C again. */
  lemma TwoCycles(a: JobInfo, b: JobInfo, c: JobInfo, now1: nat, now2: nat, date1: string, date2: string)
    requires JobKey(c) != JobKey(a) && JobKey(c) != JobKey(b)
    ensures var one := Cycle(Initial, CycleInput(now1, Parsed([a, b]), true, date1, None));
      && one.previous == [a, b]
      && one.sent == PlannedSends(true, [a, b], date1)
      && var two := Cycle(one, CycleInput(now2, Parsed([a, b, c]), true, date2, None));
      && NewJobs([a, b], [a, b, c]) == [c]
      && two.previous == [a, b, c]
      && two.sent == one.sent + PlannedSends(true, [a, b, c], date2)
  {
    AllNewAgainstEmpty([a, b]);
    var in1 := CycleInput(now1, Parsed([a, b]), true, date1, None);
    CleanPost(Initial, in1);
    var one := Cycle(Initial, in1);
    OnlyCIsNew(a, b, c);
    var in2 := CycleInput(now2, Parsed([a, b, c]), true, date2, None);
    CleanPost(one, in2);
  }
}
