/** The connection supervisor (`DiscoBotService` in Services/DiscoBotService.cs). Its static
    fields are the fields of one object. The gateway is replaced by what happened on each pass
    of the reconnect loop; the random jitter is given with the pass that draws it. */
module DiscoBot {
  import opened Wrappers
  import opened Backoff
  import opened Numbers
  import opened JobSync

  /** What one pass of the loop in `StartAsync` met. */
  datatype Iteration =
    /** Creating, logging in or starting the client threw, without cancellation; the backoff
        then draws `jitterMs`, and `backoffCancelled` says the backoff wait was cancelled. */
    | LoginFailed(jitterMs: nat, backoffCancelled: bool)
    /** An `OperationCanceledException` while cancellation is requested. */
    | LoginCancelled
    /** The client started; `Ready` fired once per entry (true when registering the commands
        threw), and the endless wait then ended by cancellation. */
    | Connected(readyEvents: seq<bool>)

  /** How `StartAsync` ends. */
  datatype Exit =
    | MissingToken      // `InvalidOperationException`: BOT_KEY is not set
    | Stopped           // cancellation observed: normal shutdown
    | BackoffCancelled  // the backoff wait was cancelled and its exception left the loop

  predicate ValidJitters(its: seq<Iteration>)
  {
    forall k :: 0 <= k < |its| && its[k].LoginFailed? ==> its[k].jitterMs < JitterBoundMs
  }

  /** Passes the loop runs: each failed login without a cancelled backoff leads to another. */
  function Executed(its: seq<Iteration>): (n: nat)
    ensures n <= |its|
    ensures |its| > 0 ==> n >= 1
  {
    if |its| == 0 then 0
    else match its[0]
      case LoginFailed(_, cancelled) => if cancelled then 1 else 1 + Executed(its[1..])
      case _ => 1
  }

  /** How the loop ends. */
  function ExitOf(its: seq<Iteration>): (e: Exit)
    ensures e != MissingToken
    ensures e == BackoffCancelled <==>
      Executed(its) > 0 && its[Executed(its) - 1].LoginFailed? && its[Executed(its) - 1].backoffCancelled
  {
    if |its| == 0 then Stopped
    else match its[0]
      case LoginFailed(_, cancelled) => if cancelled then BackoffCancelled else ExitOf(its[1..])
      case _ => Stopped
  }

  /** The backoff delays requested, in order, when the first pass left is number `done + 1`. */
  function Plan(its: seq<Iteration>, done: nat): seq<nat>
    requires ValidJitters(its)
  {
    if |its| == 0 then []
    else match its[0]
      case LoginFailed(jitter, cancelled) =>
        [DelayMs(done + 1, jitter)] + (if cancelled then [] else Plan(its[1..], done + 1))
      case _ => []
  }

  /** One backoff per pass that runs, except for a last pass that did not fail to log in. */
  lemma {:induction false} PlanCountsBackoffs(its: seq<Iteration>, done: nat)
    requires ValidJitters(its)
    ensures |Plan(its, done)| ==
      Executed(its) - (if Executed(its) > 0 && !its[Executed(its) - 1].LoginFailed? then 1 else 0)
  {
    if |its| > 0 && its[0].LoginFailed? && !its[0].backoffCancelled {
      PlanCountsBackoffs(its[1..], done + 1);
    }
  }

  /** Sync services the loop creates: one when the connected pass's first `Ready` gets through
      the registration, none otherwise (later `Ready` events find the gate closed). */
  function ServicesStarted(its: seq<Iteration>): (n: nat)
    ensures n > 0 ==> |its| > 0 && ExitOf(its) == Stopped && its[Executed(its) - 1].Connected?
  {
    if |its| == 0 then 0
    else match its[0]
      case LoginFailed(_, cancelled) => if cancelled then 0 else ServicesStarted(its[1..])
      case LoginCancelled => 0
      case Connected(events) => if |events| > 0 && !events[0] then 1 else 0
  }

  /** The k-th requested delay belongs to attempt `done + k + 1`: the counter is never reset,
      so the delays follow the backoff formula attempt by attempt. */
  lemma {:induction false} PlanFollowsAttempts(its: seq<Iteration>, done: nat)
    requires ValidJitters(its)
    ensures |Plan(its, done)| <= |its|
    ensures forall k :: 0 <= k < |Plan(its, done)| ==>
      its[k].LoginFailed? && Plan(its, done)[k] == DelayMs(done + k + 1, its[k].jitterMs)
  {
    if |its| > 0 && its[0].LoginFailed? && !its[0].backoffCancelled {
      assert ValidJitters(its[1..]);
      PlanFollowsAttempts(its[1..], done + 1);
      var p := Plan(its, done);
      forall k | 0 <= k < |p|
        ensures its[k].LoginFailed? && p[k] == DelayMs(done + k + 1, its[k].jitterMs)
      {
        if k > 0 {
          assert p[k] == Plan(its[1..], done + 1)[k - 1];
          assert its[k] == its[1..][k - 1];
        }
      }
    }
  }

  /** Every requested delay lies in [2 s, 120.75 s), and delays never shrink in whole seconds. */
  lemma PlanDelaysBounded(its: seq<Iteration>)
    requires ValidJitters(its)
    ensures forall k :: 0 <= k < |Plan(its, 0)| ==>
      2000 <= Plan(its, 0)[k] < CapSeconds * 1000 + JitterBoundMs
    ensures forall k, l :: 0 <= k < l < |Plan(its, 0)| ==> Plan(its, 0)[k] / 1000 <= Plan(its, 0)[l] / 1000
  {
    var p := Plan(its, 0);
    PlanFollowsAttempts(its, 0);
    forall k | 0 <= k < |p|
      ensures 2000 <= p[k] < CapSeconds * 1000 + JitterBoundMs
    {
      DelayBounds(k + 1, its[k].jitterMs);
    }
    forall k, l | 0 <= k < l < |p|
      ensures p[k] / 1000 <= p[l] / 1000
    {
      BackoffMonotone(k + 1, l + 1);
    }
  }

  /** Three failed logins in a row wait 2, 4 and 8 seconds plus their jitter. */
  lemma ThreeFailures(j0: nat, j1: nat, j2: nat, rest: seq<Iteration>)
    requires j0 < JitterBoundMs && j1 < JitterBoundMs && j2 < JitterBoundMs
    requires ValidJitters(rest)
    ensures var its := [LoginFailed(j0, false), LoginFailed(j1, false), LoginFailed(j2, false)] + rest;
      && ValidJitters(its)
      && |Plan(its, 0)| >= 3
      && Plan(its, 0)[..3] == [2000 + j0, 4000 + j1, 8000 + j2]
  {
    var its := [LoginFailed(j0, false), LoginFailed(j1, false), LoginFailed(j2, false)] + rest;
    assert ValidJitters(its);
    var t1 := its[1..];
    var t2 := t1[1..];
    assert t1 == [LoginFailed(j1, false), LoginFailed(j2, false)] + rest;
    assert t2 == [LoginFailed(j2, false)] + rest;
    assert t2[1..] == rest;
    DoublesUpToSix(1);
    DoublesUpToSix(2);
    DoublesUpToSix(3);
    PlanAfterFailure(t2, 2);
    PlanAfterFailure(t1, 1);
    PlanAfterFailure(its, 0);
  }

  /** A failed login whose backoff runs to its end requests its delay, then the rest's. */
  lemma PlanAfterFailure(its: seq<Iteration>, done: nat)
    requires ValidJitters(its)
    requires |its| > 0 && its[0].LoginFailed? && !its[0].backoffCancelled
    ensures Plan(its, done) == [DelayMs(done + 1, its[0].jitterMs)] + Plan(its[1..], done + 1)
  {
  }

  /** What the loop in `StartAsync` knows before pass number `attempt + 1`: every pass so far
      was a failed login followed by a backoff, with `delays` requested on top of `start`. */
  ghost predicate LoopInvariant(its: seq<Iteration>, attempt: nat, start: seq<nat>, delays: seq<nat>)
  {
    && attempt <= |its|
    && ValidJitters(its)
    && Executed(its) == attempt + Executed(its[attempt..])
    && ExitOf(its) == ExitOf(its[attempt..])
    && start + Plan(its, 0) == delays + Plan(its[attempt..], attempt)
    && ServicesStarted(its) == ServicesStarted(its[attempt..])
  }

  /** A failed login whose backoff is not cancelled keeps the loop going with one more delay. */
  lemma ContinuingPass(its: seq<Iteration>, attempt: nat, start: seq<nat>, delays: seq<nat>)
    requires attempt < |its| && LoopInvariant(its, attempt, start, delays)
    requires its[attempt].LoginFailed? && !its[attempt].backoffCancelled
    ensures LoopInvariant(its, attempt + 1, start, delays + [DelayMs(attempt + 1, its[attempt].jitterMs)])
  {
    var rest := its[attempt..];
    assert rest[0] == its[attempt] && rest[1..] == its[attempt + 1..];
    assert ValidJitters(rest);
    assert Plan(rest, attempt) == [DelayMs(attempt + 1, its[attempt].jitterMs)] + Plan(rest[1..], attempt + 1);
  }

  /** Any other pass is the last one; the loop's results are then complete. */
  lemma FinalPass(its: seq<Iteration>, attempt: nat, start: seq<nat>, delays: seq<nat>)
    requires attempt < |its| && LoopInvariant(its, attempt, start, delays)
    requires !(its[attempt].LoginFailed? && !its[attempt].backoffCancelled)
    ensures var it := its[attempt];
      && Executed(its) == attempt + 1
      && ExitOf(its) == (if it.LoginFailed? then BackoffCancelled else Stopped)
      && start + Plan(its, 0) == delays + (if it.LoginFailed? then [DelayMs(attempt + 1, it.jitterMs)] else [])
      && ServicesStarted(its) ==
           (if it.Connected? && |it.readyEvents| > 0 && !it.readyEvents[0] then 1 else 0)
  {
    var rest := its[attempt..];
    assert rest[0] == its[attempt];
    assert ValidJitters(rest);
  }

  /** Running out of passes means cancellation was seen at the head of the loop. */
  lemma NoPassLeft(its: seq<Iteration>, start: seq<nat>, delays: seq<nat>)
    requires LoopInvariant(its, |its|, start, delays)
    ensures Executed(its) == |its| && ExitOf(its) == Stopped
    ensures start + Plan(its, 0) == delays && ServicesStarted(its) == 0
  {
    assert its[|its|..] == [];
  }

  /** At most one sync service is created over the whole loop. */
  lemma {:induction false} AtMostOneService(its: seq<Iteration>)
    ensures ServicesStarted(its) <= 1
  {
    if |its| > 0 && its[0].LoginFailed? && !its[0].backoffCancelled {
      AtMostOneService(its[1..]);
    }
  }

  class DiscoBotService {
    var client: Option<nat>       // `_client`, named by the attempt that created it
    var interactions: Option<nat> // `_interactions`
    var jobSyncService: JobSyncService?
    var readyOnce: int
    ghost var servicesCreated: nat  // sync services created so far
    ghost var delaysMs: seq<nat>    // backoff delays requested so far

    /** The static fields as the process starts: nothing created, the gate open. */
    constructor ()
      ensures client.None? && interactions.None? && jobSyncService == null && readyOnce == 0
      ensures servicesCreated == 0 && delaysMs == []
    {
      client, interactions, jobSyncService := None, None, null;
      readyOnce := 0;
      servicesCreated, delaysMs := 0, [];
    }

    /** `StartClientOnceAsync` up to the point where logging in may throw. */
    method StartClientOnce(attempt: nat)
      modifies this`client, this`interactions
      ensures client == Some(attempt) && interactions == Some(attempt)
    {
      client := Some(attempt);
      interactions := Some(attempt);
    }

    /** `OnReady`: the first call after the gate opened closes it and, unless registering the
        commands throws, creates and starts one sync service; later calls do nothing. */
    method OnReady(registrationFails: bool)
      modifies this`readyOnce, this`jobSyncService, this`servicesCreated
      ensures readyOnce == 1
      ensures old(readyOnce) == 1 || registrationFails || old(interactions).None? ==>
        jobSyncService == old(jobSyncService) && servicesCreated == old(servicesCreated)
      ensures old(readyOnce) != 1 && !registrationFails && old(interactions).Some? ==>
        jobSyncService != null && fresh(jobSyncService) && servicesCreated == old(servicesCreated) + 1
    {
      var was := readyOnce;
      readyOnce := 1;
      if was == 1 || interactions.None? || registrationFails {
        return;
      }
      var service := new JobSyncService();
      var _ := service.Start([]);
      jobSyncService := service;
      servicesCreated := servicesCreated + 1;
    }

    /** `SafeDisposeAsync` followed by reopening the gate (the loop's `finally`). Stopping the
        old objects may throw; that is swallowed, and the references are cleared in any case. */
    method TearDown()
      modifies this`client, this`interactions, this`jobSyncService, this`readyOnce
      ensures client.None? && interactions.None? && jobSyncService == null && readyOnce == 0
    {
      jobSyncService := null;
      client := None;
      interactions := None;
      readyOnce := 0;
    }

    /** `RestartBackoffAsync`: the delay it waits, in milliseconds. */
    method RestartBackoff(attempt: nat, jitterMs: nat) returns (ms: nat)
      requires jitterMs < JitterBoundMs
      modifies this`delaysMs
      ensures ms == DelayMs(attempt, jitterMs)
      ensures delaysMs == old(delaysMs) + [ms]
    {
      var seconds := Min(CapSeconds, Pow2(Min(attempt, MaxExponent)));
      ms := seconds * 1000 + jitterMs;
      delaysMs := delaysMs + [ms];
    }

    /** One pass of the loop in `StartAsync` after `attempt++`: start the client, then back off
        after a failed login, or serve until cancellation; the `finally` tears down in every case.
        `stop` says the loop ends here. */
    method Pass(attempt: nat, it: Iteration) returns (stop: bool, exit: Exit)
      requires it.LoginFailed? ==> it.jitterMs < JitterBoundMs
      requires client.None? && interactions.None? && jobSyncService == null && readyOnce == 0
      modifies this
      ensures stop == !(it.LoginFailed? && !it.backoffCancelled)
      ensures exit == if it.LoginFailed? && it.backoffCancelled then BackoffCancelled else Stopped
      ensures delaysMs == old(delaysMs) + if it.LoginFailed? then [DelayMs(attempt, it.jitterMs)] else []
      ensures servicesCreated == old(servicesCreated) +
        if it.Connected? && |it.readyEvents| > 0 && !it.readyEvents[0] then 1 else 0
      ensures client.None? && interactions.None? && jobSyncService == null && readyOnce == 0
    {
      StartClientOnce(attempt);
      exit := Stopped;
      match it {
        case LoginFailed(jitter, cancelled) =>
          var _ := RestartBackoff(attempt, jitter);
          stop := cancelled;
          if cancelled {
            exit := BackoffCancelled;
          }
        case LoginCancelled =>
          stop := true;
        case Connected(events) =>
          ghost var before := servicesCreated;
          for e := 0 to |events|
            invariant readyOnce == if e == 0 then 0 else 1
            invariant servicesCreated == before + (if e > 0 && !events[0] then 1 else 0)
            invariant interactions.Some?
            invariant delaysMs == old(delaysMs)
          {
            OnReady(events[e]);
          }
          stop := true;
      }
      TearDown();
    }

    /** `StartAsync`: without a token it throws at once; otherwise it counts attempts from 0,
        one more per pass, backs off after each failed login, tears down after every pass and
        stops at cancellation. */
    method StartAsync(tokenPresent: bool, its: seq<Iteration>) returns (exit: Exit, attempts: nat)
      requires ValidJitters(its)
      requires client.None? && interactions.None? && jobSyncService == null && readyOnce == 0
      modifies this
      ensures !tokenPresent ==>
        exit == MissingToken && attempts == 0 && delaysMs == old(delaysMs) && servicesCreated == old(servicesCreated)
      ensures tokenPresent ==> exit == ExitOf(its) && attempts == Executed(its)
      ensures tokenPresent ==> delaysMs == old(delaysMs) + Plan(its, 0)
      ensures tokenPresent ==> servicesCreated == old(servicesCreated) + ServicesStarted(its)
      ensures client.None? && interactions.None? && jobSyncService == null && readyOnce == 0
    {
      if !tokenPresent {
        return MissingToken, 0;
      }
      var attempt := 0;
      assert its[0..] == its;
      while attempt < |its|
        invariant LoopInvariant(its, attempt, old(delaysMs), delaysMs)
        invariant servicesCreated == old(servicesCreated)
        invariant client.None? && interactions.None? && jobSyncService == null && readyOnce == 0
      {
        var it := its[attempt];
        ghost var delays := delaysMs;
        var stop, e := Pass(attempt + 1, it);
        if stop {
          FinalPass(its, attempt, old(delaysMs), delays);
          return e, attempt + 1;
        }
        ContinuingPass(its, attempt, old(delaysMs), delays);
        attempt := attempt + 1;
      }
      NoPassLeft(its, old(delaysMs), delaysMs);
      return Stopped, attempt;
    }
  }
}
