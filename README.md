# Job-listing sync bot: a Dafny model of its scheduling core

The bot downloads a CSV feed of union job listings several times a day, works out which
listings are new since the previous download, and announces them in a Discord channel.
Around that sits a supervisor that keeps the Discord gateway connection going and
reconnects with capped exponential backoff.

This project models the core of that bot in Dafny and proves properties of the model:

- **Listing identity** (`Jobs`): a `JobInfo` row has ten nullable columns. Its `JobKey`
  is the six columns Location, Trade, Wages, Hours, StartDate and EndDate joined by `|`.
  A null column contributes nothing.
- **Snapshot diff** (`JobDiff`): `NewJobs` keeps, in order, the current listings whose key
  is not the key of any previous listing.
- **Next-run choice** (`Schedule`): the run times are 09:00, 12:00 and 18:30. Instants are
  whole seconds of local time, so "today" and "tomorrow" are exact.
- **Posting** (`Posting`): `PostJobs` sends one embed per batch of at most 25 fields and
  then one footer text. What goes out is returned as the sequence of messages sent.
  A send that throws cuts that sequence short.
- **Sync service** (`JobSync`): a class holding `previousJobs`, `currentJobs` and
  `hasRunOnce`, plus the channel's message trace and the status log. One pass of the
  background loop is the method `RunCycle`. It is proved equal to the function `Cycle`,
  and the lemmas about the service are stated over `Cycle`. The download and the CSV
  conversion are replaced by their outcome: a list of rows, or the stage that threw.
- **Reconnect backoff** (`Backoff`): `min(120, 2^min(attempt, 7))` seconds plus a jitter
  in [0, 750) ms.
- **Supervisor** (`DiscoBot`): a class whose fields are the static fields of
  `DiscoBotService`. `StartAsync` runs over a sequence of pass outcomes: failed login,
  login cancelled, or connected with its `Ready` events. It keeps the `attempt` counter,
  the `_readyOnce` gate and the teardown. Its results are tied to the functions
  `Executed`, `ExitOf`, `Plan` and `ServicesStarted`.

The model follows the code as written, including these behaviours that a reader might not
expect from the names of the operations:

- The cycle posts the whole fetched list (`PostJobsAsync(_currentJobs)`), not only the new
  listings. The embed description ("Found n new job(s)") counts that whole list.
  `JobSync.TwoCycles` shows this: after [A, B], the fetch [A, B, C] posts A, B and C again.
- The previous snapshot is replaced only when the download, the conversion and the post
  all complete. On any exception it keeps its value. `currentJobs` is already the new
  list when only the post threw.
- `Start` has no guard against a second start, and the service has no stop operation.
  `StopAsync` is called by the supervisor but is not defined in `JobSyncService`.
- Once the client has started, the supervisor's loop only ends by cancellation, because
  the wait is endless. Only a failing login leads to a backoff. A cancellation during the
  backoff wait throws out of the `catch` block: the `finally` teardown runs and
  `StartAsync` ends with that exception (`Exit.BackoffCancelled`), not with a clean stop.
- `attempt` goes up at the start of each pass, so the first backoff uses attempt 1 (2 s).
  The counter is never reset.
- The footer text says "Update times are 9:30 AM, 12 PM, 6:30 PM", but the first
  configured run time is 09:00. The model keeps both as written.

## Model

| member | source | states |
|---|---|---|
| `Jobs.Shown` | Models/JobInfo.cs:28 | a null column is rendered as the empty string, a present one as itself |
| `Jobs.JobKey` | Models/JobInfo.cs:27-28 | the key is the six key columns with a delimiter between each pair: its length is their lengths plus five, and it starts with Location |
| `Jobs.KeyDecodes` | Models/JobInfo.cs:27-28 | when no key column contains the delimiter, splitting the key on it gives back Location, Trade, Wages, Hours, StartDate, EndDate in that order |
| `Jobs.EqualKeysEqualFields` | Models/JobInfo.cs:27-28 | when no key column contains the delimiter, equal keys imply the six key columns are equal, with null read as empty |
| `Jobs.EqualFieldsEqualKeys` | Models/JobInfo.cs:27-28 | equal key columns give equal keys, whatever the other four columns hold |
| `Jobs.KeyIgnoresOtherColumns` | Models/JobInfo.cs:27-28 | changing NationalPension, LocalPension, HealthAndWelfare or AmountNeeded leaves the key unchanged |
| `Jobs.NullKeyColumnIsEmpty` | Models/JobInfo.cs:28 | a null key column and an empty one give the same key |
| `Jobs.DelimiterInColumnCollides` | Models/JobInfo.cs:28 | without the delimiter-free condition, two rows with different key columns can share a key |
| `JobDiff.KeySeen` | Services/JobSyncService.cs:54 | the scan over the previous list finds the key exactly when some previous listing has that key |
| `JobDiff.NewJobs` | Services/JobSyncService.cs:53-55 | the result holds exactly the current listings whose key no previous listing has, and is no longer than the current list |
| `JobDiff.NewJobsAppend` | Services/JobSyncService.cs:53-55 | order is kept: the diff of a concatenation is the concatenation of the diffs |
| `JobDiff.NewJobsSingle` | Services/JobSyncService.cs:54 | a single listing is kept exactly when its key was not seen |
| `JobDiff.AllNewAgainstEmpty` | Services/JobSyncService.cs:53-55 | against an empty previous list every current listing is new, in order |
| `JobDiff.NothingNewIff` | Services/JobSyncService.cs:53-58 | the diff is empty if and only if every current key appears among the previous keys |
| `JobDiff.NothingNewAgainstItself` | Services/JobSyncService.cs:53-55 | a list diffed against itself has nothing new |
| `JobDiff.NothingNewInEmpty` | Services/JobSyncService.cs:53-55 | an empty current list has nothing new |
| `JobDiff.SameKeyIsNotNew` | Services/JobSyncService.cs:54 | a listing whose key is in the previous list is not new, even if its other columns changed |
| `Schedule.StartOfDay` | Services/JobSyncService.cs:134 | the day start is a midnight at or before now, less than a day before it |
| `Schedule.EarliestAhead` | Services/JobSyncService.cs:136-146 | none if and only if every run time today is at or before now; otherwise the smallest of today's run instants that is strictly after now |
| `Schedule.NextRun` | Services/JobSyncService.cs:134-152 | the next run is strictly after now and at most one day ahead |
| `Schedule.NextRunIsConfigured` | Services/JobSyncService.cs:142-152 | the next run is a configured time of day, today or tomorrow |
| `Schedule.NextRunIsEarliest` | Services/JobSyncService.cs:134-152 | with ascending run times, no configured instant today or tomorrow that is after now comes before the next run |
| `Schedule.ClampedDelay` | Services/JobSyncService.cs:157-159 | the delay is never negative, and it is the gap itself when the next run is not in the past |
| `Schedule.WaitIsPositiveAndBounded` | Services/JobSyncService.cs:134-163 | with the configured run times the wait is more than zero and at most one day |
| `Schedule.AfterNoonRunsAtSixThirty` | Services/JobSyncService.cs:15-20 | at 13:00 the next run is 18:30 the same day |
| `Schedule.EveningRunsNextMorning` | Services/JobSyncService.cs:148-152 | at 19:00 the next run is 09:00 the next day |
| `Posting.FieldOfShowsListing` | Services/JobSyncService.cs:104-112 | the field's name is the trade, the three-character separator, then the location; its value opens with the count line, a null count shown as 0 |
| `Posting.EmbedFor` | Services/JobSyncService.cs:97-115 | one embed titled "New Jobs Posted" with one field per listing of the batch, in order |
| `Posting.Footer` | Services/JobSyncService.cs:119 | the closing message is text that begins with the date it was posted |
| `Posting.EmbedsFrom` | Services/JobSyncService.cs:89-118 | no more embeds than listings, and none exactly when there are no listings |
| `Posting.PlannedSends` | Services/JobSyncService.cs:80-119 | nothing is planned exactly when there is no channel or no listing; otherwise the last message planned is the footer |
| `Posting.FieldsOf` | Services/JobSyncService.cs:102-115 | one field per listing, the i-th field made from the i-th listing |
| `Posting.Batches` | Services/JobSyncService.cs:89-95 | ceil(n/25) batches, each of 1 to 25 listings, all but the last full, concatenating back to the list |
| `Posting.SentPrefix` | Services/JobSyncService.cs:117-119 | a send that throws ends the post: the messages before it go out, and all of them when no send throws |
| `Posting.BuildFields` | Services/JobSyncService.cs:102-115 | the `foreach` adds exactly the fields of the batch's listings, in order |
| `Posting.PostJobs` | Services/JobSyncService.cs:80-120 | the messages sent are the planned ones (nothing without a channel or listings, otherwise the embeds then the footer), cut where a send throws; `completed` says that no send threw |
| `Posting.EmbedFieldsAreListings` | Services/JobSyncService.cs:89-117 | the fields of the embeds, in order, are one field per listing in listing order |
| `Posting.EmbedsAreBatches` | Services/JobSyncService.cs:89-117 | the embeds are the batches, each turned into one embed |
| `Posting.PostShape` | Services/JobSyncService.cs:86-119 | for n > 0 listings: ceil(n/25) embeds of 1 to 25 fields covering the listings in order, then exactly one footer, last |
| `Posting.ThirtyListings` | Services/JobSyncService.cs:86-119 | thirty listings are sent as embeds of 25 and 5 fields, then the footer |
| `JobSync.WaitDelay` | Services/JobSyncService.cs:126-163 | no wait on the first call; later waits are more than zero and at most a day |
| `JobSync.WaitStatus` | Services/JobSyncService.cs:126-161 | the first call reports the first run; later calls report a next run after now, at most a day ahead, with the delay equal to the gap |
| `JobSync.CycleSucceeds` | Services/JobSyncService.cs:45-69 | the try-body completes only after a parsed fetch; after a parsed fetch it fails only when something is new and one of the planned sends throws |
| `JobSync.Cycle` | Services/JobSyncService.cs:45-73 | after a pass the first-run flag is set, the log has grown by the wait status and "starting download" followed by at least one more line, the last line is "no new jobs", "posted" or an exception, and the sent messages only grew |
| `JobSync.Cycles` | Services/JobSyncService.cs:43-76 | every pass of the loop adds at least three status lines |
| `JobSync.JobSyncService.constructor` | Services/JobSyncService.cs:22-36 | both snapshots start empty and the first run is still to come |
| `JobSync.JobSyncService.UpdateStatus` | Services/JobSyncService.cs:167-173 | one status line is appended to the log |
| `JobSync.JobSyncService.WaitUntilNextRunTime` | Services/JobSyncService.cs:121-164 | sets the first-run flag; returns no wait on the first call, the clamped wait until the next run afterwards; logs which case happened |
| `JobSync.JobSyncService.RunCycle` | Services/JobSyncService.cs:45-73 | the new state is `Cycle` of the old state and the pass's outcomes; the wait returned is the scheduled one |
| `JobSync.JobSyncService.Start` | Services/JobSyncService.cs:38-77 | after the start line, the state is the given passes applied in order; only the first pass of a fresh service has no wait |
| `JobSync.SnapshotReplacedOnlyOnSuccess` | Services/JobSyncService.cs:45-73 | the previous list becomes the fetched list when download, conversion and post all complete, and is unchanged otherwise |
| `JobSync.PostsOnlyWhenSomethingIsNew` | Services/JobSyncService.cs:58-66 | messages are sent only when something is new, and then they are the post of the whole fetched list |
| `JobSync.NothingSentWhenAllSeen` | Services/JobSyncService.cs:58-61 | when every fetched key was already seen, nothing is sent and "no new jobs" is logged |
| `JobSync.FlagNeverReset` | Services/JobSyncService.cs:126-132 | once a pass has run the first-run flag is set, and no later pass clears it |
| `JobSync.TracesOnlyGrow` | Services/JobSyncService.cs:64-72 | the message trace and the status log are only appended to |
| `JobSync.FirstCycleRunsAtOnce` | Services/JobSyncService.cs:126-161 | a fresh service's first pass logs the first run and does not wait; the second logs a scheduled run |
| `JobSync.CleanPost` | Services/JobSyncService.cs:58-68 | a pass with something new and no failing send sends the whole list's post and keeps the list |
| `JobSync.OnlyCIsNew` | Services/JobSyncService.cs:53-55 | after [A, B], only C is new in [A, B, C] when C's key differs |
| `JobSync.TwoCycles` | Services/JobSyncService.cs:45-73 | from a fresh service, [A, B] posts A and B; then [A, B, C] has only C new, yet posts A, B and C |
| `Backoff.BackoffSeconds` | Services/DiscoBotService.cs:145 | the backoff is between 1 and 120 seconds |
| `Backoff.Pow2` | Services/DiscoBotService.cs:145 | 2^n is more than n |
| `Backoff.Pow2Monotone` | Services/DiscoBotService.cs:145 | a larger exponent never gives a smaller power of two |
| `Backoff.DelayMs` | Services/DiscoBotService.cs:145-147 | the delay is the backoff in whole seconds plus the jitter in milliseconds |
| `Backoff.DoublesUpToSix` | Services/DiscoBotService.cs:145 | attempts 1 to 6 wait 2^attempt seconds, each double the one before |
| `Backoff.CappedFromSeven` | Services/DiscoBotService.cs:145 | from attempt 7 on the backoff is 120 seconds |
| `Backoff.BackoffBounds` | Services/DiscoBotService.cs:145 | for attempt 1 and above the backoff lies in [2, 120] seconds |
| `Backoff.BackoffMonotone` | Services/DiscoBotService.cs:145 | a later attempt never waits less |
| `Backoff.DelayBounds` | Services/DiscoBotService.cs:145-147 | the whole delay lies in [2000, 120750) milliseconds |
| `DiscoBot.Executed` | Services/DiscoBotService.cs:25-49 | the loop runs at least one pass when there is one, and never more than there are |
| `DiscoBot.ExitOf` | Services/DiscoBotService.cs:25-49 | the loop never ends for a missing token; it ends by a cancelled backoff exactly when its last pass is a failed login whose backoff wait was cancelled |
| `DiscoBot.PlanCountsBackoffs` | Services/DiscoBotService.cs:25-49 | one backoff per pass that runs, except for a last pass that did not fail to log in |
| `DiscoBot.ServicesStarted` | Services/DiscoBotService.cs:25-49 | a sync service is created only when the last pass connected and the loop then stops cleanly |
| `DiscoBot.PlanFollowsAttempts` | Services/DiscoBotService.cs:23-43 | the k-th backoff belongs to a failed login and uses attempt k+1: the counter grows by one per pass and is never reset |
| `DiscoBot.PlanDelaysBounded` | Services/DiscoBotService.cs:143-151 | every backoff delay lies in [2 s, 120.75 s), and the whole seconds never shrink from one backoff to the next |
| `DiscoBot.ThreeFailures` | Services/DiscoBotService.cs:145-147 | three failed logins in a row wait 2, 4 and 8 seconds plus their jitter |
| `DiscoBot.AtMostOneService` | Services/DiscoBotService.cs:84-104 | at most one sync service is created over the whole loop |
| `DiscoBot.DiscoBotService.constructor` | Services/DiscoBotService.cs:11-15 | all references start null and the ready gate starts open |
| `DiscoBot.DiscoBotService.StartClientOnce` | Services/DiscoBotService.cs:52-82 | the client and the interaction service of this attempt are in place |
| `DiscoBot.DiscoBotService.OnReady` | Services/DiscoBotService.cs:84-104 | the gate is closed afterwards; a new sync service is created only if the gate was open, the interaction service exists and registration did not throw |
| `DiscoBot.DiscoBotService.TearDown` | Services/DiscoBotService.cs:153-182 | the sync service, client and interaction references are null and the gate is open again, even when the stop calls threw |
| `DiscoBot.DiscoBotService.RestartBackoff` | Services/DiscoBotService.cs:143-151 | the wait is the backoff formula for this attempt plus the jitter, and it is recorded |
| `DiscoBot.DiscoBotService.Pass` | Services/DiscoBotService.cs:27-49 | one pass: a failed login backs off and continues unless the backoff is cancelled; cancellation or a connection ends the loop; teardown always runs |
| `DiscoBot.DiscoBotService.StartAsync` | Services/DiscoBotService.cs:17-50 | without a token it fails at once; otherwise the attempts, the exit, the backoff delays and the services created are those of the pass outcomes; everything is torn down at the end |

## Left out

- Downloading the CSV (`CsvDownloaderService`, browser automation) and converting it
  (`CsvConverterService`, `JobMap`) are not part of this model. Each cycle is given their
  outcome instead: a list of rows, a failed download, or a failed conversion.
- Time zones and daylight saving: instants are seconds of local time. So the conversion to
  UTC is left out, the delay is the local difference, and the clamp to zero never triggers.
- All sleeps (`Task.Delay`) are left out, including the fixed 10-second pause between
  cycles and the backoff wait itself. Only the length of each wait is modelled.
- Concurrency is left out: the `Task.Run` background loop and `Interlocked`. The model
  is sequential. `OnReady` runs the synchronous part of `Start` and not its background loop.
- Discord is left out: client construction, login, command registration and dispatch,
  and logging callbacks. Each pass is described by its outcome. Embeds keep their title,
  description and fields; their timestamp and the inline flag are not modelled.
- The footer's date is a parameter, because it comes from the clock.
- The jitter comes from `Random.Shared`. It is a given value in [0, 750).
- `attempt` is unbounded here; the source's 32-bit `int` would wrap only after 2^31 passes.
- `PostJobsAsync`'s `newJobs is null` check is left out: lists in the model are never null.
- `_jobSyncService.StopAsync()` and the status-handler unsubscription are left out. That
  method is not defined in `JobSyncService`, and its exceptions are ignored anyway.
- `Program.cs` (process start and cancellation handlers) is not part of this model. The
  cancellation token is represented by the end of the sequence of pass outcomes.
- The text of exception status lines is left out; each one is logged as `Failed`.
- UpdateStatus: records every status line. The source drops a line when no handler is
  subscribed to `LogCurrentStatus`; the supervisor always subscribes one.
