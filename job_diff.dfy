/** The snapshot diff of the sync cycle: which current listings are new
    (Services/JobSyncService.cs, the `newJobs` query). */
module JobDiff {
  import opened Jobs

  /** Whether some previous listing has this key, scanning the previous list from the front. */
  predicate KeySeen(key: string, previous: seq<JobInfo>): (seen: bool)
    ensures seen <==> exists p :: p in previous && JobKey(p) == key
  {
    |previous| > 0 && (JobKey(previous[0]) == key || KeySeen(key, previous[1..]))
  }

  /** The current listings whose key no previous listing has, in their order. */
  function NewJobs(previous: seq<JobInfo>, current: seq<JobInfo>): (r: seq<JobInfo>)
    ensures |r| <= |current|
    ensures forall j :: j in r ==> j in current && !KeySeen(JobKey(j), previous)
    ensures forall j :: j in current && !KeySeen(JobKey(j), previous) ==> j in r
  {
    if |current| == 0 then []
    else
      var rest := NewJobs(previous, current[1..]);
      assert forall j :: j in current <==> j == current[0] || j in current[1..];
      if KeySeen(JobKey(current[0]), previous) then rest else [current[0]] + rest
  }

  /** Order: the diff of a concatenation is the concatenation of the diffs. */
  lemma {:induction false} NewJobsAppend(previous: seq<JobInfo>, a: seq<JobInfo>, b: seq<JobInfo>)
    ensures NewJobs(previous, a + b) == NewJobs(previous, a) + NewJobs(previous, b)
  {
    if |a| > 0 {
      assert (a + b)[1..] == a[1..] + b;
      NewJobsAppend(previous, a[1..], b);
    } else {
      assert a + b == b;
    }
  }

  /** A single listing is kept exactly when its key was not seen before. */
  lemma NewJobsSingle(previous: seq<JobInfo>, j: JobInfo)
    ensures NewJobs(previous, [j]) == if KeySeen(JobKey(j), previous) then [] else [j]
  {
  }

  /** Against an empty previous snapshot every current listing is new. */
  lemma {:induction false} AllNewAgainstEmpty(current: seq<JobInfo>)
    ensures NewJobs([], current) == current
  {
    if |current| > 0 {
      AllNewAgainstEmpty(current[1..]);
      assert [current[0]] + current[1..] == current;
    }
  }

  /** The diff is empty exactly when every current key was seen before. */
  lemma NothingNewIff(previous: seq<JobInfo>, current: seq<JobInfo>)
    ensures NewJobs(previous, current) == [] <==> forall j :: j in current ==> KeySeen(JobKey(j), previous)
  {
  }

  /** A snapshot diffed against itself has nothing new. */
  lemma NothingNewAgainstItself(snapshot: seq<JobInfo>)
    ensures NewJobs(snapshot, snapshot) == []
  {
    forall j | j in snapshot ensures KeySeen(JobKey(j), snapshot) {
    }
    NothingNewIff(snapshot, snapshot);
  }

  /** An empty current snapshot has nothing new. */
  lemma NothingNewInEmpty(previous: seq<JobInfo>)
    ensures NewJobs(previous, []) == []
  {
  }

  /** A listing whose key is already in the previous snapshot never reappears as new,
      even when its other columns changed. */
  lemma SameKeyIsNotNew(previous: seq<JobInfo>, current: seq<JobInfo>, j: JobInfo, p: JobInfo)
    requires p in previous && JobKey(p) == JobKey(j)
    ensures j !in NewJobs(previous, current)
  {
  }
}
