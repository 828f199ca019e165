/** Announcing listings on the channel (`PostJobsAsync` in Services/JobSyncService.cs):
    one embed per batch of at most 25 fields, then one footer text. What the channel
    receives is given as the sequence of messages sent, in order. */
module Posting {
  import opened Wrappers
  import opened Strings
  import opened Jobs
  import opened Numbers

  const MaxFieldsPerEmbed: nat := 25

  datatype Field = Field(name: string, value: string)

  datatype Message =
    | Embed(title: string, description: string, fields: seq<Field>)
    | Text(content: string)

  /** The field of one listing: "{Trade} — {Location}" over the multi-line details,
      with a null count shown as 0. */
  function FieldOf(j: JobInfo): Field
  {
    Field(Shown(j.trade) + " — " + Shown(j.location),
          NeededLine(j) + DetailLines(j))
  }

  /** The lines of a field's value after the count. */
  function DetailLines(j: JobInfo): string
  {
    "Wages: " + Shown(j.wages) + "\n" +
    "Nat. Pension: " + Shown(j.nationalPension) + "\n" +
    "Local Pension: " + Shown(j.localPension) + "\n" +
    "Health/Welfare: " + Shown(j.healthAndWelfare) + "\n" +
    "Hours/OT: " + Shown(j.hours) + "\n" +
    "Dates: " + Shown(j.startDate) + " → " + Shown(j.endDate)
  }

  /** The first line of a field's value: the count, with null shown as 0. */
  function NeededLine(j: JobInfo): string
  {
    "Needed: " + IntToString(j.amountNeeded.GetOr(0)) + "\n"
  }

  /** A field names the trade, then the location after a three-character separator, and its
      value opens with the count line, a null count shown as 0. */
  lemma FieldOfShowsListing(j: JobInfo)
    ensures var f := FieldOf(j);
      && Shown(j.trade) <= f.name
      && |f.name| == |Shown(j.trade)| + 3 + |Shown(j.location)|
      && f.name[|Shown(j.trade)| + 3..] == Shown(j.location)
      && NeededLine(j) <= f.value
    ensures j.amountNeeded.None? ==> NeededLine(j) == "Needed: 0\n"
  {
  }

  /** One field per listing, in order. */
  function FieldsOf(jobs: seq<JobInfo>): (fs: seq<Field>)
    ensures |fs| == |jobs|
    ensures forall i :: 0 <= i < |jobs| ==> fs[i] == FieldOf(jobs[i])
  {
    seq(|jobs|, i requires 0 <= i < |jobs| => FieldOf(jobs[i]))
  }

  /** The embed of one batch; its description counts the whole list being posted. */
  function EmbedFor(total: nat, batch: seq<JobInfo>): (e: Message)
    ensures e.Embed? && e.title == "New Jobs Posted"
    ensures |e.fields| == |batch|
    ensures forall i :: 0 <= i < |batch| ==> e.fields[i] == FieldOf(batch[i])
  {
    Embed("New Jobs Posted", "Found " + NatToString(total) + " new job(s).", FieldsOf(batch))
  }

  /** The closing text; the date is whatever the clock gave when the post ran. */
  function Footer(datePosted: string): (f: Message)
    ensures f.Text?
    ensures DatePrefix + datePosted <= f.content
  {
    Text(DatePrefix + datePosted + "**\n**Update times are 9:30 AM, 12 PM, 6:30 PM**")
  }

  const DatePrefix: string := "**Date Posted: "

  function Flatten<T>(parts: seq<seq<T>>): seq<T>
  {
    if |parts| == 0 then [] else parts[0] + Flatten(parts[1..])
  }

  /** The list cut into consecutive batches of 25, the last one possibly shorter. */
  function Batches(jobs: seq<JobInfo>): (bs: seq<seq<JobInfo>>)
    ensures |bs| == (|jobs| + MaxFieldsPerEmbed - 1) / MaxFieldsPerEmbed
    ensures forall i :: 0 <= i < |bs| ==> 1 <= |bs[i]| <= MaxFieldsPerEmbed
    ensures forall i :: 0 <= i < |bs| - 1 ==> |bs[i]| == MaxFieldsPerEmbed
    ensures Flatten(bs) == jobs
  {
    if |jobs| == 0 then []
    else
      var n := Min(MaxFieldsPerEmbed, |jobs|);
      var rest := Batches(jobs[n..]);
      assert ([jobs[..n]] + rest)[1..] == rest;
      assert jobs[..n] + jobs[n..] == jobs;
      [jobs[..n]] + rest
  }

  /** The embeds sent for the listings from `index` on, each describing `total` jobs. */
  function EmbedsFrom(total: nat, rest: seq<JobInfo>): (es: seq<Message>)
    ensures |es| <= |rest|
    ensures |es| == 0 <==> |rest| == 0
  {
    if |rest| == 0 then []
    else
      var n := Min(MaxFieldsPerEmbed, |rest|);
      [EmbedFor(total, rest[..n])] + EmbedsFrom(total, rest[n..])
  }

  /** Every message a complete post sends: nothing without a channel or listings,
      otherwise the embeds followed by the footer. */
  function PlannedSends(channelFound: bool, jobs: seq<JobInfo>, datePosted: string): (p: seq<Message>)
    ensures |p| == 0 <==> !channelFound || |jobs| == 0
    ensures |p| > 0 ==> p[|p| - 1] == Footer(datePosted)
  {
    if !channelFound || |jobs| == 0 then []
    else EmbedsFrom(|jobs|, jobs) + [Footer(datePosted)]
  }

  /** Whether the post runs to its end: no send fails, or the failing send would come
      after the last planned one. */
  predicate Completes(planned: seq<Message>, failAt: Option<nat>)
  {
    failAt.None? || failAt.value >= |planned|
  }

  /** The messages that actually go out when send number `failAt` (counted from 0) throws. */
  function SentPrefix(planned: seq<Message>, failAt: Option<nat>): (sent: seq<Message>)
    ensures Completes(planned, failAt) ==> sent == planned
    ensures !Completes(planned, failAt) ==> |sent| == failAt.value < |planned|
    ensures sent <= planned
  {
    if Completes(planned, failAt) then planned else planned[..failAt.value]
  }

  /** The `foreach` over one batch: one field added per listing. */
  method BuildFields(batch: seq<JobInfo>) returns (fields: seq<Field>)
    ensures fields == FieldsOf(batch)
  {
    fields := [];
    for k := 0 to |batch|
      invariant fields == FieldsOf(batch[..k])
    {
      fields := fields + [FieldOf(batch[k])];
    }
    assert batch[..|batch|] == batch;
  }

  /** `PostJobsAsync`: without a channel or listings, send nothing; otherwise send one embed per
      batch of at most 25 listings and then the footer. A send that throws (number `failAt`)
      ends the post there, and `completed` is false. */
  method PostJobs(channelFound: bool, jobs: seq<JobInfo>, datePosted: string, failAt: Option<nat>)
    returns (sent: seq<Message>, completed: bool)
    ensures completed == Completes(PlannedSends(channelFound, jobs, datePosted), failAt)
    ensures sent == SentPrefix(PlannedSends(channelFound, jobs, datePosted), failAt)
  {
    if !channelFound || |jobs| == 0 {
      return [], true;
    }
    ghost var embeds := EmbedsFrom(|jobs|, jobs);
    ghost var planned := embeds + [Footer(datePosted)];
    assert planned == PlannedSends(channelFound, jobs, datePosted);
    var total := |jobs|;
    var index := 0;
    sent := [];
    while index < |jobs|
      invariant 0 <= index <= |jobs|
      invariant sent + EmbedsFrom(total, jobs[index..]) == embeds
      invariant failAt.Some? ==> failAt.value >= |sent|
    {
      var take := Min(MaxFieldsPerEmbed, |jobs| - index);
      var batch := jobs[index..index + take];
      var fields := BuildFields(batch);
      var embed := Embed("New Jobs Posted", "Found " + NatToString(total) + " new job(s).", fields);
      assert embed == EmbedFor(total, batch);
      NextBatch(total, jobs, index, sent, embeds);
      if failAt == Some(|sent|) {
        PrefixOfPlanned(sent, EmbedsFrom(total, jobs[index..]), embeds, Footer(datePosted));
        return sent, false;
      }
      sent := sent + [embed];
      index := index + |batch|;
    }
    assert sent == embeds;
    if failAt == Some(|sent|) {
      assert planned[..|sent|] == sent;
      return sent, false;
    }
    sent, completed := sent + [Footer(datePosted)], true;
  }

  /** One loop step: the next embed is the one of the batch at `index`, and the listings
      after that batch give the remaining ones. */
  lemma NextBatch(total: nat, jobs: seq<JobInfo>, index: nat, sent: seq<Message>, embeds: seq<Message>)
    requires index < |jobs|
    requires sent + EmbedsFrom(total, jobs[index..]) == embeds
    ensures var take := Min(MaxFieldsPerEmbed, |jobs| - index);
      sent + [EmbedFor(total, jobs[index..index + take])] + EmbedsFrom(total, jobs[index + take..]) == embeds
  {
    var take := Min(MaxFieldsPerEmbed, |jobs| - index);
    assert jobs[index..][..take] == jobs[index..index + take];
    assert jobs[index..][take..] == jobs[index + take..];
  }

  /** Stopping before a remaining non-empty part leaves a strict prefix of the planned sends. */
  lemma PrefixOfPlanned(sent: seq<Message>, rest: seq<Message>, embeds: seq<Message>, footer: Message)
    requires sent + rest == embeds
    ensures |sent| < |embeds + [footer]|
    ensures (embeds + [footer])[..|sent|] == sent
  {
  }

  /** The fields of the embeds, taken in order, are one field per listing in listing order. */
  lemma {:induction false} EmbedFieldsAreListings(total: nat, rest: seq<JobInfo>)
    ensures AllFields(EmbedsFrom(total, rest)) == FieldsOf(rest)
  {
    if |rest| > 0 {
      var n := Min(MaxFieldsPerEmbed, |rest|);
      EmbedFieldsAreListings(total, rest[n..]);
      assert rest[..n] + rest[n..] == rest;
      FieldsOfAppend(rest[..n], rest[n..]);
      var e := EmbedsFrom(total, rest);
      assert e[1..] == EmbedsFrom(total, rest[n..]);
    }
  }

  /** The embeds are exactly the batches, each turned into one embed. */
  lemma {:induction false} EmbedsAreBatches(total: nat, rest: seq<JobInfo>)
    ensures |EmbedsFrom(total, rest)| == |Batches(rest)|
    ensures forall i :: 0 <= i < |Batches(rest)| ==> EmbedsFrom(total, rest)[i] == EmbedFor(total, Batches(rest)[i])
  {
    if |rest| > 0 {
      var n := Min(MaxFieldsPerEmbed, |rest|);
      EmbedsAreBatches(total, rest[n..]);
    }
  }

  /** Fields of all embeds in a message list, in order. */
  function AllFields(ms: seq<Message>): seq<Field>
  {
    if |ms| == 0 then []
    else (if ms[0].Embed? then ms[0].fields else []) + AllFields(ms[1..])
  }

  lemma FieldsOfAppend(a: seq<JobInfo>, b: seq<JobInfo>)
    ensures FieldsOf(a + b) == FieldsOf(a) + FieldsOf(b)
  {
  }

  /** For n > 0 listings: ceil(n/25) embeds of 1..25 fields (all but the last full), whose
      fields are the listings in order, then exactly one footer, last. */
  lemma PostShape(jobs: seq<JobInfo>, datePosted: string)
    requires |jobs| > 0
    ensures var p := PlannedSends(true, jobs, datePosted);
      && |p| == (|jobs| + MaxFieldsPerEmbed - 1) / MaxFieldsPerEmbed + 1
      && p[|p| - 1] == Footer(datePosted)
      && (forall i :: 0 <= i < |p| - 1 ==> p[i].Embed? && 1 <= |p[i].fields| <= MaxFieldsPerEmbed)
      && (forall i :: 0 <= i < |p| - 2 ==> |p[i].fields| == MaxFieldsPerEmbed)
      && AllFields(p[..|p| - 1]) == FieldsOf(jobs)
  {
    var p := PlannedSends(true, jobs, datePosted);
    var e := EmbedsFrom(|jobs|, jobs);
    EmbedsAreBatches(|jobs|, jobs);
    EmbedFieldsAreListings(|jobs|, jobs);
    assert p[..|p| - 1] == e;
    forall i | 0 <= i < |p| - 1
      ensures p[i].Embed? && 1 <= |p[i].fields| <= MaxFieldsPerEmbed
    {
      assert p[i] == e[i] == EmbedFor(|jobs|, Batches(jobs)[i]);
    }
    forall i | 0 <= i < |p| - 2
      ensures |p[i].fields| == MaxFieldsPerEmbed
    {
      assert p[i] == e[i] == EmbedFor(|jobs|, Batches(jobs)[i]);
    }
  }

  /** Thirty listings go out as an embed of 25 fields, one of 5, and the footer. */
  lemma ThirtyListings(jobs: seq<JobInfo>, datePosted: string)
    requires |jobs| == 30
    ensures var p := PlannedSends(true, jobs, datePosted);
      && |p| == 3
      && p[0].Embed? && |p[0].fields| == 25
      && p[1].Embed? && |p[1].fields| == 5
      && p[2] == Footer(datePosted)
  {
    var e := EmbedsFrom(30, jobs);
    assert jobs[25..][5..] == [];
    assert EmbedsFrom(30, jobs[25..][5..]) == [];
    assert EmbedsFrom(30, jobs[25..]) == [EmbedFor(30, jobs[25..][..5])];
    assert e == [EmbedFor(30, jobs[..25]), EmbedFor(30, jobs[25..][..5])];
  }
}
