/** One listing row of the feed and its identity key (Models/JobInfo.cs). */
module Jobs {
  import opened Wrappers
  import opened Strings

  /** The ten columns of a row; every text column and the count may be null. */
  datatype JobInfo = JobInfo(
    location: Option<string>,
    trade: Option<string>,
    wages: Option<string>,
    nationalPension: Option<string>,
    localPension: Option<string>,
    healthAndWelfare: Option<string>,
    hours: Option<string>,
    startDate: Option<string>,
    endDate: Option<string>,
    amountNeeded: Option<int>)

  const KeyDelimiter: char := '|'

  /** What string interpolation writes for a nullable string: null gives nothing. */
  function Shown(s: Option<string>): (r: string)
    ensures s.None? ==> r == ""
    ensures s.Some? ==> r == s.value
  {
    s.GetOr("")
  }

  /** The six columns the key is made of, in key order. */
  function KeyFields(j: JobInfo): seq<string>
  {
    [Shown(j.location), Shown(j.trade), Shown(j.wages),
     Shown(j.hours), Shown(j.startDate), Shown(j.endDate)]
  }

  /** The identity key of a listing: the six key columns joined by '|'. */
  function JobKey(j: JobInfo): (k: string)
    ensures |k| == |Shown(j.location)| + |Shown(j.trade)| + |Shown(j.wages)| +
                   |Shown(j.hours)| + |Shown(j.startDate)| + |Shown(j.endDate)| + 5
    ensures k[..|Shown(j.location)|] == Shown(j.location)
  {
    var f := KeyFields(j);
    assert Join(f[5..], KeyDelimiter) == f[5];
    assert Join(f[4..], KeyDelimiter) == f[4] + [KeyDelimiter] + Join(f[5..], KeyDelimiter);
    assert Join(f[3..], KeyDelimiter) == f[3] + [KeyDelimiter] + Join(f[4..], KeyDelimiter);
    assert Join(f[2..], KeyDelimiter) == f[2] + [KeyDelimiter] + Join(f[3..], KeyDelimiter);
    assert Join(f[1..], KeyDelimiter) == f[1] + [KeyDelimiter] + Join(f[2..], KeyDelimiter);
    Join(f, KeyDelimiter)
  }

  /** No key column contains the delimiter. */
  predicate DelimiterFree(j: JobInfo)
  {
    forall i :: 0 <= i < |KeyFields(j)| ==> KeyDelimiter !in KeyFields(j)[i]
  }

  /** When no key column contains '|', the key can be split back into its columns. */
  lemma KeyDecodes(j: JobInfo)
    requires DelimiterFree(j)
    ensures Split(JobKey(j), KeyDelimiter) == KeyFields(j)
  {
    SplitJoin(KeyFields(j), KeyDelimiter);
  }

  /** When no key column contains '|', equal keys mean equal key columns (null read as empty). */
  lemma EqualKeysEqualFields(a: JobInfo, b: JobInfo)
    requires DelimiterFree(a) && DelimiterFree(b)
    requires JobKey(a) == JobKey(b)
    ensures KeyFields(a) == KeyFields(b)
    ensures Shown(a.location) == Shown(b.location) && Shown(a.trade) == Shown(b.trade)
    ensures Shown(a.wages) == Shown(b.wages) && Shown(a.hours) == Shown(b.hours)
    ensures Shown(a.startDate) == Shown(b.startDate) && Shown(a.endDate) == Shown(b.endDate)
  {
    KeyDecodes(a);
    KeyDecodes(b);
  }

  /** Equal key columns (null read as empty) give equal keys; the other four columns do not matter. */
  lemma EqualFieldsEqualKeys(a: JobInfo, b: JobInfo)
    requires KeyFields(a) == KeyFields(b)
    ensures JobKey(a) == JobKey(b)
  {
  }

  /** Changing the pensions, health/welfare or the count leaves the key as it was. */
  lemma KeyIgnoresOtherColumns(j: JobInfo, np: Option<string>, lp: Option<string>,
                               hw: Option<string>, needed: Option<int>)
    ensures JobKey(j.(nationalPension := np, localPension := lp,
                      healthAndWelfare := hw, amountNeeded := needed)) == JobKey(j)
  {
  }

  /** A null key column and an empty one give the same key. */
  lemma NullKeyColumnIsEmpty(j: JobInfo)
    ensures JobKey(j.(location := None)) == JobKey(j.(location := Some("")))
    ensures JobKey(j.(trade := None)) == JobKey(j.(trade := Some("")))
    ensures JobKey(j.(wages := None)) == JobKey(j.(wages := Some("")))
    ensures JobKey(j.(hours := None)) == JobKey(j.(hours := Some("")))
    ensures JobKey(j.(startDate := None)) == JobKey(j.(startDate := Some("")))
    ensures JobKey(j.(endDate := None)) == JobKey(j.(endDate := Some("")))
  {
  }

  /** Without the delimiter-free condition two listings with different columns can share a key. */
  lemma DelimiterInColumnCollides()
    ensures exists a: JobInfo, b: JobInfo :: JobKey(a) == JobKey(b) && KeyFields(a) != KeyFields(b)
  {
    var a := JobInfo(Some("a|b"), Some(""), None, None, None, None, None, None, None, None);
    var b := JobInfo(Some("a"), Some("b|"), None, None, None, None, None, None, None, None);
    var fa, fb := KeyFields(a), KeyFields(b);
    var rest := Join(fa[2..], KeyDelimiter);
    assert fa[2..] == fb[2..];
    assert fa[1..][1..] == fa[2..] && fb[1..][1..] == fb[2..];
    assert JobKey(a) == "a|b" + "|" + ("" + "|" + rest);
    assert JobKey(b) == "a" + "|" + ("b|" + "|" + rest);
    assert "a|b" + "|" + ("" + "|" + rest) == "a|b||" + rest;
    assert "a" + "|" + ("b|" + "|" + rest) == "a|b||" + rest;
    assert fa[0] != fb[0];
  }
}
