/**
 * The loosely typed job dict that flows between the scraper, the search agent,
 * the JSON files and the main script. A field is `None` when the dict does not
 * have that key.
 */
module JobRecords {
  import opened Wrappers

  datatype JobDict = JobDict(
    id: Option<string>,
    jobId: Option<string>,
    title: Option<string>,
    company: Option<string>,
    location: Option<string>,
    description: Option<string>,
    seniorityLevel: Option<string>,
    applicationUrl: Option<string>,
    scrapedDate: Option<string>,
    applied: Option<bool>)

  /** Python truthiness of `d.get(key)` for a string value: present and non-empty. */
  predicate Truthy(o: Option<string>) {
    o.Some? && o.value != ""
  }

  /** The positions of the jobs that have a non-empty description, in order. */
  function DescribedIndices(jobs: seq<JobDict>): (ix: seq<nat>)
    ensures forall k :: 0 <= k < |ix| ==> ix[k] < |jobs| && Truthy(jobs[ix[k]].description)
    ensures forall k, l :: 0 <= k < l < |ix| ==> ix[k] < ix[l]
    ensures forall i :: 0 <= i < |jobs| && Truthy(jobs[i].description) ==> i in ix
  {
    if jobs == [] then []
    else
      var n := |jobs| - 1;
      var prefix := DescribedIndices(jobs[..n]);
      assert forall i :: 0 <= i < n ==> jobs[..n][i] == jobs[i];
      if Truthy(jobs[n].description) then prefix + [n] else prefix
  }

  /** The `{... for i, job in enumerate(jobs) if job.get("description")}` list
      of a JSON writer whose entry for the i-th job is `entry(i, job)`. */
  function DescribedEntries(jobs: seq<JobDict>, entry: (nat, JobDict) -> JobDict): (r: seq<JobDict>)
    ensures |r| == |DescribedIndices(jobs)| <= |jobs|
    ensures forall k :: 0 <= k < |r| ==> r[k] == entry(DescribedIndices(jobs)[k], jobs[DescribedIndices(jobs)[k]])
  {
    if jobs == [] then []
    else
      var n := |jobs| - 1;
      var prefix := DescribedEntries(jobs[..n], entry);
      assert forall i :: 0 <= i < n ==> jobs[..n][i] == jobs[i];
      IndicesBound(jobs);
      if Truthy(jobs[n].description) then prefix + [entry(n, jobs[n])] else prefix
  }

  lemma {:induction false} IndicesBound(jobs: seq<JobDict>)
    ensures |DescribedIndices(jobs)| <= |jobs|
  {
    if jobs != [] {
      IndicesBound(jobs[..|jobs| - 1]);
    }
  }
}
