/**
 * app/db/job_repository.py: `JobRepository` over a `jobs` table whose primary
 * key is the job's string id, as a map from id to the stored job.
 */
module JobStore {
  import opened Wrappers
  import opened Models

  /** The `data` dict of `update`: one entry per column to set; `None` is a
      column the dict does not name. */
  datatype JobPatch = JobPatch(
    title: Option<string>,
    company: Option<string>,
    location: Option<string>,
    description: Option<string>,
    seniorityLevel: Option<string>,
    applicationUrl: Option<string>,
    applied: Option<bool>,
    scrapedDate: Option<string>)

  predicate IsEmptyPatch(p: JobPatch) {
    && p.title.None? && p.company.None? && p.location.None? && p.description.None?
    && p.seniorityLevel.None? && p.applicationUrl.None? && p.applied.None? && p.scrapedDate.None?
  }

  /** The row after `UPDATE jobs SET <the named columns> WHERE id = ?`. */
  function ApplyPatch(j: Job, p: JobPatch): Job {
    Job(j.id, p.title.GetOr(j.title), p.company.GetOr(j.company), p.location.GetOr(j.location),
        p.description.GetOr(j.description), p.seniorityLevel.GetOr(j.seniorityLevel),
        p.applicationUrl.GetOr(j.applicationUrl), p.applied.GetOr(j.applied), p.scrapedDate.GetOr(j.scrapedDate))
  }

  /** The patch `mark_as_applied` sends: `{"applied": True}`. */
  function AppliedPatch(): (p: JobPatch)
    ensures !IsEmptyPatch(p)
  {
    JobPatch(None, None, None, None, None, None, Some(true), None)
  }

  /** A patch never touches the id, and applying it twice is applying it once. */
  lemma PatchKeepsId(j: Job, p: JobPatch)
    ensures ApplyPatch(j, p).id == j.id
    ensures ApplyPatch(ApplyPatch(j, p), p) == ApplyPatch(j, p)
  {
  }

  /** An empty patch changes nothing, and the applied patch changes only the flag. */
  lemma PatchFrames(j: Job)
    ensures forall p :: IsEmptyPatch(p) ==> ApplyPatch(j, p) == j
    ensures ApplyPatch(j, AppliedPatch()) == j.(applied := true)
  {
  }

  class JobRepository {
    var jobs: map<string, Job>

    /** Every job is stored under its own id. */
    ghost predicate Valid()
      reads this
    {
      forall k :: k in jobs ==> jobs[k].id == k
    }

    constructor ()
      ensures Valid() && jobs == map[]
    {
      jobs := map[];
    }

    /** `create`: inserts a job whose id is new; a known id leaves the store as it is. */
    method Create(job: Job) returns (created: bool)
      requires Valid()
      modifies this
      ensures Valid()
      ensures created <==> job.id !in old(jobs)
      ensures jobs == if created then old(jobs)[job.id := job] else old(jobs)
    {
      if job.id in jobs {
        return false;
      }
      jobs := jobs[job.id := job];
      created := true;
    }

    /** `get` */
    function Get(id: string): (r: Option<Job>)
      requires Valid()
      reads this
      ensures r.Some? <==> id in jobs
      ensures r.Some? ==> r.value.id == id && r.value == jobs[id]
    {
      if id in jobs then Some(jobs[id]) else None
    }

    /** `get_all`: every stored job exactly once, in the engine's order. */
    method GetAll() returns (all: seq<Job>)
      requires Valid()
      ensures forall i :: 0 <= i < |all| ==> all[i].id in jobs && jobs[all[i].id] == all[i]
      ensures forall k :: k in jobs ==> jobs[k] in all
      ensures forall i, j :: 0 <= i < j < |all| ==> all[i].id != all[j].id
    {
      all := [];
      var remaining := jobs.Keys;
      while remaining != {}
        invariant remaining <= jobs.Keys
        invariant forall i :: 0 <= i < |all| ==> all[i].id in jobs && jobs[all[i].id] == all[i] && all[i].id !in remaining
        invariant forall k :: k in jobs && k !in remaining ==> jobs[k] in all
        invariant forall i, j :: 0 <= i < j < |all| ==> all[i].id != all[j].id
        decreases |remaining|
      {
        var k :| k in remaining;
        all := all + [jobs[k]];
        remaining := remaining - {k};
      }
    }

    /** `update`: the SET clause lists the patch's columns, so an empty patch is
        malformed SQL; otherwise only that job's named columns change, and the
        result says whether the job existed. */
    method Update(id: string, patch: JobPatch) returns (r: Result<bool>)
      requires Valid()
      modifies this
      ensures Valid()
      ensures IsEmptyPatch(patch) ==> r == Err(SqlSyntax) && jobs == old(jobs)
      ensures !IsEmptyPatch(patch) ==> r == Ok(id in old(jobs))
      ensures !IsEmptyPatch(patch) ==>
        jobs == if id in old(jobs) then old(jobs)[id := ApplyPatch(old(jobs)[id], patch)] else old(jobs)
    {
      if IsEmptyPatch(patch) {
        return Err(SqlSyntax);
      }
      if id !in jobs {
        return Ok(false);
      }
      PatchKeepsId(jobs[id], patch);
      jobs := jobs[id := ApplyPatch(jobs[id], patch)];
      r := Ok(true);
    }

    /** `delete`: removes only that job; the result says whether it existed. */
    method Delete(id: string) returns (existed: bool)
      requires Valid()
      modifies this
      ensures Valid()
      ensures existed <==> id in old(jobs)
      ensures jobs == old(jobs) - {id}
    {
      existed := id in jobs;
      jobs := jobs - {id};
    }

    /** `mark_as_applied`: the update that sets only the applied flag. */
    method MarkAsApplied(id: string) returns (updated: bool)
      requires Valid()
      modifies this
      ensures Valid()
      ensures updated <==> id in old(jobs)
      ensures jobs == if id in old(jobs) then old(jobs)[id := old(jobs)[id].(applied := true)] else old(jobs)
    {
      if id in jobs {
        PatchFrames(jobs[id]);
      }
      var r := Update(id, AppliedPatch());
      updated := r.value;
    }

    /** `get_application_url` */
    function GetApplicationUrl(id: string): (r: Option<string>)
      reads this
      ensures r.Some? <==> id in jobs
      ensures r.Some? ==> r.value == jobs[id].applicationUrl
    {
      if id in jobs then Some(jobs[id].applicationUrl) else None
    }
  }
}
