/**
 * The job loop of main.py: each job entry is checked for its keys and its
 * seniority, stored as a job, turned into a company that the job analysis
 * fills in, and given a targeted resume; one record per accepted entry is
 * kept, in input order.
 */
module MainFlow {
  import opened Wrappers
  import opened Text
  import opened Models
  import opened JobRecords
  import opened Tables
  import ResumeStore
  import CompanyStore
  import JobStore
  import JobSearch
  import ResumeBuilder

  /** The four keys an entry must have. */
  predicate IsComplete(d: JobDict) {
    d.id.Some? && d.title.Some? && d.company.Some? && d.description.Some?
  }

  const MidSenior := "Mid-Senior level"

  /** `job_data.get('seniority_level', '').strip()` */
  function Seniority(d: JobDict): string {
    Strip(d.seniorityLevel.GetOr(""))
  }

  /** The entries the loop does not skip. */
  predicate Accepted(d: JobDict) {
    IsComplete(d) && Seniority(d) == MidSenior
  }

  /** An entry is accepted exactly when it has the four keys and a seniority
      level that strips to "Mid-Senior level"; one without a level is skipped. */
  lemma AcceptedIff(d: JobDict)
    ensures Accepted(d) <==> IsComplete(d) && d.seniorityLevel.Some? && Strip(d.seniorityLevel.value) == MidSenior
  {
    if d.seniorityLevel.None? {
      assert Strip("") == "" by {
        assert |Strip("")| <= 0;
      }
    }
  }

  /** The `Job` of an accepted entry: absent location and URL become "", the
      seniority level is kept unstripped, and the job is not applied for. */
  function JobOf(d: JobDict, now: string): (j: Job)
    requires IsComplete(d)
  {
    Job(d.id.value, d.title.value, d.company.value, d.location.GetOr(""), d.description.value,
        d.seniorityLevel.GetOr(""), d.applicationUrl.GetOr(""), false, now)
  }

  /** For an entry that has every key the job store reads, the main script
      builds the same job as `save_jobs_to_database`. */
  lemma JobOfAgrees(d: JobDict, now: string)
    requires JobSearch.JobOfDict(d, now).Ok?
    ensures IsComplete(d) && JobSearch.JobOfDict(d, now) == Ok(JobOf(d, now))
  {
  }

  /** The jobs of the accepted entries, in input order. */
  function Selected(ds: seq<JobDict>, now: string): (js: seq<Job>)
    ensures |js| <= |ds|
    decreases |ds|
  {
    if ds == [] then []
    else
      var n := |ds| - 1;
      Selected(ds[..n], now) + if Accepted(ds[n]) then [JobOf(ds[n], now)] else []
  }

  lemma SelectedStep(ds: seq<JobDict>, i: nat, now: string)
    requires i < |ds|
    ensures Selected(ds[..i + 1], now) == Selected(ds[..i], now) + if Accepted(ds[i]) then [JobOf(ds[i], now)] else []
  {
    assert ds[..i + 1][..i] == ds[..i];
  }

  /** Selection keeps input order: the jobs of a concatenation are the jobs of
      its parts. */
  lemma {:induction false} SelectedAppend(a: seq<JobDict>, b: seq<JobDict>, now: string)
    ensures Selected(a + b, now) == Selected(a, now) + Selected(b, now)
    decreases |b|
  {
    if b == [] {
      assert a + b == a;
    } else {
      var n := |b| - 1;
      assert (a + b)[..|a + b| - 1] == a + b[..n];
      SelectedAppend(a, b[..n], now);
    }
  }

  /** Each selected job is the job of an accepted entry. */
  lemma {:induction false} SelectedSound(ds: seq<JobDict>, now: string, k: nat) returns (i: nat)
    requires k < |Selected(ds, now)|
    ensures i < |ds| && Accepted(ds[i]) && Selected(ds, now)[k] == JobOf(ds[i], now)
    decreases |ds|
  {
    var n := |ds| - 1;
    if k < |Selected(ds[..n], now)| {
      i := SelectedSound(ds[..n], now, k);
      assert ds[..n][i] == ds[i];
    } else {
      i := n;
    }
  }

  /** Each accepted entry contributes its job. */
  lemma SelectedComplete(ds: seq<JobDict>, now: string, i: nat)
    requires i < |ds| && Accepted(ds[i])
    ensures JobOf(ds[i], now) in Selected(ds, now)
  {
    var a, x, b := ds[..i], ds[i], ds[i + 1..];
    assert ds == (a + [x]) + b;
    SelectedAppend(a + [x], b, now);
    SelectedAppend(a, [x], now);
    assert [x][..0] == [];
    assert Selected([x], now) == [JobOf(x, now)];
  }

  /** The jobs table after `job_repo.create` of each job in order: a job whose
      id is already stored is not stored again. */
  function CreateAll(store: map<string, Job>, js: seq<Job>): (r: map<string, Job>)
    decreases |js|
  {
    if js == [] then store
    else
      var n := |js| - 1;
      var prev := CreateAll(store, js[..n]);
      if js[n].id in prev then prev else prev[js[n].id := js[n]]
  }

  lemma CreateAllStep(store: map<string, Job>, js: seq<Job>, j: Job)
    ensures CreateAll(store, js + [j])
         == if j.id in CreateAll(store, js) then CreateAll(store, js) else CreateAll(store, js)[j.id := j]
  {
    assert (js + [j])[..|js|] == js;
  }

  /** What was stored stays, every job's id is stored, nothing else is, and
      every job is stored under its own id. */
  lemma {:induction false} CreateAllKeys(store: map<string, Job>, js: seq<Job>)
    requires forall k :: k in store ==> store[k].id == k
    ensures forall k :: k in store ==> k in CreateAll(store, js) && CreateAll(store, js)[k] == store[k]
    ensures CreateAll(store, js).Keys == store.Keys + set j | j in js :: j.id
    ensures forall k :: k in CreateAll(store, js) ==> CreateAll(store, js)[k].id == k
    decreases |js|
  {
    if js != [] {
      var n := |js| - 1;
      CreateAllKeys(store, js[..n]);
      assert js == js[..n] + [js[n]];
      assert (set j | j in js :: j.id) == (set j | j in js[..n] :: j.id) + {js[n].id};
    }
  }

  /** The first job with a new id is the one stored under it. */
  lemma {:induction false} CreateAllFirst(store: map<string, Job>, js: seq<Job>, i: nat)
    requires i < |js| && js[i].id !in store
    requires forall p :: 0 <= p < i ==> js[p].id != js[i].id
    ensures js[i].id in CreateAll(store, js) && CreateAll(store, js)[js[i].id] == js[i]
    decreases |js|
  {
    var n := |js| - 1;
    if i < n {
      CreateAllFirst(store, js[..n], i);
    } else {
      assert js[i].id !in CreateAll(store, js[..n]) by {
        CreateAllAbsent(store, js[..n], js[i].id);
      }
    }
  }

  lemma {:induction false} CreateAllAbsent(store: map<string, Job>, js: seq<Job>, id: string)
    requires id !in store && forall p :: 0 <= p < |js| ==> js[p].id != id
    ensures id !in CreateAll(store, js)
    decreases |js|
  {
    if js != [] {
      CreateAllAbsent(store, js[..|js| - 1], id);
    }
  }

  /** The company the loop builds from a job, before the analysis. */
  function CompanyFieldsOf(j: Job): (c: ResumeBuilder.CompanyFields) {
    ResumeBuilder.CompanyFields(j.company, j.title, j.description, j.location, j.applicationUrl, j.seniorityLevel,
                                None, None, None, None)
  }

  /** The row `company_repo.create` stores for a company. */
  function CompanyRowOf(c: ResumeBuilder.CompanyFields): CompanyStore.CompanyRow {
    CompanyStore.CompanyRow(c.name, c.about, c.requiredEducation, c.requiredSkills, c.jobDescription)
  }

  /** The company rows of the selected jobs, one each, after their analyses. */
  function CompanyRows(js: seq<Job>, analysisOf: Job -> CompanyAnalysis): (rows: seq<CompanyStore.CompanyRow>)
    ensures |rows| == |js|
  {
    seq(|js|, i requires 0 <= i < |js| => CompanyRowOf(ResumeBuilder.Merged(CompanyFieldsOf(js[i]), analysisOf(js[i]))))
  }

  /** A stored company keeps its job's description and takes the analysis's
      requirements; its name is the job's company unless that is empty. */
  lemma CompanyRowOfJob(j: Job, a: CompanyAnalysis)
    ensures var row := CompanyRowOf(ResumeBuilder.Merged(CompanyFieldsOf(j), a));
            && row.jobDescription == j.description
            && row.aboutBusiness == a.about && row.qualifications == a.requiredEducation
            && row.skills == a.requiredSkills
            && row.name == if j.company == "" && a.companyName.Some? then a.companyName.value else j.company
  {
  }

  lemma CompanyRowsAppend(js: seq<Job>, j: Job, analysisOf: Job -> CompanyAnalysis)
    ensures CompanyRows(js + [j], analysisOf)
         == CompanyRows(js, analysisOf) + [CompanyRowOf(ResumeBuilder.Merged(CompanyFieldsOf(j), analysisOf(j)))]
  {
  }

  /** An element of `resume_ids`. */
  datatype ResumeRecord = ResumeRecord(jobId: string, resumeId: int, company: string, title: string, applicationUrl: string)

  function RecordOf(j: Job, resumeId: int): ResumeRecord {
    ResumeRecord(j.id, resumeId, j.company, j.title, j.applicationUrl)
  }

  /** The id of the resume the store finds for a job id. */
  function ResumeIdOf(rows: seq<Row<ResumeStore.ResumeRow>>, jobId: string): Option<int> {
    match ResumeStore.FindByJobId(rows, jobId)
    case None => None
    case Some(row) => Some(row.id)
  }

  /** A resume row appended later does not change which resume a job id finds. */
  lemma {:induction false} FindKept(rows: seq<Row<ResumeStore.ResumeRow>>, row: Row<ResumeStore.ResumeRow>, jobId: string)
    requires ResumeStore.FindByJobId(rows, jobId).Some?
    ensures ResumeStore.FindByJobId(rows + [row], jobId) == ResumeStore.FindByJobId(rows, jobId)
    decreases |rows|
  {
    assert (rows + [row])[0] == rows[0];
    if rows[0].data.jobId != Some(jobId) {
      assert (rows + [row])[1..] == rows[1..] + [row];
      FindKept(rows[1..], row, jobId);
    }
  }

  /** The records carry, in order, the fields of the jobs they were made for. */
  predicate Matches(records: seq<ResumeRecord>, js: seq<Job>) {
    |records| == |js| && forall k :: 0 <= k < |records| ==> records[k] == RecordOf(js[k], records[k].resumeId)
  }

  /** Each record's resume is the one the store finds for its job id. */
  predicate Stored(rows: seq<Row<ResumeStore.ResumeRow>>, records: seq<ResumeRecord>) {
    forall k :: 0 <= k < |records| ==> ResumeIdOf(rows, records[k].jobId) == Some(records[k].resumeId)
  }

  lemma MatchesAppend(records: seq<ResumeRecord>, js: seq<Job>, job: Job, resumeId: int)
    requires Matches(records, js)
    ensures Matches(records + [RecordOf(job, resumeId)], js + [job])
  {
  }

  lemma StoredAppend(rows: seq<Row<ResumeStore.ResumeRow>>, records: seq<ResumeRecord>, job: Job, resumeId: int)
    requires Stored(rows, records) && ResumeIdOf(rows, job.id) == Some(resumeId)
    ensures Stored(rows, records + [RecordOf(job, resumeId)])
  {
  }

  lemma RecordsKept(rows: seq<Row<ResumeStore.ResumeRow>>, row: Row<ResumeStore.ResumeRow>, records: seq<ResumeRecord>)
    requires Stored(rows, records)
    ensures Stored(rows + [row], records)
  {
    forall k | 0 <= k < |records|
      ensures ResumeIdOf(rows + [row], records[k].jobId) == Some(records[k].resumeId)
    {
      FindKept(rows, row, records[k].jobId);
    }
  }

  /** What `create_resume` leaves behind for a job id whose company is
      known: the resume it returns is the one the store finds for the job,
      either the existing one or the one just built, and the resumes found
      for earlier jobs stay as they were. */
  lemma ResumeStep(db0: ResumeStore.Db, db1: ResumeStore.Db, rid: int, company: string, url: Option<string>,
                   jobId: string, out: ResumeBuilder.Outputs, records: seq<ResumeRecord>)
    requires ResumeStore.Consistent(db0) && ResumeBuilder.UniqueJobIds(db0.resumes.rows)
    requires Stored(db0.resumes.rows, records)
    requires ResumeStore.FindByJobId(db0.resumes.rows, jobId).Some? ==>
               rid == ResumeStore.FindByJobId(db0.resumes.rows, jobId).value.id && db1 == db0
    requires ResumeStore.FindByJobId(db0.resumes.rows, jobId).None? ==>
               rid == db0.resumes.next && db1 == ResumeBuilder.Built(db0, company, url, jobId, out)
    ensures ResumeIdOf(db1.resumes.rows, jobId) == Some(rid)
    ensures Stored(db1.resumes.rows, records)
  {
    if ResumeStore.FindByJobId(db0.resumes.rows, jobId).None? {
      ResumeBuilder.BuiltResume(db0, company, url, jobId, out);
      RecordsKept(db0.resumes.rows, Row(db0.resumes.next,
        ResumeStore.ResumeRow(ResumeBuilder.ResumeName(company), Some(ResumeBuilder.Description(company, url)), Some(jobId))), records);
    }
  }

  /** The job and company tables after one more accepted job. */
  lemma TablesStep(store0: map<string, Job>, companies0: Table<CompanyStore.CompanyRow>, sel: seq<Job>, job: Job,
                   analysisOf: Job -> CompanyAnalysis, jobs: map<string, Job>, companies: Table<CompanyStore.CompanyRow>)
    requires jobs == if job.id in CreateAll(store0, sel) then CreateAll(store0, sel) else CreateAll(store0, sel)[job.id := job]
    requires companies == Insert(InsertAll(companies0, CompanyRows(sel, analysisOf)),
                                 CompanyRowOf(ResumeBuilder.Merged(CompanyFieldsOf(job), analysisOf(job))))
    ensures jobs == CreateAll(store0, sel + [job])
    ensures companies == InsertAll(companies0, CompanyRows(sel + [job], analysisOf))
  {
    CreateAllStep(store0, sel, job);
    CompanyRowsAppend(sel, job, analysisOf);
    InsertAllAppend(companies0, CompanyRows(sel, analysisOf),
                    [CompanyRowOf(ResumeBuilder.Merged(CompanyFieldsOf(job), analysisOf(job)))]);
  }

  /** The loop of `main` over the entries: skipped entries change nothing;
      each accepted one is stored as a job (unless its id is known), becomes
      one company row after its analysis, and gets the resume `create_resume`
      returns, which is the resume the store holds for that job. The analysis
      and the generators' outputs for each job are inputs. */
  method ProcessJobs(jobsData: seq<JobDict>, now: string, jobRepo: JobStore.JobRepository,
                     builder: ResumeBuilder.AIResumeBuilder,
                     analysisOf: Job -> CompanyAnalysis, outputsOf: Job -> ResumeBuilder.Outputs)
    returns (records: seq<ResumeRecord>)
    requires jobRepo.Valid() && builder.Valid()
    modifies jobRepo, builder.companyRepo, builder.resumeRepo
    ensures jobRepo.Valid() && builder.Valid()
    ensures jobRepo.jobs == CreateAll(old(jobRepo.jobs), Selected(jobsData, now))
    ensures builder.companyRepo.company
         == InsertAll(old(builder.companyRepo.company), CompanyRows(Selected(jobsData, now), analysisOf))
    ensures |records| == |Selected(jobsData, now)|
    ensures forall k :: 0 <= k < |records| ==> records[k] == RecordOf(Selected(jobsData, now)[k], records[k].resumeId)
    ensures forall k :: 0 <= k < |records| ==>
              ResumeIdOf(builder.resumeRepo.db.resumes.rows, records[k].jobId) == Some(records[k].resumeId)
  {
    records := [];
    ghost var store0, companies0 := jobRepo.jobs, builder.companyRepo.company;
    InsertAllNothing(companies0);
    for i := 0 to |jobsData|
      invariant jobRepo.Valid() && builder.Valid()
      invariant jobRepo.jobs == CreateAll(store0, Selected(jobsData[..i], now))
      invariant builder.companyRepo.company == InsertAll(companies0, CompanyRows(Selected(jobsData[..i], now), analysisOf))
      invariant Matches(records, Selected(jobsData[..i], now))
      invariant Stored(builder.resumeRepo.db.resumes.rows, records)
    {
      ghost var sel := Selected(jobsData[..i], now);
      ghost var jobs0, companies1 := jobRepo.jobs, builder.companyRepo.company;
      var record := ProcessEntry(jobsData[i], now, jobRepo, builder, analysisOf, outputsOf, records);
      EntryStep(jobsData, i, now, store0, companies0, analysisOf, jobs0, companies1, jobRepo.jobs, builder.companyRepo.company);
      if record.Some? {
        MatchesAppend(records, sel, JobOf(jobsData[i], now), record.value.resumeId);
        StoredAppend(builder.resumeRepo.db.resumes.rows, records, JobOf(jobsData[i], now), record.value.resumeId);
        records := records + [record.value];
      }
    }
    assert jobsData[..|jobsData|] == jobsData;
  }

  /** One entry moves the job and company tables from the first `i` entries'
      state to the first `i + 1` entries'. */
  lemma EntryStep(ds: seq<JobDict>, i: nat, now: string, store0: map<string, Job>,
                  companies0: Table<CompanyStore.CompanyRow>, analysisOf: Job -> CompanyAnalysis,
                  jobs0: map<string, Job>, companies1: Table<CompanyStore.CompanyRow>,
                  jobs: map<string, Job>, companies: Table<CompanyStore.CompanyRow>)
    requires i < |ds|
    requires jobs0 == CreateAll(store0, Selected(ds[..i], now))
    requires companies1 == InsertAll(companies0, CompanyRows(Selected(ds[..i], now), analysisOf))
    requires !Accepted(ds[i]) ==> jobs == jobs0 && companies == companies1
    requires Accepted(ds[i]) ==>
      var job := JobOf(ds[i], now);
      && jobs == (if job.id in jobs0 then jobs0 else jobs0[job.id := job])
      && companies == Insert(companies1, CompanyRowOf(ResumeBuilder.Merged(CompanyFieldsOf(job), analysisOf(job))))
    ensures jobs == CreateAll(store0, Selected(ds[..i + 1], now))
    ensures companies == InsertAll(companies0, CompanyRows(Selected(ds[..i + 1], now), analysisOf))
    ensures Selected(ds[..i + 1], now) == Selected(ds[..i], now) + if Accepted(ds[i]) then [JobOf(ds[i], now)] else []
  {
    SelectedStep(ds, i, now);
    if Accepted(ds[i]) {
      TablesStep(store0, companies0, Selected(ds[..i], now), JobOf(ds[i], now), analysisOf, jobs, companies);
    } else {
      var sel := Selected(ds[..i], now);
      assert Selected(ds[..i + 1], now) == sel + [] == sel;
    }
  }

  /** The body of the loop for one entry: an entry without the four keys, or
      not at mid-senior level, is skipped; otherwise its job is stored and its
      company and resume made, and its record returned. */
  method ProcessEntry(d: JobDict, now: string, jobRepo: JobStore.JobRepository, builder: ResumeBuilder.AIResumeBuilder,
                      analysisOf: Job -> CompanyAnalysis, outputsOf: Job -> ResumeBuilder.Outputs,
                      ghost records: seq<ResumeRecord>)
    returns (record: Option<ResumeRecord>)
    requires jobRepo.Valid() && builder.Valid()
    requires Stored(builder.resumeRepo.db.resumes.rows, records)
    modifies jobRepo, builder.companyRepo, builder.resumeRepo
    ensures jobRepo.Valid() && builder.Valid()
    ensures Stored(builder.resumeRepo.db.resumes.rows, records)
    ensures record.Some? <==> Accepted(d)
    ensures !Accepted(d) ==> jobRepo.jobs == old(jobRepo.jobs) && builder.companyRepo.company == old(builder.companyRepo.company)
    ensures Accepted(d) ==>
      var job := JobOf(d, now);
      && jobRepo.jobs == (if job.id in old(jobRepo.jobs) then old(jobRepo.jobs) else old(jobRepo.jobs)[job.id := job])
      && builder.companyRepo.company
         == Insert(old(builder.companyRepo.company), CompanyRowOf(ResumeBuilder.Merged(CompanyFieldsOf(job), analysisOf(job))))
      && record.value == RecordOf(job, record.value.resumeId)
      && ResumeIdOf(builder.resumeRepo.db.resumes.rows, job.id) == Some(record.value.resumeId)
  {
    if !IsComplete(d) {
      return None;
    }
    if Seniority(d) != MidSenior {
      return None;
    }
    var job := JobOf(d, now);
    var added := jobRepo.Create(job);
    var resumeId := ProcessJob(job, jobRepo, builder, analysisOf(job), outputsOf(job), records);
    record := Some(RecordOf(job, resumeId));
  }

  /** The company and resume steps for one accepted job: the company is
      stored, so `create_resume` finds it and returns the job's resume. */
  method ProcessJob(job: Job, jobRepo: JobStore.JobRepository, builder: ResumeBuilder.AIResumeBuilder,
                    analysis: CompanyAnalysis, out: ResumeBuilder.Outputs, ghost records: seq<ResumeRecord>)
    returns (resumeId: int)
    requires builder.Valid()
    requires Stored(builder.resumeRepo.db.resumes.rows, records)
    modifies builder.companyRepo, builder.resumeRepo
    ensures builder.Valid()
    ensures builder.companyRepo.company
         == Insert(old(builder.companyRepo.company), CompanyRowOf(ResumeBuilder.Merged(CompanyFieldsOf(job), analysis)))
    ensures ResumeIdOf(builder.resumeRepo.db.resumes.rows, job.id) == Some(resumeId)
    ensures Stored(builder.resumeRepo.db.resumes.rows, records)
  {
    var companyId := StoreCompany(job, builder, analysis);
    ghost var db0 := builder.resumeRepo.db;
    var r := builder.CreateResume(companyId, job.id, jobRepo, out);
    ResumeStep(db0, builder.resumeRepo.db, r.value, builder.companyRepo.GetCompany(companyId).value.name,
               jobRepo.GetApplicationUrl(job.id), job.id, out, records);
    resumeId := r.value;
  }

  /** The company half of one job: a `Company` built from the job's fields,
      completed by the analysis and stored as a new row. */
  method StoreCompany(job: Job, builder: ResumeBuilder.AIResumeBuilder, analysis: CompanyAnalysis)
    returns (companyId: int)
    requires builder.Valid()
    modifies builder.companyRepo
    ensures builder.Valid()
    ensures builder.companyRepo.company
         == Insert(old(builder.companyRepo.company), CompanyRowOf(ResumeBuilder.Merged(CompanyFieldsOf(job), analysis)))
    ensures builder.companyRepo.GetCompany(companyId).Some?
  {
    var company := new Company(job.company, job.title, job.description, job.location, job.applicationUrl, job.seniorityLevel);
    ghost var table := builder.companyRepo.company;
    companyId := builder.AnalyzeJobDescriptionWithCompany(company, analysis);
    InsertFresh(table, CompanyRowOf(ResumeBuilder.Merged(CompanyFieldsOf(job), analysis)));
  }
}
