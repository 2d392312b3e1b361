/**
 * app/job_search_agent.py: running the generated search queries and keeping
 * the first job seen for each id (`execute_job_search`), storing the result
 * (`save_jobs_to_database`) and the JSON listing (`save_results_to_json`).
 * The query generator is an LLM call and is not modelled; its queries are an
 * input. So is the scraper: `results[i]` is what `search_jobs` returned for
 * the i-th query, `None` when it raised.
 */
module JobSearch {
  import opened Wrappers
  import opened Text
  import opened JobRecords
  import opened Sequences
  import opened Models
  import JobStore

  /** A JSON value that is either a string or a list of strings. */
  datatype TextOrList = Str(s: string) | Strs(items: seq<string>)

  /** A generated query; `None` is a key it lacks. */
  datatype Query = Query(
    explanation: Option<string>,
    keywords: Option<TextOrList>,
    location: Option<string>,
    jobType: Option<TextOrList>,
    experienceLevel: Option<TextOrList>,
    datePosted: Option<string>,
    remote: Option<bool>)

  /** The arguments `execute_job_search` passes to `search_jobs`. */
  datatype SearchParams = SearchParams(
    keywords: string,
    location: string,
    jobType: seq<string>,
    experienceLevel: seq<string>,
    datePosted: string,
    remote: bool,
    maxResults: int)

  /** `v if isinstance(v, list) else [v]` */
  function AsList(v: TextOrList): seq<string> {
    match v
    case Str(s) => [s]
    case Strs(items) => items
  }

  /** `' '.join(v) if isinstance(v, list) else v` */
  function KeywordText(v: TextOrList): string {
    match v
    case Str(s) => s
    case Strs(items) => Join(items, " ")
  }

  /** The cleaning step of one query: `None` when a key it reads is missing
      (the `KeyError` the loop's handler swallows). */
  function Normalise(q: Query): (r: Option<SearchParams>)
    ensures r.Some? <==> (&& q.keywords.Some? && q.location.Some? && q.jobType.Some?
                          && q.experienceLevel.Some? && q.datePosted.Some? && q.remote.Some?)
    ensures r.Some? ==> r.value.maxResults == 25 && r.value.remote == q.remote.value
                        && r.value.datePosted == q.datePosted.value
  {
    if q.keywords.None? || q.location.None? || q.jobType.None? || q.experienceLevel.None?
       || q.datePosted.None? || q.remote.None?
    then None
    else Some(SearchParams(KeywordText(q.keywords.value), Strip(q.location.value), AsList(q.jobType.value),
                           AsList(q.experienceLevel.value), q.datePosted.value, q.remote.value, 25))
  }

  /** The i-th query ran: it has every key the cleaning step reads, and the
      scraper returned a list for it. */
  predicate Runs(q: Query, r: Option<seq<JobDict>>) {
    && q.keywords.Some? && q.location.Some? && q.jobType.Some?
    && q.experienceLevel.Some? && q.datePosted.Some? && q.remote.Some? && r.Some?
  }

  /** A query written back from cleaned parameters. */
  function AsQuery(p: SearchParams, explanation: string): Query {
    Query(Some(explanation), Some(Str(p.keywords)), Some(p.location), Some(Strs(p.jobType)),
          Some(Strs(p.experienceLevel)), Some(p.datePosted), Some(p.remote))
  }

  /** Cleaning is idempotent: cleaned parameters pass through it unchanged. */
  lemma {:induction false} NormaliseIdempotent(q: Query, explanation: string)
    requires Normalise(q).Some?
    ensures Normalise(AsQuery(Normalise(q).value, explanation)) == Normalise(q)
  {
    StripIdempotent(q.location.value);
  }

  /** A keyword list whose words have no space is recovered by splitting the
      joined keywords on spaces; a single string is passed on unchanged. */
  lemma KeywordsRecoverable(q: Query)
    requires Normalise(q).Some?
    requires q.keywords.value.Strs? && |q.keywords.value.items| >= 1
    requires forall i :: 0 <= i < |q.keywords.value.items| ==> ' ' !in q.keywords.value.items[i]
    ensures Split(Normalise(q).value.keywords, ' ') == q.keywords.value.items
  {
    SplitJoin(q.keywords.value.items, ' ');
  }

  /** The key the de-duplication reads: `id` as written, or the scraper's `job_id`. */
  datatype IdField = ById | ByJobId

  function KeyOf(j: JobDict, f: IdField): Option<string> {
    if f == ById then j.id else j.jobId
  }

  /** `all_jobs` and `seen_job_ids` */
  datatype Collected = Collected(jobs: seq<JobDict>, seen: set<string>)

  predicate HasKey(j: JobDict, f: IdField) {
    KeyOf(j, f).Some?
  }

  /** The keys of the jobs that have one. */
  function KeySet(jobs: seq<JobDict>, f: IdField): set<string> {
    if jobs == [] then {}
    else
      var n := |jobs| - 1;
      KeySet(jobs[..n], f) + if HasKey(jobs[n], f) then {KeyOf(jobs[n], f).value} else {}
  }

  /** A key of the set belongs to the job at the returned position. */
  lemma {:induction false} KeySetMember(jobs: seq<JobDict>, f: IdField, k: string) returns (i: nat)
    requires k in KeySet(jobs, f)
    ensures i < |jobs| && KeyOf(jobs[i], f) == Some(k)
    decreases |jobs|
  {
    var n := |jobs| - 1;
    if HasKey(jobs[n], f) && KeyOf(jobs[n], f).value == k {
      i := n;
    } else {
      i := KeySetMember(jobs[..n], f, k);
      assert jobs[..n][i] == jobs[i];
    }
  }

  /** The collected jobs all have the key, pairwise different, and `seen` is
      exactly the set of their keys. */
  predicate WellFormed(c: Collected, f: IdField) {
    && (forall i :: 0 <= i < |c.jobs| ==> HasKey(c.jobs[i], f))
    && (forall i, j :: 0 <= i < j < |c.jobs| ==> KeyOf(c.jobs[i], f) != KeyOf(c.jobs[j], f))
    && c.seen == KeySet(c.jobs, f)
  }

  /** The de-duplication loop over one query's jobs, from state `c`. The
      boolean is false when a job without the key raised `KeyError`, which
      ends that query's loop with the jobs appended so far kept. */
  function Dedup(c: Collected, jobs: seq<JobDict>, f: IdField): (r: (Collected, bool))
    ensures |c.jobs| <= |r.0.jobs| <= |c.jobs| + |jobs|
    decreases |jobs|
  {
    if jobs == [] then (c, true)
    else
      var n := |jobs| - 1;
      var prev := Dedup(c, jobs[..n], f);
      var j := jobs[n];
      if !prev.1 || KeyOf(j, f).None? then (prev.0, false)
      else if KeyOf(j, f).value in prev.0.seen then (prev.0, true)
      else (Collected(prev.0.jobs + [j], prev.0.seen + {KeyOf(j, f).value}), true)
  }

  /** De-duplication keeps the collected jobs' keys distinct and `seen` exact. */
  lemma {:induction false} DedupWellFormed(c: Collected, jobs: seq<JobDict>, f: IdField)
    requires WellFormed(c, f)
    ensures WellFormed(Dedup(c, jobs, f).0, f)
    decreases |jobs|
  {
    if jobs != [] {
      var n := |jobs| - 1;
      DedupWellFormed(c, jobs[..n], f);
      var prev := Dedup(c, jobs[..n], f).0;
      var j := jobs[n];
      if Dedup(c, jobs[..n], f).1 && KeyOf(j, f).Some? && KeyOf(j, f).value !in prev.seen {
        AppendWellFormed(prev, j, f);
      }
    }
  }

  /** Appending a job whose key is new keeps the collection well formed. */
  lemma AppendWellFormed(prev: Collected, j: JobDict, f: IdField)
    requires WellFormed(prev, f)
    requires HasKey(j, f) && KeyOf(j, f).value !in prev.seen
    ensures WellFormed(Collected(prev.jobs + [j], prev.seen + {KeyOf(j, f).value}), f)
  {
    var jobs := prev.jobs + [j];
    assert jobs[..|prev.jobs|] == prev.jobs;
    forall i | 0 <= i < |prev.jobs| ensures KeyOf(prev.jobs[i], f) != KeyOf(j, f) {
      KeySetHas(prev.jobs, f, i);
    }
  }

  /** The key of each job is in the key set. */
  lemma {:induction false} KeySetHas(jobs: seq<JobDict>, f: IdField, i: nat)
    requires i < |jobs| && HasKey(jobs[i], f)
    ensures KeyOf(jobs[i], f).value in KeySet(jobs, f)
    decreases |jobs|
  {
    var n := |jobs| - 1;
    if i < n {
      KeySetHas(jobs[..n], f, i);
      assert jobs[..n][i] == jobs[i];
    }
  }

  /** De-duplication only appends, and only grows `seen`. */
  lemma {:induction false} DedupExtends(c: Collected, jobs: seq<JobDict>, f: IdField)
    ensures Dedup(c, jobs, f).0.jobs[..|c.jobs|] == c.jobs
    ensures c.seen <= Dedup(c, jobs, f).0.seen
    decreases |jobs|
  {
    if jobs != [] {
      DedupExtends(c, jobs[..|jobs| - 1], f);
    }
  }

  /** The loop runs to the end iff every job has the key, and then every
      job's key has been seen. */
  lemma {:induction false} DedupRuns(c: Collected, jobs: seq<JobDict>, f: IdField)
    ensures Dedup(c, jobs, f).1 <==> forall i :: 0 <= i < |jobs| ==> HasKey(jobs[i], f)
    ensures Dedup(c, jobs, f).1 ==> forall i :: 0 <= i < |jobs| ==> KeyOf(jobs[i], f).value in Dedup(c, jobs, f).0.seen
    decreases |jobs|
  {
    if jobs != [] {
      var n := |jobs| - 1;
      DedupRuns(c, jobs[..n], f);
      assert forall i :: 0 <= i < n ==> jobs[..n][i] == jobs[i];
    }
  }

  /** Every job de-duplication adds is one of `jobs`, with a key not seen
      before, and the first of `jobs` with that key: the returned position. */
  lemma {:induction false} DedupOrigin(c: Collected, jobs: seq<JobDict>, f: IdField, i: int) returns (p: nat)
    requires |c.jobs| <= i < |Dedup(c, jobs, f).0.jobs|
    ensures p < |jobs| && Dedup(c, jobs, f).0.jobs[i] == jobs[p] && FirstWithKey(jobs, p, f, c.seen)
    ensures |Dedup(c, jobs[..p], f).0.jobs| == i
    decreases |jobs|
  {
    var n := |jobs| - 1;
    var prev := Dedup(c, jobs[..n], f);
    var r := Dedup(c, jobs, f).0;
    DedupExtends(c, jobs[..n], f);
    if i < |prev.0.jobs| {
      assert r.jobs[i] == prev.0.jobs[i];
      p := DedupOrigin(c, jobs[..n], f, i);
      assert forall q :: 0 <= q <= p ==> jobs[..n][q] == jobs[q];
      assert jobs[..n][..p] == jobs[..p];
    } else {
      DedupRuns(c, jobs[..n], f);
      assert r.jobs == prev.0.jobs + [jobs[n]] && prev.1;
      assert forall q :: 0 <= q < n ==> jobs[..n][q] == jobs[q];
      p := n;
    }
  }

  /** The longer the part of a query's results the loop has been through, the
      more jobs it has collected. */
  lemma {:induction false} DedupPrefixGrows(c: Collected, jobs: seq<JobDict>, f: IdField, a: nat, b: nat)
    requires a <= b <= |jobs|
    ensures |Dedup(c, jobs[..a], f).0.jobs| <= |Dedup(c, jobs[..b], f).0.jobs|
    decreases b - a
  {
    if a < b {
      DedupPrefixGrows(c, jobs, f, a, b - 1);
      assert jobs[..b][..b - 1] == jobs[..b - 1];
    }
  }

  /** `jobs[p]` has a key that is neither in `seen` nor the key of an earlier job. */
  predicate FirstWithKey(jobs: seq<JobDict>, p: nat, f: IdField, seen: set<string>)
    requires p < |jobs|
  {
    && HasKey(jobs[p], f) && KeyOf(jobs[p], f).value !in seen
    && forall q :: 0 <= q < p ==> KeyOf(jobs[q], f) != KeyOf(jobs[p], f)
  }

  /** `execute_job_search` over the first queries: `Err` when a query lacks
      `explanation`, which is read outside the handler. */
  function Search(queries: seq<Query>, results: seq<Option<seq<JobDict>>>, f: IdField): (r: Result<Collected>)
    requires |results| == |queries|
    ensures r.Err? ==> r.error == MissingKey("explanation")
    decreases |queries|
  {
    if queries == [] then Ok(Collected([], {}))
    else
      var n := |queries| - 1;
      var prev := Search(queries[..n], results[..n], f);
      if prev.Err? then prev
      else if queries[n].explanation.None? then Err(MissingKey("explanation"))
      else if !Runs(queries[n], results[n]) then prev
      else Ok(Dedup(prev.value, results[n].value, f).0)
  }

  /** A search fails exactly when some query lacks `explanation`. */
  lemma {:induction false} SearchOk(queries: seq<Query>, results: seq<Option<seq<JobDict>>>, f: IdField)
    requires |results| == |queries|
    ensures Search(queries, results, f).Ok? <==> forall i :: 0 <= i < |queries| ==> queries[i].explanation.Some?
    decreases |queries|
  {
    if queries != [] {
      var n := |queries| - 1;
      SearchOk(queries[..n], results[..n], f);
      assert forall i :: 0 <= i < n ==> queries[..n][i] == queries[i];
    }
  }

  /** The result of a search has pairwise distinct keys. */
  lemma {:induction false} SearchWellFormed(queries: seq<Query>, results: seq<Option<seq<JobDict>>>, f: IdField)
    requires |results| == |queries| && Search(queries, results, f).Ok?
    ensures WellFormed(Search(queries, results, f).value, f)
    decreases |queries|
  {
    if queries == [] {
      assert Search(queries, results, f).value == Collected([], {});
    } else {
      var n := |queries| - 1;
      var prev := Search(queries[..n], results[..n], f);
      assert prev.Ok?;
      SearchWellFormed(queries[..n], results[..n], f);
      if Runs(queries[n], results[n]) {
        DedupWellFormed(prev.value, results[n].value, f);
        assert Search(queries, results, f).value == Dedup(prev.value, results[n].value, f).0;
      } else {
        assert Search(queries, results, f) == prev;
      }
    }
  }

  /** Every job a search keeps comes from a query i that ran, at position p
      of its results: it is the first job of those results whose id no
      earlier query had kept, and query i appended it, as the x-th job, after
      the loop had been through the p jobs before it. */
  lemma {:induction false} SearchOrigin(queries: seq<Query>, results: seq<Option<seq<JobDict>>>, f: IdField, x: int)
    returns (i: nat, p: nat)
    requires |results| == |queries| && Search(queries, results, f).Ok?
    requires 0 <= x < |Search(queries, results, f).value.jobs|
    ensures i < |queries| && Runs(queries[i], results[i])
    ensures p < |results[i].value| && Search(queries, results, f).value.jobs[x] == results[i].value[p]
    ensures Search(queries[..i], results[..i], f).Ok?
    ensures FirstWithKey(results[i].value, p, f, Search(queries[..i], results[..i], f).value.seen)
    ensures |Search(queries[..i], results[..i], f).value.jobs| <= x
    ensures |Dedup(Search(queries[..i], results[..i], f).value, results[i].value[..p], f).0.jobs| == x
    ensures Search(queries[..i + 1], results[..i + 1], f).Ok?
    ensures x < |Search(queries[..i + 1], results[..i + 1], f).value.jobs|
    decreases |queries|
  {
    var n := |queries| - 1;
    var prev := Search(queries[..n], results[..n], f).value;
    var next := Search(queries, results, f).value;
    assert queries[..n + 1] == queries && results[..n + 1] == results;
    if Runs(queries[n], results[n]) && |prev.jobs| <= x {
      p := DedupOrigin(prev, results[n].value, f, x);
      i := n;
    } else {
      if Runs(queries[n], results[n]) {
        DedupExtends(prev, results[n].value, f);
        assert next.jobs[x] == prev.jobs[x];
      }
      i, p := SearchOrigin(queries[..n], results[..n], f, x);
      assert queries[..n][i] == queries[i] && results[..n][i] == results[i];
      assert queries[..n][..i] == queries[..i] && results[..n][..i] == results[..i];
      assert queries[..n][..i + 1] == queries[..i + 1] && results[..n][..i + 1] == results[..i + 1];
    }
  }

  /** The kept jobs are in query order, and within one query in result
      order: of two kept jobs, the earlier one comes from an earlier query, or
      from an earlier position of the same query's results. */
  lemma SearchOrder(queries: seq<Query>, results: seq<Option<seq<JobDict>>>, f: IdField, x: int, y: int)
    returns (i1: nat, p1: nat, i2: nat, p2: nat)
    requires |results| == |queries| && Search(queries, results, f).Ok?
    requires 0 <= x < y < |Search(queries, results, f).value.jobs|
    ensures i1 < |queries| && Runs(queries[i1], results[i1]) && p1 < |results[i1].value|
    ensures Search(queries, results, f).value.jobs[x] == results[i1].value[p1]
    ensures i2 < |queries| && Runs(queries[i2], results[i2]) && p2 < |results[i2].value|
    ensures Search(queries, results, f).value.jobs[y] == results[i2].value[p2]
    ensures i1 < i2 || (i1 == i2 && p1 < p2)
  {
    i1, p1 := SearchOrigin(queries, results, f, x);
    i2, p2 := SearchOrigin(queries, results, f, y);
    if i2 < i1 {
      assert queries[..i1][..i2 + 1] == queries[..i2 + 1] && results[..i1][..i2 + 1] == results[..i2 + 1];
      SearchGrows(queries[..i1], results[..i1], f, i2 + 1);
      assert false;
    }
    if i1 == i2 && p2 <= p1 {
      DedupPrefixGrows(Search(queries[..i1], results[..i1], f).value, results[i1].value, f, p2, p1);
      assert false;
    }
  }

  /** One more query: the step `Search` takes, for a prefix of the queries. */
  lemma SearchStep(queries: seq<Query>, results: seq<Option<seq<JobDict>>>, f: IdField, n: nat)
    requires |results| == |queries| && n < |queries|
    ensures Search(queries[..n + 1], results[..n + 1], f)
         == var prev := Search(queries[..n], results[..n], f);
            if prev.Err? then prev
            else if queries[n].explanation.None? then Err(MissingKey("explanation"))
            else if !Runs(queries[n], results[n]) then prev
            else Ok(Dedup(prev.value, results[n].value, f).0)
  {
    var qs, rs := queries[..n + 1], results[..n + 1];
    assert qs[..n] == queries[..n] && rs[..n] == results[..n];
    assert qs[n] == queries[n] && rs[n] == results[n];
  }

  /** Later queries only add to what earlier ones saw. */
  lemma {:induction false} SearchGrows(queries: seq<Query>, results: seq<Option<seq<JobDict>>>, f: IdField, m: nat)
    requires |results| == |queries| && m <= |queries|
    requires Search(queries, results, f).Ok?
    ensures Search(queries[..m], results[..m], f).Ok?
    ensures Search(queries[..m], results[..m], f).value.seen <= Search(queries, results, f).value.seen
    ensures Search(queries[..m], results[..m], f).value.jobs <= Search(queries, results, f).value.jobs
    decreases |queries|
  {
    if m == |queries| {
      assert queries[..m] == queries && results[..m] == results;
    } else {
      var n := |queries| - 1;
      var qs, rs := queries[..n], results[..n];
      assert qs[..m] == queries[..m] && rs[..m] == results[..m];
      assert forall i :: 0 <= i < n ==> qs[i] == queries[i];
      SearchGrows(qs, rs, f, m);
      var prev := Search(qs, rs, f);
      if Runs(queries[n], results[n]) {
        DedupExtends(prev.value, results[n].value, f);
      }
    }
  }

  /** Every job a query finds whose key had not been seen lands in the result:
      a query that runs and whose jobs all carry the key contributes all of
      its keys. */
  lemma {:induction false} SearchComplete(queries: seq<Query>, results: seq<Option<seq<JobDict>>>, f: IdField, i: nat)
    requires |results| == |queries| && i < |queries|
    requires Search(queries, results, f).Ok?
    requires Runs(queries[i], results[i])
    requires forall x :: 0 <= x < |results[i].value| ==> HasKey(results[i].value[x], f)
    ensures forall x :: 0 <= x < |results[i].value| ==>
              exists o :: o in Search(queries, results, f).value.jobs && KeyOf(o, f) == KeyOf(results[i].value[x], f)
  {
    SearchGrows(queries, results, f, i + 1);
    SearchStep(queries, results, f, i);
    var before := Search(queries[..i], results[..i], f).value;
    DedupRuns(before, results[i].value, f);
    SearchWellFormed(queries, results, f);
    var final := Search(queries, results, f).value;
    forall x | 0 <= x < |results[i].value|
      ensures exists o :: o in final.jobs && KeyOf(o, f) == KeyOf(results[i].value[x], f)
    {
      var k := KeyOf(results[i].value[x], f).value;
      assert k in final.seen;
      var y := KeySetMember(final.jobs, f, k);
      assert final.jobs[y] in final.jobs;
    }
  }

  /** The de-duplication loop of one query, in place on `c`. */
  method DedupLoop(c: Collected, jobs: seq<JobDict>, f: IdField) returns (allJobs: seq<JobDict>, seen: set<string>)
    ensures Collected(allJobs, seen) == Dedup(c, jobs, f).0
  {
    allJobs, seen := c.jobs, c.seen;
    var i := 0;
    while i < |jobs|
      invariant 0 <= i <= |jobs|
      invariant Dedup(c, jobs[..i], f).1
      invariant Collected(allJobs, seen) == Dedup(c, jobs[..i], f).0
      invariant forall k :: 0 <= k <= i ==> jobs[..i][..k] == jobs[..k]
    {
      assert jobs[..i + 1][..i] == jobs[..i];
      var key := KeyOf(jobs[i], f);
      if key.None? {
        // `job['id']` raised: the rest of this query's jobs are not looked at.
        DedupStopped(c, jobs, f, i + 1);
        return;
      }
      if key.value !in seen {
        seen := seen + {key.value};
        allJobs := allJobs + [jobs[i]];
      }
      i := i + 1;
    }
    assert jobs[..|jobs|] == jobs;
  }

  /** Once the loop has stopped, later jobs do not change the outcome. */
  lemma {:induction false} DedupStopped(c: Collected, jobs: seq<JobDict>, f: IdField, m: nat)
    requires 1 <= m <= |jobs|
    requires !Dedup(c, jobs[..m], f).1
    ensures Dedup(c, jobs, f).0 == Dedup(c, jobs[..m], f).0
    decreases |jobs| - m
  {
    if m == |jobs| {
      assert jobs[..m] == jobs;
    } else {
      var js' := jobs[..m + 1];
      assert js'[..m] == jobs[..m];
      assert js'[..|js'| - 1] == jobs[..m];
      DedupStopped(c, jobs, f, m + 1);
    }
  }

  /** `execute_job_search`, de-duplicating on the key `f`. */
  method ExecuteJobSearch(queries: seq<Query>, results: seq<Option<seq<JobDict>>>, f: IdField)
    returns (r: Result<seq<JobDict>>)
    requires |results| == |queries|
    ensures Search(queries, results, f).Ok? ==> r == Ok(Search(queries, results, f).value.jobs)
    ensures Search(queries, results, f).Err? ==> r == Err(Search(queries, results, f).error)
  {
    var allJobs: seq<JobDict> := [];
    var seen: set<string> := {};
    for n := 0 to |queries|
      invariant Search(queries[..n], results[..n], f) == Ok(Collected(allJobs, seen))
    {
      SearchStep(queries, results, f, n);
      if queries[n].explanation.None? {
        // `query['explanation']` is read before the `try`.
        SearchFailed(queries, results, f, n + 1);
        return Err(MissingKey("explanation"));
      }
      var params := Normalise(queries[n]);
      if params.Some? && results[n].Some? {
        allJobs, seen := DedupLoop(Collected(allJobs, seen), results[n].value, f);
      }
    }
    assert queries[..|queries|] == queries && results[..|results|] == results;
    r := Ok(allJobs);
  }

  lemma {:induction false} SearchFailed(queries: seq<Query>, results: seq<Option<seq<JobDict>>>, f: IdField, m: nat)
    requires |results| == |queries| && 1 <= m <= |queries|
    requires Search(queries[..m], results[..m], f).Err?
    ensures Search(queries, results, f) == Search(queries[..m], results[..m], f)
    decreases |queries| - m
  {
    if m == |queries| {
      assert queries[..m] == queries && results[..m] == results;
    } else {
      SearchStep(queries, results, f, m);
      SearchFailed(queries, results, f, m + 1);
    }
  }

  /** A record as the LinkedIn scraper returns it: it has `job_id` and no `id`. */
  predicate ScraperRecord(j: JobDict) {
    j.id.None? && j.jobId.Some?
  }

  /** As written: de-duplicating on `id`, no scraper record is ever kept,
      because the first job of every query raises `KeyError`. */
  lemma {:induction false} ScraperRecordsNeverCollected(queries: seq<Query>, results: seq<Option<seq<JobDict>>>)
    requires |results| == |queries|
    requires forall i :: 0 <= i < |results| && results[i].Some? ==>
               forall x :: 0 <= x < |results[i].value| ==> ScraperRecord(results[i].value[x])
    requires Search(queries, results, ById).Ok?
    ensures Search(queries, results, ById).value.jobs == []
  {
    if Search(queries, results, ById).value.jobs != [] {
      // The first kept job has an `id`, yet it is one of the scraper's records.
      var i, p := SearchOrigin(queries, results, ById, 0);
      assert false;
    }
  }

  /** Corrected: de-duplicating on `job_id`, every scraper record of every
      query that runs is represented in the result. */
  lemma ScraperRecordsCollected(queries: seq<Query>, results: seq<Option<seq<JobDict>>>, i: nat)
    requires |results| == |queries| && i < |queries|
    requires Search(queries, results, ByJobId).Ok?
    requires Runs(queries[i], results[i])
    requires forall x :: 0 <= x < |results[i].value| ==> ScraperRecord(results[i].value[x])
    ensures forall x :: 0 <= x < |results[i].value| ==>
              exists o :: o in Search(queries, results, ByJobId).value.jobs && o.jobId == results[i].value[x].jobId
  {
    SearchComplete(queries, results, ByJobId, i);
  }

  /** The `Job` that `save_jobs_to_database` builds from a dict: the `KeyError`
      of the first required key missing, else the job with `applied` false and
      the clock's reading as its date. */
  function JobOfDict(d: JobDict, now: string): (r: Result<Job>)
    ensures r.Ok? <==> (&& d.id.Some? && d.title.Some? && d.company.Some? && d.location.Some?
                        && d.description.Some? && d.seniorityLevel.Some? && d.applicationUrl.Some?)
    ensures r.Ok? ==> !r.value.applied && Some(r.value.id) == d.id && r.value.scrapedDate == now
    ensures r.Err? ==> r.error.MissingKey?
  {
    if d.id.None? then Err(MissingKey("id"))
    else if d.title.None? then Err(MissingKey("title"))
    else if d.company.None? then Err(MissingKey("company"))
    else if d.location.None? then Err(MissingKey("location"))
    else if d.description.None? then Err(MissingKey("description"))
    else if d.seniorityLevel.None? then Err(MissingKey("seniority_level"))
    else if d.applicationUrl.None? then Err(MissingKey("application_url"))
    else Ok(Job(d.id.value, d.title.value, d.company.value, d.location.value, d.description.value,
                d.seniorityLevel.value, d.applicationUrl.value, false, now))
  }

  /** The jobs table and `saved_count` after saving some dicts, and the error
      that ended the loop, if any. */
  datatype Saved = Saved(store: map<string, Job>, count: nat, failure: Option<Error>)

  /** Saving in order; `count` is exactly how many new ids were stored, each
      with `applied` false, and what was stored before is kept. */
  function SaveAll(store: map<string, Job>, ds: seq<JobDict>, now: string): (r: Saved)
    requires forall k :: k in store ==> store[k].id == k
    ensures forall k :: k in r.store ==> r.store[k].id == k
    ensures forall k :: k in store ==> k in r.store && r.store[k] == store[k]
    ensures forall k :: k in r.store && k !in store ==> !r.store[k].applied
    ensures r.count == |r.store.Keys| - |store.Keys| && r.count <= |ds|
    decreases |ds|
  {
    if ds == [] then Saved(store, 0, None)
    else
      var n := |ds| - 1;
      var prev := SaveAll(store, ds[..n], now);
      if prev.failure.Some? then prev else SaveOne(prev, ds[n], now)
  }

  /** One dict of the loop: a missing key ends it, a known id is skipped and a
      new job is stored with `applied` false. */
  function SaveOne(prev: Saved, d: JobDict, now: string): (r: Saved)
    requires prev.failure.None? && forall k :: k in prev.store ==> prev.store[k].id == k
    ensures r.failure.Some? <==> JobOfDict(d, now).Err?
    ensures forall k :: k in r.store ==> r.store[k].id == k
    ensures forall k :: k in prev.store ==> k in r.store && r.store[k] == prev.store[k]
    ensures forall k :: k in r.store && k !in prev.store ==> !r.store[k].applied
    ensures r.count == prev.count + |r.store.Keys| - |prev.store.Keys| <= prev.count + 1
  {
    match JobOfDict(d, now)
    case Err(e) => prev.(failure := Some(e))
    case Ok(job) =>
      if job.id in prev.store then prev
      else
        var next := prev.store[job.id := job];
        assert next.Keys == prev.store.Keys + {job.id} && job.id !in prev.store.Keys;
        Saved(next, prev.count + 1, None)
  }

  /** `save_jobs_to_database`: `Err` is the `KeyError` that ends it, with the
      jobs before the offending dict already stored. */
  method SaveJobsToDatabase(jobs: seq<JobDict>, repo: JobStore.JobRepository, now: string) returns (r: Result<nat>)
    requires repo.Valid()
    modifies repo
    ensures repo.Valid()
    ensures repo.jobs == SaveAll(old(repo.jobs), jobs, now).store
    ensures SaveAll(old(repo.jobs), jobs, now).failure.None? ==> r == Ok(SaveAll(old(repo.jobs), jobs, now).count)
    ensures SaveAll(old(repo.jobs), jobs, now).failure.Some? ==> r == Err(SaveAll(old(repo.jobs), jobs, now).failure.value)
  {
    var savedCount := 0;
    for n := 0 to |jobs|
      invariant repo.Valid()
      invariant SaveAll(old(repo.jobs), jobs[..n], now) == Saved(repo.jobs, savedCount, None)
    {
      var ds := jobs[..n + 1];
      assert ds[..n] == jobs[..n];
      var job := JobOfDict(jobs[n], now);
      if job.Err? {
        SaveStopped(old(repo.jobs), jobs, now, n + 1);
        return Err(job.error);
      }
      var created := repo.Create(job.value);
      if created {
        savedCount := savedCount + 1;
      }
    }
    assert jobs[..|jobs|] == jobs;
    r := Ok(savedCount);
  }

  lemma {:induction false} SaveStopped(store: map<string, Job>, ds: seq<JobDict>, now: string, m: nat)
    requires forall k :: k in store ==> store[k].id == k
    requires 1 <= m <= |ds| && SaveAll(store, ds[..m], now).failure.Some?
    ensures SaveAll(store, ds, now) == SaveAll(store, ds[..m], now)
    decreases |ds| - m
  {
    if m == |ds| {
      assert ds[..m] == ds;
    } else {
      var ds' := ds[..m + 1];
      assert ds'[..m] == ds[..m];
      SaveStopped(store, ds, now, m + 1);
    }
  }

  /** One entry of the JSON listing: each field read with its default, the id
      defaulting to the job's position. */
  function JsonEntry(i: nat, j: JobDict): JobDict {
    JobDict(Some(j.id.GetOr(NatToString(i))), None, Some(j.title.GetOr("")), Some(j.company.GetOr("")),
            Some(j.location.GetOr("")), Some(j.description.GetOr("")), Some(j.seniorityLevel.GetOr("")),
            Some(j.applicationUrl.GetOr("")), None, Some(j.applied.GetOr(false)))
  }

  /** `save_results_to_json`: nothing for no jobs; otherwise the entries of the
      jobs with a description, in order. */
  function SaveResultsToJson(jobs: seq<JobDict>): (r: Option<seq<JobDict>>)
    ensures r.None? <==> jobs == []
    ensures r.Some? ==> |r.value| <= |jobs|
    ensures r.Some? ==> forall k :: 0 <= k < |r.value| ==>
              Truthy(r.value[k].description) && r.value[k].id.Some? && r.value[k].applied.Some?
    ensures r.Some? ==> forall i :: 0 <= i < |jobs| && Truthy(jobs[i].description) ==> JsonEntry(i, jobs[i]) in r.value
  {
    if jobs == [] then None
    else
      var entries := DescribedEntries(jobs, JsonEntry);
      var ix := DescribedIndices(jobs);
      assert forall i :: 0 <= i < |jobs| && Truthy(jobs[i].description) ==> JsonEntry(i, jobs[i]) in entries by {
        forall i | 0 <= i < |jobs| && Truthy(jobs[i].description) ensures JsonEntry(i, jobs[i]) in entries {
          var k :| 0 <= k < |ix| && ix[k] == i;
          assert entries[k] == JsonEntry(i, jobs[i]);
        }
      }
      Some(entries)
  }
}
