/**
 * linkedin_job_description_scrapper.py: `LinkedInJobScraper`. The HTTP
 * requests and the HTML parsing are not modelled. What a listing page holds
 * is an input (`pages[k]` is the answer to the k-th listing request; past the
 * end of `pages` the listing is empty), and so is what a job's detail page
 * yields (`details(id)`, `None` when the request or the parsing failed).
 */
module LinkedIn {
  import opened Wrappers
  import opened Text
  import opened JobRecords
  import opened Sequences

  /** The experience filter code of one level: the first keyword the
      lower-cased level contains. */
  function ExperienceCode(level: string): (r: Option<string>)
    ensures r.Some? ==> r.value in {"2", "3", "4", "5"}
    ensures r.None? <==> !Contains(Lower(level), "entry") && !Contains(Lower(level), "associate")
                         && !Contains(Lower(level), "mid-senior") && !Contains(Lower(level), "director")
  {
    var l := Lower(level);
    if Contains(l, "entry") then Some("2")
    else if Contains(l, "associate") then Some("3")
    else if Contains(l, "mid-senior") then Some("4")
    else if Contains(l, "director") then Some("5")
    else None
  }

  /** The job-type filter code of one type: the first keyword the
      lower-cased type contains. */
  function JobTypeCode(jobType: string): (r: Option<string>)
    ensures r.Some? ==> r.value in {"F", "P", "C", "T", "I"}
    ensures r.None? <==> !Contains(Lower(jobType), "full-time") && !Contains(Lower(jobType), "part-time")
                         && !Contains(Lower(jobType), "contract") && !Contains(Lower(jobType), "temporary")
                         && !Contains(Lower(jobType), "internship")
  {
    var l := Lower(jobType);
    if Contains(l, "full-time") then Some("F")
    else if Contains(l, "part-time") then Some("P")
    else if Contains(l, "contract") then Some("C")
    else if Contains(l, "temporary") then Some("T")
    else if Contains(l, "internship") then Some("I")
    else None
  }

  /** The `f_TPR` value for `date_posted`: none for a missing or empty one. */
  function DateFilter(datePosted: Option<string>): (r: Option<string>)
    ensures r.Some? ==> r.value in {"r86400", "r604800", "r2592000"}
    ensures datePosted.None? || datePosted.value == "" ==> r.None?
  {
    if datePosted.None? || datePosted.value == "" then None
    else
      var l := Lower(datePosted.value);
      if Contains(l, "24 hours") then Some("r86400")
      else if Contains(l, "week") then Some("r604800")
      else if Contains(l, "month") then Some("r2592000")
      else None
  }

  /** The query parameters of the listing request. `keywords` and `location`
      are kept as given (their URL encoding is not modelled). */
  datatype Params = Params(
    keywords: string,
    location: string,
    start: int,
    experience: Option<string>,   // f_E
    jobTypes: Option<string>,     // f_JT
    postedWithin: Option<string>, // f_TPR
    workplace: Option<string>)    // f_WT

  /** `",".join(codes)` when there is at least one code; no parameter otherwise. */
  function Filter(codes: seq<string>): Option<string> {
    if codes == [] then None else Some(Join(codes, ","))
  }

  /** The filter codes are recovered from the parameter by splitting it on commas. */
  lemma FilterRecoverable(values: seq<string>, code: string -> Option<string>)
    requires forall v :: code(v).Some? ==> ',' !in code(v).value
    ensures Filter(FilterMap(values, code)).None? <==> FilterMap(values, code) == []
    ensures Filter(FilterMap(values, code)).Some? ==> Split(Filter(FilterMap(values, code)).value, ',') == FilterMap(values, code)
  {
    var cs := FilterMap(values, code);
    if cs != [] {
      forall k | 0 <= k < |cs| ensures ',' !in cs[k] {
        var i := FilterMapSound(values, code, k);
      }
      SplitJoin(cs, ',');
    }
  }

  lemma CodesHaveNoComma()
    ensures forall v :: ExperienceCode(v).Some? ==> ',' !in ExperienceCode(v).value
    ensures forall v :: JobTypeCode(v).Some? ==> ',' !in JobTypeCode(v).value
  {
  }

  /** The code list built by the experience or job-type loop. */
  method CodeLoop(values: seq<string>, code: string -> Option<string>) returns (codes: seq<string>)
    ensures codes == FilterMap(values, code)
  {
    codes := [];
    for i := 0 to |values|
      invariant codes == FilterMap(values[..i], code)
    {
      assert values[..i + 1][..i] == values[..i];
      var c := code(values[i]);
      if c.Some? {
        codes := codes + [c.value];
      }
    }
    assert values[..|values|] == values;
  }

  /** Building `params` for `search_jobs`. */
  method BuildParams(keywords: string, location: string, jobType: seq<string>, experienceLevel: seq<string>,
                     datePosted: Option<string>, remote: bool) returns (p: Params)
    ensures p.keywords == keywords && p.location == location && p.start == 0
    ensures p.experience == Filter(FilterMap(experienceLevel, ExperienceCode))
    ensures p.jobTypes == Filter(FilterMap(jobType, JobTypeCode))
    ensures p.postedWithin == DateFilter(datePosted)
    ensures p.workplace == if remote then Some("2") else None
  {
    p := Params(keywords, location, 0, None, None, None, None);
    if |experienceLevel| > 0 {
      var levels := CodeLoop(experienceLevel, ExperienceCode);
      if |levels| > 0 {
        p := p.(experience := Some(Join(levels, ",")));
      }
    }
    if |jobType| > 0 {
      var types := CodeLoop(jobType, JobTypeCode);
      if |types| > 0 {
        p := p.(jobTypes := Some(Join(types, ",")));
      }
    }
    p := p.(postedWithin := DateFilter(datePosted));
    if remote {
      p := p.(workplace := Some("2"));
    }
  }

  /** The answer to one listing request: the `data-entity-urn` of each card
      (`None` for a card without one), or a failed request. */
  datatype Page = Cards(urns: seq<Option<string>>) | RequestFailed

  /** A page that ends the collection: a failed request or no cards. */
  predicate Stops(p: Page) {
    p.RequestFailed? || p.urns == []
  }

  function PageAt(pages: seq<Page>, k: nat): Page {
    if k < |pages| then pages[k] else Cards([])
  }

  /** A job id: the last `:`-separated piece of its card's URN. */
  function CardId(urn: string): (id: string)
    ensures ':' !in id
  {
    var pieces := Split(urn, ':');
    SplitPiecesFree(urn, ':');
    pieces[|pieces| - 1]
  }

  /** The id is what follows the URN's last colon. */
  lemma CardIdOfUrn(prefix: string, id: string)
    requires ':' !in id
    ensures CardId(prefix + ":" + id) == id
  {
    SplitConcat(prefix, id, ':');
    SplitNoSeparator(id, ':');
    assert prefix + ":" + id == prefix + [':'] + id;
  }

  /** The ids of a page's cards, cards without a URN skipped. */
  function CardIds(urns: seq<Option<string>>): (ids: seq<string>)
    ensures |ids| <= |urns|
    decreases |urns|
  {
    if urns == [] then []
    else
      var n := |urns| - 1;
      CardIds(urns[..n]) + if urns[n].Some? then [CardId(urns[n].value)] else []
  }

  /** All ids of the listing, page after page, up to the first page that stops it. */
  function IdsBeforeStop(pages: seq<Page>): seq<string>
    decreases |pages|
  {
    if pages == [] || Stops(pages[0]) then [] else CardIds(pages[0].urns) + IdsBeforeStop(pages[1..])
  }

  /** The ids of the first `n` pages, none of which stops the collection. */
  function IdsUpTo(pages: seq<Page>, n: nat): seq<string>
    requires n <= |pages|
  {
    if n == 0 then [] else IdsUpTo(pages, n - 1) + if pages[n - 1].Cards? then CardIds(pages[n - 1].urns) else []
  }

  lemma {:induction false} IdsBeforeStopSplit(pages: seq<Page>, n: nat)
    requires n <= |pages| && forall k :: 0 <= k < n ==> !Stops(pages[k])
    ensures IdsBeforeStop(pages) == IdsUpTo(pages, n) + IdsBeforeStop(pages[n..])
  {
    if n == 0 {
      assert pages[0..] == pages;
    } else {
      IdsBeforeStopSplit(pages, n - 1);
      IdsBeforeStopStep(pages, n - 1);
    }
  }

  /** One more page that does not stop moves its ids from the rest to the prefix. */
  lemma IdsBeforeStopStep(pages: seq<Page>, m: nat)
    requires m < |pages| && !Stops(pages[m])
    requires IdsBeforeStop(pages) == IdsUpTo(pages, m) + IdsBeforeStop(pages[m..])
    ensures IdsBeforeStop(pages) == IdsUpTo(pages, m + 1) + IdsBeforeStop(pages[m + 1..])
  {
    assert pages[m..][1..] == pages[m + 1..];
    var a, b, c := IdsUpTo(pages, m), CardIds(pages[m].urns), IdsBeforeStop(pages[m + 1..]);
    assert IdsBeforeStop(pages[m..]) == b + c;
    assert a + (b + c) == (a + b) + c;
  }

  /** The first `n` elements, or all of them when there are fewer. */
  function Take(s: seq<string>, n: int): (r: seq<string>)
    ensures |r| <= |s| && r == s[..|r|]
    ensures n <= 0 ==> r == []
    ensures n >= 0 ==> |r| == if |s| <= n then |s| else n
  {
    if n <= 0 then [] else if |s| <= n then s else s[..n]
  }

  lemma TakeOfLonger(s: seq<string>, t: seq<string>, n: int)
    requires |s| >= n
    ensures Take(s + t, n) == Take(s, n)
  {
    if n > 0 {
      assert (s + t)[..n] == s[..n];
    }
  }

  /** The inner card loop: ids are appended until `max_results` is reached. */
  method ReadCards(before: seq<string>, urns: seq<Option<string>>, maxResults: int) returns (ids: seq<string>)
    requires |before| < maxResults
    ensures ids == Take(before + CardIds(urns), maxResults)
  {
    ids := before;
    for j := 0 to |urns|
      invariant ids == before + CardIds(urns[..j])
      invariant |ids| < maxResults
    {
      CardIdsStep(urns, j);
      if urns[j].Some? {
        ids := ids + [CardId(urns[j].value)];
        if |ids| >= maxResults {
          FullAfterCard(before, urns, j, maxResults);
          return;
        }
      }
    }
    assert urns[..|urns|] == urns;
  }

  lemma CardIdsStep(urns: seq<Option<string>>, j: nat)
    requires j < |urns|
    ensures CardIds(urns[..j + 1]) == CardIds(urns[..j]) + if urns[j].Some? then [CardId(urns[j].value)] else []
  {
    assert urns[..j + 1][..j] == urns[..j];
  }

  /** Reaching `max_results` at a card: the cards after it are not read. */
  lemma FullAfterCard(before: seq<string>, urns: seq<Option<string>>, j: nat, maxResults: int)
    requires j < |urns| && |before + CardIds(urns[..j + 1])| >= maxResults
    requires |before + CardIds(urns[..j + 1])| <= maxResults
    ensures before + CardIds(urns[..j + 1]) == Take(before + CardIds(urns), maxResults)
  {
    var a, b := before + CardIds(urns[..j + 1]), CardIds(urns[j + 1..]);
    assert urns == urns[..j + 1] + urns[j + 1..];
    CardIdsAppend(urns[..j + 1], urns[j + 1..]);
    assert before + CardIds(urns) == a + b;
    TakeOfLonger(a, b, maxResults);
  }

  /** The id collection of `search_jobs`: listing pages are requested with
      `start` 0, 25, 50, ... until `max_results` ids are collected or a page
      stops it; the ids are the listing's first `max_results`. */
  method CollectJobIds(maxResults: int, pages: seq<Page>) returns (ids: seq<string>, starts: seq<int>)
    ensures ids == Take(IdsBeforeStop(pages), maxResults)
    ensures |ids| <= if maxResults < 0 then 0 else maxResults
    ensures forall k :: 0 <= k < |starts| ==> starts[k] == k * 25
    ensures |starts| <= |pages| + 1
  {
    ids, starts := [], [];
    var page := 0;
    while |ids| < maxResults
      invariant 0 <= page <= |pages| && |starts| == page
      invariant forall k :: 0 <= k < page ==> starts[k] == k * 25
      invariant forall k :: 0 <= k < page ==> !Stops(pages[k])
      invariant ids == Take(IdsUpTo(pages, page), maxResults)
      decreases |pages| - page
    {
      starts := starts + [page * 25];
      var answer := PageAt(pages, page);
      if Stops(answer) {
        StoppedAt(pages, page);
        break;
      }
      assert page < |pages| && answer == pages[page];
      ghost var before := ids;
      ids := ReadCards(ids, answer.urns, maxResults);
      PageStep(pages, page, before, ids, maxResults);
      page := page + 1;
    }
    if |ids| >= maxResults {
      FullAt(pages, page, maxResults);
    }
  }

  /** One page read by `ReadCards` after the ids of the pages before it. */
  lemma PageStep(pages: seq<Page>, page: nat, before: seq<string>, after: seq<string>, maxResults: int)
    requires page < |pages| && !Stops(pages[page])
    requires before == Take(IdsUpTo(pages, page), maxResults) && |before| < maxResults
    requires after == Take(before + CardIds(pages[page].urns), maxResults)
    ensures after == Take(IdsUpTo(pages, page + 1), maxResults)
  {
    assert before == IdsUpTo(pages, page);
    assert IdsUpTo(pages, page + 1) == IdsUpTo(pages, page) + CardIds(pages[page].urns);
  }

  /** A page that stops the collection leaves the ids of the pages before it. */
  lemma StoppedAt(pages: seq<Page>, page: nat)
    requires page <= |pages| && forall k :: 0 <= k < page ==> !Stops(pages[k])
    requires Stops(PageAt(pages, page))
    ensures IdsBeforeStop(pages) == IdsUpTo(pages, page)
  {
    IdsBeforeStopSplit(pages, page);
    assert page < |pages| ==> pages[page..][0] == pages[page];
    assert IdsBeforeStop(pages[page..]) == [];
  }

  /** Once the pages read so far give `max_results` ids, later pages add none. */
  lemma FullAt(pages: seq<Page>, page: nat, maxResults: int)
    requires page <= |pages| && forall k :: 0 <= k < page ==> !Stops(pages[k])
    requires |Take(IdsUpTo(pages, page), maxResults)| >= maxResults
    ensures Take(IdsBeforeStop(pages), maxResults) == Take(IdsUpTo(pages, page), maxResults)
  {
    IdsBeforeStopSplit(pages, page);
    TakeOfLonger(IdsUpTo(pages, page), IdsBeforeStop(pages[page..]), maxResults);
  }

  lemma {:induction false} CardIdsAppend(a: seq<Option<string>>, b: seq<Option<string>>)
    ensures CardIds(a + b) == CardIds(a) + CardIds(b)
    decreases |b|
  {
    if b == [] {
      assert a + b == a;
    } else {
      var n := |b| - 1;
      assert (a + b)[..|a + b| - 1] == a + b[..n];
      CardIdsAppend(a, b[..n]);
    }
  }

  /** The fields the detail page yields. */
  datatype Scraped = Scraped(title: string, company: string, location: string, description: string, level: string)

  const JobViewPrefix := "https://www.linkedin.com/jobs/view/"

  function ApplicationUrl(jobId: string): string {
    JobViewPrefix + jobId
  }

  /** The job id read back from an application URL. */
  function JobIdOfUrl(url: string): Option<string> {
    if JobViewPrefix <= url then Some(url[|JobViewPrefix|..]) else None
  }

  lemma ApplicationUrlRoundTrip(jobId: string)
    ensures JobIdOfUrl(ApplicationUrl(jobId)) == Some(jobId)
  {
    assert ApplicationUrl(jobId)[|JobViewPrefix|..] == jobId;
  }

  /** The dict `_get_job_details` returns. */
  function DetailsRecord(jobId: string, s: Scraped, now: string): (d: JobDict)
    ensures d.id.None? && d.jobId == Some(jobId) && d.applicationUrl == Some(ApplicationUrl(jobId))
  {
    JobDict(None, Some(jobId), Some(s.title), Some(s.company), Some(s.location), Some(s.description),
            Some(s.level), Some(ApplicationUrl(jobId)), Some(now), None)
  }

  /** The records of the ids whose details could be read, in id order. */
  function Details(ids: seq<string>, details: string -> Option<Scraped>, now: string): (jobs: seq<JobDict>)
    ensures |jobs| <= |ids|
    ensures forall k :: 0 <= k < |jobs| ==>
              jobs[k].id.None? && jobs[k].jobId.Some? && jobs[k].jobId.value in ids
              && details(jobs[k].jobId.value).Some?
              && jobs[k] == DetailsRecord(jobs[k].jobId.value, details(jobs[k].jobId.value).value, now)
    decreases |ids|
  {
    if ids == [] then []
    else
      var n := |ids| - 1;
      var prefix := Details(ids[..n], details, now);
      assert forall x :: x in ids[..n] ==> x in ids;
      if details(ids[n]).Some? then prefix + [DetailsRecord(ids[n], details(ids[n]).value, now)] else prefix
  }

  method FetchDetails(ids: seq<string>, details: string -> Option<Scraped>, now: string) returns (jobs: seq<JobDict>)
    ensures jobs == Details(ids, details, now)
  {
    jobs := [];
    for i := 0 to |ids|
      invariant jobs == Details(ids[..i], details, now)
    {
      assert ids[..i + 1][..i] == ids[..i];
      var info := details(ids[i]);
      if info.Some? {
        jobs := jobs + [DetailsRecord(ids[i], info.value, now)];
      }
    }
    assert ids[..|ids|] == ids;
  }

  /** `search_jobs`: the listing request's parameters and the job records. */
  method SearchJobs(keywords: string, location: string, jobType: seq<string>, experienceLevel: seq<string>,
                    datePosted: Option<string>, remote: bool, maxResults: int,
                    pages: seq<Page>, details: string -> Option<Scraped>, now: string)
    returns (params: Params, jobs: seq<JobDict>)
    ensures params.experience == Filter(FilterMap(experienceLevel, ExperienceCode))
    ensures params.jobTypes == Filter(FilterMap(jobType, JobTypeCode))
    ensures params.postedWithin == DateFilter(datePosted)
    ensures params.workplace == if remote then Some("2") else None
    ensures jobs == Details(Take(IdsBeforeStop(pages), maxResults), details, now)
    ensures |jobs| <= if maxResults < 0 then 0 else maxResults
  {
    params := BuildParams(keywords, location, jobType, experienceLevel, datePosted, remote);
    var ids, starts := CollectJobIds(maxResults, pages);
    params := params.(start := if |starts| == 0 then 0 else starts[|starts| - 1]);
    jobs := FetchDetails(ids, details, now);
  }

  /** One entry of `save_results`' JSON: the id defaults to the job's position. */
  function ResultEntry(i: nat, j: JobDict): JobDict {
    JobDict(Some(j.jobId.GetOr(NatToString(i))), None, Some(j.title.GetOr("")), Some(j.company.GetOr("")),
            Some(j.location.GetOr("")), Some(j.description.GetOr("")), Some(j.seniorityLevel.GetOr("")),
            Some(j.applicationUrl.GetOr("")), None, None)
  }

  /** `save_results`: nothing for no jobs; otherwise the entries of the jobs
      with a description, in order. */
  function SaveResults(jobs: seq<JobDict>): (r: Option<seq<JobDict>>)
    ensures r.None? <==> jobs == []
    ensures r.Some? ==> |r.value| <= |jobs|
    ensures r.Some? ==> forall k :: 0 <= k < |r.value| ==> Truthy(r.value[k].description) && r.value[k].id.Some?
    ensures r.Some? ==> forall i :: 0 <= i < |jobs| && Truthy(jobs[i].description) ==> ResultEntry(i, jobs[i]) in r.value
  {
    if jobs == [] then None
    else
      var entries := DescribedEntries(jobs, ResultEntry);
      var ix := DescribedIndices(jobs);
      assert forall i :: 0 <= i < |jobs| && Truthy(jobs[i].description) ==> ResultEntry(i, jobs[i]) in entries by {
        forall i | 0 <= i < |jobs| && Truthy(jobs[i].description) ensures ResultEntry(i, jobs[i]) in entries {
          var k :| 0 <= k < |ix| && ix[k] == i;
          assert entries[k] == ResultEntry(i, jobs[i]);
        }
      }
      Some(entries)
  }

  /** A scraped job keeps its LinkedIn id in the saved listing. */
  lemma SavedIdIsJobId(jobs: seq<JobDict>, i: nat)
    requires i < |jobs| && jobs[i].jobId.Some?
    ensures ResultEntry(i, jobs[i]).id == jobs[i].jobId
  {
  }
}
