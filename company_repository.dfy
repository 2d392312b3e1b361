/**
 * app/db/company_repository.py: `CompanyRepository` over the `company` table
 * (name and job description NOT NULL, the three analysis columns nullable).
 * `Create`, which stores a `Company` object, is called by the orchestrator but
 * defined in no file of the repository; it is modelled on its call site.
 */
module CompanyStore {
  import opened Wrappers
  import opened Tables
  import Models

  /** A `company` row, and also the dict `get_company` returns for it. */
  datatype CompanyRow = CompanyRow(
    name: string,
    aboutBusiness: Option<string>,
    qualifications: Option<string>,
    skills: Option<string>,
    jobDescription: string)

  /** The dict `get_company` builds from a row: the five columns of its
      `SELECT`, each under its own name, a NULL column as `None`. */
  function CompanyDict(row: CompanyRow): map<string, Option<string>> {
    map["name" := Some(row.name), "about_business" := row.aboutBusiness,
        "qualifications" := row.qualifications, "skills" := row.skills,
        "job_description" := Some(row.jobDescription)]
  }

  /** The dict `add_company` takes; `None` is a key it does not have. */
  datatype CompanyData = CompanyData(
    name: Option<string>,
    aboutBusiness: Option<string>,
    qualifications: Option<string>,
    skills: Option<string>,
    jobDescription: Option<string>)

  /** The row `add_company` writes for `d`, or the `KeyError` that building its
      parameters raises (`data['name']` is evaluated before `data['job_description']`). */
  function RowFor(d: CompanyData): (r: Result<CompanyRow>)
    ensures r.Ok? <==> d.name.Some? && d.jobDescription.Some?
    ensures r.Ok? ==> r.value == CompanyRow(d.name.value, d.aboutBusiness, d.qualifications, d.skills, d.jobDescription.value)
    ensures d.name.None? ==> r == Err(MissingKey("name"))
    ensures d.name.Some? && d.jobDescription.None? ==> r == Err(MissingKey("job_description"))
  {
    if d.name.None? then Err(MissingKey("name"))
    else if d.jobDescription.None? then Err(MissingKey("job_description"))
    else Ok(CompanyRow(d.name.value, d.aboutBusiness, d.qualifications, d.skills, d.jobDescription.value))
  }

  /** What `get_company` reads back after `add_company(d)` succeeded: `d`'s five
      fields, the absent optional ones as null. Rows stored earlier are read
      back unchanged. */
  lemma {:induction false} GetAfterAdd(t: Table<CompanyRow>, d: CompanyData)
    requires Valid(t) && RowFor(d).Ok?
    ensures Find(Insert(t, RowFor(d).value), t.next)
         == Some(CompanyRow(d.name.value, d.aboutBusiness, d.qualifications, d.skills, d.jobDescription.value))
    ensures forall id :: id != t.next ==> Find(Insert(t, RowFor(d).value), id) == Find(t, id)
  {
    InsertFresh(t, RowFor(d).value);
  }

  /** An id no insert handed out is not found. */
  lemma NeverIssued(t: Table<CompanyRow>, id: int)
    requires Valid(t) && (id < 1 || t.next <= id)
    ensures Find(t, id) == None
  {
  }

  class CompanyRepository {
    var company: Table<CompanyRow>

    ghost predicate Valid()
      reads this
    {
      Tables.Valid(company)
    }

    constructor ()
      ensures Valid() && company == Empty()
    {
      company := Empty();
    }

    /** `add_company`: one row and its fresh id, or the `KeyError` with the table unchanged. */
    method AddCompany(data: CompanyData) returns (r: Result<int>)
      requires Valid()
      modifies this
      ensures Valid()
      ensures RowFor(data).Err? ==> r == Err(RowFor(data).error) && company == old(company)
      ensures RowFor(data).Ok? ==>
        && r == Ok(old(company.next)) && r.value !in Ids(old(company))
        && company == Insert(old(company), RowFor(data).value)
    {
      var row := RowFor(data);
      if row.Err? {
        return Err(row.error);
      }
      r := Ok(company.next);
      InsertAllValid(company, [row.value]);
      company := Insert(company, row.value);
    }

    /** `get_company` */
    function GetCompany(companyId: int): (r: Option<CompanyRow>)
      reads this
      ensures r.None? <==> companyId !in Ids(company)
      ensures r.Some? ==> Row(companyId, r.value) in company.rows
    {
      Find(company, companyId)
    }

    /** `company_repo.create(company)`: the company's name, its analysis
        (about, required education and required skills) and its job
        description, stored as one row. */
    method Create(c: Models.Company) returns (id: int)
      requires Valid()
      modifies this
      ensures Valid()
      ensures id == old(company.next) && id !in Ids(old(company))
      ensures company == Insert(old(company), CompanyRow(c.name, c.about, c.requiredEducation, c.requiredSkills, c.jobDescription))
    {
      var row := CompanyRow(c.name, c.about, c.requiredEducation, c.requiredSkills, c.jobDescription);
      id := company.next;
      InsertAllValid(company, [row]);
      company := Insert(company, row);
    }
  }
}
