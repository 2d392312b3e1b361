/**
 * app/ai_resume_builder.py: `AIResumeBuilder`, without its agents. What each
 * agent returns (the job analysis, the parsed background, the summary and
 * the generated skills, experiences, education and projects) is an input.
 * The resume and company stores are the builder's own repositories; the job
 * repository `create_resume` opens is passed in.
 */
module ResumeBuilder {
  import opened Wrappers
  import opened Text
  import opened Tables
  import opened Sequences
  import opened Models
  import opened ResumeStore
  import opened CompanyStore
  import JobRecords
  import JobStore

  // ---------------------------------------------------------------------
  // The company merge of `analyze_job_description_with_company`

  /** The fields of a `Company` object. */
  datatype CompanyFields = CompanyFields(
    name: string, jobTitle: string, jobDescription: string, location: string,
    applicationUrl: string, seniorityLevel: string,
    about: Option<string>, requiredEducation: Option<string>,
    requiredExperience: Option<string>, requiredSkills: Option<string>)

  function FieldsOf(c: Company): CompanyFields
    reads c
  {
    CompanyFields(c.name, c.jobTitle, c.jobDescription, c.location, c.applicationUrl, c.seniorityLevel,
                  c.about, c.requiredEducation, c.requiredExperience, c.requiredSkills)
  }

  /** An analysis field overwrites the company's only when the analysis has it. */
  function Overwrite(present: Option<string>, current: Option<string>): Option<string> {
    if present.Some? then present else current
  }

  /** The company after the merge: each of the four requirement fields is
      taken from the analysis when it has one, and the name only when the
      company has none. */
  function Merged(c: CompanyFields, a: CompanyAnalysis): (m: CompanyFields)
    ensures m.jobTitle == c.jobTitle && m.jobDescription == c.jobDescription && m.location == c.location
    ensures m.applicationUrl == c.applicationUrl && m.seniorityLevel == c.seniorityLevel
    ensures a.about.Some? ==> m.about == a.about
    ensures a.about.None? ==> m.about == c.about
    ensures a.requiredEducation.Some? ==> m.requiredEducation == a.requiredEducation
    ensures a.requiredEducation.None? ==> m.requiredEducation == c.requiredEducation
    ensures a.requiredExperience.Some? ==> m.requiredExperience == a.requiredExperience
    ensures a.requiredExperience.None? ==> m.requiredExperience == c.requiredExperience
    ensures a.requiredSkills.Some? ==> m.requiredSkills == a.requiredSkills
    ensures a.requiredSkills.None? ==> m.requiredSkills == c.requiredSkills
    ensures c.name != "" ==> m.name == c.name
    ensures c.name == "" && a.companyName.Some? ==> m.name == a.companyName.value
    ensures c.name == "" && a.companyName.None? ==> m.name == ""
  {
    c.(about := Overwrite(a.about, c.about),
       requiredEducation := Overwrite(a.requiredEducation, c.requiredEducation),
       requiredExperience := Overwrite(a.requiredExperience, c.requiredExperience),
       requiredSkills := Overwrite(a.requiredSkills, c.requiredSkills),
       name := if a.companyName.Some? && c.name == "" then a.companyName.value else c.name)
  }

  /** Merging the same analysis again changes nothing, and an analysis with
      no fields leaves the company as it was. */
  lemma MergeIdempotent(c: CompanyFields, a: CompanyAnalysis)
    ensures Merged(Merged(c, a), a) == Merged(c, a)
    ensures a == CompanyAnalysis(None, None, None, None, None) ==> Merged(c, a) == c
  {
  }

  /** The analyzer's declared output, `JobAnalysis`, has a `company_name`
      attribute and none of the other four, so the merge can only fill in the name. */
  function AsCompanyAnalysis(j: JobAnalysis): CompanyAnalysis {
    CompanyAnalysis(Some(j.companyName), None, None, None, None)
  }

  lemma JobAnalysisMergesOnlyName(c: CompanyFields, j: JobAnalysis)
    ensures Merged(c, AsCompanyAnalysis(j)) == c.(name := if c.name == "" then j.companyName else c.name)
  {
  }

  // ---------------------------------------------------------------------
  // What `create_resume` writes

  /** The agents' outputs `create_resume` stores. */
  datatype Outputs = Outputs(
    background: ParsedBackground,
    summary: string,
    skills: seq<SkillCategory>,
    experiences: seq<GeneratedExperience>,
    education: seq<Education>,
    projects: seq<Project>)

  const DescriptionLead := "Targeted resume for position at "
  const UrlLead := "\nApplication URL: "

  function ResumeName(company: string): string {
    "Resume for " + company
  }

  /** The resume description: the URL line only for a non-empty URL. */
  function Description(company: string, url: Option<string>): (d: string)
    ensures DescriptionLead + company <= d
  {
    if JobRecords.Truthy(url) then DescriptionLead + company + UrlLead + url.value else DescriptionLead + company
  }

  /** The application URL read back from a description. */
  function UrlOfDescription(company: string, d: string): Option<string> {
    var lead := DescriptionLead + company + UrlLead;
    if lead <= d then Some(d[|lead|..]) else None
  }

  /** The description carries the application URL exactly when it was non-empty. */
  lemma DescriptionRoundTrip(company: string, url: Option<string>)
    ensures UrlOfDescription(company, Description(company, url)) == if JobRecords.Truthy(url) then url else None
  {
    var lead := DescriptionLead + company + UrlLead;
    if JobRecords.Truthy(url) {
      assert Description(company, url) == lead + url.value;
      assert Description(company, url)[|lead|..] == url.value;
    } else {
      assert |Description(company, url)| < |lead|;
    }
  }

  predicate IsPrimary(d: ContactDetail) {
    d.detailName == "Email" || d.detailName == "Phone"
  }

  function PrimaryInfo(d: ContactDetail): Option<string> {
    if IsPrimary(d) then Some(d.detailInfo) else None
  }

  /** The `detail_info` of the Email and Phone contacts, in order. */
  function PrimaryContacts(ds: seq<ContactDetail>): seq<string> {
    FilterMap(ds, PrimaryInfo)
  }

  /** `contact_info`: the primary contacts, joined by " | ". */
  function ContactInfo(ds: seq<ContactDetail>): string {
    Join(PrimaryContacts(ds), " | ")
  }

  /** Exactly the primary contacts are listed, in their order. */
  lemma PrimaryContactsExact(a: seq<ContactDetail>, b: seq<ContactDetail>, d: ContactDetail)
    ensures PrimaryContacts(a + b) == PrimaryContacts(a) + PrimaryContacts(b)
    ensures PrimaryContacts([d]) == if IsPrimary(d) then [d.detailInfo] else []
  {
    FilterMapAppend(a, b, PrimaryInfo);
    assert [d][..0] == [];
  }

  /** Every contact in `contact_info` is the info of an Email or Phone detail. */
  lemma PrimaryContactsSound(a: seq<ContactDetail>, k: int)
    requires 0 <= k < |PrimaryContacts(a)|
    ensures exists i :: 0 <= i < |a| && IsPrimary(a[i]) && a[i].detailInfo == PrimaryContacts(a)[k]
  {
    var i := FilterMapSound(a, PrimaryInfo, k);
    assert IsPrimary(a[i]) && a[i].detailInfo == PrimaryContacts(a)[k];
  }

  function ContactRows(rid: int, ds: seq<ContactDetail>): (rows: seq<ContactDetailRow>)
    ensures |rows| == |ds|
    ensures forall i :: 0 <= i < |ds| ==> rows[i] == ContactDetailRow(rid, ds[i].detailName, ds[i].detailIcon, ds[i].detailInfo)
  {
    seq(|ds|, i requires 0 <= i < |ds| => ContactDetailRow(rid, ds[i].detailName, ds[i].detailIcon, ds[i].detailInfo))
  }

  /** `add_skill_category(resume_id, name)`: no display order. */
  function CategoryRows(rid: int, cats: seq<SkillCategory>): (rows: seq<SkillCategoryRow>)
    ensures |rows| == |cats|
    ensures forall k :: 0 <= k < |cats| ==> rows[k] == SkillCategoryRow(rid, cats[k].name, None, 1)
  {
    seq(|cats|, k requires 0 <= k < |cats| => SkillCategoryRow(rid, cats[k].name, None, 1))
  }

  /** The `data` of `add_skill`: the skill's name and proficiency only. */
  function SkillDataOf(s: Skill): SkillData {
    SkillData(s.name, s.proficiency, None, None)
  }

  function CategorySkillRows(rid: int, catId: int, skills: seq<Skill>): (rows: seq<SkillRow>)
    ensures |rows| == |skills|
    ensures forall j :: 0 <= j < |skills| ==> rows[j] == SkillRowOf(rid, catId, SkillDataOf(skills[j]))
  {
    seq(|skills|, j requires 0 <= j < |skills| => SkillRowOf(rid, catId, SkillDataOf(skills[j])))
  }

  /** The skill rows of the categories, the k-th category's under id `first + k`. */
  function SkillRows(rid: int, first: int, cats: seq<SkillCategory>): seq<SkillRow>
    decreases |cats|
  {
    if cats == [] then []
    else
      var n := |cats| - 1;
      SkillRows(rid, first, cats[..n]) + CategorySkillRows(rid, first + n, cats[n].skills)
  }

  /** A skill row that stores one of the skills under its `category_id`. */
  predicate StoresSkillOf(row: SkillRow, rid: int, skills: seq<Skill>) {
    exists j :: 0 <= j < |skills| && row == SkillRowOf(rid, row.categoryId, SkillDataOf(skills[j]))
  }

  /** A skill row that stores a skill of the category under its `category_id`. */
  predicate SkillOfCategory(row: SkillRow, rid: int, first: int, cats: seq<SkillCategory>) {
    first <= row.categoryId < first + |cats| && StoresSkillOf(row, rid, cats[row.categoryId - first].skills)
  }

  /** Every skill row stores a skill of the category whose id it carries. */
  lemma {:induction false} SkillRowsSound(rid: int, first: int, cats: seq<SkillCategory>)
    ensures forall i :: 0 <= i < |SkillRows(rid, first, cats)| ==> SkillOfCategory(SkillRows(rid, first, cats)[i], rid, first, cats)
    decreases |cats|
  {
    if cats != [] {
      var n := |cats| - 1;
      var prefix := SkillRows(rid, first, cats[..n]);
      var rows := SkillRows(rid, first, cats);
      SkillRowsSound(rid, first, cats[..n]);
      forall i | 0 <= i < |rows| ensures SkillOfCategory(rows[i], rid, first, cats) {
        if i < |prefix| {
          assert SkillOfCategory(prefix[i], rid, first, cats[..n]);
          assert cats[..n][prefix[i].categoryId - first] == cats[prefix[i].categoryId - first];
        } else {
          var j := i - |prefix|;
          assert rows[i] == SkillRowOf(rid, first + n, SkillDataOf(cats[n].skills[j]));
          assert StoresSkillOf(rows[i], rid, cats[n].skills);
        }
      }
    }
  }

  /** Every skill of every category has its row, under that category's id. */
  lemma {:induction false} SkillRowsComplete(rid: int, first: int, cats: seq<SkillCategory>, k: int, j: int)
    requires 0 <= k < |cats| && 0 <= j < |cats[k].skills|
    ensures SkillRowOf(rid, first + k, SkillDataOf(cats[k].skills[j])) in SkillRows(rid, first, cats)
    decreases |cats|
  {
    var n := |cats| - 1;
    if k < n {
      SkillRowsComplete(rid, first, cats[..n], k, j);
      assert cats[..n][k] == cats[k];
    } else {
      assert CategorySkillRows(rid, first + n, cats[n].skills)[j] == SkillRowOf(rid, first + k, SkillDataOf(cats[k].skills[j]));
    }
  }

  /** The `exp_data` of `add_experience`: the generator's display order and
      accomplishments, no visibility. */
  function ExperienceDataOf(e: GeneratedExperience): ExperienceData {
    ExperienceData(e.jobTitle, e.company, e.location, e.dateRange, None, Some(e.displayOrder), Some(e.accomplishments))
  }

  function ExperienceRows(rid: int, exps: seq<GeneratedExperience>): (rows: seq<ExperienceRow>)
    ensures |rows| == |exps|
    ensures forall k :: 0 <= k < |exps| ==> rows[k] == ExperienceRowOf(rid, ExperienceDataOf(exps[k]))
  {
    seq(|exps|, k requires 0 <= k < |exps| => ExperienceRowOf(rid, ExperienceDataOf(exps[k])))
  }

  /** The accomplishment rows of the experiences, the k-th experience's under id `first + k`. */
  function AllAccomplishmentRows(rid: int, first: int, exps: seq<GeneratedExperience>): seq<AccomplishmentRow>
    decreases |exps|
  {
    if exps == [] then []
    else
      var n := |exps| - 1;
      AllAccomplishmentRows(rid, first, exps[..n]) + AccomplishmentRows(rid, first + n, exps[n].accomplishments)
  }

  /** An accomplishment row that stores the j-th accomplishment of the experience
      whose id it carries, with j as its display order. */
  predicate AccomplishmentOfExperience(row: AccomplishmentRow, rid: int, first: int, exps: seq<GeneratedExperience>) {
    && row.resumeId == rid && row.isVisible == 1
    && first <= row.experienceId < first + |exps|
    && NumberedIn(row, exps[row.experienceId - first].accomplishments)
  }

  /** The row's description is the accomplishment its display order numbers. */
  predicate NumberedIn(row: AccomplishmentRow, descs: seq<string>) {
    exists j :: 0 <= j < |descs| && row.displayOrder == Some(j) && row.description == descs[j]
  }

  lemma {:induction false} AccomplishmentRowsSound(rid: int, first: int, exps: seq<GeneratedExperience>)
    ensures forall i :: 0 <= i < |AllAccomplishmentRows(rid, first, exps)| ==>
              AccomplishmentOfExperience(AllAccomplishmentRows(rid, first, exps)[i], rid, first, exps)
    decreases |exps|
  {
    if exps != [] {
      var n := |exps| - 1;
      var prefix := AllAccomplishmentRows(rid, first, exps[..n]);
      var rows := AllAccomplishmentRows(rid, first, exps);
      AccomplishmentRowsSound(rid, first, exps[..n]);
      forall i | 0 <= i < |rows| ensures AccomplishmentOfExperience(rows[i], rid, first, exps) {
        if i < |prefix| {
          assert AccomplishmentOfExperience(prefix[i], rid, first, exps[..n]);
          assert exps[..n][prefix[i].experienceId - first] == exps[prefix[i].experienceId - first];
        } else {
          var j := i - |prefix|;
          assert rows[i] == AccomplishmentRow(rid, first + n, exps[n].accomplishments[j], Some(j), 1);
          assert NumberedIn(rows[i], exps[n].accomplishments);
        }
      }
    }
  }

  lemma {:induction false} AccomplishmentRowsComplete(rid: int, first: int, exps: seq<GeneratedExperience>, k: int, j: int)
    requires 0 <= k < |exps| && 0 <= j < |exps[k].accomplishments|
    ensures AccomplishmentRow(rid, first + k, exps[k].accomplishments[j], Some(j), 1) in AllAccomplishmentRows(rid, first, exps)
    decreases |exps|
  {
    var n := |exps| - 1;
    if k < n {
      AccomplishmentRowsComplete(rid, first, exps[..n], k, j);
      assert exps[..n][k] == exps[k];
    } else {
      assert AccomplishmentRows(rid, first + n, exps[n].accomplishments)[j]
          == AccomplishmentRow(rid, first + k, exps[k].accomplishments[j], Some(j), 1);
    }
  }

  /** `edu_data` passes neither visibility nor display order. */
  function EducationDataOf(e: Education): EducationData {
    EducationData(e.degree, e.institution, e.location, e.dateRange, e.description, None, None)
  }

  function EducationRows(rid: int, edus: seq<Education>): (rows: seq<EducationRow>)
    ensures |rows| == |edus|
    ensures forall k :: 0 <= k < |edus| ==> rows[k] == EducationRowOf(rid, EducationDataOf(edus[k]))
  {
    seq(|edus|, k requires 0 <= k < |edus| => EducationRowOf(rid, EducationDataOf(edus[k])))
  }

  /** `project_data` passes neither visibility nor display order. */
  function ProjectDataOf(p: Project): ProjectData {
    ProjectData(p.title, p.technologies, p.link, p.description, None, None)
  }

  function ProjectRows(rid: int, projs: seq<Project>): (rows: seq<ProjectRow>)
    ensures |rows| == |projs|
    ensures forall k :: 0 <= k < |projs| ==> rows[k] == ProjectRowOf(rid, ProjectDataOf(projs[k]))
  {
    seq(|projs|, k requires 0 <= k < |projs| => ProjectRowOf(rid, ProjectDataOf(projs[k])))
  }

  /** The store after the resume row, the personal info and the contact details. */
  function Shell(db: Db, company: string, url: Option<string>, jobId: string, bg: ParsedBackground): Db {
    var rid := db.resumes.next;
    var info := bg.personalInfo;
    db.(resumes := Insert(db.resumes, ResumeRow(ResumeName(company), Some(Description(company, url)), Some(jobId))),
        personalInfo := Insert(db.personalInfo, PersonalInfoRow(rid, info.name, ContactInfo(info.contactDetails))),
        contactDetails := InsertAll(db.contactDetails, ContactRows(rid, info.contactDetails)))
  }

  /** The store after the summary, skill, experience, education and project rows of resume `rid`. */
  function Sections(db: Db, rid: int, out: Outputs): Db {
    db.(summary := Insert(db.summary, SummaryRow(rid, out.summary)),
        skillCategories := InsertAll(db.skillCategories, CategoryRows(rid, out.skills)),
        skills := InsertAll(db.skills, SkillRows(rid, db.skillCategories.next, out.skills)),
        experience := InsertAll(db.experience, ExperienceRows(rid, out.experiences)),
        accomplishments := InsertAll(db.accomplishments, AllAccomplishmentRows(rid, db.experience.next, out.experiences)),
        education := InsertAll(db.education, EducationRows(rid, out.education)),
        projects := InsertAll(db.projects, ProjectRows(rid, out.projects)))
  }

  function Built(db: Db, company: string, url: Option<string>, jobId: string, out: Outputs): Db {
    Sections(Shell(db, company, url, jobId, out.background), db.resumes.next, out)
  }

  /** The tables written, in order. */
  function ShellLog(contacts: nat): seq<TableName> {
    [ResumesTable, PersonalInfoTable] + Repeat(ContactDetailsTable, contacts)
  }

  function SkillsLog(cats: seq<SkillCategory>): seq<TableName>
    decreases |cats|
  {
    if cats == [] then []
    else
      var n := |cats| - 1;
      SkillsLog(cats[..n]) + [SkillCategoriesTable] + Repeat(SkillsTable, |cats[n].skills|)
  }

  function ExperiencesLog(exps: seq<GeneratedExperience>): seq<TableName>
    decreases |exps|
  {
    if exps == [] then []
    else
      var n := |exps| - 1;
      ExperiencesLog(exps[..n]) + [ExperienceTable] + Repeat(AccomplishmentsTable, |exps[n].accomplishments|)
  }

  function SectionsLog(out: Outputs): seq<TableName> {
    [SummaryTable] + SkillsLog(out.skills) + ExperiencesLog(out.experiences)
    + Repeat(EducationTable, |out.education|) + Repeat(ProjectsTable, |out.projects|)
  }

  /** A table that holds a section of the resume rather than its shell. */
  predicate IsSection(t: TableName) {
    !(t.ResumesTable? || t.PersonalInfoTable? || t.ContactDetailsTable?)
  }

  lemma {:induction false} SkillsLogSections(cats: seq<SkillCategory>)
    ensures forall i :: 0 <= i < |SkillsLog(cats)| ==> IsSection(SkillsLog(cats)[i])
    decreases |cats|
  {
    if cats != [] {
      SkillsLogSections(cats[..|cats| - 1]);
    }
  }

  lemma {:induction false} ExperiencesLogSections(exps: seq<GeneratedExperience>)
    ensures forall i :: 0 <= i < |ExperiencesLog(exps)| ==> IsSection(ExperiencesLog(exps)[i])
    decreases |exps|
  {
    if exps != [] {
      ExperiencesLogSections(exps[..|exps| - 1]);
    }
  }

  /** The resume row comes first, then the personal info, and every shell row
      is written before every section row. */
  lemma ShellBeforeSections(contacts: nat, out: Outputs)
    ensures (ShellLog(contacts) + SectionsLog(out))[0] == ResumesTable
    ensures (ShellLog(contacts) + SectionsLog(out))[1] == PersonalInfoTable
    ensures forall i, j :: 0 <= i < |ShellLog(contacts) + SectionsLog(out)| && 0 <= j < |ShellLog(contacts) + SectionsLog(out)|
              && !IsSection((ShellLog(contacts) + SectionsLog(out))[i]) && IsSection((ShellLog(contacts) + SectionsLog(out))[j])
              ==> i < j
  {
    var shell := ShellLog(contacts);
    var sections := SectionsLog(out);
    SkillsLogSections(out.skills);
    ExperiencesLogSections(out.experiences);
    assert forall i :: 0 <= i < |sections| ==> IsSection(sections[i]);
    assert forall i :: 0 <= i < |shell| ==> !IsSection(shell[i]);
  }

  /** At most one resume per job id. */
  predicate UniqueJobIds(rows: seq<Row<ResumeRow>>) {
    forall i, j :: 0 <= i < j < |rows| && rows[i].data.jobId.Some? ==> rows[i].data.jobId != rows[j].data.jobId
  }

  /** After the resume of a new job id is created, it is the one found for that
      job id, so a second `create_resume` for the job returns it. */
  lemma CreatedIsFound(rows: seq<Row<ResumeRow>>, row: Row<ResumeRow>, jobId: string)
    requires UniqueJobIds(rows) && FindByJobId(rows, jobId).None? && row.data.jobId == Some(jobId)
    ensures UniqueJobIds(rows + [row])
    ensures FindByJobId(rows + [row], jobId) == Some(row)
  {
    var all := rows + [row];
    forall i, j | 0 <= i < j < |all| && all[i].data.jobId.Some?
      ensures all[i].data.jobId != all[j].data.jobId
    {
      assert all[i] == rows[i];
      if j < |rows| {
        assert all[j] == rows[j];
      }
    }
    FindAppended(rows, row, jobId);
  }

  lemma {:induction false} FindAppended(rows: seq<Row<ResumeRow>>, row: Row<ResumeRow>, jobId: string)
    requires FindByJobId(rows, jobId).None? && row.data.jobId == Some(jobId)
    ensures FindByJobId(rows + [row], jobId) == Some(row)
    decreases |rows|
  {
    if rows == [] {
      assert rows + [row] == [row];
    } else {
      assert (rows + [row])[1..] == rows[1..] + [row];
      assert rows[0].data.jobId != Some(jobId);
      assert FindByJobId(rows[1..], jobId).None? by {
        forall i | 0 <= i < |rows[1..]| ensures rows[1..][i].data.jobId != Some(jobId) {
          assert rows[1..][i] == rows[i + 1];
        }
      }
      FindAppended(rows[1..], row, jobId);
    }
  }

  /** The resume row of a new job: its name, its description and the job id,
      under a fresh id. */
  lemma BuiltResume(db: Db, company: string, url: Option<string>, jobId: string, out: Outputs)
    requires Consistent(db) && UniqueJobIds(db.resumes.rows) && FindByJobId(db.resumes.rows, jobId).None?
    ensures db.resumes.next !in Ids(db.resumes)
    ensures Find(Built(db, company, url, jobId, out).resumes, db.resumes.next)
         == Some(ResumeRow(ResumeName(company), Some(Description(company, url)), Some(jobId)))
    ensures Built(db, company, url, jobId, out).resumes.rows
         == db.resumes.rows + [Row(db.resumes.next, ResumeRow(ResumeName(company), Some(Description(company, url)), Some(jobId)))]
    ensures UniqueJobIds(Built(db, company, url, jobId, out).resumes.rows)
    ensures FindByJobId(Built(db, company, url, jobId, out).resumes.rows, jobId)
         == Some(Row(db.resumes.next, ResumeRow(ResumeName(company), Some(Description(company, url)), Some(jobId))))
  {
    var row := ResumeRow(ResumeName(company), Some(Description(company, url)), Some(jobId));
    assert Built(db, company, url, jobId, out).resumes == Insert(db.resumes, row);
    ResumeInserted(db.resumes, row, jobId);
  }

  /** Inserting the resume of a new job id into the resumes table. */
  lemma ResumeInserted(t: Table<ResumeRow>, row: ResumeRow, jobId: string)
    requires Valid(t) && UniqueJobIds(t.rows) && FindByJobId(t.rows, jobId).None? && row.jobId == Some(jobId)
    ensures t.next !in Ids(t) && Find(Insert(t, row), t.next) == Some(row)
    ensures Insert(t, row).rows == t.rows + [Row(t.next, row)]
    ensures UniqueJobIds(Insert(t, row).rows)
    ensures FindByJobId(Insert(t, row).rows, jobId) == Some(Row(t.next, row))
  {
    InsertFresh(t, row);
    assert Insert(t, row).rows == t.rows + [Row(t.next, row)];
    CreatedIsFound(t.rows, Row(t.next, row), jobId);
  }

  /** The tables of the built store, one by one. */
  lemma BuiltTables(db: Db, company: string, url: Option<string>, jobId: string, out: Outputs)
    ensures var b := Built(db, company, url, jobId, out);
            var rid := db.resumes.next;
            && b.skillCategories == InsertAll(db.skillCategories, CategoryRows(rid, out.skills))
            && b.skills == InsertAll(db.skills, SkillRows(rid, db.skillCategories.next, out.skills))
            && b.experience == InsertAll(db.experience, ExperienceRows(rid, out.experiences))
            && b.accomplishments == InsertAll(db.accomplishments, AllAccomplishmentRows(rid, db.experience.next, out.experiences))
            && b.education == InsertAll(db.education, EducationRows(rid, out.education))
            && b.projects == InsertAll(db.projects, ProjectRows(rid, out.projects))
  {
  }

  lemma SkillRowSound(rid: int, first: int, cats: seq<SkillCategory>, i: int)
    requires 0 <= i < |SkillRows(rid, first, cats)|
    ensures SkillOfCategory(SkillRows(rid, first, cats)[i], rid, first, cats)
  {
    SkillRowsSound(rid, first, cats);
  }

  /** The position of the skill a skill row stores. */
  lemma SkillIndex(row: SkillRow, rid: int, skills: seq<Skill>) returns (j: int)
    requires StoresSkillOf(row, rid, skills)
    ensures 0 <= j < |skills| && skills[j] == Skill(row.name, row.proficiency)
    ensures row.resumeId == rid && row.isVisible == 1 && row.displayOrder == 0
  {
    j :| 0 <= j < |skills| && row == SkillRowOf(rid, row.categoryId, SkillDataOf(skills[j]));
  }

  /** Each skill row inserted for the categories carries the id of the
      category row inserted for its own category. */
  lemma SkillsWired(ct: Table<SkillCategoryRow>, st: Table<SkillRow>, rid: int, cats: seq<SkillCategory>, i: int)
    requires Valid(ct) && 0 <= i < |SkillRows(rid, ct.next, cats)|
    ensures var row := SkillRows(rid, ct.next, cats)[i];
            var k := row.categoryId - ct.next;
            && 0 <= k < |cats|
            && Find(InsertAll(ct, CategoryRows(rid, cats)), row.categoryId) == Some(SkillCategoryRow(rid, cats[k].name, None, 1))
            && row.resumeId == rid && row.isVisible == 1 && row.displayOrder == 0
            && Skill(row.name, row.proficiency) in cats[k].skills
  {
    var row := SkillRows(rid, ct.next, cats)[i];
    SkillRowSound(rid, ct.next, cats, i);
    var k := row.categoryId - ct.next;
    var j := SkillIndex(row, rid, cats[k].skills);
    FindInserted(ct, CategoryRows(rid, cats), k);
  }

  lemma SkillsStep(rid: int, first: int, cats: seq<SkillCategory>, k: int)
    requires 0 <= k < |cats|
    ensures SkillRows(rid, first, cats[..k + 1]) == SkillRows(rid, first, cats[..k]) + CategorySkillRows(rid, first + k, cats[k].skills)
    ensures SkillsLog(cats[..k + 1]) == SkillsLog(cats[..k]) + [SkillCategoriesTable] + Repeat(SkillsTable, |cats[k].skills|)
    ensures CategoryRows(rid, cats[..k + 1]) == CategoryRows(rid, cats[..k]) + [SkillCategoryRow(rid, cats[k].name, None, 1)]
  {
    assert cats[..k + 1][..k] == cats[..k];
  }

  /** The resume row, the personal info and the contacts written one after
      the other make up `Shell`. */
  lemma ShellInOrder(company: string, url: Option<string>, jobId: string, bg: ParsedBackground,
                     db0: Db, db1: Db, db2: Db, db3: Db,
                     l0: seq<TableName>, l1: seq<TableName>, l2: seq<TableName>, l3: seq<TableName>)
    requires db1 == db0.(resumes := Insert(db0.resumes, ResumeRow(ResumeName(company), Some(Description(company, url)), Some(jobId))))
    requires l1 == l0 + [ResumesTable]
    requires db2 == db1.(personalInfo := Insert(db1.personalInfo,
                           PersonalInfoRow(db0.resumes.next, bg.personalInfo.name, ContactInfo(bg.personalInfo.contactDetails))))
    requires l2 == l1 + [PersonalInfoTable]
    requires db3 == db2.(contactDetails := InsertAll(db2.contactDetails, ContactRows(db0.resumes.next, bg.personalInfo.contactDetails)))
    requires l3 == l2 + Repeat(ContactDetailsTable, |bg.personalInfo.contactDetails|)
    ensures db3 == Shell(db0, company, url, jobId, bg)
    ensures l3 == l0 + ShellLog(|bg.personalInfo.contactDetails|)
  {
  }

  /** The shell and then the sections make up `Built`. */
  lemma BuiltInOrder(company: string, url: Option<string>, jobId: string, out: Outputs, db0: Db, db1: Db, db2: Db,
                     l0: seq<TableName>, l1: seq<TableName>, l2: seq<TableName>)
    requires db1 == Shell(db0, company, url, jobId, out.background)
    requires l1 == l0 + ShellLog(|out.background.personalInfo.contactDetails|)
    requires db2 == Sections(db1, db0.resumes.next, out) && l2 == l1 + SectionsLog(out)
    ensures db2 == Built(db0, company, url, jobId, out)
    ensures l2 == l0 + ShellLog(|out.background.personalInfo.contactDetails|) + SectionsLog(out)
  {
  }

  /** The sections written one after the other make up `Sections`. */
  lemma SectionsInOrder(rid: int, out: Outputs, db0: Db, db1: Db, db2: Db, db3: Db, db4: Db, db5: Db,
                        l0: seq<TableName>, l1: seq<TableName>, l2: seq<TableName>, l3: seq<TableName>,
                        l4: seq<TableName>, l5: seq<TableName>)
    requires db1 == db0.(summary := Insert(db0.summary, SummaryRow(rid, out.summary))) && l1 == l0 + [SummaryTable]
    requires db2 == db1.(skillCategories := InsertAll(db1.skillCategories, CategoryRows(rid, out.skills)),
                         skills := InsertAll(db1.skills, SkillRows(rid, db1.skillCategories.next, out.skills)))
    requires l2 == l1 + SkillsLog(out.skills)
    requires db3 == db2.(experience := InsertAll(db2.experience, ExperienceRows(rid, out.experiences)),
                         accomplishments := InsertAll(db2.accomplishments, AllAccomplishmentRows(rid, db2.experience.next, out.experiences)))
    requires l3 == l2 + ExperiencesLog(out.experiences)
    requires db4 == db3.(education := InsertAll(db3.education, EducationRows(rid, out.education)))
    requires l4 == l3 + Repeat(EducationTable, |out.education|)
    requires db5 == db4.(projects := InsertAll(db4.projects, ProjectRows(rid, out.projects)))
    requires l5 == l4 + Repeat(ProjectsTable, |out.projects|)
    ensures db5 == Sections(db0, rid, out)
    ensures l5 == l0 + SectionsLog(out)
  {
  }

  /** One turn of the category loop, on the store as a value. */
  lemma SkillsLoopStep(start: Db, before: Db, after: Db, rid: int, cats: seq<SkillCategory>, k: int, catId: int,
                       startLog: seq<TableName>, beforeLog: seq<TableName>, afterLog: seq<TableName>)
    requires 0 <= k < |cats|
    requires before == start.(skillCategories := InsertAll(start.skillCategories, CategoryRows(rid, cats[..k])),
                              skills := InsertAll(start.skills, SkillRows(rid, start.skillCategories.next, cats[..k])))
    requires beforeLog == startLog + SkillsLog(cats[..k])
    requires catId == before.skillCategories.next
    requires after == before.(skillCategories := Insert(before.skillCategories, SkillCategoryRow(rid, cats[k].name, None, 1)),
                              skills := InsertAll(before.skills, CategorySkillRows(rid, catId, cats[k].skills)))
    requires afterLog == beforeLog + [SkillCategoriesTable] + Repeat(SkillsTable, |cats[k].skills|)
    ensures after == start.(skillCategories := InsertAll(start.skillCategories, CategoryRows(rid, cats[..k + 1])),
                            skills := InsertAll(start.skills, SkillRows(rid, start.skillCategories.next, cats[..k + 1])))
    ensures afterLog == startLog + SkillsLog(cats[..k + 1])
  {
    SkillsStep(rid, start.skillCategories.next, cats, k);
    InsertAllAppend(start.skillCategories, CategoryRows(rid, cats[..k]), [SkillCategoryRow(rid, cats[k].name, None, 1)]);
    InsertAllAppend(start.skills, SkillRows(rid, start.skillCategories.next, cats[..k]),
                    CategorySkillRows(rid, start.skillCategories.next + k, cats[k].skills));
  }

  /** One turn of the experience loop, on the store as a value. */
  lemma ExperiencesLoopStep(start: Db, before: Db, after: Db, rid: int, exps: seq<GeneratedExperience>, k: int, expId: int,
                            startLog: seq<TableName>, beforeLog: seq<TableName>, afterLog: seq<TableName>)
    requires 0 <= k < |exps|
    requires before == start.(experience := InsertAll(start.experience, ExperienceRows(rid, exps[..k])),
                              accomplishments := InsertAll(start.accomplishments, AllAccomplishmentRows(rid, start.experience.next, exps[..k])))
    requires beforeLog == startLog + ExperiencesLog(exps[..k])
    requires expId == before.experience.next
    requires after == before.(experience := Insert(before.experience, ExperienceRowOf(rid, ExperienceDataOf(exps[k]))),
                              accomplishments := InsertAll(before.accomplishments, AccomplishmentRows(rid, expId, exps[k].accomplishments)))
    requires afterLog == beforeLog + [ExperienceTable] + Repeat(AccomplishmentsTable, |exps[k].accomplishments|)
    ensures after == start.(experience := InsertAll(start.experience, ExperienceRows(rid, exps[..k + 1])),
                            accomplishments := InsertAll(start.accomplishments, AllAccomplishmentRows(rid, start.experience.next, exps[..k + 1])))
    ensures afterLog == startLog + ExperiencesLog(exps[..k + 1])
  {
    var first := start.experience.next;
    var rows := ExperienceRows(rid, exps[..k]);
    var acc := AllAccomplishmentRows(rid, first, exps[..k]);
    assert expId == first + k;
    ExperiencesStep(rid, first, exps, k);
    InsertAllAppend(start.experience, rows, [ExperienceRowOf(rid, ExperienceDataOf(exps[k]))]);
    assert after.experience == InsertAll(start.experience, ExperienceRows(rid, exps[..k + 1]));
    InsertAllAppend(start.accomplishments, acc, AccomplishmentRows(rid, first + k, exps[k].accomplishments));
    assert after.accomplishments == InsertAll(start.accomplishments, AllAccomplishmentRows(rid, first, exps[..k + 1]));
  }

  lemma ExperiencesStep(rid: int, first: int, exps: seq<GeneratedExperience>, k: int)
    requires 0 <= k < |exps|
    ensures AllAccomplishmentRows(rid, first, exps[..k + 1])
         == AllAccomplishmentRows(rid, first, exps[..k]) + AccomplishmentRows(rid, first + k, exps[k].accomplishments)
    ensures ExperiencesLog(exps[..k + 1]) == ExperiencesLog(exps[..k]) + [ExperienceTable] + Repeat(AccomplishmentsTable, |exps[k].accomplishments|)
    ensures ExperienceRows(rid, exps[..k + 1]) == ExperienceRows(rid, exps[..k]) + [ExperienceRowOf(rid, ExperienceDataOf(exps[k]))]
  {
    assert exps[..k + 1][..k] == exps[..k];
  }

  /** The experiences are stored in generator order under consecutive fresh
      ids, each with the generator's display order and visible. */
  lemma ExperiencesWired(et: Table<ExperienceRow>, rid: int, exps: seq<GeneratedExperience>, k: int)
    requires Valid(et) && 0 <= k < |exps|
    ensures et.next + k !in Ids(et)
    ensures var e := exps[k];
            Find(InsertAll(et, ExperienceRows(rid, exps)), et.next + k)
            == Some(ExperienceRow(rid, e.jobTitle, e.company, e.location, e.dateRange, 1, e.displayOrder))
  {
    FindInserted(et, ExperienceRows(rid, exps), k);
  }

  /** Education and project rows get the default display order 0 and are visible. */
  lemma BuiltSectionDefaults(db: Db, company: string, url: Option<string>, jobId: string, out: Outputs)
    ensures forall i :: |db.education.rows| <= i < |Built(db, company, url, jobId, out).education.rows| ==>
              Built(db, company, url, jobId, out).education.rows[i].data.displayOrder == 0
              && Built(db, company, url, jobId, out).education.rows[i].data.isVisible == 1
    ensures forall i :: |db.projects.rows| <= i < |Built(db, company, url, jobId, out).projects.rows| ==>
              Built(db, company, url, jobId, out).projects.rows[i].data.displayOrder == 0
              && Built(db, company, url, jobId, out).projects.rows[i].data.isVisible == 1
  {
  }

  /** The dict `get_company` returns for a stored company has exactly the
      five keys of its `SELECT`, so the summary prompt's
      `company_data['job_title']` never finds its key. */
  lemma JobTitleNeverPresent(repo: CompanyRepository, companyId: int)
    requires repo.GetCompany(companyId).Some?
    ensures CompanyDict(repo.GetCompany(companyId).value).Keys
         == {"name", "about_business", "qualifications", "skills", "job_description"}
    ensures "job_title" !in CompanyDict(repo.GetCompany(companyId).value)
  {
  }

  class AIResumeBuilder {
    const resumeRepo: ResumeRepository
    const companyRepo: CompanyRepository

    ghost predicate Valid()
      reads this, resumeRepo, companyRepo
    {
      resumeRepo.Valid() && companyRepo.Valid() && UniqueJobIds(resumeRepo.db.resumes.rows)
    }

    constructor ()
      ensures Valid() && fresh(resumeRepo) && fresh(companyRepo)
      ensures resumeRepo.db == EmptyDb() && resumeRepo.log == [] && companyRepo.company == Empty()
    {
      resumeRepo := new ResumeRepository();
      companyRepo := new CompanyRepository();
    }

    /** `analyze_job_description`: the analysis and the text stored as one company. */
    method AnalyzeJobDescription(jobDescription: string, analysis: JobAnalysis) returns (r: Result<int>)
      requires Valid()
      modifies companyRepo
      ensures Valid()
      ensures r == Ok(old(companyRepo.company.next))
      ensures companyRepo.company == Insert(old(companyRepo.company),
                CompanyRow(analysis.companyName, Some(analysis.aboutBusiness), Some(analysis.qualifications),
                           Some(analysis.skills), jobDescription))
    {
      var data := CompanyData(Some(analysis.companyName), Some(analysis.aboutBusiness), Some(analysis.qualifications),
                              Some(analysis.skills), Some(jobDescription));
      r := companyRepo.AddCompany(data);
    }

    /** `analyze_job_description_with_company`: merges the analysis into the
        company, then stores it. */
    method AnalyzeJobDescriptionWithCompany(company: Company, analysis: CompanyAnalysis) returns (id: int)
      requires Valid()
      modifies company, companyRepo
      ensures Valid()
      ensures FieldsOf(company) == Merged(old(FieldsOf(company)), analysis)
      ensures id == old(companyRepo.company.next) && id !in Ids(old(companyRepo.company))
      ensures companyRepo.company == Insert(old(companyRepo.company),
                CompanyRow(company.name, company.about, company.requiredEducation, company.requiredSkills, company.jobDescription))
    {
      company.about := Overwrite(analysis.about, company.about);
      company.requiredEducation := Overwrite(analysis.requiredEducation, company.requiredEducation);
      company.requiredExperience := Overwrite(analysis.requiredExperience, company.requiredExperience);
      company.requiredSkills := Overwrite(analysis.requiredSkills, company.requiredSkills);
      if analysis.companyName.Some? && company.name == "" {
        company.name := analysis.companyName.value;
      }
      id := companyRepo.Create(company);
    }

    /** `create_resume`, with the job title the prompts ask for treated as
        absent: an unknown company is an error before anything else; a job that
        already has a resume gets that resume's id; otherwise the resume is
        written shell first, then its sections. */
    method CreateResume(companyId: int, jobId: string, jobRepo: JobStore.JobRepository, out: Outputs) returns (r: Result<int>)
      requires Valid()
      modifies resumeRepo
      ensures Valid()
      ensures companyRepo.GetCompany(companyId).None? ==>
        r == Err(NotFound("company")) && resumeRepo.db == old(resumeRepo.db) && resumeRepo.log == old(resumeRepo.log)
      ensures companyRepo.GetCompany(companyId).Some? && old(resumeRepo.ResumeByJobId(jobId)).Some? ==>
        r == Ok(old(resumeRepo.ResumeByJobId(jobId)).value.id)
        && resumeRepo.db == old(resumeRepo.db) && resumeRepo.log == old(resumeRepo.log)
      ensures companyRepo.GetCompany(companyId).Some? && old(resumeRepo.ResumeByJobId(jobId)).None? ==>
        && r == Ok(old(resumeRepo.db.resumes.next))
        && resumeRepo.db == Built(old(resumeRepo.db), companyRepo.GetCompany(companyId).value.name,
                                  jobRepo.GetApplicationUrl(jobId), jobId, out)
        && resumeRepo.log == old(resumeRepo.log) + ShellLog(|out.background.personalInfo.contactDetails|) + SectionsLog(out)
    {
      var company := companyRepo.GetCompany(companyId);
      if company.None? {
        return Err(NotFound("company"));
      }
      var existing := resumeRepo.ResumeByJobId(jobId);
      if existing.Some? {
        return Ok(existing.value.id);
      }
      var url := jobRepo.GetApplicationUrl(jobId);
      ghost var db0, l0 := resumeRepo.db, resumeRepo.log;
      var rid := WriteShell(company.value.name, url, jobId, out.background);
      ghost var db1, l1 := resumeRepo.db, resumeRepo.log;
      WriteSections(rid, out);
      BuiltInOrder(company.value.name, url, jobId, out, db0, db1, resumeRepo.db, l0, l1, resumeRepo.log);
      r := Ok(rid);
    }

    /** `create_resume` as written: the summary prompt's `company_data['job_title']`
        raises `KeyError` once the shell is written, so no section is ever stored. */
    method CreateResumeAsWritten(companyId: int, jobId: string, jobRepo: JobStore.JobRepository, out: Outputs)
      returns (r: Result<int>)
      requires Valid()
      modifies resumeRepo
      ensures Valid()
      ensures companyRepo.GetCompany(companyId).None? ==>
        r == Err(NotFound("company")) && resumeRepo.db == old(resumeRepo.db) && resumeRepo.log == old(resumeRepo.log)
      ensures companyRepo.GetCompany(companyId).Some? && old(resumeRepo.ResumeByJobId(jobId)).Some? ==>
        r == Ok(old(resumeRepo.ResumeByJobId(jobId)).value.id)
        && resumeRepo.db == old(resumeRepo.db) && resumeRepo.log == old(resumeRepo.log)
      ensures companyRepo.GetCompany(companyId).Some? && old(resumeRepo.ResumeByJobId(jobId)).None? ==>
        && r == Err(MissingKey("job_title"))
        && resumeRepo.db == Shell(old(resumeRepo.db), companyRepo.GetCompany(companyId).value.name,
                                  jobRepo.GetApplicationUrl(jobId), jobId, out.background)
        && resumeRepo.log == old(resumeRepo.log) + ShellLog(|out.background.personalInfo.contactDetails|)
    {
      var company := companyRepo.GetCompany(companyId);
      if company.None? {
        return Err(NotFound("company"));
      }
      var existing := resumeRepo.ResumeByJobId(jobId);
      if existing.Some? {
        return Ok(existing.value.id);
      }
      var url := jobRepo.GetApplicationUrl(jobId);
      var rid := WriteShell(company.value.name, url, jobId, out.background);
      var companyData := CompanyDict(company.value);
      JobTitleNeverPresent(companyRepo, companyId);
      if "job_title" !in companyData {
        r := Err(MissingKey("job_title"));
      } else {
        assert false;
      }
    }

    /** The resume row, its personal info and one detail row per contact. */
    method WriteShell(company: string, url: Option<string>, jobId: string, bg: ParsedBackground) returns (rid: int)
      requires Valid() && FindByJobId(resumeRepo.db.resumes.rows, jobId).None?
      modifies resumeRepo
      ensures Valid() && resumeRepo.HasResume(rid)
      ensures rid == old(resumeRepo.db.resumes.next)
      ensures resumeRepo.db == Shell(old(resumeRepo.db), company, url, jobId, bg)
      ensures resumeRepo.log == old(resumeRepo.log) + ShellLog(|bg.personalInfo.contactDetails|)
    {
      ghost var db0, l0 := resumeRepo.db, resumeRepo.log;
      var row := ResumeRow(ResumeName(company), Some(Description(company, url)), Some(jobId));
      CreatedIsFound(db0.resumes.rows, Row(db0.resumes.next, row), jobId);
      rid := resumeRepo.CreateResume(row.name, row.description, row.jobId);
      ghost var db1, l1 := resumeRepo.db, resumeRepo.log;
      var info := bg.personalInfo;
      var added := resumeRepo.AddPersonalInfo(rid, info.name, ContactInfo(info.contactDetails));
      ghost var db2, l2 := resumeRepo.db, resumeRepo.log;
      AddContacts(rid, info.contactDetails);
      ShellInOrder(company, url, jobId, bg, db0, db1, db2, resumeRepo.db, l0, l1, l2, resumeRepo.log);
    }

    method AddContacts(rid: int, ds: seq<ContactDetail>)
      requires Valid() && resumeRepo.HasResume(rid)
      modifies resumeRepo
      ensures Valid() && resumeRepo.HasResume(rid)
      ensures resumeRepo.db == old(resumeRepo.db).(contactDetails := InsertAll(old(resumeRepo.db.contactDetails), ContactRows(rid, ds)))
      ensures resumeRepo.log == old(resumeRepo.log) + Repeat(ContactDetailsTable, |ds|)
    {
      ghost var start := resumeRepo.db;
      ghost var startLog := resumeRepo.log;
      InsertAllNothing(start.contactDetails);
      for i := 0 to |ds|
        invariant Valid() && resumeRepo.HasResume(rid)
        invariant resumeRepo.db == start.(contactDetails := InsertAll(start.contactDetails, ContactRows(rid, ds[..i])))
        invariant resumeRepo.log == startLog + Repeat(ContactDetailsTable, i)
      {
        var added := resumeRepo.AddPersonalInfoDetail(rid, ds[i].detailName, ds[i].detailIcon, ds[i].detailInfo);
        InsertAllAppend(start.contactDetails, ContactRows(rid, ds[..i]), [ContactRows(rid, ds)[i]]);
        assert ContactRows(rid, ds[..i + 1]) == ContactRows(rid, ds[..i]) + [ContactRows(rid, ds)[i]];
        assert Repeat(ContactDetailsTable, i + 1) == Repeat(ContactDetailsTable, i) + [ContactDetailsTable];
      }
      assert ds[..|ds|] == ds;
    }

    /** The summary, then the skills, experiences, education and projects. */
    method WriteSections(rid: int, out: Outputs)
      requires Valid() && resumeRepo.HasResume(rid)
      modifies resumeRepo
      ensures Valid()
      ensures resumeRepo.db == Sections(old(resumeRepo.db), rid, out)
      ensures resumeRepo.log == old(resumeRepo.log) + SectionsLog(out)
    {
      ghost var db0, l0 := resumeRepo.db, resumeRepo.log;
      var added := resumeRepo.AddSummary(rid, out.summary);
      ghost var db1, l1 := resumeRepo.db, resumeRepo.log;
      AddSkills(rid, out.skills);
      ghost var db2, l2 := resumeRepo.db, resumeRepo.log;
      AddExperiences(rid, out.experiences);
      ghost var db3, l3 := resumeRepo.db, resumeRepo.log;
      AddEducations(rid, out.education);
      ghost var db4, l4 := resumeRepo.db, resumeRepo.log;
      AddProjects(rid, out.projects);
      SectionsInOrder(rid, out, db0, db1, db2, db3, db4, resumeRepo.db, l0, l1, l2, l3, l4, resumeRepo.log);
    }

    /** The category loop: each category's row, then its skills under its new id. */
    method AddSkills(rid: int, cats: seq<SkillCategory>)
      requires Valid() && resumeRepo.HasResume(rid)
      modifies resumeRepo
      ensures Valid() && resumeRepo.HasResume(rid)
      ensures resumeRepo.db == old(resumeRepo.db).(
                skillCategories := InsertAll(old(resumeRepo.db.skillCategories), CategoryRows(rid, cats)),
                skills := InsertAll(old(resumeRepo.db.skills), SkillRows(rid, old(resumeRepo.db.skillCategories.next), cats)))
      ensures resumeRepo.log == old(resumeRepo.log) + SkillsLog(cats)
    {
      ghost var start := resumeRepo.db;
      ghost var startLog := resumeRepo.log;
      InsertAllNothing(start.skillCategories);
      InsertAllNothing(start.skills);
      for k := 0 to |cats|
        invariant Valid() && resumeRepo.HasResume(rid)
        invariant resumeRepo.db == start.(
                    skillCategories := InsertAll(start.skillCategories, CategoryRows(rid, cats[..k])),
                    skills := InsertAll(start.skills, SkillRows(rid, start.skillCategories.next, cats[..k])))
        invariant resumeRepo.log == startLog + SkillsLog(cats[..k])
      {
        ghost var before := resumeRepo.db;
        ghost var beforeLog := resumeRepo.log;
        var catId := AddCategory(rid, cats[k]);
        SkillsLoopStep(start, before, resumeRepo.db, rid, cats, k, catId, startLog, beforeLog, resumeRepo.log);
      }
      assert cats[..|cats|] == cats;
    }

    /** One category's row, then its skills under the category's new id. */
    method AddCategory(rid: int, cat: SkillCategory) returns (catId: int)
      requires Valid() && resumeRepo.HasResume(rid)
      modifies resumeRepo
      ensures Valid() && resumeRepo.HasResume(rid)
      ensures catId == old(resumeRepo.db.skillCategories.next)
      ensures resumeRepo.db == old(resumeRepo.db).(
                skillCategories := Insert(old(resumeRepo.db.skillCategories), SkillCategoryRow(rid, cat.name, None, 1)),
                skills := InsertAll(old(resumeRepo.db.skills), CategorySkillRows(rid, catId, cat.skills)))
      ensures resumeRepo.log == old(resumeRepo.log) + [SkillCategoriesTable] + Repeat(SkillsTable, |cat.skills|)
    {
      var added := resumeRepo.AddSkillCategory(rid, cat.name, None);
      catId := added.value;
      InsertAllValid(old(resumeRepo.db.skillCategories), [SkillCategoryRow(rid, cat.name, None, 1)]);
      AddCategorySkills(rid, catId, cat.skills);
    }

    /** The skill loop of one category. */
    method AddCategorySkills(rid: int, catId: int, skills: seq<Skill>)
      requires Valid() && resumeRepo.HasResume(rid) && catId in Ids(resumeRepo.db.skillCategories)
      modifies resumeRepo
      ensures Valid() && resumeRepo.HasResume(rid)
      ensures resumeRepo.db == old(resumeRepo.db).(skills := InsertAll(old(resumeRepo.db.skills), CategorySkillRows(rid, catId, skills)))
      ensures resumeRepo.log == old(resumeRepo.log) + Repeat(SkillsTable, |skills|)
    {
      ghost var start := resumeRepo.db;
      ghost var startLog := resumeRepo.log;
      InsertAllNothing(start.skills);
      for j := 0 to |skills|
        invariant Valid() && resumeRepo.HasResume(rid) && catId in Ids(resumeRepo.db.skillCategories)
        invariant resumeRepo.db == start.(skills := InsertAll(start.skills, CategorySkillRows(rid, catId, skills[..j])))
        invariant resumeRepo.log == startLog + Repeat(SkillsTable, j)
      {
        var added := resumeRepo.AddSkill(rid, catId, SkillDataOf(skills[j]));
        InsertAllAppend(start.skills, CategorySkillRows(rid, catId, skills[..j]), [CategorySkillRows(rid, catId, skills)[j]]);
        assert CategorySkillRows(rid, catId, skills[..j + 1]) == CategorySkillRows(rid, catId, skills[..j]) + [CategorySkillRows(rid, catId, skills)[j]];
        assert Repeat(SkillsTable, j + 1) == Repeat(SkillsTable, j) + [SkillsTable];
      }
      assert skills[..|skills|] == skills;
    }

    /** The experience loop: each experience with its accomplishments. */
    method AddExperiences(rid: int, exps: seq<GeneratedExperience>)
      requires Valid() && resumeRepo.HasResume(rid)
      modifies resumeRepo
      ensures Valid() && resumeRepo.HasResume(rid)
      ensures resumeRepo.db == old(resumeRepo.db).(
                experience := InsertAll(old(resumeRepo.db.experience), ExperienceRows(rid, exps)),
                accomplishments := InsertAll(old(resumeRepo.db.accomplishments),
                                             AllAccomplishmentRows(rid, old(resumeRepo.db.experience.next), exps)))
      ensures resumeRepo.log == old(resumeRepo.log) + ExperiencesLog(exps)
    {
      ghost var start := resumeRepo.db;
      ghost var startLog := resumeRepo.log;
      InsertAllNothing(start.experience);
      InsertAllNothing(start.accomplishments);
      for k := 0 to |exps|
        invariant Valid() && resumeRepo.HasResume(rid)
        invariant resumeRepo.db == start.(
                    experience := InsertAll(start.experience, ExperienceRows(rid, exps[..k])),
                    accomplishments := InsertAll(start.accomplishments, AllAccomplishmentRows(rid, start.experience.next, exps[..k])))
        invariant resumeRepo.log == startLog + ExperiencesLog(exps[..k])
      {
        ghost var before := resumeRepo.db;
        ghost var beforeLog := resumeRepo.log;
        var added := resumeRepo.AddExperience(rid, ExperienceDataOf(exps[k]));
        ExperiencesLoopStep(start, before, resumeRepo.db, rid, exps, k, added.value, startLog, beforeLog, resumeRepo.log);
      }
      assert exps[..|exps|] == exps;
    }

    method AddEducations(rid: int, edus: seq<Education>)
      requires Valid() && resumeRepo.HasResume(rid)
      modifies resumeRepo
      ensures Valid() && resumeRepo.HasResume(rid)
      ensures resumeRepo.db == old(resumeRepo.db).(education := InsertAll(old(resumeRepo.db.education), EducationRows(rid, edus)))
      ensures resumeRepo.log == old(resumeRepo.log) + Repeat(EducationTable, |edus|)
    {
      ghost var start := resumeRepo.db;
      ghost var startLog := resumeRepo.log;
      InsertAllNothing(start.education);
      for k := 0 to |edus|
        invariant Valid() && resumeRepo.HasResume(rid)
        invariant resumeRepo.db == start.(education := InsertAll(start.education, EducationRows(rid, edus[..k])))
        invariant resumeRepo.log == startLog + Repeat(EducationTable, k)
      {
        var added := resumeRepo.AddEducation(rid, EducationDataOf(edus[k]));
        InsertAllAppend(start.education, EducationRows(rid, edus[..k]), [EducationRows(rid, edus)[k]]);
        assert EducationRows(rid, edus[..k + 1]) == EducationRows(rid, edus[..k]) + [EducationRows(rid, edus)[k]];
        assert Repeat(EducationTable, k + 1) == Repeat(EducationTable, k) + [EducationTable];
      }
      assert edus[..|edus|] == edus;
    }

    method AddProjects(rid: int, projs: seq<Project>)
      requires Valid() && resumeRepo.HasResume(rid)
      modifies resumeRepo
      ensures Valid() && resumeRepo.HasResume(rid)
      ensures resumeRepo.db == old(resumeRepo.db).(projects := InsertAll(old(resumeRepo.db.projects), ProjectRows(rid, projs)))
      ensures resumeRepo.log == old(resumeRepo.log) + Repeat(ProjectsTable, |projs|)
    {
      ghost var start := resumeRepo.db;
      ghost var startLog := resumeRepo.log;
      InsertAllNothing(start.projects);
      for k := 0 to |projs|
        invariant Valid() && resumeRepo.HasResume(rid)
        invariant resumeRepo.db == start.(projects := InsertAll(start.projects, ProjectRows(rid, projs[..k])))
        invariant resumeRepo.log == startLog + Repeat(ProjectsTable, k)
      {
        var added := resumeRepo.AddProject(rid, ProjectDataOf(projs[k]));
        InsertAllAppend(start.projects, ProjectRows(rid, projs[..k]), [ProjectRows(rid, projs)[k]]);
        assert ProjectRows(rid, projs[..k + 1]) == ProjectRows(rid, projs[..k]) + [ProjectRows(rid, projs)[k]];
        assert Repeat(ProjectsTable, k + 1) == Repeat(ProjectsTable, k) + [ProjectsTable];
      }
      assert projs[..|projs|] == projs;
    }
  }
}
