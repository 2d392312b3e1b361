/**
 * app/db/repository.py: `ResumeRepository`, every method of which appends
 * rows to the resume tables of app/db/init_db.py, with foreign keys enforced
 * (`PRAGMA foreign_keys = ON`). The database is the `db` field; a failed
 * statement is rolled back and re-raised, which here is an `Err` result with
 * `db` unchanged. `log` records the table of every row written, in order.
 *
 * Two members are collaborators the orchestrator calls but this file does not
 * define, modelled on what their call sites imply: the `job_id` argument of
 * `CreateResume` (stored in a `job_id` column the schema lacks),
 * `AddPersonalInfoDetail` (one row of a `contact_details` table) and
 * `ResumeByJobId` (the lookup behind `get_resume_by_job_id`).
 */
module ResumeStore {
  import opened Wrappers
  import opened Tables

  datatype ResumeRow = ResumeRow(name: string, description: Option<string>, jobId: Option<string>)
  datatype PersonalInfoRow = PersonalInfoRow(resumeId: int, name: string, contactInfo: string)
  datatype ContactDetailRow = ContactDetailRow(resumeId: int, detailName: string, detailIcon: string, detailInfo: string)
  datatype SummaryRow = SummaryRow(resumeId: int, content: string)
  datatype EducationRow = EducationRow(
    resumeId: int, degree: string, institution: string, location: Option<string>,
    dateRange: Option<string>, description: Option<string>, isVisible: int, displayOrder: int)
  /** `display_order` is NULL unless the caller passes one. */
  datatype SkillCategoryRow = SkillCategoryRow(resumeId: int, name: string, displayOrder: Option<int>, isVisible: int)
  datatype SkillRow = SkillRow(
    resumeId: int, categoryId: int, name: string, proficiency: Option<int>, isVisible: int, displayOrder: int)
  datatype ExperienceRow = ExperienceRow(
    resumeId: int, jobTitle: string, company: string, location: Option<string>,
    dateRange: Option<string>, isVisible: int, displayOrder: int)
  datatype AccomplishmentRow = AccomplishmentRow(
    resumeId: int, experienceId: int, description: string, displayOrder: Option<int>, isVisible: int)
  datatype ProjectRow = ProjectRow(
    resumeId: int, title: string, technologies: Option<string>, link: Option<string>,
    description: Option<string>, isVisible: int, displayOrder: int)

  /** The `data` dicts of the `add_*` methods: required keys are plain fields,
      `None` is a key the dict does not have. */
  datatype EducationData = EducationData(
    degree: string, institution: string, location: Option<string>, dateRange: Option<string>,
    description: Option<string>, isVisible: Option<int>, displayOrder: Option<int>)
  datatype SkillData = SkillData(name: string, proficiency: Option<int>, isVisible: Option<int>, displayOrder: Option<int>)
  datatype ExperienceData = ExperienceData(
    jobTitle: string, company: string, location: Option<string>, dateRange: Option<string>,
    isVisible: Option<int>, displayOrder: Option<int>, accomplishments: Option<seq<string>>)
  datatype ProjectData = ProjectData(
    title: string, technologies: Option<string>, link: Option<string>, description: Option<string>,
    isVisible: Option<int>, displayOrder: Option<int>)

  datatype TableName =
    | ResumesTable | PersonalInfoTable | ContactDetailsTable | SummaryTable | EducationTable
    | SkillCategoriesTable | SkillsTable | ExperienceTable | AccomplishmentsTable | ProjectsTable

  datatype Db = Db(
    resumes: Table<ResumeRow>,
    personalInfo: Table<PersonalInfoRow>,
    contactDetails: Table<ContactDetailRow>,
    summary: Table<SummaryRow>,
    education: Table<EducationRow>,
    skillCategories: Table<SkillCategoryRow>,
    skills: Table<SkillRow>,
    experience: Table<ExperienceRow>,
    accomplishments: Table<AccomplishmentRow>,
    projects: Table<ProjectRow>)

  function EmptyDb(): Db {
    Db(Empty(), Empty(), Empty(), Empty(), Empty(), Empty(), Empty(), Empty(), Empty(), Empty())
  }

  /** Every table well formed and every FOREIGN KEY of the schema satisfied. */
  predicate Consistent(db: Db) {
    && Valid(db.resumes) && Valid(db.personalInfo) && Valid(db.contactDetails) && Valid(db.summary)
    && Valid(db.education) && Valid(db.skillCategories) && Valid(db.skills) && Valid(db.experience)
    && Valid(db.accomplishments) && Valid(db.projects)
    && (forall i :: 0 <= i < |db.personalInfo.rows| ==> db.personalInfo.rows[i].data.resumeId in Ids(db.resumes))
    && (forall i :: 0 <= i < |db.contactDetails.rows| ==> db.contactDetails.rows[i].data.resumeId in Ids(db.resumes))
    && (forall i :: 0 <= i < |db.summary.rows| ==> db.summary.rows[i].data.resumeId in Ids(db.resumes))
    && (forall i :: 0 <= i < |db.education.rows| ==> db.education.rows[i].data.resumeId in Ids(db.resumes))
    && (forall i :: 0 <= i < |db.skillCategories.rows| ==> db.skillCategories.rows[i].data.resumeId in Ids(db.resumes))
    && (forall i :: 0 <= i < |db.skills.rows| ==>
          db.skills.rows[i].data.resumeId in Ids(db.resumes) && db.skills.rows[i].data.categoryId in Ids(db.skillCategories))
    && (forall i :: 0 <= i < |db.experience.rows| ==> db.experience.rows[i].data.resumeId in Ids(db.resumes))
    && (forall i :: 0 <= i < |db.accomplishments.rows| ==>
          db.accomplishments.rows[i].data.resumeId in Ids(db.resumes)
          && db.accomplishments.rows[i].data.experienceId in Ids(db.experience))
    && (forall i :: 0 <= i < |db.projects.rows| ==> db.projects.rows[i].data.resumeId in Ids(db.resumes))
  }

  // The rows the add_* methods write, with the defaults `data.get(key, default)` supplies.

  function EducationRowOf(resumeId: int, d: EducationData): EducationRow {
    EducationRow(resumeId, d.degree, d.institution, d.location, d.dateRange, d.description,
                 d.isVisible.GetOr(1), d.displayOrder.GetOr(0))
  }

  function SkillRowOf(resumeId: int, categoryId: int, d: SkillData): SkillRow {
    SkillRow(resumeId, categoryId, d.name, d.proficiency, d.isVisible.GetOr(1), d.displayOrder.GetOr(0))
  }

  function ExperienceRowOf(resumeId: int, d: ExperienceData): ExperienceRow {
    ExperienceRow(resumeId, d.jobTitle, d.company, d.location, d.dateRange,
                  d.isVisible.GetOr(1), d.displayOrder.GetOr(0))
  }

  function ProjectRowOf(resumeId: int, d: ProjectData): ProjectRow {
    ProjectRow(resumeId, d.title, d.technologies, d.link, d.description,
               d.isVisible.GetOr(1), d.displayOrder.GetOr(0))
  }

  /** The accomplishment list `add_experience` walks: none when the key is
      missing or the list is empty. */
  function AccomplishmentsOf(d: ExperienceData): seq<string> {
    if d.accomplishments.Some? then d.accomplishments.value else []
  }

  /** One visible row per description, numbered by its index in the list. */
  function AccomplishmentRows(resumeId: int, experienceId: int, descs: seq<string>): (rows: seq<AccomplishmentRow>)
    ensures |rows| == |descs|
    ensures forall i :: 0 <= i < |descs| ==> rows[i] == AccomplishmentRow(resumeId, experienceId, descs[i], Some(i), 1)
  {
    seq(|descs|, i requires 0 <= i < |descs| => AccomplishmentRow(resumeId, experienceId, descs[i], Some(i), 1))
  }

  function Repeat(t: TableName, n: nat): (r: seq<TableName>)
    ensures |r| == n && forall i :: 0 <= i < n ==> r[i] == t
  {
    seq(n, _ => t)
  }

  /** The first resume stored for a job id. */
  function FindByJobId(rows: seq<Row<ResumeRow>>, jobId: string): (r: Option<Row<ResumeRow>>)
    ensures r.None? <==> forall i :: 0 <= i < |rows| ==> rows[i].data.jobId != Some(jobId)
    ensures r.Some? ==> r.value in rows && r.value.data.jobId == Some(jobId)
  {
    if rows == [] then None
    else if rows[0].data.jobId == Some(jobId) then Some(rows[0])
    else FindByJobId(rows[1..], jobId)
  }

  /** The resume found for a job id is the earliest row carrying it: the
      returned position. */
  lemma {:induction false} FirstByJobId(rows: seq<Row<ResumeRow>>, jobId: string) returns (k: nat)
    requires FindByJobId(rows, jobId).Some?
    ensures k < |rows| && FindByJobId(rows, jobId) == Some(rows[k])
    ensures forall j :: 0 <= j < k ==> rows[j].data.jobId != Some(jobId)
  {
    if rows[0].data.jobId == Some(jobId) {
      k := 0;
    } else {
      var k' := FirstByJobId(rows[1..], jobId);
      k := k' + 1;
    }
  }

  lemma IdsOfRows<R>(t: Table<R>, row: Row<R>)
    requires row in t.rows
    ensures row.id in Ids(t)
  {
  }

  /** One more accomplishment written after the first `idx` extends the rows and the log by one. */
  lemma AccomplishmentsLoopStep(start: Db, db0: Db, db1: Db, l: seq<TableName>, l0: seq<TableName>, l1: seq<TableName>,
                                resumeId: int, expId: int, descs: seq<string>, idx: int)
    requires 0 <= idx < |descs|
    requires db0 == start.(accomplishments := InsertAll(start.accomplishments, AccomplishmentRows(resumeId, expId, descs[..idx])))
    requires db1 == db0.(accomplishments := Insert(db0.accomplishments, AccomplishmentRow(resumeId, expId, descs[idx], Some(idx), 1)))
    requires l0 == l + Repeat(AccomplishmentsTable, idx) && l1 == l0 + [AccomplishmentsTable]
    ensures db1 == start.(accomplishments := InsertAll(start.accomplishments, AccomplishmentRows(resumeId, expId, descs[..idx + 1])))
    ensures l1 == l + Repeat(AccomplishmentsTable, idx + 1)
  {
    var row := AccomplishmentRow(resumeId, expId, descs[idx], Some(idx), 1);
    InsertAllAppend(start.accomplishments, AccomplishmentRows(resumeId, expId, descs[..idx]), [row]);
    assert AccomplishmentRows(resumeId, expId, descs[..idx + 1]) == AccomplishmentRows(resumeId, expId, descs[..idx]) + [row];
    assert Repeat(AccomplishmentsTable, idx + 1) == Repeat(AccomplishmentsTable, idx) + [AccomplishmentsTable];
  }

  class ResumeRepository {
    var db: Db
    ghost var log: seq<TableName>

    ghost predicate Valid()
      reads this
    {
      Consistent(db)
    }

    constructor ()
      ensures Valid() && db == EmptyDb() && log == []
    {
      db := EmptyDb();
      log := [];
    }

    predicate HasResume(resumeId: int)
      reads this
    {
      resumeId in Ids(db.resumes)
    }

    /** `get_resume_by_job_id` */
    function ResumeByJobId(jobId: string): (r: Option<Row<ResumeRow>>)
      reads this
      ensures r.Some? ==> r.value in db.resumes.rows && r.value.data.jobId == Some(jobId)
      ensures r.None? <==> forall i :: 0 <= i < |db.resumes.rows| ==> db.resumes.rows[i].data.jobId != Some(jobId)
    {
      FindByJobId(db.resumes.rows, jobId)
    }

    method CreateResume(name: string, description: Option<string>, jobId: Option<string>) returns (id: int)
      requires Valid()
      modifies this
      ensures Valid()
      ensures id == old(db.resumes.next) && id !in Ids(old(db.resumes)) && HasResume(id)
      ensures db == old(db).(resumes := Insert(old(db.resumes), ResumeRow(name, description, jobId)))
      ensures log == old(log) + [ResumesTable]
    {
      id := db.resumes.next;
      InsertAllValid(db.resumes, [ResumeRow(name, description, jobId)]);
      db := db.(resumes := Insert(db.resumes, ResumeRow(name, description, jobId)));
      log := log + [ResumesTable];
    }

    method AddPersonalInfo(resumeId: int, name: string, contactInfo: string) returns (r: Result<int>)
      requires Valid()
      modifies this
      ensures Valid()
      ensures !old(HasResume(resumeId)) ==> r == Err(ForeignKeyViolation("personal_info")) && db == old(db) && log == old(log)
      ensures old(HasResume(resumeId)) ==>
        && r == Ok(old(db.personalInfo.next)) && r.value !in Ids(old(db.personalInfo))
        && db == old(db).(personalInfo := Insert(old(db.personalInfo), PersonalInfoRow(resumeId, name, contactInfo)))
        && log == old(log) + [PersonalInfoTable]
    {
      if !HasResume(resumeId) {
        return Err(ForeignKeyViolation("personal_info"));
      }
      r := Ok(db.personalInfo.next);
      InsertAllValid(db.personalInfo, [PersonalInfoRow(resumeId, name, contactInfo)]);
      db := db.(personalInfo := Insert(db.personalInfo, PersonalInfoRow(resumeId, name, contactInfo)));
      log := log + [PersonalInfoTable];
    }

    /** `add_personal_info_detail` */
    method AddPersonalInfoDetail(resumeId: int, detailName: string, detailIcon: string, detailInfo: string)
      returns (r: Result<int>)
      requires Valid()
      modifies this
      ensures Valid()
      ensures !old(HasResume(resumeId)) ==> r == Err(ForeignKeyViolation("contact_details")) && db == old(db) && log == old(log)
      ensures old(HasResume(resumeId)) ==>
        && r == Ok(old(db.contactDetails.next)) && r.value !in Ids(old(db.contactDetails))
        && db == old(db).(contactDetails := Insert(old(db.contactDetails), ContactDetailRow(resumeId, detailName, detailIcon, detailInfo)))
        && log == old(log) + [ContactDetailsTable]
    {
      if !HasResume(resumeId) {
        return Err(ForeignKeyViolation("contact_details"));
      }
      var row := ContactDetailRow(resumeId, detailName, detailIcon, detailInfo);
      r := Ok(db.contactDetails.next);
      InsertAllValid(db.contactDetails, [row]);
      db := db.(contactDetails := Insert(db.contactDetails, row));
      log := log + [ContactDetailsTable];
    }

    method AddSummary(resumeId: int, content: string) returns (r: Result<int>)
      requires Valid()
      modifies this
      ensures Valid()
      ensures !old(HasResume(resumeId)) ==> r == Err(ForeignKeyViolation("summary")) && db == old(db) && log == old(log)
      ensures old(HasResume(resumeId)) ==>
        && r == Ok(old(db.summary.next)) && r.value !in Ids(old(db.summary))
        && db == old(db).(summary := Insert(old(db.summary), SummaryRow(resumeId, content)))
        && log == old(log) + [SummaryTable]
    {
      if !HasResume(resumeId) {
        return Err(ForeignKeyViolation("summary"));
      }
      r := Ok(db.summary.next);
      InsertAllValid(db.summary, [SummaryRow(resumeId, content)]);
      db := db.(summary := Insert(db.summary, SummaryRow(resumeId, content)));
      log := log + [SummaryTable];
    }

    method AddEducation(resumeId: int, data: EducationData) returns (r: Result<int>)
      requires Valid()
      modifies this
      ensures Valid()
      ensures !old(HasResume(resumeId)) ==> r == Err(ForeignKeyViolation("education")) && db == old(db) && log == old(log)
      ensures old(HasResume(resumeId)) ==>
        && r == Ok(old(db.education.next)) && r.value !in Ids(old(db.education))
        && db == old(db).(education := Insert(old(db.education), EducationRowOf(resumeId, data)))
        && log == old(log) + [EducationTable]
    {
      if !HasResume(resumeId) {
        return Err(ForeignKeyViolation("education"));
      }
      r := Ok(db.education.next);
      InsertAllValid(db.education, [EducationRowOf(resumeId, data)]);
      db := db.(education := Insert(db.education, EducationRowOf(resumeId, data)));
      log := log + [EducationTable];
    }

    method AddSkillCategory(resumeId: int, name: string, displayOrder: Option<int>) returns (r: Result<int>)
      requires Valid()
      modifies this
      ensures Valid()
      ensures !old(HasResume(resumeId)) ==> r == Err(ForeignKeyViolation("skill_categories")) && db == old(db) && log == old(log)
      ensures old(HasResume(resumeId)) ==>
        && r == Ok(old(db.skillCategories.next)) && r.value !in Ids(old(db.skillCategories))
        && db == old(db).(skillCategories := Insert(old(db.skillCategories), SkillCategoryRow(resumeId, name, displayOrder, 1)))
        && log == old(log) + [SkillCategoriesTable]
    {
      if !HasResume(resumeId) {
        return Err(ForeignKeyViolation("skill_categories"));
      }
      var row := SkillCategoryRow(resumeId, name, displayOrder, 1);
      r := Ok(db.skillCategories.next);
      InsertAllValid(db.skillCategories, [row]);
      db := db.(skillCategories := Insert(db.skillCategories, row));
      log := log + [SkillCategoriesTable];
    }

    method AddSkill(resumeId: int, categoryId: int, data: SkillData) returns (r: Result<int>)
      requires Valid()
      modifies this
      ensures Valid()
      ensures !(old(HasResume(resumeId)) && categoryId in Ids(old(db.skillCategories))) ==>
        r == Err(ForeignKeyViolation("skills")) && db == old(db) && log == old(log)
      ensures old(HasResume(resumeId)) && categoryId in Ids(old(db.skillCategories)) ==>
        && r == Ok(old(db.skills.next)) && r.value !in Ids(old(db.skills))
        && db == old(db).(skills := Insert(old(db.skills), SkillRowOf(resumeId, categoryId, data)))
        && log == old(log) + [SkillsTable]
    {
      if !HasResume(resumeId) || categoryId !in Ids(db.skillCategories) {
        return Err(ForeignKeyViolation("skills"));
      }
      r := Ok(db.skills.next);
      InsertAllValid(db.skills, [SkillRowOf(resumeId, categoryId, data)]);
      db := db.(skills := Insert(db.skills, SkillRowOf(resumeId, categoryId, data)));
      log := log + [SkillsTable];
    }

    method AddJobAccomplishment(resumeId: int, experienceId: int, description: string, displayOrder: Option<int>)
      returns (r: Result<int>)
      requires Valid()
      modifies this
      ensures Valid()
      ensures !(old(HasResume(resumeId)) && experienceId in Ids(old(db.experience))) ==>
        r == Err(ForeignKeyViolation("job_accomplishments")) && db == old(db) && log == old(log)
      ensures old(HasResume(resumeId)) && experienceId in Ids(old(db.experience)) ==>
        && r == Ok(old(db.accomplishments.next)) && r.value !in Ids(old(db.accomplishments))
        && db == old(db).(accomplishments := Insert(old(db.accomplishments),
                                                    AccomplishmentRow(resumeId, experienceId, description, displayOrder, 1)))
        && log == old(log) + [AccomplishmentsTable]
    {
      if !HasResume(resumeId) || experienceId !in Ids(db.experience) {
        return Err(ForeignKeyViolation("job_accomplishments"));
      }
      var row := AccomplishmentRow(resumeId, experienceId, description, displayOrder, 1);
      r := Ok(db.accomplishments.next);
      InsertAllValid(db.accomplishments, [row]);
      db := db.(accomplishments := Insert(db.accomplishments, row));
      log := log + [AccomplishmentsTable];
    }

    /** One experience row, then one accomplishment row per listed description,
        numbered by its index. */
    method AddExperience(resumeId: int, data: ExperienceData) returns (r: Result<int>)
      requires Valid()
      modifies this
      ensures Valid()
      ensures !old(HasResume(resumeId)) ==> r == Err(ForeignKeyViolation("experience")) && db == old(db) && log == old(log)
      ensures old(HasResume(resumeId)) ==>
        && r == Ok(old(db.experience.next)) && r.value !in Ids(old(db.experience))
        && db == old(db).(experience := Insert(old(db.experience), ExperienceRowOf(resumeId, data)),
                          accomplishments := InsertAll(old(db.accomplishments),
                                                       AccomplishmentRows(resumeId, r.value, AccomplishmentsOf(data))))
        && log == old(log) + [ExperienceTable] + Repeat(AccomplishmentsTable, |AccomplishmentsOf(data)|)
    {
      if !HasResume(resumeId) {
        return Err(ForeignKeyViolation("experience"));
      }
      var expId := db.experience.next;
      InsertAllValid(db.experience, [ExperienceRowOf(resumeId, data)]);
      db := db.(experience := Insert(db.experience, ExperienceRowOf(resumeId, data)));
      log := log + [ExperienceTable];
      assert HasResume(resumeId);
      InsertAllValid(old(db.experience), [ExperienceRowOf(resumeId, data)]);
      // `if 'accomplishments' in data and data['accomplishments']`
      if data.accomplishments.Some? && |data.accomplishments.value| > 0 {
        AddAccomplishments(resumeId, expId, data.accomplishments.value);
      } else {
        InsertAllNothing(db.accomplishments);
        assert AccomplishmentRows(resumeId, expId, AccomplishmentsOf(data)) == [];
        assert Repeat(AccomplishmentsTable, 0) == [];
      }
      r := Ok(expId);
    }

    /** The accomplishments loop of `add_experience`: one row per description,
        its index as the display order. */
    method AddAccomplishments(resumeId: int, expId: int, descs: seq<string>)
      requires Valid() && HasResume(resumeId) && expId in Ids(db.experience)
      modifies this
      ensures Valid()
      ensures db == old(db).(accomplishments := InsertAll(old(db.accomplishments), AccomplishmentRows(resumeId, expId, descs)))
      ensures log == old(log) + Repeat(AccomplishmentsTable, |descs|)
    {
      ghost var start := db;
      ghost var startLog := log;
      InsertAllNothing(start.accomplishments);
      for idx := 0 to |descs|
        invariant Valid() && HasResume(resumeId) && expId in Ids(db.experience)
        invariant db == start.(accomplishments := InsertAll(start.accomplishments, AccomplishmentRows(resumeId, expId, descs[..idx])))
        invariant log == startLog + Repeat(AccomplishmentsTable, idx)
      {
        ghost var db0, l0 := db, log;
        var added := AddJobAccomplishment(resumeId, expId, descs[idx], Some(idx));
        AccomplishmentsLoopStep(start, db0, db, startLog, l0, log, resumeId, expId, descs, idx);
      }
      assert descs[..|descs|] == descs;
    }

    method AddProject(resumeId: int, data: ProjectData) returns (r: Result<int>)
      requires Valid()
      modifies this
      ensures Valid()
      ensures !old(HasResume(resumeId)) ==> r == Err(ForeignKeyViolation("projects")) && db == old(db) && log == old(log)
      ensures old(HasResume(resumeId)) ==>
        && r == Ok(old(db.projects.next)) && r.value !in Ids(old(db.projects))
        && db == old(db).(projects := Insert(old(db.projects), ProjectRowOf(resumeId, data)))
        && log == old(log) + [ProjectsTable]
    {
      if !HasResume(resumeId) {
        return Err(ForeignKeyViolation("projects"));
      }
      r := Ok(db.projects.next);
      InsertAllValid(db.projects, [ProjectRowOf(resumeId, data)]);
      db := db.(projects := Insert(db.projects, ProjectRowOf(resumeId, data)));
      log := log + [ProjectsTable];
    }
  }
}
