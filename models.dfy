/**
 * The record types of app/models.py, and those the orchestrator imports from
 * it under names that file does not define (Company, Job, ParsedBackground and
 * the generator outputs), shaped after the attributes their call sites use.
 * `Optional[...]` becomes `Option<...>`; `ResumeSection.priority` (a float)
 * and `AIResumeContent` are not part of this model.
 */
module Models {
  import opened Wrappers

  datatype JobAnalysis = JobAnalysis(
    companyName: string,
    aboutBusiness: string,
    qualifications: string,
    skills: string,
    jobDescription: string)

  datatype Skill = Skill(name: string, proficiency: Option<int>)

  datatype SkillCategory = SkillCategory(name: string, skills: seq<Skill>)

  datatype Experience = Experience(
    jobTitle: string,
    company: string,
    location: Option<string>,
    dateRange: Option<string>,
    accomplishments: seq<string>)

  datatype Education = Education(
    degree: string,
    institution: string,
    location: Option<string>,
    dateRange: Option<string>,
    description: Option<string>)

  datatype Project = Project(
    title: string,
    technologies: Option<string>,
    link: Option<string>,
    description: Option<string>)

  /** An experience entry as the experience generator returns it: with the
      `display_order` it assigned. */
  datatype GeneratedExperience = GeneratedExperience(
    jobTitle: string,
    company: string,
    location: Option<string>,
    dateRange: Option<string>,
    displayOrder: int,
    accomplishments: seq<string>)

  /** One labelled contact entry of the parsed background ("Email", "Phone", ...). */
  datatype ContactDetail = ContactDetail(detailName: string, detailIcon: string, detailInfo: string)

  datatype PersonalInfo = PersonalInfo(name: string, contactDetails: seq<ContactDetail>)

  /** The part of the background parser's output that is stored as is; the
      work, education, skill and project histories only feed the generators'
      prompts. */
  datatype ParsedBackground = ParsedBackground(personalInfo: PersonalInfo)

  /** The fields the job analyzer's output may carry; `None` is an attribute the
      output does not have (`hasattr` is false). */
  datatype CompanyAnalysis = CompanyAnalysis(
    companyName: Option<string>,
    about: Option<string>,
    requiredEducation: Option<string>,
    requiredExperience: Option<string>,
    requiredSkills: Option<string>)

  /** A scraped job posting (app.models.Job). */
  datatype Job = Job(
    id: string,
    title: string,
    company: string,
    location: string,
    description: string,
    seniorityLevel: string,
    applicationUrl: string,
    applied: bool,
    scrapedDate: string)

  /** A job's company and requirements (app.models.Company): built by the main
      script, then filled in place by the job analysis. */
  class Company {
    var name: string
    var jobTitle: string
    var jobDescription: string
    var location: string
    var applicationUrl: string
    var seniorityLevel: string
    var about: Option<string>
    var requiredEducation: Option<string>
    var requiredExperience: Option<string>
    var requiredSkills: Option<string>

    constructor (name: string, jobTitle: string, jobDescription: string,
                 location: string, applicationUrl: string, seniorityLevel: string)
      ensures this.name == name && this.jobTitle == jobTitle && this.jobDescription == jobDescription
      ensures this.location == location && this.applicationUrl == applicationUrl
      ensures this.seniorityLevel == seniorityLevel
      ensures about == None && requiredEducation == None
      ensures requiredExperience == None && requiredSkills == None
    {
      this.name := name;
      this.jobTitle := jobTitle;
      this.jobDescription := jobDescription;
      this.location := location;
      this.applicationUrl := applicationUrl;
      this.seniorityLevel := seniorityLevel;
      about, requiredEducation, requiredExperience, requiredSkills := None, None, None, None;
    }
  }
}
