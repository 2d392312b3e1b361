# resume_builder_backend, modelled in Dafny

resume_builder_backend turns scraped job postings into targeted resumes stored in SQLite.

- A LinkedIn scraper builds the listing query's filter parameters from the search options. It collects job ids page by page up to `max_results`, then fetches each job's details.
- A job-search agent runs a list of generated queries through the scraper and keeps the first job seen for each id. It stores the new jobs in the `jobs` table and writes the jobs that have a description to a JSON listing.
- The main script walks a list of job entries. It keeps the complete "Mid-Senior level" ones and stores each as a job. It builds a `Company` from the job, lets the job analysis fill the company in, stores it, and asks the resume builder for a targeted resume. It collects one `(job, resume)` record per accepted entry.
- The resume builder (`AIResumeBuilder.create_resume`) writes the resume shell first: the resume row, the personal info and one row per contact detail. It then writes the summary, the skill categories with their skills, the experiences with their accomplishments, the education entries and the projects, each from what a language-model agent produced.
- Three repositories hold the tables:
  - `ResumeRepository`: the resume tables, with foreign keys enforced;
  - `CompanyRepository`: the `company` table;
  - `JobRepository`: the `jobs` table, keyed by the job's id.
- Two schema utilities:
  - one lists two databases' user tables and compares their column descriptors;
  - one derives a pydantic model per table: one field per column except an INTEGER primary key. Every field's default is `None`, so the model does not store it.

The model has one module per source file, plus shared modules:

- `Wrappers`: Option, Result and the error kinds;
- `Text`: Python's `strip`, `lower`, `upper`, `split`, `join`, `title`, `replace` and `str(n)`, on ASCII text;
- `Sequences`: filtered list comprehensions;
- `Tables`: an AUTOINCREMENT table as a value;
- `Models`: the records of app/models.py, plus `Job` and `Company`;
- `JobRecords`: the loosely typed job dict;
- `SchemaInfo`: the `table_info`/`sqlite_master` reading that both schema utilities share.

The repositories are classes whose methods update their tables in place. Each of these methods states its new state exactly. The loops of `create_resume`, `add_experience`, `execute_job_search`, `save_jobs_to_database`, `search_jobs`, `create_pydantic_model` and the main script are methods with loop invariants. Each is proved against a function on values, and the properties of that function are lemmas.

What the language models return is a parameter:

- the job analysis;
- the parsed background and the generated sections;
- the search queries.

The clock reading (`datetime.now()`) is a parameter, as is what the scraper's HTTP requests return.

Where the code and its intent disagree, the model follows the code and the section "Findings" says so. Two examples:

- The job-search agent de-duplicates on `job['id']`, but the scraper's records carry `job_id`.
- `create_resume` reads `company_data['job_title']`, but `get_company` does not return that key.

The main script is modelled over the corrected versions.

## Model

| member | source | states |
|---|---|---|
| `Tables.Find` | app/db/company_repository.py:79-93 | the row lookup `SELECT ... WHERE id = ?`: `None` exactly for an id the table does not hold; otherwise the data the table holds under that id |
| `Tables.InsertAllValid` | app/db/repository.py:27-40 | inserting rows keeps the ids positive, increasing and below the next id; afterwards the ids are the old ones plus the ones just handed out |
| `Tables.InsertFresh` | app/db/repository.py:35-37 | the id an insert hands out (`lastrowid`) was not in the table; the new row is found under it; all other lookups are unchanged |
| `Tables.FindInserted` | app/db/repository.py:160-171 | the k-th of a batch of inserts is found under the k-th id handed out |
| `Tables.InsertAllAppend` | app/db/repository.py:164-171 | two batches of inserts one after the other are one batch |
| `Text.Strip` | main.py:106 | `str.strip()`: no whitespace at either end of the result |
| `Text.StripIsSlice` | main.py:106 | the stripped text is a slice of the input, with only whitespace cut off around it |
| `Text.StripIdempotent` | main.py:106 | stripping twice is stripping once |
| `Text.StripLeft` | app/job_search_agent.py:92 | `lstrip()`: the result is a suffix of the input and does not start with whitespace |
| `Text.StripRight` | app/job_search_agent.py:92 | `rstrip()`: the result is a prefix of the input and does not end with whitespace |
| `Text.Lower` | linkedin_job_description_scrapper.py:58 | `lower()` on ASCII: same length, each character lower-cased on its own |
| `Text.Upper` | app/db/database.py:71 | `upper()` on ASCII: same length, each character upper-cased on its own |
| `Text.Split` | linkedin_job_description_scrapper.py:126 | `s.split(c)`: at least one piece |
| `Text.SplitJoin` | linkedin_job_description_scrapper.py:67 | joining pieces free of a one-character separator, then splitting on it, gives the pieces back |
| `Text.SplitConcat` | linkedin_job_description_scrapper.py:126 | splitting at a separator splits the two sides independently |
| `Text.SplitPiecesFree` | linkedin_job_description_scrapper.py:126 | no piece of a split holds the separator, so `split(":")[-1]` holds no colon |
| `Text.NatToString` | app/job_search_agent.py:156 | `str(i)` for a natural number: non-empty decimal digits |
| `Text.ParseNatToString` | app/job_search_agent.py:156 | reading the digits back gives the number |
| `Text.NatToStringInjective` | linkedin_job_description_scrapper.py:248 | different positions give different default ids |
| `Text.TitleAfter` | app/db/database.py:82 | `title()` keeps the length |
| `Text.RemoveChar` | app/db/database.py:82 | `replace(c, '')`: the character no longer occurs |
| `Text.TitleAfterConcat` | app/db/database.py:82 | title-casing a concatenation continues in the second part from the last character of the first |
| `Text.RemoveCharConcat` | app/db/database.py:82 | removing a character from a concatenation removes it from both parts |
| `Text.RemoveCharAbsent` | app/db/database.py:82 | removing a character the string does not hold changes nothing |
| `Sequences.FilterMapSound` | app/ai_resume_builder.py:530-534 | each value of a filtered comprehension comes from an element in the filter, at a returned position |
| `Sequences.FilterMapComplete` | app/ai_resume_builder.py:530-534 | each element in the filter contributes its value |
| `Sequences.FilterMapAppend` | app/ai_resume_builder.py:530-534 | a filtered comprehension keeps input order: over a concatenation it is the concatenation of the two results |
| `Models.Company.constructor` | main.py:132-139 | a company holds the job's name, title, description, location, URL and seniority; its four analysis fields are unset |
| `ResumeStore.ResumeRepository.constructor` | app/db/repository.py:6-10 | a repository starts with empty, consistent tables |
| `ResumeStore.ResumeRepository.CreateResume` | app/db/repository.py:27-40 | one resume row with the name, description and job id, under a fresh id that is returned; no other table changes |
| `ResumeStore.ResumeRepository.AddPersonalInfo` | app/db/repository.py:42-55 | one personal-info row with a fresh id that is returned; an unknown resume id is a foreign-key error with nothing written |
| `ResumeStore.ResumeRepository.AddPersonalInfoDetail` | app/ai_resume_builder.py:544-550 | one contact-detail row per call with a fresh id; an unknown resume is a foreign-key error with nothing written |
| `ResumeStore.ResumeRepository.AddSummary` | app/db/repository.py:57-70 | one summary row with a fresh id; an unknown resume is a foreign-key error with nothing written |
| `ResumeStore.ResumeRepository.AddEducation` | app/db/repository.py:72-98 | one education row; absent `is_visible` becomes 1 and absent `display_order` becomes 0; an unknown resume is an error with nothing written |
| `ResumeStore.ResumeRepository.AddSkillCategory` | app/db/repository.py:100-114 | one visible category row whose display order is the one given, and NULL when none is given; an unknown resume is an error |
| `ResumeStore.ResumeRepository.AddSkill` | app/db/repository.py:116-139 | one skill row keeping the given proficiency even when absent, visible 1 and order 0 by default; an unknown resume or category is an error with nothing written |
| `ResumeStore.ResumeRepository.AddJobAccomplishment` | app/db/repository.py:179-195 | one visible accomplishment row; an unknown resume or experience is an error with nothing written |
| `ResumeStore.ResumeRepository.AddExperience` | app/db/repository.py:141-177 | one experience row under a fresh id, then one accomplishment row per listed description, in order; none when the list is missing or empty; an unknown resume is an error with nothing written |
| `ResumeStore.ResumeRepository.AddAccomplishments` | app/db/repository.py:164-171 | the `enumerate` loop writes the accomplishments in order; each carries the new experience id and its index as display order |
| `ResumeStore.ResumeRepository.AddProject` | app/db/repository.py:197-221 | one project row with the visible 1 and order 0 defaults; an unknown resume is an error with nothing written |
| `ResumeStore.ResumeRepository.ResumeByJobId` | app/ai_resume_builder.py:504-507 | the resume stored for a job id, if any; `None` exactly when no resume row carries that job id |
| `ResumeStore.FindByJobId` | app/ai_resume_builder.py:504 | a stored resume row carrying the job id; `None` exactly when no row carries it |
| `ResumeStore.FirstByJobId` | app/ai_resume_builder.py:504-507 | the row found is the earliest row carrying the job id: no row before it carries that id |
| `ResumeStore.AccomplishmentRows` | app/db/repository.py:165-171 | one visible row per description; the k-th has display order k |
| `ResumeStore.AccomplishmentsLoopStep` | app/db/repository.py:165-171 | one more turn of the accomplishments loop extends the rows and the write log by one |
| `CompanyStore.RowFor` | app/db/company_repository.py:62-68 | the row `add_company` writes: `name` and `job_description` are required (a missing `name` is reported first); the three optional fields are NULL when absent |
| `CompanyStore.GetAfterAdd` | app/db/company_repository.py:76-92 | `get_company` of the id `add_company(d)` returned gives d's five fields, absent ones as NULL; other ids read as before |
| `CompanyStore.NeverIssued` | app/db/company_repository.py:93 | an id that no insert handed out reads as `None` |
| `CompanyStore.CompanyRepository.constructor` | app/db/company_repository.py:6-10 | the repository starts with an empty company table |
| `CompanyStore.CompanyRepository.AddCompany` | app/db/company_repository.py:52-74 | a well-formed dict adds one row under a fresh id that is returned; a missing required key is the `KeyError`, and the table is unchanged (rolled back) |
| `CompanyStore.CompanyRepository.GetCompany` | app/db/company_repository.py:76-93 | the stored row for a known id, `None` for any other; a function of the table, so it changes nothing |
| `CompanyStore.CompanyRepository.Create` | app/ai_resume_builder.py:489 | `company_repo.create(company)` stores the company's name, about, required education, required skills and job description as one new row under a fresh id; the table has no column for required experience, so it is not stored |
| `JobStore.AppliedPatch` | app/db/job_repository.py:115 | `{"applied": True}` is a non-empty update |
| `JobStore.PatchKeepsId` | app/db/job_repository.py:89-96 | an update never changes the job's id, and applying it twice is applying it once |
| `JobStore.PatchFrames` | app/db/job_repository.py:113-115 | an update that names no column changes nothing; `{"applied": True}` changes only the flag |
| `JobStore.JobRepository.constructor` | app/db/job_repository.py:7-9 | the repository starts with no jobs |
| `JobStore.JobRepository.Create` | app/db/job_repository.py:26-59 | returns True exactly for a new id, and then stores the job as given; a known id returns False with the store unchanged, so a second create is a no-op |
| `JobStore.JobRepository.Get` | app/db/job_repository.py:61-70 | the stored job for a known id, `None` otherwise |
| `JobStore.JobRepository.GetAll` | app/db/job_repository.py:72-80 | every stored job exactly once, and nothing else |
| `JobStore.JobRepository.Update` | app/db/job_repository.py:82-100 | an empty update is malformed SQL; otherwise only the named columns of that one job change, and the result says whether it existed |
| `JobStore.JobRepository.Delete` | app/db/job_repository.py:102-111 | removes that job only; the result says whether it existed |
| `JobStore.JobRepository.MarkAsApplied` | app/db/job_repository.py:113-115 | sets only the applied flag of that job; the result says whether it existed |
| `JobStore.JobRepository.GetApplicationUrl` | app/db/job_repository.py:117-126 | the stored URL of a known job, `None` otherwise |
| `ResumeBuilder.Merged` | app/ai_resume_builder.py:477-486 | each of about, required education, required experience and required skills is overwritten only when the analysis has it; the name is taken from the analysis only when the company has none, and stays empty when neither has one; the job fields stay |
| `ResumeBuilder.MergeIdempotent` | app/ai_resume_builder.py:477-486 | merging the same analysis twice is merging once; an analysis with no fields leaves the company as it was |
| `ResumeBuilder.JobAnalysisMergesOnlyName` | app/models.py:4-10 | with the analyzer's declared output type, which only has `company_name` of the five attributes checked, the merge can only fill in an empty name |
| `ResumeBuilder.Description` | app/ai_resume_builder.py:519-521 | the description starts with "Targeted resume for position at " and the company name |
| `ResumeBuilder.DescriptionRoundTrip` | app/ai_resume_builder.py:519-521 | the application URL can be read back from the description exactly when it was non-empty |
| `ResumeBuilder.PrimaryContactsExact` | app/ai_resume_builder.py:530-535 | `contact_info` lists the info of exactly the Email and Phone contacts, in their order |
| `ResumeBuilder.PrimaryContactsSound` | app/ai_resume_builder.py:530-534 | every entry of `contact_info` is the info of an Email or Phone contact |
| `ResumeBuilder.ContactRows` | app/ai_resume_builder.py:544-550 | one detail row per parsed contact, in order, with its name, icon and info |
| `ResumeBuilder.CategoryRows` | app/ai_resume_builder.py:572-576 | one visible category row per generated category, in order, with no display order |
| `ResumeBuilder.CategorySkillRows` | app/ai_resume_builder.py:577-582 | one skill row per skill of a category, with its name and proficiency, under that category's id |
| `ResumeBuilder.SkillRowsSound` | app/ai_resume_builder.py:572-582 | every skill row stores a skill of the category whose new id it carries |
| `ResumeBuilder.SkillRowsComplete` | app/ai_resume_builder.py:572-582 | every skill of every category has its row, under that category's id |
| `ResumeBuilder.SkillRowSound` | app/ai_resume_builder.py:577-582 | a single skill row stores a skill of its own category |
| `ResumeBuilder.SkillIndex` | app/ai_resume_builder.py:581 | a skill row holds the copied name and proficiency of a skill, the resume id, visible 1 and order 0 |
| `ResumeBuilder.SkillsWired` | app/ai_resume_builder.py:572-582 | each skill row's category id is the fresh id of the category row written for its own category, and that row holds the category's name |
| `ResumeBuilder.SkillsStep` | app/ai_resume_builder.py:572-582 | one more category appends its row, its skill rows and its log entries |
| `ResumeBuilder.ExperienceRows` | app/ai_resume_builder.py:607-616 | one experience row per generated experience, in order, with the generator's display order |
| `ResumeBuilder.AccomplishmentRowsSound` | app/ai_resume_builder.py:607-616 | every accomplishment row is the j-th accomplishment, with order j, of the experience whose id it carries |
| `ResumeBuilder.AccomplishmentRowsComplete` | app/ai_resume_builder.py:607-616 | every accomplishment of every experience has its row under that experience's id |
| `ResumeBuilder.ExperiencesStep` | app/ai_resume_builder.py:607-616 | one more experience appends its row, its accomplishment rows and its log entries |
| `ResumeBuilder.ExperiencesWired` | app/ai_resume_builder.py:607-616 | the k-th experience is found under the k-th fresh id, visible, with the generator's title, company, place, dates and display order |
| `ResumeBuilder.EducationRows` | app/ai_resume_builder.py:642-650 | one education row per generated entry, in order, with the defaults visible 1 and order 0 |
| `ResumeBuilder.ProjectRows` | app/ai_resume_builder.py:675-682 | one project row per generated project, in order, with the defaults visible 1 and order 0 |
| `ResumeBuilder.BuiltSectionDefaults` | app/ai_resume_builder.py:642-682 | every education and project row the builder writes has display order 0 and is visible |
| `ResumeBuilder.SkillsLogSections` | app/ai_resume_builder.py:572-582 | the skill loop writes only section tables |
| `ResumeBuilder.ExperiencesLogSections` | app/ai_resume_builder.py:607-616 | the experience loop writes only section tables |
| `ResumeBuilder.ShellBeforeSections` | app/ai_resume_builder.py:524-563 | the resume row is written first and the personal info second, and every shell row comes before every section row |
| `ResumeBuilder.CreatedIsFound` | app/ai_resume_builder.py:504-507 | after a resume is created for a new job id, it is the one found for that id, so a repeated `create_resume` returns it; job ids stay unique |
| `ResumeBuilder.FindAppended` | app/ai_resume_builder.py:504 | a resume row appended for a job id without one is found for it |
| `ResumeBuilder.BuiltResume` | app/ai_resume_builder.py:524-528 | the one new resume row is "Resume for" the company, with the targeted description and the job id, under a fresh id, and it is the one found for the job id |
| `ResumeBuilder.ResumeInserted` | app/ai_resume_builder.py:524-528 | inserting the resume of a new job id appends exactly that row and keeps job ids unique |
| `ResumeBuilder.BuiltTables` | app/ai_resume_builder.py:524-682 | the store after `create_resume`, table by table: each table gains exactly the rows of its section |
| `ResumeBuilder.ShellInOrder` | app/ai_resume_builder.py:524-550 | the resume row, the personal info and the contact rows, written one after the other, make up the shell |
| `ResumeBuilder.BuiltInOrder` | app/ai_resume_builder.py:524-682 | the shell followed by the sections makes up the built store and its write log |
| `ResumeBuilder.SectionsInOrder` | app/ai_resume_builder.py:562-682 | summary, skills, experiences, education and projects, written in that order, make up the sections |
| `ResumeBuilder.SkillsLoopStep` | app/ai_resume_builder.py:572-582 | one turn of the category loop on the store as a value |
| `ResumeBuilder.ExperiencesLoopStep` | app/ai_resume_builder.py:607-616 | one turn of the experience loop on the store as a value |
| `ResumeBuilder.JobTitleNeverPresent` | app/ai_resume_builder.py:554 | the dict `get_company` returns for any stored company has exactly the keys name, about_business, qualifications, skills and job_description, so the `job_title` key the summary prompt reads is never among them |
| `ResumeBuilder.AIResumeBuilder.constructor` | app/ai_resume_builder.py:20-23 | the builder owns fresh, empty company and resume repositories |
| `ResumeBuilder.AIResumeBuilder.AnalyzeJobDescription` | app/ai_resume_builder.py:445-459 | the analysis's name, about, qualifications and skills and the original text are stored as one company under a fresh id that is returned |
| `ResumeBuilder.AIResumeBuilder.AnalyzeJobDescriptionWithCompany` | app/ai_resume_builder.py:461-494 | the company object is updated in place by the merge rule and then stored as one new row under a fresh id |
| `ResumeBuilder.AIResumeBuilder.CreateResume` | app/ai_resume_builder.py:496-684 | an unknown company is an error before anything is read or written; a job that already has a resume returns that id with nothing written; otherwise the shell and all sections are written, in order, under a fresh id that is returned |
| `ResumeBuilder.AIResumeBuilder.CreateResumeAsWritten` | app/ai_resume_builder.py:553-554 | as written: once the shell is stored, the summary prompt's `company_data['job_title']` raises `KeyError`, so no section row is ever written |
| `ResumeBuilder.AIResumeBuilder.WriteShell` | app/ai_resume_builder.py:519-550 | the resume row, its personal info with the primary contacts and one detail row per contact |
| `ResumeBuilder.AIResumeBuilder.AddContacts` | app/ai_resume_builder.py:544-550 | the contact loop writes one detail row per contact, in order |
| `ResumeBuilder.AIResumeBuilder.WriteSections` | app/ai_resume_builder.py:562-682 | the summary, then the skills, experiences, education and projects of the resume |
| `ResumeBuilder.AIResumeBuilder.AddSkills` | app/ai_resume_builder.py:572-582 | the category loop: each category's row, then its skills under its new id |
| `ResumeBuilder.AIResumeBuilder.AddCategory` | app/ai_resume_builder.py:573-582 | one category row, whose fresh id is returned, then its skills under that id |
| `ResumeBuilder.AIResumeBuilder.AddCategorySkills` | app/ai_resume_builder.py:577-582 | the skill loop of one category writes one row per skill, in order |
| `ResumeBuilder.AIResumeBuilder.AddExperiences` | app/ai_resume_builder.py:607-616 | the experience loop: each experience row with its accomplishment rows |
| `ResumeBuilder.AIResumeBuilder.AddEducations` | app/ai_resume_builder.py:642-650 | one education row per generated entry, in order |
| `ResumeBuilder.AIResumeBuilder.AddProjects` | app/ai_resume_builder.py:675-682 | one project row per generated project, in order |
| `JobRecords.DescribedIndices` | app/job_search_agent.py:164 | the positions of exactly the jobs with a non-empty description, increasing |
| `JobRecords.DescribedEntries` | app/job_search_agent.py:155-164 | one entry per described job, in order, built from the job and its position |
| `JobSearch.Normalise` | app/job_search_agent.py:91-104 | a query is cleaned exactly when it has the keys read: keywords joined by spaces, location stripped, a single job type or experience level wrapped in a list, at most 25 results |
| `JobSearch.NormaliseIdempotent` | app/job_search_agent.py:91-94 | cleaned parameters pass through the cleaning unchanged |
| `JobSearch.KeywordsRecoverable` | app/job_search_agent.py:91 | a keyword list of space-free words is recovered by splitting the joined text on spaces |
| `JobSearch.KeySetMember` | app/job_search_agent.py:108-109 | every key in `seen_job_ids` belongs to a job at a returned position |
| `JobSearch.Dedup` | app/job_search_agent.py:107-110 | the de-duplication of one query's jobs only appends, at most one job per input |
| `JobSearch.DedupWellFormed` | app/job_search_agent.py:107-110 | the collected jobs keep pairwise distinct ids, and `seen` is exactly their ids |
| `JobSearch.AppendWellFormed` | app/job_search_agent.py:109-110 | appending a job whose id is new keeps the ids distinct |
| `JobSearch.KeySetHas` | app/job_search_agent.py:109 | the id of each collected job is in `seen_job_ids` |
| `JobSearch.DedupExtends` | app/job_search_agent.py:107-110 | de-duplication keeps what was collected as a prefix and only grows `seen_job_ids` |
| `JobSearch.DedupRuns` | app/job_search_agent.py:107-114 | the loop over a query's jobs runs to the end exactly when every job has the key; then every job's id is seen |
| `JobSearch.DedupOrigin` | app/job_search_agent.py:107-110 | every job added is one of the query's jobs, the first one with an id not yet seen; the x-th kept job was appended once the loop had been through the jobs before it |
| `JobSearch.DedupPrefixGrows` | app/job_search_agent.py:107-110 | the further the loop has gone through a query's results, the more jobs it has kept |
| `JobSearch.Search` | app/job_search_agent.py:82-116 | the search over all queries fails only on a query without `explanation`; the collection only grows |
| `JobSearch.SearchOk` | app/job_search_agent.py:88 | a search fails exactly when some query lacks `explanation`, which is read outside the `try` |
| `JobSearch.SearchWellFormed` | app/job_search_agent.py:84-110 | the result has pairwise distinct ids |
| `JobSearch.SearchOrigin` | app/job_search_agent.py:84-110 | every kept job comes from a position of a query that ran. It is the first job in that query's results whose id no earlier query had kept. That query appended it. |
| `JobSearch.SearchOrder` | app/job_search_agent.py:84-110 | of two kept jobs, the earlier comes from an earlier query, or from an earlier position in the same query's results, so the result is ordered by query and then by position |
| `JobSearch.SearchStep` | app/job_search_agent.py:87-114 | one more query: a failed or malformed query contributes nothing and the next ones still run |
| `JobSearch.SearchGrows` | app/job_search_agent.py:87-114 | later queries only append to the jobs earlier ones kept and only add to the ids they saw |
| `JobSearch.SearchComplete` | app/job_search_agent.py:107-110 | every job of a query that ran has its id in the result, held by a kept job |
| `JobSearch.DedupLoop` | app/job_search_agent.py:107-110 | the de-duplication loop, in place on `all_jobs` and `seen_job_ids`, computes `Dedup` |
| `JobSearch.DedupStopped` | app/job_search_agent.py:107-114 | once a job without the key has stopped the loop, later jobs change nothing |
| `JobSearch.ExecuteJobSearch` | app/job_search_agent.py:82-116 | the method's loop over the queries returns the jobs that `Search` collects, or its error |
| `JobSearch.SearchFailed` | app/job_search_agent.py:88 | once a query without `explanation` has raised, the later queries change nothing |
| `JobSearch.ScraperRecordsNeverCollected` | app/job_search_agent.py:108 | as written: de-duplicating on `id`, no record the LinkedIn scraper returns is ever kept |
| `JobSearch.ScraperRecordsCollected` | app/job_search_agent.py:107-110 | corrected to `job_id`: every scraper record of every query that ran has its id in the result |
| `JobSearch.JobOfDict` | app/job_search_agent.py:122-132 | the `Job` built from a dict has its id, applied False and the clock's date; a missing key is a `KeyError` |
| `JobSearch.SaveAll` | app/job_search_agent.py:118-140 | saving in order keeps every stored job; new jobs are unapplied and under their own ids; the count is exactly the number of new ids and at most the number of dicts |
| `JobSearch.SaveOne` | app/job_search_agent.py:121-138 | one dict: a missing key ends the loop; a known id is skipped; a new one is stored and counted once |
| `JobSearch.SaveJobsToDatabase` | app/job_search_agent.py:118-140 | the loop leaves the jobs table `SaveAll` computes; it returns the count, or the `KeyError` that ended it |
| `JobSearch.SaveStopped` | app/job_search_agent.py:121-132 | once a dict has raised, the later dicts change nothing |
| `JobSearch.SaveResultsToJson` | app/job_search_agent.py:142-167 | nothing is written for no jobs; otherwise the listing keeps, in order, exactly the jobs with a non-empty description, each read with its defaults |
| `LinkedIn.ExperienceCode` | linkedin_job_description_scrapper.py:57-65 | the code of the first matching keyword: entry 2, associate 3, mid-senior 4, director 5; unmatched levels give none |
| `LinkedIn.JobTypeCode` | linkedin_job_description_scrapper.py:72-82 | full-time F, part-time P, contract C, temporary T, internship I, first match wins; others give none |
| `LinkedIn.DateFilter` | linkedin_job_description_scrapper.py:87-93 | "24 hours" r86400, else "week" r604800, else "month" r2592000; none for a missing or empty value |
| `LinkedIn.FilterRecoverable` | linkedin_job_description_scrapper.py:66-67 | the filter is set exactly when some value mapped, and splitting it on commas gives the codes in input order |
| `LinkedIn.CodesHaveNoComma` | linkedin_job_description_scrapper.py:59-82 | no experience or job-type code contains a comma |
| `LinkedIn.CodeLoop` | linkedin_job_description_scrapper.py:56-65 | the loop appends the code of each value that maps to one, in order |
| `LinkedIn.BuildParams` | linkedin_job_description_scrapper.py:48-97 | the listing parameters: start 0, each filter as its codes give it, remote gives `f_WT` 2 |
| `LinkedIn.CardId` | linkedin_job_description_scrapper.py:126 | the job id, the last colon-separated piece of the URN, holds no colon |
| `LinkedIn.CardIdOfUrn` | linkedin_job_description_scrapper.py:126 | the id read from `prefix:id` is `id` |
| `LinkedIn.CardIds` | linkedin_job_description_scrapper.py:124-131 | the ids of a page's cards; a card without a URN is skipped |
| `LinkedIn.IdsBeforeStopSplit` | linkedin_job_description_scrapper.py:106-138 | the ids before the first page that stops the collection split at any page before it |
| `LinkedIn.IdsBeforeStopStep` | linkedin_job_description_scrapper.py:106-133 | a page that does not stop the collection moves its ids into the prefix that has been read |
| `LinkedIn.Take` | linkedin_job_description_scrapper.py:128-129 | the first n ids, or all of them when there are fewer |
| `LinkedIn.TakeOfLonger` | linkedin_job_description_scrapper.py:106 | once n ids are read, whatever follows is not taken |
| `LinkedIn.ReadCards` | linkedin_job_description_scrapper.py:124-131 | the card loop appends ids until `max_results` is reached |
| `LinkedIn.CardIdsStep` | linkedin_job_description_scrapper.py:124-131 | one more card adds its id, if it has one |
| `LinkedIn.FullAfterCard` | linkedin_job_description_scrapper.py:128-129 | reaching `max_results` at a card leaves the rest of the page unread |
| `LinkedIn.CollectJobIds` | linkedin_job_description_scrapper.py:101-138 | the ids are the first `max_results` ids of the pages before the first empty or failed one; never more than `max_results`; page k requests start k·25 |
| `LinkedIn.PageStep` | linkedin_job_description_scrapper.py:107-133 | one page read after the pages before it keeps the invariant of the page loop |
| `LinkedIn.StoppedAt` | linkedin_job_description_scrapper.py:120-122 | a page with no cards or a failed request ends the collection with the ids read so far |
| `LinkedIn.FullAt` | linkedin_job_description_scrapper.py:106 | once `max_results` ids are read, later pages add none |
| `LinkedIn.CardIdsAppend` | linkedin_job_description_scrapper.py:124-131 | the ids of two runs of cards are the ids of each run, in order |
| `LinkedIn.ApplicationUrlRoundTrip` | linkedin_job_description_scrapper.py:212 | the job id is read back from its application URL |
| `LinkedIn.DetailsRecord` | linkedin_job_description_scrapper.py:205-214 | the detail record carries `job_id`, no `id`, and the URL "https://www.linkedin.com/jobs/view/" + id |
| `LinkedIn.Details` | linkedin_job_description_scrapper.py:143-152 | one record per id whose details could be read, in id order |
| `LinkedIn.FetchDetails` | linkedin_job_description_scrapper.py:143-152 | the detail loop computes `Details` |
| `LinkedIn.SearchJobs` | linkedin_job_description_scrapper.py:21-158 | the listing parameters, and the records of at most `max_results` collected ids |
| `LinkedIn.SaveResults` | linkedin_job_description_scrapper.py:223-263 | nothing is written for no jobs; otherwise exactly the jobs with a description, in order, each with an id |
| `LinkedIn.SavedIdIsJobId` | linkedin_job_description_scrapper.py:248 | a scraped job keeps its LinkedIn id in the saved listing; only a job without one gets its position |
| `MainFlow.AcceptedIff` | main.py:101-109 | an entry is processed exactly when it has id, title, company and description and its stripped seniority is "Mid-Senior level"; a missing level counts as "" |
| `MainFlow.JobOfAgrees` | main.py:112-122 | for an entry with every key, the main script builds the same unapplied job as the search agent, with location and URL defaulting to "" |
| `MainFlow.Selected` | main.py:99-122 | the jobs of the accepted entries, at most one per entry |
| `MainFlow.SelectedStep` | main.py:99-109 | one more entry adds its job exactly when it is accepted |
| `MainFlow.SelectedAppend` | main.py:99 | selection keeps input order |
| `MainFlow.SelectedSound` | main.py:99-122 | each selected job is the job of an accepted entry |
| `MainFlow.SelectedComplete` | main.py:99-122 | each accepted entry contributes its job |
| `MainFlow.CreateAllStep` | main.py:125 | one more `job_repo.create` stores its job only when the id is new |
| `MainFlow.CreateAllKeys` | main.py:125 | what was stored stays; every job's id is stored and nothing else is |
| `MainFlow.CreateAllFirst` | main.py:125 | the first job with a new id is the one stored under it |
| `MainFlow.CreateAllAbsent` | main.py:125 | an id no job carries is not stored |
| `MainFlow.CompanyRows` | main.py:132-140 | one company row per accepted job |
| `MainFlow.CompanyRowOfJob` | main.py:132-140 | a stored company keeps its job's company name, unless that is empty, and its description, and takes the analysis fields |
| `MainFlow.CompanyRowsAppend` | main.py:132-140 | one more accepted job appends its company row |
| `MainFlow.FindKept` | app/ai_resume_builder.py:504 | a resume row appended later does not change which resume a job id finds |
| `MainFlow.MatchesAppend` | main.py:144-150 | one more record, for the next job, keeps records and jobs in step |
| `MainFlow.StoredAppend` | main.py:143-150 | a record whose resume is found for its job id can be appended |
| `MainFlow.RecordsKept` | main.py:143 | later resumes do not change which resume earlier records find |
| `MainFlow.ResumeStep` | main.py:143 | after `create_resume`, the resume id it returned is the one found for the job, and earlier records still hold |
| `MainFlow.TablesStep` | main.py:125-140 | the job and company tables after one more accepted job |
| `MainFlow.EntryStep` | main.py:99-150 | one entry moves both tables from the first i entries' values to the first i+1 entries' values |
| `MainFlow.ProcessEntry` | main.py:100-150 | a skipped entry changes nothing and yields no record; an accepted one stores its job and company and yields the record of its resume |
| `MainFlow.ProcessJob` | main.py:132-143 | the company step, then a resume whose id is the one the store finds for the job |
| `MainFlow.StoreCompany` | main.py:132-140 | the company built from the job, merged with its analysis, is stored as one new row |
| `MainFlow.ProcessJobs` | main.py:98-150 | the jobs table is the old one with each accepted job created in order; the company table gains one row per accepted job; there is one record per accepted entry, in input order, carrying that job's fields and the resume found for it |
| `SchemaInfo.Describe` | app/db/compare_schemas.py:26-32 | required exactly when notnull ≠ 0, primary key exactly when pk ≠ 0; name, type and default copied |
| `SchemaInfo.DescribeSame` | app/db/compare_schemas.py:26-32 | two rows have the same descriptor exactly when they agree on name, type and default and on whether notnull and pk are set |
| `SchemaInfo.Columns` | app/db/compare_schemas.py:22-33 | one descriptor per `table_info` row, in order |
| `SchemaInfo.LikeAnyRest` | app/db/compare_schemas.py:15 | a trailing `%` matches anything |
| `SchemaInfo.LikeLiteral` | app/db/compare_schemas.py:15 | a literal pattern character matches that character in either case |
| `SchemaInfo.LikeWord` | app/db/compare_schemas.py:15 | a wildcard-free word at the head of a pattern matches as many characters, ignoring ASCII case |
| `SchemaInfo.OneThenAny` | app/db/compare_schemas.py:15 | `_%` matches every non-empty string |
| `SchemaInfo.InternalPatternMeaning` | app/db/compare_schemas.py:15 | `name LIKE 'sqlite_%'` holds exactly for names of at least seven characters whose first six spell "sqlite" in any case; the seventh character may be anything |
| `SchemaInfo.ReservedWord` | app/db/compare_schemas.py:15 | the pattern is the wildcard-free, lower-case word "sqlite" followed by `_%` |
| `SchemaInfo.AllTables` | app/db/database.py:26-36 | the listed table names, at most one per `sqlite_master` row |
| `SchemaInfo.AllTablesExact` | app/db/compare_schemas.py:12-17 | a name is listed exactly when it names a table not matching `sqlite_%` |
| `SchemaInfo.Names` | app/db/compare_schemas.py:41-42 | the keys of a schema dict, in order |
| `SchemaInfo.LookupFirst` | app/db/compare_schemas.py:54 | `schema[table]` gives the columns of the first entry with that name |
| `SchemaInfo.ReadSchema` | app/db/compare_schemas.py:6-36 | one entry per listed table, in query order, holding its described columns |
| `SchemaDiff.StringLeTotal` | app/db/compare_schemas.py:51 | any two table names compare under Python's string order |
| `SchemaDiff.StringLeTransitive` | app/db/compare_schemas.py:51 | Python's string order is transitive |
| `SchemaDiff.StringLeAntisymmetric` | app/db/compare_schemas.py:51 | two names ordered both ways are equal |
| `SchemaDiff.InsertName` | app/db/compare_schemas.py:51 | putting a name into a sorted listing keeps it sorted, with that name added |
| `SchemaDiff.SortedSet` | app/db/compare_schemas.py:51 | `sorted(set(xs))`: increasing, and exactly the elements of xs |
| `SchemaDiff.IncreasingUnique` | app/db/compare_schemas.py:51 | a set has a single sorted listing |
| `SchemaDiff.Keep` | app/db/compare_schemas.py:48 | set difference or intersection: exactly the names of xs that are (or are not) in the other |
| `SchemaDiff.ColumnMap` | app/db/compare_schemas.py:71-72 | the column dict's keys are exactly the column names, each mapped to a column with that name |
| `SchemaDiff.ColumnMapLast` | app/db/compare_schemas.py:71-72 | a name maps to the last column that carries it |
| `SchemaDiff.CompareColumns` | app/db/compare_schemas.py:83-105 | missing columns are frontend minus backend, extra columns backend minus frontend, and a common column is reported exactly when its descriptors differ |
| `SchemaDiff.ReportedIffDifferent` | app/db/compare_schemas.py:75-105 | two column dicts differ exactly when some column is missing, extra or different |
| `SchemaDiff.CommonTables` | app/db/compare_schemas.py:67-70 | the common tables, sorted, are exactly the names both schemas have |
| `SchemaDiff.ReportFor` | app/db/compare_schemas.py:71-105 | the report of a common table compares its two column dicts |
| `SchemaDiff.ChangedTables` | app/db/compare_schemas.py:70-75 | one report per listed table whose dicts differ, each the report for that table |
| `SchemaDiff.TableNames` | app/db/compare_schemas.py:80 | the names of the reported tables, in report order |
| `SchemaDiff.ChangedTablesMembers` | app/db/compare_schemas.py:70-75 | a table is reported exactly when it is listed and its dicts differ |
| `SchemaDiff.ChangedTablesIncreasing` | app/db/compare_schemas.py:70 | the reports follow sorted table order |
| `SchemaDiff.Compare` | app/db/compare_schemas.py:38-108 | missing tables are frontend minus backend and extra tables backend minus frontend, both sorted; a common table is reported exactly when its column dicts differ, in sorted order |
| `SchemaDiff.TablesPartitioned` | app/db/compare_schemas.py:41-67 | every table of either side is exactly one of missing, extra or common |
| `SchemaDiff.CompareIdentical` | app/db/compare_schemas.py:48-75 | a schema compared with itself reports no missing, extra or differing table |
| `DatabaseInspector.FieldTypeOfMeaning` | app/db/database.py:60-74 | int exactly for INTEGER, float exactly for REAL or NUMERIC, bool exactly for BOOLEAN, and str for everything else, in any case |
| `DatabaseInspector.FieldOf` | app/db/database.py:74-80 | a field with the column's name and mapped type, optional exactly when the column is nullable or has a default |
| `DatabaseInspector.Items` | app/db/database.py:80-83 | the dict's values in key order |
| `DatabaseInspector.Put` | app/db/database.py:80 | `fields[name] = f`: the entry is replaced; a present key keeps its place and a new key goes last |
| `DatabaseInspector.PutNewItem` | app/db/database.py:80 | a new key adds its field after the others |
| `DatabaseInspector.EmptyDict` | app/db/database.py:58 | `fields = {}` starts with no items |
| `DatabaseInspector.FieldsOf` | app/db/database.py:69-80 | the fields dict after the loop has seen some columns is well formed |
| `DatabaseInspector.FieldsOfSound` | app/db/database.py:69-80 | every field comes from a kept column with its name |
| `DatabaseInspector.FieldsOfLast` | app/db/database.py:69-80 | the field under a name is that of the last kept column with the name |
| `DatabaseInspector.FieldsOfComplete` | app/db/database.py:69-80 | every kept column's name is a field |
| `DatabaseInspector.FieldsInColumnOrder` | app/db/database.py:69-80 | with distinct column names, the fields are exactly the kept columns' fields, in column order; an INTEGER primary key gives none |
| `DatabaseInspector.ModelName` | app/db/database.py:82 | the model name ends with "Model" and holds no underscore |
| `DatabaseInspector.TitleOfWord` | app/db/database.py:82 | a lower-case word title-cases to itself capitalized at a word start, and to itself otherwise |
| `DatabaseInspector.TitleAfterUnderscore` | app/db/database.py:82 | an underscore is kept by `title()` and starts a new word |
| `DatabaseInspector.RemoveUnderscoreHead` | app/db/database.py:82 | a leading underscore is removed |
| `DatabaseInspector.CapitalizedPlain` | app/db/database.py:82 | a capitalized lower-case word holds no underscore |
| `DatabaseInspector.StemOfFirstWord` | app/db/database.py:82 | the first word of a snake_case name becomes its capitalized form |
| `DatabaseInspector.StemOfWords` | app/db/database.py:82 | a snake_case name title-cased without underscores is its words capitalized and run together |
| `DatabaseInspector.ModelNameOfWords` | app/db/database.py:82 | the model name of a snake_case table name is its CamelCase form plus "Model" |
| `DatabaseInspector.CreatePydanticModel` | app/db/database.py:55-83 | the loop over the described columns builds the model named after the table, whose fields are the dict the loop fills |
| `DatabaseInspector.GetAllModels` | app/db/database.py:85-88 | exactly one model per table `get_all_tables` lists, under its name |

## Left out

- The language-model agents and their prompts. They are network services. What they return is a parameter: the job analysis, the parsed background, the generated sections and the search queries. `generate_search_queries` is not modelled.
- ResumeBuilder.AIResumeBuilder.CreateResume: a generator or agent that raises is not modelled; each agent output is a given value. The source commits every row as it goes. If an agent raised after the shell was written, the source would leave a resume with only some sections. A retry for the same job would then find that resume at lines 504-507 and return its id. Neither is covered.
- ResumeStore.ResumeRepository.AddEducation, AddSkill, AddExperience and AddProject: the `KeyError` these raise on a missing required key is not modelled. The required keys are `degree` and `institution` (app/db/repository.py:85-86), `name` (129), `job_title` and `company` (153-154), and `title` (209). These keys are always-present record fields, as the builder's typed records supply them.
- HTTP and HTML scraping, and `time.sleep`. What a listing page holds is a parameter. Past the end of that list the listing reads as empty. So does what a detail page yields.
- `quote_plus` on the keywords and the location. The parameters hold the text before encoding.
- The clock. `save_jobs_to_database` and the scraper's `_get_job_details` call `datetime.now()` once per job. The model passes one reading for the whole batch, so every job of a batch gets the same timestamp.
- SQLite mechanics: connections, `PRAGMA` execution, `init_database` inside `connect`, and column types.
  - The resume store enforces foreign keys as `Err` results.
  - Each repository owns its own tables, because no foreign key crosses repositories.
- Transaction atomicity. `add_experience` commits through `add_job_accomplishment`, and the model states no atomicity.
- A NULL value stored under a present dict key is not distinguished from a missing key. Absent fields are `None`.
- An `update` whose patch names `id`: the patch type has no `id` field, so it cannot rename a job.
- File and console I/O: the JSON files, `print`, `input()` and `get_latest_jobs_file`. Two consequences:
  - The main script's job entries are a parameter.
  - `print_schema_diff` returns its report instead of printing it. Its `schema_differences` header flag only decides whether a heading is printed, so it is not modelled.
- `async`/`await`. Every call is sequential.
- The content of the prompt strings is not modelled. The model covers only the key lookups that can raise.
- JSON entries whose keys do not match: each field is read with its default (`""`), as the source does.
- MainFlow.ProcessJobs: the analysis and the agents' outputs for each job are functions of the job, given as parameters.
- MainFlow.ProcessJobs: the main script is modelled over the corrected `create_resume`. The as-written version raises `KeyError` at the first accepted job (see Findings), which ends the script.
- `lower()`, `upper()` and `title()`: modelled for ASCII letters only.
- `isspace()`: modelled for ASCII whitespace only.
- `create_model`: represented by its arguments, the model name and the field list. Every field's default is `None`.
- Schema dicts: modelled as sequences of entries with first-match lookup, since the keys of a dict are distinct.
- `LIKE`: modelled as SQLite's ASCII case-insensitive matching.
- JobStore.JobRepository.GetAll: the engine's row order is not modelled. The result lists every stored job exactly once, in some order.
- `CompanyRepository.create`, `ResumeRepository.get_resume_by_job_id`, `add_personal_info_detail` and the `job_id` argument of `create_resume` are called but defined in no file of the repository. They are modelled on what their call sites imply.
- app/db/init_db.py is not part of this model. Its DDL supplies only row shapes and the foreign keys.

## Findings

| source | as written | input that shows it | evidently intended | confidence | as-written member | corrected member |
|---|---|---|---|---|---|---|
| app/job_search_agent.py:108 | de-duplicates on `job['id']`, but `_get_job_details` returns records keyed `job_id` (linkedin_job_description_scrapper.py:206) | any query for which the LinkedIn scraper returns at least one job: its first record raises `KeyError`, the query is skipped, and the search returns `[]` | de-duplicate on the scraper's `job_id` | not executed | `JobSearch.ScraperRecordsNeverCollected` | `JobSearch.ScraperRecordsCollected` |
| app/ai_resume_builder.py:554 | the summary prompt reads `company_data['job_title']`, but `get_company` returns only name, about_business, qualifications, skills and job_description | any known company and a job id with no resume yet: the resume shell and contacts are written, then `KeyError` is raised and no section row is stored | read a key the company dict has, or treat the job title as absent | not executed | `ResumeBuilder.AIResumeBuilder.CreateResumeAsWritten` | `ResumeBuilder.AIResumeBuilder.CreateResume` |

A third point is stated but not listed as a finding. `analyze_job_description_with_company` copies `about`, `required_education`, `required_experience` and `required_skills` only when the analysis output has them. The agent's declared output type (`JobAnalysis`, app/models.py:4-10) has none of the four. `ResumeBuilder.JobAnalysisMergesOnlyName` states what the merge does with that type. The rest of the model takes the analysis as a general record, so that the merge rule is covered in full.
