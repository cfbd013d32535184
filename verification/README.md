# job-hunter-mcp: text processing, job enrichment and fit scoring in Dafny

This project models the core of the job-hunter MCP server:

- the text processor, which cleans a raw job description, splits it into
  sections, extracts keywords, parses salary ranges and posting dates, and
  runs all of these as one pipeline;
- the `enrich_job` tool, which builds a prompt that lists the missing job
  fields. In agentic mode (also used for the legacy mode name `llm`) it
  returns the prompt. In backend mode it merges the model's JSON answer into
  the job data, filling only fields whose value is falsy;
- the `fit_scoring` tool, which scores a stored job against a candidate:
  up to 50 points for skills, 20 for experience, 10 for location, 10 for the
  job type, and 10 for other criteria (always 0). In `llm` mode it returns a
  prompt instead.

The modules follow the source files:

| module | file | source |
|---|---|---|
| `Options` | options.dfy | the `Option` type |
| `Strings` | strings.dfy | the `str` operations the source relies on: `isspace`, `lower`, `strip`, `split`, `join`, `replace`, `in`, `re.sub(r'\s+', ' ', …)`, `str.split()`, and `int`/`str` for decimal numbers |
| `Normalizer` | normalizer.dfy | `clean_job_description` |
| `Sections` | sections.dfy | `extract_job_sections` |
| `Keywords` | keywords.dfy | `extract_keywords` |
| `Salary` | salary.dfy | `parse_salary` |
| `Dates` | dates.dfy | `parse_posted_date` |
| `Pipeline` | pipeline.dfy | `process_job_description` |
| `PyValues` | pyvalue.dfy | Python values and dicts: truthiness, `get`, item assignment, `str` and `repr` |
| `EnrichJob` | enrich_job.dfy | `app/mcp/tools/enrich_job.py` |
| `FitScoring` | fit_scoring.dfy | `app/mcp/tools/fit_scoring.py` |

**Loops.** Where the source works with a loop, the model has a method with
that loop. The method is proved equal to a specification function, and the
properties are proved as lemmas about that function. These methods are:

- `CleanJobDescription`, `ExtractJobSections` with `StripSections`, and `ExtractKeywords`;
- `ParsePostedDate`;
- the merge in `MergeFillFalsy`;
- the prompt builder `GenerateLlmPrompt`;
- `ScoreJob`, which accumulates the score and the breakdown.

**Dicts.** A Python dict is an association list in insertion order, so that
`repr(context)` inside a prompt and the order of the merged job data match
Python's.

**Environment as parameters.** Three things from outside the code are
parameters of the model:

- the language model's reply, already passed through `json.loads`: an
  object, another JSON value, or an exception message;
- `datetime.strptime`;
- the database lookup `db.query(Job).get(id)`.

**Schema facts the model follows.** The `Job` table has neither a
`years_experience` nor a `type` column. So `getattr` returns the defaults 0
and `None`: every stored job gives full experience points to any candidate
with non-negative experience, and 0 job-type points
(`FitScoring.StoredJobScores`). The declared `FitScoringInput` has no
`job_id` field, so backend scoring of an input built from that schema raises
`KeyError` (`FitScoring.DeclaredInputRaises`). The general scoring rules are
modelled for any job record and any input dict, so that they can be stated
on their own.

## Model

| member | source | states |
|---|---|---|
| Strings.StripLeft | app/core/text_processor.py:30 | the result is a suffix of the input, everything removed is whitespace, and the result does not start with whitespace |
| Strings.StripRight | app/core/text_processor.py:30 | the result is a prefix of the input, everything removed is whitespace, and the result does not end with whitespace |
| Strings.Strip | app/core/text_processor.py:41 | the result has no surrounding whitespace, and a text without surrounding whitespace is unchanged |
| Strings.StripEmpty | app/core/text_processor.py:31 | `line.strip()` is empty exactly when the line is all whitespace |
| Strings.Split | app/core/text_processor.py:25 | `split('\n')` gives at least one piece, and no piece holds the separator |
| Strings.SplitJoin | app/core/text_processor.py:37 | splitting `'\n'.join(lines)` gives the lines back when no line holds a line break |
| Strings.ContainsAt | app/core/text_processor.py:123 | `pat in text` holds exactly when `pat` occurs at some index of `text` |
| Strings.ReplaceRemovesChar | app/core/text_processor.py:22 | after replacing every occurrence of a character by text without it, the character is gone |
| Strings.CollapseWsCollapsed | app/core/text_processor.py:33 | after `re.sub(r'\s+', ' ', …)` no whitespace run is longer than one space, and the first character is kept or becomes a space |
| Strings.CollapsedFixed | app/core/text_processor.py:33 | collapsing text that has no long whitespace runs changes nothing |
| Strings.WordsAreWords | app/core/text_processor.py:230 | every piece of `str.split()` is non-empty and free of whitespace, and the pieces joined by single spaces give the text with each whitespace run made one space and both ends stripped, so they are all the words in order |
| Strings.NoWords | app/core/text_processor.py:230 | `str.split()` is empty exactly when the text is all whitespace |
| Strings.NatToString | app/core/text_processor.py:159 | the decimal text of `n` is non-empty, all digits, and reads back as `n` |
| Normalizer.NormalizeBreaks | app/core/text_processor.py:22 | no carriage return is left, and text without one is unchanged |
| Normalizer.KeptLine | app/core/text_processor.py:30-34 | a line is dropped exactly when it is blank; a kept line is stripped, collapsed and free of line breaks |
| Normalizer.CleanLines | app/core/text_processor.py:28-34 | every kept line is normal (stripped, collapsed, non-empty), and no more lines come out than went in |
| Normalizer.CleanJobDescription | app/core/text_processor.py:8-43 | the loop computes `Clean`; the result is empty for an empty input, has no carriage return, no surrounding whitespace and no blank line, and its lines are normal |
| Normalizer.FinalCleanupNoOp | app/core/text_processor.py:40-41 | the final `re.sub` for three or more line breaks and the final strip never change the joined lines |
| Normalizer.LinesOfClean | app/core/text_processor.py:25-41 | the lines of the cleaned text are exactly the kept lines of the input |
| Normalizer.CleanIdempotent | app/core/text_processor.py:8-43 | cleaning a cleaned description changes nothing |
| Normalizer.BlankDescription | app/core/text_processor.py:18-43 | a description that is all whitespace cleans to the empty text |
| Normalizer.SplitJoinBack | app/core/text_processor.py:37 | a non-empty cleaned text is the join of its own lines |
| Sections.AnyInExists | app/core/text_processor.py:70 | `any(keyword in line for keyword in words)` holds exactly when some keyword occurs in the line |
| Sections.ClassifyChain | app/core/text_processor.py:67-83 | a line is a header of the first keyword group, in source order, that matches its lower-cased stripped text; otherwise it is content |
| Sections.HeaderIffKeyword | app/core/text_processor.py:70-79 | a line is a header exactly when one of the 21 header keywords occurs in it |
| Sections.AboutYouOpensAbout | app/core/text_processor.py:70-73 | a line holding "about you" opens the about section, because the about group is tested first |
| Sections.ExperienceAndRoleAreHeaders | app/core/text_processor.py:72-75 | a line mentioning "experience" or "role" is a header and is never added as content |
| Sections.Step | app/core/text_processor.py:66-83 | one turn of the loop keeps an entry for every section |
| Sections.Stripped | app/core/text_processor.py:86-87 | after the closing loop every section is present and stripped |
| Sections.ExtractJobSections | app/core/text_processor.py:45-89 | the two loops compute `SectionsOf` |
| Sections.StripSections | app/core/text_processor.py:86-87 | stripping key by key in order gives every section its stripped body |
| Sections.ScanStep | app/core/text_processor.py:66-83 | scanning one more line is one more turn of the loop |
| Sections.StepTotal | app/core/text_processor.py:81-83 | one turn grows the combined length of the sections by the length of what the line adds: the content line and its line break, or nothing for a header or a blank line |
| Sections.StepPlaces | app/core/text_processor.py:66-83 | one turn moves the cursor to a header's section and otherwise keeps it, and appends what the line adds to the section under the cursor and to no other |
| Sections.ScanPlaces | app/core/text_processor.py:64-83 | after the loop the cursor is the section of the last header (or "other"), and each section's body is, in order, the concatenation of what the lines added while the cursor was at that section |
| Sections.SectionsArePlaced | app/core/text_processor.py:45-89 | each returned section is the stripped concatenation of the content lines, with their line breaks, that came while the cursor was at it |
| Sections.ContentConserved | app/core/text_processor.py:66-83 | the combined length of the sections is the total length of the non-blank content lines, each with its line break; headers add nothing |
| Sections.ContentsStayOther | app/core/text_processor.py:64 | without headers the cursor stays at "other" and every other section stays empty |
| Sections.NoHeadersAllOther | app/core/text_processor.py:64-83 | without headers and blank lines the "other" body is the lines joined by line breaks, plus a trailing one |
| Sections.CleanTextWithoutHeaders | app/core/text_processor.py:45-89 | for a cleaned description without header lines, "other" is the whole text and every other section is empty |
| Sections.EmptyTextAllEmpty | app/core/text_processor.py:55-89 | for the empty description every one of the five returned sections is empty |
| Keywords.CheckTerms | app/core/text_processor.py:122-129 | a keyword is found exactly when it was already found or is a vocabulary term that occurs in the text |
| Keywords.ExtractKeywords | app/core/text_processor.py:91-131 | the loops compute `KeywordsOf`: the set of vocabulary terms occurring in the lower-cased text |
| Keywords.FoundWithin | app/core/text_processor.py:118-131 | a found keyword that contains another vocabulary term implies that term is found too |
| Keywords.JavascriptImpliesJava | app/core/text_processor.py:103 | finding "javascript" always finds "java" |
| Keywords.CompoundTermsImplyParts | app/core/text_processor.py:105-106 | "power bi" implies "bi", and "data warehouse" implies "data" |
| Keywords.CaseInsensitive | app/core/text_processor.py:118 | two descriptions that lower-case alike have the same keywords |
| Keywords.EmptyHasNone | app/core/text_processor.py:118-131 | the empty description has no keywords |
| Salary.DigitRuns | app/core/text_processor.py:154 | `re.findall(r'\d+', …)` gives non-empty runs of digits only |
| Salary.ParseSalary | app/core/text_processor.py:133-169 | the empty text gives no bounds, and a maximum is only ever given with a minimum |
| Salary.Positional | app/core/text_processor.py:156-169 | the minimum is present exactly when there is at least one number, the maximum exactly when there are two |
| Salary.CleanedPerChar | app/core/text_processor.py:147-151 | the three substitutions act character by character: symbols and commas and whitespace go, `k` becomes `000` |
| Salary.ParseRange | app/core/text_processor.py:138 | "$a - $b" parses to minimum a and maximum b |
| Salary.ParseGroupedRange | app/core/text_processor.py:138 | "$a,000 - $b,000" parses to a·1000 and b·1000 |
| Salary.ParseKilo | app/core/text_processor.py:138 | "$ak" parses to minimum a·1000 and no maximum |
| Salary.ParseKiloRange | app/core/text_processor.py:138 | "ak-bk" parses to a·1000 and b·1000 |
| Salary.ExampleDollarRange | app/core/text_processor.py:138 | "$80,000 - $120,000" gives 80000 and 120000 |
| Salary.ExampleKilo | app/core/text_processor.py:138 | "$100k" gives 100000 and no maximum |
| Salary.ExampleKiloRange | app/core/text_processor.py:138 | "80k-120k" gives 80000 and 120000 |
| Salary.NoNumberNoSalary | app/core/text_processor.py:168-169 | text without digits and without `k` gives no bounds |
| Dates.Padded | app/core/text_processor.py:201 | a zero-padded field has at least the width, is all digits and reads back as the number |
| Dates.ParsePostedDate | app/core/text_processor.py:171-205 | the loop over the formats computes `PostedDate` |
| Dates.FirstMatchIsFirst | app/core/text_processor.py:198-203 | a date is found exactly when some format parses, and it is the parse of the first format that does |
| Dates.NoneWhenNoFormatParses | app/core/text_processor.py:181-205 | the result is `None` exactly when the text is empty or no format parses its stripped form |
| Dates.DateOnlyRendersMidnight | app/core/text_processor.py:187-201 | when the first format that parses the stripped text is a date-only one, the result is 19 characters and ends in `T00:00:00` |
| Dates.StrictStrptime | app/core/text_processor.py:187-196 | every date the strict parser returns is a valid calendar date and clock time |
| Dates.StrictDateOnlyAtMidnight | app/core/text_processor.py:187-196 | the strict parser puts every date-only format at midnight |
| Dates.DayFirstExample | app/core/text_processor.py:189-190 | "01/02/2024" is read day first, as 1 February 2024 |
| Dates.MonthFirstFallbackExample | app/core/text_processor.py:189-190 | "01/15/2024" fails day first and is read month first, as 15 January 2024 |
| Dates.IsoFormatShape | app/core/text_processor.py:201 | `isoformat()` is 19 characters, the date part first |
| Dates.DateRoundTrip | app/core/text_processor.py:188 | the date part of `isoformat()` parses back with `%Y-%m-%d` to the same date at midnight |
| Dates.DateTimeRoundTrip | app/core/text_processor.py:191 | the date and time parts, joined by a space, parse back with `%Y-%m-%d %H:%M:%S` to the same value |
| Pipeline.ProcessJobDescription | app/core/text_processor.py:207-232 | the line count is at least 1 |
| Pipeline.ProcessingCleanTextAgain | app/core/text_processor.py:218-231 | processing the cleaned description gives the same result as processing the raw one |
| Pipeline.LineCountIsNonBlankLines | app/core/text_processor.py:231 | the line count is the number of non-blank input lines, or 1 when there are none |
| Pipeline.WordCountCountsWords | app/core/text_processor.py:230 | the counted words are whitespace-free, joined by single spaces they give the cleaned text with each whitespace run made one space, and the count is 0 exactly when the cleaned text is empty |
| Pipeline.EmptyDescription | app/core/text_processor.py:207-232 | an empty description gives empty text, 0 words, 1 line, no keywords and empty sections |
| PyValues.Get | app/mcp/tools/enrich_job.py:51 | `d.get(key)` finds a value exactly when the key is in the dict |
| PyValues.GetOr | app/mcp/tools/enrich_job.py:82 | `d.get(key, default)` is the default when the key is absent, and the stored value otherwise |
| PyValues.Put | app/mcp/tools/enrich_job.py:52 | `d[key] = value` keeps the keys in place, and appends the key when it is new |
| PyValues.PutGet | app/mcp/tools/enrich_job.py:52 | after `d[key] = value` the key holds the value and every other key keeps its value |
| PyValues.PutUnique | app/mcp/tools/enrich_job.py:52 | item assignment keeps the keys unique |
| PyValues.StrOf | app/mcp/tools/enrich_job.py:82 | a string is formatted as itself |
| EnrichJob.JobData | app/mcp/tools/enrich_job.py:34 | the dumped job data has exactly the fifteen fields, in declaration order |
| EnrichJob.MissingFieldsExactly | app/mcp/tools/enrich_job.py:71 | a field is listed as missing exactly when it is one of the fifteen and its value is falsy or absent; the fields stay in order |
| EnrichJob.MergeFillFalsy | app/mcp/tools/enrich_job.py:50-52 | the merge loop computes `Merged` |
| EnrichJob.MergedLookup | app/mcp/tools/enrich_job.py:50-52 | after the merge a key holds the model's value exactly when the model gave one and the job's value was falsy; otherwise it keeps the job's value |
| EnrichJob.MergedKeys | app/mcp/tools/enrich_job.py:50-52 | the merge keeps keys unique and keeps every existing key in its place |
| EnrichJob.GenerateLlmPrompt | app/mcp/tools/enrich_job.py:64-87 | the builder, with its loop over the fields, computes `PromptText` |
| EnrichJob.AppendFieldLines | app/mcp/tools/enrich_job.py:81-82 | the loop appends one `field: value` line per field, in order |
| EnrichJob.PromptListsMissing | app/mcp/tools/enrich_job.py:71-76 | the prompt holds the missing-fields line, which is the "all fields present" note exactly when nothing is missing |
| EnrichJob.PromptHasFieldLines | app/mcp/tools/enrich_job.py:81-82 | the prompt holds a `field: value` line for every one of the fifteen fields |
| EnrichJob.PromptShowsTitleAndDescription | tests/test_enrich_job.py:31-36 | the prompt contains the job's title and its description |
| PyValues.Mode | app/mcp/tools/enrich_job.py:33 | the mode is the context's "mode" entry, and "backend" when the context has none |
| EnrichJob.Execute | app/mcp/tools/enrich_job.py:31-62 | the method computes `Executed` |
| EnrichJob.RespondTo | app/mcp/tools/enrich_job.py:37-62 | the branch on the mode and on the reply computes `Respond` |
| EnrichJob.ResponseContextKeeps | app/mcp/tools/enrich_job.py:41-61 | the output context keeps the caller's keys in order, sets the prompt and the mode, sets the error only on failure, and leaves every other key unchanged |
| EnrichJob.RespondContext | app/mcp/tools/enrich_job.py:37-62 | every output context carries the prompt and the mode actually taken, and keeps the caller's other entries |
| EnrichJob.AgenticOutput | app/mcp/tools/enrich_job.py:37-42 | in agentic mode the reply is never used, the enriched data is empty, and the context carries the prompt and "agentic" |
| EnrichJob.DefaultModeIsBackend | app/mcp/tools/enrich_job.py:33 | without a mode the tool runs in backend mode |
| EnrichJob.ErrorPath | app/mcp/tools/enrich_job.py:57-62 | when the call raises, or the reply is not a JSON object, the job data comes back unchanged and the context carries the exception text |
| EnrichJob.SuccessMerge | app/mcp/tools/enrich_job.py:45-56 | on a JSON object the enriched data is the merge, only falsy fields are filled, and no error is recorded |
| EnrichJob.LlmRewrite | app/mcp/tools/enrich_job.py:96-101 | the wrapper runs mode "llm" as agentic: empty data, "agentic" in the output, and the mode rewritten to "agentic" |
| EnrichJob.OtherModesUnchanged | app/mcp/tools/enrich_job.py:96-101 | for any other mode the wrapper is the tool itself |
| EnrichJob.PromptWrapperMatches | app/mcp/tools/enrich_job.py:103-113 | `enrich_job_prompt` returns the very prompt that `enrich_job` puts in its context |
| EnrichJob.BackendExample | tests/test_enrich_job.py:7-18 | with a reply naming the company and a summary, the company is filled, the summary is added, the mode is backend, and the prompt is returned |
| EnrichJob.AgenticExample | tests/test_enrich_job.py:20-28 | in agentic mode the data is empty, the mode is agentic, and the prompt mentions the missing field "company" |
| FitScoring.SkillScoreRange | app/mcp/tools/fit_scoring.py:57-60 | the skill score is between 0 and 50, is 50 exactly when the job lists skills and the candidate has them all, and is 0 for a job without skills |
| FitScoring.ExperienceScoreCases | app/mcp/tools/fit_scoring.py:65-72 | 20 exactly when the candidate meets the requirement, 10 exactly when they reach three quarters of it, 0 otherwise; more experience never scores less |
| FitScoring.LocationScoreCases | app/mcp/tools/fit_scoring.py:77-84 | 10 exactly when the locations match, 5 exactly when they differ but the job is remote or the candidate will relocate, 0 otherwise |
| FitScoring.JobTypeScoreCases | app/mcp/tools/fit_scoring.py:89-94 | 10 exactly when the job has a non-empty type equal to the preferred one, otherwise 0 |
| FitScoring.ScoreJob | app/mcp/tools/fit_scoring.py:52-118 | the method, accumulating the score and the breakdown, computes `Scored` |
| FitScoring.ScoredRaises | app/mcp/tools/fit_scoring.py:57-78 | which exception each malformed job or candidate value raises, in the order the rules run |
| FitScoring.ScoringRaises | app/mcp/tools/fit_scoring.py:57-78 | scoring raises exactly when the tech stack or the job location is missing, or a candidate value has the wrong type |
| FitScoring.ScoredFound | app/mcp/tools/fit_scoring.py:56-118 | with well-typed values the output is built from the five rule scores |
| FitScoring.ScoresInRange | app/mcp/tools/fit_scoring.py:56-101 | every partial score lies within its share: 50, 20, 10, 10 and 0 |
| FitScoring.ScoredOutputShape | app/mcp/tools/fit_scoring.py:62-118 | the breakdown has exactly the five keys, holds the partial scores, and the fit score is their sum, between 0 and 90 |
| FitScoring.ScoredExplanation | app/mcp/tools/fit_scoring.py:105-117 | the explanation reads each breakdown entry back over its maximum, and the context is marked "backend" |
| FitScoring.FitScoreIsSum | app/mcp/tools/fit_scoring.py:53-118 | a returned score is the sum of the breakdown, within 0 to 90, so `min(…, 100)` never cuts it |
| FitScoring.BackendKeepsContext | app/mcp/tools/fit_scoring.py:117 | marking the context "backend" keeps every other entry and the key order |
| FitScoring.StoredJobScores | app/mcp/tools/fit_scoring.py:65-96 | a job as stored gets 20 experience points for any candidate with non-negative experience, and 0 job-type points |
| FitScoring.NotFound | app/mcp/tools/fit_scoring.py:41-50 | an unknown job id gives score 0, an empty breakdown, "Job not found." and the caller's context |
| FitScoring.LlmMode | app/mcp/tools/fit_scoring.py:32-39 | in "llm" mode no job is looked up, the score is 0, and the context carries the prompt and "llm" |
| FitScoring.Execute | app/mcp/tools/fit_scoring.py:27-118 | the method computes `Executed` |
| FitScoring.DeclaredInputRaises | app/mcp/tools/fit_scoring.py:42 | an input shaped by the declared schema has no `job_id`, so backend mode raises `KeyError` |
| FitScoring.PromptShowsInput | app/mcp/tools/fit_scoring.py:121-131 | the prompt shows the `repr` of the data and of the context |

## Left out

- The language-model call, `json.loads` and the logging around them: the reply is a parameter that is already parsed.
- `async`, FastMCP registration and the tools' `metadata()`: these only wrap the logic.
- The database session: the job lookup is a parameter, and a job is reduced to the attributes the scoring reads.
- Pydantic validation. The declared `FitScoringOutput` has no `breakdown` field and requires a `recommendation` that `execute` never passes. The model returns the values the tool computes and does not model the validation error.
- FitScoring.SkillScore: computed as the exact floor of `50·k/n`. Python computes `int(k / n * 50)` in floating point, which can be one lower; for example, 29 of 50 skills gives 28.
- FitScoring.Number: the candidate's experience is an integer or a bool. Float experience values are not modelled.
- FitScoring.ScoreJob: the breakdown is a `map`, so the insertion order of its keys is not modelled. The explanation fixes the order explicitly.
- FitScoring.SkillSet: keeps only the string items of a list. Other items can never match a required skill. The model does not raise the `TypeError` that `set()` raises on unhashable items such as nested lists.
- EnrichJob.LlmRewrite: the wrapper rewrites the caller's own context dict in place. The model returns the rewritten context but not the aliasing.
- PyValues.Repr: escapes backslashes, the quote and `\n`, `\r`, `\t`. Other control and non-printable characters are not escaped.
- Strings.LowerChar: lower-cases ASCII letters only. Unicode case mapping is not modelled.
- Regular expressions: `\d` matches ASCII digits only, and `\s` uses the `str.isspace` set.
- Dates.StrictStrptime: one strict, fixed-width instance of `strptime`, used for the examples. `ParsePostedDate` itself takes any parser. Python's looser forms of `%d` and `%m`, such as one-digit fields, are not modelled.
- Pipeline.ProcessJobDescription: the pipeline is a composition of the stage functions, without intermediate variables.
- Normalizer.CleanJobDescription: takes a string. The source's `if not description` guard (app/core/text_processor.py:18) also accepts `None` and returns `""` for it; `None` is not modelled.
- Salary.ParseSalary: takes a string. The source's `if not salary_str` guard (app/core/text_processor.py:143) also accepts `None` and returns no bounds for it; `None` is not modelled.
- Dates.ParsePostedDate: takes a string. The source's `if not date_str` guard (app/core/text_processor.py:181) also accepts `None` and returns `None` for it; `None` is not modelled.
- PyValues.Value: has no float. A model reply or a context holding a float cannot be represented, so the merge's truthiness test (app/mcp/tools/enrich_job.py:50-52), the JSON values of the replies and contexts, and the `repr` in the prompts are modelled for the other JSON values only.
- `app/core/ai_client.py` is not part of this model.
