/**
 * The `fit_scoring` tool: a rule-based score of how well a candidate fits
 * a stored job, out of 50 for skills, 20 for experience, 10 for location,
 * 10 for the job type and 10 reserved for other criteria. In "llm" mode it
 * returns a prompt instead. The database lookup is a parameter; the job it
 * returns is reduced to the four attributes the scoring reads.
 */
module FitScoring {
  import opened Options
  import opened Strings
  import opened PyValues

  /** The attributes of a stored job the scoring reads, as `getattr` finds
      them: `tech_stack` and `location` may be NULL in the database;
      `years_experience` and `type` fall back to 0 and None when the job has
      no such attribute. */
  datatype JobRecord = JobRecord(
    techStack: Option<seq<string>>,
    yearsExperience: int,
    location: Option<string>,
    jobType: Option<string>)

  /** A job as the database model stores it: it has neither a
      `years_experience` nor a `type` column, so those take their defaults. */
  function StoredJob(techStack: Option<seq<string>>, location: Option<string>): JobRecord
  {
    JobRecord(techStack, 0, location, None)
  }

  /** `db.query(Job).get(id)`: the job with that id, if there is one. */
  type JobLookup = Value -> Option<JobRecord>

  /** The input: `input.model_dump(exclude={"context"})` and the context. */
  datatype FitScoringInput = FitScoringInput(data: Dict, context: Option<Dict>)

  /** The input as the declared schema builds it: the dump holds exactly
      `job_data` and `resume_data`. */
  function DeclaredInput(jobData: Value, resumeData: Value, context: Option<Dict>): FitScoringInput
  {
    FitScoringInput([("job_data", jobData), ("resume_data", resumeData)], context)
  }

  datatype FitScoringOutput = FitScoringOutput(fitScore: int, breakdown: map<string, int>, explanation: string, context: Dict)

  /** What `execute` does: return an output, or raise an exception that
      nothing in it catches. */
  datatype Outcome = Returned(output: FitScoringOutput) | Raised(exception: string)

  /** The five partial scores, in the order the breakdown lists them. */
  datatype Scores = Scores(skills: int, experience: int, location: int, jobType: int, other: int)

  /** `input.context or {}`. */
  function ContextOf(context: Option<Dict>): Dict
  {
    match context
    case Some(c) => c
    case None => []
  }

  // ---------------------------------------------------------------------
  // Reading the candidate's data

  /** `set(v)`, keeping only the strings: the string items of a list, the
      characters of a string, the keys of a dict. A value that cannot be
      iterated gives None (a `TypeError`). Only strings can match a
      required skill, so dropping other items changes no intersection. */
  function SkillSet(v: Value): Option<set<string>>
  {
    match v
    case List(items) => Some(set i | 0 <= i < |items| && items[i].Str? :: items[i].s)
    case Str(t) => Some(set i | 0 <= i < |t| :: [t[i]])
    case Object(entries) => Some(set i | 0 <= i < |entries| :: entries[i].0)
    case _ => None
  }

  /** A value compared with a number: an int, or a bool as 0 or 1. Any other
      value makes the comparison raise a `TypeError` (None). */
  function Number(v: Value): Option<int>
  {
    match v
    case Int(i) => Some(i)
    case Bool(b) => Some(if b then 1 else 0)
    case _ => None
  }

  /** `(v or "").lower()`: a falsy value reads as "", a string is
      lower-cased, and anything else has no `lower` (None). */
  function LoweredLocation(v: Value): Option<string>
  {
    if !Truthy(v) then Some("")
    else if v.Str? then Some(Lower(v.s))
    else None
  }

  /** `set(xs)` for a list of strings. */
  function SetOf(xs: seq<string>): set<string>
  {
    set s | s in xs
  }

  // ---------------------------------------------------------------------
  // The partial scores

  /** `int(len(required & candidate) / max(1, len(required)) * 50)`, in
      exact arithmetic. */
  function SkillScore(required: set<string>, candidate: set<string>): int
  {
    50 * |required * candidate| / (if |required| < 1 then 1 else |required|)
  }

  /** 20 for enough experience, 10 for at least three quarters of it, 0
      otherwise; `candidate >= required * 0.75` is `4 * candidate >= 3 *
      required`. */
  function ExperienceScore(required: int, candidate: int): int
  {
    if candidate >= required then 20
    else if 4 * candidate >= 3 * required then 10
    else 0
  }

  /** 10 for the same (lower-cased) location, else 5 for a remote job or a
      candidate willing to relocate, else 0. */
  function LocationScore(jobLocation: string, candidateLocation: string, willingToRelocate: bool): int
  {
    if jobLocation == candidateLocation then 10
    else if jobLocation == "remote" || willingToRelocate then 5
    else 0
  }

  /** `job_type and preferred_type and job_type == preferred_type`. */
  function JobTypeScore(jobType: Option<string>, preferred: Value): int
  {
    if jobType.Some? && jobType.value != [] && Truthy(preferred) && preferred == Str(jobType.value) then 10
    else 0
  }

  function Total(s: Scores): int
  {
    s.skills + s.experience + s.location + s.jobType + s.other
  }

  /** The `breakdown` dict. */
  function BreakdownOf(s: Scores): map<string, int>
  {
    map["skills" := s.skills, "experience" := s.experience, "location" := s.location,
        "job_type" := s.jobType, "other" := s.other]
  }

  const SkillsLabel: string := "Skills: "
  const ExperienceLabel: string := "/50, Experience: "
  const LocationLabel: string := "/20, Location: "
  const JobTypeLabel: string := "/10, Job Type: "
  const OtherLabel: string := "/10, Other: "
  const ExplanationEnd: string := "/10."

  /** The explanation, each score out of its maximum. */
  function Explanation(s: Scores): string
  {
    SkillsLabel + IntToString(s.skills) + ExperienceLabel + IntToString(s.experience)
    + LocationLabel + IntToString(s.location) + JobTypeLabel + IntToString(s.jobType)
    + OtherLabel + IntToString(s.other) + ExplanationEnd
  }

  /** The output for a found job with these scores. */
  function ScoredOutput(s: Scores, context: Dict): FitScoringOutput
  {
    var total := Total(s);
    FitScoringOutput(if total < 100 then total else 100, BreakdownOf(s), Explanation(s),
      Put(context, "processing_mode", Str("backend")))
  }

  /** The partial scores of a found job, or the exception that stops
      them. */
  datatype Scoring = Failure(exception: string) | Success(scores: Scores)

  /** The output of a found job: its scores, or the exception raised. */
  function Scored(job: JobRecord, data: Dict, context: Dict): Outcome
  {
    match ScoresOf(job, data)
    case Failure(e) => Raised(e)
    case Success(s) => Returned(ScoredOutput(s, context))
  }

  /** The partial scores of a found job, with the exceptions that can stop
      them, in the order the source meets them: first the two skill sets. */
  function ScoresOf(job: JobRecord, data: Dict): Scoring
  {
    match (job.techStack, SkillSet(GetOr(data, "candidate_skills", List([]))))
    case (None, _) => Failure("TypeError")
    case (_, None) => Failure("TypeError")
    case (Some(stack), Some(candidateSkills)) =>
      ScoresFromExperience(job, data, SkillScore(SetOf(stack), candidateSkills))
  }

  /** Then the experience comparison. */
  function ScoresFromExperience(job: JobRecord, data: Dict, skills: int): Scoring
  {
    match Number(GetOr(data, "candidate_experience", Int(0)))
    case None => Failure("TypeError")
    case Some(years) =>
      ScoresFromLocation(job, data, skills, ExperienceScore(job.yearsExperience, years))
  }

  /** Then the two locations, and the job type, which cannot raise. */
  function ScoresFromLocation(job: JobRecord, data: Dict, skills: int, experience: int): Scoring
  {
    match (job.location, LoweredLocation(GetOr(data, "candidate_location", Null)))
    case (None, _) => Failure("AttributeError")
    case (_, None) => Failure("AttributeError")
    case (Some(jobLocation), Some(candidateLocation)) =>
      var location := LocationScore(Lower(jobLocation), candidateLocation,
        Truthy(GetOr(data, "willing_to_relocate", Bool(false))));
      var jobType := JobTypeScore(job.jobType, GetOr(data, "preferred_type", Null));
      Success(Scores(skills, experience, location, jobType, 0))
  }

  // ---------------------------------------------------------------------
  // The tool

  const FitPreamble: string := "You are an AI assistant helping to score candidate fit for a job.\n"
  const FitAsk: string := "Given the following job and candidate data, return a fit score (0-100) and a breakdown:\n"
  const FitContextLabel: string := "User context: "
  const FitDataLabel: string := "\n" + FitAsk + "Data: "
  const FitFooter: string := "\n\nRespond ONLY in valid JSON with the expected output format."

  /** The prompt up to the data. */
  function FitHead(context: Dict): string
  {
    FitPreamble + FitContextLabel + Repr(Object(context)) + FitDataLabel
  }

  /** `_generate_llm_prompt`: the context and the data, written with
      `repr`. */
  function FitPrompt(input: FitScoringInput): string
  {
    FitHead(ContextOf(input.context)) + Repr(Object(input.data)) + FitFooter
  }

  /** The output in "llm" mode. */
  function LlmOutput(input: FitScoringInput): FitScoringOutput
  {
    var context := ContextOf(input.context);
    FitScoringOutput(0, map[], "LLM prompt generated.",
      Put(Put(context, "llm_prompt", Str(FitPrompt(input))), "processing_mode", Str("llm")))
  }

  /** `FitScoringTool.execute`. */
  function Executed(input: FitScoringInput, lookup: JobLookup): Outcome
  {
    var context := ContextOf(input.context);
    if Mode(context) == Str("llm") then Returned(LlmOutput(input))
    else
      match Get(input.data, "job_id")
      case None => Raised("KeyError")
      case Some(id) =>
        match lookup(id)
        case None => Returned(FitScoringOutput(0, map[], "Job not found.", context))
        case Some(job) => Scored(job, input.data, context)
  }

  /** `execute` as the source writes it: the mode test, the lookup, and
      the scoring. */
  method Execute(input: FitScoringInput, lookup: JobLookup) returns (outcome: Outcome)
    ensures outcome == Executed(input, lookup)
  {
    var data := input.data;
    var context := ContextOf(input.context);
    var mode := Mode(context);
    if mode == Str("llm") {
      var prompt := FitPrompt(input);
      return Returned(FitScoringOutput(0, map[], "LLM prompt generated.",
        Put(Put(context, "llm_prompt", Str(prompt)), "processing_mode", Str("llm"))));
    }
    var id := Get(data, "job_id");
    if id.None? {
      return Raised("KeyError");
    }
    var job := lookup(id.value);
    if job.None? {
      return Returned(FitScoringOutput(0, map[], "Job not found.", context));
    }
    outcome := ScoreJob(job.value, data, context);
  }

  /** The scoring of a found job, accumulating `score` and filling
      `breakdown` entry by entry. */
  method ScoreJob(job: JobRecord, data: Dict, context: Dict) returns (outcome: Outcome)
    ensures outcome == Scored(job, data, context)
  {
    ScoredRaises(job, data, context);
    var score := 0;
    var breakdown: map<string, int> := map[];

    if job.techStack.None? {
      return Raised("TypeError");
    }
    var requiredSkills := SetOf(job.techStack.value);
    var candidateSkills := SkillSet(GetOr(data, "candidate_skills", List([])));
    if candidateSkills.None? {
      return Raised("TypeError");
    }
    var skillScore := SkillScore(requiredSkills, candidateSkills.value);
    score := score + skillScore;
    breakdown := breakdown["skills" := skillScore];

    var candidateExp := Number(GetOr(data, "candidate_experience", Int(0)));
    if candidateExp.None? {
      return Raised("TypeError");
    }
    var expScore := ExperienceScore(job.yearsExperience, candidateExp.value);
    score := score + expScore;
    breakdown := breakdown["experience" := expScore];

    if job.location.None? {
      return Raised("AttributeError");
    }
    var jobLocation := Lower(job.location.value);
    var candidateLocation := LoweredLocation(GetOr(data, "candidate_location", Null));
    if candidateLocation.None? {
      return Raised("AttributeError");
    }
    var locScore := LocationScore(jobLocation, candidateLocation.value,
      Truthy(GetOr(data, "willing_to_relocate", Bool(false))));
    score := score + locScore;
    breakdown := breakdown["location" := locScore];

    var typeScore := JobTypeScore(job.jobType, GetOr(data, "preferred_type", Null));
    score := score + typeScore;
    breakdown := breakdown["job_type" := typeScore];

    var otherScore := 0;
    score := score + otherScore;
    breakdown := breakdown["other" := otherScore];

    var scores := Scores(skillScore, expScore, locScore, typeScore, otherScore);
    // The f-string reads the five entries back from `breakdown`.
    var explanation := Explanation(scores);
    outcome := Returned(FitScoringOutput(if score < 100 then score else 100, breakdown, explanation,
      Put(context, "processing_mode", Str("backend"))));
    ScoredFound(job, data, context, job.techStack.value, candidateSkills.value, candidateExp.value,
      job.location.value, candidateLocation.value);
  }

  /** Where the scoring of a found job raises, and what. */
  lemma ScoredRaises(job: JobRecord, data: Dict, context: Dict)
    ensures var skills := SkillSet(GetOr(data, "candidate_skills", List([])));
      var years := Number(GetOr(data, "candidate_experience", Int(0)));
      var location := LoweredLocation(GetOr(data, "candidate_location", Null));
      && (job.techStack.None? || skills.None? ==> Scored(job, data, context) == Raised("TypeError"))
      && (job.techStack.Some? && skills.Some? && years.None? ==> Scored(job, data, context) == Raised("TypeError"))
      && (job.techStack.Some? && skills.Some? && years.Some? && (job.location.None? || location.None?)
          ==> Scored(job, data, context) == Raised("AttributeError"))
  {
  }

  /** The scoring of a found job when nothing raises. */
  lemma ScoredFound(job: JobRecord, data: Dict, context: Dict, stack: seq<string>, candidateSkills: set<string>,
                    years: int, jobLocation: string, candidateLocation: string)
    requires job.techStack == Some(stack)
    requires SkillSet(GetOr(data, "candidate_skills", List([]))) == Some(candidateSkills)
    requires Number(GetOr(data, "candidate_experience", Int(0))) == Some(years)
    requires job.location == Some(jobLocation)
    requires LoweredLocation(GetOr(data, "candidate_location", Null)) == Some(candidateLocation)
    ensures Scored(job, data, context) == Returned(ScoredOutput(Scores(
      SkillScore(SetOf(stack), candidateSkills),
      ExperienceScore(job.yearsExperience, years),
      LocationScore(Lower(jobLocation), candidateLocation, Truthy(GetOr(data, "willing_to_relocate", Bool(false)))),
      JobTypeScore(job.jobType, GetOr(data, "preferred_type", Null)),
      0), context))
  {
  }

  /** `fit_scoring_prompt`. */
  function FitScoringPrompt(input: FitScoringInput): string
  {
    FitPrompt(input)
  }

  // ---------------------------------------------------------------------
  // Properties of the partial scores

  /** The skill score lies in [0, 50]; it is 50 exactly when some skills
      are required and the candidate has all of them, and 0 when none are
      required. */
  lemma SkillScoreRange(required: set<string>, candidate: set<string>)
    ensures 0 <= SkillScore(required, candidate) <= 50
    ensures SkillScore(required, candidate) == 50 <==> required != {} && required <= candidate
    ensures required == {} ==> SkillScore(required, candidate) == 0
  {
    var common := required * candidate;
    SubsetSize(common, required);
    if required != {} {
      FullMatch(required, candidate);
      Scaled(|common|, |required|);
    }
  }

  /** All required skills are matched exactly when the candidate has all
      of them. */
  lemma FullMatch(required: set<string>, candidate: set<string>)
    ensures |required * candidate| == |required| <==> required <= candidate
  {
    var common := required * candidate;
    if !(required <= candidate) {
      var x :| x in required && x !in candidate;
      assert common <= required - {x};
      SubsetSize(common, required - {x});
    } else {
      assert common == required;
    }
  }

  /** `50 * k / n` for `k` out of `n` lies in [0, 50], and is 50 only for
      `k == n`. */
  lemma Scaled(k: int, n: int)
    requires 0 <= k <= n && n > 0
    ensures 0 <= 50 * k / n <= 50
    ensures 50 * k / n == 50 <==> k == n
  {
    DivAtMost(50 * k, n, 50);
    if k < n {
      DivBelow(50 * k, n, 50);
    } else {
      FiftyOverN(n);
    }
  }

  /** `50 * n / n == 50`. */
  lemma FiftyOverN(n: int)
    requires n > 0
    ensures 50 * n / n == 50
  {
    var q := 50 * n / n;
    assert 50 * n == n * q + 50 * n % n;
    if q <= 49 {
      MulMonotone(n, q, 49);
    } else if q >= 51 {
      MulMonotone(n, 51, q);
    }
  }

  /** A subset is no larger than its superset. */
  lemma {:induction false} SubsetSize(a: set<string>, b: set<string>)
    requires a <= b
    ensures |a| <= |b|
    decreases |a|
  {
    if a != {} {
      var x :| x in a;
      SubsetSize(a - {x}, b - {x});
    }
  }

  /** `a / n <= c` when `a <= c * n`. */
  lemma DivAtMost(a: int, n: int, c: int)
    requires n > 0 && 0 <= a <= c * n
    ensures 0 <= a / n <= c
  {
  }

  /** `a / n < c` when `a < c * n`. */
  lemma DivBelow(a: int, n: int, c: int)
    requires n > 0 && 0 <= a < c * n
    ensures a / n < c
  {
    var q := a / n;
    assert a == n * q + a % n;
    if q >= c {
      assert n * q >= n * c by { MulMonotone(n, c, q); }
    }
  }

  lemma MulMonotone(n: int, x: int, y: int)
    requires n >= 0 && x <= y
    ensures n * x <= n * y
  {
    assert n * y - n * x == n * (y - x);
  }

  /** 20 exactly for enough experience, 10 exactly for at least three
      quarters of it, 0 exactly below that; and more experience never
      scores less. */
  lemma ExperienceScoreCases(required: int, candidate: int, more: int)
    requires candidate <= more
    ensures ExperienceScore(required, candidate) == 20 <==> candidate >= required
    ensures ExperienceScore(required, candidate) == 10 <==> candidate < required && 4 * candidate >= 3 * required
    ensures ExperienceScore(required, candidate) == 0 <==> candidate < required && 4 * candidate < 3 * required
    ensures ExperienceScore(required, candidate) <= ExperienceScore(required, more)
  {
  }

  /** 10 exactly for the same location; 5 exactly for a different one when
      the job is remote or the candidate would relocate; 0 otherwise. */
  lemma LocationScoreCases(jobLocation: string, candidateLocation: string, willingToRelocate: bool)
    ensures var r := LocationScore(jobLocation, candidateLocation, willingToRelocate);
      && (r == 10 <==> jobLocation == candidateLocation)
      && (r == 5 <==> jobLocation != candidateLocation && (jobLocation == "remote" || willingToRelocate))
      && (r == 0 <==> jobLocation != candidateLocation && jobLocation != "remote" && !willingToRelocate)
  {
  }

  /** 10 exactly when the job has a non-empty type and the candidate
      prefers that very type; a job without a type always scores 0. */
  lemma JobTypeScoreCases(jobType: Option<string>, preferred: Value)
    ensures JobTypeScore(jobType, preferred) == 10 <==>
      exists t :: jobType == Some(t) && t != [] && preferred == Str(t)
    ensures JobTypeScore(jobType, preferred) != 10 ==> JobTypeScore(jobType, preferred) == 0
    ensures jobType == None ==> JobTypeScore(jobType, preferred) == 0
  {
    if jobType.Some? && jobType.value != [] && preferred == Str(jobType.value) {
      assert Truthy(preferred);
    }
  }

  // ---------------------------------------------------------------------
  // Properties of the tool

  /** The scoring raises exactly when the job's skills or location are
      missing, or the candidate's skills cannot be iterated, the experience
      is not a number or the location is neither falsy nor a string. */
  lemma ScoringRaises(job: JobRecord, data: Dict, context: Dict)
    ensures Scored(job, data, context).Raised? <==>
      || job.techStack.None?
      || SkillSet(GetOr(data, "candidate_skills", List([]))).None?
      || Number(GetOr(data, "candidate_experience", Int(0))).None?
      || job.location.None?
      || LoweredLocation(GetOr(data, "candidate_location", Null)).None?
  {
  }

  /** The partial scores lie in their ranges: skills in [0, 50],
      experience 0, 10 or 20, location 0, 5 or 10, job type 0 or 10, and
      other 0. */
  predicate InRange(s: Scores)
  {
    && 0 <= s.skills <= 50
    && s.experience in {0, 10, 20}
    && s.location in {0, 5, 10}
    && s.jobType in {0, 10}
    && s.other == 0
  }

  /** Every scoring that succeeds stays in range. */
  lemma ScoresInRange(job: JobRecord, data: Dict)
    requires ScoresOf(job, data).Success?
    ensures InRange(ScoresOf(job, data).scores)
  {
    var stack := job.techStack.value;
    var candidateSkills := SkillSet(GetOr(data, "candidate_skills", List([]))).value;
    SkillScoreRange(SetOf(stack), candidateSkills);
  }

  /** The output for scores in range: the five breakdown entries, and a
      fit score that is their sum (the cap of 100 never applies, as the sum
      is at most 90). */
  lemma ScoredOutputShape(s: Scores, context: Dict)
    requires InRange(s)
    ensures var out := ScoredOutput(s, context);
      var b := out.breakdown;
      && b.Keys == {"skills", "experience", "location", "job_type", "other"}
      && b["skills"] == s.skills && b["experience"] == s.experience && b["location"] == s.location
      && b["job_type"] == s.jobType && b["other"] == s.other
      && out.fitScore == b["skills"] + b["experience"] + b["location"] + b["job_type"] + b["other"]
      && 0 <= out.fitScore <= 90
  {
    BreakdownEntries(s);
  }

  /** Each entry of the breakdown holds its own partial score. */
  lemma BreakdownEntries(s: Scores)
    ensures var b := BreakdownOf(s);
      && b.Keys == {"skills", "experience", "location", "job_type", "other"}
      && b["skills"] == s.skills && b["experience"] == s.experience && b["location"] == s.location
      && b["job_type"] == s.jobType && b["other"] == s.other
  {
  }

  /** The explanation writes out each breakdown entry over its maximum, and
      the context is marked "backend". */
  lemma ScoredExplanation(s: Scores, context: Dict)
    ensures var out := ScoredOutput(s, context);
      var b := out.breakdown;
      && out.explanation == SkillsLabel + IntToString(b["skills"]) + ExperienceLabel + IntToString(b["experience"])
           + LocationLabel + IntToString(b["location"]) + JobTypeLabel + IntToString(b["job_type"])
           + OtherLabel + IntToString(b["other"]) + ExplanationEnd
      && Get(out.context, "processing_mode") == Some(Str("backend"))
  {
    BreakdownEntries(s);
    PutGet(context, "processing_mode", Str("backend"), "processing_mode");
  }

  /** A found job that scores: a fit score in [0, 90] that is the sum of
      the in-range breakdown. */
  lemma FitScoreIsSum(job: JobRecord, data: Dict, context: Dict)
    requires Scored(job, data, context).Returned?
    ensures var out := Scored(job, data, context).output;
      && InRange(ScoresOf(job, data).scores)
      && out.breakdown == BreakdownOf(ScoresOf(job, data).scores)
      && out.fitScore == Total(ScoresOf(job, data).scores)
      && 0 <= out.fitScore <= 90
  {
    ScoresInRange(job, data);
    ScoredOutputShape(ScoresOf(job, data).scores, context);
  }

  /** The backend output keeps the caller's context: its keys stay where
      they were, and every key but "processing_mode" keeps its value. */
  lemma BackendKeepsContext(context: Dict, key: string)
    ensures var out := Put(context, "processing_mode", Str("backend"));
      && Keys(out)[..|context|] == Keys(context)
      && (key != "processing_mode" ==> Get(out, key) == Get(context, key))
  {
    PutKeepsKeys(context, "processing_mode", Str("backend"));
    PutGet(context, "processing_mode", Str("backend"), key);
  }

  /** A job as the database stores it has no experience requirement and no
      type: any candidate with non-negative experience scores the full 20
      for it, and the job type always scores 0. */
  lemma StoredJobScores(techStack: Option<seq<string>>, location: Option<string>, years: int, preferred: Value)
    requires years >= 0
    ensures ExperienceScore(StoredJob(techStack, location).yearsExperience, years) == 20
    ensures JobTypeScore(StoredJob(techStack, location).jobType, preferred) == 0
  {
  }

  /** An unknown job id gives a zero score, an empty breakdown, "Job not
      found." and the caller's context unchanged. */
  lemma NotFound(input: FitScoringInput, lookup: JobLookup, id: Value)
    requires Mode(ContextOf(input.context)) != Str("llm")
    requires Get(input.data, "job_id") == Some(id) && lookup(id) == None
    ensures Executed(input, lookup) == Returned(FitScoringOutput(0, map[], "Job not found.", ContextOf(input.context)))
  {
  }

  /** In "llm" mode no job is looked up: the score is 0, the breakdown is
      empty, and the context gains the prompt and the mode "llm". */
  lemma LlmMode(input: FitScoringInput, lookup: JobLookup, other: JobLookup)
    requires Mode(ContextOf(input.context)) == Str("llm")
    ensures Executed(input, lookup) == Executed(input, other)
    ensures var out := Executed(input, lookup).output;
      && out.fitScore == 0 && out.breakdown == map[]
      && out.explanation == "LLM prompt generated."
      && Get(out.context, "llm_prompt") == Some(Str(FitScoringPrompt(input)))
      && Get(out.context, "processing_mode") == Some(Str("llm"))
      && Keys(out.context)[..|ContextOf(input.context)|] == Keys(ContextOf(input.context))
  {
    var context := ContextOf(input.context);
    var once := Put(context, "llm_prompt", Str(FitPrompt(input)));
    PutGet(context, "llm_prompt", Str(FitPrompt(input)), "processing_mode");
    PutGet(once, "processing_mode", Str("llm"), "llm_prompt");
    PutGet(once, "processing_mode", Str("llm"), "processing_mode");
    PutKeepsKeys(context, "llm_prompt", Str(FitPrompt(input)));
    PutKeepsKeys(once, "processing_mode", Str("llm"));
    PrefixOfPrefix(Keys(Put(once, "processing_mode", Str("llm"))), Keys(once), Keys(context));
  }

  /** The declared input schema carries no "job_id", so outside "llm" mode
      `data["job_id"]` raises a `KeyError` before any job is looked up. */
  lemma DeclaredInputRaises(jobData: Value, resumeData: Value, context: Option<Dict>, lookup: JobLookup)
    requires Mode(ContextOf(context)) != Str("llm")
    ensures Executed(DeclaredInput(jobData, resumeData, context), lookup) == Raised("KeyError")
  {
    var data := DeclaredInput(jobData, resumeData, context).data;
    assert data[0].0 == "job_data" && data[1].0 == "resume_data";
    assert Get(data[1..][1..], "job_id") == None;
  }

  /** The prompt shows the caller's context and the input data. */
  lemma PromptShowsInput(input: FitScoringInput)
    ensures Contains(FitScoringPrompt(input), Repr(Object(input.data)))
    ensures Contains(FitScoringPrompt(input), Repr(Object(ContextOf(input.context))))
  {
    var context := ContextOf(input.context);
    var prompt := FitScoringPrompt(input);
    ContainsPart(prompt, FitHead(context), Repr(Object(input.data)), FitFooter);
    ContainsPart(FitHead(context), FitPreamble + FitContextLabel, Repr(Object(context)), FitDataLabel);
    assert FitHead(context) <= prompt;
    ContainsTransitive(prompt, FitHead(context), Repr(Object(context)));
  }
}
