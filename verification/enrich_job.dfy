/**
 * The `enrich_job` tool. It builds a prompt that lists the job's missing
 * fields and every known field. In agentic mode it returns the prompt
 * without the model's answer. In backend mode it merges the model's JSON
 * object into the job data, filling only the keys whose current value is
 * falsy. The model call and `json.loads` are outside the model: their
 * outcome is a parameter.
 */
module EnrichJob {
  import opened Options
  import opened Strings
  import opened PyValues

  /** The job fields, in the order the prompt lists them; also the order in
      which `model_dump` writes the input's fields. */
  const AllFields: seq<string> := [
    "title", "description", "company", "location", "job_category", "url",
    "work_mode", "job_type", "experience_level", "salary_min", "salary_max",
    "currency", "visa_sponsorship", "source", "tech_stack"]

  /** The tool's input: every optional field may be `None`. */
  datatype EnrichJobInput = EnrichJobInput(
    title: string,
    description: string,
    company: Option<string>,
    location: Option<string>,
    jobCategory: Option<string>,
    url: Option<string>,
    workMode: Option<string>,
    jobType: Option<string>,
    experienceLevel: Option<string>,
    salaryMin: Option<int>,
    salaryMax: Option<int>,
    currency: Option<string>,
    visaSponsorship: Option<bool>,
    source: Option<string>,
    techStack: Option<seq<string>>,
    context: Option<Dict>)

  /** The input as built with only a title, a description and a context:
      the optional fields take their declared defaults. */
  function WithDefaults(title: string, description: string, context: Option<Dict>): EnrichJobInput
  {
    EnrichJobInput(title, description, Some(""), Some(""), Some(""), Some(""), Some(""), Some(""),
      Some(""), Some(0), Some(0), Some(""), Some(false), Some(""), Some([]), context)
  }

  function OptStr(o: Option<string>): Value
  {
    match o
    case Some(s) => Str(s)
    case None => Null
  }

  function OptInt(o: Option<int>): Value
  {
    match o
    case Some(i) => Int(i)
    case None => Null
  }

  /** The input's field values, in the order of `AllFields`. */
  function FieldValues(input: EnrichJobInput): (r: seq<Value>)
    ensures |r| == |AllFields|
  {
    [Str(input.title), Str(input.description), OptStr(input.company), OptStr(input.location),
     OptStr(input.jobCategory), OptStr(input.url), OptStr(input.workMode), OptStr(input.jobType),
     OptStr(input.experienceLevel), OptInt(input.salaryMin), OptInt(input.salaryMax),
     OptStr(input.currency),
     match input.visaSponsorship case Some(b) => Bool(b) case None => Null,
     OptStr(input.source),
     match input.techStack
       case Some(ts) => List(seq(|ts|, k requires 0 <= k < |ts| => Str(ts[k])))
       case None => Null]
  }

  /** `input.model_dump(exclude={"context"})`: each field under its name. */
  function JobData(input: EnrichJobInput): (r: Dict)
    ensures Keys(r) == AllFields
  {
    var values := FieldValues(input);
    seq(|AllFields|, i requires 0 <= i < |AllFields| => (AllFields[i], values[i]))
  }

  /** `input.context or {}`. */
  function ContextOf(input: EnrichJobInput): Dict
  {
    match input.context
    case Some(c) => c
    case None => []
  }

  // ---------------------------------------------------------------------
  // Missing fields

  /** The entries of `fields` whose value in `jobData` is falsy or absent,
      in order. */
  function FalsyFields(fields: seq<string>, jobData: Dict): seq<string>
  {
    if fields == [] then []
    else
      var rest := FalsyFields(fields[1..], jobData);
      if Truthy(GetOr(jobData, fields[0], Null)) then rest else [fields[0]] + rest
  }

  /** `missing_fields`. */
  function MissingFields(jobData: Dict): seq<string>
  {
    FalsyFields(AllFields, jobData)
  }

  /** `a` is `b` with some entries left out, the rest in their order. */
  predicate Subsequence(a: seq<string>, b: seq<string>)
    decreases |b|
  {
    if a == [] then true
    else if b == [] then false
    else (a[0] == b[0] && Subsequence(a[1..], b[1..])) || Subsequence(a, b[1..])
  }

  /** A field is missing exactly when it is one of the fields and its value
      is falsy or absent; the missing fields keep the fields' order. */
  lemma {:induction false} FalsyFieldsExactly(fields: seq<string>, jobData: Dict)
    ensures forall f :: f in FalsyFields(fields, jobData) <==> f in fields && !Truthy(GetOr(jobData, f, Null))
    ensures Subsequence(FalsyFields(fields, jobData), fields)
  {
    if fields != [] {
      FalsyFieldsExactly(fields[1..], jobData);
      var rest := FalsyFields(fields[1..], jobData);
      assert fields == [fields[0]] + fields[1..];
      if Truthy(GetOr(jobData, fields[0], Null)) {
        SubsequenceSkip(rest, fields);
      } else {
        assert ([fields[0]] + rest)[1..] == rest;
      }
    }
  }

  /** Skipping the head of `b` keeps a subsequence of its tail. */
  lemma SubsequenceSkip(a: seq<string>, b: seq<string>)
    requires b != [] && Subsequence(a, b[1..])
    ensures Subsequence(a, b)
  {
  }

  /** The missing fields of a job. */
  lemma MissingFieldsExactly(jobData: Dict)
    ensures forall f :: f in MissingFields(jobData) <==> f in AllFields && !Truthy(GetOr(jobData, f, Null))
    ensures Subsequence(MissingFields(jobData), AllFields)
  {
    FalsyFieldsExactly(AllFields, jobData);
  }

  // ---------------------------------------------------------------------
  // The merge

  /** One turn of the merge loop: a key takes the model's value unless it
      already holds a truthy one. */
  function Fill(jobData: Dict, entry: (string, Value)): Dict
  {
    if Truthy(GetOr(jobData, entry.0, Null)) then jobData else Put(jobData, entry.0, entry.1)
  }

  /** The job data after the loop over the model's entries. */
  function Merged(jobData: Dict, entries: Dict): Dict
  {
    if entries == [] then jobData
    else Fill(Merged(jobData, entries[..|entries| - 1]), entries[|entries| - 1])
  }

  /** The merge loop as the source writes it, updating the job data in
      place. */
  method MergeFillFalsy(jobData: Dict, enriched: Dict) returns (merged: Dict)
    ensures merged == Merged(jobData, enriched)
  {
    merged := jobData;
    for i := 0 to |enriched|
      invariant merged == Merged(jobData, enriched[..i])
    {
      assert enriched[..i + 1][..i] == enriched[..i];
      var (key, value) := enriched[i];
      if !Truthy(GetOr(merged, key, Null)) {
        merged := Put(merged, key, value);
      }
    }
    assert enriched[..|enriched|] == enriched;
  }

  /** What a key holds after the merge: the model's value where the job
      had nothing truthy under it, the job's own value everywhere else. */
  lemma {:induction false} MergedLookup(jobData: Dict, entries: Dict, key: string)
    requires UniqueKeys(entries)
    ensures Get(Merged(jobData, entries), key) ==
      if key in Keys(entries) && !Truthy(GetOr(jobData, key, Null)) then Get(entries, key)
      else Get(jobData, key)
  {
    if entries != [] {
      var front := entries[..|entries| - 1];
      var (k, v) := entries[|entries| - 1];
      var before := Merged(jobData, front);
      LastSplit(entries);
      assert UniqueKeys(front);
      MergedLookup(jobData, front, key);
      MergedLookup(jobData, front, k);
      GetSnoc(front, k, v, key);
      FillGet(before, k, v, key);
      assert GetOr(before, k, Null) == GetOr(jobData, k, Null);
    }
  }

  /** A non-empty dict is its front followed by its last entry. */
  lemma LastSplit(d: Dict)
    requires d != []
    ensures d == d[..|d| - 1] + [d[|d| - 1]]
  {
  }

  /** Looking up after one turn of the merge loop. */
  lemma FillGet(d: Dict, k: string, v: Value, key: string)
    ensures Get(Fill(d, (k, v)), key) ==
      if key == k && !Truthy(GetOr(d, k, Null)) then Some(v) else Get(d, key)
  {
    PutGet(d, k, v, key);
  }

  /** Looking up in a dict with one more entry at the end. */
  lemma {:induction false} GetSnoc(d: Dict, k: string, v: Value, key: string)
    requires UniqueKeys(d + [(k, v)])
    ensures k !in Keys(d)
    ensures key in Keys(d + [(k, v)]) <==> key in Keys(d) || key == k
    ensures Get(d + [(k, v)], key) == if key == k then Some(v) else Get(d, key)
  {
    var e := d + [(k, v)];
    assert Keys(e) == Keys(d) + [k];
    forall i | 0 <= i < |d|
      ensures Keys(d)[i] != k
    {
      assert e[i].0 != e[|d|].0;
    }
    if d != [] {
      assert e[1..] == d[1..] + [(k, v)];
      assert UniqueKeys(e[1..]);
      GetSnoc(d[1..], k, v, key);
      assert Keys(d) == [d[0].0] + Keys(d[1..]);
    }
  }

  /** The merge keeps the job's keys where they were and the keys unique. */
  lemma {:induction false} MergedKeys(jobData: Dict, entries: Dict)
    requires UniqueKeys(jobData)
    ensures UniqueKeys(Merged(jobData, entries))
    ensures |Merged(jobData, entries)| >= |jobData|
    ensures Keys(Merged(jobData, entries))[..|jobData|] == Keys(jobData)
  {
    if entries != [] {
      var before := Merged(jobData, entries[..|entries| - 1]);
      var (k, v) := entries[|entries| - 1];
      MergedKeys(jobData, entries[..|entries| - 1]);
      if !Truthy(GetOr(before, k, Null)) {
        PutUnique(before, k, v);
        assert Keys(Put(before, k, v))[..|before|] == Keys(before);
        assert Keys(before)[..|jobData|] == Keys(jobData);
      }
    }
  }

  // ---------------------------------------------------------------------
  // The prompt

  /** The opening line. */
  const Preamble: string := "You are an AI assistant helping to structure job postings for a job tracking app.\n"

  /** The line that introduces the missing fields. */
  const AskLine: string := "Given the following job posting, infer or extract ONLY the following missing fields:\n"

  /** The prompt up to the list of missing fields. */
  function HeadBefore(context: Dict): string
  {
    Preamble + ContextLabel + Repr(Object(context)) + "\n" + AskLine
  }

  const ContextLabel: string := "User context: "

  /** The list of missing fields, or a note that there are none. */
  function MissingLine(missing: seq<string>): string
  {
    if missing != [] then Join(missing, ", ") else NoneMissing
  }

  /** The prompt from the end of the missing fields to the known data. */
  const HeadAfter: string :=
    "\n" + "Also, always provide a structured summary with the following sections:\n"
    + "About the job\nJob Responsibilities\nRequirements\nPreferred Qualifications\n"
    + "\nKnown job data:\n"

  /** The closing instructions. */
  const Footer: string :=
    "\nRespond ONLY in valid JSON with keys for the missing fields you filled, "
    + "and a 'summary' key (dict with keys: about, responsibilities, requirements, preferred_qualifications)."

  /** `f"{field}: {job_data.get(field, '')}\n"`. */
  function FieldLine(field: string, jobData: Dict): string
  {
    field + ": " + StrOf(GetOr(jobData, field, Str(""))) + "\n"
  }

  /** The lines of `fields`, in order. */
  function FieldLines(fields: seq<string>, jobData: Dict): string
  {
    if fields == [] then []
    else FieldLines(fields[..|fields| - 1], jobData) + FieldLine(fields[|fields| - 1], jobData)
  }

  /** The text `_generate_llm_prompt` returns. */
  function PromptText(jobData: Dict, context: Dict): string
  {
    HeadBefore(context) + MissingLine(MissingFields(jobData)) + HeadAfter
    + FieldLines(AllFields, jobData) + Footer
  }

  /** `_generate_llm_prompt`: the head, then one `+=` per field, then the
      closing instructions. */
  method GenerateLlmPrompt(jobData: Dict, context: Dict) returns (prompt: string)
    ensures prompt == PromptText(jobData, context)
  {
    var missing := MissingFields(jobData);
    var head := HeadBefore(context) + MissingLine(missing) + HeadAfter;
    prompt := AppendFieldLines(head, AllFields, jobData);
    prompt := prompt + Footer;
  }

  /** `for field in fields: prompt += f"{field}: ..."`. */
  method AppendFieldLines(head: string, fields: seq<string>, jobData: Dict) returns (prompt: string)
    ensures prompt == head + FieldLines(fields, jobData)
  {
    prompt := head;
    for i := 0 to |fields|
      invariant prompt == head + FieldLines(fields[..i], jobData)
    {
      assert fields[..i + 1][..i] == fields[..i];
      Appended(head, FieldLines(fields[..i], jobData), FieldLine(fields[i], jobData));
      prompt := prompt + FieldLine(fields[i], jobData);
    }
    assert fields[..|fields|] == fields;
  }

  lemma Appended(a: string, b: string, c: string)
    ensures a + b + c == a + (b + c)
  {
  }

  /** The second and fourth of five pieces lie in their concatenation. */
  lemma HoldsPieces(text: string, a: string, b: string, c: string, d: string, e: string)
    requires text == a + b + c + d + e
    ensures Contains(text, b) && Contains(text, d)
  {
    ContainsPart(text, a, b, c + d + e);
    ContainsPart(text, a + b + c, d, e);
  }

  /** The prompt holds the missing-field line and the field lines. */
  lemma PromptPieces(jobData: Dict, context: Dict)
    ensures Contains(PromptText(jobData, context), MissingLine(MissingFields(jobData)))
    ensures Contains(PromptText(jobData, context), FieldLines(AllFields, jobData))
  {
    HoldsPieces(PromptText(jobData, context), HeadBefore(context), MissingLine(MissingFields(jobData)),
      HeadAfter, FieldLines(AllFields, jobData), Footer);
  }

  /** No field name starts with `N`, so no list of them reads as the note. */
  lemma FieldInitials()
    ensures forall f :: f in AllFields ==> f != [] && f[0] != 'N'
  {
  }

  const NoneMissing: string := "None (all fields present)"

  /** The note appears exactly when the list is empty, for any list of
      names that do not start with `N`. */
  lemma MissingLineNote(missing: seq<string>)
    requires forall f :: f in missing ==> f != [] && f[0] != 'N'
    ensures MissingLine(missing) == "None (all fields present)" <==> missing == []
  {
    if missing != [] {
      assert missing[0] in missing;
      JoinStartsWithFirst(missing, ", ");
    }
  }

  /** The prompt lists the missing fields, and says "None (all fields
      present)" exactly when no field is missing. */
  lemma PromptListsMissing(jobData: Dict, context: Dict)
    ensures Contains(PromptText(jobData, context), MissingLine(MissingFields(jobData)))
    ensures MissingLine(MissingFields(jobData)) == "None (all fields present)" <==> MissingFields(jobData) == []
  {
    PromptPieces(jobData, context);
    MissingFieldsExactly(jobData);
    FieldInitials();
    MissingLineNote(MissingFields(jobData));
  }

  /** A join starts with its first part. */
  lemma JoinStartsWithFirst(parts: seq<string>, sep: string)
    requires parts != []
    ensures parts[0] <= Join(parts, sep)
  {
  }

  /** The lines of `fields` hold the line of each of them. */
  lemma {:induction false} FieldLinesHold(fields: seq<string>, jobData: Dict, i: nat)
    requires i < |fields|
    ensures Contains(FieldLines(fields, jobData), FieldLine(fields[i], jobData))
  {
    var text := FieldLines(fields, jobData);
    var front := FieldLines(fields[..|fields| - 1], jobData);
    var last := FieldLine(fields[|fields| - 1], jobData);
    assert text == front + last;
    if i == |fields| - 1 {
      ContainsRight(text, front, last);
    } else {
      assert fields[..|fields| - 1][i] == fields[i];
      FieldLinesHold(fields[..|fields| - 1], jobData, i);
      ContainsLeft(text, front, last);
      ContainsTransitive(text, front, FieldLine(fields[i], jobData));
    }
  }

  /** The prompt has a `field: value` line for every field, with `''` for
      an absent one. */
  lemma PromptHasFieldLines(jobData: Dict, context: Dict, field: string)
    requires field in AllFields
    ensures Contains(PromptText(jobData, context), FieldLine(field, jobData))
  {
    var i :| 0 <= i < |AllFields| && AllFields[i] == field;
    FieldLinesHold(AllFields, jobData, i);
    PromptPieces(jobData, context);
    ContainsTransitive(PromptText(jobData, context), FieldLines(AllFields, jobData), FieldLine(field, jobData));
  }

  /** The title and description lines of a job. */
  lemma TitleAndDescriptionLines(input: EnrichJobInput)
    ensures FieldLine("title", JobData(input)) == "title" + ": " + input.title + "\n"
    ensures FieldLine("description", JobData(input)) == "description" + ": " + input.description + "\n"
  {
    var jobData := JobData(input);
    assert jobData[0] == ("title", Str(input.title));
    assert jobData[1..][0] == ("description", Str(input.description));
    assert Get(jobData, "title") == Some(Str(input.title));
    assert Get(jobData[1..], "description") == Some(Str(input.description));
  }

  /** The job's title and description appear verbatim in its prompt. */
  lemma PromptShowsTitleAndDescription(input: EnrichJobInput, context: Dict)
    ensures Contains(PromptText(JobData(input), context), input.title)
    ensures Contains(PromptText(JobData(input), context), input.description)
  {
    var jobData := JobData(input);
    var prompt := PromptText(jobData, context);
    PromptHasFieldLines(jobData, context, "title");
    PromptHasFieldLines(jobData, context, "description");
    TitleAndDescriptionLines(input);
    ContainsPart(FieldLine("title", jobData), "title" + ": ", input.title, "\n");
    ContainsPart(FieldLine("description", jobData), "description" + ": ", input.description, "\n");
    ContainsTransitive(prompt, FieldLine("title", jobData), input.title);
    ContainsTransitive(prompt, FieldLine("description", jobData), input.description);
  }

  // ---------------------------------------------------------------------
  // The tool

  /** What `json.loads(await call_llm(prompt))` produced: a value, or the
      message of the exception it raised (`call_llm` turns a failed request
      into a text that is not JSON). */
  datatype LlmReply = Parsed(value: Value) | Raised(message: string)

  /** The tool's output. */
  datatype EnrichJobOutput = EnrichJobOutput(enrichedData: Dict, context: Dict)

  /** `{**context, "llm_prompt": prompt, "enrichment_mode": mode}`. */
  function WithPrompt(context: Dict, prompt: string, mode: string): Dict
  {
    Put(Put(context, "llm_prompt", Str(prompt)), "enrichment_mode", Str(mode))
  }

  /** Python's type name of a JSON value. */
  function TypeName(v: Value): string
  {
    match v
    case Null => "NoneType"
    case Bool(_) => "bool"
    case Int(_) => "int"
    case Str(_) => "str"
    case List(_) => "list"
    case Object(_) => "dict"
  }

  /** The message of the `AttributeError` raised by `.items()` on a value
      that is not a dict. */
  function NoItemsMessage(v: Value): string
  {
    "'" + TypeName(v) + "' object has no attribute 'items'"
  }

  /** What `execute` returns for an input and the model's reply (which it
      consults only in backend mode). */
  function Executed(input: EnrichJobInput, reply: LlmReply): EnrichJobOutput
  {
    var context := ContextOf(input);
    Respond(context, JobData(input), PromptText(JobData(input), context), reply)
  }

  /** The branches of `execute` once the prompt is built. */
  function Respond(context: Dict, jobData: Dict, prompt: string, reply: LlmReply): EnrichJobOutput
  {
    if Mode(context) == Str("agentic") then
      EnrichJobOutput([], ResponseContext(context, prompt, "agentic", None))
    else
      match reply
      case Parsed(Object(entries)) =>
        EnrichJobOutput(Merged(jobData, entries), ResponseContext(context, prompt, "backend", None))
      case Parsed(v) =>
        EnrichJobOutput(jobData, ResponseContext(context, prompt, "backend", Some(NoItemsMessage(v))))
      case Raised(message) =>
        EnrichJobOutput(jobData, ResponseContext(context, prompt, "backend", Some(message)))
  }

  /** The output context: the caller's, the prompt, the mode, and the error
      message if there was one. */
  function ResponseContext(context: Dict, prompt: string, mode: string, error: Option<string>): Dict
  {
    var base := WithPrompt(context, prompt, mode);
    match error
    case Some(message) => Put(base, "error", Str(message))
    case None => base
  }

  /** `EnrichJobTool.execute`. */
  method Execute(input: EnrichJobInput, reply: LlmReply) returns (output: EnrichJobOutput)
    ensures output == Executed(input, reply)
  {
    var context := ContextOf(input);
    var jobData := JobData(input);
    var prompt := GenerateLlmPrompt(jobData, context);
    output := RespondTo(context, jobData, prompt, reply);
  }

  /** The branches of `execute`, with the merge loop in backend mode. */
  method RespondTo(context: Dict, jobData: Dict, prompt: string, reply: LlmReply) returns (output: EnrichJobOutput)
    ensures output == Respond(context, jobData, prompt, reply)
  {
    var mode := Mode(context);
    if mode == Str("agentic") {
      return EnrichJobOutput([], ResponseContext(context, prompt, "agentic", None));
    }
    match reply {
      case Parsed(Object(entries)) =>
        var merged := MergeFillFalsy(jobData, entries);
        output := EnrichJobOutput(merged, ResponseContext(context, prompt, "backend", None));
      case Parsed(v) =>
        output := EnrichJobOutput(jobData, ResponseContext(context, prompt, "backend", Some(NoItemsMessage(v))));
      case Raised(message) =>
        output := EnrichJobOutput(jobData, ResponseContext(context, prompt, "backend", Some(message)));
    }
  }

  /** `context.get("mode") == "llm"` rewritten to `"agentic"`. */
  function NormalizedContext(input: EnrichJobInput): (r: Dict)
  {
    var context := ContextOf(input);
    if Get(context, "mode") == Some(Str("llm")) then Put(context, "mode", Str("agentic")) else context
  }

  /** The `enrich_job` wrapper: the rewritten context, then `execute`. */
  function EnrichJobResult(input: EnrichJobInput, reply: LlmReply): EnrichJobOutput
  {
    Executed(input.(context := Some(NormalizedContext(input))), reply)
  }

  /** The `enrich_job_prompt` wrapper: the prompt for the rewritten context. */
  function EnrichJobPrompt(input: EnrichJobInput): string
  {
    PromptText(JobData(input), NormalizedContext(input))
  }

  // ---------------------------------------------------------------------
  // Properties of the tool

  /** Adding the prompt and the mode keeps the caller's keys in their
      places and their values, and sets the two new keys. */
  lemma WithPromptKeeps(context: Dict, prompt: string, mode: string, key: string)
    ensures var out := WithPrompt(context, prompt, mode);
      && Keys(out)[..|context|] == Keys(context)
      && Get(out, "llm_prompt") == Some(Str(prompt))
      && Get(out, "enrichment_mode") == Some(Str(mode))
      && (key != "llm_prompt" && key != "enrichment_mode" ==> Get(out, key) == Get(context, key))
  {
    var once := Put(context, "llm_prompt", Str(prompt));
    PutGet(context, "llm_prompt", Str(prompt), key);
    PutGet(context, "llm_prompt", Str(prompt), "enrichment_mode");
    PutGet(once, "enrichment_mode", Str(mode), key);
    PutGet(once, "enrichment_mode", Str(mode), "llm_prompt");
    PutKeepsKeys(context, "llm_prompt", Str(prompt));
    PutKeepsKeys(once, "enrichment_mode", Str(mode));
    PrefixOfPrefix(Keys(Put(once, "enrichment_mode", Str(mode))), Keys(once), Keys(context));
  }

  /** The output context keeps the caller's keys in their places and the
      values of all but the keys the tool writes; it records the prompt and
      the mode, and the error exactly when there was one. */
  lemma ResponseContextKeeps(context: Dict, prompt: string, mode: string, error: Option<string>, key: string)
    ensures var out := ResponseContext(context, prompt, mode, error);
      && Keys(out)[..|context|] == Keys(context)
      && Get(out, "llm_prompt") == Some(Str(prompt))
      && Get(out, "enrichment_mode") == Some(Str(mode))
      && (error.Some? ==> Get(out, "error") == Some(Str(error.value)))
      && (error.None? ==> Get(out, "error") == Get(context, "error"))
      && (key != "llm_prompt" && key != "enrichment_mode" && key != "error" ==> Get(out, key) == Get(context, key))
  {
    var base := WithPrompt(context, prompt, mode);
    WithPromptKeeps(context, prompt, mode, key);
    WithPromptKeeps(context, prompt, mode, "error");
    if error.Some? {
      var value := Str(error.value);
      PutGet(base, "error", value, key);
      PutGet(base, "error", value, "llm_prompt");
      PutGet(base, "error", value, "enrichment_mode");
      PutKeepsKeys(base, "error", value);
      PrefixOfPrefix(Keys(Put(base, "error", value)), Keys(base), Keys(context));
    }
  }

  /** Every output keeps the caller's context: its keys stay in their
      places and, apart from the three keys the tool writes, their values.
      The prompt and the mode are recorded in every branch. */
  lemma RespondContext(context: Dict, jobData: Dict, prompt: string, reply: LlmReply, key: string)
    ensures var out := Respond(context, jobData, prompt, reply).context;
      && Keys(out)[..|context|] == Keys(context)
      && Get(out, "llm_prompt") == Some(Str(prompt))
      && Get(out, "enrichment_mode") == Some(Str(if Mode(context) == Str("agentic") then "agentic" else "backend"))
      && (key != "llm_prompt" && key != "enrichment_mode" && key != "error" ==> Get(out, key) == Get(context, key))
  {
    if Mode(context) == Str("agentic") {
      ResponseContextKeeps(context, prompt, "agentic", None, key);
    } else {
      match reply
      case Parsed(Object(_)) => ResponseContextKeeps(context, prompt, "backend", None, key);
      case Parsed(v) => ResponseContextKeeps(context, prompt, "backend", Some(NoItemsMessage(v)), key);
      case Raised(message) => ResponseContextKeeps(context, prompt, "backend", Some(message), key);
    }
  }

  /** In agentic mode the model's reply is not consulted: the enriched data
      is empty and the context records the prompt and the mode. */
  lemma AgenticOutput(input: EnrichJobInput, reply: LlmReply, other: LlmReply)
    requires Mode(ContextOf(input)) == Str("agentic")
    ensures var out := Executed(input, reply);
      && out == Executed(input, other)
      && out.enrichedData == []
      && Get(out.context, "enrichment_mode") == Some(Str("agentic"))
      && Get(out.context, "llm_prompt") == Some(Str(PromptText(JobData(input), ContextOf(input))))
  {
    RespondContext(ContextOf(input), JobData(input), PromptText(JobData(input), ContextOf(input)), reply, "mode");
  }

  /** Without a `mode` key the tool runs in backend mode. */
  lemma DefaultModeIsBackend(input: EnrichJobInput, reply: LlmReply)
    requires "mode" !in Keys(ContextOf(input))
    ensures Get(Executed(input, reply).context, "enrichment_mode") == Some(Str("backend"))
  {
    RespondContext(ContextOf(input), JobData(input), PromptText(JobData(input), ContextOf(input)), reply, "mode");
  }

  /** In backend mode a reply that is not a JSON object leaves the job data
      as it was and records the error in the context. */
  lemma ErrorPath(input: EnrichJobInput, reply: LlmReply)
    requires Mode(ContextOf(input)) != Str("agentic")
    requires !(reply.Parsed? && reply.value.Object?)
    ensures var out := Executed(input, reply);
      && out.enrichedData == JobData(input)
      && Get(out.context, "error") ==
           Some(Str(if reply.Raised? then reply.message else NoItemsMessage(reply.value)))
      && Get(out.context, "enrichment_mode") == Some(Str("backend"))
  {
    var context := ContextOf(input);
    var prompt := PromptText(JobData(input), context);
    var message := if reply.Raised? then reply.message else NoItemsMessage(reply.value);
    ResponseContextKeeps(context, prompt, "backend", Some(message), "error");
  }

  /** In backend mode a JSON object is merged into the job data: a key the
      job held something truthy under keeps it, a key it lacked or held
      something falsy under takes the model's value, and no error is
      recorded. */
  lemma SuccessMerge(input: EnrichJobInput, entries: Dict, key: string)
    requires Mode(ContextOf(input)) != Str("agentic")
    requires UniqueKeys(entries)
    ensures var out := Executed(input, Parsed(Object(entries)));
      && out.enrichedData == Merged(JobData(input), entries)
      && Get(out.enrichedData, key) ==
           (if key in Keys(entries) && !Truthy(GetOr(JobData(input), key, Null)) then Get(entries, key)
            else Get(JobData(input), key))
      && Get(out.context, "error") == Get(ContextOf(input), "error")
      && Get(out.context, "enrichment_mode") == Some(Str("backend"))
  {
    var context := ContextOf(input);
    var prompt := PromptText(JobData(input), context);
    ResponseContextKeeps(context, prompt, "backend", None, "error");
    MergedLookup(JobData(input), entries, key);
  }

  /** The wrapper turns mode "llm" into "agentic": the output is the
      agentic one, whatever the model would have replied. */
  lemma LlmRewrite(input: EnrichJobInput, reply: LlmReply)
    requires Get(ContextOf(input), "mode") == Some(Str("llm"))
    ensures var out := EnrichJobResult(input, reply);
      && out.enrichedData == []
      && Get(out.context, "enrichment_mode") == Some(Str("agentic"))
      && Get(out.context, "mode") == Some(Str("agentic"))
  {
    var context := ContextOf(input);
    var normalized := input.(context := Some(NormalizedContext(input)));
    PutGet(context, "mode", Str("agentic"), "mode");
    assert Mode(ContextOf(normalized)) == Str("agentic");
    RespondContext(ContextOf(normalized), JobData(normalized),
      PromptText(JobData(normalized), ContextOf(normalized)), reply, "mode");
  }

  /** Any other mode passes through the wrapper untouched. */
  lemma OtherModesUnchanged(input: EnrichJobInput, reply: LlmReply)
    requires Get(ContextOf(input), "mode") != Some(Str("llm"))
    ensures EnrichJobResult(input, reply) == Executed(input, reply)
  {
    assert JobData(input.(context := Some(ContextOf(input)))) == JobData(input);
  }

  /** The prompt wrapper returns the very prompt the tool wrapper records. */
  lemma PromptWrapperMatches(input: EnrichJobInput, reply: LlmReply)
    ensures Get(EnrichJobResult(input, reply).context, "llm_prompt") == Some(Str(EnrichJobPrompt(input)))
  {
    var normalized := input.(context := Some(NormalizedContext(input)));
    assert JobData(normalized) == JobData(input);
    RespondContext(ContextOf(normalized), JobData(normalized),
      PromptText(JobData(normalized), ContextOf(normalized)), reply, "mode");
  }

  /** A job built from a title and a description only, and a reply naming
      the company and adding a summary: the empty default company takes the
      model's value and the summary is added. */
  lemma BackendExample(title: string, description: string, reply: LlmReply)
    requires reply == Parsed(Object([("company", Str("TestCorp")), ("summary", Object([("about", Str("A test job."))]))]))
    ensures var out := EnrichJobResult(WithDefaults(title, description, None), reply);
      && Get(out.enrichedData, "company") == Some(Str("TestCorp"))
      && "summary" in Keys(out.enrichedData)
      && Get(out.context, "enrichment_mode") == Some(Str("backend"))
      && "llm_prompt" in Keys(out.context)
  {
    var input := WithDefaults(title, description, None);
    var entries := reply.value.entries;
    assert Get(entries, "company") == Some(Str("TestCorp"));
    assert Get(entries[1..], "summary").Some?;
    BackendFillsCompany(input, entries);
  }

  /** The merge through the wrapper, for a job with an empty company and no
      context, and a reply with a company and a summary. */
  lemma BackendFillsCompany(input: EnrichJobInput, entries: Dict)
    requires input.company == Some("") && input.context == None
    requires UniqueKeys(entries)
    requires Get(entries, "company") == Some(Str("TestCorp")) && "summary" in Keys(entries)
    ensures var out := EnrichJobResult(input, Parsed(Object(entries)));
      && Get(out.enrichedData, "company") == Some(Str("TestCorp"))
      && "summary" in Keys(out.enrichedData)
      && Get(out.context, "enrichment_mode") == Some(Str("backend"))
      && "llm_prompt" in Keys(out.context)
  {
    OtherModesUnchanged(input, Parsed(Object(entries)));
    ExecutedFillsCompany(input, entries);
  }

  /** The same, for `execute` itself. */
  lemma ExecutedFillsCompany(input: EnrichJobInput, entries: Dict)
    requires input.company == Some("") && input.context == None
    requires UniqueKeys(entries)
    requires Get(entries, "company") == Some(Str("TestCorp")) && "summary" in Keys(entries)
    ensures var out := Executed(input, Parsed(Object(entries)));
      && Get(out.enrichedData, "company") == Some(Str("TestCorp"))
      && "summary" in Keys(out.enrichedData)
      && Get(out.context, "enrichment_mode") == Some(Str("backend"))
      && "llm_prompt" in Keys(out.context)
  {
    var jobData := JobData(input);
    CompanyValue(input);
    SummaryIsNew(jobData);
    RespondFillsCompany(jobData, PromptText(jobData, []), entries);
  }

  /** The branches after the prompt, for job data with an empty company and
      no summary, no context, and a reply with a company and a summary. */
  lemma RespondFillsCompany(jobData: Dict, prompt: string, entries: Dict)
    requires Get(jobData, "company") == Some(Str("")) && Get(jobData, "summary") == None
    requires UniqueKeys(entries)
    requires Get(entries, "company") == Some(Str("TestCorp")) && "summary" in Keys(entries)
    ensures var out := Respond([], jobData, prompt, Parsed(Object(entries)));
      && Get(out.enrichedData, "company") == Some(Str("TestCorp"))
      && "summary" in Keys(out.enrichedData)
      && Get(out.context, "enrichment_mode") == Some(Str("backend"))
      && "llm_prompt" in Keys(out.context)
  {
    assert Mode([]) == Str("backend");
    assert Respond([], jobData, prompt, Parsed(Object(entries))).enrichedData == Merged(jobData, entries);
    assert GetOr(jobData, "company", Null) == Str("") && !Truthy(Str(""));
    assert GetOr(jobData, "summary", Null) == Null && !Truthy(Null);
    MergedLookup(jobData, entries, "company");
    MergedLookup(jobData, entries, "summary");
    RespondContext([], jobData, prompt, Parsed(Object(entries)), "mode");
  }

  /** The company is the third field of a job. */
  lemma CompanyValue(input: EnrichJobInput)
    ensures Get(JobData(input), "company") == Some(OptStr(input.company))
  {
    var jobData := JobData(input);
    assert jobData[0].0 == "title" && jobData[1].0 == "description";
    assert jobData[2] == ("company", OptStr(input.company));
    assert Get(jobData[2..], "company") == Some(OptStr(input.company));
    assert jobData[1..][1..] == jobData[2..];
  }

  /** "summary" is not one of the job's fields. */
  lemma SummaryIsNew(jobData: Dict)
    requires Keys(jobData) == AllFields
    ensures Get(jobData, "summary") == None
  {
    assert "summary" !in AllFields;
  }

  /** A field's line starts with the field's name. */
  lemma FieldLineNamesField(field: string, jobData: Dict)
    ensures Contains(FieldLine(field, jobData), field)
  {
    var value := StrOf(GetOr(jobData, field, Str("")));
    assert FieldLine(field, jobData) == [] + field + (": " + value + "\n");
    ContainsPart(FieldLine(field, jobData), [], field, ": " + value + "\n");
  }

  /** A job built from a title and a description only, in agentic mode:
      nothing is enriched, and the prompt names the company field. */
  lemma AgenticExample(title: string, description: string, context: Dict, reply: LlmReply)
    requires context == [("mode", Str("agentic"))]
    ensures var out := EnrichJobResult(WithDefaults(title, description, Some(context)), reply);
      && out.enrichedData == []
      && Get(out.context, "enrichment_mode") == Some(Str("agentic"))
      && Contains(PromptText(JobData(WithDefaults(title, description, Some(context))), context), "company")
  {
    var input := WithDefaults(title, description, Some(context));
    var jobData := JobData(input);
    OtherModesUnchanged(input, reply);
    AgenticOutput(input, reply, reply);
    PromptHasFieldLines(jobData, context, "company");
    FieldLineNamesField("company", jobData);
    ContainsTransitive(PromptText(jobData, context), FieldLine("company", jobData), "company");
  }
}
