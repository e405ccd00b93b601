/** The older inline pipeline of the background job
    (app/jobs/sage/process_report_job.rb): the default for a blank
    summary, the prompt the job builds, the listing of the application's
    models and their scopes, and the cleaning of a scope's SQL.  The model
    call, the broadcasts, the data source lookup and the class reflection
    are outside the model: their results arrive as plain values. */
module ProcessReportJob {
  import opened Wrappers
  import opened Text
  import opened Json
  import opened Patterns
  import RP = ReportProcessor
  import DatabaseSchemaContext

  // ---------------------------------------------------------------------
  // The stored answer
  // ---------------------------------------------------------------------

  const NoResponse := "I couldn't generate a response. Please try again."

  /** Rails' `blank?` on a value of the answer: nil, false, a String of
      `[[:space:]]` only, and an empty Array or Hash. */
  predicate BlankValue(v: Value) {
    match v
    case Null => true
    case Bool(b) => !b
    case Num(_) => false
    case Str(s) => IsBlank(s)
    case Arr(items) => items == []
    case Obj(m) => m == map[]
  }

  /** What `perform` ends with: the body of the message it creates and the
      statement it shows, or the exception that stops it. */
  datatype Stored = Stored(body: Value, sql: Value) | Stops(error: RP.RubyError)

  /** `perform` from the model's answer on: `content["summary"]` and
      `content["sql"]`, and the default for a blank summary. */
  method Perform(content: Value) returns (r: Stored)
    ensures r.Stops? <==> !(content.Obj? || content.Str?)
    ensures r.Stops? ==> r.error == RP.Index(content, "summary").error
    ensures r.Stored? ==> !BlankValue(r.body)
    ensures r.Stored? ==> var summary := RP.Index(content, "summary").value;
      (BlankValue(summary) ==> r.body == Str(NoResponse)) && (!BlankValue(summary) ==> r.body == summary)
    ensures r.Stored? ==> r.sql == RP.Index(content, "sql").value
  {
    var s := RP.Index(content, "summary");
    if s.Fails? {
      return Stops(s.error);
    }
    // `content` has `[]`, so the second lookup does not raise either.
    var q := RP.Index(content, "sql");
    assert q.Found?;
    var summary := s.value;
    if BlankValue(summary) {
      assert NoResponse[|NoResponse| - 1] == '.';
      summary := Str(NoResponse);
    }
    r := Stored(summary, q.value);
  }

  // ---------------------------------------------------------------------
  // The application's models and their scopes
  // ---------------------------------------------------------------------

  /** What asking a scope for its SQL gives: a scope without parameters
      and its `to_sql` (`None` when that raises), a scope with parameters,
      or an exception when looking at its arity. */
  datatype Probe = ZeroArity(sql: Option<string>) | Parameterized | ProbeRaises

  datatype Scope = Scope(name: string, probe: Probe)

  /** A descendant of `ActiveRecord::Base`: its name (nil for an anonymous
      class), whether it is abstract, its table name, and its scopes
      (`None` when `scopes.keys` raises). */
  datatype ModelClass = ModelClass(name: Option<string>, abstractClass: bool, table: string, scopes: Option<seq<Scope>>)

  /** A listed model: its name, its table and one entry per scope. */
  datatype ModelInfo = ModelInfo(name: string, table: string, entries: seq<string>)

  /** A class of the engine or of Blazer, by the prefix of its name. */
  predicate EngineClass(name: Option<string>) {
    name.Some? && ("Sage::" <= name.value || "Blazer::" <= name.value)
  }

  /** `model.scopes.keys rescue []`. */
  function ScopesOf(m: ModelClass): seq<Scope> {
    m.scopes.GetOr([])
  }

  /** A model the job lists: not the engine's or Blazer's, not abstract,
      and with at least one scope. */
  predicate Listed(m: ModelClass) {
    !EngineClass(m.name) && !m.abstractClass && ScopesOf(m) != []
  }

  /** The scanner `SelectFromAt` is defined at every position. */
  lemma SelectFromSound(s: string)
    ensures Sound(SelectFromAt, s, Arity(SelectStar))
  {
  }

  /** `gsub(/^SELECT .* FROM/, 'SELECT * FROM')`. */
  function CleanSql(sql: string): string {
    SelectFromSound(sql);
    Gsub(SelectFromAt, SelectStar, sql, 0)
  }

  /** The entry of one scope. */
  function Entry(s: Scope): string {
    match s.probe
    case ZeroArity(Some(sql)) => s.name + ": " + CleanSql(sql)
    case ZeroArity(None) => s.name
    case Parameterized => s.name + " (parameterized)"
    case ProbeRaises => s.name
  }

  /** The entries of a model's scopes, in order. */
  function Entries(ss: seq<Scope>): (r: seq<string>)
    ensures |r| == |ss|
    decreases |ss|
  {
    if ss == [] then [] else Entries(ss[..|ss| - 1]) + [Entry(ss[|ss| - 1])]
  }

  function InfoOf(m: ModelClass): ModelInfo {
    ModelInfo(m.name.GetOr(""), m.table, Entries(ScopesOf(m)))
  }

  /** `models_with_scopes`: the listed models, in order. */
  function Infos(ms: seq<ModelClass>): seq<ModelInfo>
    decreases |ms|
  {
    if ms == [] then []
    else if Listed(ms[|ms| - 1]) then Infos(ms[..|ms| - 1]) + [InfoOf(ms[|ms| - 1])]
    else Infos(ms[..|ms| - 1])
  }

  /** The first loop of `build_system_prompt`: the listed models, each with
      its entries, appended scope by scope. */
  method CollectModels(models: seq<ModelClass>) returns (infos: seq<ModelInfo>)
    ensures infos == Infos(models)
  {
    infos := [];
    for i := 0 to |models|
      invariant infos == Infos(models[..i])
    {
      assert models[..i + 1][..i] == models[..i];
      var m := models[i];
      if EngineClass(m.name) || m.abstractClass {
        continue;
      }
      var scopes := ScopesOf(m);
      if scopes != [] {
        var entries: seq<string> := [];
        for j := 0 to |scopes|
          invariant entries == Entries(scopes[..j])
        {
          assert scopes[..j + 1][..j] == scopes[..j];
          var s := scopes[j];
          match s.probe {
            case ZeroArity(sql) =>
              if sql.Some? {
                var cleaned := CleanSql(sql.value);
                entries := entries + [s.name + ": " + cleaned];
              } else {
                entries := entries + [s.name];
              }
            case Parameterized =>
              entries := entries + [s.name + " (parameterized)"];
            case ProbeRaises =>
              entries := entries + [s.name];
          }
        }
        assert scopes[..|scopes|] == scopes;
        infos := infos + [ModelInfo(m.name.GetOr(""), m.table, entries)];
      }
    }
    assert models[..|models|] == models;
  }

  // ---------------------------------------------------------------------
  // The system prompt
  // ---------------------------------------------------------------------

  const JobIntro: seq<string> := [
    "You are an expert SQL analyst helping users query their database.",
    ""
  ]

  const JobTask: seq<string> := [
    "",
    "Your task:",
    "1. Analyze the user's natural language request"
  ]

  const JobFormat: seq<string> := [
    "3. Provide a clear explanation of what the query does",
    "",
    "Response format (STRICT JSON):",
    "{",
    "  \"summary\": \"A clear, concise explanation of what this query retrieves and why it answers the user's question\",",
    "  \"sql\": \"The SQL query statement\"",
    "}",
    "",
    "Guidelines:"
  ]

  const JobGuidelines: seq<string> := [
    "- Use meaningful table aliases and column names",
    "- Include comments in complex queries",
    "- Prefer JOINs over subqueries when appropriate",
    "- Consider performance implications for large datasets",
    "- Use the available model scopes as reference for common query patterns",
    "- Ensure all table and column names match the schema exactly",
    "- Handle NULL values appropriately",
    "- Use proper data type casting when needed"
  ]

  const JobClosing: seq<string> := [
    "",
    "IMPORTANT: Return ONLY valid JSON with the exact keys \"summary\" and \"sql\". No additional text or explanation outside the JSON structure."
  ]

  /** The lines of the job's base instruction, with the dialect name `t` in its four places. */
  function JobInstructionLines(t: string): seq<string> {
  JobIntro
  + ["DATABASE TYPE: " + t]
  + JobTask
  + ["2. Generate an appropriate SQL query for " + t]
  + JobFormat
  + ["- Write efficient, readable SQL using " + t + "-specific syntax"]
  + JobGuidelines
  + ["- Follow " + t + " best practices and syntax conventions"]
  + JobClosing
  }

  /** The job's base instruction: a heredoc, so every line ends with a line
      feed. */
  function JobInstruction(t: string): string {
    Join(JobInstructionLines(t), "\n") + "\n"
  }

  const JobRules: seq<string> := [
    "\n\n## QUERY GENERATION RULES",
    "1. Match table and column names EXACTLY as shown in the schema",
    "2. Use the scope patterns as guidance for common filters and joins",
    "3. Generate ONE query that best answers the user's request",
    "4. Optimize for clarity and performance"
  ]

  const PatternsHeader: seq<string> := [
    "\n\n## REFERENCE: COMMON QUERY PATTERNS\n",
    "These ActiveRecord scopes show common query patterns used in the application:"
  ]

  const Fence := "```"

  /** What `Blazer.data_sources['main']` and its `schema` give: no data
      source, one without `schema`, the schema's `to_s`, or an exception. */
  datatype SchemaLookup = NoDataSource | NoSchema | Schema(text: string) | LookupFails

  /** What the job's prompt is built from. */
  datatype JobInput = JobInput(adapter: string, lookup: SchemaLookup, models: seq<ModelClass>)

  /** The schema between two fences, when the data source gives it. */
  function SchemaBlock(lookup: SchemaLookup): seq<string> {
    if lookup.Schema? then [Fence, lookup.text, Fence] else []
  }

  function Heading(info: ModelInfo): string {
    "\n### " + info.name + " (table: `" + info.table + "`)"
  }

  /** One bullet line per entry, in order. */
  function Bullets(es: seq<string>): (r: seq<string>)
    ensures |r| == |es|
    decreases |es|
  {
    if es == [] then [] else Bullets(es[..|es| - 1]) + ["- " + es[|es| - 1]]
  }

  /** Each listed model's heading and bullet lines, model after model. */
  function InfoBlocks(infos: seq<ModelInfo>): seq<string>
    decreases |infos|
  {
    if infos == [] then []
    else InfoBlocks(infos[..|infos| - 1]) + ([Heading(infos[|infos| - 1])] + Bullets(infos[|infos| - 1].entries))
  }

  /** The parts of the job's prompt built with the fixed texts `texts`. */
  function JobParts(input: JobInput, texts: RP.Texts): seq<string> {
    [texts.instruction] + DatabaseSchemaContext.Header + SchemaBlock(input.lookup)
    + PatternsHeader + InfoBlocks(Infos(input.models)) + texts.rules
  }

  function JobPromptWith(input: JobInput, texts: RP.Texts): string {
    Join(JobParts(input, texts), "\n")
  }

  /** The job's system prompt. */
  function JobSystemPrompt(input: JobInput): string {
    JobPromptWith(input, RP.Texts(JobInstruction(RP.DetectDatabaseType(input.adapter)), JobRules))
  }

  /** The formatting loop: each model's heading, then a bullet per entry. */
  method FormatModels(infos: seq<ModelInfo>, lead: seq<string>) returns (parts: seq<string>)
    ensures parts == lead + InfoBlocks(infos)
  {
    parts := lead;
    for i := 0 to |infos|
      invariant parts == lead + InfoBlocks(infos[..i])
    {
      InfoBlocksStep(infos, i);
      var info := infos[i];
      ghost var before := parts;
      parts := parts + [Heading(info)];
      parts := AppendBullets(parts, info.entries);
      assert parts == before + ([Heading(info)] + Bullets(info.entries));
    }
    assert infos[..|infos|] == infos;
  }

  /** The inner loop of the formatting: one "- entry" line per entry,
      appended to `lead`. */
  method AppendBullets(lead: seq<string>, entries: seq<string>) returns (parts: seq<string>)
    ensures parts == lead + Bullets(entries)
  {
    parts := lead;
    for j := 0 to |entries|
      invariant parts == lead + Bullets(entries[..j])
    {
      assert entries[..j + 1][..j] == entries[..j];
      parts := parts + ["- " + entries[j]];
    }
    assert entries[..|entries|] == entries;
  }

  /** One more model adds its heading and its bullets. */
  lemma InfoBlocksStep(infos: seq<ModelInfo>, i: nat)
    requires i < |infos|
    ensures InfoBlocks(infos[..i + 1]) == InfoBlocks(infos[..i]) + ([Heading(infos[i])] + Bullets(infos[i].entries))
  {
    assert infos[..i + 1][..i] == infos[..i];
  }

  /** The appending of the job's `build_system_prompt`, the base
      instruction and the rules being given. */
  method AssembleJobPrompt(input: JobInput, texts: RP.Texts) returns (prompt: string)
    ensures prompt == JobPromptWith(input, texts)
  {
    var parts: seq<string> := [texts.instruction];
    parts := parts + DatabaseSchemaContext.Header;
    if input.lookup.Schema? {
      parts := parts + [Fence, input.lookup.text, Fence];
    } else {
      assert parts + SchemaBlock(input.lookup) == parts;
    }
    parts := parts + PatternsHeader;
    var infos := CollectModels(input.models);
    parts := FormatModels(infos, parts);
    parts := parts + texts.rules;
    prompt := Join(parts, "\n");
  }

  /** The job's `build_system_prompt`. */
  method BuildJobSystemPrompt(input: JobInput) returns (prompt: string)
    ensures prompt == JobSystemPrompt(input)
  {
    var databaseType := RP.DetectDatabaseType(input.adapter);
    prompt := AssembleJobPrompt(input, RP.Texts(JobInstruction(databaseType), JobRules));
  }

  // ---------------------------------------------------------------------
  // Properties
  // ---------------------------------------------------------------------

  /** Every entry starts with the scope's name; it is the bare name exactly
      when no SQL was obtained, and a parameterized scope is marked. */
  lemma EntryShape(s: Scope)
    ensures s.name <= Entry(s)
    ensures Entry(s) == s.name <==> s.probe == ZeroArity(None) || s.probe.ProbeRaises?
    ensures s.probe.Parameterized? ==> Entry(s)[|s.name|..] == " (parameterized)"
  {
  }

  /** The listing of two runs of classes is the listing of the first, then
      that of the second. */
  lemma {:induction false} InfosConcat(a: seq<ModelClass>, b: seq<ModelClass>)
    ensures Infos(a + b) == Infos(a) + Infos(b)
    decreases |b|
  {
    if b == [] {
      assert a + b == a;
    } else {
      var b0 := b[..|b| - 1];
      assert (a + b)[..|a + b| - 1] == a + b0;
      assert (a + b)[|a + b| - 1] == b[|b| - 1];
      InfosConcat(a, b0);
    }
  }

  /** One class is listed, with its name, table and entries, exactly when
      it is not the engine's, Blazer's or abstract and has scopes. */
  lemma InfosSingle(m: ModelClass)
    ensures Infos([m]) == if Listed(m) then [InfoOf(m)] else []
  {
    assert [m][..0] == [];
  }

  /** An engine, Blazer or abstract class contributes nothing, wherever it
      stands. */
  lemma SkippedClass(a: seq<ModelClass>, m: ModelClass, b: seq<ModelClass>)
    requires EngineClass(m.name) || m.abstractClass
    ensures Infos(a + [m] + b) == Infos(a) + Infos(b)
  {
    InfosConcat(a + [m], b);
    InfosConcat(a, [m]);
    InfosSingle(m);
  }

  /** Every listed model has at least one entry, one per scope. */
  lemma {:induction false} InfosHaveEntries(ms: seq<ModelClass>)
    ensures |Infos(ms)| <= |ms|
    ensures forall k :: 0 <= k < |Infos(ms)| ==> Infos(ms)[k].entries != []
    decreases |ms|
  {
    if ms != [] {
      InfosHaveEntries(ms[..|ms| - 1]);
    }
  }

  /** SQL with no line starting with `SELECT ` is left as it is. */
  lemma CleanSqlUnchanged(sql: string)
    requires forall k :: 0 <= k < |sql| && LineStart(sql, k) ==> !PrefixAt(sql, k, "SELECT ")
    ensures CleanSql(sql) == sql
  {
    SelectFromSound(sql);
    GsubNoMatch(SelectFromAt, SelectStar, sql, 0);
  }

  /** A one-line query `SELECT … FROM rest` becomes `SELECT * FROM rest`,
      the select list running to the last ` FROM`. */
  lemma CleanSqlLine(sql: string, p: nat)
    requires forall k :: 0 <= k < |sql| ==> sql[k] != '\n'
    requires PrefixAt(sql, 0, "SELECT ") && 7 <= p && PrefixAt(sql, p, " FROM")
    requires forall q :: p < q && q + 5 <= |sql| ==> !PrefixAt(sql, q, " FROM")
    ensures CleanSql(sql) == "SELECT * FROM" + sql[p + 5..]
  {
    SelectFromSound(sql);
    assert LineEndFrom(sql, 7) == |sql|;
    var last := LastAt(sql, 7, |sql|, " FROM");
    assert last == Some(p);
    assert SelectFromAt(sql, 0) == Some(Hit(p + 5, []));
    GsubNoMatch(SelectFromAt, SelectStar, sql, p + 5);
  }

  /** The job's prompt: the base instruction, the schema header, the
      schema between fences only when the data source gives it (a failed
      lookup leaves the header alone), the scope header, and the rules
      last. */
  lemma JobPartsLayout(input: JobInput, texts: RP.Texts)
    ensures var p, h := JobParts(input, texts), DatabaseSchemaContext.Header;
      p[0] == texts.instruction && p[1..3] == h
      && (input.lookup.Schema? ==> p[3..6] == [Fence, input.lookup.text, Fence] && p[6..8] == PatternsHeader)
      && (!input.lookup.Schema? ==> p[3..5] == PatternsHeader)
      && p[|p| - |texts.rules|..] == texts.rules
  {
  }

  /** The job's base instruction has 28 lines and names the dialect in
      four of them. */
  lemma JobInstructionNamesDialect(t: string)
    ensures var lines := JobInstructionLines(t);
      |lines| == 28
      && lines[2] == "DATABASE TYPE: " + t
      && lines[6] == "2. Generate an appropriate SQL query for " + t
      && lines[16] == "- Write efficient, readable SQL using " + t + "-specific syntax"
      && lines[25] == "- Follow " + t + " best practices and syntax conventions"
  {
  }
}
