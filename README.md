# Sage, modelled in Dafny

Sage is a Rails engine that turns a natural-language request into SQL by asking a
language model. It does so through Blazer, a query tool for Rails. This project
models and proves the deterministic core of Sage:

- **The report processor.** It parses the model's answer by a ladder of tiers:
  - a Hash with both keys;
  - `JSON.parse`;
  - a repair pass that escapes raw line feeds, tabs and carriage returns inside
    quoted spans;
  - a regex scan for the `"sql"` and `"summary"` values;
  - fixed fallback messages.

  It also classifies the database dialect and assembles the system prompt.
- **The schema-context and scope-context builders** that feed the prompt.
- **The older inline pipeline of the report job**: its prompt, its scope entries
  and its blank-summary default.
- **Three Stimulus controllers**:
  - the searchable select;
  - the dashboard's query list;
  - the variables form's auto-submit check.
- **The checks controller's state sort** of a page of checks.
- **The chat view's helpers** that group messages by day and label dates.

## Modules

- `wrappers.dfy`, module `Wrappers`: `Option`
- `text.dfy`, module `Text`: Ruby and JavaScript character classes, `strip`, `trim`, `blank?`, `join`, `downcase`, `capitalize`, substring search
- `sequences.dfy`, module `Sequences`: flat-map and a generic `sort_by` (stable insertion sort) with its lemmas
- `json.dfy`, module `Json`: `JSON.parse` as an RFC 8259 parser; an encoder for flat objects of strings, booleans and `null`; `Hash#[]`
- `patterns.dfy`, module `Patterns`: one hand-written scanner per regular expression of the core, leftmost search (`=~`, `match`), `scan` and `gsub`
- `report_processor.dfy`, module `ReportProcessor`: response tiers, repair pass, dialect classifier, prompt plan and the appending `build_system_prompt`
- `database_schema_context.dfy`, module `DatabaseSchemaContext`: schema rendering with the nil-on-error path
- `model_scopes_context.dfy`, module `ModelScopesContext`: scope collection with de-duplication, SQL hints, the section text
- `process_report_job.dfy`, module `ProcessReportJob`: `perform`'s summary default, model and scope entries, the job's prompt
- `select_controller.dfy`, module `SelectController`: the `Select` controller as a class over an array of option "active" flags
- `dashboard_controller.dfy`, module `DashboardController`: the `Dashboard` controller as a class over the `selectedQueries` list
- `variables_controller.dfy`, module `VariablesController`: `isEmpty` and the `submitIfCompleted` loop
- `checks_controller.dfy`, module `ChecksController`: the state-rank sort of a page of checks
- `application_helper.dfy`, module `ApplicationHelper`: calendar dates, day grouping, `format_message_date`

### How the model represents the source

- **Inputs standing for outside systems.** These become inputs:
  - the language model's `content`;
  - the adapter name;
  - the Blazer data source;
  - the model files and their scope reflection;
  - the DOM state a controller reads;
  - `Date.current`.
- **Imperative code.** Code that appends step by step is a `method` proved equal
  to a specification function, and the properties are lemmas about that
  function. This covers `build_system_prompt`, both `build_context`s, the job's
  loops and `submitIfCompleted`.
- **Controllers.** Each controller whose fields are updated is a `class`.
  - In `SelectController.Select`, the option elements' `active` classes are an
    `array<bool>`.
  - In `DashboardController.Dashboard`, `selectedQueries` is a `seq` field that
    the methods reassign.

## Model

| member | source | states |
|---|---|---|
| ReportProcessor.Process | lib/sage/report_processor.rb:17-29 | `process` raises exactly when parsing raises; otherwise it returns the parsed summary and SQL as they are, with no default |
| ReportProcessor.ProcessCopies | lib/sage/report_processor.rb:25-28 | the result of `process` is the result of `parse_response`, untouched |
| ReportProcessor.HashWithBothKeys | lib/sage/report_processor.rb:53-58 | a Hash holding both "sql" and "summary" gives those two values unchanged |
| ReportProcessor.UnexpectedPayload | lib/sage/report_processor.rb:53-67 | a Hash lacking either key, or a payload that is neither Hash nor String, gives "Unexpected response format. Please try again." and nil SQL |
| ReportProcessor.Index | lib/sage/report_processor.rb:76-77 | `parsed["key"]` on a parsed value: an object's entry or nil; on a string, the key when it is a substring and nil otherwise; other values raise |
| ReportProcessor.ParsedObject | lib/sage/report_processor.rb:74-78 | text that parses as an object gives its "summary" and "sql" entries, nil when missing |
| ReportProcessor.EncodedObject | lib/sage/report_processor.rb:74-78 | the encoding of any flat object is answered with that object's two entries |
| ReportProcessor.EmptyObjectGivesNil | lib/sage/report_processor.rb:74-78 | `{}` gives nil summary and nil SQL; no default summary is applied in this tier |
| ReportProcessor.ParsedScalarRaises | lib/sage/report_processor.rb:74-78 | text that parses to an array or an integer raises TypeError at `["summary"]`, and `null`, booleans and floats raise NoMethodError; this tier does not rescue either |
| ReportProcessor.RepairedObject | lib/sage/report_processor.rb:81-91 | text that fails to parse but whose repair parses as an object gives the repaired object's two entries |
| ReportProcessor.RegexTierShape | lib/sage/report_processor.rb:93-112 | in the regex tier the summary is always a string, the failure message when no summary value is found; the SQL is nil exactly when no SQL value is found |
| ReportProcessor.RegexTierSqlLeftmost | lib/sage/report_processor.rb:97-98 | the SQL is the raw capture of the leftmost `"sql"` match; no earlier position matches; the capture has no unescaped double quote |
| ReportProcessor.RegexTierSummaryLeftmost | lib/sage/report_processor.rb:101-102 | the same for the summary, found independently of the SQL |
| ReportProcessor.QuotesInside | lib/sage/report_processor.rb:82 | between a quote and the next one the quote parity is flipped |
| ReportProcessor.SpanPiece | lib/sage/report_processor.rb:82-85 | every position of a matched quote-to-quote span is rewritten by the control-character escape |
| ReportProcessor.SpanEscaped | lib/sage/report_processor.rb:82-85 | escaping a matched span gives the per-position pieces of that span |
| ReportProcessor.SpanPieces | lib/sage/report_processor.rb:82-85 | one matched span is rewritten piece by piece, and after it the text is outside every span again |
| ReportProcessor.NoSpanAt | lib/sage/report_processor.rb:82 | where no span starts the character is kept as it is |
| ReportProcessor.PiecesSplit | lib/sage/report_processor.rb:82-85 | the pieces of a stretch are the pieces of its two halves |
| ReportProcessor.RepairFrom | lib/sage/report_processor.rb:82-85 | the `gsub` from any position outside the spans equals the pieces of the rest of the text |
| ReportProcessor.RepairIsPieces | lib/sage/report_processor.rb:82-85 | the repair replaces each LF, TAB and CR strictly inside a quote-to-next-quote span by its two-character escape and keeps every other character, in order |
| ReportProcessor.PiecesLength | lib/sage/report_processor.rb:82-85 | the repair never shortens the text; it keeps the length exactly when no span holds a control character, and then it changes nothing |
| ReportProcessor.RepairUnchanged | lib/sage/report_processor.rb:82-85 | the repaired text is identical to the input if and only if no span holds a raw LF, TAB or CR |
| ReportProcessor.DetectDatabaseTypeBranches | lib/sage/report_processor.rb:245-261 | each dialect name is returned exactly when its substrings occur in the lower-cased adapter name and no earlier branch's do; with no hit the lower-cased name is capitalised |
| ReportProcessor.LowerHasNoUpper | lib/sage/report_processor.rb:246 | the lower-cased adapter name has no upper-case letter |
| ReportProcessor.CapitalizedIsNoLabel | lib/sage/report_processor.rb:258-259 | the capitalised fallback never equals "PostgreSQL", "MySQL", "SQLite3" or "SQL Server", and equals "Oracle" only for "oracle" itself |
| ReportProcessor.MySql2Redundant | lib/sage/report_processor.rb:250 | the `/mysql2/` alternative adds nothing to `/mysql/` |
| ReportProcessor.LatestIndex | lib/sage/report_processor.rb:205 | `order(:created_at).last`: present exactly when there are messages; no message is later, and none after it is as late |
| ReportProcessor.GenerationRulesShape | lib/sage/report_processor.rb:222-239 | the rules are 18 lines, from the heading to rule 8 |
| ReportProcessor.InstructionNamesDialect | lib/sage/report_processor.rb:130-194 | the base instruction has 63 lines and names the dialect on lines 2, 10, 33 and 61 |
| ReportProcessor.Order | lib/sage/report_processor.rb:123-242 | every section has one position in the fixed order |
| ReportProcessor.PlanUpToShape | lib/sage/report_processor.rb:123-242 | the sections written among the first n are exactly those the input asks for, each once, in the fixed order |
| ReportProcessor.PlanShape | lib/sage/report_processor.rb:196-222 | the plan starts with the instructions and ends with the rules; the baseline, previous-context, schema and scopes sections are there exactly when the statement is present, there are messages, the schema is present and the scopes are not blank; order is kept |
| ReportProcessor.PartsOfSnoc | lib/sage/report_processor.rb:124-240 | one more section adds its parts at the end |
| ReportProcessor.PartsFollowPlan | lib/sage/report_processor.rb:124-240 | the appended parts are the parts of the planned sections, in plan order |
| ReportProcessor.PromptFollowsPlan | lib/sage/report_processor.rb:241 | the prompt is the planned parts joined by line feeds |
| ReportProcessor.PartsStartWithInstruction | lib/sage/report_processor.rb:130 | the first part is the base instruction |
| ReportProcessor.PromptFrame | lib/sage/report_processor.rb:130-241 | the prompt starts with the instruction and ends with a line feed and the rules joined by line feeds |
| ReportProcessor.PreviousSection | lib/sage/report_processor.rb:206-212 | the previous-context lines: heading and intro, the response and SQL lines each only when present, the closing line |
| ReportProcessor.AssemblePrompt | lib/sage/report_processor.rb:124-241 | the step-by-step appending builds exactly the planned prompt |
| ReportProcessor.BuildSystemPrompt | lib/sage/report_processor.rb:123-242 | `build_system_prompt` is the planned prompt for the detected dialect |
| ReportProcessor.AskTextDeterminesPrompt | lib/sage/report_processor.rb:49 | every question sent to the model ends with `". "` and the structured-output instruction, and two prompts give the same question exactly when they are equal |
| Text.Lower | lib/sage/report_processor.rb:246 | `downcase` keeps the length and lower-cases each ASCII capital, leaving every other character |
| Text.Capitalize | lib/sage/report_processor.rb:259 | `capitalize` upper-cases the first character and lower-cases the rest |
| Text.Contains | lib/sage/report_processor.rb:247-257 | a regex of one literal word matches exactly when the word occurs at some position |
| Text.Join | lib/sage/report_processor.rb:241 | no parts join to "", one part joins to itself |
| Text.JoinAppend | lib/sage/report_processor.rb:241 | joining one more part adds the separator and the part |
| Text.JoinConcat | lib/sage/report_processor.rb:241 | joining two lists is joining each and putting the separator between them |
| Text.JoinHead | lib/sage/report_processor.rb:241 | the joined text starts with its first part |
| Text.TrimByShape | lib/sage/model_scopes_context.rb:127 | trimming removes a run of white space at each end and keeps the middle, which neither starts nor ends with white space |
| Text.Strip | lib/sage/model_scopes_context.rb:127 | `strip` never lengthens the text |
| Text.JsTrim | app/javascript/sage/controllers/select_controller.js:106 | `trim` never lengthens the text |
| Sequences.FlatMapConcat | lib/sage/model_scopes_context.rb:29-37 | the results for a list are those of its parts, in order |
| Sequences.InsertPermutes | app/controllers/sage/checks_controller.rb:17 | one insertion step adds exactly its element |
| Sequences.InsertSorted | app/controllers/sage/checks_controller.rb:17 | one insertion step keeps a sorted list sorted |
| Json.ScanNumber | lib/sage/report_processor.rb:74 | a number is read as a nonempty stretch of the text |
| Json.ParseValue | lib/sage/report_processor.rb:74 | a value read from a position ends after it, within the text; it is an object exactly when it starts at a brace, an array exactly at a bracket, a string exactly at a quote (and then ends at a quote); `null`, `true` and `false` are read from those words; a number is a valid number lexeme and keeps it |
| Json.SurrogatePair | lib/sage/report_processor.rb:74 | the code point of a high and a low surrogate lies in U+10000 to U+10FFFF, and its offset splits back into the two surrogates' offsets |
| Json.SurrogatePairParses | lib/sage/report_processor.rb:74 | the escaped pair `\ud83d\ude00` in a string parses to the one character U+1F600 |
| Json.LoneSurrogateRefused | lib/sage/report_processor.rb:74 | a string holding a high surrogate escape with no low one after it does not parse |
| Json.ParseObject | lib/sage/report_processor.rb:74 | an object read from a brace is an object and ends within the text |
| Json.ParseArray | lib/sage/report_processor.rb:74 | an array read from a bracket is an array and ends within the text |
| Json.Get | lib/sage/report_processor.rb:76-77 | `Hash#[]`: the entry for a present key, nil for a missing one |
| Json.ParseOfObject | lib/sage/report_processor.rb:74 | text that reads as an object parses to that object |
| Json.ParseEncode | lib/sage/report_processor.rb:74 | parsing the encoding of a flat object gives the object back (for a duplicate key, a later key replaces an earlier one, as with a Hash) |
| Json.NextCharOfEscaped | lib/sage/report_processor.rb:74 | the JSON encoding of any character reads back as that character |
| Json.ParseValueOfEncoded | lib/sage/report_processor.rb:74 | an encoded value parses to itself and ends where its encoding ends |
| Json.ParseMembersOfEncoded | lib/sage/report_processor.rb:74 | encoded members parse to their map and end after the closing brace |
| Patterns.QuotedSpanAt | lib/sage/report_processor.rb:82 | `"([^"]*)"` at a position: present exactly when a quote stands there and another follows; the capture lies between them and holds no quote |
| Patterns.EscapeControl | lib/sage/report_processor.rb:84 | LF, TAB and CR become `\n`, `\t`, `\r`; every other character is kept |
| Patterns.EscapeControlsIsThreePasses | lib/sage/report_processor.rb:84 | the three chained `gsub`s equal one per-character escape |
| Patterns.ThreePassesConcat | lib/sage/report_processor.rb:84 | the three passes distribute over concatenation |
| Patterns.ReplaceCharAbsent | lib/sage/report_processor.rb:84 | a pass leaves text without its character unchanged |
| Patterns.EscapedEnd | lib/sage/report_processor.rb:97-101 | the escaped-text pattern ends at a quote, at the end, or at a final lone backslash, and what it covers is escaped text |
| Patterns.SqlValueAt | lib/sage/report_processor.rb:97 | a `"sql"` match captures escaped text only |
| Patterns.SummaryValueAt | lib/sage/report_processor.rb:101 | a `"summary"` match captures escaped text only |
| Patterns.Find | lib/sage/report_processor.rb:97-101 | the leftmost match found is a match at its position |
| Patterns.FindSkips | lib/sage/report_processor.rb:97-101 | no position before the leftmost match matches |
| Patterns.GsubNoMatch | app/jobs/sage/process_report_job.rb:169 | where the pattern matches nowhere, `gsub` leaves the text as it is |
| Patterns.WhereQuotedAt | lib/sage/model_scopes_context.rb:132 | `where("…")` captures a nonempty run without quotes |
| Patterns.WhereParenAt | lib/sage/model_scopes_context.rb:135 | `where(…)` captures a nonempty argument |
| Patterns.WhereNotAt | lib/sage/model_scopes_context.rb:143 | `where.not(…)` captures a nonempty argument |
| Patterns.JoinsAt | lib/sage/model_scopes_context.rb:151 | `joins?(:?word)` captures a nonempty argument |
| Patterns.IncludesAt | lib/sage/model_scopes_context.rb:153 | `includes?(:?word)` captures a nonempty argument |
| Patterns.OrderQuotedAt | lib/sage/model_scopes_context.rb:158 | `order("…")` captures a nonempty run without quotes |
| Patterns.OrderParenAt | lib/sage/model_scopes_context.rb:160 | `order(…)` captures a nonempty argument |
| Patterns.LimitAt | lib/sage/model_scopes_context.rb:167 | `limit(\d+)` captures a nonempty run of digits |
| Patterns.HashPairAt | lib/sage/model_scopes_context.rb:139 | the `word: word` rewrite finds two groups |
| Patterns.HashQuotedAt | lib/sage/model_scopes_context.rb:140 | the `word: "…"` rewrite finds two groups |
| Patterns.HashLiteralAt | lib/sage/model_scopes_context.rb:141 | the `word: true/false/nil` rewrite captures one of those three words |
| Patterns.NotPairAt | lib/sage/model_scopes_context.rb:146 | the `word:` rewrite of `where.not` finds one group |
| Patterns.OrderDirAt | lib/sage/model_scopes_context.rb:162 | the order direction captured is `asc` or `desc` in any case |
| Patterns.ScopeRefAt | lib/sage/model_scopes_context.rb:176 | `^(\w+)$` captures a whole line of word characters |
| Patterns.ArrowScopeAt | lib/sage/model_scopes_context.rb:67 | the `scope :name, -> { … }` pattern captures a word name and a body |
| Patterns.LambdaScopeAt | lib/sage/model_scopes_context.rb:69 | the `scope :name, lambda { … }` pattern captures a word name and a body |
| Patterns.LineScopeAt | lib/sage/model_scopes_context.rb:71 | the one-line `scope :name, …` pattern captures a word name and a nonempty rest of line |
| Patterns.Scan | lib/sage/model_scopes_context.rb:76 | `scan` gives two groups per match |
| Patterns.SelectFromAt | app/jobs/sage/process_report_job.rb:169 | `^SELECT .* FROM` matches at a line start, from `SELECT ` to a ` FROM` on that line |
| Patterns.LastAt | app/jobs/sage/process_report_job.rb:169 | the greedy `.*` ends at the last ` FROM` of the line |
| DatabaseSchemaContext.ColumnLines | lib/sage/database_schema_context.rb:33-39 | at most one line per column |
| DatabaseSchemaContext.ColumnLinesConcat | lib/sage/database_schema_context.rb:33-39 | the column lines of a list are those of its parts, in order |
| DatabaseSchemaContext.ColumnLinesSingle | lib/sage/database_schema_context.rb:34-37 | a Hash column gives "  - `name` (data_type)"; any other column gives nothing |
| DatabaseSchemaContext.EntryLines | lib/sage/database_schema_context.rb:24-39 | a table entry fails exactly when it is a Hash whose columns cannot be iterated |
| DatabaseSchemaContext.RenderColumns | lib/sage/database_schema_context.rb:33-39 | the column loop writes exactly the column lines |
| DatabaseSchemaContext.RenderEntry | lib/sage/database_schema_context.rb:24-39 | the table-loop body writes exactly one entry's lines, or stops where `each` raises |
| DatabaseSchemaContext.EntriesStep | lib/sage/database_schema_context.rb:23-40 | one more entry adds its lines, or makes the whole list raise |
| DatabaseSchemaContext.EntriesLines | lib/sage/database_schema_context.rb:23-40 | the entries fail exactly when one of them fails |
| DatabaseSchemaContext.EntriesLinesConcat | lib/sage/database_schema_context.rb:23-40 | the lines of the entries are those of each entry, in input order |
| DatabaseSchemaContext.EntriesLinesSingle | lib/sage/database_schema_context.rb:24-31 | one entry contributes its own lines ("### Table: `schema.table`", "Columns:", its columns, schema defaulting to "public"), none when it is not a Hash |
| DatabaseSchemaContext.RenderNone | lib/sage/database_schema_context.rb:16-51 | the result is nil exactly when the lookup raises or a table's columns raise |
| DatabaseSchemaContext.RenderStartsWithHeader | lib/sage/database_schema_context.rb:13-53 | the output starts with the two header parts; without a data source or a `schema` method it is exactly those two parts |
| DatabaseSchemaContext.RenderVerbatim | lib/sage/database_schema_context.rb:41-53 | a schema that is not an Array is written verbatim between two fence lines |
| DatabaseSchemaContext.BuildContext | lib/sage/database_schema_context.rb:11-54 | the nested loops build exactly the rendered section, or nil |
| ModelScopesContext.DefinitionsSound | lib/sage/model_scopes_context.rb:65-72 | the three definition patterns can be tried anywhere and have two groups |
| ModelScopesContext.Pairs | lib/sage/model_scopes_context.rb:77-79 | each match gives its name and its body, in order |
| ModelScopesContext.CollectScopeMatches | lib/sage/model_scopes_context.rb:74-85 | the nested loops collect exactly the de-duplicated occurrences, pattern by pattern |
| ModelScopesContext.OccurrencesStep | lib/sage/model_scopes_context.rb:75-76 | the occurrences are those of one pattern followed by the later ones |
| ModelScopesContext.DedupStep | lib/sage/model_scopes_context.rb:77-84 | one inner step keeps the collection equal to its specification |
| ModelScopesContext.DedupIntoExtends | lib/sage/model_scopes_context.rb:81-83 | the collection only ever appends |
| ModelScopesContext.DedupIntoDistinct | lib/sage/model_scopes_context.rb:81-83 | no two collected scopes share a name |
| ModelScopesContext.DedupIntoNames | lib/sage/model_scopes_context.rb:81-83 | a name is collected exactly when it was collected before or occurs |
| ModelScopesContext.DedupIntoFirst | lib/sage/model_scopes_context.rb:81-83 | the first match of a name not yet collected is the one kept |
| ModelScopesContext.ScopeMatchesFirstWins | lib/sage/model_scopes_context.rb:74-85 | the names are distinct, every occurring name is there, and the first occurrence in pattern-then-match order wins |
| ModelScopesContext.Optional | lib/sage/model_scopes_context.rb:129-169 | a lookup adds at most one part |
| ModelScopesContext.RankOf | lib/sage/model_scopes_context.rb:134-168 | WHERE parts rank 0, JOIN 1, ORDER BY 2, LIMIT 3 |
| ModelScopesContext.WherePartRank | lib/sage/model_scopes_context.rb:132-147 | the WHERE part is a WHERE part |
| ModelScopesContext.JoinPartRank | lib/sage/model_scopes_context.rb:151-155 | the JOIN part is a JOIN part |
| ModelScopesContext.OrderPartRank | lib/sage/model_scopes_context.rb:158-164 | the ORDER BY part is an ORDER BY part |
| ModelScopesContext.LimitPartRank | lib/sage/model_scopes_context.rb:167-169 | the LIMIT part is a LIMIT part |
| ModelScopesContext.AppendRanked | lib/sage/model_scopes_context.rb:129-169 | appending an optional part of the next rank keeps the parts in increasing rank |
| ModelScopesContext.RankedParts | lib/sage/model_scopes_context.rb:129-173 | parts of ranks 0 to 3, each optional, in that order, are at most four with strictly increasing ranks |
| ModelScopesContext.SqlPartsOrdered | lib/sage/model_scopes_context.rb:129-173 | at most four parts, at most one of each kind, in the order WHERE, JOIN, ORDER BY, LIMIT |
| ModelScopesContext.WherePartFound | lib/sage/model_scopes_context.rb:132-148 | a WHERE part exists exactly when one of the three WHERE patterns matches somewhere |
| ModelScopesContext.FallbackShape | lib/sage/model_scopes_context.rb:174-182 | with no parts, a single-identifier body gives "(uses X scope)"; otherwise a stripped body of at most 60 characters is itself, and a longer one is its first 61 characters and "..." |
| ModelScopesContext.ScopeLines | lib/sage/model_scopes_context.rb:103-116 | one line per collected scope |
| ModelScopesContext.ScopeLinesSnoc | lib/sage/model_scopes_context.rb:103-116 | one more scope adds its line at the end |
| ModelScopesContext.RenderScopes | lib/sage/model_scopes_context.rb:103-116 | the loop renders exactly one "  • `name` → SQL: `hint`" line per scope |
| ModelScopesContext.CollectModel | lib/sage/model_scopes_context.rb:52-119 | the file-loop body gives exactly that file's model entry |
| ModelScopesContext.CollectModelsWithScopes | lib/sage/model_scopes_context.rb:44-123 | the file loop gives exactly the listed models |
| ModelScopesContext.ModelsOfConcat | lib/sage/model_scopes_context.rb:50-120 | the models of a file list are those of its parts |
| ModelScopesContext.ModelsOfStep | lib/sage/model_scopes_context.rb:50-120 | one more file adds its own entry |
| ModelScopesContext.ConcernSkipped | lib/sage/model_scopes_context.rb:52 | a file under "/concerns/" contributes nothing |
| ModelScopesContext.BlocksConcat | lib/sage/model_scopes_context.rb:29-37 | the section lines of a model list are those of its parts |
| ModelScopesContext.BlocksSnoc | lib/sage/model_scopes_context.rb:29-37 | one more model adds its heading, caption and scope lines at the end |
| ModelScopesContext.SectionLines | lib/sage/model_scopes_context.rb:12-37 | the loop writes the header and then each model's heading, subheading and scope lines |
| ModelScopesContext.BuildContext | lib/sage/model_scopes_context.rb:11-40 | `build_context` is exactly the rendered section |
| ModelScopesContext.RenderStartsWithHeader | lib/sage/model_scopes_context.rb:13-39 | the output starts with the four header lines, is exactly them without models, and is never empty |
| ProcessReportJob.Perform | app/jobs/sage/process_report_job.rb:27-34 | a content that is neither Hash nor String stops with `[]`'s error; otherwise the stored body is never blank, being the summary or, when blank, the fallback message |
| ProcessReportJob.SelectFromSound | app/jobs/sage/process_report_job.rb:169 | the cleaning pattern can be tried anywhere |
| ProcessReportJob.Entries | app/jobs/sage/process_report_job.rb:161-181 | one entry per scope |
| ProcessReportJob.EntryShape | app/jobs/sage/process_report_job.rb:161-180 | an entry starts with the scope name; it is the bare name exactly for a zero-arity scope without SQL or one that raised; a parameterised one ends in " (parameterized)" |
| ProcessReportJob.CleanSqlUnchanged | app/jobs/sage/process_report_job.rb:169 | SQL with no line starting with "SELECT " is left as it is |
| ProcessReportJob.CleanSqlLine | app/jobs/sage/process_report_job.rb:169 | on one line starting with "SELECT ", everything up to the last " FROM" becomes "SELECT * FROM" |
| ProcessReportJob.CollectModels | app/jobs/sage/process_report_job.rb:144-185 | the model loop collects exactly the listed models |
| ProcessReportJob.InfosConcat | app/jobs/sage/process_report_job.rb:146-185 | the models listed from a list are those of its parts |
| ProcessReportJob.InfosSingle | app/jobs/sage/process_report_job.rb:147-184 | one model is listed exactly when it passes the filters and has scopes |
| ProcessReportJob.SkippedClass | app/jobs/sage/process_report_job.rb:148-149 | a "Sage::" or "Blazer::" model, or an abstract class, contributes nothing wherever it stands |
| ProcessReportJob.InfosHaveEntries | app/jobs/sage/process_report_job.rb:154-183 | no more listed models than models, and every listed model has entries |
| ProcessReportJob.Bullets | app/jobs/sage/process_report_job.rb:191-193 | one "- entry" line per entry |
| ProcessReportJob.FormatModels | app/jobs/sage/process_report_job.rb:188-195 | the formatting loop appends each model's heading and then its bullets |
| ProcessReportJob.AppendBullets | app/jobs/sage/process_report_job.rb:191-193 | the inner loop appends exactly one "- entry" line per entry |
| ProcessReportJob.InfoBlocksStep | app/jobs/sage/process_report_job.rb:188-195 | one more model adds its heading and its bullets |
| ProcessReportJob.JobPartsLayout | app/jobs/sage/process_report_job.rb:91-203 | instruction, schema header, the fenced schema text only when the lookup gives one, the scopes header, the models, the four rules last |
| ProcessReportJob.JobInstructionNamesDialect | app/jobs/sage/process_report_job.rb:91-120 | the job's instruction has 28 lines and names the dialect on lines 2, 6, 16 and 25 |
| ProcessReportJob.AssembleJobPrompt | app/jobs/sage/process_report_job.rb:85-203 | the appending builds exactly the specified prompt |
| ProcessReportJob.BuildJobSystemPrompt | app/jobs/sage/process_report_job.rb:84-204 | the job's `build_system_prompt` is the specified prompt for the detected dialect |
| SelectController.Slice | app/javascript/sage/controllers/select_controller.js:120-124 | `slice(0, max)` is a prefix, of length `max` capped by the list for a non-negative `max` |
| SelectController.Matching | app/javascript/sage/controllers/select_controller.js:123 | the filter keeps at most the options it is given |
| SelectController.MatchingConcat | app/javascript/sage/controllers/select_controller.js:123 | the filter keeps original order: that of a list is those of its parts |
| SelectController.MatchingSingle | app/javascript/sage/controllers/select_controller.js:123 | one option is kept exactly when its lower-cased text contains the query |
| SelectController.MatchingMembers | app/javascript/sage/controllers/select_controller.js:123 | an option is kept exactly when it is an option whose lower-cased text contains the query |
| SelectController.SearchShape | app/javascript/sage/controllers/select_controller.js:106-126 | an empty trimmed query gives the first `maxOptions` options; otherwise the matching options in original order, cut to `maxOptions` |
| SelectController.TrimmedNotSpace | app/javascript/sage/controllers/select_controller.js:106-119 | a trimmed string is never " " |
| SelectController.ConnectShowsPrefix | app/javascript/sage/controllers/select_controller.js:17-27 | on connect the options shown are a prefix of at most `maxOptions`; a string that does not parse gives none |
| SelectController.FirstWithValue | app/javascript/sage/controllers/select_controller.js:31 | `find` gives the first option with the selected value, or none when no option has it |
| SelectController.FirstActive | app/javascript/sage/controllers/select_controller.js:65-89 | the active option's index is the first active flag, or -1 when none is active |
| SelectController.NavigateFromNone | app/javascript/sage/controllers/select_controller.js:89-93 | with no active option ArrowDown goes to 0 and ArrowUp to the last option |
| SelectController.NavigateWraps | app/javascript/sage/controllers/select_controller.js:90-93 | the next index is within the options, steps by one, and wraps past either end |
| SelectController.NavigateLeavesOneActive | app/javascript/sage/controllers/select_controller.js:95-102 | after navigation exactly one option is active, the one at the next index |
| SelectController.OnlyAt | app/javascript/sage/controllers/select_controller.js:95-102 | the flags after navigation: true at the new index only |
| SelectController.Dropdown.constructor | app/javascript/sage/controllers/select_controller.js:5 | the dropdown starts with the given classes |
| SelectController.Select.constructor | app/javascript/sage/controllers/select_controller.js:5-11 | the controller starts with its values and targets as given |
| SelectController.Select.Connect | app/javascript/sage/controllers/select_controller.js:13-42 | the shown options are the first `maxOptions` options; a selected value present among them writes its text to the input and, with a hidden target, its value to the hidden field |
| SelectController.Select.RenderOptions | app/javascript/sage/controllers/select_controller.js:192-214 | one fresh, inactive element per shown option, and the "No results found" element exactly when there are none |
| SelectController.Select.NavigateOptions | app/javascript/sage/controllers/select_controller.js:88-103 | the loop clears every flag and then sets only the next index's |
| SelectController.Select.Search | app/javascript/sage/controllers/select_controller.js:105-129 | the shown options are the search result for the lower-cased, trimmed input, re-rendered, and the dropdown is open |
| SelectController.Select.SelectOption | app/javascript/sage/controllers/select_controller.js:131-149 | input takes the text; selected value, and hidden field when present, take the value; one change event is dispatched; the dropdown is closed |
| SelectController.Select.OpenDropdown | app/javascript/sage/controllers/select_controller.js:151-154 | the dropdown is visible and not hidden |
| SelectController.Select.CloseDropdown | app/javascript/sage/controllers/select_controller.js:156-159 | the dropdown is hidden and not visible |
| SelectController.Select.Focus | app/javascript/sage/controllers/select_controller.js:161-178 | an empty trimmed input resets the shown options to the first `maxOptions`; other input leaves them; the dropdown always opens |
| SelectController.Select.HandleOutsideClick | app/javascript/sage/controllers/select_controller.js:56-60 | a click outside closes the dropdown; one inside leaves it |
| SelectController.Select.HandleKeydown | app/javascript/sage/controllers/select_controller.js:62-86 | the arrows move the active flag one step with wrap-around and change nothing else; Enter with an active option selects it (label, value, hidden field, one `select:change`, dropdown closed) and without one changes nothing; Escape closes the dropdown and changes nothing else; any other key changes nothing; the option list and its elements stay |
| DashboardController.FirstIndexOf | app/assets/javascripts/sage/controllers/dashboard_controller.js:21 | `findIndex`: the first entry with the id, or -1 when none has it |
| DashboardController.Others | app/assets/javascripts/sage/controllers/dashboard_controller.js:20-27 | the entries without the id keep at most the list's length |
| DashboardController.AddedShape | app/assets/javascripts/sage/controllers/dashboard_controller.js:20-27 | after adding, the new entry is last; the length grows by one exactly when the id was absent |
| DashboardController.RestWithoutId | app/assets/javascripts/sage/controllers/dashboard_controller.js:21-24 | with unique ids, removing the first match leaves no entry with that id |
| DashboardController.AddedKeepsUnique | app/assets/javascripts/sage/controllers/dashboard_controller.js:20-27 | adding keeps the ids unique |
| DashboardController.AppendFreshKeepsUnique | app/assets/javascripts/sage/controllers/dashboard_controller.js:27 | pushing an entry with a new id keeps ids unique |
| DashboardController.OthersConcat | app/assets/javascripts/sage/controllers/dashboard_controller.js:20-27 | the other entries of a list are those of its parts, in order |
| DashboardController.OthersSingle | app/assets/javascripts/sage/controllers/dashboard_controller.js:20-27 | one entry is another entry exactly when its id differs |
| DashboardController.OthersRemoved | app/assets/javascripts/sage/controllers/dashboard_controller.js:21-24 | with unique ids, the other entries are the list without the one holding the id |
| DashboardController.WithoutFirstIsOthers | app/assets/javascripts/sage/controllers/dashboard_controller.js:21-24 | with unique ids, taking out the first entry with the id leaves exactly the entries with other ids |
| DashboardController.AddedKeepsOthers | app/assets/javascripts/sage/controllers/dashboard_controller.js:20-27 | adding keeps the other entries in their relative order, and the result is them plus one |
| DashboardController.OthersAll | app/assets/javascripts/sage/controllers/dashboard_controller.js:21 | a list without the id is its own list of other entries |
| DashboardController.RemoveAtShape | app/assets/javascripts/sage/controllers/dashboard_controller.js:32-33 | `splice(index, 1)` deletes exactly the element at the index (counted from the back when negative) and keeps the rest in order; a removal happens exactly when the start falls inside the list |
| DashboardController.RemoveKeepsUnique | app/assets/javascripts/sage/controllers/dashboard_controller.js:32-33 | removing keeps the ids unique |
| DashboardController.MovedShape | app/assets/javascripts/sage/controllers/dashboard_controller.js:118-119 | a drag is a permutation with the moved entry at the new index and the rest in their order |
| DashboardController.MovedOrigin | app/assets/javascripts/sage/controllers/dashboard_controller.js:118-119 | each position after a drag holds a distinct original position's entry |
| DashboardController.MovedKeepsUnique | app/assets/javascripts/sage/controllers/dashboard_controller.js:118-119 | a drag keeps the ids unique |
| DashboardController.RowsShape | app/assets/javascripts/sage/controllers/dashboard_controller.js:64-108 | one row per entry, in order, each with the entry's name, its position as index parameter and its id as hidden input |
| DashboardController.Dashboard.constructor | app/assets/javascripts/sage/controllers/dashboard_controller.js:5-6 | the controller starts with its value and target as given, and no rows |
| DashboardController.Dashboard.Connect | app/assets/javascripts/sage/controllers/dashboard_controller.js:8-15 | a malformed string raises and changes nothing; otherwise the list is a copy of the array, or empty for anything else, and is rendered |
| DashboardController.Dashboard.AddQuery | app/assets/javascripts/sage/controllers/dashboard_controller.js:17-29 | the list becomes the list with the id moved to the end under the new name, and is rendered |
| DashboardController.Dashboard.RemoveQuery | app/assets/javascripts/sage/controllers/dashboard_controller.js:31-35 | the list loses the element at the index, and is rendered |
| DashboardController.Dashboard.OnEnd | app/assets/javascripts/sage/controllers/dashboard_controller.js:116-120 | the list becomes the drag result, and is rendered |
| DashboardController.Dashboard.Render | app/assets/javascripts/sage/controllers/dashboard_controller.js:37-109 | without a list target nothing changes; an empty list is hidden; otherwise it is shown with exactly one row per entry |
| VariablesController.SubmitIfCompleted | app/javascript/sage/controllers/variables_controller.js:71-92 | submits if and only if there is a form and every named control's value is non-empty; a form without controls is submitted; no form, no action |
| VariablesController.IsEmptyMeans | app/javascript/sage/controllers/variables_controller.js:94-100 | a value is empty exactly when it is null, undefined, or a string of white space and line terminators only |
| VariablesController.NotEmptyWithContent | app/javascript/sage/controllers/variables_controller.js:94-100 | a string with a character that is not white space is never empty |
| ChecksController.IndexOf | app/controllers/sage/checks_controller.rb:17 | `Array#index`: the first position holding the state, or none when no position does |
| ChecksController.StateOrderDistinct | app/controllers/sage/checks_controller.rb:16 | no state is listed twice |
| ChecksController.RankValues | app/controllers/sage/checks_controller.rb:16-17 | nil, "disabled", "error", "timed out", "failing", "passing" rank 0 to 5 |
| ChecksController.RankUnlisted | app/controllers/sage/checks_controller.rb:17 | a state ranks 99 exactly when it is unlisted; a listed one ranks below 6 |
| ChecksController.RankBound | app/controllers/sage/checks_controller.rb:17 | every rank is a listed position or 99 |
| ChecksController.SortByStateOrdered | app/controllers/sage/checks_controller.rb:17 | the sorted page is in rank order and is a permutation of the page |
| ChecksController.UnlistedLast | app/controllers/sage/checks_controller.rb:17 | within the page, checks in unlisted states come after all others |
| ChecksController.SortKeepsChecks | app/controllers/sage/checks_controller.rb:17 | the sorted page has the page's length and exactly its checks |
| ChecksController.AnySortAgreesOnRanks | app/controllers/sage/checks_controller.rb:17 | every order an unstable `sort_by` may give the page (any rank-sorted permutation) has the modelled order's rank at every position, and is the modelled order when no two checks share a rank |
| Sequences.RelativeIndex | app/assets/javascripts/sage/controllers/dashboard_controller.js:33 | the index `splice` (and `slice`, at select_controller.js:27) uses: a non-negative index up to the length is itself, a negative one counts from the back, and anything past either end is clamped to it |
| Sequences.SortedPermutationsAgree | app/controllers/sage/checks_controller.rb:17 | two key-sorted lists holding the same entries have the same key at every position |
| Sequences.SortedDistinctKeysUnique | app/controllers/sage/checks_controller.rb:17 | when no two entries share a key, two key-sorted lists holding the same entries are equal |
| Sequences.SortBySorted | app/controllers/sage/checks_controller.rb:17 | `sort_by` gives a list sorted by the key that is a permutation of its input |
| ApplicationHelper.OrdinalOrder | app/helpers/sage/application_helper.rb:10 | the date sort key orders dates chronologically and tells them apart |
| ApplicationHelper.PrevDayIsPrevious | app/helpers/sage/application_helper.rb:17 | `Date.current - 1` is before today, and every earlier date is it or before it |
| ApplicationHelper.OnDay | app/helpers/sage/application_helper.rb:9 | a day's messages are no more than the messages |
| ApplicationHelper.OnDayMembers | app/helpers/sage/application_helper.rb:9 | a message is among a day's messages exactly when it was created that day |
| ApplicationHelper.OnDayConcat | app/helpers/sage/application_helper.rb:9 | a day's messages keep their input order |
| ApplicationHelper.OnDayNone | app/helpers/sage/application_helper.rb:9 | a day with no message has no messages |
| ApplicationHelper.GroupIndex | app/helpers/sage/application_helper.rb:9 | the group found is for the date, and -1 means no group is |
| ApplicationHelper.AddMessageGroups | app/helpers/sage/application_helper.rb:9 | taking one more message keeps one group per day, holding that day's messages in order |
| ApplicationHelper.GroupIndexGrows | app/helpers/sage/application_helper.rb:9 | a day's group survives appending a group |
| ApplicationHelper.GroupIndexUpdate | app/helpers/sage/application_helper.rb:9 | a day's group survives extending a group |
| ApplicationHelper.GroupByGroups | app/helpers/sage/application_helper.rb:9 | `group_by` gives one group per day, with that day's messages in input order, and a group for every message |
| ApplicationHelper.SameGroups | app/helpers/sage/application_helper.rb:10 | sorting keeps exactly the groups |
| ApplicationHelper.SortedGroupsAscend | app/helpers/sage/application_helper.rb:10 | groups for distinct days, sorted by date, come in strictly ascending date order |
| ApplicationHelper.GroupedByDay | app/helpers/sage/application_helper.rb:8-11 | strictly ascending dates; each group holds exactly its day's messages in input order; every message is in the one group of its day |
| ApplicationHelper.DistinctCount | app/helpers/sage/application_helper.rb:10 | in a list without repetitions every value occurs at most once |
| ApplicationHelper.RepeatCount | app/helpers/sage/application_helper.rb:10 | a value at two positions occurs at least twice |
| ApplicationHelper.Decimal | app/helpers/sage/application_helper.rb:21-23 | decimal digits are never empty |
| ApplicationHelper.DecimalValue | app/helpers/sage/application_helper.rb:21-23 | the digits read back as the number, and a number below 100 has at most two |
| ApplicationHelper.LeadingZeroValue | app/helpers/sage/application_helper.rb:21-23 | a leading zero does not change the number |
| ApplicationHelper.ZerosValue | app/helpers/sage/application_helper.rb:21-23 | leading zeros do not change the number |
| ApplicationHelper.PadValue | app/helpers/sage/application_helper.rb:21-23 | padding keeps the number and adds only digits |
| ApplicationHelper.DayTextValue | app/helpers/sage/application_helper.rb:21-23 | `%d` is two digits reading back as the day |
| ApplicationHelper.YearSign | app/helpers/sage/application_helper.rb:23 | `%Y` starts with a minus sign exactly before year 0 |
| ApplicationHelper.YearTextInjective | app/helpers/sage/application_helper.rb:23 | `%Y` tells years apart |
| ApplicationHelper.MonthNamesShape | app/helpers/sage/application_helper.rb:21-23 | the twelve `%B` names are distinct, start with neither "T" nor "Y", and hold no comma |
| ApplicationHelper.FirstComma | app/helpers/sage/application_helper.rb:23 | the first comma's position is within the text |
| ApplicationHelper.FirstCommaNone | app/helpers/sage/application_helper.rb:21 | text without commas has no first comma |
| ApplicationHelper.FirstCommaAfter | app/helpers/sage/application_helper.rb:23 | the first comma after text without commas is where it stands |
| ApplicationHelper.MonthDayShape | app/helpers/sage/application_helper.rb:21 | `%B %d` holds no comma and starts with the month's name |
| ApplicationHelper.MonthDayInjective | app/helpers/sage/application_helper.rb:21 | `%B %d` tells the days of a year apart |
| ApplicationHelper.OrdinaryLabel | app/helpers/sage/application_helper.rb:19-24 | other dates are labelled neither "Today" nor "Yesterday", and carry a comma and year exactly when their year is not today's |
| ApplicationHelper.SpecialLabels | app/helpers/sage/application_helper.rb:16-18 | "Today" and "Yesterday" hold no comma |
| ApplicationHelper.LabelKinds | app/helpers/sage/application_helper.rb:13-26 | the label is "Today" exactly for today, "Yesterday" exactly for the day before, and holds a comma exactly for other dates of another year |
| ApplicationHelper.SplitAtComma | app/helpers/sage/application_helper.rb:23 | two comma-free heads joined by ", " split back into the same parts |
| ApplicationHelper.DatedLabelInjective | app/helpers/sage/application_helper.rb:23 | `%B %d, %Y` tells dates apart |
| ApplicationHelper.LabelDeterminesDate | app/helpers/sage/application_helper.rb:13-26 | on a given day, two dates with the same label are the same date |

## Left out

- The language-model calls are foreign network calls. The returned `content` is an
  input (the `Payload` of `ReportProcessor` and the content of
  `ProcessReportJob.Perform`). This covers report_processor.rb:45-50 and
  process_report_job.rb:22-25.
- Logging, `puts`, the Turbo broadcasts, the auto-submit script, the message
  record's creation and the DOM are I/O. `ProcessReportJob.Perform` returns the
  body it would store.
- Blazer's data sources and `schema`, ActiveRecord reflection and
  `adapter_name`, `eager_load!`, `Dir.glob`, `File.read`, `constantize`,
  `tableize`, `model.scopes`, `method(name).arity` and `to_sql` are foreign
  calls. Their results are inputs: a `DataSource`, a list of `ModelFile`s and
  per-scope probes.
- `to_s` of a non-Array schema is not modelled: the text it produces is taken as given.
- Letter case: `downcase`, `capitalize` and `toLowerCase` are modelled on ASCII
  letters only; other characters are kept.
- JavaScript's loose `==` is modelled on string ids and values only.
- `parseInt` in `removeQuery` is modelled on its integer result; NaN
  (a non-numeric parameter) is not modelled.
- Whether `Sortable` is loaded (`setupSortable`) is not modelled; the drag's
  `onEnd` handler is.
- `blur`'s `setTimeout` and every other delay are not modelled.
- The pagination of the checks index is not modelled: the sort takes one page
  as its input, so its order holds within a page only.
- `sort_by` in Ruby is not stable. `ChecksController.SortByState` and
  `ApplicationHelper.MessagesGroupedByDay` use a stable insertion sort, which is
  one of the orders Ruby may produce. The lemmas state what every such order
  shares: sorted by the key, and a permutation; for the checks page,
  `ChecksController.AnySortAgreesOnRanks` shows every such order has the same
  rank at every position.
- `created_at.to_date` is taken as the message's date: time zones are not
  modelled. Dates are calendar triples rather than day numbers, because the
  labels need the year, the month and the day; the day before is computed on
  the calendar.
- `ApplicationHelper.PrevDay`: the calendar is the proleptic Gregorian one.
  Ruby's `Date` switches to the Julian calendar before 1582-10-15, so there
  the day before 1582-10-15 is 1582-10-04 and leap years differ before that
  date; the model does not follow the switch.
- `ReportProcessor.LatestIndex`: when several messages share the latest
  creation time, the model takes the last of them in the given sequence. The
  order a database returns ties in is not specified, so the model picks one of
  the orders `order(:created_at).last` may give.
- `ApplicationHelper.YearText`: `%Y` for years before 0 is modelled as a
  minus sign followed by at least four digits.
- `JSON.parse` is modelled as a parser of the JSON grammar of RFC 8259, with
  the nesting limit. The encoder covers flat objects of strings, booleans and
  `null` only; numbers are parsed but not encoded.
- `Json.ParseValue`: a lone or mismatched `\u` surrogate escape is refused.
  Ruby's parser accepts one and returns a string that is not valid UTF-8; a
  Dafny `char` cannot hold a surrogate. `Json.LoneSurrogateRefused` states the
  model's behaviour.
- `Json.ParseValue`: the extensions Ruby's parser accepts beyond RFC 8259 are
  not modelled. These are `/* */` and `//` comments, and escapes such as `\'`
  that the RFC does not list. Text that uses them is treated as text that does
  not parse, so the answer falls through to the repair pass and the regex
  tier.
- `DashboardController.Dashboard.OnEnd`: requires both indices to lie within
  the list. Sortable reports positions of existing rows; out-of-range indices
  from other callers are not modelled.
- `SelectController.Select.NavigateOptions`: requires the direction to be 1 or
  -1, the only values `handleKeydown` passes.
- `SelectController.Select.HandleKeydown` and the class methods require the
  controller's invariant: one option element per shown option, as
  `renderOptions` establishes.
- Enter's `activeOption.textContent` is modelled as the shown option's text.
- The `query === ' '` test in `search` and `focus` can never hold after `trim`;
  `SelectController.TrimmedNotSpace` states this.
- The job's `detect_database_type` is the same function as the report
  processor's and is modelled once.
- The `if scope_body` test in `collect_models_with_scopes` always holds, because
  the body defaults to `""`. Its else branch is dead and is not modelled.
