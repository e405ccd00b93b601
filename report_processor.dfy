/** The report pipeline's reading of the language model's answer and its
    system prompt (lib/sage/report_processor.rb).  The model call itself is
    outside the model: its answer arrives as a `Payload`, and the adapter
    name, the saved query, its messages and the two context sections arrive
    as plain values. */
module ReportProcessor {
  import opened Wrappers
  import opened Text
  import opened Json
  import opened Patterns
  import opened Sequences

  // ---------------------------------------------------------------------
  // Reading the answer
  // ---------------------------------------------------------------------

  /** The answer's `content`: a Hash (string keys), a String, or any other
      object. */
  datatype Payload = HashPayload(fields: map<string, Value>) | TextPayload(text: string) | OtherPayload

  /** The `{summary:, sql:}` Hash the pipeline returns; `Null` is nil. */
  datatype Reply = Reply(summary: Value, sql: Value)

  /** The exceptions `[]` can raise on a parsed value; the pipeline does not
      rescue them. */
  datatype RubyError = TypeError | NoMethodError

  datatype Outcome = Returns(reply: Reply) | Raises(error: RubyError)

  /** The result of `value[key]`. */
  datatype Lookup = Found(value: Value) | Fails(error: RubyError)

  const UnexpectedFormat := "Unexpected response format. Please try again."
  const ParseFailed := "Failed to parse response. Please try again."

  /** A JSON number Ruby reads as an Integer: no fraction and no exponent. */
  predicate IsIntegerLexeme(lexeme: string) {
    forall k :: 0 <= k < |lexeme| ==> lexeme[k] != '.' && lexeme[k] != 'e' && lexeme[k] != 'E'
  }

  /** `value[key]` on what `JSON.parse` returns: a Hash looks the key up, a
      String returns the key when it contains it and nil otherwise, an
      Array or an Integer raises `TypeError`, and nil, true, false and a
      Float have no `[]`. */
  function Index(v: Value, key: string): (r: Lookup)
    ensures r.Found? <==> v.Obj? || v.Str?
    ensures v.Obj? ==> r.value == Get(v.members, key)
    ensures v.Str? ==> (r.value == Str(key) <==> Contains(v.s, key)) && (r.value.Null? <==> !Contains(v.s, key))
  {
    match v
    case Obj(m) => Found(Get(m, key))
    case Str(t) => Found(if Contains(t, key) then Str(key) else Null)
    case Arr(_) => Fails(TypeError)
    case Num(lexeme) => if IsIntegerLexeme(lexeme) then Fails(TypeError) else Fails(NoMethodError)
    case _ => Fails(NoMethodError)
  }

  /** `{summary: parsed["summary"], sql: parsed["sql"]}`. */
  function FromParsed(v: Value): Outcome {
    match Index(v, "summary")
    case Fails(e) => Raises(e)
    case Found(summary) =>
      match Index(v, "sql")
      case Fails(e) => Raises(e)
      case Found(sql) => Returns(Reply(summary, sql))
  }

  /** The repair pass: every double-quoted span, quotes included, with its
      line feeds, tabs and carriage returns escaped. */
  function Repair(content: string): string {
    assert Arity(Escaped) == 1;
    Gsub(QuotedSpanAt, Escaped, content, 0)
  }

  /** The last tier: the first quoted `"sql"` and `"summary"` values, raw;
      a missing summary becomes the failure message. */
  function RegexTier(content: string): Reply {
    var sql := Capture(SqlValueAt, content);
    var summary := Capture(SummaryValueAt, content);
    Reply(Str(summary.GetOr(ParseFailed)), if sql.Some? then Str(sql.value) else Null)
  }

  /** `parse_json_response`: strict parse, then parse of the repaired text,
      then the regex tier.  Only a parse error moves to the next tier. */
  function ParseJsonResponse(content: string): Outcome {
    match Parse(content)
    case Some(v) => FromParsed(v)
    case None =>
      match Parse(Repair(content))
      case Some(v) => FromParsed(v)
      case None => Returns(RegexTier(content))
  }

  /** `parse_response`. */
  function ParseResponse(p: Payload): Outcome {
    match p
    case HashPayload(f) =>
      if "sql" in f && "summary" in f then Returns(Reply(f["summary"], f["sql"]))
      else Returns(Reply(Str(UnexpectedFormat), Null))
    case TextPayload(t) => ParseJsonResponse(t)
    case OtherPayload => Returns(Reply(Str(UnexpectedFormat), Null))
  }

  /** `process`: the two values of the parsed answer, copied as they are. */
  function Process(p: Payload): (r: Outcome)
    ensures r.Raises? <==> ParseResponse(p).Raises?
  {
    match ParseResponse(p)
    case Raises(e) => Raises(e)
    case Returns(reply) => Returns(Reply(reply.summary, reply.sql))
  }

  // ---------------------------------------------------------------------
  // Properties of the reading
  // ---------------------------------------------------------------------

  /** A Hash with both keys gives its two values, untouched. */
  lemma HashWithBothKeys(f: map<string, Value>)
    requires "sql" in f && "summary" in f
    ensures Process(HashPayload(f)) == Returns(Reply(f["summary"], f["sql"]))
  {
  }

  /** A Hash missing either key, and anything that is neither a Hash nor a
      String, gives the fixed message and no SQL. */
  lemma UnexpectedPayload(p: Payload)
    requires p.OtherPayload? || (p.HashPayload? && ("sql" !in p.fields || "summary" !in p.fields))
    ensures Process(p) == Returns(Reply(Str(UnexpectedFormat), Null))
  {
  }

  /** `process` hands on what the parsing returned, and applies no default
      of its own. */
  lemma ProcessCopies(p: Payload)
    ensures Process(p) == ParseResponse(p)
  {
  }

  /** Text that parses as an object gives the object's two values; a
      missing key reads as nil. */
  lemma ParsedObject(content: string, m: Object)
    requires Parse(content) == Some(Obj(m))
    ensures Process(TextPayload(content)) == Returns(Reply(Get(m, "summary"), Get(m, "sql")))
  {
  }

  /** Text that fails to parse but whose repair parses as an object gives
      that object's two values. */
  lemma RepairedObject(content: string, m: Object)
    requires Parse(content).None? && Parse(Repair(content)) == Some(Obj(m))
    ensures Process(TextPayload(content)) == Returns(Reply(Get(m, "summary"), Get(m, "sql")))
  {
  }

  /** The encoding of a flat object is read back as its two values, strict
      parsing being the first tier. */
  lemma EncodedObject(pairs: seq<(string, Value)>)
    requires AllPlain(pairs)
    ensures Process(TextPayload(Encode(pairs))) == Returns(Reply(Get(ToMap(pairs), "summary"), Get(ToMap(pairs), "sql")))
  {
    ParseEncode(pairs);
  }

  /** No tier before the regex one defaults the summary: the empty object
      gives nil for both. */
  lemma EmptyObjectGivesNil()
    ensures Process(TextPayload("{}")) == Returns(Reply(Null, Null))
  {
    ParseEncode([]);
    assert Encode([]) == "{}";
  }

  /** A parsed value that is neither an object nor a string makes `[]`
      raise, and the error escapes `process`. */
  lemma ParsedScalarRaises(content: string, v: Value)
    requires Parse(content) == Some(v) && !v.Obj? && !v.Str?
    ensures Process(TextPayload(content)).Raises?
    ensures Process(TextPayload(content)).error == (if v.Arr? || (v.Num? && IsIntegerLexeme(v.lexeme)) then TypeError else NoMethodError)
  {
  }

  /** In the regex tier the summary is always a string, the failure message
      when no `"summary"` value is found, and the SQL is nil exactly when no
      `"sql"` value is found. */
  lemma RegexTierShape(content: string)
    requires Parse(content).None? && Parse(Repair(content)).None?
    ensures var r := Process(TextPayload(content));
      r.Returns? && r.reply.summary.Str?
      && (Capture(SummaryValueAt, content).None? ==> r.reply.summary == Str(ParseFailed))
      && (r.reply.sql.Null? <==> Capture(SqlValueAt, content).None?)
  {
  }

  /** The regex tier's SQL is the capture of the leftmost `"sql"` match:
      raw escaped text, in which every double quote follows a backslash. */
  lemma RegexTierSqlLeftmost(content: string)
    requires Find(SqlValueAt, content, 0).Some?
    ensures var (k, h) := Find(SqlValueAt, content, 0).value;
      RegexTier(content).sql == Str(h.groups[0]) && EscapedText(h.groups[0])
      && forall j :: 0 <= j < k ==> SqlValueAt(content, j).None?
  {
    var (k, h) := Find(SqlValueAt, content, 0).value;
    forall j | 0 <= j < k
      ensures SqlValueAt(content, j).None?
    {
      FindSkips(SqlValueAt, content, 0, j);
    }
  }

  /** The same for the summary, found independently of the SQL. */
  lemma RegexTierSummaryLeftmost(content: string)
    requires Find(SummaryValueAt, content, 0).Some?
    ensures var (k, h) := Find(SummaryValueAt, content, 0).value;
      RegexTier(content).summary == Str(h.groups[0]) && EscapedText(h.groups[0])
      && forall j :: 0 <= j < k ==> SummaryValueAt(content, j).None?
  {
    var (k, h) := Find(SummaryValueAt, content, 0).value;
    forall j | 0 <= j < k
      ensures SummaryValueAt(content, j).None?
    {
      FindSkips(SummaryValueAt, content, 0, j);
    }
  }

  // ---------------------------------------------------------------------
  // The repair pass, by spans
  // ---------------------------------------------------------------------

  /** An odd number of double quotes comes before position `k`. */
  predicate Opened(s: string, k: nat)
    requires k <= |s|
    decreases k
  {
    if k == 0 then false else Opened(s, k - 1) != (s[k - 1] == '"')
  }

  predicate QuoteAfter(s: string, k: nat) {
    exists j :: k < j < |s| && s[j] == '"'
  }

  /** Position `k` lies strictly inside a quote-to-next-quote span: an odd
      number of quotes before it and a quote after it. */
  predicate InSpan(s: string, k: nat)
    requires k < |s|
  {
    s[k] != '"' && Opened(s, k) && QuoteAfter(s, k)
  }

  predicate IsControl(c: char) {
    c == '\n' || c == '\t' || c == '\r'
  }

  /** What the repair makes of the character at `k`. */
  function Piece(s: string, k: nat): string
    requires k < |s|
  {
    if InSpan(s, k) then EscapeControl(s[k]) else [s[k]]
  }

  /** The pieces of the positions `lo` to `hi`, in order. */
  function Pieces(s: string, lo: nat, hi: nat): string
    requires lo <= hi <= |s|
    decreases hi - lo
  {
    if lo == hi then [] else Piece(s, lo) + Pieces(s, lo + 1, hi)
  }

  lemma {:induction false} PiecesSplit(s: string, lo: nat, mid: nat, hi: nat)
    requires lo <= mid <= hi <= |s|
    ensures Pieces(s, lo, hi) == Pieces(s, lo, mid) + Pieces(s, mid, hi)
    decreases mid - lo
  {
    if lo < mid {
      PiecesSplit(s, lo + 1, mid, hi);
    }
  }

  /** After a quote, and up to the next one, the parity is flipped. */
  lemma {:induction false} QuotesInside(s: string, i: nat, k: nat)
    requires i < k <= |s| && s[i] == '"'
    requires forall j :: i < j < k ==> s[j] != '"'
    ensures Opened(s, k) == !Opened(s, i)
    decreases k - i
  {
    if k > i + 1 {
      QuotesInside(s, i, k - 1);
    }
  }

  /** Inside a matched span every position is escaped by the repair. */
  lemma SpanPiece(s: string, i: nat, e: nat, k: nat)
    requires i < e < |s| && s[i] == '"' && s[e] == '"'
    requires forall j :: i < j < e ==> s[j] != '"'
    requires !Opened(s, i) && i <= k <= e
    ensures Piece(s, k) == EscapeControl(s[k])
  {
    if i < k < e {
      QuotesInside(s, i, k);
      assert k < e < |s| && s[e] == '"';
    }
  }

  /** Escaping the tail of a matched span from `lo` on gives its pieces. */
  lemma {:induction false} SpanEscaped(s: string, i: nat, e: nat, lo: nat)
    requires i < e < |s| && s[i] == '"' && s[e] == '"'
    requires forall k :: i < k < e ==> s[k] != '"'
    requires !Opened(s, i) && i <= lo <= e + 1
    ensures EscapeControls(s[lo..e + 1]) == Pieces(s, lo, e + 1)
    decreases e + 1 - lo
  {
    if lo <= e {
      SpanPiece(s, i, e, lo);
      SpanEscaped(s, i, e, lo + 1);
      assert s[lo..e + 1][1..] == s[lo + 1..e + 1];
    }
  }

  /** One matched span: its pieces are the escaped span, and after it the
      text is outside every span again. */
  lemma SpanPieces(s: string, i: nat, e: nat)
    requires i < e < |s| && s[i] == '"' && s[e] == '"'
    requires forall k :: i < k < e ==> s[k] != '"'
    requires !Opened(s, i)
    ensures EscapeControls(s[i..e + 1]) == Pieces(s, i, e + 1)
    ensures !Opened(s, e + 1)
  {
    SpanEscaped(s, i, e, i);
    QuotesInside(s, i, e);
  }

  /** Where no span starts, the character is kept, and the position after
      it is again outside every span or followed by no quote. */
  lemma NoSpanAt(s: string, i: nat)
    requires i < |s| && QuotedSpanAt(s, i).None?
    requires !Opened(s, i) || forall j :: i <= j < |s| ==> s[j] != '"'
    ensures Piece(s, i) == [s[i]]
    ensures !Opened(s, i + 1) || forall j :: i + 1 <= j < |s| ==> s[j] != '"'
  {
    if s[i] == '"' {
      var e := RunEnd(s, i + 1, NotDoubleQuote);
      assert forall j :: i < j < |s| ==> s[j] != '"';
    }
  }

  /** The repair from a position outside every span is the pieces of the
      rest of the text. */
  lemma {:induction false} RepairFrom(s: string, i: nat)
    requires i <= |s|
    requires !Opened(s, i) || forall j :: i <= j < |s| ==> s[j] != '"'
    ensures Gsub(QuotedSpanAt, Escaped, s, i) == Pieces(s, i, |s|)
    decreases |s| - i
  {
    if i < |s| {
      match QuotedSpanAt(s, i) {
        case Some(h) =>
          var e := h.end - 1;
          SpanPieces(s, i, e);
          RepairFrom(s, h.end);
          PiecesSplit(s, i, h.end, |s|);
        case None =>
          NoSpanAt(s, i);
          RepairFrom(s, i + 1);
      }
    }
  }

  /** The repair replaces each line feed, tab and carriage return strictly
      inside a quote-to-next-quote span by its two-character escape and
      keeps every other character, in order. */
  lemma RepairIsPieces(s: string)
    ensures Repair(s) == Pieces(s, 0, |s|)
  {
    assert Arity(Escaped) == 1;
    RepairFrom(s, 0);
  }

  lemma {:induction false} PiecesLength(s: string, lo: nat, hi: nat)
    requires lo <= hi <= |s|
    ensures |Pieces(s, lo, hi)| >= hi - lo
    ensures |Pieces(s, lo, hi)| == hi - lo <==> forall k :: lo <= k < hi && InSpan(s, k) ==> !IsControl(s[k])
    ensures (forall k :: lo <= k < hi && InSpan(s, k) ==> !IsControl(s[k])) ==> Pieces(s, lo, hi) == s[lo..hi]
    decreases hi - lo
  {
    if lo < hi {
      PiecesLength(s, lo + 1, hi);
      assert s[lo..hi] == [s[lo]] + s[lo + 1..hi];
    }
  }

  /** The repair leaves the text identical exactly when no span holds a
      line feed, tab or carriage return. */
  lemma RepairUnchanged(s: string)
    ensures Repair(s) == s <==> forall k :: 0 <= k < |s| && InSpan(s, k) ==> !IsControl(s[k])
  {
    RepairIsPieces(s);
    PiecesLength(s, 0, |s|);
    assert s[0..|s|] == s;
  }

  // ---------------------------------------------------------------------
  // The database dialect
  // ---------------------------------------------------------------------

  predicate PostgresHit(l: string) { Contains(l, "postgresql") || Contains(l, "postgis") }
  predicate MySqlHit(l: string) { Contains(l, "mysql") || Contains(l, "mysql2") }
  predicate SqliteHit(l: string) { Contains(l, "sqlite") }
  predicate SqlServerHit(l: string) { Contains(l, "sqlserver") || Contains(l, "mssql") }
  predicate OracleHit(l: string) { Contains(l, "oracle") }

  /** `detect_database_type`: the `case` over the lower-cased adapter name,
      whose branches are tried in order. */
  function DetectDatabaseType(adapter: string): string {
    var l := Lower(adapter);
    if PostgresHit(l) then "PostgreSQL"
    else if MySqlHit(l) then "MySQL"
    else if SqliteHit(l) then "SQLite3"
    else if SqlServerHit(l) then "SQL Server"
    else if OracleHit(l) then "Oracle"
    else Capitalize(l)
  }

  /** A lower-cased text has no upper-case ASCII letter. */
  predicate NoUpper(t: string) {
    forall k :: 0 <= k < |t| ==> !('A' <= t[k] <= 'Z')
  }

  predicate UpperAfterFirst(t: string) {
    exists k :: 1 <= k < |t| && 'A' <= t[k] <= 'Z'
  }

  /** Past its first character, a capitalized lower-cased name has no
      upper-case letter, so it is none of the fixed names but `Oracle`, and
      it is `Oracle` only for the name `oracle`. */
  lemma CapitalizedIsNoLabel(l: string)
    requires NoUpper(l)
    ensures var c := Capitalize(l);
      c != "PostgreSQL" && c != "MySQL" && c != "SQLite3" && c != "SQL Server"
      && (c == "Oracle" ==> l == "oracle")
  {
    var c := Capitalize(l);
    forall k | 1 <= k < |c|
      ensures !('A' <= c[k] <= 'Z')
    {
      assert c[k] == Lower(l[1..])[k - 1] == LowerChar(l[k]);
    }
    assert !UpperAfterFirst(c);
    assert UpperAfterFirst("PostgreSQL") by { assert "PostgreSQL"[7] == 'S'; }
    assert UpperAfterFirst("MySQL") by { assert "MySQL"[2] == 'S'; }
    assert UpperAfterFirst("SQLite3") by { assert "SQLite3"[1] == 'Q'; }
    assert UpperAfterFirst("SQL Server") by { assert "SQL Server"[1] == 'Q'; }
    if c == "Oracle" {
      assert l[0] == 'o';
      forall k | 1 <= k < 6
        ensures l[k] == "oracle"[k]
      {
        assert c[k] == LowerChar(l[k]);
      }
    }
  }

  lemma LowerHasNoUpper(adapter: string)
    ensures NoUpper(Lower(adapter))
  {
  }

  /** Each fixed name is returned exactly when its branch is the first to
      match; any other adapter gives its own name, capitalized. */
  lemma DetectDatabaseTypeBranches(adapter: string)
    ensures var l, r := Lower(adapter), DetectDatabaseType(adapter);
      (r == "PostgreSQL" <==> PostgresHit(l))
      && (r == "MySQL" <==> !PostgresHit(l) && MySqlHit(l))
      && (r == "SQLite3" <==> !PostgresHit(l) && !MySqlHit(l) && SqliteHit(l))
      && (r == "SQL Server" <==> !PostgresHit(l) && !MySqlHit(l) && !SqliteHit(l) && SqlServerHit(l))
      && (r == "Oracle" <==> !PostgresHit(l) && !MySqlHit(l) && !SqliteHit(l) && !SqlServerHit(l) && OracleHit(l))
      && (!PostgresHit(l) && !MySqlHit(l) && !SqliteHit(l) && !SqlServerHit(l) && !OracleHit(l) ==> r == Capitalize(l))
  {
    var l := Lower(adapter);
    LowerHasNoUpper(adapter);
    CapitalizedIsNoLabel(l);
    if l == "oracle" {
      assert PrefixAt(l, 0, "oracle");
    }
  }

  /** The `mysql2` alternative adds nothing: it contains `mysql`. */
  lemma MySql2Redundant(l: string)
    ensures MySqlHit(l) <==> Contains(l, "mysql")
  {
    if Contains(l, "mysql2") {
      var i :| 0 <= i <= |l| - 6 && PrefixAt(l, i, "mysql2");
      assert l[i..i + 5] == l[i..i + 6][..5];
      assert PrefixAt(l, i, "mysql");
    }
  }

  // ---------------------------------------------------------------------
  // The system prompt
  // ---------------------------------------------------------------------

  /** Rails' `present?` on a String or nil. */
  predicate Present(o: Option<string>) {
    o.Some? && !IsBlank(o.value)
  }

  /** A message of the saved query's conversation. */
  datatype Message = Message(createdAt: int, body: Option<string>, statement: Option<string>)

  /** `messages.order(:created_at).last`: the position of a message with the
      latest creation time, the last of them in the given order when
      several share it. */
  function LatestIndex(ms: seq<Message>): (r: Option<nat>)
    ensures r.Some? <==> ms != []
    ensures r.Some? ==>
      r.value < |ms|
      && (forall k :: 0 <= k < |ms| ==> ms[k].createdAt <= ms[r.value].createdAt)
      && (forall k :: r.value < k < |ms| ==> ms[k].createdAt < ms[r.value].createdAt)
    decreases |ms|
  {
    if ms == [] then None
    else
      var init, last := ms[..|ms| - 1], |ms| - 1;
      assert forall k :: 0 <= k < |init| ==> init[k] == ms[k];
      match LatestIndex(init)
      case None => Some(last)
      case Some(j) => if ms[j].createdAt <= ms[last].createdAt then Some(last) else Some(j)
  }

  /** What the prompt is built from: the adapter name, the saved query's
      statement and messages, the schema section (nil when it failed) and
      the scopes section. */
  datatype PromptInput = PromptInput(
    adapter: string, statement: Option<string>, messages: seq<Message>,
    schema: Option<string>, scopes: string)

  const InstructionIntro: seq<string> := [
    "You are an expert SQL analyst helping users iteratively refine their database queries.",
    ""
  ]

  const InstructionTask: seq<string> := [
    "",
    "Your task:",
    "1. Analyze the user's natural language request",
    "2. Determine if you should:",
    "   a) Modify the most recent SQL query (from Previous Context if available)",
    "   b) Modify the baseline query (from Current Query section)",
    "   c) Create an entirely new query if the request is unrelated"
  ]

  const InstructionFormat: seq<string> := [
    "4. Provide a clear explanation of what changed and why",
    "",
    "Response format (STRICT JSON):",
    "{",
    "  \"summary\": \"Explain what this query does and what changes were made from the previous version (if any)\",",
    "  \"sql\": \"The complete SQL query statement\"",
    "}",
    "",
    "CLARIFICATION REQUIRED: If you're unsure how to query based on certain criteria:",
    "- Return a summary asking for clarification",
    "- Set sql to null",
    "- Example: {\"summary\": \"I need clarification on what you mean by 'activated accounts'. Do you mean users with a specific status, users who have logged in, or users with a certain field set?\", \"sql\": null}",
    "",
    "IMPORTANT: ",
    "- Always return the COMPLETE query, not just the changes",
    "- When producing SQL, exclude ALL comments and extraneous characters - the SQL will be immediately executed against a database",
    "- Format SQL to be human readable, per SQL writing best practices, but still executable",
    "- When modifying existing queries, preserve the original intent while incorporating the requested changes",
    "- If the user asks for adjustments (e.g., \"add a filter\", \"group by X\", \"sort differently\"), modify the most recent query",
    "- If the user asks something completely new, create a fresh query",
    "",
    "Guidelines:"
  ]

  const InstructionGuidelines: seq<string> := [
    "- Use meaningful table aliases and column names",
    "- Do NOT include comments in SQL queries - they will be executed directly",
    "- Prefer JOINs over subqueries when appropriate",
    "- Consider performance implications for large datasets",
    "- ROLE HANDLING: When dealing with \"roles\" (e.g., \"candidates\", \"employers\", synonyms of \"users\"):",
    "  * ALWAYS check the users model/table/scopes first to understand how roles are established",
    "  * Look for role-related columns, scopes, or associations in the users table",
    "  * Map role-related terms to the actual implementation in the database",
    "- SCOPE PRIORITIZATION: ALWAYS prioritize matching user requests to available model scopes",
    "  * FIRST check if any existing scopes match the user's intent",
    "  * Use scopes as the PRIMARY source for query patterns",
    "  * Only write custom SQL when no appropriate scope exists",
    "  * Analyze the intent behind user queries and map them to corresponding scopes",
    "  * When users describe filters or conditions, identify matching scope patterns",
    "  * Example: if user asks for \"recent items\", look for scopes like \"recent\", \"latest\", or time-based scopes",
    "- JSONB COLUMNS: NEVER guess at JSONB column keys or values",
    "  * Only query JSONB fields that are explicitly defined in scopes or schema documentation",
    "  * If JSONB structure is unknown, do NOT attempt to query specific keys",
    "  * Avoid assumptions about JSONB content unless explicitly documented",
    "- PRESENCE CHECKS: For presence/existence checks:",
    "  * Use \"IS NOT NULL\" or \"IS NULL\" for presence/absence checks",
    "  * Avoid using literal values like 'true' or specific strings unless explicitly required",
    "  * For boolean presence, check for NOT NULL rather than = true",
    "  * Example: Use \"activated_at IS NOT NULL\" instead of \"activated = 'true'\"",
    "- Ensure all table and column names match the schema exactly",
    "- Handle NULL values appropriately (prefer IS NULL/IS NOT NULL for presence checks)",
    "- Use proper data type casting when needed"
  ]

  const InstructionClosing: seq<string> := [
    "- NEVER make assumptions about data structure - use only what's documented in schema and scopes"
  ]

  /** The lines of the base instruction, with the dialect name `t` in its four places. */
  function InstructionLines(t: string): seq<string> {
    InstructionIntro
    + ["DATABASE TYPE: " + t]
    + InstructionTask
    + ["3. Generate the appropriate SQL query for " + t]
    + InstructionFormat
    + ["- Write efficient, readable SQL using " + t + "-specific syntax"]
    + InstructionGuidelines
    + ["- Follow " + t + " best practices and syntax conventions"]
    + InstructionClosing
  }

  /** The base instruction: a heredoc, so every line ends with a line feed. */
  function BaseInstruction(t: string): string {
    Join(InstructionLines(t), "\n") + "\n"
  }

  const GenerationRules: seq<string> := [
    "\n\n## QUERY GENERATION RULES",
    "1. Match table and column names EXACTLY as shown in the schema",
    "2. NO COMMENTS OR NEWLINES in SQL - output will be executed directly against database",
    "3. SCOPE FIRST: ALWAYS prioritize using available scopes over custom SQL",
    "   - Check ALL available scopes before writing custom conditions",
    "   - Map user language directly to scope names when possible",
    "4. JSONB HANDLING: NEVER guess at JSONB structure",
    "   - Only use JSONB keys that are explicitly documented in scopes or schema",
    "   - If unsure about JSONB structure, avoid querying it",
    "5. PRESENCE/ABSENCE CHECKS:",
    "   - Use IS NOT NULL for presence (not = 'true' or = true)",
    "   - Use IS NULL for absence",
    "   - Example: 'activated users' \U{2192} 'activated_at IS NOT NULL'",
    "6. ROLE HANDLING: When users mention roles like 'candidates' or 'employers':",
    "   - Check the users table/model/scopes first to understand role implementation",
    "   - Map role terms to actual database structure (columns, associations, etc.)",
    "7. Generate ONE query that best answers the user's request",
    "8. NEVER make assumptions - use only documented schema and scopes"
  ]

  /** The fixed rules block: its heading and the eight numbered rules, seven
      of them followed by explanation lines. */
  lemma GenerationRulesShape()
    ensures |GenerationRules| == 18
    ensures GenerationRules[0] == "\n\n## QUERY GENERATION RULES"
    ensures GenerationRules[17] == "8. NEVER make assumptions - use only documented schema and scopes"
  {
  }

  /** The two fixed texts of the prompt: the base instruction, and the
      lines of the rules block. */
  datatype Texts = Texts(instruction: string, rules: seq<string>)

  /** The sections of the prompt. */
  datatype Section = Instructions | Baseline | PreviousContext | SchemaContext | ScopesContext | Rules

  /** The sections in the fixed order `build_system_prompt` writes them. */
  const Sections: seq<Section> := [Instructions, Baseline, PreviousContext, SchemaContext, ScopesContext, Rules]

  /** The position of a section in the fixed order. */
  function Order(sec: Section): (r: nat)
    ensures r < |Sections| && Sections[r] == sec
  {
    match sec
    case Instructions => 0
    case Baseline => 1
    case PreviousContext => 2
    case SchemaContext => 3
    case ScopesContext => 4
    case Rules => 5
  }

  /** Whether `build_system_prompt` writes the section for this input. */
  predicate Included(sec: Section, input: PromptInput) {
    match sec
    case Instructions => true
    case Baseline => Present(input.statement)
    case PreviousContext => LatestIndex(input.messages).Some?
    case SchemaContext => Present(input.schema)
    case ScopesContext => !IsBlank(input.scopes)
    case Rules => true
  }

  /** The sections written among the first `n` of the fixed order. */
  function PlanUpTo(input: PromptInput, n: nat): seq<Section>
    requires n <= |Sections|
  {
    if n == 0 then []
    else if Included(Sections[n - 1], input) then PlanUpTo(input, n - 1) + [Sections[n - 1]]
    else PlanUpTo(input, n - 1)
  }

  /** The sections the prompt has, in order. */
  function Plan(input: PromptInput): seq<Section> {
    PlanUpTo(input, |Sections|)
  }

  const BaselineHeading := "\n\n## CURRENT QUERY (BASELINE)\n"
  const BaselineIntro := "The currently saved query that we're working with:\n"
  const SqlFenceOpen := "```sql\n"
  const SqlFenceClose := "\n```"
  const BaselineClosing := "\nThis is the baseline query. You may modify or completely replace it based on the user's request.\n"
  const PreviousHeading := "\n\n## PREVIOUS CONTEXT\n"
  const PreviousIntro := "The most recent message from this conversation:\n"
  const PreviousResponse := "\nPrevious response: "
  const PreviousSql := "\nPrevious SQL: "
  const PreviousClosing := "\n\nConsider this context when generating your response.\n"

  /** The baseline block: the saved statement in a fenced SQL block. */
  function BaselineParts(statement: string): seq<string> {
    [BaselineHeading, BaselineIntro, SqlFenceOpen + statement + SqlFenceClose, BaselineClosing]
  }

  /** The previous-context block of a message: its body and its SQL, each
      only when present. */
  function PreviousParts(m: Message): seq<string> {
    [PreviousHeading, PreviousIntro]
    + (if Present(m.body) then [PreviousResponse + m.body.value] else [])
    + (if Present(m.statement) then [PreviousSql + m.statement.value] else [])
    + [PreviousClosing]
  }

  /** The parts one section contributes. */
  function SectionParts(sec: Section, input: PromptInput, texts: Texts): seq<string> {
    match sec
    case Instructions => [texts.instruction]
    case Baseline => BaselineParts(input.statement.GetOr(""))
    case PreviousContext =>
      (match LatestIndex(input.messages)
       case Some(j) => PreviousParts(input.messages[j])
       case None => [])
    case SchemaContext => [input.schema.GetOr("")]
    case ScopesContext => [input.scopes]
    case Rules => texts.rules
  }

  /** The parts of the sections of `plan`, section after section. */
  function PartsOf(plan: seq<Section>, input: PromptInput, texts: Texts): seq<string>
    decreases |plan|
  {
    if plan == [] then [] else PartsOf(plan[..|plan| - 1], input, texts) + SectionParts(plan[|plan| - 1], input, texts)
  }

  /** The parts written for the first `n` sections of the fixed order. */
  function PartsUpTo(input: PromptInput, texts: Texts, n: nat): seq<string>
    requires n <= |Sections|
  {
    if n == 0 then []
    else if Included(Sections[n - 1], input) then PartsUpTo(input, texts, n - 1) + SectionParts(Sections[n - 1], input, texts)
    else PartsUpTo(input, texts, n - 1)
  }

  /** The prompt built with the fixed texts `texts`: the parts joined by
      line feeds. */
  function PromptWith(input: PromptInput, texts: Texts): string {
    Join(PartsUpTo(input, texts, |Sections|), "\n")
  }

  /** The system prompt. */
  function SystemPrompt(input: PromptInput): string {
    PromptWith(input, Texts(BaseInstruction(DetectDatabaseType(input.adapter)), GenerationRules))
  }

  /** The lines of the previous-context block, appended one by one. */
  method PreviousSection(m: Message) returns (lines: seq<string>)
    ensures lines == PreviousParts(m)
  {
    lines := [PreviousHeading, PreviousIntro];
    if Present(m.body) {
      lines := lines + [PreviousResponse + m.body.value];
    }
    if Present(m.statement) {
      lines := lines + [PreviousSql + m.statement.value];
    }
    lines := lines + [PreviousClosing];
  }

  /** The appending of `build_system_prompt`, the base instruction and the
      rules being given. */
  method AssemblePrompt(input: PromptInput, texts: Texts) returns (prompt: string)
    ensures prompt == PromptWith(input, texts)
  {
    var parts: seq<string> := [texts.instruction];
    ghost var n := 1;
    assert parts == PartsUpTo(input, texts, n);
    if Present(input.statement) {
      var statement := input.statement.value;
      parts := parts + [BaselineHeading, BaselineIntro, SqlFenceOpen + statement + SqlFenceClose, BaselineClosing];
    }
    n := n + 1;
    assert parts == PartsUpTo(input, texts, n);
    var latest := LatestIndex(input.messages);
    if latest.Some? {
      var lines := PreviousSection(input.messages[latest.value]);
      parts := parts + lines;
    }
    n := n + 1;
    assert parts == PartsUpTo(input, texts, n);
    if Present(input.schema) {
      parts := parts + [input.schema.value];
    }
    n := n + 1;
    assert parts == PartsUpTo(input, texts, n);
    if !IsBlank(input.scopes) {
      parts := parts + [input.scopes];
    }
    n := n + 1;
    assert parts == PartsUpTo(input, texts, n);
    parts := parts + texts.rules;
    n := n + 1;
    assert parts == PartsUpTo(input, texts, n);
    prompt := Join(parts, "\n");
  }

  /** `build_system_prompt`. */
  method BuildSystemPrompt(input: PromptInput) returns (prompt: string)
    ensures prompt == SystemPrompt(input)
  {
    var databaseType := DetectDatabaseType(input.adapter);
    prompt := AssemblePrompt(input, Texts(BaseInstruction(databaseType), GenerationRules));
  }

  /** `structured_output`: the instruction appended to the user's prompt. */
  const StructuredOutput := "Return as a JSON object with sql and summary keys and no additional commentary.\n"

  /** What is asked of the model: the user's prompt, `". "` and the
      structured-output instruction. */
  function AskText(prompt: string): string {
    prompt + ". " + StructuredOutput
  }

  /** Every question sent ends with `". "` and the instruction, and the
      question tells the user's prompt: two prompts are asked alike only
      when they are the same. */
  lemma AskTextDeterminesPrompt(p: string, q: string)
    ensures var r := AskText(p);
      |r| >= |StructuredOutput| + 2
      && r[|r| - |StructuredOutput| - 2..] == ". " + StructuredOutput
    ensures AskText(p) == AskText(q) <==> p == q
  {
    if AskText(p) == AskText(q) {
      assert |p| == |q|;
      assert AskText(p)[..|p|] == p && AskText(q)[..|q|] == q;
    }
  }

  // ---------------------------------------------------------------------
  // Properties of the prompt
  // ---------------------------------------------------------------------

  /** The base instruction has 63 lines and names the dialect in four of
      them. */
  lemma InstructionNamesDialect(t: string)
    ensures var lines := InstructionLines(t);
      |lines| == 63
      && lines[2] == "DATABASE TYPE: " + t
      && lines[10] == "3. Generate the appropriate SQL query for " + t
      && lines[33] == "- Write efficient, readable SQL using " + t + "-specific syntax"
      && lines[61] == "- Follow " + t + " best practices and syntax conventions"
  {
  }

  /** The sections written among the first `n` are those the input asks
      for, each once, in the fixed order. */
  lemma {:induction false} PlanUpToShape(input: PromptInput, n: nat)
    requires n <= |Sections|
    ensures var p := PlanUpTo(input, n);
      (forall sec :: sec in p <==> Order(sec) < n && Included(sec, input))
      && (forall i, j :: 0 <= i < j < |p| ==> Order(p[i]) < Order(p[j]))
      && (forall i :: 0 <= i < |p| ==> Order(p[i]) < n)
  {
    if n > 0 {
      PlanUpToShape(input, n - 1);
      var sec := Sections[n - 1];
      assert Order(sec) == n - 1;
      forall other
        ensures other in PlanUpTo(input, n) <==> Order(other) < n && Included(other, input)
      {
        if Order(other) == n - 1 {
          assert other == sec;
        }
      }
    }
  }

  /** The plan starts with the base instructions and ends with the rules;
      the baseline, previous-context, schema and scopes sections are there
      exactly when the statement is present, the query has messages, the
      schema context is present and the scopes context is present; and the
      sections are in the fixed order. */
  lemma PlanShape(input: PromptInput)
    ensures var p := Plan(input);
      |p| >= 2 && p[0] == Instructions && p[|p| - 1] == Rules
      && (Baseline in p <==> Present(input.statement))
      && (PreviousContext in p <==> input.messages != [])
      && (SchemaContext in p <==> Present(input.schema))
      && (ScopesContext in p <==> !IsBlank(input.scopes))
      && (forall i, j :: 0 <= i < j < |p| ==> Order(p[i]) < Order(p[j]))
  {
    PlanUpToShape(input, |Sections|);
    var p := Plan(input);
    assert p == PlanUpTo(input, 5) + [Rules];
    PlanUpToShape(input, 5);
    assert Instructions in p;
    var k :| 0 <= k < |p| && p[k] == Instructions;
    if k != 0 {
      assert Order(p[0]) < Order(p[k]);
    }
  }

  /** One more section adds its parts at the end. */
  lemma PartsOfSnoc(plan: seq<Section>, sec: Section, input: PromptInput, texts: Texts)
    ensures PartsOf(plan + [sec], input, texts) == PartsOf(plan, input, texts) + SectionParts(sec, input, texts)
  {
    assert (plan + [sec])[..|plan|] == plan;
  }

  /** The parts written are those of the planned sections, section after
      section. */
  lemma {:induction false} PartsFollowPlan(input: PromptInput, texts: Texts, n: nat)
    requires n <= |Sections|
    ensures PartsUpTo(input, texts, n) == PartsOf(PlanUpTo(input, n), input, texts)
  {
    if n > 0 {
      PartsFollowPlan(input, texts, n - 1);
      if Included(Sections[n - 1], input) {
        PartsOfSnoc(PlanUpTo(input, n - 1), Sections[n - 1], input, texts);
      }
    }
  }

  /** The prompt is the parts of the planned sections joined by line
      feeds. */
  lemma PromptFollowsPlan(input: PromptInput, texts: Texts)
    ensures PromptWith(input, texts) == Join(PartsOf(Plan(input), input, texts), "\n")
  {
    PartsFollowPlan(input, texts, |Sections|);
  }

  /** The first part written is the base instruction. */
  lemma {:induction false} PartsStartWithInstruction(input: PromptInput, texts: Texts, n: nat)
    requires 1 <= n <= |Sections|
    ensures PartsUpTo(input, texts, n) != [] && PartsUpTo(input, texts, n)[0] == texts.instruction
  {
    if n > 1 {
      PartsStartWithInstruction(input, texts, n - 1);
    }
  }

  /** The prompt begins with the base instruction and ends with the rules
      block, after a line feed. */
  lemma PromptFrame(input: PromptInput, texts: Texts)
    requires texts.rules != []
    ensures texts.instruction <= PromptWith(input, texts)
    ensures var head := Join(PartsUpTo(input, texts, 5), "\n");
      PromptWith(input, texts) == head + "\n" + Join(texts.rules, "\n")
  {
    PartsStartWithInstruction(input, texts, 5);
    var head := PartsUpTo(input, texts, 5);
    assert PartsUpTo(input, texts, 6) == head + texts.rules;
    JoinConcat(head, texts.rules, "\n");
    JoinHead(head, "\n");
    JoinHead(head + texts.rules, "\n");
    assert (head + texts.rules)[0] == texts.instruction;
  }
}
