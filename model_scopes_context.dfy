/** The scopes section of the system prompt
    (lib/sage/model_scopes_context.rb): the scopes defined in the
    application's model files, each with a SQL-like hint read off its body.
    Listing and reading the files, eager loading and the class reflection
    that yields a table name are outside the model: each file arrives with
    its path, model name, table name and content. */
module ModelScopesContext {
  import opened Wrappers
  import opened Text
  import opened Patterns
  import opened Sequences

  /** A file under app/models: its path, the model name its base name
      camelizes to, the table name the model reports and its content. */
  datatype ModelFile = ModelFile(path: string, name: string, table: string, content: string)

  /** A listed model: its name, its table and one rendered line per scope. */
  datatype ModelInfo = ModelInfo(name: string, table: string, scopes: seq<string>)

  /** A scope definition found in a file: its name and its body. */
  type ScopeMatch = (string, string)

  const Header: seq<string> := [
    "\n\n## AVAILABLE SCOPES \U{2192} SQL MAPPINGS\n",
    "CRITICAL: Use these scopes to understand how to query the data!",
    "Each scope name shows the SQL conditions it generates.",
    "When a user's request matches a scope's intent, use that scope's SQL pattern.\n"
  ]

  /** The scope-definition patterns, in the order they are tried
      (model_scopes_context.rb:65-72). */
  const Definitions: seq<Scanner> := [ArrowScopeAt, LambdaScopeAt, LineScopeAt]

  /** Each definition pattern can be tried anywhere and has two groups. */
  lemma DefinitionsSound(content: string)
    ensures forall k :: 0 <= k < |Definitions| ==> Sound(Definitions[k], content, 2)
  {
    assert Sound(ArrowScopeAt, content, 2);
    assert Sound(LambdaScopeAt, content, 2);
    assert Sound(LineScopeAt, content, 2);
  }

  // ---------------------------------------------------------------------
  // Collecting scope definitions
  // ---------------------------------------------------------------------

  /** The name and body of each match of one pattern, in order. */
  function Pairs(gs: seq<seq<string>>): (r: seq<ScopeMatch>)
    requires forall k :: 0 <= k < |gs| ==> |gs[k]| == 2
    ensures |r| == |gs|
    ensures forall k :: 0 <= k < |gs| ==> r[k] == (gs[k][0], gs[k][1])
  {
    seq(|gs|, k requires 0 <= k < |gs| => (gs[k][0], gs[k][1]))
  }

  /** Every match of the patterns `ds` in `content`, pattern by pattern. */
  function Occurrences(content: string, ds: seq<Scanner>): seq<ScopeMatch>
    requires forall k :: 0 <= k < |ds| ==> Sound(ds[k], content, 2)
    decreases |ds|
  {
    if ds == [] then [] else Pairs(Scan(ds[0], content, 0)) + Occurrences(content, ds[1..])
  }

  predicate HasName(ms: seq<ScopeMatch>, name: string) {
    exists k :: 0 <= k < |ms| && ms[k].0 == name
  }

  predicate DistinctNames(ms: seq<ScopeMatch>) {
    forall k, l :: 0 <= k < l < |ms| ==> ms[k].0 != ms[l].0
  }

  /** One step of the collection: a match is kept unless its name is
      already there. */
  function Add(acc: seq<ScopeMatch>, m: ScopeMatch): seq<ScopeMatch> {
    if HasName(acc, m.0) then acc else acc + [m]
  }

  function DedupInto(acc: seq<ScopeMatch>, ms: seq<ScopeMatch>): seq<ScopeMatch>
    decreases |ms|
  {
    if ms == [] then acc else DedupInto(Add(acc, ms[0]), ms[1..])
  }

  /** The scope definitions of a file, as the collection loop keeps them. */
  function ScopeMatches(content: string): seq<ScopeMatch> {
    DefinitionsSound(content);
    DedupInto([], Occurrences(content, Definitions))
  }

  /** The collection loop of `collect_models_with_scopes` for one file,
      for patterns `ds` tried in order. */
  method CollectScopeMatches(content: string, ds: seq<Scanner>) returns (matches: seq<ScopeMatch>)
    requires forall k :: 0 <= k < |ds| ==> Sound(ds[k], content, 2)
    ensures matches == DedupInto([], Occurrences(content, ds))
  {
    matches := [];
    var i := 0;
    assert ds[0..] == ds;
    while i < |ds|
      invariant 0 <= i <= |ds|
      invariant DedupInto(matches, Occurrences(content, ds[i..])) == DedupInto([], Occurrences(content, ds))
    {
      var found := Scan(ds[i], content, 0);
      var later := Occurrences(content, ds[i + 1..]);
      OccurrencesStep(content, ds, i, found, later);
      var j := 0;
      while j < |found|
        invariant 0 <= j <= |found|
        invariant DedupInto(matches, Pairs(found[j..]) + later) == DedupInto([], Occurrences(content, ds))
      {
        var name, body := found[j][0], found[j][1];
        DedupStep(matches, found, j, later);
        if !HasName(matches, name) {
          matches := matches + [(name, body)];
        }
        j := j + 1;
      }
      assert found[j..] == [];
      assert Pairs([]) + later == later;
      i := i + 1;
    }
  }

  lemma OccurrencesStep(content: string, ds: seq<Scanner>, i: nat, found: seq<seq<string>>, later: seq<ScopeMatch>)
    requires forall k :: 0 <= k < |ds| ==> Sound(ds[k], content, 2)
    requires i < |ds| && found == Scan(ds[i], content, 0) && later == Occurrences(content, ds[i + 1..])
    ensures Occurrences(content, ds[i..]) == Pairs(found[0..]) + later
  {
    assert ds[i..][1..] == ds[i + 1..];
    assert found[0..] == found;
  }

  /** One step of the inner collection loop. */
  lemma DedupStep(acc: seq<ScopeMatch>, found: seq<seq<string>>, j: nat, later: seq<ScopeMatch>)
    requires j < |found| && forall k :: 0 <= k < |found| ==> |found[k]| == 2
    ensures DedupInto(acc, Pairs(found[j..]) + later)
      == DedupInto(Add(acc, (found[j][0], found[j][1])), Pairs(found[j + 1..]) + later)
  {
    var rest := Pairs(found[j + 1..]) + later;
    assert Pairs(found[j..]) == [(found[j][0], found[j][1])] + Pairs(found[j + 1..]);
    assert Pairs(found[j..]) + later == [(found[j][0], found[j][1])] + rest;
  }

  // ---------------------------------------------------------------------
  // The SQL hint of a scope body
  // ---------------------------------------------------------------------

  function Optional(o: Option<string>): (r: seq<string>)
    ensures |r| <= 1
  {
    if o.Some? then [o.value] else []
  }

  /** The hash-to-SQL rewrites of `where(...)`, in the source's order. */
  function HashToSql(w: string): string {
    assert Arity(Assign) == 2 && Arity(AssignQuoted) == 2;
    var pairs := Gsub(HashPairAt, Assign, w, 0);
    var quoted := Gsub(HashQuotedAt, AssignQuoted, pairs, 0);
    Gsub(HashLiteralAt, Assign, quoted, 0)
  }

  function WherePart(c: string): Option<string> {
    match Capture(WhereQuotedAt, c)
    case Some(x) => Some("WHERE " + x)
    case None =>
      match Capture(WhereParenAt, c)
      case Some(x) => Some("WHERE " + HashToSql(Strip(x)))
      case None =>
        match Capture(WhereNotAt, c)
        case Some(x) =>
          assert Arity(NotEqual) == 1;
          Some("WHERE NOT (" + Gsub(NotPairAt, NotEqual, Strip(x), 0) + ")")
        case None => None
  }

  function JoinPart(c: string): Option<string> {
    match Capture(JoinsAt, c)
    case Some(x) => Some("JOIN " + x)
    case None =>
      match Capture(IncludesAt, c)
      case Some(x) => Some("LEFT JOIN " + x)
      case None => None
  }

  function OrderPart(c: string): Option<string> {
    match Capture(OrderQuotedAt, c)
    case Some(x) => Some("ORDER BY " + x)
    case None =>
      match Capture(OrderParenAt, c)
      case Some(x) =>
        assert Arity(Spaced) == 2;
        Some("ORDER BY " + Gsub(OrderDirAt, Spaced, Strip(x), 0))
      case None => None
  }

  function LimitPart(c: string): Option<string> {
    match Capture(LimitAt, c)
    case Some(x) => Some("LIMIT " + x)
    case None => None
  }

  /** The parts found in a stripped body, in the order they are looked for. */
  function SqlParts(c: string): seq<string> {
    Optional(WherePart(c)) + Optional(JoinPart(c)) + Optional(OrderPart(c)) + Optional(LimitPart(c))
  }

  /** What is said of a body with no recognised part. */
  function Fallback(c: string): string {
    match Capture(ScopeRefAt, c)
    case Some(x) => "(uses " + x + " scope)"
    case None => if |c| > 60 then c[..61] + "..." else c
  }

  /** `extract_sql_from_scope_body`. */
  function ExtractSql(body: string): string {
    var c := Strip(body);
    var parts := SqlParts(c);
    if parts != [] then Join(parts, " ") else Fallback(c)
  }

  // ---------------------------------------------------------------------
  // Models and the rendered section
  // ---------------------------------------------------------------------

  function ScopeLine(m: ScopeMatch): string {
    "  \U{2022} `" + m.0 + "` \U{2192} SQL: `" + ExtractSql(m.1) + "`"
  }

  function ScopeLines(ms: seq<ScopeMatch>): (r: seq<string>)
    ensures |r| == |ms|
    decreases |ms|
  {
    if ms == [] then [] else ScopeLines(ms[..|ms| - 1]) + [ScopeLine(ms[|ms| - 1])]
  }

  /** A file is listed when it is not a concern and defines a scope. */
  predicate Listed(f: ModelFile) {
    !Contains(f.path, "/concerns/") && ScopeMatches(f.content) != []
  }

  function InfoOf(f: ModelFile): ModelInfo {
    ModelInfo(f.name, f.table, ScopeLines(ScopeMatches(f.content)))
  }

  /** What one file adds to the list of models. */
  function ModelEntry(f: ModelFile): seq<ModelInfo> {
    if Listed(f) then [InfoOf(f)] else []
  }

  /** The models listed, in the order of the files. */
  function ModelsOf(files: seq<ModelFile>): seq<ModelInfo> {
    FlatMap(files, ModelEntry)
  }

  /** The loop that renders one line per scope definition. */
  method RenderScopes(matches: seq<ScopeMatch>) returns (scopes: seq<string>)
    ensures scopes == ScopeLines(matches)
  {
    scopes := [];
    var k := 0;
    while k < |matches|
      invariant 0 <= k <= |matches|
      invariant scopes == ScopeLines(matches[..k])
    {
      ScopeLinesSnoc(matches, k);
      scopes := scopes + [ScopeLine(matches[k])];
      k := k + 1;
    }
    assert matches[..k] == matches;
  }

  /** One more scope adds its line at the end. */
  lemma ScopeLinesSnoc(ms: seq<ScopeMatch>, k: nat)
    requires k < |ms|
    ensures ScopeLines(ms[..k + 1]) == ScopeLines(ms[..k]) + [ScopeLine(ms[k])]
  {
    assert ms[..k + 1][..k] == ms[..k];
  }

  /** The body of the file loop of `collect_models_with_scopes`. */
  method CollectModel(f: ModelFile) returns (entry: seq<ModelInfo>)
    ensures entry == ModelEntry(f)
  {
    entry := [];
    if !Contains(f.path, "/concerns/") {
      DefinitionsSound(f.content);
      var matches := CollectScopeMatches(f.content, Definitions);
      if matches != [] {
        var scopes := RenderScopes(matches);
        if scopes != [] {
          entry := [ModelInfo(f.name, f.table, scopes)];
        }
      }
    }
  }

  /** `collect_models_with_scopes`. */
  method CollectModelsWithScopes(files: seq<ModelFile>) returns (models: seq<ModelInfo>)
    ensures models == ModelsOf(files)
  {
    models := [];
    var i := 0;
    while i < |files|
      invariant 0 <= i <= |files|
      invariant models == ModelsOf(files[..i])
    {
      ModelsOfStep(files, i);
      var entry := CollectModel(files[i]);
      models := models + entry;
      i := i + 1;
    }
    assert files[..i] == files;
  }

  function ModelBlock(m: ModelInfo): seq<string> {
    ["\n### " + m.name + " (table: `" + m.table + "`)", "Scopes and their SQL equivalents:"] + m.scopes
  }

  /** The blocks of the models, model after model. */
  function Blocks(models: seq<ModelInfo>): seq<string> {
    FlatMap(models, ModelBlock)
  }

  /** The scopes section. */
  function Render(files: seq<ModelFile>): string {
    Join(Header + Blocks(ModelsOf(files)), "\n")
  }

  /** The formatting loop of `build_context`: the header, then each
      model's heading, its caption and its scope lines. */
  method SectionLines(models: seq<ModelInfo>) returns (parts: seq<string>)
    ensures parts == Header + Blocks(models)
  {
    parts := Header;
    var i := 0;
    while i < |models|
      invariant 0 <= i <= |models|
      invariant parts == Header + Blocks(models[..i])
    {
      var m := models[i];
      assert models[..i + 1] == models[..i] + [m];
      BlocksSnoc(models[..i], m);
      var before := parts + ["\n### " + m.name + " (table: `" + m.table + "`)", "Scopes and their SQL equivalents:"];
      parts := before;
      var k := 0;
      while k < |m.scopes|
        invariant 0 <= k <= |m.scopes|
        invariant parts == before + m.scopes[..k]
      {
        assert m.scopes[..k + 1] == m.scopes[..k] + [m.scopes[k]];
        parts := parts + [m.scopes[k]];
        k := k + 1;
      }
      assert m.scopes[..k] == m.scopes;
      i := i + 1;
    }
    assert models[..i] == models;
  }

  /** `build_context`. */
  method BuildContext(files: seq<ModelFile>) returns (r: string)
    ensures r == Render(files)
  {
    var models := CollectModelsWithScopes(files);
    var parts := SectionLines(models);
    r := Join(parts, "\n");
  }

  // ---------------------------------------------------------------------
  // Properties of the collection
  // ---------------------------------------------------------------------

  /** The collection only ever appends. */
  lemma {:induction false} DedupIntoExtends(acc: seq<ScopeMatch>, ms: seq<ScopeMatch>)
    ensures acc <= DedupInto(acc, ms)
    decreases |ms|
  {
    if ms != [] {
      DedupIntoExtends(Add(acc, ms[0]), ms[1..]);
    }
  }

  /** No two collected definitions share a name. */
  lemma {:induction false} DedupIntoDistinct(acc: seq<ScopeMatch>, ms: seq<ScopeMatch>)
    requires DistinctNames(acc)
    ensures DistinctNames(DedupInto(acc, ms))
    decreases |ms|
  {
    if ms != [] {
      var next := Add(acc, ms[0]);
      assert DistinctNames(next) by {
        if !HasName(acc, ms[0].0) {
          forall k, l | 0 <= k < l < |next|
            ensures next[k].0 != next[l].0
          {
            if l == |acc| {
              assert next[k] == acc[k];
            }
          }
        }
      }
      DedupIntoDistinct(next, ms[1..]);
    }
  }

  /** A name is collected exactly when it was there already or some match
      has it. */
  lemma {:induction false} DedupIntoNames(acc: seq<ScopeMatch>, ms: seq<ScopeMatch>, name: string)
    ensures HasName(DedupInto(acc, ms), name) <==> HasName(acc, name) || HasName(ms, name)
    decreases |ms|
  {
    if ms != [] {
      var next := Add(acc, ms[0]);
      assert HasName(next, name) <==> HasName(acc, name) || ms[0].0 == name by {
        if !HasName(acc, ms[0].0) {
          assert next[|acc|] == ms[0];
          if HasName(next, name) {
            var k :| 0 <= k < |next| && next[k].0 == name;
            if k < |acc| {
              assert acc[k] == next[k];
            }
          }
          if HasName(acc, name) {
            var k :| 0 <= k < |acc| && acc[k].0 == name;
            assert next[k] == acc[k];
          }
        }
      }
      DedupIntoNames(next, ms[1..], name);
      assert HasName(ms, name) <==> ms[0].0 == name || HasName(ms[1..], name) by {
        if HasName(ms, name) && ms[0].0 != name {
          var k :| 0 <= k < |ms| && ms[k].0 == name;
          assert ms[1..][k - 1] == ms[k];
        }
        if HasName(ms[1..], name) {
          var k :| 0 <= k < |ms[1..]| && ms[1..][k].0 == name;
          assert ms[k + 1] == ms[1..][k];
        }
      }
    }
  }

  /** The first match of a name not already collected is the one kept. */
  lemma {:induction false} DedupIntoFirst(acc: seq<ScopeMatch>, ms: seq<ScopeMatch>, j: nat)
    requires j < |ms| && !HasName(acc, ms[j].0)
    requires forall q :: 0 <= q < j ==> ms[q].0 != ms[j].0
    ensures ms[j] in DedupInto(acc, ms)
    decreases |ms|
  {
    var next := Add(acc, ms[0]);
    if j == 0 {
      assert next == acc + [ms[0]];
      DedupIntoExtends(next, ms[1..]);
      assert next[|acc|] == ms[0];
    } else {
      forall k | 0 <= k < |next|
        ensures next[k].0 != ms[j].0
      {
        if k < |acc| {
          assert next[k] == acc[k];
        }
      }
      assert ms[1..][j - 1] == ms[j];
      DedupIntoFirst(next, ms[1..], j - 1);
    }
  }

  /** The scope definitions of a file have distinct names, every name that
      any pattern finds is among them, and for each name the definition kept
      is the first one found, trying the patterns in order and each
      pattern's matches in order. */
  lemma ScopeMatchesFirstWins(content: string)
    ensures DistinctNames(ScopeMatches(content))
    ensures forall name :: HasName(ScopeMatches(content), name) <==> HasName(Occurrences(content, Definitions), name)
    ensures var occ := Occurrences(content, Definitions);
      forall j :: 0 <= j < |occ| && (forall q :: 0 <= q < j ==> occ[q].0 != occ[j].0) ==> occ[j] in ScopeMatches(content)
  {
    DefinitionsSound(content);
    var occ := Occurrences(content, Definitions);
    DedupIntoDistinct([], occ);
    forall name
      ensures HasName(ScopeMatches(content), name) <==> HasName(occ, name)
    {
      DedupIntoNames([], occ, name);
    }
    forall j | 0 <= j < |occ| && (forall q :: 0 <= q < j ==> occ[q].0 != occ[j].0)
      ensures occ[j] in ScopeMatches(content)
    {
      DedupIntoFirst([], occ, j);
    }
  }

  // ---------------------------------------------------------------------
  // Properties of the models and the section
  // ---------------------------------------------------------------------

  /** Listing the models of two lists of files lists those of the first,
      then those of the second. */
  lemma ModelsOfConcat(a: seq<ModelFile>, b: seq<ModelFile>)
    ensures ModelsOf(a + b) == ModelsOf(a) + ModelsOf(b)
  {
    FlatMapConcat(a, b, ModelEntry);
  }

  /** One more file adds its own entry. */
  lemma ModelsOfStep(files: seq<ModelFile>, i: nat)
    requires i < |files|
    ensures ModelsOf(files[..i + 1]) == ModelsOf(files[..i]) + ModelEntry(files[i])
  {
    assert files[..i + 1] == files[..i] + [files[i]];
    FlatMapConcat(files[..i], [files[i]], ModelEntry);
    FlatMapSingle(files[i], ModelEntry);
  }

  /** A file under a concerns directory adds nothing. */
  lemma ConcernSkipped(f: ModelFile, files: seq<ModelFile>)
    requires Contains(f.path, "/concerns/")
    ensures ModelsOf([f] + files) == ModelsOf(files)
  {
    FlatMapConcat([f], files, ModelEntry);
    FlatMapSingle(f, ModelEntry);
  }

  /** The blocks of two model lists are those of the first, then those of
      the second. */
  lemma BlocksConcat(a: seq<ModelInfo>, b: seq<ModelInfo>)
    ensures Blocks(a + b) == Blocks(a) + Blocks(b)
  {
    FlatMapConcat(a, b, ModelBlock);
  }

  /** One more model adds its block at the end. */
  lemma BlocksSnoc(ms: seq<ModelInfo>, m: ModelInfo)
    ensures Blocks(ms + [m]) == Blocks(ms) + ModelBlock(m)
  {
    FlatMapConcat(ms, [m], ModelBlock);
    FlatMapSingle(m, ModelBlock);
  }

  /** The section always starts with the four header lines, so it is never
      empty; with no listed model it is exactly those. */
  lemma RenderStartsWithHeader(files: seq<ModelFile>)
    ensures Join(Header, "\n") <= Render(files)
    ensures ModelsOf(files) == [] ==> Render(files) == Join(Header, "\n")
    ensures |Render(files)| > 0
  {
    var blocks := Blocks(ModelsOf(files));
    if blocks == [] {
      assert Header + blocks == Header;
    } else {
      JoinConcat(Header, blocks, "\n");
    }
  }

  // ---------------------------------------------------------------------
  // Properties of the SQL hint
  // ---------------------------------------------------------------------

  /** The kind of a hint part, by its leading keyword. */
  function Rank(part: string): nat {
    if "WHERE " <= part then 0
    else if "JOIN " <= part || "LEFT JOIN " <= part then 1
    else if "ORDER BY " <= part then 2
    else if "LIMIT " <= part then 3
    else 4
  }

  lemma RankOf(x: string)
    ensures Rank("WHERE " + x) == 0 && Rank("WHERE NOT (" + x) == 0
    ensures Rank("JOIN " + x) == 1 && Rank("LEFT JOIN " + x) == 1
    ensures Rank("ORDER BY " + x) == 2
    ensures Rank("LIMIT " + x) == 3
  {
    assert ("JOIN " + x)[0] == 'J';
    assert ("LEFT JOIN " + x)[0] == 'L' && ("LEFT JOIN " + x)[..10] == "LEFT JOIN ";
    assert ("ORDER BY " + x)[0] == 'O';
    assert ("LIMIT " + x)[0] == 'L' && ("LIMIT " + x)[1] == 'I';
  }

  /** Each lookup's part has that lookup's rank. */
  lemma WherePartRank(c: string)
    ensures WherePart(c).Some? ==> Rank(WherePart(c).value) == 0
  {
    if WherePart(c).Some? {
      var w := WherePart(c).value;
      if "WHERE NOT (" <= w {
        RankOf(w[11..]);
        assert w == "WHERE NOT (" + w[11..];
      } else {
        RankOf(w[6..]);
        assert w == "WHERE " + w[6..];
      }
    }
  }

  lemma JoinPartRank(c: string)
    ensures JoinPart(c).Some? ==> Rank(JoinPart(c).value) == 1
  {
    match Capture(JoinsAt, c) {
      case Some(x) => RankOf(x);
      case None =>
        match Capture(IncludesAt, c) {
          case Some(x) => RankOf(x);
          case None =>
        }
    }
  }

  lemma OrderPartRank(c: string)
    ensures OrderPart(c).Some? ==> Rank(OrderPart(c).value) == 2
  {
    if OrderPart(c).Some? {
      var o := OrderPart(c).value;
      RankOf(o[9..]);
      assert o == "ORDER BY " + o[9..];
    }
  }

  lemma LimitPartRank(c: string)
    ensures LimitPart(c).Some? ==> Rank(LimitPart(c).value) == 3
  {
    match Capture(LimitAt, c) {
      case Some(x) => RankOf(x);
      case None =>
    }
  }

  /** The ranks of `ps` strictly increase. */
  predicate Increasing(ps: seq<string>) {
    forall k, m :: 0 <= k < m < |ps| ==> Rank(ps[k]) < Rank(ps[m])
  }

  /** Every part of `ps` has a rank below `n`. */
  predicate Below(ps: seq<string>, n: nat) {
    forall k :: 0 <= k < |ps| ==> Rank(ps[k]) < n
  }

  /** Appending an optional part of rank `n` to parts of lower, increasing
      ranks keeps the ranks increasing. */
  lemma AppendRanked(ps: seq<string>, o: Option<string>, n: nat)
    requires Increasing(ps) && Below(ps, n) && |ps| <= n
    requires o.Some? ==> Rank(o.value) == n
    ensures var q := ps + Optional(o); Increasing(q) && Below(q, n + 1) && |q| <= n + 1
  {
    var q := ps + Optional(o);
    if o.Some? {
      assert q[|ps|] == o.value;
      forall k | 0 <= k < |ps|
        ensures q[k] == ps[k]
      {
      }
    } else {
      assert q == ps;
    }
  }

  /** Four optional parts of ranks 0 to 3, in that order, have
      increasing ranks. */
  lemma RankedParts(w: Option<string>, j: Option<string>, o: Option<string>, l: Option<string>)
    requires w.Some? ==> Rank(w.value) == 0
    requires j.Some? ==> Rank(j.value) == 1
    requires o.Some? ==> Rank(o.value) == 2
    requires l.Some? ==> Rank(l.value) == 3
    ensures var q := Optional(w) + Optional(j) + Optional(o) + Optional(l);
      |q| <= 4 && Below(q, 4) && Increasing(q)
  {
    AppendRanked([], w, 0);
    assert [] + Optional(w) == Optional(w);
    AppendRanked(Optional(w), j, 1);
    var wj := Optional(w) + Optional(j);
    AppendRanked(wj, o, 2);
    AppendRanked(wj + Optional(o), l, 3);
  }

  /** The hint parts come in the order WHERE, JOIN or LEFT JOIN, ORDER BY,
      LIMIT, with at most one of each. */
  lemma SqlPartsOrdered(c: string)
    ensures |SqlParts(c)| <= 4 && Below(SqlParts(c), 4) && Increasing(SqlParts(c))
  {
    WherePartRank(c);
    JoinPartRank(c);
    OrderPartRank(c);
    LimitPartRank(c);
    RankedParts(WherePart(c), JoinPart(c), OrderPart(c), LimitPart(c));
  }

  /** A WHERE part is produced when one of the three `where` forms occurs
      in the stripped body, and none is produced when none occurs. */
  lemma WherePartFound(c: string)
    ensures WherePart(c).Some? ==>
      exists k :: 0 <= k < |c| && (WhereQuotedAt(c, k).Some? || WhereParenAt(c, k).Some? || WhereNotAt(c, k).Some?)
    ensures WherePart(c).None? ==>
      forall k :: 0 <= k < |c| ==> WhereQuotedAt(c, k).None? && WhereParenAt(c, k).None? && WhereNotAt(c, k).None?
  {
    if WherePart(c).None? {
      forall k | 0 <= k < |c|
        ensures WhereQuotedAt(c, k).None? && WhereParenAt(c, k).None? && WhereNotAt(c, k).None?
      {
        FindSkips(WhereQuotedAt, c, 0, k);
        FindSkips(WhereParenAt, c, 0, k);
        FindSkips(WhereNotAt, c, 0, k);
      }
    }
  }

  /** With no part found, the hint names a referenced scope when the body
      has a line that is a single word, and otherwise is the body itself
      when it is at most 60 characters long, or its first 61 characters and
      an ellipsis. */
  lemma FallbackShape(body: string)
    requires SqlParts(Strip(body)) == []
    ensures var c := Strip(body);
      match Capture(ScopeRefAt, c)
      case Some(x) =>
        ExtractSql(body) == "(uses " + x + " scope)" && x != [] && AllChars(x, IsWordChar)
      case None =>
        (|c| <= 60 ==> ExtractSql(body) == c)
        && (|c| > 60 ==> |ExtractSql(body)| == 64 && c[..61] <= ExtractSql(body))
  {
  }
}
