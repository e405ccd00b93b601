/** The regular expressions of the report pipeline, each matched by a
    hand-written scanner, and Ruby's leftmost search (`=~`, `match`) and
    global substitution (`gsub`) over them.

    Every pattern here is deterministic: its repeated parts are character
    classes that cannot also match the character that follows them, so the
    greedy run a scanner takes is the only run a backtracking engine could
    end with.  Where a pattern has a lazy or optional part whose choice
    matters, the scanner tries the alternatives in the engine's order.
    `\s`, `\w` and `\d` are Ruby's ASCII classes, `^` and `$` are Ruby's
    line anchors, and `.` does not match a line feed unless the pattern has
    the `m` flag. */
module Patterns {
  import opened Wrappers
  import opened Text

  /** A match at some position: the position after it and its capture
      groups, in order. */
  datatype Hit = Hit(end: nat, groups: seq<string>)

  // ---------------------------------------------------------------------
  // Character classes and runs
  // ---------------------------------------------------------------------

  predicate IsQuote(c: char) {
    c == '"' || c == '\''
  }

  predicate NotQuote(c: char) {
    !IsQuote(c)
  }

  predicate NotDoubleQuote(c: char) {
    c != '"'
  }

  predicate NotCloseParen(c: char) {
    c != ')'
  }

  /** The end of the longest run from `i` of characters satisfying `p`. */
  function RunEnd(s: string, i: nat, p: char -> bool): (j: nat)
    requires i <= |s|
    ensures i <= j <= |s|
    ensures forall k :: i <= k < j ==> p(s[k])
    ensures j == |s| || !p(s[j])
    decreases |s| - i
  {
    if i < |s| && p(s[i]) then RunEnd(s, i + 1, p) else i
  }

  function SpaceEnd(s: string, i: nat): (j: nat)
    requires i <= |s|
    ensures i <= j <= |s|
  {
    RunEnd(s, i, IsRubySpace)
  }

  function WordEnd(s: string, i: nat): (j: nat)
    requires i <= |s|
    ensures i <= j <= |s|
  {
    RunEnd(s, i, IsWordChar)
  }

  /** `p` at `i`, ignoring the case of ASCII letters in `s` (`p` is lower
      case). */
  predicate PrefixAtIgnoringCase(s: string, i: int, p: string) {
    0 <= i && i + |p| <= |s| && Lower(s[i..i + |p|]) == p
  }

  /** The start of a line: the start of the text or just after a line feed. */
  predicate LineStart(s: string, i: nat)
    requires i <= |s|
  {
    i == 0 || s[i - 1] == '\n'
  }

  /** The end of a line: the end of the text or just before a line feed. */
  predicate LineEnd(s: string, i: nat)
    requires i <= |s|
  {
    i == |s| || s[i] == '\n'
  }

  // ---------------------------------------------------------------------
  // The quoted value of a JSON-like key (lib/sage/report_processor.rb)
  // ---------------------------------------------------------------------

  /** Text made of characters other than a double quote and a backslash,
      and of backslash pairs: a backslash followed by any character.  A
      double quote in such text is always the second half of a pair. */
  predicate EscapedText(t: string)
    decreases |t|
  {
    t == []
    || (t[0] != '"' && t[0] != '\\' && EscapedText(t[1..]))
    || (|t| >= 2 && t[0] == '\\' && EscapedText(t[2..]))
  }

  /** The end of the longest escaped text from `i`. */
  function EscapedEnd(s: string, i: nat): (j: nat)
    requires i <= |s|
    ensures i <= j <= |s|
    ensures j == |s| || s[j] == '"' || (s[j] == '\\' && j + 1 == |s|)
    ensures EscapedText(s[i..j])
    decreases |s| - i
  {
    if i >= |s| || s[i] == '"' then i
    else if s[i] == '\\' then
      if i + 1 < |s| then
        var j := EscapedEnd(s, i + 2);
        assert s[i..j][2..] == s[i + 2..j];
        j
      else i
    else
      var j := EscapedEnd(s, i + 1);
      assert s[i..j][1..] == s[i + 1..j];
      j
  }

  /** The key in double quotes, optional spaces, a colon, optional spaces,
      and a double-quoted escaped text, which is the capture; `.` matches
      a line feed here (report_processor.rb:97 and :101). */
  function KeyValueAt(s: string, i: nat, key: string): (r: Option<Hit>)
    requires i <= |s|
    ensures r.Some? ==> i < r.value.end <= |s| && |r.value.groups| == 1
    ensures r.Some? ==>
      PrefixAt(s, i, "\"" + key + "\"") && s[r.value.end - 1] == '"'
      && EscapedText(r.value.groups[0])
  {
    if !PrefixAt(s, i, "\"" + key + "\"") then None
    else
      var a := SpaceEnd(s, i + |key| + 2);
      if a >= |s| || s[a] != ':' then None
      else
        var b := SpaceEnd(s, a + 1);
        if b >= |s| || s[b] != '"' then None
        else
          var e := EscapedEnd(s, b + 1);
          if e >= |s| || s[e] != '"' then None
          else Some(Hit(e + 1, [s[b + 1..e]]))
  }

  /** A double quote, any characters but a double quote, and a double
      quote (report_processor.rb:82); the capture is what lies between. */
  function QuotedSpanAt(s: string, i: nat): (r: Option<Hit>)
    requires i <= |s|
    ensures r.Some? ==> i < r.value.end <= |s| && |r.value.groups| == 1
    ensures r.Some? <==> i < |s| && s[i] == '"' && RunEnd(s, i + 1, NotDoubleQuote) < |s|
    ensures r.Some? ==>
      var e := r.value.end - 1;
      i < e && s[i] == '"' && s[e] == '"' && r.value.groups == [s[i + 1..e]]
      && (forall k :: i < k < e ==> s[k] != '"')
  {
    if i < |s| && s[i] == '"' then
      var e := RunEnd(s, i + 1, NotDoubleQuote);
      if e < |s| then Some(Hit(e + 1, [s[i + 1..e]])) else None
    else None
  }

  // ---------------------------------------------------------------------
  // Calls in a scope body (lib/sage/model_scopes_context.rb)
  // ---------------------------------------------------------------------

  /** `name`, optional spaces and an opening parenthesis at `i`: the
      position after the parenthesis. */
  function CallOpen(s: string, i: nat, name: string): (r: Option<nat>)
    requires i <= |s|
    ensures r.Some? ==> i + |name| < r.value <= |s| && s[r.value - 1] == '('
    ensures r.Some? ==> PrefixAt(s, i, name)
  {
    if !PrefixAt(s, i, name) then None
    else
      var k := SpaceEnd(s, i + |name|);
      if k < |s| && s[k] == '(' then Some(k + 1) else None
  }

  /** The first closing parenthesis from `k` on, provided no line feed
      comes before it. */
  function CloseOnLine(s: string, k: nat): (r: Option<nat>)
    requires k <= |s|
    ensures r.Some? ==> k <= r.value < |s| && s[r.value] == ')'
    ensures r.Some? ==> forall m :: k <= m < r.value ==> s[m] != '\n' && s[m] != ')'
    decreases |s| - k
  {
    if k >= |s| || s[k] == '\n' then None
    else if s[k] == ')' then Some(k)
    else CloseOnLine(s, k + 1)
  }

  /** The lazy group `(.+?)` followed by a closing parenthesis, started at
      the latest position in `lo..t` from which it can succeed (the spaces
      before it are matched greedily): the position of that parenthesis. */
  function LazyArgument(s: string, lo: nat, t: nat): (r: Option<nat>)
    requires lo <= t <= |s|
    ensures r.Some? ==> lo < r.value < |s| && s[r.value] == ')'
    decreases t
  {
    var here := if t < |s| && s[t] != '\n' then CloseOnLine(s, t + 1) else None;
    if here.Some? then here
    else if t > lo then LazyArgument(s, lo, t - 1)
    else None
  }

  /** What may follow the quoted first argument of `where(...)`: either a
      closing parenthesis, or a comma, optional spaces, at least one
      character of the same line and a closing parenthesis.  The result is
      the position after the parenthesis. */
  function ArgumentsClose(s: string, c: nat): (r: Option<nat>)
    requires c <= |s|
    ensures r.Some? ==> c < r.value <= |s| && s[r.value - 1] == ')'
  {
    if c < |s| && s[c] == ',' then
      match LazyArgument(s, c + 1, SpaceEnd(s, c + 1))
      case Some(p) => Some(p + 1)
      case None => None
    else if c < |s| && s[c] == ')' then Some(c + 1)
    else None
  }

  /** `where`, optional spaces, `(`, a quote, one or more characters that
      are not quotes (the capture) and a quote, then optionally a comma and
      further arguments on the same line, then `)`
      (model_scopes_context.rb:132). */
  function WhereQuotedAt(s: string, i: nat): (r: Option<Hit>)
    requires i <= |s|
    ensures r.Some? ==> i < r.value.end <= |s| && |r.value.groups| == 1
    ensures r.Some? ==> r.value.groups[0] != [] && forall k :: 0 <= k < |r.value.groups[0]| ==> NotQuote(r.value.groups[0][k])
  {
    match CallOpen(s, i, "where")
    case None => None
    case Some(o) =>
      if o < |s| && IsQuote(s[o]) then
        var q := RunEnd(s, o + 1, NotQuote);
        if q > o + 1 && q < |s| then
          match ArgumentsClose(s, q + 1)
          case Some(e) => Some(Hit(e, [s[o + 1..q]]))
          case None => None
        else None
      else None
  }

  /** `name`, optional spaces, `(`, one or more characters other than `)`
      (the capture) and `)`. */
  function ParenArgumentAt(s: string, i: nat, name: string): (r: Option<Hit>)
    requires i <= |s|
    ensures r.Some? ==> i < r.value.end <= |s| && |r.value.groups| == 1
    ensures r.Some? ==>
      r.value.groups[0] != [] && s[r.value.end - 1] == ')'
      && forall k :: 0 <= k < |r.value.groups[0]| ==> r.value.groups[0][k] != ')'
  {
    match CallOpen(s, i, name)
    case None => None
    case Some(o) =>
      var q := RunEnd(s, o, NotCloseParen);
      if q > o && q < |s| then Some(Hit(q + 1, [s[o..q]])) else None
  }

  /** `stem`, an optional `s`, optional spaces, `(`, an optional colon, a
      word (the capture) and `)` (model_scopes_context.rb:151 and :153). */
  function SymbolCallAt(s: string, i: nat, stem: string): (r: Option<Hit>)
    requires i <= |s|
    ensures r.Some? ==> i < r.value.end <= |s| && |r.value.groups| == 1
    ensures r.Some? ==> r.value.groups[0] != [] && AllChars(r.value.groups[0], IsWordChar)
  {
    if !PrefixAt(s, i, stem) then None
    else
      var n := i + |stem|;
      var n2 := if n < |s| && s[n] == 's' then n + 1 else n;
      var k := SpaceEnd(s, n2);
      if k < |s| && s[k] == '(' then
        var o := if k + 1 < |s| && s[k + 1] == ':' then k + 2 else k + 1;
        var w := WordEnd(s, o);
        if w > o && w < |s| && s[w] == ')' then Some(Hit(w + 1, [s[o..w]])) else None
      else None
  }

  /** `order`, optional spaces, `(`, a quote, one or more characters that
      are not quotes (the capture), a quote and `)`
      (model_scopes_context.rb:158). */
  function OrderQuotedAt(s: string, i: nat): (r: Option<Hit>)
    requires i <= |s|
    ensures r.Some? ==> i < r.value.end <= |s| && |r.value.groups| == 1
    ensures r.Some? ==> r.value.groups[0] != [] && forall k :: 0 <= k < |r.value.groups[0]| ==> NotQuote(r.value.groups[0][k])
  {
    match CallOpen(s, i, "order")
    case None => None
    case Some(o) =>
      if o < |s| && IsQuote(s[o]) then
        var q := RunEnd(s, o + 1, NotQuote);
        if q > o + 1 && q + 1 < |s| && s[q + 1] == ')' then Some(Hit(q + 2, [s[o + 1..q]])) else None
      else None
  }

  /** `limit`, optional spaces, `(`, one or more digits (the capture) and
      `)` (model_scopes_context.rb:167). */
  function LimitAt(s: string, i: nat): (r: Option<Hit>)
    requires i <= |s|
    ensures r.Some? ==> i < r.value.end <= |s| && |r.value.groups| == 1
    ensures r.Some? ==> r.value.groups[0] != [] && AllChars(r.value.groups[0], IsDigit)
  {
    match CallOpen(s, i, "limit")
    case None => None
    case Some(o) =>
      var d := RunEnd(s, o, IsDigit);
      if d > o && d < |s| && s[d] == ')' then Some(Hit(d + 1, [s[o..d]])) else None
  }

  /** A whole line made of word characters (model_scopes_context.rb:176). */
  function ScopeRefAt(s: string, i: nat): (r: Option<Hit>)
    requires i <= |s|
    ensures r.Some? ==> i < r.value.end <= |s| && |r.value.groups| == 1
    ensures r.Some? ==>
      LineStart(s, i) && LineEnd(s, r.value.end) && r.value.groups == [s[i..r.value.end]]
      && AllChars(r.value.groups[0], IsWordChar)
  {
    if LineStart(s, i) then
      var w := WordEnd(s, i);
      if w > i && LineEnd(s, w) then Some(Hit(w, [s[i..w]])) else None
    else None
  }

  // ---------------------------------------------------------------------
  // Rewrites of hash-style arguments (lib/sage/model_scopes_context.rb)
  // ---------------------------------------------------------------------

  /** A word followed by a colon at `i`: the position of the colon.  The
      word is the longest one from `i`, because a shorter one would be
      followed by a word character rather than the colon. */
  function WordColon(s: string, i: nat): (r: Option<nat>)
    requires i <= |s|
    ensures r.Some? ==> i < r.value < |s| && s[r.value] == ':' && AllChars(s[i..r.value], IsWordChar)
  {
    if i < |s| && IsWordChar(s[i]) then
      var j := WordEnd(s, i);
      if j < |s| && s[j] == ':' then Some(j) else None
    else None
  }

  /** A word, a colon, optional spaces and a word (model_scopes_context.rb:139). */
  function HashPairAt(s: string, i: nat): (r: Option<Hit>)
    requires i <= |s|
    ensures r.Some? ==> i < r.value.end <= |s| && |r.value.groups| == 2
  {
    match WordColon(s, i)
    case None => None
    case Some(j) =>
      var k := SpaceEnd(s, j + 1);
      var m := WordEnd(s, k);
      if m > k then Some(Hit(m, [s[i..j], s[k..m]])) else None
  }

  /** A word, a colon, optional spaces, a quote, one or more characters that
      are not quotes and a quote (model_scopes_context.rb:140). */
  function HashQuotedAt(s: string, i: nat): (r: Option<Hit>)
    requires i <= |s|
    ensures r.Some? ==> i < r.value.end <= |s| && |r.value.groups| == 2
  {
    match WordColon(s, i)
    case None => None
    case Some(j) =>
      var k := SpaceEnd(s, j + 1);
      if k < |s| && IsQuote(s[k]) then
        var q := RunEnd(s, k + 1, NotQuote);
        if q > k + 1 && q < |s| then Some(Hit(q + 1, [s[i..j], s[k + 1..q]])) else None
      else None
  }

  /** A word, a colon, optional spaces and `true`, `false` or `nil`, tried
      in that order (model_scopes_context.rb:141). */
  function HashLiteralAt(s: string, i: nat): (r: Option<Hit>)
    requires i <= |s|
    ensures r.Some? ==> i < r.value.end <= |s| && |r.value.groups| == 2
    ensures r.Some? ==> r.value.groups[1] in {"true", "false", "nil"}
  {
    match WordColon(s, i)
    case None => None
    case Some(j) =>
      var k := SpaceEnd(s, j + 1);
      if PrefixAt(s, k, "true") then Some(Hit(k + 4, [s[i..j], "true"]))
      else if PrefixAt(s, k, "false") then Some(Hit(k + 5, [s[i..j], "false"]))
      else if PrefixAt(s, k, "nil") then Some(Hit(k + 3, [s[i..j], "nil"]))
      else None
  }

  /** A word, a colon and the spaces after it (model_scopes_context.rb:146). */
  function NotPairAt(s: string, i: nat): (r: Option<Hit>)
    requires i <= |s|
    ensures r.Some? ==> i < r.value.end <= |s| && |r.value.groups| == 1
  {
    match WordColon(s, i)
    case None => None
    case Some(j) => Some(Hit(SpaceEnd(s, j + 1), [s[i..j]]))
  }

  /** A word, a colon, optional spaces, an optional colon and `asc` or
      `desc` in any case of its letters, tried in that order
      (model_scopes_context.rb:162). */
  function OrderDirAt(s: string, i: nat): (r: Option<Hit>)
    requires i <= |s|
    ensures r.Some? ==> i < r.value.end <= |s| && |r.value.groups| == 2
    ensures r.Some? ==> Lower(r.value.groups[1]) in {"asc", "desc"}
  {
    match WordColon(s, i)
    case None => None
    case Some(j) =>
      var k := SpaceEnd(s, j + 1);
      var d := if k < |s| && s[k] == ':' then k + 1 else k;
      if PrefixAtIgnoringCase(s, d, "asc") then Some(Hit(d + 3, [s[i..j], s[d..d + 3]]))
      else if PrefixAtIgnoringCase(s, d, "desc") then Some(Hit(d + 4, [s[i..j], s[d..d + 4]]))
      else None
  }

  // ---------------------------------------------------------------------
  // The select list of generated SQL (app/jobs/sage/process_report_job.rb)
  // ---------------------------------------------------------------------

  /** The first line feed from `i` on, or the end of the text. */
  function LineEndFrom(s: string, i: nat): (e: nat)
    requires i <= |s|
    ensures i <= e <= |s| && LineEnd(s, e)
    ensures forall k :: i <= k < e ==> s[k] != '\n'
    decreases |s| - i
  {
    if i >= |s| || s[i] == '\n' then i else LineEndFrom(s, i + 1)
  }

  /** The last occurrence of `p` that starts at or after `lo` and ends at or
      before `hi`. */
  function LastAt(s: string, lo: nat, hi: nat, p: string): (r: Option<nat>)
    requires hi <= |s|
    ensures r.Some? ==> lo <= r.value && r.value + |p| <= hi && PrefixAt(s, r.value, p)
    ensures r.Some? ==> forall q :: r.value < q && q + |p| <= hi ==> !PrefixAt(s, q, p)
    ensures r.None? ==> forall q :: lo <= q && q + |p| <= hi ==> !PrefixAt(s, q, p)
    decreases hi
  {
    if hi < lo + |p| then None
    else if PrefixAt(s, hi - |p|, p) then Some(hi - |p|)
    else LastAt(s, lo, hi - 1, p)
  }

  /** At the start of a line, `SELECT `, then the rest of the line up to its
      last ` FROM` (the greedy `.*`), that ` FROM` included
      (process_report_job.rb:169). */
  function SelectFromAt(s: string, i: nat): (r: Option<Hit>)
    requires i <= |s|
    ensures r.Some? ==> i < r.value.end <= |s| && |r.value.groups| == 0
    ensures r.Some? ==> LineStart(s, i) && PrefixAt(s, i, "SELECT ") && PrefixAt(s, r.value.end - 5, " FROM")
  {
    if LineStart(s, i) && PrefixAt(s, i, "SELECT ") then
      match LastAt(s, i + 7, LineEndFrom(s, i + 7), " FROM")
      case Some(p) => Some(Hit(p + 5, []))
      case None => None
    else None
  }

  // ---------------------------------------------------------------------
  // Scope definitions in a model file (lib/sage/model_scopes_context.rb)
  // ---------------------------------------------------------------------

  /** `scope`, one or more spaces, a colon, a word, optional spaces, a comma
      at `i`: the bounds of the word and the position after the comma. */
  function ScopeHead(s: string, i: nat): (r: Option<(nat, nat, nat)>)
    requires i <= |s|
    ensures r.Some? ==>
      var (a, b, c) := r.value;
      i + 6 < a < b < c <= |s| && s[c - 1] == ',' && AllChars(s[a..b], IsWordChar)
  {
    if !PrefixAt(s, i, "scope") then None
    else
      var k := SpaceEnd(s, i + 5);
      if k == i + 5 || k >= |s| || s[k] != ':' then None
      else
        var w := WordEnd(s, k + 1);
        if w == k + 1 then None
        else
          var m := SpaceEnd(s, w);
          if m < |s| && s[m] == ',' then Some((k + 1, w, m + 1)) else None
  }

  /** The body `[^{}]*(?:\{[^{}]*\}[^{}]*)*` from `k` followed by `}`: the
      position of that closing brace.  The body holds braces only in
      non-nested pairs. */
  function BraceBody(s: string, k: nat): (r: Option<nat>)
    requires k <= |s|
    ensures r.Some? ==> k <= r.value < |s| && s[r.value] == '}'
    decreases |s| - k
  {
    var p := RunEnd(s, k, c => c != '{' && c != '}');
    if p >= |s| then None
    else if s[p] == '}' then Some(p)
    else
      var q := RunEnd(s, p + 1, c => c != '{' && c != '}');
      if q < |s| && s[q] == '}' then BraceBody(s, q + 1) else None
  }

  /** A `{`, a brace body and a `}` at `k`: the bounds of the body. */
  function Block(s: string, k: nat): (r: Option<(nat, nat)>)
    requires k <= |s|
    ensures r.Some? ==> k < r.value.0 <= r.value.1 < |s| && s[r.value.1] == '}'
  {
    if k < |s| && s[k] == '{' then
      match BraceBody(s, k + 1)
      case Some(e) => Some((k + 1, e))
      case None => None
    else None
  }

  /** The latest position in `lo..t` that is not a line feed: where the
      lazy `(.+?)$` of the one-line pattern starts once the greedy spaces
      before it have given back what they must. */
  function LineStartBack(s: string, lo: nat, t: nat): (r: Option<nat>)
    requires lo <= t <= |s|
    ensures r.Some? ==> lo <= r.value <= t && r.value < |s| && s[r.value] != '\n'
    ensures r.Some? ==> forall q :: r.value < q <= t && q < |s| ==> s[q] == '\n'
    ensures r.None? ==> forall q :: lo <= q <= t && q < |s| ==> s[q] == '\n'
    decreases t
  {
    if t < |s| && s[t] != '\n' then Some(t)
    else if t > lo then LineStartBack(s, lo, t - 1)
    else None
  }

  /** After the arrow of a lambda: an optional `(...)` parameter list at
      `m` and the spaces after it, or nothing when there is no list. */
  function ParametersEnd(s: string, m: nat): (n: nat)
    requires m <= |s|
    ensures m <= n <= |s|
  {
    if m < |s| && s[m] == '(' then
      var q := RunEnd(s, m + 1, NotCloseParen);
      if q < |s| then SpaceEnd(s, q + 1) else m
    else m
  }

  /** `scope :name, ->`, optional spaces, an optional `(...)`, optional
      spaces and a block (model_scopes_context.rb:67). */
  function ArrowScopeAt(s: string, i: nat): (r: Option<Hit>)
    requires i <= |s|
    ensures r.Some? ==> i < r.value.end <= |s| && |r.value.groups| == 2
    ensures r.Some? ==> AllChars(r.value.groups[0], IsWordChar)
  {
    match ScopeHead(s, i)
    case None => None
    case Some((a, b, c)) =>
      var k := SpaceEnd(s, c);
      if !PrefixAt(s, k, "->") then None
      else
        match Block(s, ParametersEnd(s, SpaceEnd(s, k + 2)))
        case Some((x, y)) => Some(Hit(y + 1, [s[a..b], s[x..y]]))
        case None => None
  }

  /** `scope :name, lambda`, optional spaces and a block
      (model_scopes_context.rb:69). */
  function LambdaScopeAt(s: string, i: nat): (r: Option<Hit>)
    requires i <= |s|
    ensures r.Some? ==> i < r.value.end <= |s| && |r.value.groups| == 2
    ensures r.Some? ==> AllChars(r.value.groups[0], IsWordChar)
  {
    match ScopeHead(s, i)
    case None => None
    case Some((a, b, c)) =>
      var k := SpaceEnd(s, c);
      if !PrefixAt(s, k, "lambda") then None
      else
        match Block(s, SpaceEnd(s, k + 6))
        case Some((x, y)) => Some(Hit(y + 1, [s[a..b], s[x..y]]))
        case None => None
  }

  /** `scope :name,`, optional spaces and the rest of the line, started as
      late in the spaces as the lazy `(.+?)$` needs
      (model_scopes_context.rb:71). */
  function LineScopeAt(s: string, i: nat): (r: Option<Hit>)
    requires i <= |s|
    ensures r.Some? ==> i < r.value.end <= |s| && |r.value.groups| == 2
    ensures r.Some? ==> AllChars(r.value.groups[0], IsWordChar) && r.value.groups[1] != []
  {
    match ScopeHead(s, i)
    case None => None
    case Some((a, b, c)) =>
      var k := SpaceEnd(s, c);
      match LineStartBack(s, c, k)
      case Some(t) =>
        var e := LineEndFrom(s, t);
        Some(Hit(e, [s[a..b], s[t..e]]))
      case None => None
  }

  // ---------------------------------------------------------------------
  // Named instances of the parameterized scanners
  // ---------------------------------------------------------------------

  /** `"sql"` and its quoted value (report_processor.rb:97). */
  function SqlValueAt(s: string, i: nat): (r: Option<Hit>)
    requires i <= |s|
    ensures r.Some? ==> i < r.value.end <= |s| && |r.value.groups| == 1 && EscapedText(r.value.groups[0])
  {
    KeyValueAt(s, i, "sql")
  }

  /** `"summary"` and its quoted value (report_processor.rb:101). */
  function SummaryValueAt(s: string, i: nat): (r: Option<Hit>)
    requires i <= |s|
    ensures r.Some? ==> i < r.value.end <= |s| && |r.value.groups| == 1 && EscapedText(r.value.groups[0])
  {
    KeyValueAt(s, i, "summary")
  }

  /** `where(...)` with a hash argument (model_scopes_context.rb:135). */
  function WhereParenAt(s: string, i: nat): (r: Option<Hit>)
    requires i <= |s|
    ensures r.Some? ==> i < r.value.end <= |s| && |r.value.groups| == 1 && r.value.groups[0] != []
  {
    ParenArgumentAt(s, i, "where")
  }

  /** `where.not(...)` (model_scopes_context.rb:143). */
  function WhereNotAt(s: string, i: nat): (r: Option<Hit>)
    requires i <= |s|
    ensures r.Some? ==> i < r.value.end <= |s| && |r.value.groups| == 1 && r.value.groups[0] != []
  {
    ParenArgumentAt(s, i, "where.not")
  }

  /** `order(...)` with a hash argument (model_scopes_context.rb:160). */
  function OrderParenAt(s: string, i: nat): (r: Option<Hit>)
    requires i <= |s|
    ensures r.Some? ==> i < r.value.end <= |s| && |r.value.groups| == 1 && r.value.groups[0] != []
  {
    ParenArgumentAt(s, i, "order")
  }

  /** `join(...)` or `joins(...)` (model_scopes_context.rb:151). */
  function JoinsAt(s: string, i: nat): (r: Option<Hit>)
    requires i <= |s|
    ensures r.Some? ==> i < r.value.end <= |s| && |r.value.groups| == 1 && r.value.groups[0] != []
  {
    SymbolCallAt(s, i, "join")
  }

  /** `include(...)` or `includes(...)` (model_scopes_context.rb:153). */
  function IncludesAt(s: string, i: nat): (r: Option<Hit>)
    requires i <= |s|
    ensures r.Some? ==> i < r.value.end <= |s| && |r.value.groups| == 1 && r.value.groups[0] != []
  {
    SymbolCallAt(s, i, "include")
  }

  // ---------------------------------------------------------------------
  // Searching and substituting
  // ---------------------------------------------------------------------

  /** A scanner: the match of one pattern that starts exactly at a position. */
  type Scanner = (string, nat) --> Option<Hit>

  /** `m` can be tried at every position of `s`, and each match it finds
      there ends within `s` and has `n` capture groups. */
  ghost predicate Sound(m: Scanner, s: string, n: nat) {
    forall k :: 0 <= k <= |s| ==>
      m.requires(s, k) && (m(s, k).Some? ==> k < m(s, k).value.end <= |s| && |m(s, k).value.groups| == n)
  }

  /** Ruby's leftmost search from `i`: the first position with a match, and
      that match.  `FindSkips` states that no earlier position matches. */
  function Find(m: Scanner, s: string, i: nat): (r: Option<(nat, Hit)>)
    requires i <= |s| && forall k :: i <= k <= |s| ==> m.requires(s, k)
    ensures r.Some? ==> i <= r.value.0 < |s| && m(s, r.value.0) == Some(r.value.1)
    decreases |s| - i
  {
    if i >= |s| then None
    else
      match m(s, i)
      case Some(h) => Some((i, h))
      case None => Find(m, s, i + 1)
  }

  /** The first capture of the leftmost match (`$1` after `=~`, `m[1]`). */
  function Capture(m: Scanner, s: string): (r: Option<string>)
    requires Sound(m, s, 1)
  {
    match Find(m, s, 0)
    case Some((_, h)) => Some(h.groups[0])
    case None => None
  }

  /** Ruby's `scan` with a two-group pattern: the groups of each successive
      match, the search going on after each match. */
  function Scan(m: Scanner, s: string, i: nat): (r: seq<seq<string>>)
    requires i <= |s| && Sound(m, s, 2)
    ensures forall k :: 0 <= k < |r| ==> |r[k]| == 2
    decreases |s| - i
  {
    if i >= |s| then []
    else
      match m(s, i)
      case Some(h) => [h.groups] + Scan(m, s, h.end)
      case None => Scan(m, s, i + 1)
  }

  /** No position before the one found, and no position at all when nothing
      is found, has a match: the search is leftmost.  (No pattern here
      matches the empty text, so the end of the text is never a match.) */
  lemma {:induction false} FindSkips(m: Scanner, s: string, i: nat, k: nat)
    requires i <= k < |s| && forall j :: i <= j <= |s| ==> m.requires(s, j)
    requires Find(m, s, i).None? || k < Find(m, s, i).value.0
    ensures m(s, k).None?
    decreases k - i
  {
    if k > i {
      FindSkips(m, s, i + 1, k);
    }
  }

  /** The three successive substitutions of the repair block
      (report_processor.rb:84), one character at a time: a line feed, a
      tab and a carriage return each become a backslash and a letter. */
  function EscapeControl(c: char): (r: string)
    ensures c == '\n' ==> r == "\\n"
    ensures c == '\t' ==> r == "\\t"
    ensures c == '\r' ==> r == "\\r"
    ensures c != '\n' && c != '\t' && c != '\r' ==> r == [c]
  {
    if c == '\n' then "\\n" else if c == '\t' then "\\t" else if c == '\r' then "\\r" else [c]
  }

  function EscapeControls(t: string): (r: string)
    decreases |t|
  {
    if t == [] then [] else EscapeControl(t[0]) + EscapeControls(t[1..])
  }

  /** `t.gsub(c, rep)` for a single character `c`. */
  function ReplaceChar(t: string, c: char, rep: string): (r: string)
    decreases |t|
  {
    if t == [] then [] else (if t[0] == c then rep else [t[0]]) + ReplaceChar(t[1..], c, rep)
  }

  /** The replacements `gsub` is given: the escaped match (the repair
      block), `\1 = \2`, `\1 = "\2"`, `\1 != `, `\1 \2` and `SELECT * FROM`. */
  datatype Rewrite = Escaped | Assign | AssignQuoted | NotEqual | Spaced | SelectStar

  /** How many groups the pattern of a replacement has. */
  function Arity(rw: Rewrite): nat {
    match rw
    case Escaped => 1
    case NotEqual => 1
    case SelectStar => 0
    case _ => 2
  }

  /** What `gsub` puts in place of a match that starts at `i`. */
  function Replacement(rw: Rewrite, s: string, i: nat, h: Hit): string
    requires i <= h.end <= |s| && |h.groups| == Arity(rw)
  {
    match rw
    case Escaped => EscapeControls(s[i..h.end])
    case Assign => h.groups[0] + " = " + h.groups[1]
    case AssignQuoted => h.groups[0] + " = \"" + h.groups[1] + "\""
    case NotEqual => h.groups[0] + " != "
    case Spaced => h.groups[0] + " " + h.groups[1]
    case SelectStar => "SELECT * FROM"
  }

  /** Ruby's `gsub` from position `i`: each leftmost match is replaced and
      the search goes on after it. */
  function Gsub(m: Scanner, rw: Rewrite, s: string, i: nat): (r: string)
    requires i <= |s| && Sound(m, s, Arity(rw))
    decreases |s| - i
  {
    if i >= |s| then []
    else
      match m(s, i)
      case Some(h) => Replacement(rw, s, i, h) + Gsub(m, rw, s, h.end)
      case None => [s[i]] + Gsub(m, rw, s, i + 1)
  }


  // ---------------------------------------------------------------------
  // Lemmas
  // ---------------------------------------------------------------------

  /** Where the pattern matches nowhere, `gsub` leaves the text as it is. */
  lemma {:induction false} GsubNoMatch(m: Scanner, rw: Rewrite, s: string, i: nat)
    requires i <= |s| && Sound(m, s, Arity(rw))
    requires forall k :: i <= k < |s| ==> m(s, k).None?
    ensures Gsub(m, rw, s, i) == s[i..]
    decreases |s| - i
  {
    if i < |s| {
      GsubNoMatch(m, rw, s, i + 1);
      assert s[i..] == [s[i]] + s[i + 1..];
    }
  }

  /** The three successive substitutions of the repair block. */
  function ThreePasses(t: string): string {
    ReplaceChar(ReplaceChar(ReplaceChar(t, '\n', "\\n"), '\t', "\\t"), '\r', "\\r")
  }

  lemma {:induction false} ReplaceCharConcat(a: string, b: string, c: char, rep: string)
    ensures ReplaceChar(a + b, c, rep) == ReplaceChar(a, c, rep) + ReplaceChar(b, c, rep)
    decreases |a|
  {
    if a == [] {
      assert a + b == b;
    } else {
      assert (a + b)[0] == a[0];
      assert (a + b)[1..] == a[1..] + b;
      ReplaceCharConcat(a[1..], b, c, rep);
    }
  }

  lemma ThreePassesConcat(a: string, b: string)
    ensures ThreePasses(a + b) == ThreePasses(a) + ThreePasses(b)
  {
    ReplaceCharConcat(a, b, '\n', "\\n");
    var a1, b1 := ReplaceChar(a, '\n', "\\n"), ReplaceChar(b, '\n', "\\n");
    ReplaceCharConcat(a1, b1, '\t', "\\t");
    ReplaceCharConcat(ReplaceChar(a1, '\t', "\\t"), ReplaceChar(b1, '\t', "\\t"), '\r', "\\r");
  }

  /** Neither pass touches text without its character. */
  lemma {:induction false} ReplaceCharAbsent(t: string, c: char, rep: string)
    requires forall k :: 0 <= k < |t| ==> t[k] != c
    ensures ReplaceChar(t, c, rep) == t
    decreases |t|
  {
    if t != [] {
      ReplaceCharAbsent(t[1..], c, rep);
    }
  }

  lemma ReplaceCharSingle(c: char, d: char, rep: string)
    ensures ReplaceChar([c], d, rep) == if c == d then rep else [c]
  {
    assert [c][1..] == [];
    assert ReplaceChar([], d, rep) == [];
  }

  lemma ThreePassesChar(c: char)
    ensures ThreePasses([c]) == EscapeControl(c)
  {
    ReplaceCharSingle(c, '\n', "\\n");
    var r1 := ReplaceChar([c], '\n', "\\n");
    if c == '\n' {
      ReplaceCharAbsent(r1, '\t', "\\t");
      ReplaceCharAbsent(r1, '\r', "\\r");
    } else if c == '\t' {
      ReplaceCharSingle(c, '\t', "\\t");
      ReplaceCharAbsent("\\t", '\r', "\\r");
    } else {
      ReplaceCharSingle(c, '\t', "\\t");
      ReplaceCharSingle(c, '\r', "\\r");
    }
  }

  /** The three successive substitutions are the one-pass escape, because
      no inserted text contains a character a later pass replaces. */
  lemma {:induction false} EscapeControlsIsThreePasses(t: string)
    ensures ThreePasses(t) == EscapeControls(t)
    decreases |t|
  {
    if t != [] {
      assert t == [t[0]] + t[1..];
      ThreePassesConcat([t[0]], t[1..]);
      ThreePassesChar(t[0]);
      EscapeControlsIsThreePasses(t[1..]);
    }
  }
}
