/** JSON texts as the report pipeline reads them with Ruby's `JSON.parse`
    (RFC 8259, sections 2 to 7, with the parser's default nesting limit of
    100), and an encoder for flat objects whose values are strings, `null`
    or booleans, with a proof that parsing undoes it. */
module Json {
  import opened Wrappers
  import opened Text

  /** A JSON value.  A number is kept as its lexeme. */
  datatype Value =
    | Null
    | Bool(b: bool)
    | Num(lexeme: string)
    | Str(s: string)
    | Arr(items: seq<Value>)
    | Obj(members: map<string, Value>)

  /** The `max_nesting` default of Ruby's parser. */
  const MaxNesting := 100

  /** A parsed object, as a Ruby `Hash` from keys to values. */
  type Object = map<string, Value>

  /** Ruby's `Hash#[]`: a missing key reads as nil. */
  function Get(obj: Object, key: string): (v: Value)
    ensures key in obj ==> v == obj[key]
    ensures key !in obj ==> v == Null
  {
    if key in obj then obj[key] else Null
  }

  // ---------------------------------------------------------------------
  // Lexical pieces
  // ---------------------------------------------------------------------

  /** A position inside a window; it only names the instances of `At` a
      proof asks for. */
  predicate Offset(k: int) {
    true
  }

  /** `p` occurs in `s` at `i`, stated one character at a time. */
  predicate At(s: string, i: int, p: string) {
    0 <= i && i + |p| <= |s| && forall k {:trigger Offset(k)} :: 0 <= k < |p| ==> s[i + k] == p[k]
  }

  /** The insignificant whitespace of RFC 8259, section 2. */
  predicate IsJsonWs(c: char) {
    c == ' ' || c == '\t' || c == '\n' || c == '\r'
  }

  function SkipWs(s: string, i: nat): (j: nat)
    requires i <= |s|
    ensures i <= j <= |s|
    ensures j == |s| || !IsJsonWs(s[j])
    decreases |s| - i
  {
    if i < |s| && IsJsonWs(s[i]) then SkipWs(s, i + 1) else i
  }

  function DigitsEnd(s: string, i: nat): (j: nat)
    requires i <= |s|
    ensures i <= j <= |s|
    ensures j == |s| || !IsDigit(s[j])
    decreases |s| - i
  {
    if i < |s| && IsDigit(s[i]) then DigitsEnd(s, i + 1) else i
  }

  function HexVal(c: char): (r: Option<nat>)
    ensures r.Some? ==> r.value < 16
  {
    if '0' <= c <= '9' then Some(c as int - '0' as int)
    else if 'a' <= c <= 'f' then Some(c as int - 'a' as int + 10)
    else if 'A' <= c <= 'F' then Some(c as int - 'A' as int + 10)
    else None
  }

  /** Four hexadecimal digits at `i`, as a number. */
  function Hex4(s: string, i: nat): (r: Option<nat>)
    requires i + 4 <= |s|
    ensures r.Some? ==> r.value < 0x10000
  {
    match (HexVal(s[i]), HexVal(s[i + 1]), HexVal(s[i + 2]), HexVal(s[i + 3]))
    case (Some(a), Some(b), Some(c), Some(d)) => Some(((a * 16 + b) * 16 + c) * 16 + d)
    case _ => None
  }

  /** The code point a UTF-16 surrogate pair stands for. */
  function SurrogatePair(hi: nat, lo: nat): (r: nat)
    requires 0xD800 <= hi <= 0xDBFF && 0xDC00 <= lo <= 0xDFFF
    ensures 0x10000 <= r <= 0x10FFFF
    ensures (r - 0x10000) / 0x400 == hi - 0xD800 && (r - 0x10000) % 0x400 == lo - 0xDC00
  {
    0x10000 + (hi - 0xD800) * 0x400 + (lo - 0xDC00)
  }

  /** The escape sequence that starts with the backslash at `i`
      (RFC 8259, section 7): the character it stands for and the position
      after it.  A `\u` escape of a high surrogate followed by a `\u` escape
      of a low surrogate is one character beyond U+FFFF; a surrogate code
      unit on its own is refused. */
  function Unescape(s: string, i: nat): (r: Option<(char, nat)>)
    requires i < |s| && s[i] == '\\'
    ensures r.Some? ==> i + 2 <= r.value.1 <= |s|
  {
    if i + 1 >= |s| then None
    else
      var e := s[i + 1];
      if e == '"' then Some(('"', i + 2))
      else if e == '\\' then Some(('\\', i + 2))
      else if e == '/' then Some(('/', i + 2))
      else if e == 'b' then Some(('\U{8}', i + 2))
      else if e == 'f' then Some(('\U{C}', i + 2))
      else if e == 'n' then Some(('\n', i + 2))
      else if e == 'r' then Some(('\r', i + 2))
      else if e == 't' then Some(('\t', i + 2))
      else if e == 'u' && i + 6 <= |s| then
        match Hex4(s, i + 2)
        case Some(n) =>
          if 0xD800 <= n <= 0xDBFF then
            if i + 12 <= |s| && s[i + 6] == '\\' && s[i + 7] == 'u' then
              match Hex4(s, i + 8)
              case Some(m) =>
                if 0xDC00 <= m <= 0xDFFF then Some((SurrogatePair(n, m) as char, i + 12)) else None
              case None => None
            else None
          else if 0xDC00 <= n <= 0xDFFF then None
          else Some((n as char, i + 6))
        case None => None
      else None
  }

  /** One character of a string body at `i`, raw or escaped: the character
      and the position after it.  A raw control character is refused
      (RFC 8259, section 7). */
  function NextChar(s: string, i: nat): (r: Option<(char, nat)>)
    requires i < |s|
    ensures r.Some? ==> i < r.value.1 <= |s|
  {
    if s[i] < ' ' then None
    else if s[i] == '\\' then Unescape(s, i)
    else Some((s[i], i + 1))
  }

  /** The characters of a string after its opening quote at `i - 1`: the
      decoded text and the position after the closing quote.  No raw
      character of a successfully parsed string is below U+0020. */
  function ParseChars(s: string, i: nat): (r: Option<(string, nat)>)
    requires i <= |s|
    ensures r.Some? ==> i < r.value.1 <= |s| && s[r.value.1 - 1] == '"'
    decreases |s| - i
  {
    if i == |s| then None
    else if s[i] == '"' then Some(("", i + 1))
    else
      match NextChar(s, i)
      case None => None
      case Some((c, j)) =>
        (match ParseChars(s, j)
         case None => None
         case Some((t, k)) => Some(([c] + t, k)))
  }

  /** The end of a number (RFC 8259, section 6) that starts at `i`. */
  function ScanNumber(s: string, i: nat): (r: Option<nat>)
    requires i <= |s|
    ensures r.Some? ==> i < r.value <= |s|
  {
    var j0 := if i < |s| && s[i] == '-' then i + 1 else i;
    if j0 >= |s| || !IsDigit(s[j0]) then None
    else
      var j1 := if s[j0] == '0' then j0 + 1 else DigitsEnd(s, j0 + 1);
      var fracOk := !(j1 < |s| && s[j1] == '.') || DigitsEnd(s, j1 + 1) > j1 + 1;
      if !fracOk then None
      else
        var j2 := if j1 < |s| && s[j1] == '.' then DigitsEnd(s, j1 + 1) else j1;
        if j2 < |s| && (s[j2] == 'e' || s[j2] == 'E') then
          var k := if j2 + 1 < |s| && (s[j2 + 1] == '+' || s[j2 + 1] == '-') then j2 + 2 else j2 + 1;
          var d := DigitsEnd(s, k);
          if d > k then Some(d) else None
        else Some(j2)
  }

  // ---------------------------------------------------------------------
  // Values, objects and arrays
  // ---------------------------------------------------------------------

  /** A value at `i`, inside `depth` enclosing arrays and objects: the value
      and the position after it.  `ParseValue`, `ParseObject`,
      `ParseMembers`, `ParseMember`, `ParseArray` and `ParseElements` are
      one mutually recursive group; the second component of each
      `decreases` orders the calls made at the same position. */
  function ParseValue(s: string, i: nat, depth: nat): (r: Option<(Value, nat)>)
    requires i <= |s|
    ensures r.Some? ==> i < r.value.1 <= |s|
    ensures r.Some? ==> (r.value.0.Obj? <==> s[i] == '{') && (r.value.0.Arr? <==> s[i] == '[')
    ensures r.Some? ==> (r.value.0.Str? <==> s[i] == '"') && (r.value.0.Str? ==> s[r.value.1 - 1] == '"')
    ensures r.Some? && r.value.0.Null? ==> At(s, i, "null") && r.value.1 == i + 4
    ensures r.Some? && r.value.0 == Bool(true) ==> At(s, i, "true") && r.value.1 == i + 4
    ensures r.Some? && r.value.0 == Bool(false) ==> At(s, i, "false") && r.value.1 == i + 5
    ensures r.Some? && r.value.0.Num? ==> ScanNumber(s, i) == Some(r.value.1) && r.value.0.lexeme == s[i..r.value.1]
    decreases |s| - i, 2
  {
    if i >= |s| then None
    else if s[i] == '{' then ParseObject(s, i, depth)
    else if s[i] == '[' then ParseArray(s, i, depth)
    else if s[i] == '"' then
      match ParseChars(s, i + 1)
      case None => None
      case Some((t, k)) => Some((Str(t), k))
    else if At(s, i, "null") then Some((Null, i + 4))
    else if At(s, i, "true") then Some((Bool(true), i + 4))
    else if At(s, i, "false") then Some((Bool(false), i + 5))
    else
      match ScanNumber(s, i)
      case None => None
      case Some(k) => Some((Num(s[i..k]), k))
  }

  /** An object whose opening brace is at `i`.  Opening it must not take
      the nesting past `MaxNesting`. */
  function ParseObject(s: string, i: nat, depth: nat): (r: Option<(Value, nat)>)
    requires i < |s| && s[i] == '{'
    ensures r.Some? ==> i < r.value.1 <= |s| && r.value.0.Obj?
    decreases |s| - i, 1
  {
    if depth + 1 > MaxNesting then None
    else
      var j := SkipWs(s, i + 1);
      if j < |s| && s[j] == '}' then Some((Obj(map[]), j + 1))
      else
        match ParseMembers(s, j, map[], depth + 1)
        case None => None
        case Some((m, k)) => Some((Obj(m), k))
  }

  /** The members of an object from the key at `i` to the closing brace,
      added to `acc`.  A later duplicate key replaces an earlier one, as in
      Ruby's parser. */
  function ParseMembers(s: string, i: nat, acc: Object, depth: nat): (r: Option<(Object, nat)>)
    requires i <= |s|
    ensures r.Some? ==> i < r.value.1 <= |s|
    decreases |s| - i, 1
  {
    match ParseMember(s, i, depth)
    case None => None
    case Some((key, v, k)) =>
      var k1 := SkipWs(s, k);
      if k1 >= |s| then None
      else if s[k1] == '}' then Some((acc[key := v], k1 + 1))
      else if s[k1] == ',' then ParseMembers(s, SkipWs(s, k1 + 1), acc[key := v], depth)
      else None
  }

  /** One member `"key" : value` at `i`: the key, the value and the
      position after the value. */
  function ParseMember(s: string, i: nat, depth: nat): (r: Option<(string, Value, nat)>)
    requires i <= |s|
    ensures r.Some? ==> i < r.value.2 <= |s|
    decreases |s| - i, 0
  {
    if i >= |s| || s[i] != '"' then None
    else
      match ParseChars(s, i + 1)
      case None => None
      case Some((key, j)) =>
        var j1 := SkipWs(s, j);
        if j1 >= |s| || s[j1] != ':' then None
        else
          match ParseValue(s, SkipWs(s, j1 + 1), depth)
          case None => None
          case Some((v, k)) => Some((key, v, k))
  }

  /** An array whose opening bracket is at `i`. */
  function ParseArray(s: string, i: nat, depth: nat): (r: Option<(Value, nat)>)
    requires i < |s| && s[i] == '['
    ensures r.Some? ==> i < r.value.1 <= |s| && r.value.0.Arr?
    decreases |s| - i, 1
  {
    if depth + 1 > MaxNesting then None
    else
      var j := SkipWs(s, i + 1);
      if j < |s| && s[j] == ']' then Some((Arr([]), j + 1))
      else
        match ParseElements(s, j, [], depth + 1)
        case None => None
        case Some((items, k)) => Some((Arr(items), k))
  }

  /** The elements of an array from the one at `i` to the closing bracket,
      appended to `acc`. */
  function ParseElements(s: string, i: nat, acc: seq<Value>, depth: nat): (r: Option<(seq<Value>, nat)>)
    requires i <= |s|
    ensures r.Some? ==> i < r.value.1 <= |s|
    decreases |s| - i, 3
  {
    match ParseValue(s, i, depth)
    case None => None
    case Some((v, k)) =>
      var k1 := SkipWs(s, k);
      if k1 >= |s| then None
      else if s[k1] == ']' then Some((acc + [v], k1 + 1))
      else if s[k1] == ',' then ParseElements(s, SkipWs(s, k1 + 1), acc + [v], depth)
      else None
  }

  /** Ruby's `JSON.parse` with its default options: one value, optionally
      surrounded by whitespace, and nothing else.  `None` stands for the
      `JSON::ParserError` it raises otherwise. */
  function Parse(text: string): (r: Option<Value>)
  {
    match ParseValue(text, SkipWs(text, 0), 0)
    case None => None
    case Some((v, k)) => if SkipWs(text, k) == |text| then Some(v) else None
  }

  // ---------------------------------------------------------------------
  // The encoder
  // ---------------------------------------------------------------------

  function HexDigit(n: nat): (c: char)
    requires n < 16
    ensures HexVal(c) == Some(n)
  {
    if n < 10 then ('0' as int + n) as char else ('a' as int + n - 10) as char
  }

  /** How `c` is written inside a JSON string. */
  function EscapeChar(c: char): (r: string)
    ensures r != []
  {
    if c == '"' then "\\\""
    else if c == '\\' then "\\\\"
    else if c == '\n' then "\\n"
    else if c == '\r' then "\\r"
    else if c == '\t' then "\\t"
    else if c == '\U{8}' then "\\b"
    else if c == '\U{C}' then "\\f"
    else if c < ' ' then "\\u00" + [HexDigit(c as int / 16), HexDigit(c as int % 16)]
    else [c]
  }

  function EscapeString(s: string): (r: string)
  {
    if s == [] then "" else EscapeChar(s[0]) + EscapeString(s[1..])
  }

  function EncodeString(s: string): string {
    "\"" + EscapeString(s) + "\""
  }

  /** The values the encoder writes: strings, `null` and booleans. */
  predicate Plain(v: Value) {
    v.Null? || v.Bool? || v.Str?
  }

  predicate AllPlain(pairs: seq<(string, Value)>) {
    forall k :: 0 <= k < |pairs| ==> Plain(pairs[k].1)
  }

  function EncodeValue(v: Value): string
    requires Plain(v)
  {
    match v
    case Null => "null"
    case Bool(b) => if b then "true" else "false"
    case Str(t) => EncodeString(t)
  }

  function EncodeMember(p: (string, Value)): string
    requires Plain(p.1)
  {
    EncodeString(p.0) + ": " + EncodeValue(p.1)
  }

  /** The members from the first key to the closing brace. */
  function EncodeMembers(pairs: seq<(string, Value)>): string
    requires pairs != [] && AllPlain(pairs)
  {
    if |pairs| == 1 then EncodeMember(pairs[0]) + "}"
    else EncodeMember(pairs[0]) + ", " + EncodeMembers(pairs[1..])
  }

  /** An object written as `{"k1": v1, "k2": v2}`. */
  function Encode(pairs: seq<(string, Value)>): string
    requires AllPlain(pairs)
  {
    if pairs == [] then "{}" else "{" + EncodeMembers(pairs)
  }

  /** The object the pairs denote, a later key replacing an earlier one. */
  function ToMapFrom(acc: Object, pairs: seq<(string, Value)>): Object
    decreases |pairs|
  {
    if pairs == [] then acc else ToMapFrom(acc[pairs[0].0 := pairs[0].1], pairs[1..])
  }

  function ToMap(pairs: seq<(string, Value)>): Object {
    ToMapFrom(map[], pairs)
  }

  // ---------------------------------------------------------------------
  // Round trip: parsing what the encoder writes gives back the object
  // ---------------------------------------------------------------------

  /** The character of the window at offset `k` is the one at `j`. */
  lemma AtIndex(s: string, i: int, p: string, k: nat, j: int)
    requires At(s, i, p) && k < |p| && j == i + k
    ensures 0 <= j < |s| && s[j] == p[k]
  {
    assert Offset(k);
  }

  /** A window on `a + b` is a window on `a` followed by one on `b`, which
      starts at `j`. */
  lemma AtSplit(s: string, i: int, a: string, b: string, j: int)
    requires At(s, i, a + b) && j == i + |a|
    ensures At(s, i, a) && At(s, j, b)
  {
    forall k | 0 <= k < |a| && Offset(k) ensures s[i + k] == a[k] {
      AtIndex(s, i, a + b, k, i + k);
    }
    forall k | 0 <= k < |b| && Offset(k) ensures s[j + k] == b[k] {
      AtIndex(s, i, a + b, |a| + k, j + k);
    }
  }

  lemma AtOfSlice(s: string, i: int, p: string)
    requires 0 <= i && i + |p| <= |s| && s[i..i + |p|] == p
    ensures At(s, i, p)
  {
    forall k | 0 <= k < |p| && Offset(k) ensures s[i + k] == p[k] {
      assert s[i..i + |p|][k] == p[k];
    }
  }

  lemma AtPrefixAt(s: string, i: int, p: string)
    requires At(s, i, p)
    ensures PrefixAt(s, i, p)
  {
    forall k | 0 <= k < |p| ensures s[i..i + |p|][k] == p[k] {
      AtIndex(s, i, p, k, i + k);
    }
  }

  lemma UnicodeEscapeOf(s: string, i: nat, c: char)
    requires c < ' ' && c != '\n' && c != '\r' && c != '\t' && c != '\U{8}' && c != '\U{C}'
    requires At(s, i, EscapeChar(c))
    ensures NextChar(s, i) == Some((c, i + 6))
  {
    var hi, lo := c as int / 16, c as int % 16;
    var e := EscapeChar(c);
    assert e == "\\u00" + [HexDigit(hi), HexDigit(lo)];
    AtIndex(s, i, e, 0, i);
    AtIndex(s, i, e, 1, i + 1);
    AtIndex(s, i, e, 2, i + 2);
    AtIndex(s, i, e, 3, i + 3);
    AtIndex(s, i, e, 4, i + 4);
    AtIndex(s, i, e, 5, i + 5);
    assert hi == 0 || hi == 1;
    assert Hex4(s, i + 2) == Some(((0 * 16 + 0) * 16 + hi) * 16 + lo);
  }

  /** The encoding of one character reads back as that character. */
  lemma NextCharOfEscaped(s: string, i: nat, c: char)
    requires At(s, i, EscapeChar(c))
    ensures i < |s| && s[i] != '"'
    ensures NextChar(s, i) == Some((c, i + |EscapeChar(c)|))
  {
    var e := EscapeChar(c);
    AtIndex(s, i, e, 0, i);
    if c < ' ' && c != '\n' && c != '\r' && c != '\t' && c != '\U{8}' && c != '\U{C}' {
      UnicodeEscapeOf(s, i, c);
    } else if |e| == 2 {
      AtIndex(s, i, e, 1, i + 1);
    }
  }

  /** The escaped first character of `body` at `i` is one step of
      `ParseChars`. */
  lemma ParseCharsStep(s: string, i: nat, body: string, end: nat)
    requires body != [] && At(s, i, EscapeChar(body[0]))
    requires ParseChars(s, i + |EscapeChar(body[0])|) == Some((body[1..], end))
    ensures ParseChars(s, i) == Some((body, end))
  {
    NextCharOfEscaped(s, i, body[0]);
    assert [body[0]] + body[1..] == body;
  }

  /** The closing quote ends the string. */
  lemma ParseCharsAtQuote(s: string, i: nat)
    requires i < |s| && s[i] == '"'
    ensures ParseChars(s, i) == Some(("", i + 1))
  {
  }

  /** An escaped body followed by a quote reads back as the body. */
  lemma {:induction false} ParseCharsOfEscaped(s: string, i: nat, body: string, end: nat)
    requires At(s, i, EscapeString(body))
    requires end == i + |EscapeString(body)| + 1 && end <= |s| && s[end - 1] == '"'
    ensures ParseChars(s, i) == Some((body, end))
    decreases |body|
  {
    if body == [] {
      ParseCharsAtQuote(s, i);
    } else {
      EscapedHead(s, i, body);
      ParseCharsOfEscaped(s, i + |EscapeChar(body[0])|, body[1..], end);
      ParseCharsStep(s, i, body, end);
    }
  }

  /** The window of an escaped body is the head's escape followed by the
      window of the escaped tail. */
  lemma {:induction false} EscapedHead(s: string, i: nat, body: string)
    requires body != [] && At(s, i, EscapeString(body))
    ensures At(s, i, EscapeChar(body[0]))
    ensures At(s, i + |EscapeChar(body[0])|, EscapeString(body[1..]))
    ensures |EscapeString(body)| == |EscapeChar(body[0])| + |EscapeString(body[1..])|
  {
    var e := EscapeChar(body[0]);
    assert EscapeString(body) == e + EscapeString(body[1..]);
    AtSplit(s, i, e, EscapeString(body[1..]), i + |e|);
  }

  /** An encoded string at `i` parses back, with its quotes, and ends at
      `end`. */
  lemma ParseStringOfEncoded(s: string, i: nat, t: string, end: nat)
    requires At(s, i, EncodeString(t)) && end == i + |EncodeString(t)|
    ensures i < |s| && s[i] == '"'
    ensures ParseChars(s, i + 1) == Some((t, end))
  {
    var es := EscapeString(t);
    AtSplit(s, i, "\"" + es, "\"", end - 1);
    AtSplit(s, i, "\"", es, i + 1);
    AtIndex(s, i, "\"", 0, i);
    AtIndex(s, end - 1, "\"", 0, end - 1);
    ParseCharsOfEscaped(s, i + 1, t, end);
  }

  lemma AllPlainTail(pairs: seq<(string, Value)>)
    requires pairs != [] && AllPlain(pairs)
    ensures AllPlain(pairs[1..]) && Plain(pairs[0].1)
  {
    forall m | 0 <= m < |pairs[1..]| ensures Plain(pairs[1..][m].1) {
      assert pairs[1..][m] == pairs[m + 1];
    }
  }

  /** No window for `p` at `i` when the character at offset `k` differs. */
  lemma NotAt(s: string, i: int, p: string, k: nat, j: int)
    requires k < |p| && j == i + k && (j < 0 || j >= |s| || s[j] != p[k])
    ensures !At(s, i, p)
  {
    assert Offset(k);
  }

  lemma ParseValueOfEncoded(s: string, i: nat, v: Value, end: nat, depth: nat)
    requires Plain(v) && At(s, i, EncodeValue(v)) && end == i + |EncodeValue(v)|
    ensures ParseValue(s, i, depth) == Some((v, end))
  {
    match v
    case Str(t) =>
      ParseStringOfEncoded(s, i, t, end);
    case Null =>
      AtIndex(s, i, "null", 0, i);
    case Bool(b) =>
      if b {
        assert EncodeValue(v) == "true";
        AtIndex(s, i, "true", 0, i);
        NotAt(s, i, "null", 0, i);
      } else {
        assert EncodeValue(v) == "false";
        AtIndex(s, i, "false", 0, i);
        NotAt(s, i, "null", 0, i);
        NotAt(s, i, "true", 0, i);
      }
  }

  /** The first character of an encoded value is not JSON whitespace. */
  lemma EncodedValueStart(s: string, i: nat, v: Value)
    requires Plain(v) && At(s, i, EncodeValue(v))
    ensures i < |s| && !IsJsonWs(s[i])
  {
    AtIndex(s, i, EncodeValue(v), 0, i);
  }

  /** How `ParseMember` reads a key ending at `j`, `: ` and a value. */
  lemma MemberOfParts(s: string, i: nat, key: string, j: nat, v: Value, end: nat, depth: nat)
    requires i < |s| && s[i] == '"' && ParseChars(s, i + 1) == Some((key, j))
    requires j + 2 < |s| && s[j] == ':' && s[j + 1] == ' ' && !IsJsonWs(s[j + 2])
    requires ParseValue(s, j + 2, depth) == Some((v, end))
    ensures ParseMember(s, i, depth) == Some((key, v, end))
  {
    assert SkipWs(s, j) == j;
    assert SkipWs(s, j + 1) == j + 2;
  }

  /** An encoded member is the encoded key, `: ` at `j` and the encoded
      value. */
  lemma MemberWindows(s: string, i: nat, p: (string, Value), j: nat)
    requires Plain(p.1) && At(s, i, EncodeMember(p)) && j == i + |EncodeString(p.0)|
    ensures At(s, i, EncodeString(p.0)) && At(s, j + 2, EncodeValue(p.1))
    ensures j + 2 <= |s| && s[j] == ':' && s[j + 1] == ' '
    ensures i + |EncodeMember(p)| == j + 2 + |EncodeValue(p.1)|
  {
    var ek := EncodeString(p.0);
    AtSplit(s, i, ek + ": ", EncodeValue(p.1), j + 2);
    AtSplit(s, i, ek, ": ", j);
    AtIndex(s, j, ": ", 0, j);
    AtIndex(s, j, ": ", 1, j + 1);
  }

  lemma ParseMemberOfEncoded(s: string, i: nat, p: (string, Value), end: nat, depth: nat)
    requires Plain(p.1) && At(s, i, EncodeMember(p)) && end == i + |EncodeMember(p)|
    ensures ParseMember(s, i, depth) == Some((p.0, p.1, end))
  {
    var j := i + |EncodeString(p.0)|;
    MemberWindows(s, i, p, j);
    ParseStringOfEncoded(s, i, p.0, j);
    EncodedValueStart(s, j + 2, p.1);
    ParseValueOfEncoded(s, j + 2, p.1, end, depth);
    MemberOfParts(s, i, p.0, j, p.1, end, depth);
  }

  /** How `ParseMembers` goes on after a member that ends at `k` and is
      followed by `, ` and the next key. */
  lemma MembersNext(s: string, i: nat, acc: Object, key: string, v: Value, k: nat, depth: nat)
    requires i <= |s| && ParseMember(s, i, depth) == Some((key, v, k))
    requires k + 2 < |s| && s[k] == ',' && s[k + 1] == ' ' && s[k + 2] == '"'
    ensures ParseMembers(s, i, acc, depth) == ParseMembers(s, k + 2, acc[key := v], depth)
  {
    assert SkipWs(s, k) == k;
    assert SkipWs(s, k + 1) == k + 2;
  }

  /** How `ParseMembers` ends after a member that ends at `k` and is
      followed by the closing brace. */
  lemma MembersLast(s: string, i: nat, acc: Object, key: string, v: Value, k: nat, depth: nat)
    requires i <= |s| && ParseMember(s, i, depth) == Some((key, v, k))
    requires k < |s| && s[k] == '}'
    ensures ParseMembers(s, i, acc, depth) == Some((acc[key := v], k + 1))
  {
    assert SkipWs(s, k) == k;
  }

  /** Encoded members start with the quote of the first key. */
  lemma MembersStart(s: string, i: nat, pairs: seq<(string, Value)>)
    requires pairs != [] && AllPlain(pairs) && At(s, i, EncodeMembers(pairs))
    ensures i < |s| && s[i] == '"'
  {
    AtIndex(s, i, EncodeMembers(pairs), 0, i);
  }

  /** An encoded member followed by the closing brace ends `ParseMembers`. */
  lemma MemberLastAt(s: string, i: nat, p: (string, Value), acc: Object, result: Object, end: nat, depth: nat)
    requires Plain(p.1) && At(s, i, EncodeMember(p) + "}")
    requires result == acc[p.0 := p.1] && end == i + |EncodeMember(p)| + 1
    ensures ParseMembers(s, i, acc, depth) == Some((result, end))
  {
    var k := end - 1;
    AtSplit(s, i, EncodeMember(p), "}", k);
    AtIndex(s, k, "}", 0, k);
    ParseMemberOfEncoded(s, i, p, k, depth);
    MembersLast(s, i, acc, p.0, p.1, k, depth);
  }

  /** The last encoded member and the closing brace end `ParseMembers`. */
  lemma MembersLastEncoded(s: string, i: nat, pairs: seq<(string, Value)>, acc: Object,
                            result: Object, end: nat, depth: nat)
    requires |pairs| == 1 && AllPlain(pairs)
    requires At(s, i, EncodeMembers(pairs))
    requires result == ToMapFrom(acc, pairs) && end == i + |EncodeMembers(pairs)|
    ensures ParseMembers(s, i, acc, depth) == Some((result, end))
  {
    var p := pairs[0];
    assert Plain(p.1);
    assert EncodeMembers(pairs) == EncodeMember(p) + "}";
    assert ToMapFrom(acc, pairs) == acc[p.0 := p.1];
    MemberLastAt(s, i, p, acc, result, end, depth);
  }

  /** The first of several encoded members is one step of `ParseMembers`,
      which goes on at `j`. */
  lemma MembersStepEncoded(s: string, i: nat, pairs: seq<(string, Value)>, acc: Object, j: nat, depth: nat)
    requires |pairs| > 1 && AllPlain(pairs)
    requires At(s, i, EncodeMembers(pairs)) && j == i + |EncodeMember(pairs[0])| + 2
    ensures AllPlain(pairs[1..]) && j <= |s| && At(s, j, EncodeMembers(pairs[1..]))
    ensures ParseMembers(s, i, acc, depth) == ParseMembers(s, j, acc[pairs[0].0 := pairs[0].1], depth)
    ensures i + |EncodeMembers(pairs)| == j + |EncodeMembers(pairs[1..])|
  {
    var p := pairs[0];
    var k := j - 2;
    AllPlainTail(pairs);
    AtSplit(s, i, EncodeMember(p) + ", ", EncodeMembers(pairs[1..]), j);
    AtSplit(s, i, EncodeMember(p), ", ", k);
    AtIndex(s, k, ", ", 0, k);
    AtIndex(s, k, ", ", 1, k + 1);
    MembersStart(s, j, pairs[1..]);
    ParseMemberOfEncoded(s, i, p, k, depth);
    MembersNext(s, i, acc, p.0, p.1, k, depth);
  }

  /** Parsing encoded members into `acc` gives `result`, the object the
      pairs denote on top of `acc`, and stops at `end`, after the closing
      brace. */
  lemma {:induction false} ParseMembersOfEncoded(s: string, i: nat, pairs: seq<(string, Value)>, acc: Object,
                                                  result: Object, end: nat, depth: nat)
    requires pairs != [] && AllPlain(pairs)
    requires At(s, i, EncodeMembers(pairs))
    requires result == ToMapFrom(acc, pairs) && end == i + |EncodeMembers(pairs)|
    ensures ParseMembers(s, i, acc, depth) == Some((result, end))
    decreases |pairs|
  {
    if |pairs| == 1 {
      MembersLastEncoded(s, i, pairs, acc, result, end, depth);
    } else {
      var j := i + |EncodeMember(pairs[0])| + 2;
      MembersStepEncoded(s, i, pairs, acc, j, depth);
      ParseMembersOfEncoded(s, j, pairs[1..], acc[pairs[0].0 := pairs[0].1], result, end, depth);
    }
  }

  /** How `Parse` reads an object that starts the text: the members from
      `j` on, one level deep. */
  lemma ParseOfObject(text: string, j: nat, m: Object)
    requires 0 < j <= |text| && text[0] == '{' && SkipWs(text, 1) == j
    requires !(j < |text| && text[j] == '}')
    requires ParseMembers(text, j, map[], 1) == Some((m, |text|))
    ensures Parse(text) == Some(Obj(m))
  {
    assert SkipWs(text, 0) == 0;
    assert ParseObject(text, 0, 0) == Some((Obj(m), |text|));
  }

  /** An escaped UTF-16 surrogate pair reads as the one character beyond
      U+FFFF it encodes: `"\ud83d\ude00"` is U+1F600. */
  lemma SurrogatePairParses()
    ensures Parse("\"\\ud83d\\ude00\"") == Some(Str("\U{1F600}"))
  {
    var text := "\"\\ud83d\\ude00\"";
    assert Hex4(text, 3) == Some(0xD83D);
    assert Hex4(text, 9) == Some(0xDE00);
    assert SurrogatePair(0xD83D, 0xDE00) == 0x1F600;
    assert NextChar(text, 1) == Some(('\U{1F600}', 13));
    assert ParseChars(text, 13) == Some(("", 14));
    assert text[1] == '\\' && 1 < |text|;
    assert ['\U{1F600}'] + "" == "\U{1F600}";
    assert ParseChars(text, 1) == Some(("\U{1F600}", 14));
    assert SkipWs(text, 0) == 0 && SkipWs(text, 14) == 14;
  }

  /** A high surrogate not followed by an escaped low one is refused. */
  lemma LoneSurrogateRefused()
    ensures Parse("\"\\ud83d\"") == None
  {
    var text := "\"\\ud83d\"";
    assert Hex4(text, 3) == Some(0xD83D);
    assert NextChar(text, 1) == None;
    assert SkipWs(text, 0) == 0;
  }

  /** Parsing the encoding of an object whose values are strings, `null` or
      booleans gives back that object. */
  lemma ParseEncode(pairs: seq<(string, Value)>)
    requires AllPlain(pairs)
    ensures Parse(Encode(pairs)) == Some(Obj(ToMap(pairs)))
  {
    var text := Encode(pairs);
    assert SkipWs(text, 0) == 0;
    if pairs == [] {
      assert text[1] == '}';
      assert SkipWs(text, 1) == 1;
      assert ParseObject(text, 0, 0) == Some((Obj(map[]), 2));
    } else {
      var m := EncodeMembers(pairs);
      assert text[1..1 + |m|] == m;
      AtOfSlice(text, 1, m);
      MembersStart(text, 1, pairs);
      assert SkipWs(text, 1) == 1;
      ParseMembersOfEncoded(text, 1, pairs, map[], ToMap(pairs), |text|, 1);
      ParseOfObject(text, 1, ToMap(pairs));
    }
  }
}
