/** Character classes and string helpers shared by the Ruby and JavaScript
    parts of the model.  Strings are sequences of Unicode scalar values; case
    mapping covers ASCII letters only. */
module Text {

  // ---------------------------------------------------------------------
  // Character classes
  // ---------------------------------------------------------------------

  /** Ruby's regular-expression `\s`: space, tab, line feed, vertical tab,
      form feed, carriage return. */
  predicate IsRubySpace(c: char) {
    c == ' ' || c == '\t' || c == '\n' || c == '\U{B}' || c == '\U{C}' || c == '\r'
  }

  /** Ruby's regular-expression `\w` on ASCII: letters, digits and `_`. */
  predicate IsWordChar(c: char) {
    ('a' <= c <= 'z') || ('A' <= c <= 'Z') || ('0' <= c <= '9') || c == '_'
  }

  /** Ruby's regular-expression `\d`. */
  predicate IsDigit(c: char) {
    '0' <= c <= '9'
  }

  /** What Ruby's `String#strip` removes: NUL and the `\s` characters. */
  predicate IsStripSpace(c: char) {
    c == '\0' || IsRubySpace(c)
  }

  /** What ECMAScript's `String.prototype.trim` removes: the WhiteSpace and
      LineTerminator code points. */
  predicate IsJsSpace(c: char) {
    c == '\t' || c == '\n' || c == '\U{B}' || c == '\U{C}' || c == '\r' || c == ' '
    || c == '\U{A0}' || c == '\U{1680}' || ('\U{2000}' <= c <= '\U{200A}')
    || c == '\U{2028}' || c == '\U{2029}' || c == '\U{202F}' || c == '\U{205F}'
    || c == '\U{3000}' || c == '\U{FEFF}'
  }

  /** Ruby's POSIX class `[[:space:]]` on Unicode strings, which Rails'
      `blank?` uses. */
  predicate IsUnicodeSpace(c: char) {
    ('\t' <= c <= '\r') || c == ' ' || c == '\U{85}' || c == '\U{A0}' || c == '\U{1680}'
    || ('\U{2000}' <= c <= '\U{200A}') || c == '\U{2028}' || c == '\U{2029}'
    || c == '\U{202F}' || c == '\U{205F}' || c == '\U{3000}'
  }

  predicate AllChars(s: string, p: char -> bool) {
    forall i :: 0 <= i < |s| ==> p(s[i])
  }

  /** Rails' `String#blank?`: empty or made of `[[:space:]]` only. */
  predicate IsBlank(s: string) {
    AllChars(s, IsUnicodeSpace)
  }

  // ---------------------------------------------------------------------
  // Case mapping (ASCII)
  // ---------------------------------------------------------------------

  function LowerChar(c: char): (r: char)
    ensures 'A' <= c <= 'Z' ==> r as int == c as int + 32
    ensures !('A' <= c <= 'Z') ==> r == c
  {
    if 'A' <= c <= 'Z' then (c as int + 32) as char else c
  }

  function UpperChar(c: char): (r: char)
    ensures 'a' <= c <= 'z' ==> r as int == c as int - 32
    ensures !('a' <= c <= 'z') ==> r == c
  {
    if 'a' <= c <= 'z' then (c as int - 32) as char else c
  }

  /** `downcase` / `toLowerCase` restricted to ASCII letters. */
  function Lower(s: string): (r: string)
    ensures |r| == |s|
    ensures forall i :: 0 <= i < |s| ==> r[i] == LowerChar(s[i])
  {
    seq(|s|, i requires 0 <= i < |s| => LowerChar(s[i]))
  }

  /** Ruby's `capitalize`: first character upper-cased, the rest lower-cased. */
  function Capitalize(s: string): (r: string)
    ensures |r| == |s|
    ensures s != [] ==> r[0] == UpperChar(s[0]) && r[1..] == Lower(s[1..])
  {
    if s == [] then [] else [UpperChar(s[0])] + Lower(s[1..])
  }

  // ---------------------------------------------------------------------
  // Searching
  // ---------------------------------------------------------------------

  predicate PrefixAt(s: string, i: int, p: string) {
    0 <= i && i + |p| <= |s| && s[i..i + |p|] == p
  }

  /** `t` occurs in `s` (Ruby's `include?`, a regex made of one literal,
      JavaScript's `includes`). */
  predicate Contains(s: string, t: string)
    ensures Contains(s, t) <==> exists i :: 0 <= i <= |s| - |t| && PrefixAt(s, i, t)
  {
    ContainsFrom(s, t, 0)
  }

  predicate ContainsFrom(s: string, t: string, k: nat)
    ensures ContainsFrom(s, t, k) <==> exists i :: k <= i <= |s| - |t| && PrefixAt(s, i, t)
    decreases |s| - k
  {
    if k + |t| > |s| then false
    else PrefixAt(s, k, t) || ContainsFrom(s, t, k + 1)
  }

  // ---------------------------------------------------------------------
  // Joining and trimming
  // ---------------------------------------------------------------------

  /** Ruby's `Array#join(sep)` and JavaScript's `Array.prototype.join(sep)`. */
  function Join(parts: seq<string>, sep: string): (r: string)
    ensures parts == [] ==> r == ""
    ensures |parts| == 1 ==> r == parts[0]
  {
    if parts == [] then "" else if |parts| == 1 then parts[0] else parts[0] + sep + Join(parts[1..], sep)
  }

  lemma {:induction false} JoinAppend(parts: seq<string>, last: string, sep: string)
    requires parts != []
    ensures Join(parts + [last], sep) == Join(parts, sep) + sep + last
    decreases |parts|
  {
    if |parts| == 1 {
      assert parts + [last] == [parts[0], last];
    } else {
      assert (parts + [last])[1..] == parts[1..] + [last];
      JoinAppend(parts[1..], last, sep);
    }
  }

  /** The joined text starts with the first part. */
  lemma JoinHead(parts: seq<string>, sep: string)
    requires parts != []
    ensures parts[0] <= Join(parts, sep)
  {
  }

  lemma {:induction false} JoinConcat(a: seq<string>, b: seq<string>, sep: string)
    requires a != [] && b != []
    ensures Join(a + b, sep) == Join(a, sep) + sep + Join(b, sep)
    decreases |a|
  {
    if |a| == 1 {
      assert a + b == [a[0]] + b;
      assert (a + b)[1..] == b;
    } else {
      assert (a + b)[1..] == a[1..] + b;
      JoinConcat(a[1..], b, sep);
    }
  }

  /** Drops the leading characters that satisfy `sp`.  What is left is
      stated by `DropLeadingShape`. */
  function DropLeading(s: string, sp: char -> bool): (r: string)
    ensures |r| <= |s|
    decreases |s|
  {
    if s != [] && sp(s[0]) then DropLeading(s[1..], sp) else s
  }

  /** Drops the trailing characters that satisfy `sp`.  What is left is
      stated by `DropTrailingShape`. */
  function DropTrailing(s: string, sp: char -> bool): (r: string)
    ensures |r| <= |s|
    decreases |s|
  {
    if s != [] && sp(s[|s| - 1]) then DropTrailing(s[..|s| - 1], sp) else s
  }

  /** Removes the characters satisfying `sp` from both ends. */
  function TrimBy(s: string, sp: char -> bool): (r: string)
    ensures |r| <= |s|
  {
    DropTrailing(DropLeading(s, sp), sp)
  }

  /** Ruby's `String#strip`. */
  function Strip(s: string): (r: string)
    ensures |r| <= |s|
  {
    TrimBy(s, IsStripSpace)
  }

  /** ECMAScript's `String.prototype.trim`. */
  function JsTrim(s: string): (r: string)
    ensures |r| <= |s|
  {
    TrimBy(s, IsJsSpace)
  }

  /** Dropping leading characters leaves a suffix whose first character,
      if any, does not satisfy `sp`, and every character dropped does. */
  lemma {:induction false} DropLeadingShape(s: string, sp: char -> bool)
    ensures var r := DropLeading(s, sp);
      r == s[|s| - |r|..]
      && (forall i :: 0 <= i < |s| - |r| ==> sp(s[i]))
      && (r != [] ==> !sp(r[0]))
    decreases |s|
  {
    if s != [] && sp(s[0]) {
      DropLeadingShape(s[1..], sp);
    }
  }

  /** Dropping trailing characters leaves a prefix whose last character,
      if any, does not satisfy `sp`, and every character dropped does. */
  lemma {:induction false} DropTrailingShape(s: string, sp: char -> bool)
    ensures var r := DropTrailing(s, sp);
      r == s[..|r|]
      && (forall i :: |r| <= i < |s| ==> sp(s[i]))
      && (r != [] ==> !sp(r[|r| - 1]))
    decreases |s|
  {
    if s != [] && sp(s[|s| - 1]) {
      DropTrailingShape(s[..|s| - 1], sp);
    }
  }

  /** Trimming leaves a slice of the text; everything removed satisfies
      `sp`, both ends of what is left do not, and the result is empty
      exactly when every character satisfies `sp`. */
  lemma TrimByShape(s: string, sp: char -> bool)
    ensures var r, a := TrimBy(s, sp), |s| - |DropLeading(s, sp)|;
      a + |r| <= |s| && r == s[a..a + |r|]
      && (forall i :: 0 <= i < a ==> sp(s[i]))
      && (forall i :: a + |r| <= i < |s| ==> sp(s[i]))
      && (r != [] ==> !sp(r[0]) && !sp(r[|r| - 1]))
      && (r == [] <==> AllChars(s, sp))
  {
    var l := DropLeading(s, sp);
    DropLeadingShape(s, sp);
    DropTrailingShape(l, sp);
    var r := TrimBy(s, sp);
    var a := |s| - |l|;
    assert r == s[a..a + |r|];
    forall i | a + |r| <= i < |s|
      ensures sp(s[i])
    {
      assert s[i] == l[i - a];
    }
    if r == [] {
      assert l == [];
    }
    if r != [] {
      assert r[0] == l[0];
    }
  }

}
