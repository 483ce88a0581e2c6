/** The regular expressions of the JS reader (scripts/usage_track_scan.py:181-205), as scanners.

    Each pattern is unambiguous, so its match is computed by one left-to-right scan. The regex
    engine's `\s`, `\w` and `\d` classes are parameters: everything proved holds for any. */
module JsTokens {
  import opened Basics

  datatype CharClasses = CharClasses(space: char -> bool, word: char -> bool, digit: char -> bool)

  /** Where the string literal opening at `pos` ends; none if its line or the text ends first. */
  function StringEnd(text: string, pos: nat): (r: Option<nat>)
    requires pos < |text|
    ensures r.Some? ==> pos + 2 <= r.value <= |text|
  {
    StringRest(text, pos + 1, text[pos])
  }

  function StringRest(text: string, i: nat, quote: char): (r: Option<nat>)
    requires i <= |text|
    ensures r.Some? ==> i < r.value <= |text|
    decreases |text| - i
  {
    if i == |text| || text[i] == '\n' then None
    else if text[i] == quote then Some(i + 1)
    else if text[i] == '\\' then (if i + 1 < |text| then StringRest(text, i + 2, quote) else None)
    else StringRest(text, i + 1, quote)
  }

  /** Where the character class entered before `i` ends. */
  function ClassEnd(text: string, i: nat): (r: Option<nat>)
    requires i <= |text|
    ensures r.Some? ==> i < r.value <= |text| && '\n' !in text[i..r.value]
    decreases |text| - i
  {
    if i == |text| || text[i] == '\n' then None
    else if text[i] == ']' then Some(i + 1)
    else
      var step := if text[i] == '\\' then 2 else 1;
      if step == 2 && (i + 1 == |text| || text[i+1] == '\n') then None
      else
        var r := ClassEnd(text, i + step);
        assert r.Some? ==> text[i..r.value] == text[i..i+step] + text[i+step..r.value];
        r
  }

  /** The closing slash of the regex literal body from `i` on. */
  function RegexBody(text: string, i: nat): (r: Option<nat>)
    requires i <= |text|
    ensures r.Some? ==> i <= r.value < |text| && text[r.value] == '/' && '\n' !in text[i..r.value]
    decreases |text| - i
  {
    if i == |text| || text[i] == '\n' then None
    else if text[i] == '/' then Some(i)
    else
      var next :=
        if text[i] == '\\' then (if i + 1 < |text| && text[i+1] != '\n' then Some(i + 2) else None)
        else if text[i] == '[' then ClassEnd(text, i + 1)
        else Some(i + 1);
      if next.None? then None
      else
        var r := RegexBody(text, next.value);
        assert text[i..next.value] == [text[i]] + text[i+1..next.value];
        assert r.Some? ==> text[i..r.value] == text[i..next.value] + text[next.value..r.value];
        r
  }

  function FlagsEnd(text: string, i: nat): (r: nat)
    requires i <= |text|
    ensures i <= r <= |text| && '\n' !in text[i..r]
    decreases |text| - i
  {
    if i < |text| && ('A' <= text[i] <= 'Z' || 'a' <= text[i] <= 'z') then
      var r := FlagsEnd(text, i + 1);
      assert text[i..r] == [text[i]] + text[i+1..r];
      r
    else i
  }

  /** Where the regex literal opening at `pos` ends; none if what follows the slash is not one. */
  function RegexEnd(text: string, pos: nat): (r: Option<nat>)
    requires pos < |text| && text[pos] == '/'
    ensures r.Some? ==> pos < r.value <= |text| && '\n' !in text[pos..r.value]
  {
    if pos + 1 < |text| && text[pos+1] in "*/" then None
    else
      var close := RegexBody(text, pos + 1);
      if close.None? then None
      else
        var r := FlagsEnd(text, close.value + 1);
        assert text[pos..r] == [text[pos]] + text[pos+1..close.value] + [text[close.value]] + text[close.value+1..r];
        Some(r)
  }

  /** Where a stretch of template text from `i` stops: a backtick, `${`, a lone last backslash, or the end. */
  function TemplateTextEnd(text: string, i: nat): (r: nat)
    requires i <= |text|
    ensures i <= r <= |text|
    ensures r < |text| ==> text[r] in "`$\\"
    ensures r < |text| && text[r] == '$' ==> r + 1 < |text| && text[r+1] == '{'
    ensures r < |text| && text[r] == '\\' ==> r + 1 == |text|
    decreases |text| - i
  {
    if i == |text| || text[i] == '`' then i
    else if text[i] == '\\' then (if i + 1 < |text| then TemplateTextEnd(text, i + 2) else i)
    else if text[i] == '$' && i + 1 < |text| && text[i+1] == '{' then i
    else TemplateTextEnd(text, i + 1)
  }

  /** `str.find` of the end of a block comment. */
  function CommentClose(text: string, from: nat): (r: Option<nat>)
    ensures r.Some? ==> from <= r.value && r.value + 2 <= |text| && text[r.value] == '*' && text[r.value+1] == '/'
    ensures r.None? ==> forall i :: from <= i && i + 2 <= |text| ==> !(text[i] == '*' && text[i+1] == '/')
    decreases if from <= |text| then |text| - from else 0
  {
    if from + 2 > |text| then None
    else if text[from] == '*' && text[from+1] == '/' then Some(from)
    else CommentClose(text, from + 1)
  }

  // ------------------------------------------------------------ plain tokens

  datatype Lexeme = Space | Newline | LineComment | Quoted | Word | Numeral | Operator | Single

  datatype Match = Match(lexeme: Lexeme, end: nat)

  predicate NameStart(c: char) {
    'A' <= c <= 'Z' || 'a' <= c <= 'z' || c == '_' || c == '$' || '\U{0080}' <= c <= '\U{FFFF}'
  }

  predicate NamePart(cc: CharClasses, c: char) { cc.word(c) || c == '$' || '\U{0080}' <= c <= '\U{FFFF}' }

  function RunEnd(text: string, i: nat, member: char -> bool): (r: nat)
    requires i <= |text|
    ensures i <= r <= |text| && forall k :: i <= k < r ==> member(text[k])
    decreases |text| - i
  {
    if i < |text| && member(text[i]) then RunEnd(text, i + 1, member) else i
  }

  predicate At(text: string, pos: nat, part: string) { pos + |part| <= |text| && text[pos..pos+|part|] == part }

  /** The first listed operator at `pos`. */
  function OperatorEnd(text: string, pos: nat, ops: seq<string>): (r: Option<nat>)
    requires forall i :: 0 <= i < |ops| ==> |ops[i]| > 0
    ensures r.Some? ==> pos < r.value <= |text|
  {
    if ops == [] then None
    else if At(text, pos, ops[0]) then Some(pos + |ops[0]|)
    else OperatorEnd(text, pos, ops[1..])
  }

  const OPERATORS: seq<string> := [
    "===", "!==", "==", "!=", "<=", ">=", "=>", "&&=", "||=", "??=",
    "&&", "||", "??", "?.", "++", "--", "+=", "-=", "*=", "..."
  ]

  function OperatorAt(text: string, pos: nat): (r: Option<nat>)
    ensures r.Some? ==> pos < r.value <= |text|
  {
    OperatorEnd(text, pos, OPERATORS)
  }

  /** The alternatives of the token pattern, in order; the last matches any character. */
  function Scan(cc: CharClasses, text: string, pos: nat): (m: Match)
    requires pos < |text|
    ensures pos < m.end <= |text| && (m.lexeme.Single? ==> m.end == pos + 1) && (m.lexeme.Quoted? ==> m.end >= pos + 2)
  {
    var c := text[pos];
    if cc.space(c) && c != '\n' then Match(Space, RunEnd(text, pos + 1, x => cc.space(x) && x != '\n'))
    else if c == '\n' then Match(Newline, pos + 1)
    else if At(text, pos, "//") then Match(LineComment, RunEnd(text, pos + 2, x => x != '\n'))
    else if c in "\"'" && StringEnd(text, pos).Some? then Match(Quoted, StringEnd(text, pos).value)
    else if NameStart(c) then Match(Word, RunEnd(text, pos + 1, x => NamePart(cc, x)))
    else if c == '.' && pos + 1 < |text| && cc.digit(text[pos+1]) then
      Match(Numeral, RunEnd(text, pos + 2, x => cc.word(x) || x == '.'))
    else if cc.digit(c) then Match(Numeral, RunEnd(text, pos + 1, x => cc.word(x) || x == '.'))
    else
      var op := OperatorAt(text, pos);
      if op.Some? then Match(Operator, op.value) else Match(Single, pos + 1)
  }

  /** Each backslash escape reduced to its character. */
  function Unescape(raw: string): string {
    if |raw| <= 1 then raw
    else if raw[0] == '\\' then [raw[1]] + Unescape(raw[2..])
    else [raw[0]] + Unescape(raw[1..])
  }

  // ---------------------------------------------------------------- newlines

  function Newlines(s: string): nat {
    if s == "" then 0 else Newlines(s[..|s|-1]) + if s[|s|-1] == '\n' then 1 else 0
  }

  lemma {:induction false} NewlinesConcat(a: string, b: string)
    ensures Newlines(a + b) == Newlines(a) + Newlines(b)
    decreases |b|
  {
    if b == "" {
      assert a + b == a;
    } else {
      assert (a + b)[..|a + b|-1] == a + b[..|b|-1];
      NewlinesConcat(a, b[..|b|-1]);
    }
  }

  lemma {:induction false} NoNewlines(s: string)
    requires '\n' !in s
    ensures Newlines(s) == 0
  {
    if s != "" { NoNewlines(s[..|s|-1]); }
  }

  lemma NewlinesUpTo(text: string, a: nat, b: nat)
    requires a <= b <= |text|
    ensures Newlines(text[..b]) == Newlines(text[..a]) + Newlines(text[a..b])
  {
    NewlinesConcat(text[..a], text[a..b]);
    assert text[..b] == text[..a] + text[a..b];
  }
}
