/** What the scanners of JsTokens find, said by the patterns alone (scripts/usage_track_scan.py:181-205).

    A pattern's body is a row of units. Each scanner is proved to stop exactly where a row of units
    ends as the pattern wants, and nowhere else. */
module JsPatterns {
  import opened Basics
  import opened JsTokens

  // -------------------------------------------------------------- the units

  datatype Body = StringBody(quote: char) | TemplateBody | ClassBody | RegexBody

  /** `text[i..k]` is one unit: a plain character, an escape, or in a regex a whole character class. */
  ghost predicate Unit(b: Body, text: string, i: nat, k: nat)
    decreases if i < k then k - i else 0, 0
  {
    i < k <= |text| &&
    match b
    case StringBody(quote) => if text[i] == '\\' then k == i + 2 else text[i] !in [quote, '\n'] && k == i + 1
    case TemplateBody =>
      if text[i] == '\\' then k == i + 2
      else text[i] != '`' && !(text[i] == '$' && i + 1 < |text| && text[i+1] == '{') && k == i + 1
    case ClassBody =>
      if text[i] == '\\' then k == i + 2 && text[i+1] != '\n' else text[i] !in "]\n" && k == i + 1
    case RegexBody =>
      if text[i] == '\\' then k == i + 2 && text[i+1] != '\n'
      else if text[i] == '[' then i + 2 <= k && text[k-1] == ']' && Units(ClassBody, text, i + 1, k - 1)
      else text[i] !in "/\n" && k == i + 1
  }

  /** `text[i..e]` is a row of units. */
  ghost predicate Units(b: Body, text: string, i: nat, e: nat)
    decreases if i < e then e - i else 0, 1
  {
    i == e || exists k :: i < k <= e && Unit(b, text, i, k) && Units(b, text, k, e)
  }

  lemma {:induction false} FirstUnit(b: Body, text: string, i: nat, e: nat) returns (k: nat)
    requires i < e && Units(b, text, i, e)
    ensures k <= e && Unit(b, text, i, k) && Units(b, text, k, e)
  {
    k :| i < k <= e && Unit(b, text, i, k) && Units(b, text, k, e);
  }

  /** `member` holds from `i` up to `e`, and not of what follows. */
  ghost predicate Stretch(text: string, i: nat, e: nat, member: char -> bool) {
    i <= e <= |text| && (forall k :: i <= k < e ==> member(text[k])) && (e < |text| ==> !member(text[e]))
  }

  lemma {:induction false} RunIsStretch(text: string, i: nat, e: nat, member: char -> bool)
    requires i <= |text|
    ensures Stretch(text, i, e, member) <==> RunEnd(text, i, member) == e
    decreases |text| - i
  {
    if i < |text| && member(text[i]) { RunIsStretch(text, i + 1, e, member); }
  }

  // ----------------------------------------------------------------- strings

  /** A string literal: a quote, units, the same quote. */
  ghost predicate StringAt(text: string, pos: nat, e: nat) {
    && pos + 2 <= e <= |text| && text[pos] in "\"'" && text[e-1] == text[pos]
    && Units(StringBody(text[pos]), text, pos + 1, e - 1)
  }

  lemma {:induction false} StringRestFound(text: string, i: nat, quote: char)
    requires i <= |text| && quote in "\"'" && StringRest(text, i, quote).Some?
    ensures var e := StringRest(text, i, quote).value;
      text[e-1] == quote && Units(StringBody(quote), text, i, e - 1)
    decreases |text| - i
  {
    if text[i] != quote {
      var k := if text[i] == '\\' then i + 2 else i + 1;
      StringRestFound(text, k, quote);
      assert Unit(StringBody(quote), text, i, k);
    }
  }

  lemma {:induction false} StringRestOnly(text: string, i: nat, quote: char, e: nat)
    requires quote in "\"'" && i < e <= |text| && text[e-1] == quote && Units(StringBody(quote), text, i, e - 1)
    ensures StringRest(text, i, quote) == Some(e)
    decreases |text| - i
  {
    if i < e - 1 {
      var k := FirstUnit(StringBody(quote), text, i, e - 1);
      StringRestOnly(text, k, quote, e);
    }
  }

  /** A string literal ends where the scanner says; so in at most one place. */
  lemma {:induction false} StringsEndThere(text: string, pos: nat)
    requires pos < |text| && text[pos] in "\"'"
    ensures forall e: nat :: StringAt(text, pos, e) <==> StringEnd(text, pos) == Some(e)
  {
    if StringEnd(text, pos).Some? { StringRestFound(text, pos + 1, text[pos]); }
    forall e: nat | StringAt(text, pos, e) ensures StringEnd(text, pos) == Some(e) {
      StringRestOnly(text, pos + 1, text[pos], e);
    }
  }

  // ---------------------------------------------------------- regex literals

  lemma {:induction false} ClassFound(text: string, i: nat)
    requires i <= |text| && ClassEnd(text, i).Some?
    ensures var e := ClassEnd(text, i).value; text[e-1] == ']' && Units(ClassBody, text, i, e - 1)
    decreases |text| - i
  {
    if text[i] != ']' {
      var k := if text[i] == '\\' then i + 2 else i + 1;
      ClassFound(text, k);
      assert Unit(ClassBody, text, i, k);
    }
  }

  lemma {:induction false} ClassOnly(text: string, i: nat, e: nat)
    requires i < e <= |text| && text[e-1] == ']' && Units(ClassBody, text, i, e - 1)
    ensures ClassEnd(text, i) == Some(e)
    decreases |text| - i
  {
    if i < e - 1 {
      var k := FirstUnit(ClassBody, text, i, e - 1);
      ClassOnly(text, k, e);
    }
  }

  /** Where a unit of a regex body from `i` ends, if one starts there. */
  function NextUnit(text: string, i: nat): Option<nat>
    requires i < |text|
  {
    if text[i] == '\\' then (if i + 1 < |text| && text[i+1] != '\n' then Some(i + 2) else None)
    else if text[i] == '[' then ClassEnd(text, i + 1)
    else if text[i] in "/\n" then None
    else Some(i + 1)
  }

  lemma NextUnitIsUnit(text: string, i: nat)
    requires i < |text|
    ensures forall k: nat :: Unit(RegexBody, text, i, k) <==> NextUnit(text, i) == Some(k)
  {
    if text[i] == '[' {
      if ClassEnd(text, i + 1).Some? { ClassFound(text, i + 1); }
      forall k: nat | Unit(RegexBody, text, i, k) ensures ClassEnd(text, i + 1) == Some(k) {
        ClassOnly(text, i + 1, k);
      }
    }
  }

  lemma {:induction false} BodyFound(text: string, i: nat)
    requires i <= |text| && JsTokens.RegexBody(text, i).Some?
    ensures Units(RegexBody, text, i, JsTokens.RegexBody(text, i).value)
    decreases |text| - i
  {
    if text[i] != '/' {
      NextUnitIsUnit(text, i);
      BodyFound(text, NextUnit(text, i).value);
    }
  }

  lemma {:induction false} BodyOnly(text: string, i: nat, e: nat)
    requires i <= e < |text| && text[e] == '/' && Units(RegexBody, text, i, e)
    ensures JsTokens.RegexBody(text, i) == Some(e)
    decreases |text| - i
  {
    if i < e {
      var k := FirstUnit(RegexBody, text, i, e);
      NextUnitIsUnit(text, i);
      BodyOnly(text, k, e);
    }
  }

  predicate Letter(c: char) { 'A' <= c <= 'Z' || 'a' <= c <= 'z' }

  /** A regex literal: a slash that opens no comment, at least one unit, a slash at `close`, and all letters
      after it. */
  ghost predicate RegexAt(text: string, pos: nat, close: nat, e: nat) {
    && pos + 1 < close < e <= |text| && text[pos] == '/' && text[pos+1] !in "*/" && text[close] == '/'
    && Units(RegexBody, text, pos + 1, close) && Stretch(text, close + 1, e, Letter)
  }

  lemma {:induction false} FlagsAreLetters(text: string, i: nat, e: nat)
    requires i <= |text|
    ensures Stretch(text, i, e, Letter) <==> FlagsEnd(text, i) == e
    decreases |text| - i
  {
    if i < |text| && Letter(text[i]) { FlagsAreLetters(text, i + 1, e); }
  }

  ghost predicate IsRegex(text: string, pos: nat, e: nat) { exists close: nat :: RegexAt(text, pos, close, e) }

  lemma RegexFound(text: string, pos: nat)
    requires pos < |text| && text[pos] == '/' && RegexEnd(text, pos).Some?
    ensures IsRegex(text, pos, RegexEnd(text, pos).value)
  {
    var close := JsTokens.RegexBody(text, pos + 1).value;
    BodyFound(text, pos + 1);
    FlagsAreLetters(text, close + 1, RegexEnd(text, pos).value);
    assert RegexAt(text, pos, close, RegexEnd(text, pos).value);
  }

  lemma RegexOnly(text: string, pos: nat, e: nat)
    requires pos < |text| && text[pos] == '/' && IsRegex(text, pos, e)
    ensures RegexEnd(text, pos) == Some(e)
  {
    var close: nat :| RegexAt(text, pos, close, e);
    BodyOnly(text, pos + 1, close);
    FlagsAreLetters(text, close + 1, e);
  }

  /** A regex literal ends where the scanner says, and nowhere else. */
  lemma {:induction false} RegexesEndThere(text: string, pos: nat)
    requires pos < |text| && text[pos] == '/'
    ensures forall e: nat :: IsRegex(text, pos, e) <==> RegexEnd(text, pos) == Some(e)
  {
    if RegexEnd(text, pos).Some? { RegexFound(text, pos); }
    forall e: nat | IsRegex(text, pos, e) ensures RegexEnd(text, pos) == Some(e) { RegexOnly(text, pos, e); }
  }

  // ------------------------------------------------- templates and comments

  /** All the units there are from `i` on end at `e`. */
  ghost predicate TemplateTextAt(text: string, i: nat, e: nat) {
    i <= e <= |text| && Units(TemplateBody, text, i, e) && forall k: nat :: !Unit(TemplateBody, text, e, k)
  }

  lemma {:induction false} TemplateFound(text: string, i: nat)
    requires i <= |text|
    ensures TemplateTextAt(text, i, TemplateTextEnd(text, i))
    decreases |text| - i
  {
    var e := TemplateTextEnd(text, i);
    if i < e {
      var k := if text[i] == '\\' then i + 2 else i + 1;
      TemplateFound(text, k);
      assert Unit(TemplateBody, text, i, k);
    }
  }

  lemma {:induction false} TemplateOnly(text: string, i: nat, e: nat)
    requires TemplateTextAt(text, i, e)
    ensures TemplateTextEnd(text, i) == e
    decreases |text| - i
  {
    if i < e {
      var k := FirstUnit(TemplateBody, text, i, e);
      TemplateOnly(text, k, e);
    } else if i < |text| {
      assert !Unit(TemplateBody, text, i, i + 1) && !Unit(TemplateBody, text, i, i + 2);
    }
  }

  lemma {:induction false} TemplateTextsEndThere(text: string, i: nat)
    requires i <= |text|
    ensures forall e: nat :: TemplateTextAt(text, i, e) <==> TemplateTextEnd(text, i) == e
  {
    TemplateFound(text, i);
    forall e: nat | TemplateTextAt(text, i, e) ensures TemplateTextEnd(text, i) == e { TemplateOnly(text, i, e); }
  }

  ghost predicate ClosesAt(text: string, i: nat) { i + 2 <= |text| && text[i] == '*' && text[i+1] == '/' }

  /** The first close from `from` on is at `e`. */
  ghost predicate FirstClose(text: string, from: nat, e: nat) {
    from <= e && ClosesAt(text, e) && forall i :: from <= i < e ==> !ClosesAt(text, i)
  }

  lemma {:induction false} CommentsEndThere(text: string, from: nat)
    ensures forall e: nat :: FirstClose(text, from, e) <==> CommentClose(text, from) == Some(e)
    decreases if from <= |text| then |text| - from else 0
  {
    if from + 2 <= |text| && !ClosesAt(text, from) { CommentsEndThere(text, from + 1); }
  }

  // ------------------------------------------------------- the token pattern

  lemma {:induction false} OperatorFound(text: string, pos: nat, ops: seq<string>)
    requires forall i :: 0 <= i < |ops| ==> |ops[i]| > 0
    ensures var r := OperatorEnd(text, pos, ops);
      if r.None? then forall o <- ops :: !At(text, pos, o)
      else exists i :: 0 <= i < |ops| && FirstAt(text, pos, ops, i) && r.value == pos + |ops[i]|
  {
    if ops != [] && !At(text, pos, ops[0]) {
      var rest := ops[1..];
      OperatorFound(text, pos, rest);
      if OperatorEnd(text, pos, rest).Some? {
        var e := OperatorEnd(text, pos, rest).value;
        var i :| 0 <= i < |rest| && FirstAt(text, pos, rest, i) && e == pos + |rest[i]|;
        assert forall j :: 0 <= j < |rest| ==> rest[j] == ops[j+1];
        assert FirstAt(text, pos, ops, i + 1);
      }
    } else if ops != [] {
      assert FirstAt(text, pos, ops, 0);
    }
  }

  ghost predicate FirstAt(text: string, pos: nat, ops: seq<string>, i: nat) {
    i < |ops| && At(text, pos, ops[i]) && forall j :: 0 <= j < i ==> !At(text, pos, ops[j])
  }

  /** `At`, without slices. */
  lemma AtMeans(text: string, pos: nat, part: string)
    ensures At(text, pos, part) <==>
      pos + |part| <= |text| && forall k :: 0 <= k < |part| ==> text[pos+k] == part[k]
  {
    if pos + |part| <= |text| {
      var there := text[pos..pos+|part|];
      assert forall k :: 0 <= k < |part| ==> there[k] == text[pos+k];
    }
  }

  lemma SameStart(text: string, pos: nat, a: string, b: string)
    requires At(text, pos, a) && At(text, pos, b) && |a| <= |b|
    ensures a <= b
  {
    assert text[pos..pos+|a|] == text[pos..pos+|b|][..|a|];
  }

  /** No operator of the list is the start of a later one. */
  ghost predicate LongerFirst(ops: seq<string>) { forall i, j :: 0 <= i < j < |ops| ==> !(ops[i] <= ops[j]) }

  lemma SameHeads(a: string, b: string)
    requires |a| >= 2
    ensures a <= b ==> |b| >= 2 && a[0] == b[0] && a[1] == b[1]
  {}

  lemma OperatorsAreLongerFirst()
    ensures LongerFirst(OPERATORS)
  {
    forall i, j | 0 <= i < j < |OPERATORS| ensures !(OPERATORS[i] <= OPERATORS[j]) {
      SameHeads(OPERATORS[i], OPERATORS[j]);
    }
  }

  /** The longest operator of the list at `pos`. */
  ghost predicate LongestAt(text: string, pos: nat, ops: seq<string>, e: nat) {
    && (exists o <- ops :: At(text, pos, o) && e == pos + |o|)
    && forall o <- ops :: At(text, pos, o) ==> pos + |o| <= e
  }

  lemma FirstIsLongest(text: string, pos: nat, ops: seq<string>, i: nat)
    requires LongerFirst(ops) && FirstAt(text, pos, ops, i)
    ensures LongestAt(text, pos, ops, pos + |ops[i]|)
  {
    forall j | 0 <= j < |ops| && At(text, pos, ops[j]) ensures |ops[j]| <= |ops[i]| {
      if |ops[i]| < |ops[j]| { SameStart(text, pos, ops[i], ops[j]); }
    }
    assert ops[i] in ops;
  }

  lemma {:induction false} OperatorsEndThere(text: string, pos: nat, ops: seq<string>)
    requires LongerFirst(ops) && forall i :: 0 <= i < |ops| ==> |ops[i]| > 0
    ensures forall e: nat :: LongestAt(text, pos, ops, e) <==> OperatorEnd(text, pos, ops) == Some(e)
  {
    OperatorFound(text, pos, ops);
    if OperatorEnd(text, pos, ops).Some? {
      var i :| 0 <= i < |ops| && FirstAt(text, pos, ops, i) && OperatorEnd(text, pos, ops).value == pos + |ops[i]|;
      FirstIsLongest(text, pos, ops, i);
    }
  }

  /** Names begin with an ASCII letter, `_`, `$` or a character of the basic plane beyond ASCII, and go on
      with word characters, `$` and those; in code points. */
  lemma NameCharacters(cc: CharClasses, c: char)
    ensures NameStart(c) <==> var n := c as int; 65 <= n <= 90 || 97 <= n <= 122 || n in {95, 36} || 0x80 <= n <= 0xFFFF
    ensures NamePart(cc, c) <==> cc.word(c) || c as int == 36 || 0x80 <= c as int <= 0xFFFF
  {}

  function Rank(l: Lexeme): nat {
    match l
    case Space => 0
    case Newline => 1
    case LineComment => 2
    case Quoted => 3
    case Word => 4
    case Numeral => 5
    case Operator => 6
    case Single => 7
  }

  /** Where a numeral's first digit is: past a dot, if a digit follows one. */
  function FirstDigit(cc: CharClasses, text: string, pos: nat): nat
    requires pos < |text|
  {
    if text[pos] == '.' && pos + 1 < |text| && cc.digit(text[pos+1]) then pos + 1 else pos
  }

  /** The alternative `l` of the token pattern, taken alone, matches `text[pos..e]`. */
  ghost predicate Matches(cc: CharClasses, l: Lexeme, text: string, pos: nat, e: nat) {
    pos < e <= |text| &&
    match l
    case Space => Stretch(text, pos, e, x => cc.space(x) && x != '\n')
    case Newline => text[pos] == '\n' && e == pos + 1
    case LineComment => At(text, pos, "//") && pos + 2 <= e && Stretch(text, pos + 2, e, x => x != '\n')
    case Quoted => StringAt(text, pos, e)
    case Word => NameStart(text[pos]) && Stretch(text, pos + 1, e, x => NamePart(cc, x))
    case Numeral =>
      var d := FirstDigit(cc, text, pos); cc.digit(text[d]) && Stretch(text, d + 1, e, x => cc.word(x) || x == '.')
    case Operator => LongestAt(text, pos, OPERATORS, e)
    case Single => e == pos + 1
  }

  /** `l` is the first alternative that matches at all, and its match ends at `e`. */
  ghost predicate IsFirst(cc: CharClasses, text: string, pos: nat, l: Lexeme, e: nat) {
    && Matches(cc, l, text, pos, e)
    && forall k: Lexeme, f: nat :: Rank(k) < Rank(l) ==> !Matches(cc, k, text, pos, f)
  }

  predicate LookFirst(l: Lexeme, e: nat, u: int) { true }

  /** `IsFirst`, folded: it quantifies over a `u` that means nothing, so that the verifier unfolds it only
      where `MatchesFirstMeans` asks it to. */
  ghost predicate MatchesFirst(cc: CharClasses, text: string, pos: nat, l: Lexeme, e: nat) {
    forall u: int {:trigger LookFirst(l, e, u)} :: LookFirst(l, e, u) ==> IsFirst(cc, text, pos, l, e)
  }

  lemma MatchesFirstMeans(cc: CharClasses, text: string, pos: nat, l: Lexeme, e: nat)
    ensures MatchesFirst(cc, text, pos, l, e) <==> IsFirst(cc, text, pos, l, e)
  {
    assert LookFirst(l, e, 0);
  }

  /** Where alternative `l` ends, if it matches. */
  function EndOf(cc: CharClasses, l: Lexeme, text: string, pos: nat): Option<nat>
    requires pos < |text|
  {
    var c := text[pos];
    match l
    case Space =>
      if cc.space(c) && c != '\n' then Some(RunEnd(text, pos + 1, x => cc.space(x) && x != '\n')) else None
    case Newline => if c == '\n' then Some(pos + 1) else None
    case LineComment => if At(text, pos, "//") then Some(RunEnd(text, pos + 2, x => x != '\n')) else None
    case Quoted => if c in "\"'" then StringEnd(text, pos) else None
    case Word => if NameStart(c) then Some(RunEnd(text, pos + 1, x => NamePart(cc, x))) else None
    case Numeral =>
      var d := FirstDigit(cc, text, pos);
      if cc.digit(text[d]) then Some(RunEnd(text, d + 1, x => cc.word(x) || x == '.')) else None
    case Operator => OperatorAt(text, pos)
    case Single => Some(pos + 1)
  }

  lemma {:induction false} StretchFrom(text: string, pos: nat, e: nat, member: char -> bool)
    requires pos < |text|
    ensures pos < e && Stretch(text, pos, e, member) <==> member(text[pos]) && RunEnd(text, pos + 1, member) == e
  {
    if member(text[pos]) { RunIsStretch(text, pos + 1, e, member); }
  }

  lemma AlternativesEndThere(cc: CharClasses, l: Lexeme, text: string, pos: nat, e: nat)
    requires pos < |text|
    ensures Matches(cc, l, text, pos, e) <==> EndOf(cc, l, text, pos) == Some(e)
  {
    match l
    case Space => StretchFrom(text, pos, e, x => cc.space(x) && x != '\n');
    case LineComment => if pos + 2 <= |text| { RunIsStretch(text, pos + 2, e, x => x != '\n'); }
    case Quoted => if text[pos] in "\"'" { StringsEndThere(text, pos); }
    case Word => RunIsStretch(text, pos + 1, e, x => NamePart(cc, x));
    case Numeral => RunIsStretch(text, FirstDigit(cc, text, pos) + 1, e, x => cc.word(x) || x == '.');
    case Operator =>
      OperatorsAreLongerFirst();
      OperatorsEndThere(text, pos, OPERATORS);
    case _ =>
  }

  /** The first alternative that ends somewhere, and where. */
  ghost predicate FirstToEnd(cc: CharClasses, text: string, pos: nat, l: Lexeme, e: nat)
    requires pos < |text|
  {
    EndOf(cc, l, text, pos) == Some(e) && forall k: Lexeme :: Rank(k) < Rank(l) ==> EndOf(cc, k, text, pos).None?
  }

  lemma ScanIsFirst(cc: CharClasses, text: string, pos: nat)
    requires pos < |text|
    ensures FirstToEnd(cc, text, pos, Scan(cc, text, pos).lexeme, Scan(cc, text, pos).end)
  {}

  lemma OnlyOneIsFirst(cc: CharClasses, text: string, pos: nat, k: Lexeme, f: nat, l: Lexeme, e: nat)
    requires pos < |text| && FirstToEnd(cc, text, pos, k, f) && FirstToEnd(cc, text, pos, l, e)
    ensures k == l && e == f
  {
    assert !(Rank(k) < Rank(l)) && !(Rank(l) < Rank(k));
  }

  lemma MatchesFirstEnds(cc: CharClasses, text: string, pos: nat, l: Lexeme, e: nat)
    requires pos < |text|
    ensures MatchesFirst(cc, text, pos, l, e) <==> FirstToEnd(cc, text, pos, l, e)
  {
    MatchesFirstMeans(cc, text, pos, l, e);
    AlternativesEndThere(cc, l, text, pos, e);
    forall k: Lexeme, f: nat ensures Matches(cc, k, text, pos, f) <==> EndOf(cc, k, text, pos) == Some(f) {
      AlternativesEndThere(cc, k, text, pos, f);
    }
    forall k: Lexeme ensures EndOf(cc, k, text, pos).None? <==> forall f: nat :: !Matches(cc, k, text, pos, f) {
      if EndOf(cc, k, text, pos).Some? { assert Matches(cc, k, text, pos, EndOf(cc, k, text, pos).value); }
    }
  }

  /** The scanner gives the first alternative of the pattern that matches, and its match. */
  lemma ScanIsThePattern(cc: CharClasses, text: string, pos: nat, l: Lexeme, e: nat)
    requires pos < |text|
    ensures MatchesFirst(cc, text, pos, l, e) <==> Scan(cc, text, pos) == Match(l, e)
  {
    var m := Scan(cc, text, pos);
    MatchesFirstEnds(cc, text, pos, l, e);
    ScanIsFirst(cc, text, pos);
    if FirstToEnd(cc, text, pos, l, e) { OnlyOneIsFirst(cc, text, pos, l, e, m.lexeme, m.end); }
  }

  // ------------------------------------------------- escapes and newlines

  /** A character of a literal, as it is or behind a backslash. */
  datatype Spelled = Bare(c: char) | Escaped(c: char)

  function Spelling(us: seq<Spelled>): string {
    if us == [] then "" else (if us[0].Bare? then [us[0].c] else ['\\', us[0].c]) + Spelling(us[1..])
  }

  function Meaning(us: seq<Spelled>): string {
    if us == [] then "" else [us[0].c] + Meaning(us[1..])
  }

  lemma {:induction false} UnescapeOfSpelling(us: seq<Spelled>)
    requires forall u <- us :: u.Bare? ==> u.c != '\\'
    ensures Unescape(Spelling(us)) == Meaning(us)
  {
    if us != [] {
      UnescapeOfSpelling(us[1..]);
      UnescapeStep(us[0], Spelling(us[1..]));
    }
  }

  lemma UnescapeStep(u: Spelled, rest: string)
    requires u.Bare? ==> u.c != '\\'
    ensures Unescape((if u.Bare? then [u.c] else ['\\', u.c]) + rest) == [u.c] + Unescape(rest)
  {
    if u.Bare? {
      assert ([u.c] + rest)[1..] == rest;
    } else {
      assert (['\\', u.c] + rest)[2..] == rest;
    }
  }

  /** The body of a string or template part means its characters, each escape reduced to the one it names. */
  lemma {:induction false} BodiesMeanTheirCharacters(b: Body, text: string, i: nat, e: nat) returns (us: seq<Spelled>)
    requires (b.StringBody? || b.TemplateBody?) && i <= e <= |text| && Units(b, text, i, e)
    ensures text[i..e] == Spelling(us) && (forall u <- us :: u.Bare? ==> u.c != '\\')
    ensures Unescape(text[i..e]) == Meaning(us)
    decreases e - i
  {
    if i == e {
      us := [];
    } else {
      var k := FirstUnit(b, text, i, e);
      var rest := BodiesMeanTheirCharacters(b, text, k, e);
      us := [if text[i] == '\\' then Escaped(text[i+1]) else Bare(text[i])] + rest;
      assert us[1..] == rest && text[i..e] == text[i..k] + text[k..e];
    }
    UnescapeOfSpelling(us);
  }

  ghost function NewlinesIn(s: string): set<nat> { set i: nat | i < |s| && s[i] == '\n' }

  lemma {:induction false} NewlinesAreCounted(s: string)
    ensures Newlines(s) == |NewlinesIn(s)|
  {
    if s != "" {
      var n := |s| - 1;
      NewlinesAreCounted(s[..n]);
      assert NewlinesIn(s) == NewlinesIn(s[..n]) + if s[n] == '\n' then {n} else {};
    }
  }
}
