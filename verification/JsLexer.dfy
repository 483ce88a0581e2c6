/** The JS tokenizer of the usage-track reader (scripts/usage_track_scan.py:208-329).

    `Code` and `TemplateLiteral` call each other, since template literals hold code that holds
    braces and more templates. Both keep the matching (JsMatching) and the reading (JsReading) true
    at every step, and they end because each call starts further on in the text. */
module JsLexer {
  import opened Basics
  import opened JsTokens
  import opened JsMatching
  import opened JsReading

  class Lexer {
    const src: Source
    var toks: seq<Tok>
    var braces: seq<nat>
    var closes: map<nat, nat>
    var line: int
    var blamed: int  // the line of the error, once there is one
    ghost var now: LexState  // the fields above, with the tiles and holes they came from

    ghost predicate Valid()
      reads this
    {
      toks == now.toks && braces == now.braces && closes == now.closes
    }

    /** The lexer stands at `pos`, everything before it matched and faithfully read. */
    ghost predicate GoodAt(pos: nat)
      reads this
    {
      Valid() && Good(src, now, line, pos)
    }

    /** The lexer stands at a place of the text where it cannot go on. */
    ghost predicate GaveUp()
      reads this
    {
      Valid() && Halted(src, now, line, blamed)
    }

    constructor (src: Source)
      ensures this.src == src && Valid() && now == NOTHING && line == src.line
    {
      this.src := src;
      toks, braces, closes, line, blamed := [], [], map[], src.line, src.line;
      now := NOTHING;
    }

    /** Succeeds when the whole text is read, every template closed and every brace matched. */
    method Lex() returns (ok: bool)
      requires Valid() && now == NOTHING && line == src.line
      modifies this
      ensures ok ==> GoodAt(|src.text|) && Done(src, now)
      ensures !ok ==> GaveUp()
    {
      NothingIsGood(src);
      var end := Code(0, false);
      ok := end.Some? && braces == [];
      if end.Some? && braces != [] {
        BraceNeverCloses(src, now, line);
        blamed := toks[braces[|braces|-1]].line;
      }
    }

    /** Tokens from `pos` to the end, or (in a template hole) to the `}` that closes it. */
    method Code(pos: nat, inHole: bool) returns (r: Option<nat>)
      requires GoodAt(pos) && pos <= |src.text| + 1 && (inHole <==> now.unread != [])
      requires !inHole ==> pos <= |src.text| && braces == []
      modifies this
      ensures r.None? ==> GaveUp()
      ensures r.Some? ==> pos <= r.value <= |src.text| && Follows(old(now), now) && now.unread == old(now.unread)
      ensures r.Some? && !inHole ==> GoodAt(r.value) && r.value == |src.text|
      ensures r.Some? && inHole ==> pos < r.value && braces == old(braces)
      ensures r.Some? && inHole ==> src.text[r.value-1] == '}' && GoodAt(r.value - 1)
      decreases |src.text| + 1 - pos, 3
    {
      var at := pos;
      var depth := |braces|;
      ghost var start := now;
      FollowsMeans(start, start);
      while at < |src.text|
        invariant pos <= at <= |src.text| + 1 && (!inHole ==> at <= |src.text|)
        invariant GoodAt(at) && Follows(start, now) && now.unread == start.unread
        decreases |src.text| + 1 - at
      {
        var c := src.text[at];
        BracesKept(start, now);
        OneSign(src.text, at);
        if c == '`' {
          var end := TemplateLiteral(at + 1, start);
          if end.None? { return None; }
          at := end.value;
          continue;
        }
        if c == '}' && inHole && |braces| == depth {
          return Some(at + 1);
        }
        if c == '/' && At(src.text, at, "/*") {
          var end := BlockComment(at, start);
          if end.None? { return None; }
          at := end.value;
          continue;
        }
        if c == '/' && !At(src.text, at, "//") && RegexAllowed(toks) {
          var end := RegexEnd(src.text, at);
          if end.Some? {
            RegexReads(src, at, end.value);
            NoNewlines(src.text[at..end.value]);
            PushWhole(at, end.value, Regex, src.text[at..end.value], start);
            at := end.value;
            continue;
          }
        }
        var end := PlainToken(at, start);
        if end.None? { return None; }
        at := end.value;
      }
      if inHole {
        HoleNeverCloses(src, now, line, at);
        blamed := line;
        return None;
      }
      return Some(at);
    }

    /** A token of the pattern, unless a string opens here that never closes. */
    method PlainToken(pos: nat, ghost floor: LexState) returns (r: Option<nat>)
      requires GoodAt(pos) && pos < |src.text| && src.text[pos] != '`' && !At(src.text, pos, "/*")
      requires Follows(floor, now)
      requires src.text[pos] == '/' && !At(src.text, pos, "//") && RegexAllowed(toks) ==> RegexEnd(src.text, pos).None?
      requires src.text[pos] == '}' && braces != [] ==> |braces| > |floor.braces|
      requires src.text[pos] == '}' && braces == [] ==> now.unread == []
      modifies this
      ensures r.None? ==> GaveUp()
      ensures r.Some? ==> pos < r.value <= |src.text| && GoodAt(r.value) && Follows(floor, now)
      ensures now.unread == old(now.unread)
    {
      if src.text[pos] in "\"'" && StringEnd(src.text, pos).None? {
        StringNeverCloses(src, now, line, pos);
        blamed := line;
        return None;
      }
      NothingSpecial(src, RegexAllowed(toks), pos);
      r := Token(pos, floor);
      if r.None? {
        NothingToClose(src, now, line, pos);
        blamed := line;
      }
    }

    method BlockComment(pos: nat, ghost floor: LexState) returns (r: Option<nat>)
      requires GoodAt(pos) && pos < |src.text| && At(src.text, pos, "/*") && Follows(floor, now)
      modifies this`line, this`now, this`blamed
      ensures r.None? ==> GaveUp()
      ensures r.Some? ==> pos < r.value <= |src.text| && GoodAt(r.value) && Follows(floor, now)
      ensures r.Some? ==> now.unread == old(now.unread)
    {
      var close := CommentClose(src.text, pos + 2);
      if close.None? {
        CommentNeverCloses(src, now, line, pos);
        blamed := line;
        return None;
      }
      SkipComment(pos, close.value, floor);
      return Some(close.value + 2);
    }

    method SkipComment(pos: nat, close: nat, ghost floor: LexState)
      requires GoodAt(pos) && pos < |src.text| && At(src.text, pos, "/*") && Follows(floor, now)
      requires CommentClose(src.text, pos + 2) == Some(close)
      modifies this`line, this`now
      ensures close + 2 <= |src.text| && GoodAt(close + 2) && Follows(floor, now) && now.unread == old(now.unread)
    {
      CommentStep(src, floor, now, line, pos, close);
      line := line + Newlines(src.text[pos..close]);
      now := WithGap(now, pos, close + 2);
    }

    /** One token of the token pattern. `floor` is a state whose braces it may not close. */
    method Token(pos: nat, ghost floor: LexState) returns (r: Option<nat>)
      requires GoodAt(pos) && pos < |src.text| && ReadsPlainly(src, RegexAllowed(toks), pos)
      requires Follows(floor, now) && (src.text[pos] == '}' && braces != [] ==> |braces| > |floor.braces|)
      modifies this
      ensures r.None? ==> src.text[pos] == '}' && braces == [] && GoodAt(pos) && now == old(now)
      ensures r.Some? ==> pos < r.value <= |src.text| && GoodAt(r.value) && Follows(floor, now)
      ensures now.unread == old(now.unread)
    {
      var read := MatchToken(pos, RegexAllowed(toks));
      if read.Gap? {
        GapStep(src, floor, now, line, pos, read.end);
        now := WithGap(now, pos, read.end);
        line := line + Newlines(src.text[pos..read.end]);
      } else if read.kind.Punct? {
        var ok := Punctuation(read.text, pos, floor);
        if !ok { return None; }
      } else {
        PushWhole(pos, read.end, read.kind, read.text, floor);
      }
      return Some(read.end);
    }

    /** The match of the token pattern. */
    method MatchToken(pos: nat, ghost regex: bool) returns (read: Reading)
      requires pos < |src.text| && ReadsPlainly(src, regex, pos)
      ensures Reads(src, regex, pos, read) && (read.Gap? || read.Whole?) && pos < read.end <= |src.text|
      ensures read.Whole? && read.kind.Punct? ==> read.text == src.text[pos..pos+1] && read.end == pos + 1
      ensures read.Whole? ==> !read.kind.Template?
    {
      read := Plain(src, pos);
      ReadsPlainlyMeans(src, regex, pos);
      ReadsMeans(src, regex, pos, read);
    }

    /** A token that is no punctuation, and the newlines in it. */
    method PushWhole(pos: nat, end: nat, kind: Kind, text: string, ghost floor: LexState)
      requires GoodAt(pos) && pos < |src.text| && pos < end <= |src.text| && Follows(floor, now)
      requires Reads(src, RegexAllowed(toks), pos, Whole(kind, text, end)) && !kind.Template? && !kind.Punct?
      modifies this`toks, this`line, this`now
      ensures GoodAt(end) && Follows(floor, now) && now.unread == old(now.unread)
    {
      WholeStep(src, floor, now, line, pos, end, kind, text);
      Push(kind, text, pos, end);
      line := line + Newlines(src.text[pos..end]);
    }

    method Punctuation(value: string, ghost pos: nat, ghost floor: LexState) returns (ok: bool)
      requires GoodAt(pos) && pos < |src.text| && Reads(src, RegexAllowed(toks), pos, Whole(Punct, value, pos + 1))
      requires Follows(floor, now) && (value == "}" && braces != [] ==> |braces| > |floor.braces|)
      requires value == src.text[pos..pos+1]
      modifies this`toks, this`braces, this`closes, this`line, this`now
      ensures ok <==> !(value == "}" && old(braces) == [])
      ensures ok ==> GoodAt(pos + 1) && Follows(floor, now) && now.unread == old(now.unread)
      ensures !ok ==> GoodAt(pos) && now == old(now) && braces == []
    {
      if value == "}" && braces == [] { return false; }
      ghost var after := PunctStep(src, floor, now, line, pos);
      if value == "{" {
        Push(Punct, value, pos, pos + 1);
        braces := braces + [|toks| - 1];
        now, line := after, line + Newlines(value);
        return true;
      }
      if value == "}" {
        closes := closes[braces[|braces|-1] := |toks|];
        braces := braces[..|braces|-1];
        now := now.(closes := closes, braces := braces);
      }
      Push(Punct, value, pos, pos + 1);
      now, line := after, line + Newlines(value);
      return true;
    }

    /** A template literal from just after its backtick; its holes' code is tokenized after it. */
    method TemplateLiteral(start: nat, ghost floor: LexState) returns (r: Option<nat>)
      requires 0 < start <= |src.text| && src.text[start-1] == '`' && GoodAt(start - 1) && Follows(floor, now)
      modifies this
      ensures r.None? ==> GaveUp()
      ensures r.Some? ==> start < r.value <= |src.text| && GoodAt(r.value) && Follows(floor, now)
      ensures r.Some? ==> now.unread == old(now.unread) && braces == old(braces)
      decreases |src.text| + 1 - start, 2
    {
      var index, begun := |toks|, line;
      ghost var before := now;
      BeginTemplate(start);
      r := TemplateParts(start, index, begun, before, floor);
    }

    /** The parts of the template whose token is at `index`, and the code of the holes between them. */
    method TemplateParts(start: nat, index: nat, begun: int, ghost before: LexState, ghost floor: LexState)
      returns (r: Option<nat>)
      requires start <= |src.text| && line == LineAt(src, start) && Valid()
      requires InTemplate(src, before, now, begun, start, [], 0) && index == |before.toks| && Follows(floor, before)
      modifies this
      ensures r.None? ==> GaveUp()
      ensures r.Some? ==> start < r.value <= |src.text| && GoodAt(r.value) && Follows(floor, now)
      ensures r.Some? ==> now.unread == before.unread && braces == before.braces
      decreases |src.text| + 1 - start, 1
    {
      var pos, count := start, 0;
      var parts: seq<string> := [];
      while true
        invariant start <= pos <= |src.text| && line == LineAt(src, pos) && Valid()
        invariant InTemplate(src, before, now, begun, pos, parts, count)
        decreases |src.text| - pos
      {
        ghost var was := pos;
        var piece, e := ReadPart(pos, before, begun, parts, count);
        parts, pos := parts + [piece], e;
        if pos >= |src.text| {
          blamed := begun;
          return None;
        }
        if src.text[pos] == '`' {
          r := FillTemplate(index, parts, begun, count, pos, before, was, floor);
          return;
        }
        count := count + 1;
        parts := parts + [HOLE];
        var next := HoleCode(pos, before, begun, was, parts, count);
        if next.None? { return None; }
        pos := next.value;
      }
    }

    /** One part of the template's text, up to the backtick, hole or end of text at `e`. */
    method ReadPart(pos: nat, ghost before: LexState, ghost begun: int, ghost parts: seq<string>, ghost count: nat)
      returns (piece: string, e: nat)
      requires Valid() && pos <= |src.text| && line == LineAt(src, pos)
      requires InTemplate(src, before, now, begun, pos, parts, count)
      modifies this`line
      ensures Valid() && pos <= e <= |src.text| && line == LineAt(src, e)
      ensures e == |src.text| ==> Halted(src, now, line, begun)
      ensures e < |src.text| ==> src.text[e] in "`$\\"
      ensures e < |src.text| && src.text[e] == '$' ==> e + 1 < |src.text| && src.text[e+1] == '{'
      ensures e < |src.text| && src.text[e] == '\\' ==> e + 1 == |src.text|
      ensures e < |src.text| && src.text[e] == '`' ==> InPart(src, before, now, begun, pos, e, parts + [piece], count)
      ensures e < |src.text| && src.text[e] != '`' ==>
        InPart(src, before, now, begun, pos, e, parts + [piece] + [HOLE], count + 1)
    {
      e := TemplateTextEnd(src.text, pos);
      PartSeen(src, before, now, line, begun, pos, parts, count);
      piece := Unescape(src.text[pos..e]);
      line := line + Newlines(src.text[pos..e]);
    }

    /** The template's token, its text not yet known. */
    method BeginTemplate(start: nat)
      requires 0 < start <= |src.text| && src.text[start-1] == '`' && GoodAt(start - 1)
      modifies this`toks, this`now
      ensures Valid() && line == LineAt(src, start) && InTemplate(src, old(now), now, line, start, [], 0)
    {
      ghost var begun := Begun(now, line, start - 1, PartEnd(src.text, start));
      TemplateBegins(src, now, line, start, begun);
      Push(Template, "", start - 1, PartEnd(src.text, start));
      assert toks == begun.toks && braces == begun.braces && closes == begun.closes;
      now := begun;
    }

    /** The code of the hole at `pos`, `parts` and `count` being what the template has told with it. */
    method HoleCode(pos: nat, ghost before: LexState, ghost begun: int, ghost was: nat,
                    ghost parts: seq<string>, ghost count: nat) returns (r: Option<nat>)
      requires pos < |src.text| && src.text[pos] != '`' && line == LineAt(src, pos)
      requires src.text[pos] != '\n' && (pos + 1 < |src.text| ==> src.text[pos+1] != '\n')
      requires Valid() && InPart(src, before, now, begun, was, pos, parts, count)
      modifies this
      ensures r.None? ==> GaveUp()
      ensures r.Some? ==> pos < r.value <= |src.text| && line == LineAt(src, r.value) && Valid()
      ensures r.Some? ==> InTemplate(src, before, now, begun, r.value, parts, count)
      decreases |src.text| + 1 - pos, 0
    {
      ghost var here := now;
      PartFacts(src, before, here, begun, was, pos, parts, count);
      HoleLine(src, pos);
      r := Code(pos + 2, true);
      if r.None? { return; }
      SameLine(src, r.value - 1);
      TemplateGoesOn(src, before, here, now, begun, was, pos, parts, count, r.value);
      now := GoneOn(src, here, now, |before.toks|, r.value);
    }

    /** The template's last part ends at `pos`: its token gets its text. */
    method FillTemplate(index: nat, parts: seq<string>, begun: int, count: nat, pos: nat, ghost before: LexState,
                        ghost was: nat, ghost floor: LexState) returns (r: Option<nat>)
      requires pos < |src.text| && src.text[pos] == '`' && line == LineAt(src, pos) && Follows(floor, before)
      requires Valid() && InPart(src, before, now, begun, was, pos, parts, count) && index == |before.toks|
      modifies this`toks, this`now
      ensures r == Some(pos + 1) && GoodAt(r.value) && Follows(floor, now)
      ensures now.unread == before.unread && braces == before.braces
    {
      PartFacts(src, before, now, begun, was, pos, parts, count);
      SameLine(src, pos);
      var tok := Tok(Template, Join(parts), begun, toks[index].block, count);
      TemplateEnds(src, before, now, begun, was, pos, parts, count, tok);
      toks := toks[index := tok];
      now := Filled(now, index, tok);
      FollowsTransitive(floor, before, now);
      r := Some(pos + 1);
    }

    method Push(kind: Kind, text: string, ghost start: nat, ghost end: nat)
      requires Valid()
      modifies this`toks, this`now
      ensures Valid() && now == Laid(WithTok(old(now), TokHere(old(now), kind, text, line)), start, end)
      ensures toks == old(toks) + [Tok(kind, text, line, Block(braces), 0)]
    {
      now := Laid(WithTok(now, TokHere(now, kind, text, line)), start, end);
      toks := toks + [Tok(kind, text, line, Block(braces), 0)];
    }
  }

  // ------------------------------------------------------------------- steps

  lemma PartSeen(src: Source, before: LexState, s: LexState, line: int, begun: int, pos: nat, parts: seq<string>,
                 count: nat)
    requires pos <= |src.text| && InTemplate(src, before, s, begun, pos, parts, count) && line == LineAt(src, pos)
    ensures var e := TemplateTextEnd(src.text, pos);
      && line + Newlines(src.text[pos..e]) == LineAt(src, e)
      && (e == |src.text| ==> Halted(src, s, LineAt(src, e), begun))
      && InPart(src, before, s, begun, pos, e, MoreParts(src.text, pos, e, parts), MoreHoles(src.text, e, count))
  {
    var e := TemplateTextEnd(src.text, pos);
    PartIn(src, before, s, begun, pos, parts, count);
    LineMoves(src, pos, e);
    if e == |src.text| {
      TemplateUnclosed(src, before, s, begun, pos, MoreParts(src.text, pos, e, parts), MoreHoles(src.text, e, count));
    }
  }

  /** The state after a punctuation character. */
  lemma PunctStep(src: Source, floor: LexState, s: LexState, line: int, pos: nat) returns (after: LexState)
    requires Good(src, s, line, pos) && pos < |src.text| && Follows(floor, s)
    requires Reads(src, RegexAllowed(s.toks), pos, Whole(Punct, src.text[pos..pos+1], pos + 1))
    requires src.text[pos..pos+1] == "}" ==> s.braces != [] && |s.braces| > |floor.braces|
    ensures Good(src, after, line + Newlines(src.text[pos..pos+1]), pos + 1) && Follows(floor, after)
    ensures var value := src.text[pos..pos+1];
      after == (if value == "{" then Laid(Opened(s, TokHere(s, Punct, value, line)), pos, pos + 1)
                else if value == "}" then Laid(Closed(s, BraceHere(s, line)), pos, pos + 1)
                else Laid(WithTok(s, TokHere(s, Punct, value, line)), pos, pos + 1))
    ensures after.unread == s.unread
  {
    var value := src.text[pos..pos+1];
    if value == "{" {
      OpenStep(src, floor, s, line, pos);
      after := Laid(Opened(s, TokHere(s, Punct, value, line)), pos, pos + 1);
    } else if value == "}" {
      CloseStep(src, floor, s, line, pos);
      after := Laid(Closed(s, BraceHere(s, line)), pos, pos + 1);
    } else {
      WholeStep(src, floor, s, line, pos, pos + 1, Punct, value);
      after := Laid(WithTok(s, TokHere(s, Punct, value, line)), pos, pos + 1);
    }
  }

  /** The lexer stands within the text, or at its end with a hole open, and blames its own line. */
  lemma HaltedHere(src: Source, s: LexState, line: int, pos: nat)
    requires Good(src, s, line, pos) && Blocked(src, s, pos)
    requires pos < |src.text| || (s.unread != [] && pos <= |src.text| + 1)
    ensures Halted(src, s, line, line)
  {
    HaltedAt(src, s, line, pos);
  }

  lemma StringNeverCloses(src: Source, s: LexState, line: int, pos: nat)
    requires Good(src, s, line, pos) && pos < |src.text|
    requires src.text[pos] in "\"'" && StringEnd(src.text, pos).None?
    ensures Halted(src, s, line, line)
  {
    OneSign(src.text, pos);
    HaltedHere(src, s, line, pos);
  }

  lemma CommentNeverCloses(src: Source, s: LexState, line: int, pos: nat)
    requires Good(src, s, line, pos) && pos < |src.text|
    requires At(src.text, pos, "/*") && CommentClose(src.text, pos + 2).None?
    ensures Halted(src, s, line, line)
  {
    OneSign(src.text, pos);
    HaltedHere(src, s, line, pos);
  }

  lemma NothingToClose(src: Source, s: LexState, line: int, pos: nat)
    requires Good(src, s, line, pos) && pos < |src.text|
    requires src.text[pos] == '}' && s.braces == [] && s.unread == []
    ensures Halted(src, s, line, line)
  {
    HaltedHere(src, s, line, pos);
  }

  lemma HoleNeverCloses(src: Source, s: LexState, line: int, pos: nat)
    requires Good(src, s, line, pos) && s.unread != [] && |src.text| <= pos <= |src.text| + 1
    ensures Halted(src, s, line, line)
  {
    HaltedHere(src, s, line, pos);
  }

  predicate LookPlain(pos: nat, u: int) { true }

  /** Only the token pattern applies; folded like `Sound`. */
  ghost predicate ReadsPlainly(src: Source, regex: bool, pos: nat) {
    forall u: int {:trigger LookPlain(pos, u)} :: LookPlain(pos, u) ==>
      pos < |src.text| && ReadAt(src, regex, pos) == Plain(src, pos)
  }

  lemma ReadsPlainlyMeans(src: Source, regex: bool, pos: nat)
    ensures ReadsPlainly(src, regex, pos) <==> pos < |src.text| && ReadAt(src, regex, pos) == Plain(src, pos)
  {
    assert LookPlain(pos, 0);
  }

  lemma NothingSpecial(src: Source, regex: bool, pos: nat)
    requires pos < |src.text| && src.text[pos] != '`' && !At(src.text, pos, "/*")
    requires src.text[pos] == '/' && !At(src.text, pos, "//") && regex ==> RegexEnd(src.text, pos).None?
    requires src.text[pos] in "\"'" ==> StringEnd(src.text, pos).Some?
    ensures ReadsPlainly(src, regex, pos)
  {
    ReadsPlainlyMeans(src, regex, pos);
  }

  lemma CommentReads(src: Source, regex: bool, pos: nat, close: nat)
    requires pos < |src.text| && At(src.text, pos, "/*") && CommentClose(src.text, pos + 2) == Some(close)
    ensures Reads(src, regex, pos, Gap(close + 2))
  {
    OneSign(src.text, pos);
    ReadsMeans(src, regex, pos, Gap(close + 2));
  }

  lemma CommentStep(src: Source, floor: LexState, s: LexState, line: int, pos: nat, close: nat)
    requires Good(src, s, line, pos) && pos < |src.text| && Follows(floor, s)
    requires At(src.text, pos, "/*") && CommentClose(src.text, pos + 2) == Some(close)
    ensures Good(src, WithGap(s, pos, close + 2), line + Newlines(src.text[pos..close]), close + 2)
    ensures Follows(floor, WithGap(s, pos, close + 2))
  {
    CommentReads(src, RegexAllowed(s.toks), pos, close);
    GapStep(src, floor, s, line, pos, close + 2);
    CommentLines(src.text, pos, close);
  }

  lemma RegexReads(src: Source, pos: nat, end: nat)
    requires pos < |src.text| && src.text[pos] == '/' && !At(src.text, pos, "/*") && !At(src.text, pos, "//")
    requires RegexEnd(src.text, pos) == Some(end)
    ensures Reads(src, true, pos, Whole(Regex, src.text[pos..end], end))
  {
    ReadsMeans(src, true, pos, Whole(Regex, src.text[pos..end], end));
  }

  /** A comment starts with a slash. */
  lemma OneSign(text: string, pos: nat)
    requires pos < |text|
    ensures At(text, pos, "/*") ==> text[pos] == '/'
  {
    assert pos + 2 <= |text| ==> text[pos] == text[pos..pos+2][0];
  }

  lemma BraceNeverCloses(src: Source, s: LexState, line: int)
    requires Good(src, s, line, |src.text|) && s.braces != [] && s.unread == []
    ensures s.braces[|s.braces|-1] < |s.toks| && Halted(src, s, line, s.toks[s.braces[|s.braces|-1]].line)
  {
    OpenBracesExist(src, s, |src.text|);
    HaltedAt(src, s, line, |src.text|);
  }

  lemma OpenBracesExist(src: Source, s: LexState, pos: nat)
    requires Sound(src, s, pos) && s.braces != []
    ensures s.braces[|s.braces|-1] < |s.toks|
  {
    SoundMeans(src, s, pos);
  }

  lemma NothingIsGood(src: Source)
    ensures Good(src, NOTHING, src.line, 0)
  {
    NothingMatched();
    NothingFaithful(src);
    SoundMeans(src, NOTHING, 0);
  }

  lemma NothingMatched()
    ensures Matched(NOTHING)
  {}

  lemma NothingFaithful(src: Source)
    ensures Faithful(src, NOTHING, 0)
  {}

  /** The end of a comment holds no newline. */
  lemma CommentLines(text: string, pos: nat, close: nat)
    requires pos <= close && close + 2 <= |text| && text[close] == '*' && text[close+1] == '/'
    ensures Newlines(text[pos..close+2]) == Newlines(text[pos..close])
  {
    NewlinesConcat(text[pos..close], text[close..close+2]);
    assert text[pos..close+2] == text[pos..close] + text[close..close+2];
    NoNewlines(text[close..close+2]);
  }

  /** Neither `${` nor a last backslash holds a newline. */
  lemma HoleLine(src: Source, pos: nat)
    requires pos < |src.text| && src.text[pos] != '\n' && (pos + 1 < |src.text| ==> src.text[pos+1] != '\n')
    ensures LineAt(src, pos + 2) == LineAt(src, pos)
  {
    SameLine(src, pos);
    if pos + 1 < |src.text| {
      SameLine(src, pos + 1);
    } else {
      assert src.text[..pos+1] == src.text;
    }
  }

  // ------------------------------------------------------- what success means

  /** What `Lex` leaves when it succeeds. */
  ghost predicate Done(src: Source, s: LexState) { Sound(src, s, |src.text|) && s.braces == [] && s.unread == [] }

  /** `closes` is a bijection from all the `{` tokens to all the `}` tokens, and well-nested. */
  lemma BracesArePaired(src: Source, s: LexState)
    requires Done(src, s)
    ensures forall i :: i in s.closes <==> 0 <= i < |s.toks| && IsOpen(s.toks[i])
    ensures forall j: nat :: Closing(s.closes, j) <==> j < |s.toks| && IsClose(s.toks[j])
    ensures forall i, j :: i in s.closes && j in s.closes && s.closes[i] == s.closes[j] ==> i == j
    ensures forall i, j :: i in s.closes && j in s.closes && i < j < s.closes[i] ==> s.closes[j] < s.closes[i]
  {
    SoundMeans(src, s, |src.text|);
    PairingIsComplete(s);
  }

  lemma PairingIsComplete(s: LexState)
    requires OpenBraces(s) && Pairing(s) && s.braces == []
    ensures forall i :: i in s.closes <==> 0 <= i < |s.toks| && IsOpen(s.toks[i])
    ensures forall j: nat :: Closing(s.closes, j) <==> j < |s.toks| && IsClose(s.toks[j])
  {}

  /** A token's block is the innermost pair around it, or -1 when no pair is around it. */
  lemma BlocksAreInnermost(src: Source, s: LexState, t: nat)
    requires Done(src, s) && t < |s.toks|
    ensures var b := s.toks[t].block;
      && (b == -1 ==> forall i <- s.closes :: !(i < t < s.closes[i]))
      && (b != -1 ==> b in s.closes && b < t < s.closes[b])
      && (b != -1 ==> forall i <- s.closes :: i < t < s.closes[i] ==> i <= b && s.closes[b] <= s.closes[i])
  {
    SoundMeans(src, s, |src.text|);
    BlockIsInnermost(s, t);
  }

  lemma BlockIsInnermost(s: LexState, t: nat)
    requires OpenBraces(s) && Pairing(s) && Nested(s) && s.braces == [] && t < |s.toks| && BlockOk(s, t)
    ensures var b := s.toks[t].block;
      && (b == -1 ==> forall i <- s.closes :: !(i < t < s.closes[i]))
      && (b != -1 ==> b in s.closes && b < t < s.closes[b])
      && (b != -1 ==> forall i <- s.closes :: i < t < s.closes[i] ==> i <= b && s.closes[b] <= s.closes[i])
  {
    PairingIsComplete(s);
    var b := s.toks[t].block;
    assert b != -1 ==> Encloses(s, b, t);
    forall i <- s.closes | i < t < s.closes[i] ensures i <= b && (i < b ==> s.closes[b] < s.closes[i]) {
      assert Encloses(s, i, t);
    }
  }

  /** Each token's line is the start line plus the newlines before it, and a template tells its parts. */
  lemma LinesAreTrue(src: Source, s: LexState, i: nat)
    requires Done(src, s) && i < |s.toks|
    ensures |s.first| == |s.toks| && s.first[i] < |s.tiles| && s.tiles[s.first[i]].start < |src.text|
    ensures s.toks[i].line == src.line + Newlines(src.text[..s.tiles[s.first[i]].start])
    ensures s.toks[i].kind.Template? ==> (s.toks[i].text, s.toks[i].holes) == Told(src.text, s.tiles, i)
  {
    SoundMeans(src, s, |src.text|);
    assert Explained(src, s, s.first[i]);
  }

  /** A pair of braces is wholly inside or wholly outside the hole before a template's further part. */
  lemma HolesAreSealed(src: Source, s: LexState, k: nat) returns (j: nat)
    requires Done(src, s) && k < |s.tiles| && s.tiles[k].tok >= 0 && |s.first| == |s.toks|
    requires s.tiles[k].tok < |s.toks| && s.first[s.tiles[k].tok] != k
    ensures j < k && s.tiles[j].tok == s.tiles[k].tok && forall m :: j < m < k ==> s.tiles[m].tok != s.tiles[k].tok
    ensures forall i <- s.closes :: i < s.closes[i] < |s.first|
    ensures forall i <- s.closes :: j < s.first[i] < k <==> j < s.first[s.closes[i]] < k
  {
    SoundMeans(src, s, |src.text|);
    assert Ends(s.holes, k);
    var h :| h in s.holes && h.after == k;
    j := h.before;
    assert Between(s, h) && Sealed(s.closes, s.braces, h);
    forall i <- s.closes ensures j < s.first[i] < k <==> j < s.first[s.closes[i]] < k {
      assert InHole(h, i) <==> InHole(h, s.closes[i]);
      assert InHole(h, i) <==> j < s.first[i] < k;
      assert InHole(h, s.closes[i]) <==> j < s.first[s.closes[i]] < k;
    }
  }

  /** The text that the tiles cover, in order. */
  function Spelled(text: string, tiles: seq<Tile>): string {
    if tiles == [] then ""
    else
      var last := tiles[|tiles|-1];
      Spelled(text, tiles[..|tiles|-1]) + (if last.start <= last.end <= |text| then text[last.start..last.end] else "")
  }

  lemma {:induction false} ChainSpells(text: string, tiles: seq<Tile>, pos: nat)
    requires Chain(tiles, pos) && pos <= |text|
    ensures Spelled(text, tiles) == text[..pos]
    decreases |tiles|
  {
    if tiles != [] {
      var last, rest := tiles[|tiles|-1], tiles[..|tiles|-1];
      if rest != [] { assert rest[|rest|-1].end == tiles[|rest|].start; }
      ChainSpells(text, rest, last.start);
      assert text[..last.start] + text[last.start..pos] == text[..pos];
    }
  }

  /** Nothing of the text is skipped or read twice. */
  lemma TilesSpellTheText(src: Source, s: LexState)
    requires Done(src, s)
    ensures Spelled(src.text, s.tiles) == src.text
  {
    SoundMeans(src, s, |src.text|);
    ChainSpells(src.text, s.tiles, |src.text|);
    assert src.text[..|src.text|] == src.text;
  }
}
