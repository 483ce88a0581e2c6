/** Word error rate (scripts/bench_voice.py).

    `Wer` is the rolling-row dynamic program of the source. It is proved against the
    minimum cost over every edit script, and the distance it computes is shown to be
    a metric. `Normalise` is proved to be a projection onto clean word lists. */
module WordErrorRate {
  import Basics

  type Word = string

  // ----------------------------------------------------------- edit scripts

  datatype Edit =
    | Keep(word: Word)
    | Substitute(from: Word, to: Word)
    | Delete(word: Word)
    | Insert(word: Word)

  /** What one edit reads from the reference. */
  function Reads(e: Edit): seq<Word> {
    match e
    case Keep(w) => [w]
    case Substitute(v, _) => [v]
    case Delete(w) => [w]
    case Insert(_) => []
  }

  /** What one edit writes to the hypothesis. */
  function Writes(e: Edit): seq<Word> {
    match e
    case Keep(w) => [w]
    case Substitute(_, w) => [w]
    case Delete(_) => []
    case Insert(w) => [w]
  }

  function Price(e: Edit): nat { if e.Keep? then 0 else 1 }

  function Source(s: seq<Edit>): seq<Word> {
    if s == [] then [] else Source(s[..|s|-1]) + Reads(s[|s|-1])
  }

  function Target(s: seq<Edit>): seq<Word> {
    if s == [] then [] else Target(s[..|s|-1]) + Writes(s[|s|-1])
  }

  function Cost(s: seq<Edit>): nat {
    if s == [] then 0 else Cost(s[..|s|-1]) + Price(s[|s|-1])
  }

  ghost predicate Rewrites(s: seq<Edit>, r: seq<Word>, h: seq<Word>) {
    Source(s) == r && Target(s) == h
  }

  /** `d` is the least cost of any script that turns `r` into `h`. */
  ghost predicate IsDistance(r: seq<Word>, h: seq<Word>, d: nat) {
    && (exists s :: Rewrites(s, r, h) && Cost(s) == d)
    && (forall s :: Rewrites(s, r, h) ==> d <= Cost(s))
  }

  lemma SnocScript(s: seq<Edit>, e: Edit)
    ensures Source(s + [e]) == Source(s) + Reads(e)
    ensures Target(s + [e]) == Target(s) + Writes(e)
    ensures Cost(s + [e]) == Cost(s) + Price(e)
  {
    assert (s + [e])[..|s|] == s;
  }

  // ------------------------------------------------------ the recurrence

  function Min(a: nat, b: nat): nat { if a <= b then a else b }

  function Dist(r: seq<Word>, h: seq<Word>): nat
    decreases |r| + |h|
  {
    if r == [] then |h|
    else if h == [] then |r|
    else
      var r', h' := r[..|r|-1], h[..|h|-1];
      Min(Min(Dist(r', h) + 1, Dist(r, h') + 1), Dist(r', h') + if r[|r|-1] == h[|h|-1] then 0 else 1)
  }

  /** A script for all but what the last edit handles, followed by that edit. */
  lemma {:induction false} CheapestScript(r: seq<Word>, h: seq<Word>) returns (s: seq<Edit>)
    ensures Rewrites(s, r, h) && Cost(s) == Dist(r, h)
    decreases |r| + |h|
  {
    if r == [] && h == [] {
      s := [];
    } else {
      var e, r', h' := LastEdit(r, h);
      s := CheapestScript(r', h');
      SnocScript(s, e);
      s := s + [e];
    }
  }

  lemma LastEdit(r: seq<Word>, h: seq<Word>) returns (e: Edit, r': seq<Word>, h': seq<Word>)
    requires r != [] || h != []
    ensures r == r' + Reads(e) && h == h' + Writes(e)
    ensures |r'| + |h'| < |r| + |h|
    ensures Dist(r, h) == Dist(r', h') + Price(e)
  {
    if r == [] || (h != [] && Dist(r, h) == Dist(r, h[..|h|-1]) + 1) {
      e, r', h' := Insert(h[|h|-1]), r, h[..|h|-1];
    } else if h == [] || Dist(r, h) == Dist(r[..|r|-1], h) + 1 {
      e, r', h' := Delete(r[|r|-1]), r[..|r|-1], h;
    } else {
      r', h' := r[..|r|-1], h[..|h|-1];
      e := if r[|r|-1] == h[|h|-1] then Keep(r[|r|-1]) else Substitute(r[|r|-1], h[|h|-1]);
    }
  }

  lemma {:induction false} NoScriptIsCheaper(s: seq<Edit>)
    ensures Dist(Source(s), Target(s)) <= Cost(s)
  {
    if s != [] {
      NoScriptIsCheaper(s[..|s|-1]);
      OneEditMore(Source(s[..|s|-1]), Target(s[..|s|-1]), s[|s|-1]);
    }
  }

  lemma OneEditMore(r: seq<Word>, h: seq<Word>, e: Edit)
    ensures Dist(r + Reads(e), h + Writes(e)) <= Dist(r, h) + Price(e)
  {
    if e.Delete? {
      assert (r + [e.word])[..|r|] == r && h + [] == h;
    } else if e.Insert? {
      assert (h + [e.word])[..|h|] == h && r + [] == r;
    } else {
      assert (r + Reads(e))[..|r|] == r && (h + Writes(e))[..|h|] == h;
    }
  }

  /** The recurrence is the optimum over all scripts, for every pair of word lists. */
  lemma DistIsDistance(r: seq<Word>, h: seq<Word>)
    ensures IsDistance(r, h, Dist(r, h))
  {
    var s := CheapestScript(r, h);
    forall s | Rewrites(s, r, h) ensures Dist(r, h) <= Cost(s) {
      NoScriptIsCheaper(s);
    }
  }

  // ------------------------------------------------------------- the metric

  function Flip(e: Edit): (f: Edit)
    ensures Reads(f) == Writes(e) && Writes(f) == Reads(e) && Price(f) == Price(e)
  {
    match e
    case Keep(w) => Keep(w)
    case Substitute(v, w) => Substitute(w, v)
    case Delete(w) => Insert(w)
    case Insert(w) => Delete(w)
  }

  lemma {:induction false} FlipScript(s: seq<Edit>) returns (t: seq<Edit>)
    ensures Source(t) == Target(s) && Target(t) == Source(s) && Cost(t) == Cost(s)
  {
    if s == [] {
      t := [];
    } else {
      var init, last := s[..|s|-1], s[|s|-1];
      var flipped := FlipScript(init);
      SnocScript(flipped, Flip(last));
      t := flipped + [Flip(last)];
      assert Source(s) == Source(init) + Reads(last) && Target(s) == Target(init) + Writes(last);
    }
  }

  /** One edit does what two do, when the first writes the word that the second reads. */
  function Merged(d: Edit, e: Edit): (f: Edit)
    requires !d.Delete? && !e.Insert? && Writes(d) == Reads(e) && !(d.Insert? && e.Delete?)
    ensures Reads(f) == Reads(d) && Writes(f) == Writes(e) && Price(f) <= Price(d) + Price(e)
  {
    if d.Insert? then Insert(Writes(e)[0])
    else if e.Delete? then Delete(Reads(d)[0])
    else if d.Keep? && e.Keep? then Keep(d.word)
    else Substitute(Reads(d)[0], Writes(e)[0])
  }

  lemma SameLast(m: seq<Word>, x: seq<Word>, n: seq<Word>, y: seq<Word>)
    requires m + x == n + y && |x| == |y|
    ensures m == n && x == y
  {
    assert m == (m + x)[..|m|] && n == (n + y)[..|n|];
    assert x == (m + x)[|m|..] && y == (n + y)[|n|..];
  }

  lemma ComposeLast(u: seq<Edit>, d: Edit, e: Edit) returns (v: seq<Edit>)
    requires !d.Delete? && !e.Insert? && Writes(d) == Reads(e)
    ensures Source(v) == Source(u) + Reads(d) && Target(v) == Target(u) + Writes(e)
    ensures Cost(v) <= Cost(u) + Price(d) + Price(e)
  {
    if d.Insert? && e.Delete? {
      v := u;
    } else {
      SnocScript(u, Merged(d, e));
      v := u + [Merged(d, e)];
    }
  }

  /** Two scripts that meet in the middle compose, at no more than their total cost. */
  lemma {:induction false} ComposeScripts(s: seq<Edit>, t: seq<Edit>) returns (u: seq<Edit>)
    requires Target(s) == Source(t)
    ensures Source(u) == Source(s) && Target(u) == Target(t) && Cost(u) <= Cost(s) + Cost(t)
    decreases |s| + |t|
  {
    if s != [] && s[|s|-1].Delete? {
      u := ComposeScripts(s[..|s|-1], t);
      SnocScript(u, s[|s|-1]);
      u := u + [s[|s|-1]];
    } else if t != [] && t[|t|-1].Insert? {
      u := ComposeScripts(s, t[..|t|-1]);
      SnocScript(u, t[|t|-1]);
      u := u + [t[|t|-1]];
    } else if s == [] || t == [] {
      u := [];
    } else {
      var d, e := s[|s|-1], t[|t|-1];
      SameLast(Target(s[..|s|-1]), Writes(d), Source(t[..|t|-1]), Reads(e));
      u := ComposeScripts(s[..|s|-1], t[..|t|-1]);
      u := ComposeLast(u, d, e);
    }
  }

  lemma {:induction false} DistanceIsSymmetric(r: seq<Word>, h: seq<Word>)
    ensures Dist(r, h) == Dist(h, r)
  {
    var s := CheapestScript(r, h);
    s := FlipScript(s);
    NoScriptIsCheaper(s);
    var t := CheapestScript(h, r);
    t := FlipScript(t);
    NoScriptIsCheaper(t);
  }

  lemma {:induction false} TriangleInequality(a: seq<Word>, b: seq<Word>, c: seq<Word>)
    ensures Dist(a, c) <= Dist(a, b) + Dist(b, c)
  {
    var s := CheapestScript(a, b);
    var t := CheapestScript(b, c);
    var u := ComposeScripts(s, t);
    NoScriptIsCheaper(u);
  }

  lemma {:induction false} DistanceBounds(r: seq<Word>, h: seq<Word>)
    ensures |r| - |h| <= Dist(r, h) && |h| - |r| <= Dist(r, h)
    ensures Dist(r, h) <= |r| || Dist(r, h) <= |h|
    decreases |r| + |h|
  {
    if r != [] && h != [] {
      DistanceBounds(r[..|r|-1], h);
      DistanceBounds(r, h[..|h|-1]);
      DistanceBounds(r[..|r|-1], h[..|h|-1]);
    }
  }

  lemma {:induction false} ZeroMeansEqual(r: seq<Word>, h: seq<Word>)
    ensures Dist(r, h) == 0 <==> r == h
    decreases |r| + |h|
  {
    if r != [] && h != [] {
      ZeroMeansEqual(r[..|r|-1], h[..|h|-1]);
      assert r == r[..|r|-1] + [r[|r|-1]] && h == h[..|h|-1] + [h[|h|-1]];
    }
  }

  // ---------------------------------------------------------- normalisation

  const FILLERS: set<Word> := {"uh", "um", "uhh", "umm", "hmm", "mm", "mhm", "eh", "ah"}

  predicate IsWordChar(c: char) { 'a' <= c <= 'z' || '0' <= c <= '9' }

  /** Lower-casing as far as `[a-z0-9]` can tell: besides A-Z only the Kelvin sign and the
      dotted capital I lower to a word character, the latter followed by a combining mark. */
  function LowerChar(c: char): string {
    if 'A' <= c <= 'Z' then [c - 'A' + 'a']
    else if c == '\U{212A}' then "k"
    else if c == '\U{0130}' then ['i', '\U{0307}']
    else [c]
  }

  function Lower(text: string): string {
    if text == "" then "" else LowerChar(text[0]) + Lower(text[1..])
  }

  function RunLength(text: string): (n: nat)
    ensures n <= |text|
    ensures forall i :: 0 <= i < n ==> IsWordChar(text[i])
    ensures n < |text| ==> !IsWordChar(text[n])
  {
    if text == "" || !IsWordChar(text[0]) then 0 else 1 + RunLength(text[1..])
  }

  /** Punctuation becomes a space and the text is split on whitespace: the maximal runs of word characters. */
  function Runs(text: string): seq<Word>
    decreases |text|
  {
    if text == "" then []
    else if !IsWordChar(text[0]) then Runs(text[1..])
    else var n := RunLength(text); [text[..n]] + Runs(text[n..])
  }

  function Drop(words: seq<Word>, fillers: set<Word>): seq<Word> {
    if words == [] then []
    else (if words[0] in fillers then [] else [words[0]]) + Drop(words[1..], fillers)
  }

  function Normalise(text: string): seq<Word> { Drop(Runs(Lower(text)), FILLERS) }

  /** The words a normalised text can hold. */
  predicate IsCleanWord(w: Word) {
    w != "" && (forall i :: 0 <= i < |w| ==> IsWordChar(w[i])) && w !in FILLERS
  }

  function Join(words: seq<Word>): string {
    if words == [] then "" else if |words| == 1 then words[0] else words[0] + " " + Join(words[1..])
  }

  lemma {:induction false} RunsAreRuns(text: string)
    ensures forall w <- Runs(text) :: w != "" && forall i :: 0 <= i < |w| ==> IsWordChar(w[i])
    decreases |text|
  {
    if text != "" {
      if IsWordChar(text[0]) { RunsAreRuns(text[RunLength(text)..]); } else { RunsAreRuns(text[1..]); }
    }
  }

  lemma {:induction false} DropKeeps(words: seq<Word>, fillers: set<Word>)
    ensures forall w <- Drop(words, fillers) :: w in words && w !in fillers
    ensures (forall w <- words :: w !in fillers) ==> Drop(words, fillers) == words
  {
    if words != [] {
      DropKeeps(words[1..], fillers);
      assert words == [words[0]] + words[1..];
    }
  }

  lemma NormalisedWordsAreClean(text: string)
    ensures forall w <- Normalise(text) :: IsCleanWord(w)
  {
    RunsAreRuns(Lower(text));
    DropKeeps(Runs(Lower(text)), FILLERS);
  }

  lemma {:induction false} LowerKeepsClean(text: string)
    requires forall i :: 0 <= i < |text| ==> IsWordChar(text[i]) || text[i] == ' '
    ensures Lower(text) == text
  {
    if text != "" {
      LowerKeepsClean(text[1..]);
    }
  }

  lemma {:induction false} RunOfWord(w: Word, rest: string)
    requires forall i :: 0 <= i < |w| ==> IsWordChar(w[i])
    requires rest == "" || rest[0] == ' '
    ensures RunLength(w + rest) == |w|
  {
    if w != "" {
      RunOfWord(w[1..], rest);
      assert (w + rest)[1..] == w[1..] + rest;
    }
  }

  lemma {:induction false} RunsOfJoin(words: seq<Word>)
    requires forall w <- words :: IsCleanWord(w)
    ensures Runs(Join(words)) == words
    ensures forall i :: 0 <= i < |Join(words)| ==> IsWordChar(Join(words)[i]) || Join(words)[i] == ' '
  {
    if words != [] {
      var w, rest := words[0], words[1..];
      assert IsCleanWord(w);
      RunsOfJoin(rest);
      var tail := if rest == [] then "" else " " + Join(rest);
      assert Join(words) == w + tail;
      RunOfWord(w, tail);
      assert (w + tail)[..|w|] == w && (w + tail)[|w|..] == tail;
      assert tail != "" ==> tail[1..] == Join(rest);
      assert words == [w] + rest;
    }
  }

  /** Normalising is a projection: its images are exactly the clean word lists, and
      normalising a joined image gives it back (the jargon search joins and compares images). */
  lemma NormaliseIsAProjection(words: seq<Word>)
    ensures (forall w <- words :: IsCleanWord(w)) ==> Normalise(Join(words)) == words
    ensures (exists text :: Normalise(text) == words) <==> forall w <- words :: IsCleanWord(w)
  {
    if forall w <- words :: IsCleanWord(w) {
      RunsOfJoin(words);
      LowerKeepsClean(Join(words));
      DropKeeps(words, FILLERS);
    }
    forall text | Normalise(text) == words ensures forall w <- words :: IsCleanWord(w) {
      NormalisedWordsAreClean(text);
    }
  }

  /** Alike but for the case of ASCII letters. */
  predicate SameLetter(a: char, b: char) {
    a == b || ('A' <= a <= 'Z' && b == a - 'A' + 'a') || ('A' <= b <= 'Z' && a == b - 'A' + 'a')
  }

  predicate SameLetters(a: string, b: string) { |a| == |b| && forall i :: 0 <= i < |a| ==> SameLetter(a[i], b[i]) }

  lemma {:induction false} LowerForgetsCase(a: string, b: string)
    requires SameLetters(a, b)
    ensures Lower(a) == Lower(b)
  {
    if a != "" {
      assert SameLetter(a[0], b[0]);
      LowerForgetsCase(a[1..], b[1..]);
    }
  }

  /** Texts that differ in the case of letters only are the same words. */
  lemma CaseIsIgnored(a: string, b: string)
    requires SameLetters(a, b)
    ensures Normalise(a) == Normalise(b)
  {
    LowerForgetsCase(a, b);
  }

  /** Lower-casing changes the case of ASCII letters and nothing else of an ASCII text. */
  lemma {:induction false} LowerChangesCaseOnly(text: string)
    requires forall i :: 0 <= i < |text| ==> text[i] < '\U{0080}'
    ensures SameLetters(text, Lower(text)) && forall i :: 0 <= i < |text| ==> !('A' <= Lower(text)[i] <= 'Z')
  {
    if text != "" {
      assert SameLetter(text[0], Lower(text)[0]);
      LowerChangesCaseOnly(text[1..]);
    }
  }

  /** `text[i..j]` is a longest stretch of word characters. */
  predicate RunAt(text: string, i: nat, j: nat) {
    && i < j <= |text| && (forall k :: i <= k < j ==> IsWordChar(text[k]))
    && (i > 0 ==> !IsWordChar(text[i-1])) && (j < |text| ==> !IsWordChar(text[j]))
  }

  datatype Place = Place(from: nat, to: nat)

  predicate Holds(text: string, p: Place, w: Word) { RunAt(text, p.from, p.to) && w == text[p.from..p.to] }

  ghost predicate OneAfterAnother(places: seq<Place>) {
    forall j, k :: 0 <= j < k < |places| ==> places[j].to <= places[k].from
  }

  /** The places are runs of the text, one after the other, and hold the words. */
  ghost predicate HeldAt(text: string, places: seq<Place>, words: seq<Word>) {
    && |places| == |words| && OneAfterAnother(places)
    && forall k :: 0 <= k < |places| ==> Holds(text, places[k], words[k])
  }

  lemma OneBeforeOthers(p: Place, places: seq<Place>)
    requires OneAfterAnother(places) && forall q <- places :: p.to <= q.from
    ensures OneAfterAnother([p] + places)
  {
    forall k | 0 <= k < |places| ensures p.to <= places[k].from { assert places[k] in places; }
  }

  lemma HeldCons(text: string, p: Place, w: Word, places: seq<Place>, words: seq<Word>)
    requires HeldAt(text, places, words) && Holds(text, p, w) && forall q <- places :: p.to <= q.from
    ensures HeldAt(text, [p] + places, [w] + words)
  {
    OneBeforeOthers(p, places);
  }

  /** No run goes across `from`. */
  predicate Between(text: string, from: nat) {
    from <= |text| && (0 < from < |text| ==> !IsWordChar(text[from-1]) || !IsWordChar(text[from]))
  }

  lemma FirstRun(text: string, from: nat) returns (to: nat)
    requires Between(text, from) && from < |text| && IsWordChar(text[from])
    ensures RunAt(text, from, to) && Between(text, to)
    ensures Runs(text[from..]) == [text[from..to]] + Runs(text[to..])
  {
    var rest := text[from..];
    var n := RunLength(rest);
    to := from + n;
    forall k | from <= k < to ensures IsWordChar(text[k]) { assert text[k] == rest[k-from]; }
    assert to < |text| ==> text[to] == rest[n];
    assert rest[n..] == text[to..] && rest[..n] == text[from..to];
  }

  lemma RunsDoNotOverlap(text: string, a: nat, b: nat, i: nat, j: nat)
    requires RunAt(text, a, b) && RunAt(text, i, j) && a <= i
    ensures (i == a && j == b) || b <= i
  {}

  lemma AllRunsFrom(text: string, a: nat, b: nat, later: seq<Place>)
    requires RunAt(text, a, b) && forall i: nat, j: nat :: b <= i && RunAt(text, i, j) ==> Place(i, j) in later
    ensures forall i: nat, j: nat :: a <= i && RunAt(text, i, j) ==> Place(i, j) in [Place(a, b)] + later
  {
    forall i: nat, j: nat | a <= i && RunAt(text, i, j) ensures Place(i, j) in [Place(a, b)] + later {
      RunsDoNotOverlap(text, a, b, i, j);
      Basics.InEither([Place(a, b)], later, Place(i, j));
    }
  }

  lemma {:induction false} RunsAreHeld(text: string, from: nat) returns (places: seq<Place>)
    requires Between(text, from)
    ensures HeldAt(text, places, Runs(text[from..])) && forall p <- places :: from <= p.from
    ensures forall i: nat, j: nat :: from <= i && RunAt(text, i, j) ==> Place(i, j) in places
    decreases |text| - from
  {
    if from == |text| {
      places := [];
    } else if !IsWordChar(text[from]) {
      places := RunsAreHeld(text, from + 1);
      assert text[from..][1..] == text[from+1..];
    } else {
      var to := FirstRun(text, from);
      var later := RunsAreHeld(text, to);
      HeldCons(text, Place(from, to), text[from..to], later, Runs(text[to..]));
      AllRunsFrom(text, from, to, later);
      places := [Place(from, to)] + later;
    }
  }

  lemma TailHeld(text: string, places: seq<Place>, words: seq<Word>)
    requires HeldAt(text, places, words) && places != []
    ensures HeldAt(text, places[1..], words[1..]) && Holds(text, places[0], words[0])
    ensures forall q <- places[1..] :: places[0].to <= q.from
    ensures forall q <- places :: q == places[0] || q in places[1..]
  {
    assert places == [places[0]] + places[1..];
  }

  lemma {:induction false} FillersAreLeftOut(text: string, places: seq<Place>, words: seq<Word>, fillers: set<Word>)
    returns (kept: seq<Place>)
    requires HeldAt(text, places, words)
    ensures HeldAt(text, kept, Drop(words, fillers)) && forall p <- kept :: p in places
    ensures forall p <- places, w :: Holds(text, p, w) && w !in fillers ==> p in kept
  {
    kept := [];
    if places != [] {
      var p := places[0];
      TailHeld(text, places, words);
      kept := FillersAreLeftOut(text, places[1..], words[1..], fillers);
      if words[0] !in fillers {
        HeldCons(text, p, words[0], kept, Drop(words[1..], fillers));
        kept := [p] + kept;
      }
    }
  }

  /** The words are, in order, exactly the longest stretches of word characters that are no fillers. */
  lemma NormaliseKeepsEveryRun(text: string) returns (places: seq<Place>)
    ensures HeldAt(Lower(text), places, Normalise(text))
    ensures forall i: nat, j: nat :: RunAt(Lower(text), i, j) && Lower(text)[i..j] !in FILLERS ==>
      Place(i, j) in places
  {
    var all := RunsAreHeld(Lower(text), 0);
    assert Lower(text)[0..] == Lower(text);
    places := FillersAreLeftOut(Lower(text), all, Runs(Lower(text)), FILLERS);
    forall i: nat, j: nat | RunAt(Lower(text), i, j) && Lower(text)[i..j] !in FILLERS ensures Place(i, j) in places {
      assert Holds(Lower(text), Place(i, j), Lower(text)[i..j]);
    }
  }

  // ------------------------------------------------------------------- wer

  function Max(a: nat, b: nat): nat { if a >= b then a else b }

  /** What the docstring promises: the distance over the reference length, at least 1. */
  function DocumentedRate(r: seq<Word>, h: seq<Word>): real {
    Dist(r, h) as real / Max(|r|, 1) as real
  }

  function Rate(r: seq<Word>, h: seq<Word>): real {
    if r == [] then (if h == [] then 0.0 else 1.0) else Dist(r, h) as real / |r| as real
  }

  /** The least cost of turning `r` into `h`, over the length of `r`. */
  ghost predicate IsErrorRate(r: seq<Word>, h: seq<Word>, rate: real) {
    if r == [] then rate == (if h == [] then 0.0 else 1.0)
    else exists d :: IsDistance(r, h, d) && rate == d as real / |r| as real
  }

  lemma RateIsErrorRate(r: seq<Word>, h: seq<Word>)
    ensures IsErrorRate(r, h, Rate(r, h))
  {
    DistIsDistance(r, h);
  }

  /** The rate is 0 exactly for equal word lists, and it is the documented quotient exactly when
      the reference has words or the hypothesis has at most one: an empty reference always rates 1. */
  lemma RateMeaning(r: seq<Word>, h: seq<Word>)
    ensures Rate(r, h) == 0.0 <==> r == h
    ensures Rate(r, h) == DocumentedRate(r, h) <==> r != [] || |h| <= 1
  {
    ZeroMeansEqual(r, h);
    if r != [] {
      Quotient(Dist(r, h) as real, |r| as real);
    }
  }

  lemma Quotient(d: real, n: real)
    requires n != 0.0
    ensures d / n * n == d
  {}

  /** The distance of the first `i` words of `r` to the first `j` words of `h`. */
  ghost function Cell(r: seq<Word>, h: seq<Word>, i: nat, j: nat): nat
    requires i <= |r| && j <= |h|
  {
    Dist(r[..i], h[..j])
  }

  /** The first `len` cells of the table's row `i`. */
  ghost predicate IsRow(row: array<nat>, r: seq<Word>, h: seq<Word>, i: nat, len: nat)
    requires i <= |r| && len <= |h| + 1
    reads row
  {
    row.Length == |h| + 1 && forall j :: 0 <= j < len ==> row[j] == Cell(r, h, i, j)
  }

  lemma CellStep(r: seq<Word>, h: seq<Word>, i: nat, j: nat)
    requires 0 < i <= |r| && 0 < j <= |h|
    ensures Cell(r, h, i, j) == Min(Min(Cell(r, h, i - 1, j) + 1, Cell(r, h, i, j - 1) + 1),
                                    Cell(r, h, i - 1, j - 1) + if r[i-1] == h[j-1] then 0 else 1)
  {
    assert r[..i][..i-1] == r[..i-1] && h[..j][..j-1] == h[..j-1];
  }

  lemma CellEdges(r: seq<Word>, h: seq<Word>)
    ensures forall j :: 0 <= j <= |h| ==> Cell(r, h, 0, j) == j
    ensures forall i :: 0 <= i <= |r| ==> Cell(r, h, i, 0) == i
    ensures Cell(r, h, |r|, |h|) == Dist(r, h)
  {
    assert r[..|r|] == r && h[..|h|] == h;
  }

  /** The inner loop: row `i` of the table, filled in place from the row before. */
  method NextRow(prev: array<nat>, r: seq<Word>, h: seq<Word>, i: nat) returns (cur: array<nat>)
    requires 0 < i <= |r| && IsRow(prev, r, h, i - 1, |h| + 1)
    ensures IsRow(cur, r, h, i, |h| + 1)
  {
    cur := new nat[|h| + 1](j => if j == 0 then i else 0);
    assert cur[0] == Cell(r, h, i, 0) by { CellEdges(r, h); }
    for j := 1 to |h| + 1
      invariant IsRow(prev, r, h, i - 1, |h| + 1)
      invariant IsRow(cur, r, h, i, j)
    {
      CellStep(r, h, i, j);
      var cost := if r[i-1] == h[j-1] then 0 else 1;
      cur[j] := Min(Min(prev[j] + 1, cur[j-1] + 1), prev[j-1] + cost);
    }
  }

  lemma FirstRow(row: array<nat>, r: seq<Word>, h: seq<Word>)
    requires row.Length == |h| + 1 && forall j :: 0 <= j <= |h| ==> row[j] == j
    ensures IsRow(row, r, h, 0, |h| + 1)
  {
    CellEdges(r, h);
  }

  lemma LastRow(row: array<nat>, r: seq<Word>, h: seq<Word>)
    requires IsRow(row, r, h, |r|, |h| + 1)
    ensures row[|h|] == Dist(r, h)
  {
    CellEdges(r, h);
  }

  method Wer(ref: string, hyp: string) returns (rate: real)
    ensures rate == Rate(Normalise(ref), Normalise(hyp))
    ensures IsErrorRate(Normalise(ref), Normalise(hyp), rate)
  {
    var r, h := Normalise(ref), Normalise(hyp);
    if r == [] {
      rate := if h == [] then 0.0 else 1.0;
    } else {
      var prev := new nat[|h| + 1](j => j);
      FirstRow(prev, r, h);
      for i := 1 to |r| + 1
        invariant IsRow(prev, r, h, i - 1, |h| + 1)
      {
        prev := NextRow(prev, r, h, i);
      }
      LastRow(prev, r, h);
      rate := prev[|h|] as real / |r| as real;
    }
    RateIsErrorRate(r, h);
  }
}
