/** The header questions of the gzip middleware (src/compression.py:54-109, 215-225, 256-282).

    Headers map lower-case names to latin-1 values, one value a name. */
module HttpHeaders {
  import opened Basics

  type Headers = map<string, string>

  const STREAM_TYPES: set<string> := {"text/event-stream", "multipart/x-mixed-replace"}

  const LINE_STREAM_TYPES: set<string> := {
    "application/x-ndjson", "application/ndjson", "application/jsonl", "application/x-jsonlines",
    "application/stream+json", "application/json-seq"
  }

  const COMPRESSED_PREFIXES: seq<string> := ["image/", "video/", "audio/", "font/"]

  const COMPRESSED_TYPES: set<string> := {
    "application/zip", "application/gzip", "application/x-gzip", "application/x-7z-compressed",
    "application/x-rar-compressed", "application/pdf", "application/font-woff", "application/font-woff2"
  }

  const COMPRESSIBLE_IMAGE: string := "image/svg+xml"

  function Get(h: Headers, name: string): string { if name in h then h[name] else "" }

  function Before(s: string, c: char): string {
    if s == "" || s[0] == c then "" else [s[0]] + Before(s[1..], c)
  }

  predicate Contains(s: string, part: string) {
    part <= s || (s != "" && Contains(s[1..], part))
  }

  function MediaType(contentType: string): string { Lower(Strip(Before(contentType, ';'))) }

  predicate IsCompressibleType(contentType: string) {
    var media := MediaType(contentType);
    && media !in STREAM_TYPES && media !in COMPRESSED_TYPES
    && (media == COMPRESSIBLE_IMAGE || forall p <- COMPRESSED_PREFIXES :: !(p <= media))
  }

  predicate Eligible(h: Headers) {
    && "content-encoding" !in h
    && !Contains(Lower(Get(h, "cache-control")), "no-transform")
    && IsCompressibleType(Get(h, "content-type"))
  }

  /** A compressible type with no declared length that is not a stream by type: the look-ahead applies. */
  predicate Unsized(h: Headers) {
    "content-length" !in h && MediaType(Get(h, "content-type")) !in LINE_STREAM_TYPES && Eligible(h)
  }

  /** `str.isdigit` also holds of the superscripts of latin-1, which `int` then refuses. */
  predicate IsSuperscript(c: char) { c in {'\U{00B2}', '\U{00B3}', '\U{00B9}'} }

  /** The most digits that `int` converts. */
  const MAX_DIGITS: nat := 4300

  datatype Length = Undeclared | Declared(n: nat) | Unreadable

  function DeclaredLength(h: Headers): Length {
    var text := Get(h, "content-length");
    if text == "" || exists c <- text :: !IsDigit(c) && !IsSuperscript(c) then Undeclared
    else if |text| > MAX_DIGITS || exists c <- text :: IsSuperscript(c) then Unreadable
    else assert AllDigits(text); Declared(Value(text))
  }

  /** The declared length is the numeral of `n` (section 8.6 of RFC 9110), however long. */
  predicate Declares(h: Headers, n: nat) {
    var text := Get(h, "content-length");
    text != "" && AllDigits(text) && Value(text) == n
  }

  function AddVary(h: Headers): Headers {
    h["vary" := if "vary" in h then h["vary"] + ", Accept-Encoding" else "Accept-Encoding"]
  }

  function MarkCompressed(h: Headers, size: nat, more: bool): Headers {
    var marked := AddVary(h["content-encoding" := "gzip"]);
    if more then marked - {"content-length"} else marked["content-length" := Decimal(size)]
  }

  /** `h` is `before` marked as gzip: every other header is kept, `vary` with its value and one more. */
  ghost predicate MarkedFrom(h: Headers, before: Headers) {
    && Get(h, "content-encoding") == "gzip"
    && "vary" in h
    && h["vary"] == (if "vary" in before then before["vary"] + ", " else "") + "Accept-Encoding"
    && forall name :: name !in {"content-encoding", "content-length", "vary"} ==>
         (name in h <==> name in before) && (name in h ==> h[name] == before[name])
  }

  lemma MarkingMarks(h: Headers, size: nat, more: bool)
    ensures MarkedFrom(MarkCompressed(h, size, more), h)
  {}

  // ------------------------------------------------------- what may be gzipped

  predicate PartAt(s: string, i: nat, part: string) { i + |part| <= |s| && s[i..i+|part|] == part }

  lemma PartInTail(s: string, part: string, i: nat, k: nat)
    requires s != "" && i == k + 1
    ensures PartAt(s, i, part) <==> PartAt(s[1..], k, part)
  {
    assert i + |part| <= |s| ==> s[i..i+|part|] == s[1..][k..k+|part|];
  }

  lemma {:induction false} ContainsMeans(s: string, part: string)
    ensures Contains(s, part) <==> exists i: nat :: PartAt(s, i, part)
  {
    assert PartAt(s, 0, part) <==> part <= s;
    if s != "" {
      ContainsMeans(s[1..], part);
      if i: nat :| PartAt(s, i, part) {
        if i > 0 { PartInTail(s, part, i, i - 1); }
      }
      if i: nat :| PartAt(s[1..], i, part) { PartInTail(s, part, i + 1, i); }
    }
  }

  lemma {:induction false} BeforeMeans(s: string, c: char) returns (n: nat)
    ensures n <= |s| && Before(s, c) == s[..n] && c !in s[..n] && (n < |s| ==> s[n] == c)
  {
    n := 0;
    if s != "" && s[0] != c {
      n := BeforeMeans(s[1..], c);
      n := n + 1;
      assert s[..n] == [s[0]] + s[1..][..n-1];
    }
  }

  /** The media type is what comes before the parameters, without white space around it, in lower case. */
  lemma MediaTypeMeans(contentType: string) returns (a: nat, b: nat, n: nat)
    ensures a <= b <= n <= |contentType| && ';' !in contentType[..n] && (n < |contentType| ==> contentType[n] == ';')
    ensures Core(contentType[..n], a, b, IsSpace) && MediaType(contentType) == Lower(contentType[a..b])
  {
    n := BeforeMeans(contentType, ';');
    a, b := StripMeans(contentType[..n]);
    assert contentType[..n][a..b] == contentType[a..b];
  }

  /** Nothing forbids to gzip a response with these headers, and its type is worth it. */
  ghost predicate MayBeGzipped(h: Headers) {
    && "content-encoding" !in h
    && (forall i: nat :: !PartAt(Lower(Get(h, "cache-control")), i, "no-transform"))
    && var media := MediaType(Get(h, "content-type"));
       && media !in STREAM_TYPES + COMPRESSED_TYPES
       && ((exists p <- COMPRESSED_PREFIXES :: p <= media) ==> media == COMPRESSIBLE_IMAGE)
  }

  lemma EligibleMeans(h: Headers)
    ensures Eligible(h) <==> MayBeGzipped(h)
  {
    ContainsMeans(Lower(Get(h, "cache-control")), "no-transform");
  }

  lemma MarkedLength(h: Headers, size: nat, more: bool)
    ensures "content-length" in MarkCompressed(h, size, more) <==> !more
    ensures !more ==> Declares(MarkCompressed(h, size, more), size)
    ensures Get(MarkCompressed(h, size, more), "content-encoding") == "gzip"
  {
    DecimalRoundTrip(size);
  }

  /** `str.isdigit` of latin-1 text. */
  predicate AllDigitLike(text: string) { text != "" && forall c <- text :: IsDigit(c) || IsSuperscript(c) }

  /** Text that is no number by `str.isdigit` counts as no length; what `int` refuses of the rest raises. */
  lemma OddLengths(h: Headers)
    ensures var text := Get(h, "content-length");
      && (DeclaredLength(h).Undeclared? <==> !AllDigitLike(text))
      && (DeclaredLength(h).Unreadable? <==> AllDigitLike(text) && (AllDigits(text) ==> |text| > MAX_DIGITS))
  {
    var text := Get(h, "content-length");
    forall c <- text ensures !(IsDigit(c) && IsSuperscript(c)) {}
    if AllDigitLike(text) && !AllDigits(text) {
      var c :| c in text && !IsDigit(c);
      assert IsSuperscript(c);
    }
  }

  /** Up to the limit that is also what `int` reads, and beyond it nothing is. */
  lemma DeclaredIsRead(h: Headers, n: nat)
    requires Declares(h, n)
    ensures DeclaredLength(h) == if |Get(h, "content-length")| <= MAX_DIGITS then Declared(n) else Unreadable
  {
    var text := Get(h, "content-length");
    forall c <- text ensures IsDigit(c) && !IsSuperscript(c) {}
  }
}
