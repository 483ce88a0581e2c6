# A verified model of the hub's stateful cores

This project models the parts of the LLM hub and of its development scripts whose correctness rests on
state that lives across many steps, and proves what those parts are for. To check it, run
`dafny verify dfyconfig.toml` with Dafny 4.11.

| module | what it models |
|---|---|
| `Compression`, `HttpHeaders` | the streaming gzip responder: one lock, one look-ahead timer that may fire between any two messages, stale expiry tasks included |
| `LoginLockout` | the bounded, time-ordered table of failed logins, its doubling waits and its one-shot alerts |
| `WordErrorRate` | the rolling-row edit distance of the voice benchmark, and the normalisation before it |
| `JsTokens`, `JsPatterns`, `JsMatching`, `JsReading`, `JsLexer`, `JsMeaning` | the mutually recursive JS tokenizer, its scanners against its patterns, its brace matching and its template holes |
| `GlobRegex` | the two compilers from globs to regexes, one a character loop, one a split and a table |
| `StructureFindings`, `StructureRatchet`, `Matchings` | ranked keys of over-long functions, the dictionary they are written into, and the comparison with a recorded baseline |
| `E2ERouting` | the router from a diff to the end-to-end suites it must run |
| `AsyncFanout` | publish and subscribe between threads and an event loop, with bounded queues |
| `Placement` | validation of model placement, and the VRAM budget over all edit histories |
| `GitTransaction` | the write, commit, push and roll-back of the configuration file, with every git command free to fail |
| `ClassGraph` | the two searches through a possibly cyclic class graph, with a path-local `seen` set |

Code that changes state is a class with the source's fields, or a method with the source's loop. Each such
method is proved equal to a step function or to a specification, and the theorems are about all runs of
that function. In `JsLexer`, and in every method whose contract states its outcome directly, the
invariants are the method's own.

Concurrency is modelled by atomic steps. A lock-held section is one step; a timer firing, an expiry task
getting the lock, a scheduled callback running and a reader taking an item are steps of their own, and
every interleaving of them is covered.

## Where the code differs from what is said of it

The code is followed; each point is stated as a theorem.

- The word error rate is documented as edits over `max(len(ref), 1)`. With an empty reference the code
  answers 1 for any non-empty hypothesis; the two agree exactly when the reference has words or the
  hypothesis has at most one (`RateMeaning`).
- The gzip responder indexes keys that ASGI lets an application leave out. A first body after a start
  without `headers` raises (`HeaderlessStartRaises`), and so does a first chunk without `body` that is
  held when a second comes (`KeylessFirstChunkRaises`). A declared length raises too when `str.isdigit`
  accepts it and `int` does not: superscript digits, or more than 4300 digits (`RefusedLengthRaises`).
  Nothing has then reached the client. `RaisesExactly` says exactly when anything raises.
- A compiled `**` does not run over a line end, since the regexes are compiled without DOTALL
  (`NewlineBreaksDoubleStar`). A glob keeps its meaning on every path exactly when it holds no `**`
  (`MeaningIsKeptWithoutDoubleStar`), and every glob does on paths without newlines.
- A JS method named by a string literal may contain `~`, and then its key may be another function's
  ranked key (`TildeNamesCollide`), and the finding listed later overwrites the other. Findings keep
  distinct keys exactly when no over-limit function is called `other~k` for a rank `k` that the over-limit
  functions called `other` reach (`KeysStayDistinct`). Otherwise even a reordering may fail the check
  (`ReorderCanRise`); the harmless edits never do exactly when no finding is overwritten by a smaller one
  (`EditsNeverRise`).
- A fan-out with `maxsize` of zero or less is unbounded (`QueuesAreBounded`).
- The configuration write does not survive the patterns of failure given by `Breaks`: a commit made
  although its command was killed, or although it failed and the reset has no effect; a push that was
  killed; a failed push that did reach the remote, or whose reset has no effect; and a pushed commit whose
  last `rev-parse` does not answer. For every other combination of outcomes, where each of the ten
  commands may succeed, fail or be killed, with or without effect, the write ends committed on both sides
  or rolled back on all. A write that is rolled back may still leave the edit in the index, and then every
  later write is refused; `CleanAgain` says exactly when it does not.

## Model

| member | source | states |
|---|---|---|
| Compression.BytesAreConserved | src/compression.py:176-249 | For every chunking and every placement of timer expiries, as long as nothing raises: decoding what was sent, followed by the held chunk, is at every step exactly what the application sent; after the final body nothing is held and no timer runs |
| Compression.HeadersAgreeWithBytes | src/compression.py:203-213 | The start message goes out at most once, before every body, and at the latest with the final body; it is unchanged for a plain body, and exactly when the bodies are encoded it says gzip, keeps every other header and only adds to `vary`; such a response had no encoding, no `no-transform` and a compressible type |
| Compression.ContentLengthIsTrue | src/compression.py:274-282 | Given a truthful declared length, any length in the start that is sent is the number of body bytes sent |
| Compression.HeldIsShortAndTimed | src/compression.py:189-225 | A held chunk is shorter than the minimum, belongs to an eligible response without a length that is no line-delimited stream, and a timer or an expiry task is pending that will release it |
| Compression.DecisionIgnoresChunking | src/compression.py:215-225 | Over every run that does not raise, a body right after the start of an unsized, eligible response is gzipped if and only if it reaches the minimum or its look-ahead was cut short while a chunk was held |
| Compression.NeverGzipped | src/compression.py:256-268 | Over every run that ends without raising: headers that forbid it, or another message before the first body, leave the response as it is |
| Compression.DeclaredLengthDecides | src/compression.py:264-271 | An eligible response that declares its length is gzipped if and only if that number reaches the minimum, however its body comes |
| Compression.FirstBodyDecides | src/compression.py:264-272 | An eligible line-delimited stream without a length, or one whose length is no number, is gzipped if and only if its first body streams on or reaches the minimum |
| Compression.WholeBodyDecides | src/compression.py:215-225 | Any other eligible response is gzipped if and only if all of its body together reaches the minimum or the look-ahead was cut short |
| Compression.OtherMessagesKeepTheirPlace | src/compression.py:176-201 | Messages that are neither start nor body all go out, unchanged and in order, and everything that came before one is out before it |
| Compression.EndIsSentOnce | src/compression.py:176-213 | The client sees the end exactly when the application has sent it: one body, the last, says so, and all before it say that more comes |
| Compression.CutsHappenEarly | src/compression.py:243-249 | Only an expiry or another message cuts a look-ahead, and only while the body still streams and is below the minimum |
| Compression.StepKeepsInv | src/compression.py:176-249 | Every message, timer firing and expiry keeps the invariant that ties the fields to what was received and sent |
| Compression.RaisesExactly | src/compression.py:215-235 | Over every interleaving, an exception leaves the responder if and only if a body right after the start meets a start without headers or an eligible response whose length is declared in digits `int` refuses (superscripts, or more than 4300), or a first chunk without its body key is held until a second body comes |
| Compression.KeyedBodiesNeverRaise | src/compression.py:215-235 | So with headers in the start, a body key in the first body and a readable declared length nothing raises, under any interleaving |
| Compression.KeylessFirstChunkRaises | src/compression.py:227-229 | A concrete well-formed response for which the responder raises and nothing reaches the client |
| Compression.HeaderlessStartRaises | src/compression.py:264-265 | Another: any body after a start without its optional headers |
| Compression.RefusedLengthRaises | src/compression.py:268-271 | Another: an eligible response whose length `str.isdigit` accepts and `int` refuses, for its superscripts or for more digits than are converted |
| Compression.GzipResponder.Handle | src/compression.py:176-201 | One message from the application is one step of the specification: start kept, held chunk merged or released, decision or encoding |
| Compression.GzipResponder.Decide | src/compression.py:203-213 | Ends the deciding, sends the start before the message, and compresses or not; when, is said by `NeverGzipped`, `DeclaredLengthDecides`, `FirstBodyDecides` and `WholeBodyDecides` |
| Compression.GzipResponder.MergeHeld | src/compression.py:227-230 | Merges the chunk into the held one and releases it once it is the last or reaches the minimum |
| Compression.GzipResponder.ReleaseHeld | src/compression.py:237-241 | Cancels the timer, forgets the held chunk and decides on it |
| Compression.GzipResponder.CancelTimer | src/compression.py:251-254 | A running timer is gone and can no longer fire |
| Compression.GzipResponder.EncodeInto | src/compression.py:284-293 | The message's body becomes the compressor's output up to a sync flush or the finish |
| Compression.GzipResponder.ExpireLookahead | src/compression.py:243-244 | A timer that fires leaves an expiry task behind, which may get the lock late |
| Compression.GzipResponder.Expire | src/compression.py:246-249 | An expiry task, perhaps stale, releases whatever is held then and otherwise does nothing |
| HttpHeaders.MarkedLength | src/compression.py:274-282 | The marked start declares gzip, and declares a length exactly when the body is whole: that of the encoded body |
| HttpHeaders.DeclaredIsRead | src/compression.py:268-271 | A length declared in digits is read as that number, unless it has more digits than `int` converts, when reading it raises |
| HttpHeaders.MarkingMarks | src/compression.py:274-282 | Marking keeps every header but the encoding, the length and `vary`, which keeps its value and gains `Accept-Encoding` |
| HttpHeaders.EligibleMeans | src/compression.py:256-262 | Eligible if and only if there is no encoding, `no-transform` stands nowhere in the cache control in whatever case, and the type is neither a stream nor compressed |
| HttpHeaders.ContainsMeans | src/compression.py:260 | A part is found if and only if it stands at some place of the text |
| HttpHeaders.MediaTypeMeans | src/compression.py:104 | The media type is what comes before the first semicolon, without white space at its ends, in lower case |
| HttpHeaders.OddLengths | src/compression.py:268-271 | Text that `str.isdigit` refuses counts as no length, and of what it accepts exactly superscripts and over-long numerals raise |
| LoginLockout.AnswersComeFromHistory | src/login_lockout.py:105-196 | While no live streak is evicted, every call answers as an unbounded history per client would: forgetting, lazy deletion and sweeping cannot be observed |
| LoginLockout.ClientsAreIndependent | src/login_lockout.py:127-161 | Deleting all other clients' calls changes no answer of a client |
| LoginLockout.RunKeepsTable | src/login_lockout.py:134-177 | Over every run the table is sorted by last failure, holds each client once and at most `max_clients` of them, and each deadline is its last failure plus its delay |
| LoginLockout.SweepDropsExactlyTheForgotten | src/login_lockout.py:170-174 | Popping from the front until a live streak drops every forgotten streak and no other |
| LoginLockout.RoomIsMadeFairly | src/login_lockout.py:170-177 | Making room keeps every live streak unless all entries are live and the table is full; then the oldest goes |
| LoginLockout.EvictionIsTheLastResort | src/login_lockout.py:134-177 | A live streak of another client leaves the table only when all `max_clients` entries are live, and then its last failure is the oldest |
| LoginLockout.AlertsAreConserved | src/login_lockout.py:143-191 | The streaks that reached the threshold are as many as the emitted alerts and those they report suppressed, plus those pending; each alert reports exactly the threshold |
| LoginLockout.AlertsKeepTheirDistance | src/login_lockout.py:179-191 | Any two emitted alerts are at least the cooldown apart, and the last one's time is the remembered one |
| LoginLockout.AlertsGoOutExactly | src/login_lockout.py:179-191 | Over every run: a call raises an alert if and only if a callback is set, the call makes a streak reach the threshold, and no alert so far is less than the cooldown ago; that alert names the client, the threshold and how many streaks no alert has told of |
| LoginLockout.ReachingComesFromHistory | src/login_lockout.py:134-150 | While no live streak is evicted, a call makes a streak reach the threshold if and only if the unbounded history counts that many failures |
| LoginLockout.DelayGrows | src/login_lockout.py:145-147 | Delays never decrease with the failures, never exceed the maximum and are at least the base after the free ones |
| LoginLockout.FailuresAreSpaced | src/login_lockout.py:127-148 | Over every run, evictions included: the table's streak of a client that fails only at wait 0 counts its latest failures, and the n-th of them comes at least the sum of the first n-1 delays after the first |
| LoginLockout.TotalDelayClosedForm | src/login_lockout.py:145-147 | That sum: 0 while free, base times 2^m - 1 after m uncapped delays, then the maximum per further attempt |
| LoginLockout.RetryAfterIsEnough | src/login_lockout.py:194-196 | Over every run, evictions included: waiting the advertised whole seconds without another failure brings the wait to 0, whatever other clients do meanwhile |
| LoginLockout.LookingForgets | src/login_lockout.py:163-168 | Asking for the wait deletes the streak of that client if it is forgotten, and nothing else |
| LoginLockout.LoginLockout.RetryAfter | src/login_lockout.py:127-132 | The wait left of the client's live streak, or 0, and the table with a forgotten streak deleted |
| LoginLockout.LoginLockout.RecordFailure | src/login_lockout.py:134-156 | One failure is one step of the specification; the delay and the alert are those of the client's streak |
| LoginLockout.LoginLockout.Reset | src/login_lockout.py:158-161 | The client's streak is gone, the rest unchanged |
| LoginLockout.LoginLockout.Live | src/login_lockout.py:163-168 | The client's streak unless forgotten, in which case it is deleted |
| LoginLockout.LoginLockout.MakeRoom | src/login_lockout.py:170-177 | The popping loop leaves the swept table, one entry fewer when it is still full |
| LoginLockout.LoginLockout.TakeAlert | src/login_lockout.py:179-191 | Raises the alert of a due streak, or counts it as suppressed during the cooldown; over runs that is `AlertsGoOutExactly` |
| WordErrorRate.Wer | scripts/bench_voice.py:94-108 | The rolling rows compute the least cost of any edit script between the two word lists, over the reference's length; 0 or 1 for an empty reference |
| WordErrorRate.NextRow | scripts/bench_voice.py:103-107 | The inner loop fills the table's next row in place from the row before |
| WordErrorRate.DistIsDistance | scripts/bench_voice.py:100-107 | The recurrence is the minimum cost over all insert, delete and substitute scripts from the one list to the other |
| WordErrorRate.DistanceIsSymmetric | scripts/bench_voice.py:100-107 | The distance does not depend on the direction |
| WordErrorRate.TriangleInequality | scripts/bench_voice.py:100-107 | Going through a third list is never shorter |
| WordErrorRate.DistanceBounds | scripts/bench_voice.py:100-107 | The distance lies between the difference of the lengths and the greater length |
| WordErrorRate.ZeroMeansEqual | scripts/bench_voice.py:100-107 | Distance 0 exactly for equal lists |
| WordErrorRate.RateMeaning | scripts/bench_voice.py:94-108 | Rate 0 exactly for equal normalised lists; the documented formula exactly when the reference has words or the hypothesis at most one |
| WordErrorRate.NormaliseIsAProjection | scripts/bench_voice.py:87-91 | The images of normalisation are exactly the lists of clean words, and normalising a joined image gives it back |
| WordErrorRate.NormaliseKeepsEveryRun | scripts/bench_voice.py:87-91 | The words are, in order, exactly the longest stretches of word characters of the lower-cased text that are no fillers |
| WordErrorRate.CaseIsIgnored | scripts/bench_voice.py:88 | Texts that differ only in the case of ASCII letters normalise alike |
| WordErrorRate.LowerChangesCaseOnly | scripts/bench_voice.py:88 | Of an ASCII text lower-casing changes the case of letters and nothing else, and leaves no capital |
| JsLexer.Lexer.Lex | scripts/usage_track_scan.py:232-239 | Success means the whole text is read with every template and brace closed; failure means the lexer stands at something that never closes or at a stray closing brace, and blames the line the source's error names. `TokensAreAsWritten` and `FailuresAreReal` say what both mean for the text |
| JsLexer.Lexer.Code | scripts/usage_track_scan.py:241-269 | From any sound state: reads on to the end, or to the closing brace of its hole with the open braces as they were; ends because each call starts further on |
| JsLexer.Lexer.Token | scripts/usage_track_scan.py:271-282 | One token or gap of the pattern is added, and the line advanced by its newlines; which one the text holds is said by `ScanIsThePattern` |
| JsLexer.Lexer.Punctuation | scripts/usage_track_scan.py:284-293 | An opening brace is pushed inside its outer block, a closing one pops and pairs, and fails only with none open |
| JsLexer.Lexer.TemplateLiteral | scripts/usage_track_scan.py:295-315 | Reads one template and the code of its holes; leaves the open braces as they were and the template's token with its text, line and hole count |
| JsLexer.BracesArePaired | scripts/usage_track_scan.py:229-230 | On success `closes` is a bijection from all `{` tokens to all `}` tokens, and pairs never cross |
| JsLexer.BlocksAreInnermost | scripts/usage_track_scan.py:317-321 | Each token's block is the innermost brace pair around it, -1 exactly when no pair is around it |
| JsLexer.HolesAreSealed | scripts/usage_track_scan.py:295-315 | No brace pair crosses the boundary of a template hole: between two consecutive parts of a template a pair is wholly inside or wholly outside |
| JsLexer.LinesAreTrue | scripts/usage_track_scan.py:271-282 | Each token's line is the start line plus the newlines before it; a template's text and hole count are those of its parts |
| JsLexer.TilesSpellTheText | scripts/usage_track_scan.py:241-269 | Tokens, template parts and gaps together spell the text: nothing is skipped or read twice |
| JsMeaning.TokensAreAsWritten | scripts/usage_track_scan.py:181-205 | On success every tile is written there by its pattern: a token of the first alternative that matches, with the text it says, a regex literal exactly where no operand comes before the slash and one matches, a template part up to its backtick or hole, white space or a comment |
| JsMeaning.TemplatesTellTheirParts | scripts/usage_track_scan.py:295-315 | A template's text is what its parts say, in order, with `${}` between any two, and its hole count one less than their number |
| JsMeaning.PiecesSay | scripts/usage_track_scan.py:193-205 | What a part says are the characters of all the units after its sign, escapes reduced |
| JsMeaning.FailuresAreReal | scripts/usage_track_scan.py:241-269 | On failure a comment or string starts there that no reading of its pattern closes, or a closing brace has no opening one, or the text ends inside a template or a brace; the line blamed is the true one |
| JsMeaning.ReadingMeans | scripts/usage_track_scan.py:241-269 | What the lexer reads at any place, before or after an operand, is what the patterns say is written there |
| JsMeaning.LinesCountNewlines | scripts/usage_track_scan.py:271-282 | Each token's line is the first line plus the number of newline characters before it |
| JsPatterns.StringsEndThere | scripts/usage_track_scan.py:181 | A string ends where the scanner says and nowhere else: a row of plain characters and escapes between two equal quotes |
| JsPatterns.RegexesEndThere | scripts/usage_track_scan.py:194 | The same of regex literals, with their character classes and trailing letters |
| JsPatterns.TemplateTextsEndThere | scripts/usage_track_scan.py:193 | Template text ends where no further unit of its pattern starts |
| JsPatterns.CommentsEndThere | scripts/usage_track_scan.py:251-254 | A block comment ends at the first close after its opening |
| JsPatterns.ScanIsThePattern | scripts/usage_track_scan.py:182-192 | The scanner gives the first alternative of the token pattern that matches, and the whole of its match |
| JsPatterns.OperatorsEndThere | scripts/usage_track_scan.py:189 | Of the listed operators the longest that matches is read |
| JsPatterns.BodiesMeanTheirCharacters | scripts/usage_track_scan.py:200-205 | The text of a string or template part is its characters, each escape reduced to the one it names |
| JsMatching.CloseOk | scripts/usage_track_scan.py:288-293 | Closing the innermost brace keeps the pairing one to one, nested, within its holes, and every block innermost |
| JsMatching.HoleSealed | scripts/usage_track_scan.py:256-257 | Code that ends with the braces it began with has closed only what it opened |
| GlobRegex.CompileByLoop | scripts/comment_ratchet.py:224-244 | The character loop emits one regex piece per glob symbol, read longest first |
| GlobRegex.CompilersAgree | scripts/structure_ratchet.py:253-257 | The split-and-table compiler emits the same pieces as the loop, for every glob |
| GlobRegex.PiecesMatchDenotation | scripts/comment_ratchet.py:224-244 | For every glob and path, the pieces accept exactly what the glob denotes with each `**` kept inside one line |
| GlobRegex.CompiledGlobsKeepTheirMeaning | scripts/comment_ratchet.py:224-244 | Both compilers accept exactly the newline-free paths the glob denotes: `**/` whole directories, `**` anything, `*` and `?` within one segment |
| GlobRegex.MeaningIsKeptWithoutDoubleStar | scripts/comment_ratchet.py:224-244 | With newlines allowed in paths, a compiled glob keeps its meaning on all of them if and only if it holds no `**` |
| GlobRegex.NewlineBreaksDoubleStar | scripts/comment_ratchet.py:224-244 | The concrete path for which `**` fails |
| GlobRegex.ExcludesADirectory | scripts/comment_ratchet.py:247-248 | An exclude `**/name/**` covers exactly the paths below a directory of that name |
| StructureFindings.FunctionFindings | scripts/structure_ratchet.py:606-632 | The loops return the findings in the order of the source's dictionary, with their written keys |
| StructureFindings.FindingsAreEntries | scripts/structure_ratchet.py:606-632 | They are exactly each name's over-limit functions, rank k being the k-th longest, and the count of unmeasured spans |
| StructureFindings.EntriesAreTheLongFunctions | scripts/structure_ratchet.py:613-622 | A length is an entry of a name as often as the file has a function of that name and length if it is over the limit, never otherwise, and the longest come first |
| StructureFindings.LongFunctionsAreFound | scripts/structure_ratchet.py:613-618 | A measured function is found if and only if it is longer than the limit |
| StructureFindings.UnmeasuredAreCounted | scripts/structure_ratchet.py:614-630 | The unmeasured count is the number of functions whose end was not found |
| StructureFindings.KeysStayDistinct | scripts/structure_ratchet.py:619-626 | Their keys are distinct if and only if no over-limit function is called `other~k` for a k between 2 and the number of over-limit functions called `other` |
| StructureRatchet.RankedKeysDecideMatching | scripts/structure_ratchet.py:806-811 | With names kept apart in both, no written key of a name's findings of today rises if and only if today's over-limit functions of that name match into distinct recorded ones at least as long |
| StructureRatchet.NothingRisesWhenAllMatch | scripts/structure_ratchet.py:806-811 | With names kept apart in both, no function key of the file rises at all if and only if every name matches so |
| StructureRatchet.MatchedNeverRises | scripts/structure_ratchet.py:806-811 | Whatever the names: when every name matches and the recorded file hides no finding behind a smaller one, no function key rises |
| StructureRatchet.QuietMeansRecorded | scripts/structure_ratchet.py:806-811 | Nothing rose and nothing shrank if and only if the baseline is what would be recorded today |
| StructureRatchet.EditsNeverRise | scripts/structure_ratchet.py:606-632 | No reordering, shortening, deletion, or addition of a function within the limit fails the comparison of written keys, if and only if the recorded file hides no finding behind a smaller one with its key |
| StructureRatchet.EditNeverRises | scripts/structure_ratchet.py:606-632 | So none of them does while no name is another's with a rank it reaches |
| StructureRatchet.ReorderCanRise | scripts/structure_ratchet.py:619-626 | Otherwise it can: a concrete file whose reordering makes a key rise |
| StructureFindings.KeyTextIsInjective | scripts/structure_ratchet.py:622 | For names without a tilde the written keys are as distinct as their name and rank |
| StructureFindings.TildeNamesCollide | scripts/structure_ratchet.py:577-584 | Two names that share a key |
| StructureFindings.NamesCollideExactly | scripts/structure_ratchet.py:622 | Two names have a key in common if and only if one is the other with a tilde and a rank after it |
| E2ERouting.Classify | scripts/classify_e2e.py:511-568 | The loop's tier and target set are functions of the set of changed paths alone, so of no order or repetition; `DoubtRunsEverything`, `TiersAreAsDeclared` and `TargetsAreAsDeclared` say which |
| E2ERouting.NarrowToSurface | scripts/classify_e2e.py:457-508 | Narrows exactly when no path blocks it and all owned paths have one owner, and then to that surface's targets and the changed modules |
| E2ERouting.SheetOwner | scripts/classify_e2e.py:410-423 | The one surface that owns a changed sheet or one of its selectors, none when there is no single one |
| E2ERouting.DoubtRunsEverything | scripts/classify_e2e.py:511-549 | The fail-safe: an undeclared configuration, an empty diff, or a path that no rule matches runs the whole suite and nothing else |
| E2ERouting.TiersAreAsDeclared | scripts/classify_e2e.py:457-568 | Each tier if and only if the declarations say so: by the first rule that matches each path, and for one surface by which surface alone covers each path or its changed selectors |
| E2ERouting.TargetsAreAsDeclared | scripts/classify_e2e.py:501-508 | The targets of each tier, from the declarations: of a narrowed run exactly the covering surface's, the modules that run themselves and, beside a static path, the smoke target |
| E2ERouting.VerdictMeans | scripts/classify_e2e.py:278-289 | A path's category is that of the rule with the least index that matches it, and full when none does |
| E2ERouting.ParentHopsAreSegments | scripts/classify_e2e.py:475 | A parent hop is a segment `..` anywhere in the path |
| E2ERouting.RuleMeans | scripts/classify_e2e.py:98-108 | A rule for a path matches that path alone, one for nothing matches nothing, and a prefix and extensions each narrow it |
| E2ERouting.SurfaceMeans | scripts/classify_e2e.py:122-126 | A surface matches the paths it lists and those that go on from one of its prefixes; a selector likewise |
| E2ERouting.SelfOnlyMeans | scripts/classify_e2e.py:426-454 | A module runs itself if and only if it is a Python test by its own name, inside the suite, on disk and imported by no other suite file |
| E2ERouting.ExtensionMeans | scripts/classify_e2e.py:284-285 | The extension is what follows the last dot of the last part of the path, in lower case |
| E2ERouting.CoverageIsMonotone | scripts/classify_e2e.py:511-568 | A bigger diff runs the whole suite, or at least every target of the smaller one |
| E2ERouting.SurfaceRunsAreConfined | scripts/classify_e2e.py:457-508 | A narrowed run means every path that matters belongs to that one surface or is a module that runs itself, and all their targets are run |
| E2ERouting.OwnershipIsExclusive | scripts/classify_e2e.py:410-423 | An owned path is matched by exactly one surface, and each changed selector of an owned sheet is claimed by exactly that one |
| AsyncFanout.StreamIsExact | src/async_fanout.py:54-74 | Over every interleaving, a subscriber's stream is, in the order in which pushes were handed to the loop, exactly those whose callback has run, whose snapshot held it and that did not find its queue full |
| AsyncFanout.CallbacksRunInTurn | src/async_fanout.py:71-74 | First in, first out: what has run is the beginning of what was handed to the open loop, one for each turn the loop takes, and the rest is scheduled |
| AsyncFanout.PushesSeeTheSubscribers | src/async_fanout.py:54-61 | A push takes effect if and only if a loop was attached, none closed and someone is subscribed; it carries its item to exactly the queues subscribed and not given up at that moment |
| AsyncFanout.PushesComeFromSnapshots | src/async_fanout.py:54-74 | Nothing is delivered or under way that no push made |
| AsyncFanout.ReadersReadInOrder | src/async_fanout.py:44-48 | Readers take the items of a stream one by one from its start, and the stream only grows at its end |
| AsyncFanout.SubscribersAgree | src/async_fanout.py:54-74 | Any two subscribers see their common items in the same order |
| AsyncFanout.OnlyFullQueuesMiss | src/async_fanout.py:54-74 | Over every run, a subscriber of a snapshot receives the push if and only if its callback has run and did not find that very queue full; a push whose callback has not run is scheduled, in flight, or the loop was closed |
| AsyncFanout.RefusalMeansFull | src/async_fanout.py:63-70 | A refusal is recorded only by a callback that found that queue full, and leaves it as it was |
| AsyncFanout.QueuesAreBounded | src/async_fanout.py:44-48 | No queue exceeds a positive `maxsize`; with zero or less nothing is refused |
| AsyncFanout.NothingFromOutsideTheSubscription | src/async_fanout.py:44-61 | What was snapshotted before a subscription or after its end never arrives in its queue |
| AsyncFanout.StepKeepsInv | src/async_fanout.py:44-74 | Every snapshot, schedule, callback, subscription and read keeps the invariant tying streams to executed pushes |
| AsyncFanout.AsyncFanout.Subscribe | src/async_fanout.py:44-48 | A fresh empty queue joins the subscribers |
| AsyncFanout.AsyncFanout.Unsubscribe | src/async_fanout.py:50-52 | The queue leaves the subscribers and nothing else changes |
| AsyncFanout.AsyncFanout.PushSnapshot | src/async_fanout.py:54-61 | The item is bound to the subscribers of that moment, or dropped with no loop or no subscriber |
| AsyncFanout.AsyncFanout.PushSchedule | src/async_fanout.py:71-74 | The callback joins the end of the loop's schedule, or is dropped when the loop is closed; over runs that is `CallbacksRunInTurn` |
| AsyncFanout.AsyncFanout.Callback | src/async_fanout.py:63-70 | The loop over the snapshot, in any order, feeds every queue that is not full and no other |
| AsyncFanout.AsyncFanout.Consume | src/async_fanout.py:44-48 | A reader takes the oldest item of its queue |
| Placement.ValidatePlacement | src/config_write.py:356-408 | No errors exactly when the edit is accepted; otherwise exactly the errors it has, overcommitted hosts only once its form is right |
| Placement.OvercommitErrors | src/config_write.py:315-353 | No errors exactly when no host of the chain goes over its ceiling; the errors are exactly those hosts with their sums |
| Placement.ChainErrors | src/config_write.py:374-396 | No errors exactly when the chain is non-empty, free of repetition and enabled on each host; the errors are exactly what it lacks |
| Placement.AcceptedKeepsBudget | src/config_write.py:302-353 | One accepted edit keeps every host within its budget, hosts it leaves included |
| Placement.BudgetHoldsForever | src/config_write.py:302-408 | Over every history of edits, a host within budget stays within it |
| Placement.HostsFitForever | src/config_write.py:302-408 | The same in full: over every history of edits a host whose eager GPU models stay below its declared ceiling keeps it so |
| Placement.GateIsExact | src/config_write.py:302-408 | An editable model's well-formed edit is refused if and only if, once applied, some host it puts the model on as an eager GPU model is over its ceiling; a negative estimate counts as what it is |
| Placement.EditedChainsStayWellPlaced | src/config_write.py:356-408 | Every chain an edit ever set stays non-empty, free of repetition and enabled on each host |
| GitTransaction.Checkout.Preflight | src/config_write.py:120-167 | Passes exactly on the write branch with a clean tree and both commands answering; else which refusal, or that the exception escapes |
| GitTransaction.Checkout.CommitAndPush | src/config_write.py:170-217 | For each outcome of each command, with or without effect: the exact commits, remote, index and working tree it leaves, edits made elsewhere after its status check included |
| GitTransaction.Checkout.EditAndCommit | src/config_write.py:602-627 | Ends as `EndingOf` says and leaves exactly the state `Final`, failures while editing included |
| GitTransaction.FinalSettles | src/config_write.py:602-627 | That state is persisted on both sides after a success, rolled back on file, local and remote after any other ending outside `Breaks`, and neither in exactly the patterns of `Breaks` |
| GitTransaction.FinalTouches | src/config_write.py:186-206 | No other file is touched, except that edits made elsewhere after the second status check are undone exactly when a reset runs and works |
| GitTransaction.FinalIsClean | src/config_write.py:150-167 | The next write finds the checkout clean exactly when a reset wiped everything away, or when others changed nothing and the edit was committed or never staged |
| GitTransaction.Checkout.ApplyPlacement | src/config_write.py:587-637 | Persisted on both sides touching only the configuration file, or rolled back on file, local and remote, except in exactly the patterns of `Breaks`, where it is neither; edits elsewhere kept unless reset, and exactly when the checkout ends clean; success without a change exactly for a cleared edit that changes nothing, each refusal status and the escaping exception exactly when they are due |
| ClassGraph.InheritsDecidesReachability | scripts/dead_code_ratchet.py:453-461 | On every graph, cycles included, true if and only if a target is reachable through repository classes |
| ClassGraph.ExternalBaseDecidesReachability | scripts/dead_code_ratchet.py:441-450 | True if and only if a name outside the repository is reachable through classes without inert names |
| ClassGraph.LoopsCanBeCut | scripts/dead_code_ratchet.py:441-461 | Every reachable name has a walk without repetitions, which is why the path-local `seen` loses no answer |

## Left out

- Compression: zlib is a function from the compressor's operations to bytes whose decoding, after a flush
  or the finish, gives back what was consumed; `_accepts_gzip`, the bypass paths and HEAD are not modelled.
- Headers are one value per lower-case name and come as a list, which marking changes in place: ASGI
  allows any iterable, and the source raises on a tuple. The start's status is left alone. The timer
  cancellation when the application returns is not modelled: after a final body it does nothing.
- Login lock-out: seconds are reals, so the overflow of the float doubling at very long streaks is not
  modelled; logging and exceptions of the alert callback are not; the constructor's checks are the
  predicate `Policy.Valid`.
- AnswersComeFromHistory: stated for runs in which no live streak is evicted, because an eviction
  changes answers by design; `EvictionIsTheLastResort` says when that happens, and an evicted client's
  next failure starts a new streak.
- Word error rate: rates are reals; lower-casing outside ASCII is modelled only where it yields ASCII
  letters.
- JsLexer.Lexer.Lex: the wording of the error is not modelled, only its line, the position and the reason.
  The regex classes of white space, word characters and digits are parameters, and the
  patterns are stated by their units, not run by a regex engine. The rules that use the tokens are not modelled.
- Globs: the text syntax of the regexes and its escaping are abstract syntax here; the third glob
  compiler, in the dead-code ratchet, is not modelled.
- Structure ratchet: scanning for functions, the text and advice of a finding, layer and size findings,
  and the baseline's file format are not modelled; keys are those of one file, and a path with a colon in
  it could make keys of two files coincide.
- E2E routing: loading and checking the configuration (unique surface names are assumed from it), the
  reasons and the joined output, and the attribution of stylesheet lines to selectors are inputs or left
  out; modules that run only themselves, which the source reads from disk, are an input set.
- Fan-out: an asyncio queue is a bounded sequence; waiting readers and the reader's wake-up are not
  modelled, and a push with no loop attached only drops its item. One loop is assumed: attaching another
  after the first was closed, which makes pushes flow again, is not modelled.
- Placement: estimates and ceilings are fixed, model rows independent; `normalize_chain` and the YAML
  round trip that keeps comments are not modelled.
- Git transaction: a git command is an outcome, and one that fails or is killed may have taken effect; untracked files,
  a concurrent edit of the configuration file itself and the reading of the new revision for display
  are not modelled.
- The other ratchets, the HTML scanner, drivers, routes and installers are left out: mostly case lists
  and plumbing.
