/** Function-length findings of the structure ratchet (scripts/structure_ratchet.py:606-632).

    Same-named functions are recorded under ranked keys, longest first. Keys are text, written in
    list order into a dictionary, so two findings may share one. It is proved exactly when. */
module StructureFindings {
  import opened Basics
  import opened Matchings

  datatype Span = Span(qualname: string, lines: Option<nat>)

  datatype Finding = Finding(key: string, count: nat)

  type Counts = map<string, nat>

  // ------------------------------------------------------- what is measured

  predicate IsOver(span: Span, limit: nat) { span.lines.Some? && span.lines.value > limit }

  /** The lengths over the limit of the functions called `name`, in source order. */
  function Over(spans: seq<Span>, name: string, limit: nat): (r: seq<nat>)
    ensures forall n <- r :: n > limit
  {
    if spans == [] then []
    else
      var last := spans[|spans|-1];
      Over(spans[..|spans|-1], name, limit)
      + if last.qualname == name && IsOver(last, limit) then [last.lines.value] else []
  }

  function UnmeasuredCount(spans: seq<Span>): nat {
    if spans == [] then 0
    else UnmeasuredCount(spans[..|spans|-1]) + if spans[|spans|-1].lines.None? then 1 else 0
  }

  function Ranked(spans: seq<Span>, name: string, limit: nat): seq<nat> {
    SortDescending(Over(spans, name, limit))
  }

  // ----------------------------------------------------------- keys as text

  /** How a rank is written after the name. */
  function KeyText(name: string, rank: nat): string {
    if rank == 1 then name else name + "~" + Decimal(rank)
  }

  /** For names without a tilde the written keys are as distinct as the pairs they stand for ... */
  lemma KeyTextIsInjective(name: string, rank: nat, other: string, otherRank: nat)
    requires '~' !in name && '~' !in other
    requires KeyText(name, rank) == KeyText(other, otherRank)
    ensures name == other && rank == otherRank
  {
    var text := KeyText(name, rank);
    assert rank != 1 ==> text[|name|] == '~';
    assert otherRank != 1 ==> text[|other|] == '~';
    if rank != 1 && otherRank != 1 {
      assert |name| == |other|;
      assert name == text[..|name|] == other;
      assert Decimal(rank) == text[|name|+1..] == Decimal(otherRank);
      DecimalRoundTrip(rank);
      DecimalRoundTrip(otherRank);
    }
  }

  /** ... but a JavaScript method named by a string literal may hold one, and then two functions share a key. */
  lemma TildeNamesCollide()
    ensures KeyText("f~2", 1) == KeyText("f", 2)
  {
    assert Decimal(2) == "2";
  }

  /** Exactly: two names have a key in common when one is the other with a rank of 2 or more written after it. */
  lemma NamesCollideExactly(name: string, other: string)
    requires name != other
    ensures (exists i, j | 1 <= i && 1 <= j :: KeyText(name, i) == KeyText(other, j))
      <==> exists k | 2 <= k :: name == KeyText(other, k) || other == KeyText(name, k)
  {
    if i, j :| 1 <= i && 1 <= j && KeyText(name, i) == KeyText(other, j) {
      if 2 <= i && 2 <= j {
        LastTilde(name, Decimal(i), other, Decimal(j));
      } else if i == 1 && j == 1 {
        assert false;
      } else {
        assert if i == 1 then name == KeyText(other, j) else other == KeyText(name, i);
      }
    }
    if k :| 2 <= k && (name == KeyText(other, k) || other == KeyText(name, k)) {
      assert KeyText(name, 1) == KeyText(other, k) || KeyText(name, k) == KeyText(other, 1);
    }
  }

  /** Digits hold no tilde, so the last tilde tells where the name ends. */
  lemma LastTilde(a: string, x: string, b: string, y: string)
    requires a + "~" + x == b + "~" + y && AllDigits(x) && AllDigits(y)
    ensures a == b
  {
    var text := a + "~" + x;
    assert text[|a|] == '~' && text[|b|] == '~';
    assert |a| < |b| ==> text[|b|] == x[|b| - |a| - 1] && IsDigit(x[|b| - |a| - 1]);
    assert |b| < |a| ==> text[|a|] == y[|a| - |b| - 1] && IsDigit(y[|a| - |b| - 1]);
    assert a == text[..|a|] && b == text[..|b|];
  }

  lemma SameKeyText(a: string, i: nat, b: string, j: nat)
    requires 1 <= i && 1 <= j && KeyText(a, i) == KeyText(b, j)
    ensures (a == b && i == j) || (i == 1 && 2 <= j && a == KeyText(b, j)) || (j == 1 && 2 <= i && b == KeyText(a, i))
  {
    if 2 <= i && 2 <= j {
      LastTilde(a, Decimal(i), b, Decimal(j));
      assert Decimal(i) == KeyText(a, i)[|a|+1..] == Decimal(j);
      DecimalRoundTrip(i);
      DecimalRoundTrip(j);
    }
  }

  function FnKey(path: string, name: string, rank: nat): string { "fn:" + path + ":" + KeyText(name, rank) }

  function UnmeasuredKey(path: string): string { "unmeasured:" + path }

  lemma KeysOfAFile(path: string, a: string, i: nat, b: string, j: nat)
    ensures FnKey(path, a, i) == FnKey(path, b, j) <==> KeyText(a, i) == KeyText(b, j)
    ensures FnKey(path, a, i) != UnmeasuredKey(path)
  {
    var n := |"fn:" + path + ":"|;
    assert FnKey(path, a, i)[n..] == KeyText(a, i) && FnKey(path, b, j)[n..] == KeyText(b, j);
    assert FnKey(path, a, i)[0] == 'f' && UnmeasuredKey(path)[0] == 'u';
  }

  // ------------------------------------------------------------ the findings

  /** The names of functions over the limit, in the order of their first one. */
  function Names(spans: seq<Span>, limit: nat): seq<string> {
    if spans == [] then []
    else
      var before, last := Names(spans[..|spans|-1], limit), spans[|spans|-1];
      if IsOver(last, limit) && last.qualname !in before then before + [last.qualname] else before
  }

  lemma NamesStep(init: seq<Span>, last: Span, limit: nat)
    ensures Names(init + [last], limit)
      == Names(init, limit)
         + if IsOver(last, limit) && last.qualname !in Names(init, limit) then [last.qualname] else []
  {
    assert (init + [last])[..|init|] == init;
    assert Names(init, limit) + [] == Names(init, limit);
  }

  lemma OverStep(init: seq<Span>, last: Span, name: string, limit: nat)
    ensures Over(init + [last], name, limit)
      == Over(init, name, limit) + if last.qualname == name && IsOver(last, limit) then [last.lines.value] else []
  {
    assert (init + [last])[..|init|] == init;
  }

  /** The findings of one name, from the longest function down. */
  function Block(path: string, name: string, lengths: seq<nat>): (r: seq<Finding>)
    ensures |r| == |lengths|
  {
    seq(|lengths|, k requires 0 <= k < |lengths| => Finding(FnKey(path, name, k + 1), lengths[k]))
  }

  lemma BlockIs(path: string, name: string, lengths: seq<nat>)
    ensures forall k :: 0 <= k < |lengths| ==>
      Block(path, name, lengths)[k] == Finding(FnKey(path, name, k + 1), lengths[k])
  {}

  lemma BlockAt(path: string, name: string, lengths: seq<nat>, k: nat)
    requires k < |lengths|
    ensures Block(path, name, lengths)[k] == Finding(FnKey(path, name, k + 1), lengths[k])
  {}

  function Blocks(path: string, names: seq<string>, spans: seq<Span>, limit: nat): seq<Finding> {
    if names == [] then []
    else
      var last := names[|names|-1];
      Blocks(path, names[..|names|-1], spans, limit) + Block(path, last, Ranked(spans, last, limit))
  }

  lemma BlocksStep(path: string, names: seq<string>, i: nat, spans: seq<Span>, limit: nat)
    requires i < |names|
    ensures Blocks(path, names[..i+1], spans, limit)
      == Blocks(path, names[..i], spans, limit) + Block(path, names[i], Ranked(spans, names[i], limit))
  {
    assert names[..i+1][..i] == names[..i];
  }

  function UnmeasuredFindings(path: string, count: nat): seq<Finding> {
    if count > 0 then [Finding(UnmeasuredKey(path), count)] else []
  }

  function FileFindings(path: string, spans: seq<Span>, limit: nat): seq<Finding> {
    Blocks(path, Names(spans, limit), spans, limit) + UnmeasuredFindings(path, UnmeasuredCount(spans))
  }

  /** The dictionary the findings are written into: of two with one key the later stays. */
  function Recorded(findings: seq<Finding>): Counts {
    if findings == [] then map[]
    else
      var last := findings[|findings|-1];
      Recorded(findings[..|findings|-1])[last.key := last.count]
  }

  ghost predicate IsOverTable(over: map<string, seq<nat>>, spans: seq<Span>, limit: nat) {
    forall name ::
      (name in over <==> Over(spans, name, limit) != []) && (name in over ==> over[name] == Over(spans, name, limit))
  }

  /** The table after one more span. */
  function WithSpan(over: map<string, seq<nat>>, span: Span, limit: nat): map<string, seq<nat>> {
    if !IsOver(span, limit) then over
    else over[span.qualname := (if span.qualname in over then over[span.qualname] else []) + [span.lines.value]]
  }

  lemma TableStep(over: map<string, seq<nat>>, before: seq<Span>, span: Span, limit: nat)
    requires IsOverTable(over, before, limit)
    ensures IsOverTable(WithSpan(over, span, limit), before + [span], limit)
    ensures UnmeasuredCount(before + [span]) == UnmeasuredCount(before) + if span.lines.None? then 1 else 0
  {
    assert (before + [span])[..|before|] == before;
    forall name ensures Over(before + [span], name, limit)
      == Over(before, name, limit) + if span.qualname == name && IsOver(span, limit) then [span.lines.value] else []
    {
      OverStep(before, span, name, limit);
    }
  }

  /** `order` is the order of insertion, in which the source's dictionary is read later. */
  method CollectOver(spans: seq<Span>,
                     limit: nat) returns (over: map<string, seq<nat>>, order: seq<string>, unmeasured: nat)
    ensures IsOverTable(over, spans, limit) && order == Names(spans, limit) && unmeasured == UnmeasuredCount(spans)
  {
    over, order, unmeasured := map[], [], 0;
    for i := 0 to |spans|
      invariant IsOverTable(over, spans[..i], limit) && order == Names(spans[..i], limit)
      invariant unmeasured == UnmeasuredCount(spans[..i]) && forall name :: name in over <==> name in order
    {
      var span := spans[i];
      assert spans[..i+1] == spans[..i] + [span];
      NamesStep(spans[..i], span, limit);
      TableStep(over, spans[..i], span, limit);
      if span.lines.None? {
        unmeasured := unmeasured + 1;
      } else if span.lines.value > limit {
        if span.qualname !in over {
          order := order + [span.qualname];
        }
        var known := if span.qualname in over then over[span.qualname] else [];
        over := over[span.qualname := known + [span.lines.value]];
      }
    }
    assert spans[..|spans|] == spans;
  }

  lemma BlockSnoc(path: string, name: string, lengths: seq<nat>, rank: nat)
    requires 1 <= rank <= |lengths|
    ensures Block(path, name, lengths[..rank])
      == Block(path, name, lengths[..rank-1]) + [Finding(FnKey(path, name, rank), lengths[rank-1])]
  {}

  /** The inner loop: the findings of one name, ranked from 1. */
  method AddBlock(before: seq<Finding>, path: string, name: string, lengths: seq<nat>) returns (findings: seq<Finding>)
    ensures findings == before + Block(path, name, lengths)
  {
    findings := before;
    for rank := 1 to |lengths| + 1
      invariant findings == before + Block(path, name, lengths[..rank-1])
    {
      BlockSnoc(path, name, lengths, rank);
      findings := findings + [Finding(FnKey(path, name, rank), lengths[rank-1])];
    }
    assert lengths[..|lengths|] == lengths;
  }

  lemma TableRanks(over: map<string, seq<nat>>, spans: seq<Span>, limit: nat, name: string)
    requires IsOverTable(over, spans, limit) && name in over
    ensures SortDescending(over[name]) == Ranked(spans, name, limit)
  {}

  /** The outer loop, name by name in the order of insertion. */
  method AddBlocks(path: string, over: map<string, seq<nat>>, order: seq<string>, ghost spans: seq<Span>,
                   ghost limit: nat)
    returns (findings: seq<Finding>)
    requires forall name <- order :: name in over && SortDescending(over[name]) == Ranked(spans, name, limit)
    ensures findings == Blocks(path, order, spans, limit)
  {
    findings := [];
    for i := 0 to |order|
      invariant findings == Blocks(path, order[..i], spans, limit)
    {
      assert order[i] in order;
      BlocksStep(path, order, i, spans, limit);
      findings := AddBlock(findings, path, order[i], SortDescending(over[order[i]]));
    }
    assert order[..|order|] == order;
  }

  method FunctionFindings(path: string, spans: seq<Span>, limit: nat) returns (findings: seq<Finding>)
    ensures findings == FileFindings(path, spans, limit)
  {
    var over, order, unmeasured := CollectOver(spans, limit);
    NamesAreOver(spans, limit);
    forall name <- order ensures name in over && SortDescending(over[name]) == Ranked(spans, name, limit) {
      TableRanks(over, spans, limit, name);
    }
    findings := AddBlocks(path, over, order, spans, limit);
    findings := findings + UnmeasuredFindings(path, unmeasured);
  }

  /** The file has a function of this name at this rank of length. */
  predicate IsEntry(spans: seq<Span>, limit: nat, name: string, rank: nat) { 1 <= rank <= |Ranked(spans, name, limit)| }

  function EntryOf(path: string, spans: seq<Span>, limit: nat, name: string, rank: nat): Finding
    requires IsEntry(spans, limit, name, rank)
  {
    Finding(FnKey(path, name, rank), Ranked(spans, name, limit)[rank-1])
  }

  /** What the findings of one file are: rank k of a name holds its k-th longest function over the limit. */
  ghost predicate IsFindings(findings: seq<Finding>, path: string, spans: seq<Span>, limit: nat) {
    && (forall name, rank: nat :: IsEntry(spans, limit, name, rank) ==>
          EntryOf(path, spans, limit, name, rank) in findings)
    && (forall f <- findings :: IsUnmeasured(f, path, spans) || IsEntryFinding(f, path, spans, limit))
    && (UnmeasuredCount(spans) > 0 ==> Finding(UnmeasuredKey(path), UnmeasuredCount(spans)) in findings)
  }

  predicate IsUnmeasured(f: Finding, path: string, spans: seq<Span>) {
    UnmeasuredCount(spans) > 0 && f == Finding(UnmeasuredKey(path), UnmeasuredCount(spans))
  }

  ghost predicate IsEntryFinding(f: Finding, path: string, spans: seq<Span>, limit: nat) {
    exists name, rank :: IsEntry(spans, limit, name, rank) && f == EntryOf(path, spans, limit, name, rank)
  }

  lemma {:induction false} NamesAreOver(spans: seq<Span>, limit: nat)
    ensures forall name :: name in Names(spans, limit) <==> Over(spans, name, limit) != []
  {
    if spans != [] { NamesAreOver(spans[..|spans|-1], limit); }
  }

  lemma {:induction false} NamesComeOnce(spans: seq<Span>, limit: nat)
    ensures forall i, j :: 0 <= i < j < |Names(spans, limit)| ==> Names(spans, limit)[i] != Names(spans, limit)[j]
  {
    if spans != [] { NamesComeOnce(spans[..|spans|-1], limit); }
  }

  lemma {:induction false} BlocksPrefix(path: string, names: seq<string>, m: nat, spans: seq<Span>, limit: nat)
    requires m <= |names|
    ensures Blocks(path, names[..m], spans, limit) <= Blocks(path, names, spans, limit)
    decreases |names|
  {
    if m < |names| {
      BlocksPrefix(path, names[..|names|-1], m, spans, limit);
      assert names[..|names|-1][..m] == names[..m];
    } else {
      assert names[..m] == names;
    }
  }

  lemma InBlocks(path: string, names: seq<string>, i: nat, spans: seq<Span>, limit: nat, f: Finding)
    requires i < |names| && f in Block(path, names[i], Ranked(spans, names[i], limit))
    ensures f in Blocks(path, names, spans, limit)
  {
    BlocksStep(path, names, i, spans, limit);
    BlocksPrefix(path, names, i + 1, spans, limit);
    InEither(Blocks(path, names[..i], spans, limit), Block(path, names[i], Ranked(spans, names[i], limit)), f);
    InPrefix(Blocks(path, names[..i+1], spans, limit), Blocks(path, names, spans, limit), f);
  }

  lemma EntryInBlock(path: string, spans: seq<Span>, limit: nat, name: string, rank: nat)
    requires IsEntry(spans, limit, name, rank)
    ensures EntryOf(path, spans, limit, name, rank) in Block(path, name, Ranked(spans, name, limit))
  {
    BlockAt(path, name, Ranked(spans, name, limit), rank - 1);
    assert Block(path, name, Ranked(spans, name, limit))[rank-1] == EntryOf(path, spans, limit, name, rank);
  }

  lemma EntriesAreThere(path: string, names: seq<string>, spans: seq<Span>, limit: nat, name: string, rank: nat)
    requires name in names && IsEntry(spans, limit, name, rank)
    ensures EntryOf(path, spans, limit, name, rank) in Blocks(path, names, spans, limit)
  {
    var i :| 0 <= i < |names| && names[i] == name;
    EntryInBlock(path, spans, limit, name, rank);
    InBlocks(path, names, i, spans, limit, EntryOf(path, spans, limit, name, rank));
  }

  lemma {:induction false} BlocksAreEntries(path: string, names: seq<string>, spans: seq<Span>, limit: nat)
    ensures forall f <- Blocks(path, names, spans, limit) ::
      exists name, rank :: name in names && IsEntry(spans, limit, name, rank)
        && f == EntryOf(path, spans, limit, name, rank)
  {
    if names != [] {
      var init, last := names[..|names|-1], names[|names|-1];
      BlocksAreEntries(path, init, spans, limit);
      assert names == init + [last];
      var block := Block(path, last, Ranked(spans, last, limit));
      BlockIs(path, last, Ranked(spans, last, limit));
      forall f <- block
        ensures exists rank :: IsEntry(spans, limit, last, rank) && f == EntryOf(path, spans, limit, last, rank)
      {
        var k :| 0 <= k < |block| && block[k] == f;
        assert IsEntry(spans, limit, last, k + 1) && f == EntryOf(path, spans, limit, last, k + 1);
      }
    }
  }

  /** The findings are just those: each name's functions over the limit, ranked, and the unmeasured count. */
  lemma FindingsAreEntries(path: string, spans: seq<Span>, limit: nat)
    ensures IsFindings(FileFindings(path, spans, limit), path, spans, limit)
  {
    NamesAreOver(spans, limit);
    BlocksAreEntries(path, Names(spans, limit), spans, limit);
    forall name, rank: nat | IsEntry(spans, limit, name, rank)
      ensures EntryOf(path, spans, limit, name, rank) in FileFindings(path, spans, limit)
    {
      EntriesAreThere(path, Names(spans, limit), spans, limit, name, rank);
    }
  }

  /** Where the file has a function of that name and length. */
  ghost function PlacesOf(spans: seq<Span>, name: string, n: nat): set<nat> {
    set i: nat | i < |spans| && spans[i] == Span(name, Some(n))
  }

  lemma PlacesStep(init: seq<Span>, last: Span, name: string, n: nat)
    ensures |PlacesOf(init + [last], name, n)|
      == |PlacesOf(init, name, n)| + if last == Span(name, Some(n)) then 1 else 0
  {
    var k := |init|;
    assert PlacesOf(init + [last], name, n)
      == PlacesOf(init, name, n) + if last == Span(name, Some(n)) then {k} else {};
  }

  lemma {:induction false} OverCounts(spans: seq<Span>, name: string, limit: nat, n: nat)
    ensures multiset(Over(spans, name, limit))[n] == if n > limit then |PlacesOf(spans, name, n)| else 0
  {
    if spans == [] {
      assert PlacesOf(spans, name, n) == {};
    } else {
      var init, last := spans[..|spans|-1], spans[|spans|-1];
      OverCounts(init, name, limit, n);
      assert spans == init + [last];
      PlacesStep(init, last, name, n);
      OverStep(init, last, name, limit);
      var more := if last.qualname == name && IsOver(last, limit) then [last.lines.value] else [];
      CountInBoth(Over(init, name, limit), more, n);
    }
  }

  /** How often a length is an entry of a name: as often as the file has such a function if it is over the
      limit, never otherwise; and the longest come first. */
  lemma EntriesAreTheLongFunctions(spans: seq<Span>, name: string, limit: nat, n: nat)
    ensures multiset(Ranked(spans, name, limit))[n] == if n > limit then |PlacesOf(spans, name, n)| else 0
    ensures Descending(Ranked(spans, name, limit))
  {
    OverCounts(spans, name, limit, n);
  }

  /** A measured function is found exactly when it is longer than the limit. */
  lemma LongFunctionsAreFound(path: string, spans: seq<Span>, limit: nat, i: nat)
    requires i < |spans| && spans[i].lines.Some?
    ensures spans[i].lines.value > limit <==>
      exists rank :: IsEntry(spans, limit, spans[i].qualname, rank)
        && EntryOf(path, spans, limit, spans[i].qualname, rank).count == spans[i].lines.value
  {
    var name, n := spans[i].qualname, spans[i].lines.value;
    var ranked := Ranked(spans, name, limit);
    SortedMembers(Over(spans, name, limit), n);
    InOver(spans, name, limit, i);
    if n > limit {
      var k :| 0 <= k < |ranked| && ranked[k] == n;
      assert IsEntry(spans, limit, name, k + 1);
    }
    if rank :| IsEntry(spans, limit, name, rank) && ranked[rank-1] == n {
      assert n in ranked;
    }
  }

  lemma {:induction false} InOver(spans: seq<Span>, name: string, limit: nat, i: nat)
    requires i < |spans| && spans[i].lines.Some? && spans[i].qualname == name
    ensures spans[i].lines.value > limit ==> spans[i].lines.value in Over(spans, name, limit)
  {
    if i < |spans| - 1 { InOver(spans[..|spans|-1], name, limit, i); }
  }

  ghost function UnmeasuredPlaces(spans: seq<Span>): set<nat> { set i: nat | i < |spans| && spans[i].lines.None? }

  lemma UnmeasuredStep(init: seq<Span>, last: Span)
    ensures |UnmeasuredPlaces(init + [last])| == |UnmeasuredPlaces(init)| + if last.lines.None? then 1 else 0
  {
    assert UnmeasuredPlaces(init + [last]) == UnmeasuredPlaces(init) + if last.lines.None? then {|init|} else {};
  }

  lemma {:induction false} UnmeasuredAreCounted(spans: seq<Span>)
    ensures UnmeasuredCount(spans) == |UnmeasuredPlaces(spans)|
  {
    if spans != [] {
      var init, last := spans[..|spans|-1], spans[|spans|-1];
      UnmeasuredAreCounted(init);
      UnmeasuredStep(init, last);
      assert spans == init + [last];
    }
  }

  // ----------------------------------------------------------- the dictionary

  ghost predicate DistinctKeys(findings: seq<Finding>) {
    forall i, j :: 0 <= i < j < |findings| ==> findings[i].key != findings[j].key
  }

  lemma {:induction false} RecordedConcat(a: seq<Finding>, b: seq<Finding>)
    ensures Recorded(a + b) == Recorded(a) + Recorded(b)
    decreases |b|
  {
    if b == [] {
      assert a + b == a;
    } else {
      assert (a + b)[..|a + b|-1] == a + b[..|b|-1];
      RecordedConcat(a, b[..|b|-1]);
    }
  }

  lemma {:induction false} RecordedHolds(findings: seq<Finding>)
    ensures forall f <- findings :: f.key in Recorded(findings)
    ensures forall k <- Recorded(findings) :: Finding(k, Recorded(findings)[k]) in findings
  {
    if findings != [] {
      var init, last := findings[..|findings|-1], findings[|findings|-1];
      RecordedHolds(init);
      assert findings == init + [last];
    }
  }

  lemma DistinctRecorded(findings: seq<Finding>, f: Finding)
    requires DistinctKeys(findings) && f in findings
    ensures f.key in Recorded(findings) && Recorded(findings)[f.key] == f.count
  {
    RecordedHolds(findings);
    var i :| 0 <= i < |findings| && findings[i] == f;
    var j :| 0 <= j < |findings| && findings[j] == Finding(f.key, Recorded(findings)[f.key]);
  }

  /** The file's counts, as compared with a baseline or recorded in one. */
  function CountsOf(path: string, spans: seq<Span>, limit: nat): Counts { Recorded(FileFindings(path, spans, limit)) }

  lemma CountsHold(path: string, spans: seq<Span>, limit: nat)
    ensures var counts := CountsOf(path, spans, limit);
      && (forall name, rank: nat :: IsEntry(spans, limit, name, rank) ==> FnKey(path, name, rank) in counts)
      && (forall k <- counts ::
            var f := Finding(k, counts[k]); IsUnmeasured(f, path, spans) || IsEntryFinding(f, path, spans, limit))
  {
    FindingsAreEntries(path, spans, limit);
    RecordedHolds(FileFindings(path, spans, limit));
    forall name, rank: nat | IsEntry(spans, limit, name, rank)
      ensures FnKey(path, name, rank) in CountsOf(path, spans, limit)
    {
      assert EntryOf(path, spans, limit, name, rank) in FileFindings(path, spans, limit);
    }
  }

  lemma UnmeasuredCounts(path: string, spans: seq<Span>, limit: nat)
    ensures var counts := CountsOf(path, spans, limit);
      && (UnmeasuredKey(path) in counts <==> UnmeasuredCount(spans) > 0)
      && (UnmeasuredKey(path) in counts ==> counts[UnmeasuredKey(path)] == UnmeasuredCount(spans))
  {
    var counts, k := CountsOf(path, spans, limit), UnmeasuredKey(path);
    FindingsAreEntries(path, spans, limit);
    RecordedHolds(FileFindings(path, spans, limit));
    if k in counts && IsEntryFinding(Finding(k, counts[k]), path, spans, limit) {
      var name, rank :| IsEntry(spans, limit, name, rank)
        && Finding(k, counts[k]) == EntryOf(path, spans, limit, name, rank);
      KeysOfAFile(path, name, rank, name, rank);
    }
  }

  // ------------------------------------------------- when keys stay distinct

  /** No over-limit function bears a name that is another's with a rank that the other reaches. */
  ghost predicate Separate(spans: seq<Span>, limit: nat) {
    forall other, k :: 2 <= k <= |Over(spans, other, limit)| ==> Over(spans, KeyText(other, k), limit) == []
  }

  lemma DistinctConcat(a: seq<Finding>, b: seq<Finding>)
    ensures DistinctKeys(a + b) <==> DistinctKeys(a) && DistinctKeys(b) && forall f <- a, g <- b :: f.key != g.key
  {
    var c := a + b;
    if DistinctKeys(c) {
      forall f <- a, g <- b ensures f.key != g.key {
        var i :| 0 <= i < |a| && a[i] == f;
        var j :| 0 <= j < |b| && b[j] == g;
        assert c[i] == f && c[|a|+j] == g;
      }
      forall i, j | 0 <= i < j < |a| ensures a[i].key != a[j].key { assert c[i] == a[i] && c[j] == a[j]; }
      forall i, j | 0 <= i < j < |b| ensures b[i].key != b[j].key { assert c[|a|+i] == b[i] && c[|a|+j] == b[j]; }
    }
  }

  lemma BlockIsDistinct(path: string, name: string, lengths: seq<nat>)
    ensures DistinctKeys(Block(path, name, lengths))
  {
    var b := Block(path, name, lengths);
    BlockIs(path, name, lengths);
    forall i, j | 0 <= i < j < |b| ensures b[i].key != b[j].key {
      RanksApart(path, name, i + 1, j + 1);
    }
  }

  lemma RanksApart(path: string, name: string, i: nat, j: nat)
    requires 1 <= i < j
    ensures FnKey(path, name, i) != FnKey(path, name, j)
  {
    KeysOfAFile(path, name, i, name, j);
    if KeyText(name, i) == KeyText(name, j) { SameKeyText(name, i, name, j); }
  }

  lemma EntriesApart(path: string, spans: seq<Span>, limit: nat, a: string, i: nat, b: string, j: nat)
    requires Separate(spans, limit) && IsEntry(spans, limit, a, i) && IsEntry(spans, limit, b, j) && a != b
    ensures FnKey(path, a, i) != FnKey(path, b, j)
  {
    KeysOfAFile(path, a, i, b, j);
    if KeyText(a, i) == KeyText(b, j) { SameKeyText(a, i, b, j); }
  }

  lemma {:induction false} SeparateBlocks(path: string, names: seq<string>, spans: seq<Span>, limit: nat)
    requires Separate(spans, limit) && forall i, j :: 0 <= i < j < |names| ==> names[i] != names[j]
    ensures DistinctKeys(Blocks(path, names, spans, limit))
  {
    if names != [] {
      var init, last := names[..|names|-1], names[|names|-1];
      SeparateBlocks(path, init, spans, limit);
      BlocksAreEntries(path, init, spans, limit);
      BlockIsDistinct(path, last, Ranked(spans, last, limit));
      BlockIs(path, last, Ranked(spans, last, limit));
      var a, b := Blocks(path, init, spans, limit), Block(path, last, Ranked(spans, last, limit));
      forall f <- a, g <- b ensures f.key != g.key {
        var name, rank :| name in init && IsEntry(spans, limit, name, rank)
          && f == EntryOf(path, spans, limit, name, rank);
        var k :| 0 <= k < |b| && b[k] == g;
        EntriesApart(path, spans, limit, name, rank, last, k + 1);
      }
      DistinctConcat(a, b);
    }
  }

  /** Two entries of different names with one key are two findings with one key. */
  lemma SharedKey(path: string, names: seq<string>, spans: seq<Span>, limit: nat, a: string, i: nat, b: string, j: nat)
    requires a in names && b in names && a != b && IsEntry(spans, limit, a, i) && IsEntry(spans, limit, b, j)
    requires FnKey(path, a, i) == FnKey(path, b, j)
    ensures !DistinctKeys(Blocks(path, names, spans, limit))
  {
    var p :| 0 <= p < |names| && names[p] == a;
    var q :| 0 <= q < |names| && names[q] == b;
    if p < q {
      SharedAt(path, names, q, spans, limit, a, i, j);
    } else {
      SharedAt(path, names, p, spans, limit, b, j, i);
    }
  }

  lemma SharedAt(path: string, names: seq<string>, q: nat, spans: seq<Span>, limit: nat, a: string, i: nat, j: nat)
    requires q < |names| && a in names[..q] && IsEntry(spans, limit, a, i) && IsEntry(spans, limit, names[q], j)
    requires FnKey(path, a, i) == FnKey(path, names[q], j)
    ensures !DistinctKeys(Blocks(path, names, spans, limit))
  {
    EntriesAreThere(path, names[..q], spans, limit, a, i);
    BlockAt(path, names[q], Ranked(spans, names[q], limit), j - 1);
    LaterSharedKey(path, names, q, spans, limit, EntryOf(path, spans, limit, a, i), j - 1);
  }

  lemma LaterSharedKey(path: string, names: seq<string>, q: nat, spans: seq<Span>, limit: nat, f: Finding, k: nat)
    requires q < |names| && f in Blocks(path, names[..q], spans, limit)
    requires var block := Block(path, names[q], Ranked(spans, names[q], limit)); k < |block| && block[k].key == f.key
    ensures !DistinctKeys(Blocks(path, names, spans, limit))
  {
    var init, block := Blocks(path, names[..q], spans, limit), Block(path, names[q], Ranked(spans, names[q], limit));
    BlocksStep(path, names, q, spans, limit);
    BlocksPrefix(path, names, q + 1, spans, limit);
    NotDistinct(init, block, Blocks(path, names, spans, limit), f, k);
  }

  lemma NotDistinct(a: seq<Finding>, b: seq<Finding>, c: seq<Finding>, f: Finding, j: nat)
    requires a + b <= c && f in a && j < |b| && b[j].key == f.key
    ensures !DistinctKeys(c)
  {
    var i :| 0 <= i < |a| && a[i] == f;
    assert (a + b)[i] == f && (a + b)[|a|+j] == b[j];
    assert c[i] == f && c[|a|+j] == b[j];
  }

  lemma UnmeasuredIsApart(path: string, names: seq<string>, spans: seq<Span>, limit: nat)
    ensures var a := Blocks(path, names, spans, limit);
      DistinctKeys(a + UnmeasuredFindings(path, UnmeasuredCount(spans))) <==> DistinctKeys(a)
  {
    BlocksAreEntries(path, names, spans, limit);
    var a, b := Blocks(path, names, spans, limit), UnmeasuredFindings(path, UnmeasuredCount(spans));
    forall f <- a ensures f.key != UnmeasuredKey(path) {
      var name, rank :| name in names && IsEntry(spans, limit, name, rank)
        && f == EntryOf(path, spans, limit, name, rank);
      KeysOfAFile(path, name, rank, name, rank);
    }
    DistinctConcat(a, b);
  }

  /** The findings of a file have distinct keys exactly when no over-limit function is called `other~k`
      for a `k` between 2 and the number of over-limit functions called `other`. */
  lemma KeysStayDistinct(path: string, spans: seq<Span>, limit: nat)
    ensures DistinctKeys(FileFindings(path, spans, limit)) <==> Separate(spans, limit)
  {
    var names := Names(spans, limit);
    NamesAreOver(spans, limit);
    UnmeasuredIsApart(path, names, spans, limit);
    if Separate(spans, limit) {
      NamesComeOnce(spans, limit);
      SeparateBlocks(path, names, spans, limit);
    } else {
      var other, k :| 2 <= k <= |Over(spans, other, limit)| && Over(spans, KeyText(other, k), limit) != [];
      var name := KeyText(other, k);
      assert IsEntry(spans, limit, other, k) && IsEntry(spans, limit, name, 1);
      SharedKey(path, names, spans, limit, name, 1, other, k);
    }
  }
}
