/** Routing a diff to a slice of the e2e suite (scripts/classify_e2e.py:87-125, 278-289, 410-568).

    `Classify` and `NarrowToSurface` are the source's loops. They are proved to depend only on
    the set of changed paths, and that dependence to be monotone: a bigger diff never loses coverage. */
module E2ERouting {
  import opened Basics

  datatype Category = Inert | Static | Full

  datatype Rule = Rule(tier: Category, prefix: Option<string>, path: Option<string>,
                       extensions: Option<seq<string>>, tag: string)
  {
    predicate Matches(p: string, ext: string) {
      if path.Some? then p == path.value
      else
        && (prefix.Some? ==> prefix.value <= p)
        && (extensions.Some? ==> ext in extensions.value)
        && (prefix.Some? || extensions.Some?)
    }
  }

  datatype Surface = Surface(name: string, targets: seq<string>,
                           prefixes: seq<string>, paths: seq<string>, selectors: seq<string>)
  {
    predicate Matches(p: string) { p in paths || exists x <- prefixes :: x <= p }

    predicate OwnsSelector(s: string) { exists x <- selectors :: x <= s }
  }

  /** `declared` is false for every unusable configuration. */
  datatype Config = Config(rules: seq<Rule>, staticTarget: string, fullTarget: string, declared: bool,
                           surfaces: seq<Surface>, sheets: seq<string>)

  /** What is read from outside: the e2e modules on disk that no other suite file imports, and the
      selectors changed in each shared stylesheet (None when unknown or unsafe). */
  datatype World = World(alone: set<string>, sheetChanges: map<string, Option<set<string>>>)

  datatype Tier = Skip | StaticTier | Whole | OneSurface

  datatype Routing = Routing(tier: Tier, targets: seq<string>, surface: string)

  /** What the loader guarantees of the surfaces it returns. */
  ghost predicate UniqueNames(c: Config) {
    forall i, j :: 0 <= i < j < |c.surfaces| ==> c.surfaces[i].name != c.surfaces[j].name
  }

  // ---------------------------------------------------------- one path alone

  function AfterLast(s: string, c: char): string {
    if c !in s then s else assert s != ""; AfterLast(s[1..], c)
  }

  function Extension(path: string): string {
    var name := AfterLast(path, '/');
    if '.' in name then Lower(AfterLast(name, '.')) else ""
  }

  /** What follows the last `c`, or all of it when there is none. */
  lemma {:induction false} AfterLastMeans(s: string, c: char) returns (front: string)
    ensures s == front + AfterLast(s, c) && c !in AfterLast(s, c)
    ensures if c in s then front != "" && front[|front|-1] == c else front == ""
  {
    if c in s {
      front := AfterLastMeans(s[1..], c);
      front := [s[0]] + front;
    } else {
      front := "";
    }
  }

  lemma {:induction false} AfterLastOf(a: string, b: string, c: char)
    requires c !in b
    ensures AfterLast(a + b, c) == AfterLast(a, c) + b
    ensures AfterLast(a + [c] + b, c) == b
  {
    if a == "" {
      assert a + b == b && a + [c] + b == [c] + b;
      assert c in [c] + b;
    } else {
      assert (a + b)[1..] == a[1..] + b && (a + [c] + b)[1..] == a[1..] + [c] + b;
      assert (a + [c] + b)[|a|] == c;
      AfterLastOf(a[1..], b, c);
    }
  }

  lemma LastPart(stem: string, raw: string)
    requires '/' !in raw
    ensures AfterLast(stem + raw, '/') == AfterLast(stem, '/') + raw
    ensures stem == "" || stem[|stem|-1] == '/' ==> AfterLast(stem, '/') == ""
  {
    AfterLastOf(stem, raw, '/');
    if stem != "" && stem[|stem|-1] == '/' { NothingAfter(stem[..|stem|-1], stem); }
  }

  lemma NothingAfter(front: string, stem: string)
    requires stem == front + ['/']
    ensures AfterLast(stem, '/') == ""
  {
    AfterLastOf(front, "", '/');
    assert front + ['/'] + "" == stem;
  }

  lemma AfterDot(name: string, raw: string)
    requires '.' !in raw
    ensures AfterLast(name + ("." + raw), '.') == raw && '.' in name + ("." + raw)
  {
    AfterLastOf(name, raw, '.');
    assert name + ['.'] + raw == name + ("." + raw);
    assert (name + ("." + raw))[|name|] == '.';
  }

  /** The extension is what follows the last dot of the last part, in lower case ... */
  lemma ExtensionMeans(stem: string, raw: string)
    requires '/' !in raw && '.' !in raw
    ensures Extension(stem + ("." + raw)) == Lower(raw)
  {
    LastPart(stem, "." + raw);
    AfterDot(AfterLast(stem, '/'), raw);
  }

  /** ... and empty without a dot there. */
  lemma NoExtension(stem: string, name: string)
    requires '/' !in name && '.' !in name && (stem == "" || stem[|stem|-1] == '/')
    ensures Extension(stem + name) == ""
  {
    LastPart(stem, name);
  }

  /** A rule for a path matches that path alone; one for nothing matches nothing; and a prefix and extensions
      each narrow what the rule matches. */
  lemma RuleMeans(r: Rule, p: string, ext: string)
    ensures r.path.Some? ==> (r.Matches(p, ext) <==> p == r.path.value)
    ensures r.path.None? && r.prefix.None? && r.extensions.None? ==> !r.Matches(p, ext)
    ensures r.path.None? && r.prefix.Some? && r.extensions.None? ==>
      (r.Matches(p, ext) <==> GoesOn(r.prefix.value, p))
    ensures r.path.None? && r.prefix.None? && r.extensions.Some? ==>
      (r.Matches(p, ext) <==> exists i :: 0 <= i < |r.extensions.value| && ext == r.extensions.value[i])
    ensures r.path.None? && r.prefix.Some? && r.extensions.Some? ==>
      (r.Matches(p, ext) <==> r.(extensions := None).Matches(p, ext) && r.(prefix := None).Matches(p, ext))
  {
    if r.prefix.Some? { StartsWith(r.prefix.value, p); }
  }

  ghost predicate GoesOn(part: string, s: string) { exists rest :: s == part + rest }

  lemma StartsWith(part: string, s: string)
    ensures part <= s <==> GoesOn(part, s)
  {
    if part <= s { assert s == part + s[|part|..]; }
  }

  /** A surface matches the paths it lists and those that go on from a prefix of its, and no other. */
  lemma SurfaceMeans(s: Surface, p: string)
    ensures s.Matches(p) <==> p in s.paths || exists x <- s.prefixes :: GoesOn(x, p)
    ensures s.OwnsSelector(p) <==> exists x <- s.selectors :: GoesOn(x, p)
  {
    forall x: string ensures x <= p <==> GoesOn(x, p) { StartsWith(x, p); }
  }

  datatype Verdict = Verdict(category: Category, tag: string)

  const UNCLASSIFIED: string := "unclassified"

  function FirstMatch(rules: seq<Rule>, path: string, ext: string): Verdict {
    if rules == [] then Verdict(Full, UNCLASSIFIED)
    else if rules[0].Matches(path, ext) then Verdict(rules[0].tier, rules[0].tag)
    else FirstMatch(rules[1..], path, ext)
  }

  function ClassifyOne(path: string, rules: seq<Rule>): Verdict { FirstMatch(rules, path, Extension(path)) }

  /** A path segment `..`. */
  predicate HasParentHop(path: string) {
    || path == ".." || "../" <= path
    || exists i | 0 <= i < |path| :: path[i] == '/' && (path[i+1..] == ".." || "../" <= path[i+1..])
  }

  const ROUTING_SOURCES: set<string> := {".fleet.toml", "scripts/classify_e2e.py"}

  function TrimSlashes(s: string): string {
    if s != "" && s[|s|-1] == '/' then TrimSlashes(s[..|s|-1]) else s
  }

  lemma {:induction false} TrimSlashesMeans(s: string) returns (n: nat)
    ensures n <= |s| && TrimSlashes(s) == s[..n] && (n > 0 ==> s[n-1] != '/')
    ensures forall k :: n <= k < |s| ==> s[k] == '/'
  {
    n := |s|;
    if s != "" && s[|s|-1] == '/' {
      n := TrimSlashesMeans(s[..|s|-1]);
      assert s[..|s|-1][..n] == s[..n];
    }
  }

  predicate EndsWith(s: string, end: string) { |end| <= |s| && s[|s|-|end|..] == end }

  predicate SelfOnlyModule(path: string, c: Config, w: World) {
    var name := AfterLast(path, '/');
    && TrimSlashes(c.fullTarget) + "/" <= path && EndsWith(name, ".py")
    && ("test_" <= name || EndsWith(name, "_test.py"))
    && path in w.alone
  }

  /** `s` is something followed by `end`. */
  ghost predicate Closes(s: string, end: string) { exists front :: s == front + end }

  lemma EndsWithMeans(s: string, end: string)
    ensures EndsWith(s, end) <==> Closes(s, end)
  {
    if EndsWith(s, end) { assert s == s[..|s|-|end|] + end; }
    if front :| s == front + end { assert s[|s|-|end|..] == end; }
  }

  /** A module that runs itself: on disk, imported by nothing, in the suite's directory or below it, and
      its own name that of a Python test. */
  lemma SelfOnlyMeans(path: string, c: Config, w: World, dir: string, name: string)
    requires path == dir + name && '/' !in name && (dir == "" || dir[|dir|-1] == '/')
    ensures SelfOnlyModule(path, c, w) <==>
      && path in w.alone && GoesOn(TrimSlashes(c.fullTarget) + "/", path)
      && Closes(name, ".py") && (GoesOn("test_", name) || Closes(name, "_test.py"))
  {
    LastPart(dir, name);
    StartsWith(TrimSlashes(c.fullTarget) + "/", path);
    StartsWith("test_", name);
    EndsWithMeans(name, ".py");
    EndsWithMeans(name, "_test.py");
  }

  /** The indexes from `from` on of the surfaces that match the path. */
  function Matching(surfaces: seq<Surface>, path: string, from: nat): (r: seq<nat>)
    requires from <= |surfaces|
    ensures forall i <- r :: i < |surfaces|
    decreases |surfaces| - from
  {
    if from == |surfaces| then []
    else (if surfaces[from].Matches(path) then [from] else []) + Matching(surfaces, path, from + 1)
  }

  function Owning(surfaces: seq<Surface>, selector: string, from: nat): (r: seq<nat>)
    requires from <= |surfaces|
    ensures forall i <- r :: i < |surfaces|
    decreases |surfaces| - from
  {
    if from == |surfaces| then []
    else (if surfaces[from].OwnsSelector(selector) then [from] else []) + Owning(surfaces, selector, from + 1)
  }

  /** The one surface owning every rule the diff changes in the sheet. */
  predicate OwnsSheet(i: nat, path: string, c: Config, w: World) {
    && i < |c.surfaces|
    && path in w.sheetChanges && w.sheetChanges[path].Some? && w.sheetChanges[path].value != {}
    && forall s <- w.sheetChanges[path].value :: Owning(c.surfaces, s, 0) == [i]
  }

  method SheetOwner(path: string, c: Config, w: World) returns (owner: Option<nat>)
    ensures owner.Some? ==> OwnsSheet(owner.value, path, c, w)
    ensures owner.None? ==> forall i: nat :: !OwnsSheet(i, path, c, w)
  {
    if path !in w.sheetChanges || w.sheetChanges[path].None? || w.sheetChanges[path].value == {} {
      return None;
    }
    owner := None;
    var rest := w.sheetChanges[path].value;
    ghost var done := {};
    while rest != {}
      invariant done + rest == w.sheetChanges[path].value
      invariant owner.None? <==> done == {}
      invariant owner.Some? ==> owner.value < |c.surfaces|
      invariant owner.Some? ==> forall s <- done :: Owning(c.surfaces, s, 0) == [owner.value]
      decreases rest
    {
      var sel :| sel in rest;
      var owners := Owning(c.surfaces, sel, 0);
      if |owners| != 1 || (owner.Some? && owners[0] != owner.value) {
        if owner.Some? {
          ghost var s :| s in done;
          assert Owning(c.surfaces, s, 0) == [owner.value] && s in w.sheetChanges[path].value;
        }
        assert sel in w.sheetChanges[path].value;
        return None;
      }
      assert owners[0] in owners;
      owner := Some(owners[0]);
      assert owners == [owners[0]];
      rest, done := rest - {sel}, done + {sel};
    }
  }

  /** What a changed path asks of a would-be-full diff. */
  datatype Role = Ignored | Module | Owned(surface: nat) | Blocks

  ghost function RoleOf(path: string, c: Config, w: World): (r: Role)
    ensures r.Owned? ==> r.surface < |c.surfaces|
  {
    var v := ClassifyOne(path, c.rules);
    if v.tag == UNCLASSIFIED || path in ROUTING_SOURCES || HasParentHop(path) then Blocks
    else if v.category == Inert then Ignored
    else if path in c.sheets then
      if i: nat :| OwnsSheet(i, path, c, w) then Owned(i) else Blocks
    else
      var owners := Matching(c.surfaces, path, 0);
      if owners == [] && v.category == Full && SelfOnlyModule(path, c, w) then Module
      else if |owners| == 1 then assert owners[0] in owners; Owned(owners[0]) else Blocks
  }

  lemma SheetOwnerIsUnique(i: nat, j: nat, path: string, c: Config, w: World)
    requires OwnsSheet(i, path, c, w) && OwnsSheet(j, path, c, w)
    ensures i == j
  {
    var s :| s in w.sheetChanges[path].value;
    assert Owning(c.surfaces, s, 0) == [i] && Owning(c.surfaces, s, 0) == [j];
    assert [i][0] == [j][0];
  }

  // ------------------------------------------------ the whole diff, as a set

  /** The would-be-full diff narrows: nothing blocks it, its owned paths share one surface, and something is
      owned or runs itself. */
  ghost predicate Narrows(c: Config, w: World, diff: set<string>) {
    && (forall p <- diff :: !RoleOf(p, c, w).Blocks?)
    && (forall p <- diff, q <- diff ::
          RoleOf(p, c, w).Owned? && RoleOf(q, c, w).Owned? ==> RoleOf(p, c, w) == RoleOf(q, c, w))
    && (exists p <- diff :: !RoleOf(p, c, w).Ignored?)
  }

  ghost predicate Has(c: Config, diff: set<string>, cat: Category) {
    exists p <- diff :: ClassifyOne(p, c.rules).category == cat
  }

  ghost function SurfaceTargets(c: Config, w: World, diff: set<string>): set<string> {
    (set p, t | p in diff && RoleOf(p, c, w).Owned? && t in c.surfaces[RoleOf(p, c, w).surface].targets :: t)
    + (set p | p in diff && RoleOf(p, c, w).Module?)
    + (if Has(c, diff, Static) then {c.staticTarget} else {})
    - {""}
  }

  ghost function TierOf(c: Config, w: World, diff: set<string>): Tier {
    if !c.declared || diff == {} then Whole
    else if Has(c, diff, Full) then (if Narrows(c, w, diff) then OneSurface else Whole)
    else if Has(c, diff, Static) then StaticTier
    else Skip
  }

  function WholeTarget(c: Config): string { if !c.declared && c.fullTarget == "" then "tests/e2e" else c.fullTarget }

  ghost function TargetsOf(c: Config, w: World, diff: set<string>): set<string> {
    match TierOf(c, w, diff)
    case Whole => {WholeTarget(c)} - {""}
    case OneSurface => SurfaceTargets(c, w, diff)
    case StaticTier => {c.staticTarget} - {""}
    case Skip => {}
  }

  /** The targets a routing runs. */
  function TargetSet(r: Routing): set<string> { set t | t in r.targets && t != "" }

  // --------------------------------------------------------------- the loops

  datatype Classified = Classified(path: string, verdict: Verdict)

  ghost predicate AllClassified(c: Config, cs: seq<Classified>) {
    forall x <- cs :: x.verdict == ClassifyOne(x.path, c.rules)
  }

  function Paths(cs: seq<Classified>): set<string> { set x | x in cs :: x.path }

  /** Surface or blocking role of one path outside the early checks; None when it blocks. */
  method OwnerOf(x: Classified, c: Config, w: World) returns (role: Role)
    requires x.verdict == ClassifyOne(x.path, c.rules)
    requires !NeverNarrows(x)
    ensures role == RoleOf(x.path, c, w)
  {
    if x.verdict.category == Inert {
      return Ignored;
    }
    var owners: seq<nat>;
    if x.path in c.sheets {
      var owner := SheetOwner(x.path, c, w);
      if owner.None? {
        return Blocks;
      }
      ghost var j: nat :| OwnsSheet(j, x.path, c, w) && RoleOf(x.path, c, w) == Owned(j);
      SheetOwnerIsUnique(owner.value, j, x.path, c, w);
      owners := [owner.value];
    } else {
      owners := Matching(c.surfaces, x.path, 0);
    }
    if owners == [] && x.verdict.category == Full && SelfOnlyModule(x.path, c, w) {
      return Module;
    }
    return if |owners| == 1 then Owned(owners[0]) else Blocks;
  }

  /** The loop's view of the paths handled so far: one surface at most, and the modules apart. */
  ghost predicate Gathered(c: Config, w: World, cs: seq<Classified>, hit: Option<nat>, modules: seq<string>) {
    && (forall x <- cs :: !RoleOf(x.path, c, w).Blocks?)
    && (forall x <- cs :: RoleOf(x.path, c, w).Owned? ==> hit == Some(RoleOf(x.path, c, w).surface))
    && (hit.Some? ==> exists x <- cs :: RoleOf(x.path, c, w) == Owned(hit.value))
    && (forall m :: m in modules <==> exists x <- cs :: x.path == m && RoleOf(m, c, w).Module?)
  }

  lemma GatheredNarrows(c: Config, w: World, cs: seq<Classified>, hit: Option<nat>, modules: seq<string>)
    requires Gathered(c, w, cs, hit, modules)
    ensures Narrows(c, w, Paths(cs)) <==> hit.Some? || modules != []
  {
    if hit.Some? {
      var x :| x in cs && RoleOf(x.path, c, w) == Owned(hit.value);
      assert x.path in Paths(cs);
    } else if modules != [] {
      assert modules[0] in modules;
      assert modules[0] in Paths(cs);
    }
  }

  lemma GatheredStatic(c: Config, cs: seq<Classified>)
    requires AllClassified(c, cs)
    ensures Has(c, Paths(cs), Static) <==> exists x <- cs :: x.verdict.category == Static
  {
    if Has(c, Paths(cs), Static) {
      var p :| p in Paths(cs) && ClassifyOne(p, c.rules).category == Static;
      var x :| x in cs && x.path == p;
    }
    if x :| x in cs && x.verdict.category == Static { assert x.path in Paths(cs); }
  }

  lemma GatheredTargets(c: Config, w: World, cs: seq<Classified>, hit: Option<nat>, modules: seq<string>,
                        targets: set<string>)
    requires Gathered(c, w, cs, hit, modules) && AllClassified(c, cs)
    requires hit.Some? ==> hit.value < |c.surfaces|
    requires forall t :: t in targets <==> (t != "" && (
      || (hit.Some? && t in c.surfaces[hit.value].targets)
      || ((exists x <- cs :: x.verdict.category == Static) && t == c.staticTarget)
      || t in modules))
    ensures targets == SurfaceTargets(c, w, Paths(cs))
  {
    GatheredStatic(c, cs);
    if hit.Some? {
      var x :| x in cs && RoleOf(x.path, c, w) == Owned(hit.value);
      assert x.path in Paths(cs);
    }
    forall t ensures t in targets <==> t in SurfaceTargets(c, w, Paths(cs)) {}
  }

  lemma GatherStep(c: Config, w: World, cs: seq<Classified>, x: Classified, hit: Option<nat>, modules: seq<string>)
    requires Gathered(c, w, cs, hit, modules)
    ensures RoleOf(x.path, c, w).Ignored? ==> Gathered(c, w, cs + [x], hit, modules)
    ensures RoleOf(x.path, c, w).Module? ==> Gathered(c, w, cs + [x], hit, modules + [x.path])
    ensures RoleOf(x.path, c, w).Owned? && hit in {None, Some(RoleOf(x.path, c, w).surface)} ==>
      Gathered(c, w, cs + [x], Some(RoleOf(x.path, c, w).surface), modules)
  {
    var all := cs + [x];
    assert x in all && forall y <- cs :: y in all;
    assert forall y <- all :: y in cs || y == x;
    var ms := if RoleOf(x.path, c, w).Module? then modules + [x.path] else modules;
    forall m ensures m in ms <==> (m in modules || (m == x.path && RoleOf(x.path, c, w).Module?)) {}
  }

  /** Two owned paths in different surfaces, or a blocking one, keep the whole suite. */
  lemma Clash(c: Config, w: World, cs: seq<Classified>, x: Classified, hit: Option<nat>, modules: seq<string>)
    requires UniqueNames(c) && Gathered(c, w, cs, hit, modules)
    requires var role := RoleOf(x.path, c, w);
      role.Blocks? || (role.Owned? && hit.Some? && role != Owned(hit.value))
    ensures forall diff: set<string> :: Paths(cs + [x]) <= diff ==> !Narrows(c, w, diff)
  {
    assert x in cs + [x];
    assert x.path in Paths(cs + [x]);
    if hit.Some? {
      var y :| y in cs && RoleOf(y.path, c, w) == Owned(hit.value);
      assert y in cs + [x];
      assert y.path in Paths(cs + [x]);
    }
  }

  lemma PathsGrow(cs: seq<Classified>, n: nat)
    requires n < |cs|
    ensures cs[..n] + [cs[n]] == cs[..n+1] && Paths(cs[..n] + [cs[n]]) <= Paths(cs)
  {}

  /** The loop over the classified paths; not `ok` when some path keeps the whole suite. */
  method Gather(cs: seq<Classified>, c: Config, w: World) returns (ok: bool, hit: Option<nat>, modules: seq<string>)
    requires UniqueNames(c) && AllClassified(c, cs)
    requires forall x <- cs :: !NeverNarrows(x)
    ensures hit.Some? ==> hit.value < |c.surfaces|
    ensures if ok then Gathered(c, w, cs, hit, modules) else !Narrows(c, w, Paths(cs))
  {
    hit, modules := None, [];
    for i := 0 to |cs|
      invariant hit.Some? ==> hit.value < |c.surfaces|
      invariant Gathered(c, w, cs[..i], hit, modules)
    {
      var role := OwnerOf(cs[i], c, w);
      GatherStep(c, w, cs[..i], cs[i], hit, modules);
      PathsGrow(cs, i);
      if role.Blocks? || (role.Owned? && hit.Some? && c.surfaces[role.surface].name != c.surfaces[hit.value].name) {
        Clash(c, w, cs[..i], cs[i], hit, modules);
        return false, None, [];
      }
      if role.Module? {
        modules := modules + [cs[i].path];
      } else if role.Owned? && hit.None? {
        hit := Some(role.surface);
      }
    }
    assert cs[..|cs|] == cs;
    ok := true;
  }

  /** The targets in the order they are run: the surface's, the smoke target, the modules. */
  function Assemble(own: seq<string>, smoke: string, hasStatic: bool, modules: seq<string>): (targets: seq<string>)
    ensures forall t :: t in targets && t != "" <==> t != "" && (t in own || (hasStatic && t == smoke) || t in modules)
  {
    var targets := if hasStatic && smoke != "" && smoke !in own then own + [smoke] else own;
    targets + Missing(modules, targets)
  }

  predicate NeverNarrows(x: Classified) {
    x.verdict.tag == UNCLASSIFIED || x.path in ROUTING_SOURCES || HasParentHop(x.path)
  }

  lemma NeverNarrowing(c: Config, w: World, cs: seq<Classified>)
    requires AllClassified(c, cs) && exists x <- cs :: NeverNarrows(x)
    ensures !Narrows(c, w, Paths(cs))
  {
    var x :| x in cs && NeverNarrows(x);
    assert x.path in Paths(cs) && RoleOf(x.path, c, w).Blocks?;
  }

  method NarrowToSurface(cs: seq<Classified>, c: Config, w: World) returns (r: Option<Routing>)
    requires UniqueNames(c) && AllClassified(c, cs)
    ensures r.Some? <==> Narrows(c, w, Paths(cs))
    ensures r.Some? ==> r.value.tier == OneSurface && TargetSet(r.value) == SurfaceTargets(c, w, Paths(cs))
    ensures r.Some? ==> forall x <- cs ::
      var role := RoleOf(x.path, c, w); role.Owned? ==> r.value.surface == c.surfaces[role.surface].name
  {
    if exists x <- cs :: NeverNarrows(x) {
      NeverNarrowing(c, w, cs);
      return None;
    }
    assert forall x <- cs :: !NeverNarrows(x);
    var ok, hit, modules := Gather(cs, c, w);
    if !ok {
      return None;
    }
    GatheredNarrows(c, w, cs, hit, modules);
    if hit.None? && modules == [] {
      return None;
    }
    var own := if hit.Some? then c.surfaces[hit.value].targets else [];
    var targets := Assemble(own, c.staticTarget, exists x <- cs :: x.verdict.category == Static, modules);
    r := Some(Routing(OneSurface, targets, if hit.Some? then c.surfaces[hit.value].name else "self"));
    GatheredTargets(c, w, cs, hit, modules, TargetSet(r.value));
  }

  function Missing(modules: seq<string>, targets: seq<string>): (r: seq<string>)
    ensures forall m :: m in r <==> m in modules && m !in targets
  {
    if modules == [] then []
    else (if modules[0] in targets then [] else [modules[0]]) + Missing(modules[1..], targets)
  }

  function ForwardSlashes(s: string): string {
    if s == "" then "" else [if s[0] == '\\' then '/' else s[0]] + ForwardSlashes(s[1..])
  }

  function Clean(raw: string): string { ForwardSlashes(Strip(raw)) }

  lemma {:induction false} ForwardSlashesMeans(s: string)
    ensures |ForwardSlashes(s)| == |s|
    ensures forall i :: 0 <= i < |s| ==> ForwardSlashes(s)[i] == if s[i] == '\\' then '/' else s[i]
  {
    if s != "" { ForwardSlashesMeans(s[1..]); }
  }

  /** The changed paths a list of raw ones stands for. */
  function DiffOf(raws: seq<string>): set<string> { set raw | raw in raws && Clean(raw) != "" :: Clean(raw) }

  lemma DiffSnoc(raws: seq<string>, raw: string)
    ensures DiffOf(raws + [raw]) == DiffOf(raws) + if Clean(raw) == "" then {} else {Clean(raw)}
  {
    assert raw in raws + [raw] && forall x <- raws :: x in raws + [raw];
  }

  lemma PathsSnoc(cs: seq<Classified>, x: Classified)
    ensures Paths(cs + [x]) == Paths(cs) + {x.path}
  {
    assert x in cs + [x] && forall y <- cs :: y in cs + [x];
  }

  function Higher(a: Category, b: Category): Category {
    if a == Full || b == Full then Full else if a == Static || b == Static then Static else Inert
  }

  /** The highest category among the paths. */
  ghost predicate IsTop(c: Config, diff: set<string>, top: Category) {
    top == if Has(c, diff, Full) then Full else if Has(c, diff, Static) then Static else Inert
  }

  lemma TopSnoc(c: Config, diff: set<string>, path: string, top: Category)
    requires IsTop(c, diff, top)
    ensures IsTop(c, diff + {path}, Higher(top, ClassifyOne(path, c.rules).category))
  {
    forall cat ensures Has(c, diff + {path}, cat) <==> Has(c, diff, cat) || ClassifyOne(path, c.rules).category == cat {
      if p :| p in diff && ClassifyOne(p, c.rules).category == cat { assert p in diff + {path}; }
      assert path in diff + {path};
    }
  }

  /** Every path classified, and the highest category. */
  method ClassifyAll(raws: seq<string>, c: Config) returns (cs: seq<Classified>, top: Category)
    ensures AllClassified(c, cs) && Paths(cs) == DiffOf(raws) && IsTop(c, DiffOf(raws), top)
  {
    cs, top := [], Inert;
    for i := 0 to |raws|
      invariant AllClassified(c, cs) && Paths(cs) == DiffOf(raws[..i]) && IsTop(c, DiffOf(raws[..i]), top)
    {
      assert raws[..i+1] == raws[..i] + [raws[i]];
      DiffSnoc(raws[..i], raws[i]);
      var path := Clean(raws[i]);
      if path == "" {
        continue;
      }
      var v := ClassifyOne(path, c.rules);
      TopSnoc(c, DiffOf(raws[..i]), path, top);
      PathsSnoc(cs, Classified(path, v));
      cs, top := cs + [Classified(path, v)], Higher(top, v.category);
    }
    assert raws[..|raws|] == raws;
  }

  lemma OneTarget(tier: Tier, t: string)
    ensures TargetSet(Routing(tier, [t], "")) == {t} - {""}
  {}

  /** The routing depends on the set of changed paths alone, so on no order or repetition. */
  method Classify(raws: seq<string>, c: Config, w: World) returns (r: Routing)
    requires UniqueNames(c)
    ensures r.tier == TierOf(c, w, DiffOf(raws))
    ensures TargetSet(r) == TargetsOf(c, w, DiffOf(raws))
  {
    OneTarget(Whole, WholeTarget(c));
    if !c.declared {
      return Routing(Whole, [WholeTarget(c)], "");
    }
    OneTarget(StaticTier, c.staticTarget);
    var cs, top := ClassifyAll(raws, c);
    if cs == [] {
      return Routing(Whole, [c.fullTarget], "");
    }
    assert cs[0].path in Paths(cs);
    if top == Full {
      var narrowed := NarrowToSurface(cs, c, w);
      return if narrowed.Some? then narrowed.value else Routing(Whole, [c.fullTarget], "");
    }
    return if top == Static then Routing(StaticTier, [c.staticTarget], "") else Routing(Skip, [], "");
  }

  // ------------------------------------------------------------ main results

  lemma RolesByCategory(path: string, c: Config, w: World)
    ensures RoleOf(path, c, w).Ignored? ==> ClassifyOne(path, c.rules).category == Inert
  {}

  lemma HasGrows(c: Config, a: set<string>, b: set<string>, cat: Category)
    requires a <= b && Has(c, a, cat)
    ensures Has(c, b, cat)
  {
    var p :| p in a && ClassifyOne(p, c.rules).category == cat;
    assert p in b;
  }

  /** A diff with a full path narrows whenever a bigger one does. */
  lemma NarrowingShrinks(c: Config, w: World, a: set<string>, b: set<string>)
    requires a <= b && Has(c, a, Full) && Narrows(c, w, b)
    ensures Narrows(c, w, a)
  {
    var p :| p in a && ClassifyOne(p, c.rules).category == Full;
    RolesByCategory(p, c, w);
    assert forall q <- a :: q in b;
  }

  lemma SurfaceTargetsGrow(c: Config, w: World, a: set<string>, b: set<string>)
    requires a <= b
    ensures SurfaceTargets(c, w, a) <= SurfaceTargets(c, w, b)
  {
    if Has(c, a, Static) { HasGrows(c, a, b, Static); }
  }

  /** A bigger diff never loses coverage: it runs the whole suite, or at least every target of the smaller one. */
  lemma {:induction false} CoverageIsMonotone(c: Config, w: World, a: set<string>, b: set<string>)
    requires a != {} && a <= b
    ensures TierOf(c, w, b) == Whole || TargetsOf(c, w, a) <= TargetsOf(c, w, b)
    ensures TierOf(c, w, a) == Whole ==> TierOf(c, w, b) == Whole
  {
    if Has(c, a, Full) {
      HasGrows(c, a, b, Full);
      if Narrows(c, w, b) { NarrowingShrinks(c, w, a, b); }
      SurfaceTargetsGrow(c, w, a, b);
    } else if Has(c, a, Static) {
      HasGrows(c, a, b, Static);
    }
  }

  // -------------------------------------------- the routing, from the declarations

  /** Rule `i` decides the path: it matches and none before it does. */
  ghost predicate Decides(rules: seq<Rule>, i: nat, path: string) {
    && i < |rules| && rules[i].Matches(path, Extension(path))
    && forall j :: 0 <= j < i ==> !rules[j].Matches(path, Extension(path))
  }

  ghost predicate Unmatched(rules: seq<Rule>, path: string) { forall r <- rules :: !r.Matches(path, Extension(path)) }

  /** The coverage a path needs: that of its deciding rule, and everything when there is none. */
  ghost predicate Needs(c: Config, path: string, cat: Category) {
    (cat.Full? && Unmatched(c.rules, path)) || exists i: nat :: Decides(c.rules, i, path) && c.rules[i].tier == cat
  }

  /** The parts of a path between its slashes. */
  function Segments(path: string): (r: seq<string>)
    ensures r != []
  {
    if path == "" then [""]
    else
      var rest := Segments(path[1..]);
      if path[0] == '/' then [""] + rest else [[path[0]] + rest[0]] + rest[1..]
  }

  /** Nothing about the path can be judged from the declarations. */
  ghost predicate Unsure(c: Config, path: string) {
    || Unmatched(c.rules, path)
    || (exists i: nat :: Decides(c.rules, i, path) && c.rules[i].tag == UNCLASSIFIED)
    || path in ROUTING_SOURCES
    || ".." in Segments(path)
  }

  ghost predicate SoleClaimant(c: Config, i: nat, selector: string) {
    i < |c.surfaces| && forall j :: 0 <= j < |c.surfaces| ==> (c.surfaces[j].OwnsSelector(selector) <==> j == i)
  }

  ghost predicate SoleMatch(c: Config, i: nat, path: string) {
    i < |c.surfaces| && forall j :: 0 <= j < |c.surfaces| ==> (c.surfaces[j].Matches(path) <==> j == i)
  }

  /** Surface `i` alone covers the path, or every selector the diff changes in it. */
  ghost predicate Covers(c: Config, w: World, i: nat, path: string) {
    if path !in c.sheets then SoleMatch(c, i, path)
    else
      && path in w.sheetChanges && w.sheetChanges[path].Some? && w.sheetChanges[path].value != {}
      && forall s <- w.sheetChanges[path].value :: SoleClaimant(c, i, s)
  }

  /** Only the path's own run can be broken by it. */
  ghost predicate RunsItself(c: Config, w: World, path: string) {
    && path !in c.sheets && Needs(c, path, Full) && SelfOnlyModule(path, c, w)
    && forall s <- c.surfaces :: !s.Matches(path)
  }

  /** Every path that matters is covered by surface `i` or runs itself. */
  ghost predicate Within(c: Config, w: World, i: nat, diff: set<string>) {
    forall p <- diff :: Needs(c, p, Inert) || RunsItself(c, w, p) || Covers(c, w, i, p)
  }

  lemma {:induction false} FirstMatchMeans(rules: seq<Rule>, path: string)
    ensures Unmatched(rules, path) ==> FirstMatch(rules, path, Extension(path)) == Verdict(Full, UNCLASSIFIED)
    ensures forall i: nat :: Decides(rules, i, path) ==>
      FirstMatch(rules, path, Extension(path)) == Verdict(rules[i].tier, rules[i].tag)
  {
    if rules != [] && !rules[0].Matches(path, Extension(path)) {
      FirstMatchMeans(rules[1..], path);
      forall i: nat | Decides(rules, i, path)
        ensures FirstMatch(rules, path, Extension(path)) == Verdict(rules[i].tier, rules[i].tag)
      {
        DecidesInRest(rules, i, path);
      }
    }
  }

  lemma DecidesInRest(rules: seq<Rule>, i: nat, path: string)
    requires Decides(rules, i, path) && !rules[0].Matches(path, Extension(path))
    ensures i > 0 && Decides(rules[1..], i - 1, path) && rules[1..][i-1] == rules[i]
  {}

  /** Unless no rule matches, one decides. */
  lemma {:induction false} SomeRuleDecides(c: Config, path: string, n: nat) returns (i: nat)
    requires n <= |c.rules| && forall j :: 0 <= j < n ==> !c.rules[j].Matches(path, Extension(path))
    ensures Unmatched(c.rules, path) || Decides(c.rules, i, path)
    decreases |c.rules| - n
  {
    if n == |c.rules| || c.rules[n].Matches(path, Extension(path)) {
      i := n;
    } else {
      i := SomeRuleDecides(c, path, n + 1);
    }
  }

  lemma VerdictMeans(c: Config, path: string)
    ensures forall cat :: Needs(c, path, cat) <==> ClassifyOne(path, c.rules).category == cat
    ensures ClassifyOne(path, c.rules).tag == UNCLASSIFIED <==>
      Unmatched(c.rules, path) || exists i: nat :: Decides(c.rules, i, path) && c.rules[i].tag == UNCLASSIFIED
  {
    FirstMatchMeans(c.rules, path);
    var i := SomeRuleDecides(c, path, 0);
    forall j: nat | Decides(c.rules, j, path)
      ensures ClassifyOne(path, c.rules) == Verdict(c.rules[j].tier, c.rules[j].tag)
    {}
  }

  /** The path starts with a segment `..`. */
  predicate StartsUp(s: string) { s == ".." || "../" <= s }

  lemma {:induction false} FirstSegment(s: string)
    ensures Segments(s)[0] == "" <==> s == "" || s[0] == '/'
    ensures Segments(s)[0] == "." <==> s == "." || "./" <= s
    ensures Segments(s)[0] == ".." <==> StartsUp(s)
  {
    if s != "" {
      FirstSegment(s[1..]);
      assert s == [s[0]] + s[1..];
    }
  }

  lemma {:induction false} LaterSegments(s: string)
    ensures ".." in Segments(s)[1..] <==> exists i :: 0 <= i < |s| && s[i] == '/' && StartsUp(s[i+1..])
  {
    if s != "" {
      LaterSegments(s[1..]);
      FirstSegment(s[1..]);
      SegmentsStep(s);
      LaterSlash(s);
    }
  }

  lemma SegmentsStep(s: string)
    requires s != ""
    ensures var rest := Segments(s[1..]);
      ".." in Segments(s)[1..] <==> ".." in rest[1..] || (s[0] == '/' && rest[0] == "..")
  {
    var rest := Segments(s[1..]);
    assert rest == [rest[0]] + rest[1..];
    assert Segments(s)[1..] == if s[0] == '/' then rest else rest[1..];
  }

  lemma LaterSlash(s: string)
    requires s != ""
    ensures (exists i :: 0 <= i < |s| && s[i] == '/' && StartsUp(s[i+1..])) <==>
      (s[0] == '/' && StartsUp(s[1..])) || exists i :: 0 <= i < |s[1..]| && s[1..][i] == '/' && StartsUp(s[1..][i+1..])
  {
    if i :| 0 <= i < |s| && s[i] == '/' && StartsUp(s[i+1..]) {
      if i > 0 { assert s[1..][i-1] == '/' && s[1..][i-1+1..] == s[i+1..]; }
    }
    if i :| 0 <= i < |s[1..]| && s[1..][i] == '/' && StartsUp(s[1..][i+1..]) {
      assert s[i+1] == '/' && s[i+1+1..] == s[1..][i+1..];
    }
  }

  /** Any `..` between slashes counts, wherever it stands. */
  lemma ParentHopsAreSegments(path: string)
    ensures HasParentHop(path) <==> ".." in Segments(path)
  {
    FirstSegment(path);
    LaterSegments(path);
    var r := Segments(path);
    assert r == [r[0]] + r[1..];
    if i :| 0 <= i < |path| && path[i] == '/' && StartsUp(path[i+1..]) {
      assert path[i+1..] == ".." || "../" <= path[i+1..];
    }
  }

  lemma CoversMeans(c: Config, w: World, i: nat, path: string)
    ensures Covers(c, w, i, path) <==>
      if path in c.sheets then OwnsSheet(i, path, c, w)
      else Matching(c.surfaces, path, 0) == [i] && i < |c.surfaces|
  {
    if path in c.sheets {
      if path in w.sheetChanges && w.sheetChanges[path].Some? {
        forall s <- w.sheetChanges[path].value
          ensures i < |c.surfaces| ==> (SoleClaimant(c, i, s) <==> Owning(c.surfaces, s, 0) == [i])
        {
          if i < |c.surfaces| { OwningOne(c, i, s); }
        }
      }
    } else if i < |c.surfaces| {
      MatchingOne(c, i, path);
    }
  }

  lemma OwningOne(c: Config, i: nat, s: string)
    requires i < |c.surfaces|
    ensures SoleClaimant(c, i, s) <==> Owning(c.surfaces, s, 0) == [i]
  {
    forall j: nat | j < |c.surfaces| ensures j in Owning(c.surfaces, s, 0) <==> c.surfaces[j].OwnsSelector(s) {
      OwningIsExact(c.surfaces, s, 0, j);
    }
    OwningAscends(c.surfaces, s, 0);
    OneElement(Owning(c.surfaces, s, 0), i);
  }

  lemma MatchingOne(c: Config, i: nat, path: string)
    requires i < |c.surfaces|
    ensures SoleMatch(c, i, path) <==> Matching(c.surfaces, path, 0) == [i]
  {
    forall j: nat | j < |c.surfaces| ensures j in Matching(c.surfaces, path, 0) <==> c.surfaces[j].Matches(path) {
      MatchingIsExact(c.surfaces, path, 0, j);
    }
    MatchingAscends(c.surfaces, path, 0);
    OneElement(Matching(c.surfaces, path, 0), i);
  }

  ghost predicate Ascends(ns: seq<nat>) { forall j, k :: 0 <= j < k < |ns| ==> ns[j] < ns[k] }

  lemma AscendsCons(n: nat, ns: seq<nat>)
    requires Ascends(ns) && forall m <- ns :: m > n
    ensures Ascends([n] + ns) && [] + ns == ns
  {
    forall k | 0 < k < |[n] + ns| ensures n < ([n] + ns)[k] { assert ([n] + ns)[k] in ns; }
  }

  lemma OneElement(ns: seq<nat>, i: nat)
    requires Ascends(ns)
    ensures ns == [i] <==> i in ns && forall n <- ns :: n == i
  {
    assert |ns| > 1 ==> ns[0] < ns[1];
    if i in ns && forall n <- ns :: n == i {
      forall k | 0 <= k < |ns| ensures ns[k] == i { assert ns[k] in ns; }
    }
  }

  lemma {:induction false} MatchingAscends(surfaces: seq<Surface>, path: string, from: nat)
    requires from <= |surfaces|
    ensures Ascends(Matching(surfaces, path, from)) && forall n <- Matching(surfaces, path, from) :: n >= from
    decreases |surfaces| - from
  {
    if from < |surfaces| {
      MatchingAscends(surfaces, path, from + 1);
      AscendsCons(from, Matching(surfaces, path, from + 1));
    }
  }

  lemma {:induction false} OwningAscends(surfaces: seq<Surface>, selector: string, from: nat)
    requires from <= |surfaces|
    ensures Ascends(Owning(surfaces, selector, from)) && forall n <- Owning(surfaces, selector, from) :: n >= from
    decreases |surfaces| - from
  {
    if from < |surfaces| {
      OwningAscends(surfaces, selector, from + 1);
      AscendsCons(from, Owning(surfaces, selector, from + 1));
    }
  }

  lemma RoleMeans(c: Config, w: World, path: string)
    ensures Unsure(c, path) ==> RoleOf(path, c, w).Blocks?
    ensures !Unsure(c, path) && Needs(c, path, Inert) ==> RoleOf(path, c, w).Ignored?
    ensures !Unsure(c, path) && !Needs(c, path, Inert) ==>
      && (RoleOf(path, c, w).Module? <==> RunsItself(c, w, path))
      && forall i: nat :: RoleOf(path, c, w) == Owned(i) <==> Covers(c, w, i, path)
  {
    VerdictMeans(c, path);
    ParentHopsAreSegments(path);
    forall i: nat ensures Covers(c, w, i, path) <==>
      if path in c.sheets then OwnsSheet(i, path, c, w)
      else Matching(c.surfaces, path, 0) == [i] && i < |c.surfaces|
    {
      CoversMeans(c, w, i, path);
    }
    if path in c.sheets {
      forall i: nat, j: nat | OwnsSheet(i, path, c, w) && OwnsSheet(j, path, c, w) ensures i == j {
        SheetOwnerIsUnique(i, j, path, c, w);
      }
    } else {
      NoMatching(c, path);
    }
  }

  lemma NoMatching(c: Config, path: string)
    ensures Matching(c.surfaces, path, 0) == [] <==> forall s <- c.surfaces :: !s.Matches(path)
  {
    var m := Matching(c.surfaces, path, 0);
    if m == [] {
      forall i: nat | i < |c.surfaces| ensures !c.surfaces[i].Matches(path) { MatchingIsExact(c.surfaces, path, 0, i); }
    } else {
      assert m[0] in m;
      MatchingIsExact(c.surfaces, path, 0, m[0]);
    }
  }

  lemma HasMeans(c: Config, diff: set<string>, cat: Category)
    ensures Has(c, diff, cat) <==> exists p <- diff :: Needs(c, p, cat)
  {
    forall p <- diff ensures Needs(c, p, cat) <==> ClassifyOne(p, c.rules).category == cat { VerdictMeans(c, p); }
    if p :| p in diff && ClassifyOne(p, c.rules).category == cat { assert Needs(c, p, cat); }
    if p :| p in diff && Needs(c, p, cat) { assert ClassifyOne(p, c.rules).category == cat; }
  }

  /** The path is ignored, runs itself, or is owned by surface `i`. */
  ghost predicate FitsIn(c: Config, w: World, i: nat, path: string) {
    var role := RoleOf(path, c, w); role.Ignored? || role.Module? || role == Owned(i)
  }

  ghost predicate AllFitIn(c: Config, w: World, i: nat, diff: set<string>) { forall p <- diff :: FitsIn(c, w, i, p) }

  lemma FitsInMeans(c: Config, w: World, i: nat, path: string)
    ensures FitsIn(c, w, i, path) <==>
      !Unsure(c, path) && (Needs(c, path, Inert) || RunsItself(c, w, path) || Covers(c, w, i, path))
    ensures RoleOf(path, c, w).Ignored? <==> !Unsure(c, path) && Needs(c, path, Inert)
  {
    RoleMeans(c, w, path);
    VerdictMeans(c, path);
  }

  lemma AllFitInMeans(c: Config, w: World, i: nat, diff: set<string>)
    ensures AllFitIn(c, w, i, diff) <==> (forall p <- diff :: !Unsure(c, p)) && Within(c, w, i, diff)
  {
    forall p <- diff
      ensures FitsIn(c, w, i, p) <==>
        !Unsure(c, p) && (Needs(c, p, Inert) || RunsItself(c, w, p) || Covers(c, w, i, p))
    {
      FitsInMeans(c, w, i, p);
    }
  }

  lemma NarrowsByFit(c: Config, w: World, diff: set<string>)
    ensures Narrows(c, w, diff) <==>
      (exists p <- diff :: !RoleOf(p, c, w).Ignored?) && exists i: nat :: AllFitIn(c, w, i, diff)
  {
    if Narrows(c, w, diff) {
      var i: nat := 0;
      if q :| q in diff && RoleOf(q, c, w).Owned? { i := RoleOf(q, c, w).surface; }
      assert AllFitIn(c, w, i, diff);
    }
    if i: nat :| AllFitIn(c, w, i, diff) {
      forall p <- diff ensures !RoleOf(p, c, w).Blocks? && (RoleOf(p, c, w).Owned? ==> RoleOf(p, c, w) == Owned(i)) {
        assert FitsIn(c, w, i, p);
      }
    }
  }

  lemma NarrowsMeans(c: Config, w: World, diff: set<string>)
    ensures Narrows(c, w, diff) <==>
      && (forall p <- diff :: !Unsure(c, p)) && (exists p <- diff :: !Needs(c, p, Inert))
      && exists i: nat :: Within(c, w, i, diff)
  {
    NarrowsByFit(c, w, diff);
    forall i: nat
      ensures AllFitIn(c, w, i, diff) <==> (forall p <- diff :: !Unsure(c, p)) && Within(c, w, i, diff)
    {
      AllFitInMeans(c, w, i, diff);
    }
    forall p <- diff ensures RoleOf(p, c, w).Ignored? <==> !Unsure(c, p) && Needs(c, p, Inert) {
      FitsInMeans(c, w, 0, p);
    }
    if Narrows(c, w, diff) {
      var q :| q in diff && !RoleOf(q, c, w).Ignored?;
      assert !Needs(c, q, Inert);
    }
    if (forall p <- diff :: !Unsure(c, p)) && exists p <- diff :: !Needs(c, p, Inert) {
      var q :| q in diff && !Needs(c, q, Inert);
      assert !RoleOf(q, c, w).Ignored?;
    }
  }

  /** When in doubt the whole suite runs: nothing declared, nothing changed, or a path that no rule knows. */
  lemma DoubtRunsEverything(c: Config, w: World, diff: set<string>)
    ensures !c.declared ==> TierOf(c, w, diff) == Whole
    ensures !c.declared ==> TargetsOf(c, w, diff) == {if c.fullTarget == "" then "tests/e2e" else c.fullTarget}
    ensures c.declared && diff == {} ==> TierOf(c, w, diff) == Whole && TargetsOf(c, w, diff) == {c.fullTarget} - {""}
    ensures c.declared && (exists p <- diff :: Unmatched(c.rules, p)) ==>
      TierOf(c, w, diff) == Whole && TargetsOf(c, w, diff) == {c.fullTarget} - {""}
  {
    if p :| p in diff && Unmatched(c.rules, p) {
      assert Needs(c, p, Full) && Unsure(c, p);
      HasMeans(c, diff, Full);
      NarrowsMeans(c, w, diff);
    }
  }

  /** Each tier of a declared, non-empty diff, from the rules' order, the surfaces and the sheets alone. */
  lemma TiersAreAsDeclared(c: Config, w: World, diff: set<string>)
    requires c.declared && diff != {}
    ensures TierOf(c, w, diff) == Skip <==> forall p <- diff :: Needs(c, p, Inert)
    ensures TierOf(c, w, diff) == StaticTier <==>
      (exists p <- diff :: Needs(c, p, Static)) && forall p <- diff :: !Needs(c, p, Full)
    ensures TierOf(c, w, diff) == OneSurface <==>
      && (exists p <- diff :: Needs(c, p, Full)) && (forall p <- diff :: !Unsure(c, p))
      && exists i: nat :: Within(c, w, i, diff)
  {
    HasMeans(c, diff, Full);
    HasMeans(c, diff, Static);
    NarrowsMeans(c, w, diff);
    forall p <- diff ensures Needs(c, p, Inert) || Needs(c, p, Static) || Needs(c, p, Full) { VerdictMeans(c, p); }
    forall p <- diff, a, b | Needs(c, p, a) && Needs(c, p, b) ensures a == b { VerdictMeans(c, p); }
  }

  /** A target of a narrowed run, from the declarations: the covering surface's, a path that runs itself,
      or, beside a static path, the smoke target. */
  ghost predicate Wanted(c: Config, w: World, diff: set<string>, t: string) {
    || (t == c.staticTarget && exists p <- diff :: Needs(c, p, Static))
    || (t in diff && RunsItself(c, w, t))
    || exists i: nat, p :: p in diff && Provides(c, w, i, p, t)
  }

  lemma SurfaceTargetsMean(c: Config, w: World, diff: set<string>, t: string)
    requires forall p <- diff :: !Unsure(c, p)
    ensures t in SurfaceTargets(c, w, diff) <==> t != "" && Wanted(c, w, diff, t)
  {
    HasMeans(c, diff, Static);
    if t in diff { RunsItselfMeans(c, w, t); }
    forall i: nat, p | p in diff
      ensures Provides(c, w, i, p, t) <==> RoleOf(p, c, w) == Owned(i) && t in c.surfaces[i].targets
    {
      ProvidesMeans(c, w, i, p, t);
    }
    if p :| p in diff && RoleOf(p, c, w).Owned? && t in c.surfaces[RoleOf(p, c, w).surface].targets {
      assert Provides(c, w, RoleOf(p, c, w).surface, p, t);
    }
  }

  /** The targets of each tier, the same way. */
  lemma TargetsAreAsDeclared(c: Config, w: World, diff: set<string>, t: string)
    requires c.declared && diff != {}
    ensures TierOf(c, w, diff) == Whole ==> (t in TargetsOf(c, w, diff) <==> t == c.fullTarget != "")
    ensures TierOf(c, w, diff) == StaticTier ==> (t in TargetsOf(c, w, diff) <==> t == c.staticTarget != "")
    ensures TierOf(c, w, diff) == Skip ==> t !in TargetsOf(c, w, diff)
    ensures TierOf(c, w, diff) == OneSurface ==> (t in TargetsOf(c, w, diff) <==> t != "" && Wanted(c, w, diff, t))
  {
    if TierOf(c, w, diff) == OneSurface {
      NarrowsMeans(c, w, diff);
      SurfaceTargetsMean(c, w, diff, t);
    }
  }

  /** The path matters, and surface `i`, which covers it, has the target. */
  ghost predicate Provides(c: Config, w: World, i: nat, path: string, t: string) {
    !Needs(c, path, Inert) && Covers(c, w, i, path) && i < |c.surfaces| && t in c.surfaces[i].targets
  }

  lemma RunsItselfMeans(c: Config, w: World, path: string)
    requires !Unsure(c, path)
    ensures RunsItself(c, w, path) <==> RoleOf(path, c, w).Module?
  {
    RoleMeans(c, w, path);
    VerdictMeans(c, path);
  }

  lemma ProvidesMeans(c: Config, w: World, i: nat, path: string, t: string)
    requires !Unsure(c, path)
    ensures Provides(c, w, i, path, t) <==> RoleOf(path, c, w) == Owned(i) && t in c.surfaces[i].targets
  {
    RoleMeans(c, w, path);
  }

  /** A narrowed run is confined: every path that matters belongs to that one surface or is a module that runs
      itself. */
  lemma {:induction false} SurfaceRunsAreConfined(c: Config, w: World, diff: set<string>, p: string, q: string)
    requires TierOf(c, w, diff) == OneSurface && p in diff && q in diff
    requires ClassifyOne(p, c.rules).category != Inert && ClassifyOne(q, c.rules).category != Inert
    ensures RoleOf(p, c, w).Module? || RoleOf(p, c, w).Owned?
    ensures RoleOf(p, c, w).Module? ==> SelfOnlyModule(p, c, w) && p != "" ==> p in TargetsOf(c, w, diff)
    ensures RoleOf(p, c, w).Owned? && RoleOf(q, c, w).Owned? ==> RoleOf(p, c, w) == RoleOf(q, c, w)
    ensures RoleOf(p, c, w).Owned? ==>
      forall t <- c.surfaces[RoleOf(p, c, w).surface].targets :: t != "" ==> t in TargetsOf(c, w, diff)
  {}

  /** Ownership means what the declarations say: exactly one surface matches the path, or, for a
      shared stylesheet, exactly that one surface claims each changed selector. */
  lemma OwnershipIsExclusive(c: Config, w: World, p: string, i: nat)
    requires RoleOf(p, c, w).Owned? && i < |c.surfaces|
    ensures p !in c.sheets ==> (c.surfaces[i].Matches(p) <==> i == RoleOf(p, c, w).surface)
    ensures p in c.sheets ==> p in w.sheetChanges && w.sheetChanges[p].Some? && w.sheetChanges[p].value != {}
    ensures p in c.sheets ==>
      forall s <- w.sheetChanges[p].value :: (c.surfaces[i].OwnsSelector(s) <==> i == RoleOf(p, c, w).surface)
  {
    if p in c.sheets {
      SheetIsExclusive(c, w, p, RoleOf(p, c, w).surface, i);
    } else {
      MatchingIsExact(c.surfaces, p, 0, i);
    }
  }

  lemma SheetIsExclusive(c: Config, w: World, p: string, owner: nat, i: nat)
    requires OwnsSheet(owner, p, c, w) && i < |c.surfaces|
    ensures forall s <- w.sheetChanges[p].value :: c.surfaces[i].OwnsSelector(s) <==> i == owner
  {
    forall s <- w.sheetChanges[p].value ensures c.surfaces[i].OwnsSelector(s) <==> i == owner {
      OwningIsExact(c.surfaces, s, 0, i);
    }
  }

  lemma {:induction false} MatchingIsExact(surfaces: seq<Surface>, path: string, from: nat, i: nat)
    requires from <= |surfaces| && i < |surfaces|
    ensures i in Matching(surfaces, path, from) <==> from <= i && surfaces[i].Matches(path)
    decreases |surfaces| - from
  {
    if from < |surfaces| {
      MatchingIsExact(surfaces, path, from + 1, i);
      InEither(if surfaces[from].Matches(path) then [from] else [], Matching(surfaces, path, from + 1), i);
    }
  }

  lemma {:induction false} OwningIsExact(surfaces: seq<Surface>, selector: string, from: nat, i: nat)
    requires from <= |surfaces| && i < |surfaces|
    ensures i in Owning(surfaces, selector, from) <==> from <= i && surfaces[i].OwnsSelector(selector)
    decreases |surfaces| - from
  {
    if from < |surfaces| {
      OwningIsExact(surfaces, selector, from + 1, i);
      InEither(if surfaces[from].OwnsSelector(selector) then [from] else [], Owning(surfaces, selector, from + 1), i);
    }
  }
}
