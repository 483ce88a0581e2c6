/** The VRAM budget gate on placement edits (src/config_write.py:302-408).

    The gate is local to one model's new chain; over every history of accepted edits it keeps
    every host's total estimate within its ceiling. */
module Placement {
  import opened Basics

  type Id = string

  const EAGER: string := "eager"
  const ON_DEMAND: string := "on_demand"

  datatype Model = Model(id: Id, backend: string, virtual: bool, hosts: seq<Id>, cpuHosts: set<Id>,
                         startup: string, estimate: Option<int>)

  datatype Host = Host(vram: Option<int>, enabled: set<Id>)

  datatype Registry = Registry(models: seq<Model>, hosts: map<Id, Host>)

  datatype Link = Link(host: Id, cpu: bool)

  datatype Edit = Edit(model: Id, chain: seq<Link>, startup: string, idle: Option<int>)

  datatype Error =
    | UnknownModel
    | Subscription
    | VirtualAlias
    | EmptyChain
    | UnknownHost(host: Id)
    | RepeatedHost
    | NotEnabled(host: Id)
    | BadStartup
    | BadIdle
    | IdleNeedsOnDemand
    | Overcommits(host: Id, projected: int, ceiling: int)

  // ------------------------------------------------------------ the budget

  /** Where a model counts against the ceiling: eager, and not on a CPU tier. */
  predicate CountsOn(hosts: seq<Id>, cpuHosts: set<Id>, startup: string, host: Id) {
    startup == EAGER && host in hosts && host !in cpuHosts
  }

  function Estimate(m: Model): int { match m.estimate case None => 0 case Some(mb) => mb }

  function Weight(m: Model, host: Id): nat {
    if CountsOn(m.hosts, m.cpuHosts, m.startup, host) && Estimate(m) > 0 then Estimate(m) else 0
  }

  /** The summed estimates of the models other than `except` that count on `host`. */
  function LoadWithout(models: seq<Model>, host: Id, except: Option<Id>): nat {
    if models == [] then 0
    else
      var m := models[|models|-1];
      LoadWithout(models[..|models|-1], host, except) + if Some(m.id) == except then 0 else Weight(m, host)
  }

  function Load(models: seq<Model>, host: Id): nat { LoadWithout(models, host, None) }

  /** The ceiling that gates, if any: an absent or zero one never does. */
  function Ceiling(r: Registry, host: Id): Option<int> {
    if host in r.hosts && r.hosts[host].vram.Some? && r.hosts[host].vram.value != 0 then r.hosts[host].vram else None
  }

  predicate WithinBudget(r: Registry, host: Id) {
    Ceiling(r, host).Some? ==> Load(r.models, host) <= Ceiling(r, host).value
  }

  ghost predicate UniqueIds(models: seq<Model>) {
    forall i, j :: 0 <= i < j < |models| ==> models[i].id != models[j].id
  }

  function Find(models: seq<Model>, id: Id): Option<Model> {
    if models == [] then None else if models[0].id == id then Some(models[0]) else Find(models[1..], id)
  }

  // -------------------------------------------------------------- validation

  function Hosts(chain: seq<Link>): (ids: seq<Id>)
    ensures |ids| == |chain| && forall i :: 0 <= i < |chain| ==> ids[i] == chain[i].host
  {
    if chain == [] then [] else [chain[0].host] + Hosts(chain[1..])
  }

  function CpuHosts(chain: seq<Link>): set<Id> { set l | l in chain && l.cpu :: l.host }

  predicate Distinct(ids: seq<Id>) { forall i, j :: 0 <= i < j < |ids| ==> ids[i] != ids[j] }

  predicate Editable(r: Registry, id: Id) {
    var m := Find(r.models, id);
    m.Some? && m.value.backend !in {"claude", "gemini"} && !m.value.virtual
  }

  predicate IdleOk(e: Edit) { e.idle.None? || (e.idle.value >= 1 && e.startup == ON_DEMAND) }

  /** What every accepted chain is: non-empty, without repetition, and enabled on every member. */
  predicate ChainOk(r: Registry, e: Edit) {
    && e.chain != [] && Distinct(Hosts(e.chain))
    && forall h <- Hosts(e.chain) :: h in r.hosts && e.model in r.hosts[h].enabled
  }

  /** What the host would carry: the other models that count there, and this one. */
  function Projected(r: Registry, e: Edit, host: Id): int
    requires Find(r.models, e.model).Some?
  {
    LoadWithout(r.models, host, Some(e.model)) + Estimate(Find(r.models, e.model).value)
  }

  predicate OverOn(r: Registry, e: Edit, host: Id)
    requires Find(r.models, e.model).Some?
  {
    && CountsOn(Hosts(e.chain), CpuHosts(e.chain), e.startup, host)
    && Ceiling(r, host).Some?
    && Projected(r, e, host) > Ceiling(r, host).value
  }

  /** None of the first `n` hosts of the chain is overcommitted. */
  predicate NoneOver(r: Registry, e: Edit, n: nat)
    requires Find(r.models, e.model).Some? && n <= |e.chain|
  {
    forall k :: 0 <= k < n ==> !OverOn(r, e, e.chain[k].host)
  }

  /** The edit passes every check. */
  predicate Accepted(r: Registry, e: Edit) {
    && Editable(r, e.model) && ChainOk(r, e)
    && e.startup in {EAGER, ON_DEMAND} && IdleOk(e)
    && NoneOver(r, e, |e.chain|)
  }

  /** The error names a host the chain overcommits, with the true sum and ceiling. */
  predicate ReportsOvercommit(r: Registry, e: Edit, x: Error)
    requires Find(r.models, e.model).Some?
  {
    && x.Overcommits? && x.host in Hosts(e.chain) && OverOn(r, e, x.host)
    && x.projected == Projected(r, e, x.host)
    && Ceiling(r, x.host) == Some(x.ceiling)
  }

  lemma OvercommitsAreAll(r: Registry, e: Edit, errors: seq<Error>)
    requires Find(r.models, e.model).Some? && forall x :: x in errors <==> ReportsOvercommit(r, e, x)
    ensures errors == [] <==> NoneOver(r, e, |e.chain|)
  {
    if errors != [] {
      assert errors[0] in errors;
      var k :| 0 <= k < |e.chain| && Hosts(e.chain)[k] == errors[0].host;
      assert OverOn(r, e, e.chain[k].host);
    }
    if k :| 0 <= k < |e.chain| && OverOn(r, e, e.chain[k].host) {
      var host := Hosts(e.chain)[k];
      assert host in Hosts(e.chain);
      assert ReportsOvercommit(r, e, Overcommits(host, Projected(r, e, host), Ceiling(r, host).value));
    }
  }

  method OvercommitErrors(r: Registry, e: Edit) returns (errors: seq<Error>)
    requires Find(r.models, e.model).Some?
    ensures errors == [] <==> NoneOver(r, e, |e.chain|)
    ensures forall x :: x in errors <==> ReportsOvercommit(r, e, x)
  {
    errors := [];
    for i := 0 to |e.chain|
      invariant forall x :: x in errors <==> ReportsOvercommit(r, e, x) && x.host in Hosts(e.chain)[..i]
    {
      var host := Hosts(e.chain)[i];
      assert Hosts(e.chain)[..i+1] == Hosts(e.chain)[..i] + [host];
      if CountsOn(Hosts(e.chain), CpuHosts(e.chain), e.startup, host) && Ceiling(r, host).Some? {
        var projected := Projected(r, e, host);
        if projected > Ceiling(r, host).value {
          errors := errors + [Overcommits(host, projected, Ceiling(r, host).value)];
        }
      }
    }
    assert Hosts(e.chain)[..|e.chain|] == Hosts(e.chain);
    OvercommitsAreAll(r, e, errors);
  }

  /** The error is one that the chain has. */
  predicate IsChainError(r: Registry, e: Edit, x: Error) {
    match x
    case EmptyChain => e.chain == []
    case UnknownHost(h) => h in Hosts(e.chain) && h !in r.hosts
    case RepeatedHost => exists i, j :: 0 <= i < j < |e.chain| && e.chain[i].host == e.chain[j].host
    case NotEnabled(h) => h in Hosts(e.chain) && h in r.hosts && e.model !in r.hosts[h].enabled
    case _ => false
  }

  lemma ChainErrorsAreAll(r: Registry, e: Edit, errors: seq<Error>)
    requires forall x :: x in errors <==> IsChainError(r, e, x)
    ensures errors == [] <==> ChainOk(r, e)
  {
    if errors != [] { assert errors[0] in errors; }
    if !ChainOk(r, e) { SomeChainError(r, e); }
  }

  method UnknownHosts(r: Registry, ids: seq<Id>) returns (errors: seq<Error>)
    ensures forall x :: x in errors <==> x.UnknownHost? && x.host in ids && x.host !in r.hosts
  {
    errors := [];
    for i := 0 to |ids|
      invariant forall x :: x in errors <==> x.UnknownHost? && x.host in ids[..i] && x.host !in r.hosts
    {
      assert ids[..i+1] == ids[..i] + [ids[i]];
      if ids[i] !in r.hosts {
        errors := errors + [UnknownHost(ids[i])];
      }
    }
    assert ids[..|ids|] == ids;
  }

  method DisabledHosts(r: Registry, ids: seq<Id>, model: Id) returns (errors: seq<Error>)
    ensures forall x :: x in errors <==>
      x.NotEnabled? && x.host in ids && x.host in r.hosts && model !in r.hosts[x.host].enabled
  {
    errors := [];
    for i := 0 to |ids|
      invariant forall x :: x in errors <==>
        x.NotEnabled? && x.host in ids[..i] && x.host in r.hosts && model !in r.hosts[x.host].enabled
    {
      assert ids[..i+1] == ids[..i] + [ids[i]];
      if ids[i] in r.hosts && model !in r.hosts[ids[i]].enabled {
        errors := errors + [NotEnabled(ids[i])];
      }
    }
    assert ids[..|ids|] == ids;
  }

  method ChainErrors(r: Registry, e: Edit) returns (errors: seq<Error>)
    ensures errors == [] <==> ChainOk(r, e)
    ensures forall x :: x in errors <==> IsChainError(r, e, x)
  {
    var ids := Hosts(e.chain);
    errors := if ids == [] then [EmptyChain] else [];
    var unknown := UnknownHosts(r, ids);
    errors := errors + unknown;
    if !Distinct(ids) {
      errors := errors + [RepeatedHost];
    }
    var disabled := DisabledHosts(r, ids, e.model);
    errors := errors + disabled;
    ChainErrorsAreAll(r, e, errors);
  }

  /** The error is one that the form of the edit has. */
  predicate IsFormError(r: Registry, e: Edit, x: Error) {
    match x
    case BadStartup => e.startup !in {EAGER, ON_DEMAND}
    case BadIdle => e.idle.Some? && e.idle.value < 1
    case IdleNeedsOnDemand => e.idle.Some? && e.idle.value >= 1 && e.startup != ON_DEMAND
    case _ => IsChainError(r, e, x)
  }

  ghost predicate WellFormed(r: Registry, e: Edit) { forall x :: !IsFormError(r, e, x) }

  lemma WellFormedMeans(r: Registry, e: Edit)
    ensures WellFormed(r, e) <==> ChainOk(r, e) && e.startup in {EAGER, ON_DEMAND} && IdleOk(e)
  {
    if !ChainOk(r, e) {
      SomeChainError(r, e);
    } else if e.startup !in {EAGER, ON_DEMAND} {
      assert IsFormError(r, e, BadStartup);
    } else if !IdleOk(e) {
      assert IsFormError(r, e, if e.idle.value < 1 then BadIdle else IdleNeedsOnDemand);
    }
  }

  lemma FormErrorsAreAll(r: Registry, e: Edit, errors: seq<Error>)
    requires forall x :: x in errors <==> IsFormError(r, e, x)
    ensures errors == [] <==> ChainOk(r, e) && e.startup in {EAGER, ON_DEMAND} && IdleOk(e)
    ensures errors == [] <==> WellFormed(r, e)
  {
    if errors != [] { assert errors[0] in errors; }
    WellFormedMeans(r, e);
  }

  lemma SomeChainError(r: Registry, e: Edit)
    requires !ChainOk(r, e)
    ensures exists x :: IsChainError(r, e, x) && IsFormError(r, e, x)
  {
    if e.chain == [] {
      assert IsChainError(r, e, EmptyChain);
      assert IsFormError(r, e, EmptyChain);
    } else if !Distinct(Hosts(e.chain)) {
      assert IsChainError(r, e, RepeatedHost);
      assert IsFormError(r, e, RepeatedHost);
    } else {
      var h :| h in Hosts(e.chain) && !(h in r.hosts && e.model in r.hosts[h].enabled);
      var x := if h in r.hosts then NotEnabled(h) else UnknownHost(h);
      assert IsChainError(r, e, x) && IsFormError(r, e, x);
    }
  }

  /** All that is wrong is reported, and nothing else: overcommitted hosts once the form of the edit is right. */
  method ValidatePlacement(r: Registry, e: Edit) returns (errors: seq<Error>)
    ensures errors == [] <==> Accepted(r, e)
    ensures Find(r.models, e.model).None? ==> errors == [UnknownModel]
    ensures var m := Find(r.models, e.model);
      m.Some? ==>
        if m.value.backend in {"claude", "gemini"} then errors == [Subscription]
        else if m.value.virtual then errors == [VirtualAlias]
        else forall x :: x in errors <==> if WellFormed(r, e) then ReportsOvercommit(r, e, x) else IsFormError(r, e, x)
  {
    var m := Find(r.models, e.model);
    if m.None? {
      return [UnknownModel];
    }
    if m.value.backend in {"claude", "gemini"} {
      return [Subscription];
    }
    if m.value.virtual {
      return [VirtualAlias];
    }
    errors := ChainErrors(r, e);
    if e.startup !in {EAGER, ON_DEMAND} {
      errors := errors + [BadStartup];
    }
    if e.idle.Some? {
      if e.idle.value < 1 {
        errors := errors + [BadIdle];
      } else if e.startup != ON_DEMAND {
        errors := errors + [IdleNeedsOnDemand];
      }
    }
    FormErrorsAreAll(r, e, errors);
    if errors == [] {
      errors := OvercommitErrors(r, e);
    }
  }

  // ------------------------------------------------------------ applying edits

  function Placed(m: Model, e: Edit): Model {
    m.(hosts := Hosts(e.chain), cpuHosts := CpuHosts(e.chain), startup := e.startup)
  }

  function Apply(r: Registry, e: Edit): Registry {
    r.(models := seq(|r.models|, i requires 0 <= i < |r.models| =>
      if r.models[i].id == e.model then Placed(r.models[i], e) else r.models[i]))
  }

  /** A history of edits; a rejected one changes nothing. */
  function Replay(r: Registry, edits: seq<Edit>): Registry {
    if edits == [] then r
    else
      var r := Replay(r, edits[..|edits|-1]);
      var e := edits[|edits|-1];
      if Accepted(r, e) then Apply(r, e) else r
  }

  lemma {:induction false} FindFinds(models: seq<Model>, id: Id)
    requires UniqueIds(models)
    ensures Find(models, id).None? <==> forall m <- models :: m.id != id
    ensures Find(models, id).Some? ==> Find(models, id).value in models && Find(models, id).value.id == id
    ensures forall m <- models :: m.id == id ==> Find(models, id) == Some(m)
  {
    if models != [] {
      FindFinds(models[1..], id);
    }
  }

  /** Leaving out one model takes exactly its weight off the load. */
  lemma {:induction false} LoadSplits(models: seq<Model>, host: Id, m: Model)
    requires UniqueIds(models) && m in models
    ensures Load(models, host) == LoadWithout(models, host, Some(m.id)) + Weight(m, host)
  {
    var init, last := models[..|models|-1], models[|models|-1];
    assert models == init + [last];
    if last == m {
      LoadWithoutAbsent(init, host, m.id);
    } else {
      LoadSplits(init, host, m);
    }
  }

  lemma {:induction false} LoadWithoutAbsent(models: seq<Model>, host: Id, id: Id)
    requires forall m <- models :: m.id != id
    ensures LoadWithout(models, host, Some(id)) == Load(models, host)
  {
    if models != [] {
      assert models[|models|-1] in models;
      LoadWithoutAbsent(models[..|models|-1], host, id);
    }
  }

  lemma {:induction false} OthersUntouched(a: seq<Model>, b: seq<Model>, host: Id, id: Id)
    requires |a| == |b| && forall i :: 0 <= i < |a| ==> a[i].id == b[i].id && (a[i].id != id ==> a[i] == b[i])
    ensures LoadWithout(a, host, Some(id)) == LoadWithout(b, host, Some(id))
  {
    if a != [] {
      OthersUntouched(a[..|a|-1], b[..|b|-1], host, id);
    }
  }

  lemma LoadAfter(r: Registry, e: Edit, host: Id)
    requires UniqueIds(r.models) && Find(r.models, e.model).Some?
    ensures var m := Find(r.models, e.model).value;
      && Load(r.models, host) == LoadWithout(r.models, host, Some(e.model)) + Weight(m, host)
      && Load(Apply(r, e).models, host) == LoadWithout(r.models, host, Some(e.model)) + Weight(Placed(m, e), host)
  {
    FindFinds(r.models, e.model);
    var m := Find(r.models, e.model).value;
    LoadSplits(r.models, host, m);
    PlacedIsThere(r, e, m);
    LoadSplits(Apply(r, e).models, host, Placed(m, e));
    OthersUntouched(r.models, Apply(r, e).models, host, e.model);
  }

  lemma PlacedIsThere(r: Registry, e: Edit, m: Model)
    requires UniqueIds(r.models) && m in r.models && m.id == e.model
    ensures Placed(m, e) in Apply(r, e).models && UniqueIds(Apply(r, e).models)
  {
    var i :| 0 <= i < |r.models| && r.models[i] == m;
    assert Apply(r, e).models[i] == Placed(m, e);
  }

  /** One accepted edit keeps every host within its budget, the ones it leaves included. */
  lemma AcceptedKeepsBudget(r: Registry, e: Edit, host: Id)
    requires UniqueIds(r.models) && Accepted(r, e) && WithinBudget(r, host)
    ensures WithinBudget(Apply(r, e), host)
  {
    LoadAfter(r, e, host);
    if host in Hosts(e.chain) {
      var k :| 0 <= k < |e.chain| && Hosts(e.chain)[k] == host;
      assert !OverOn(r, e, e.chain[k].host);
    }
  }

  /** Over every history of edits from a configuration within budget: still within budget. */
  lemma {:induction false} BudgetHoldsForever(r: Registry, edits: seq<Edit>, host: Id)
    requires UniqueIds(r.models) && WithinBudget(r, host)
    ensures UniqueIds(Replay(r, edits).models) && Replay(r, edits).hosts == r.hosts
    ensures WithinBudget(Replay(r, edits), host)
  {
    if edits != [] {
      BudgetHoldsForever(r, edits[..|edits|-1], host);
      var s, e := Replay(r, edits[..|edits|-1]), edits[|edits|-1];
      if Accepted(s, e) { AcceptedKeepsBudget(s, e, host); }
    }
  }

  // ----------------------------------------------------- the budget, in full

  /** The memory that eager models keep on the host's GPU. */
  function EagerLoad(models: seq<Model>, host: Id): nat {
    if models == [] then 0
    else
      var m := models[|models|-1];
      EagerLoad(models[..|models|-1], host)
      + (match m.estimate
         case None => 0
         case Some(mb) => if m.startup == EAGER && host in m.hosts && host !in m.cpuHosts && mb > 0 then mb else 0)
  }

  lemma {:induction false} LoadIsEager(models: seq<Model>, host: Id)
    ensures Load(models, host) == EagerLoad(models, host)
  {
    if models != [] { LoadIsEager(models[..|models|-1], host); }
  }

  /** The host declares no ceiling, or its eager models stay below it. */
  predicate Fits(r: Registry, host: Id) {
    host in r.hosts && r.hosts[host].vram.Some? ==>
      var ceiling := r.hosts[host].vram.value; ceiling == 0 || EagerLoad(r.models, host) <= ceiling
  }

  lemma FitsMeans(r: Registry, host: Id)
    ensures WithinBudget(r, host) <==> Fits(r, host)
  {
    LoadIsEager(r.models, host);
  }

  /** Over every history of edits from a configuration that fits: every host still fits. */
  lemma {:induction false} HostsFitForever(r: Registry, edits: seq<Edit>, host: Id)
    requires UniqueIds(r.models) && Fits(r, host)
    ensures Fits(Replay(r, edits), host)
  {
    FitsMeans(r, host);
    BudgetHoldsForever(r, edits, host);
    FitsMeans(Replay(r, edits), host);
  }

  /** The edit has the model eager on the GPU of that host. */
  predicate PutsOnGpu(e: Edit, host: Id) { e.startup == EAGER && exists l <- e.chain :: l.host == host && !l.cpu }

  /** A negative estimate, which the sum takes as it is and a placed model's weight as nothing. */
  function Credit(r: Registry, e: Edit): int {
    var m := Find(r.models, e.model); if m.Some? && Estimate(m.value) < 0 then Estimate(m.value) else 0
  }

  /** Once applied, the edit loads that host beyond its ceiling. */
  predicate Overloads(r: Registry, e: Edit, host: Id) {
    && PutsOnGpu(e, host) && host in r.hosts && r.hosts[host].vram.Some?
    && var ceiling := r.hosts[host].vram.value;
       ceiling != 0 && EagerLoad(Apply(r, e).models, host) + Credit(r, e) > ceiling
  }

  lemma GpuHosts(e: Edit, host: Id)
    requires Distinct(Hosts(e.chain))
    ensures PutsOnGpu(e, host) <==> CountsOn(Hosts(e.chain), CpuHosts(e.chain), e.startup, host)
  {
    forall i, j | 0 <= i < |e.chain| && 0 <= j < |e.chain| && e.chain[i].host == e.chain[j].host ensures i == j {
      assert Hosts(e.chain)[i] == Hosts(e.chain)[j];
    }
    if host in Hosts(e.chain) && host !in CpuHosts(e.chain) {
      var i :| 0 <= i < |e.chain| && Hosts(e.chain)[i] == host;
      assert e.chain[i] in e.chain && e.chain[i].host == host;
    }
    if l :| l in e.chain && l.host == host && !l.cpu {
      var i :| 0 <= i < |e.chain| && e.chain[i] == l;
      assert Hosts(e.chain)[i] == host;
    }
  }

  lemma OverOnMeans(r: Registry, e: Edit, host: Id)
    requires UniqueIds(r.models) && Find(r.models, e.model).Some? && Distinct(Hosts(e.chain))
    ensures OverOn(r, e, host) <==> Overloads(r, e, host)
  {
    GpuHosts(e, host);
    LoadAfter(r, e, host);
    LoadIsEager(Apply(r, e).models, host);
  }

  /** An edit that passes every other check is refused exactly when applying it would overload a host. */
  lemma GateIsExact(r: Registry, e: Edit)
    requires UniqueIds(r.models) && WellFormed(r, e) && Find(r.models, e.model).Some?
    requires var m := Find(r.models, e.model).value; m.backend !in {"claude", "gemini"} && !m.virtual
    ensures !Accepted(r, e) <==> exists host :: Overloads(r, e, host)
  {
    WellFormedMeans(r, e);
    forall host ensures OverOn(r, e, host) <==> Overloads(r, e, host) { OverOnMeans(r, e, host); }
    if host :| Overloads(r, e, host) {
      var k :| 0 <= k < |e.chain| && Hosts(e.chain)[k] == host;
      assert OverOn(r, e, e.chain[k].host);
    }
    if !Accepted(r, e) {
      var k :| 0 <= k < |e.chain| && OverOn(r, e, e.chain[k].host);
      assert Overloads(r, e, e.chain[k].host);
    }
  }

  ghost predicate PlacedWell(r: Registry, m: Model) {
    && m.hosts != [] && Distinct(m.hosts) && (forall h <- m.hosts :: h in r.hosts && m.id in r.hosts[h].enabled)
  }

  ghost predicate WasEdited(r: Registry, edits: seq<Edit>, id: Id) {
    exists i :: 0 <= i < |edits| && edits[i].model == id && Accepted(Replay(r, edits[..i]), edits[i])
  }

  /** Every chain an edit ever set is non-empty, free of repetition and enabled on each host. */
  lemma {:induction false} EditedChainsStayWellPlaced(r: Registry, edits: seq<Edit>, m: Model)
    requires m in Replay(r, edits).models && WasEdited(r, edits, m.id)
    ensures PlacedWell(r, m)
    ensures Replay(r, edits).hosts == r.hosts
  {
    var before, e := edits[..|edits|-1], edits[|edits|-1];
    var s := Replay(r, before);
    ReplayKeepsHosts(r, before);
    if Accepted(s, e) && e.model == m.id {
      EditPlacesWell(s, e, m);
    } else {
      if Accepted(s, e) { OthersStay(s, e, m); }
      EditedBefore(r, edits, m.id);
      EditedChainsStayWellPlaced(r, before, m);
    }
  }

  lemma EditedBefore(r: Registry, edits: seq<Edit>, id: Id)
    requires WasEdited(r, edits, id)
    requires var before, e := edits[..|edits|-1], edits[|edits|-1]; !(Accepted(Replay(r, before), e) && e.model == id)
    ensures WasEdited(r, edits[..|edits|-1], id)
  {
    var before := edits[..|edits|-1];
    var i :| 0 <= i < |edits| && edits[i].model == id && Accepted(Replay(r, edits[..i]), edits[i]);
    assert edits[..i] == before[..i] && before[i] == edits[i];
  }

  lemma EditPlacesWell(s: Registry, e: Edit, m: Model)
    requires Accepted(s, e) && m in Apply(s, e).models && m.id == e.model
    ensures PlacedWell(s, m)
  {
    var k :| 0 <= k < |s.models| && Apply(s, e).models[k] == m;
    assert m == Placed(s.models[k], e);
  }

  lemma OthersStay(s: Registry, e: Edit, m: Model)
    requires m in Apply(s, e).models && m.id != e.model
    ensures m in s.models
  {
    var k :| 0 <= k < |s.models| && Apply(s, e).models[k] == m;
    assert m == s.models[k];
  }

  lemma {:induction false} ReplayKeepsHosts(r: Registry, edits: seq<Edit>)
    ensures Replay(r, edits).hosts == r.hosts
  {
    if edits != [] { ReplayKeepsHosts(r, edits[..|edits|-1]); }
  }
}
