/** Base-class searches of the dead-code ratchet (scripts/dead_code_ratchet.py).

    Both searches walk a class graph that may be cyclic and guard against loops with a
    `seen` set local to the current path. They are proved to decide plain reachability. */
module ClassGraph {

  type Name = string
  type Graph = map<Name, seq<Name>>

  const INERT_BASES: set<Name> := {
    "object", "ABC", "Generic", "Protocol", "NamedTuple", "TypedDict", "Exception", "BaseException",
    "Enum", "IntEnum", "StrEnum", "Flag", "IntFlag"
  }

  predicate ExternalBase(bases: seq<Name>, classes: Graph, seen: set<Name>)
    decreases classes.Keys - seen
  {
    exists base <- bases ::
      && !(base in INERT_BASES || base in seen)
      && (base !in classes || ExternalBase(classes[base], classes, seen + {base}))
  }

  predicate Inherits(bases: seq<Name>, targets: set<Name>, classes: Graph, seen: set<Name>)
    decreases classes.Keys - seen
  {
    exists base <- bases ::
      || base in targets
      || (base in classes && base !in seen && Inherits(classes[base], targets, classes, seen + {base}))
  }

  // ----------------------------------------------------------- reachability

  /** `p` is a walk that starts at one of `bases` and leaves only classes in `through`. */
  ghost predicate Walk(p: seq<Name>, bases: seq<Name>, through: set<Name>, classes: Graph) {
    && p != [] && p[0] in bases
    && (|p| > 1 ==> p[0] in through && p[0] in classes && Walk(p[1..], classes[p[0]], through, classes))
  }

  /** A walk that leaves no class twice. */
  ghost predicate SimpleWalk(p: seq<Name>, bases: seq<Name>, through: set<Name>, classes: Graph) {
    && p != [] && p[0] in bases
    && (|p| > 1 ==> p[0] in through && p[0] in classes && SimpleWalk(p[1..], classes[p[0]], through - {p[0]}, classes))
  }

  /** Some name satisfying `goal` can be reached from `bases` through the classes of `through`. */
  ghost predicate Reaches(bases: seq<Name>, through: set<Name>, classes: Graph, goal: Name -> bool) {
    exists p :: Walk(p, bases, through, classes) && goal(p[|p|-1])
  }

  ghost predicate ReachesSimply(bases: seq<Name>, through: set<Name>, classes: Graph, goal: Name -> bool) {
    exists p :: SimpleWalk(p, bases, through, classes) && goal(p[|p|-1])
  }

  lemma {:induction false} WalkSuffix(p: seq<Name>, bases: seq<Name>, through: set<Name>, classes: Graph, k: nat)
    requires Walk(p, bases, through, classes) && 0 < k < |p|
    ensures p[k-1] in classes && Walk(p[k..], classes[p[k-1]], through, classes)
  {
    if k > 1 {
      WalkSuffix(p[1..], classes[p[0]], through, classes, k - 1);
      assert p[1..][k-1..] == p[k..];
    }
  }

  lemma {:induction false} WalkAvoiding(p: seq<Name>, bases: seq<Name>, through: set<Name>, classes: Graph, x: Name)
    requires Walk(p, bases, through, classes)
    requires forall i :: 0 <= i < |p| - 1 ==> p[i] != x
    ensures Walk(p, bases, through - {x}, classes)
  {
    if |p| > 1 {
      WalkAvoiding(p[1..], classes[p[0]], through, classes, x);
    }
  }

  /** A reachable name has a walk without repetitions: cut to the last visit of the first class, then recurse. */
  lemma {:induction false} LoopsCanBeCut(p: seq<Name>, bases: seq<Name>, through: set<Name>, classes: Graph)
    returns (q: seq<Name>)
    requires Walk(p, bases, through, classes)
    ensures SimpleWalk(q, bases, through, classes) && q[|q|-1] == p[|p|-1]
    decreases |p|
  {
    if |p| == 1 {
      q := p;
    } else if k :| 0 < k < |p| - 1 && p[k] == p[0] {
      WalkSuffix(p, bases, through, classes, k);
      q := LoopsCanBeCut(p[k..], bases, through, classes);
    } else {
      WalkAvoiding(p[1..], classes[p[0]], through, classes, p[0]);
      q := LoopsCanBeCut(p[1..], classes[p[0]], through - {p[0]}, classes);
      q := [p[0]] + q;
      assert q[1..][|q|-2] == q[|q|-1];
    }
  }

  lemma {:induction false} SimpleWalkIsWalk(p: seq<Name>, bases: seq<Name>, some: set<Name>, through: set<Name>,
                                            classes: Graph)
    requires SimpleWalk(p, bases, some, classes) && some <= through
    ensures Walk(p, bases, through, classes)
  {
    if |p| > 1 {
      SimpleWalkIsWalk(p[1..], classes[p[0]], some - {p[0]}, through, classes);
    }
  }

  lemma SimpleReachability(bases: seq<Name>, through: set<Name>, classes: Graph, goal: Name -> bool)
    ensures Reaches(bases, through, classes, goal) <==> ReachesSimply(bases, through, classes, goal)
  {
    if p :| Walk(p, bases, through, classes) && goal(p[|p|-1]) {
      var q := LoopsCanBeCut(p, bases, through, classes);
    }
    if p :| SimpleWalk(p, bases, through, classes) && goal(p[|p|-1]) {
      SimpleWalkIsWalk(p, bases, through, through, classes);
    }
  }

  /** One step of the simple search, matching one level of the recursion in both functions. */
  lemma SimplyStep(bases: seq<Name>, through: set<Name>, classes: Graph, goal: Name -> bool)
    requires through <= classes.Keys
    ensures ReachesSimply(bases, through, classes, goal) <==>
      exists base <- bases :: goal(base)
        || (base in through && ReachesSimply(classes[base], through - {base}, classes, goal))
  {
    if p :| SimpleWalk(p, bases, through, classes) && goal(p[|p|-1]) {
      if |p| > 1 {
        assert p[1..][|p|-2] == p[|p|-1];
        assert ReachesSimply(classes[p[0]], through - {p[0]}, classes, goal);
      }
    }
    forall base <- bases
      | goal(base) || (base in through && ReachesSimply(classes[base], through - {base}, classes, goal))
      ensures ReachesSimply(bases, through, classes, goal)
    {
      if goal(base) {
        assert SimpleWalk([base], bases, through, classes);
      } else {
        var p :| SimpleWalk(p, classes[base], through - {base}, classes) && goal(p[|p|-1]);
        var q := [base] + p;
        assert q[1..] == p;
        assert SimpleWalk(q, bases, through, classes);
      }
    }
  }

  // ------------------------------------------------------------ main results

  lemma {:induction false} InheritsSearch(bases: seq<Name>, targets: set<Name>, classes: Graph, seen: set<Name>)
    ensures Inherits(bases, targets, classes, seen)
      <==> ReachesSimply(bases, classes.Keys - seen, classes, n => n in targets)
    decreases classes.Keys - seen
  {
    var through, goal := classes.Keys - seen, (n: Name) => n in targets;
    SimplyStep(bases, through, classes, goal);
    forall base <- bases | base in through
      ensures Inherits(classes[base], targets, classes, seen + {base})
        <==> ReachesSimply(classes[base], through - {base}, classes, goal)
    {
      InheritsSearch(classes[base], targets, classes, seen + {base});
      assert classes.Keys - (seen + {base}) == through - {base};
    }
  }

  lemma {:induction false} ExternalBaseSearch(bases: seq<Name>, classes: Graph, seen: set<Name>)
    requires seen <= classes.Keys
    ensures ExternalBase(bases, classes, seen)
      <==> ReachesSimply(bases, classes.Keys - INERT_BASES - seen, classes, n => n !in INERT_BASES && n !in classes)
    decreases classes.Keys - seen
  {
    var through, goal := classes.Keys - INERT_BASES - seen, (n: Name) => n !in INERT_BASES && n !in classes;
    SimplyStep(bases, through, classes, goal);
    forall base <- bases | base in through
      ensures ExternalBase(classes[base], classes, seen + {base})
        <==> ReachesSimply(classes[base], through - {base}, classes, goal)
    {
      ExternalBaseSearch(classes[base], classes, seen + {base});
      assert classes.Keys - INERT_BASES - (seen + {base}) == through - {base};
    }
  }

  /** On every graph, cycles included, the search finds a target exactly when one is reachable through repo classes. */
  lemma InheritsDecidesReachability(bases: seq<Name>, targets: set<Name>, classes: Graph)
    ensures Inherits(bases, targets, classes, {}) <==> Reaches(bases, classes.Keys, classes, n => n in targets)
  {
    InheritsSearch(bases, targets, classes, {});
    SimpleReachability(bases, classes.Keys, classes, n => n in targets);
    assert classes.Keys - {} == classes.Keys;
  }

  /** An external base is reported exactly when a name outside the repo that is not inert is
      reachable through repo classes none of which carries an inert name. */
  lemma ExternalBaseDecidesReachability(bases: seq<Name>, classes: Graph)
    ensures ExternalBase(bases, classes, {})
      <==> Reaches(bases, classes.Keys - INERT_BASES, classes, n => n !in INERT_BASES && n !in classes)
  {
    ExternalBaseSearch(bases, classes, {});
    SimpleReachability(bases, classes.Keys - INERT_BASES, classes, n => n !in INERT_BASES && n !in classes);
    assert classes.Keys - INERT_BASES - {} == classes.Keys - INERT_BASES;
  }
}
