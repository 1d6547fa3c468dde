/**
 The module dependency checks of the migration manifest: the precedence pass over the declared
 ordering, and the depth-first search for cycles.
 */
module MigrationDag {
  import opened Results
  import opened Digraph

  /** Dependency lists by module identifier; a module without an entry depends on nothing. */
  type Deps = map<string, seq<string>>

  const EXPECTED_MODULE_IDS: seq<string> :=
    ["MOD-ORG", "MOD-IAM", "MOD-REC", "MOD-EVD", "MOD-CFG", "MOD-EVT", "MOD-WFA", "MOD-REP", "MOD-CTR"]

  function DepsOf(deps: Deps, m: string): seq<string> { if m in deps then deps[m] else [] }

  ghost function Edge(deps: Deps): (string, string) -> bool {
    (a: string, b: string) => b in DepsOf(deps, a)
  }

  // ---- the precedence pass ----

  datatype PrecedenceError = UnknownModule(mod: string, dep: string) | NotEarlier(mod: string, dep: string)

  /** The dependency `dep` of the module at position `i` of the ordering is reported as `e`. */
  ghost predicate Offends(deps: Deps, ordering: seq<string>, i: nat, dep: string, e: PrecedenceError) {
    && i < |ordering| && dep in DepsOf(deps, ordering[i])
    && if dep !in EXPECTED_MODULE_IDS then e == UnknownModule(ordering[i], dep)
       else dep !in ordering[..i] && e == NotEarlier(ordering[i], dep)
  }

  method PrecedencePass(deps: Deps, ordering: seq<string>) returns (errors: seq<PrecedenceError>)
    ensures forall e :: e in errors <==> exists i: nat, dep :: Offends(deps, ordering, i, dep, e)
  {
    errors := [];
    var seen: set<string> := {};
    for n := 0 to |ordering|
      invariant forall x :: x in seen <==> x in ordering[..n]
      invariant forall e :: e in errors <==> exists i: nat, dep :: i < n && Offends(deps, ordering, i, dep, e)
    {
      var ds := DepsOf(deps, ordering[n]);
      for k := 0 to |ds|
        invariant forall e :: e in errors <==>
          exists i: nat, dep :: (i < n || (i == n && dep in ds[..k])) && Offends(deps, ordering, i, dep, e)
      {
        var dep := ds[k];
        assert ds[..k + 1] == ds[..k] + [dep];
        if dep !in EXPECTED_MODULE_IDS {
          assert Offends(deps, ordering, n, dep, UnknownModule(ordering[n], dep));
          errors := errors + [UnknownModule(ordering[n], dep)];
        } else if dep !in seen {
          assert Offends(deps, ordering, n, dep, NotEarlier(ordering[n], dep));
          errors := errors + [NotEarlier(ordering[n], dep)];
        }
      }
      assert ds[..|ds|] == ds;
      assert ordering[..n + 1] == ordering[..n] + [ordering[n]];
      seen := seen + {ordering[n]};
    }
  }

  /** Every dependency of a listed module is listed before it. */
  ghost predicate DependenciesFirst(deps: Deps, order: seq<string>) {
    forall i | 0 <= i < |order| :: DependenciesBefore(deps, order, i)
  }

  ghost predicate DependenciesBefore(deps: Deps, order: seq<string>, i: nat) {
    i < |order| && forall d | d in DepsOf(deps, order[i]) :: d in order[..i]
  }

  function FirstIndex(order: seq<string>, x: string): (i: nat)
    ensures i <= |order|
    ensures x in order ==> i < |order| && order[i] == x
    ensures forall k | 0 <= k < |order| && order[k] == x :: i <= k
  {
    if order == [] || order[0] == x then 0 else 1 + FirstIndex(order[1..], x)
  }

  /** A listing of all modules with dependencies first rules out cycles. */
  lemma ListingRulesOutCycles(deps: Deps, order: seq<string>)
    requires DependenciesFirst(deps, order)
    requires forall m | m in deps :: m in order
    ensures !Cyclic(Edge(deps))
  {
    var rank := (x: string) => FirstIndex(order, x);
    forall a, b | Edge(deps)(a, b) ensures rank(b) < rank(a) {
      assert DependenciesBefore(deps, order, rank(a));
    }
    RankedAcyclic(Edge(deps), rank);
  }

  /** The modules that the ordering does not list, with their dependencies. */
  function Unlisted(deps: Deps, ordering: seq<string>): Deps { map m | m in deps && m !in ordering :: deps[m] }

  /** Along a walk from a listed module every module is listed, and earlier at each step. */
  lemma {:induction false} ListedFalls(deps: Deps, order: seq<string>, p: seq<string>, k: nat, n: nat)
    requires DependenciesFirst(deps, order) && Chain(Edge(deps), p) && k + n < |p| && p[k] in order
    ensures p[k + n] in order && FirstIndex(order, p[k + n]) + n <= FirstIndex(order, p[k])
    decreases n
  {
    if n > 0 {
      var m := n - 1;
      ListedFalls(deps, order, p, k, m);
      assert Step(Edge(deps), p, k + m);
      assert DependenciesBefore(deps, order, FirstIndex(order, p[k + m]));
    }
  }

  /** A cycle runs through unlisted modules only: around it a listed one would precede itself. */
  lemma CycleIsUnlisted(deps: Deps, order: seq<string>, p: seq<string>, k: nat)
    requires DependenciesFirst(deps, order) && Cycle(Edge(deps), p) && k < |p|
    ensures p[k] !in order
  {
    if p[k] in order {
      ListedFalls(deps, order, p, k, |p| - 1 - k);
      ListedFalls(deps, order, p, 0, k);
    }
  }

  /** With dependencies first among the listed modules, a cycle exists exactly when the unlisted ones have one. */
  lemma CyclesAreUnlisted(deps: Deps, order: seq<string>)
    requires DependenciesFirst(deps, order)
    ensures Cyclic(Edge(deps)) <==> Cyclic(Edge(Unlisted(deps, order)))
  {
    var rest := Unlisted(deps, order);
    forall p | Cycle(Edge(deps), p) ensures Cycle(Edge(rest), p) {
      forall i | 0 <= i < |p| - 1 ensures Step(Edge(rest), p, i) {
        assert Step(Edge(deps), p, i);
        CycleIsUnlisted(deps, order, p, i);
      }
    }
    forall p | Cycle(Edge(rest), p) ensures Cycle(Edge(deps), p) {
      forall i | 0 <= i < |p| - 1 ensures Step(Edge(deps), p, i) {
        assert Step(Edge(rest), p, i);
      }
    }
  }

  lemma SilentPassIsFirst(deps: Deps, ordering: seq<string>)
    requires forall e, i, dep :: !Offends(deps, ordering, i, dep, e)
    ensures DependenciesFirst(deps, ordering)
  {
    forall i | 0 <= i < |ordering| ensures DependenciesBefore(deps, ordering, i) {
      forall d | d in DepsOf(deps, ordering[i]) ensures d in ordering[..i] {
        assert !Offends(deps, ordering, i, d, UnknownModule(ordering[i], d));
        assert !Offends(deps, ordering, i, d, NotEarlier(ordering[i], d));
      }
    }
  }

  /** What a silent precedence pass proves, exactly: the graph is cyclic just when the unlisted modules are. */
  lemma SilentPassLeavesUnlisted(deps: Deps, ordering: seq<string>)
    requires forall e, i, dep :: !Offends(deps, ordering, i, dep, e)
    ensures Cyclic(Edge(deps)) <==> Cyclic(Edge(Unlisted(deps, ordering)))
  {
    SilentPassIsFirst(deps, ordering);
    CyclesAreUnlisted(deps, ordering);
  }

  /** When every module occurs in the ordering, a silent precedence pass proves the graph acyclic. */
  lemma SilentPassRulesOutCycles(deps: Deps, ordering: seq<string>)
    requires forall m | m in deps :: m in ordering
    requires forall e, i, dep :: !Offends(deps, ordering, i, dep, e)
    ensures !Cyclic(Edge(deps))
  {
    SilentPassLeavesUnlisted(deps, ordering);
    assert Unlisted(deps, ordering) == map[];
    RankedAcyclic(Edge(map[]), (x: string) => 0);
  }

  /** Without that condition a silent precedence pass proves nothing. */
  lemma SilentPassMayMissCycle(m: string)
    ensures var deps: Deps := map[m := [m]];
      Cyclic(Edge(deps)) && forall e, i, dep :: !Offends(deps, [], i, dep, e)
  {
    var deps: Deps := map[m := [m]];
    assert Step(Edge(deps), [m, m], 0);
    assert Cycle(Edge(deps), [m, m]);
  }

  // ---- the depth-first search ----

  /** All modules that occur as a key or as a dependency. */
  ghost function Nodes(deps: Deps): set<string> {
    deps.Keys + set m, i | m in deps && 0 <= i < |deps[m]| :: deps[m][i]
  }

  class CycleSearch {
    const deps: Deps
    var visiting: set<string>
    var visited: set<string>
    /** The modules in the order in which the search finished them. */
    ghost var finished: seq<string>

    ghost predicate Valid()
      reads this
    {
      (forall x :: x in visited <==> x in finished) && DependenciesFirst(deps, finished)
    }

    constructor (deps: Deps)
      ensures this.deps == deps && visiting == visited == {} && Valid()
    {
      this.deps := deps;
      visiting, visited, finished := {}, {}, [];
    }

    /** Searches from `current`; every module being visited lies on a walk to it. */
    method HasCycle(current: string) returns (found: bool)
      requires Valid() && current in Nodes(deps) && current !in visiting && current !in visited
      requires forall v | v in visiting :: Reaches(Edge(deps), v, current)
      modifies this
      ensures found ==> Cyclic(Edge(deps))
      ensures !found ==> Valid() && visiting == old(visiting) && old(visited) + {current} <= visited
      decreases Nodes(deps) - visiting - visited
    {
      ReachesItself(Edge(deps), current);
      ghost var stack := visiting;
      visiting := visiting + {current};
      var ds := DepsOf(deps, current);
      for k := 0 to |ds|
        invariant Valid() && visiting == stack + {current} && old(visited) <= visited
        invariant forall j | 0 <= j < k :: ds[j] in visited
        invariant forall v | v in visiting :: Reaches(Edge(deps), v, current)
      {
        var neighbor := ds[k];
        assert Edge(deps)(current, neighbor);
        if neighbor in visiting {
          ReachesExtend(Edge(deps), neighbor, current, neighbor);
          return true;
        }
        if neighbor !in visited {
          forall v | v in visiting ensures Reaches(Edge(deps), v, neighbor) {
            ReachesExtend(Edge(deps), v, current, neighbor);
          }
          assert current in old(Nodes(deps) - visiting - visited) - (Nodes(deps) - visiting - visited);
          found := HasCycle(neighbor);
          if found {
            return true;
          }
        }
      }
      visiting := visiting - {current};
      visited := visited + {current};
      FinishedGrows(deps, finished, current);
      finished := finished + [current];
      found := false;
    }

    /** Starts a search from every module, in the given order, until one finds a cycle. */
    method Detect(keys: seq<string>) returns (offender: Option<string>)
      requires Valid() && forall m :: m in keys <==> m in deps
      modifies this
      ensures offender.Some? <==> Cyclic(Edge(deps))
      ensures offender.Some? ==> offender.value in deps
    {
      for n := 0 to |keys|
        invariant Valid() && forall j | 0 <= j < n :: keys[j] in visited
      {
        if keys[n] !in visited {
          visiting := {};
          var found := HasCycle(keys[n]);
          if found {
            return Some(keys[n]);
          }
        }
      }
      ListingRulesOutCycles(deps, finished);
      return None;
    }
  }

  lemma FinishedGrows(deps: Deps, finished: seq<string>, m: string)
    requires DependenciesFirst(deps, finished)
    requires forall d | d in DepsOf(deps, m) :: d in finished
    ensures DependenciesFirst(deps, finished + [m])
  {
    var all := finished + [m];
    forall i | 0 <= i < |all| ensures DependenciesBefore(deps, all, i) {
      assert i < |finished| ==> DependenciesBefore(deps, finished, i) && all[..i] == finished[..i];
      assert i == |finished| ==> all[..i] == finished;
    }
  }

  /**
   Both checks on one manifest: the search agrees with the graph, and after a silent pass with the unlisted modules.
   */
  method CheckDependencies(deps: Deps, keys: seq<string>, ordering: seq<string>)
    returns (errors: seq<PrecedenceError>, offender: Option<string>)
    requires forall m :: m in keys <==> m in deps
    ensures forall e :: e in errors <==> exists i: nat, dep :: Offends(deps, ordering, i, dep, e)
    ensures offender.Some? <==> Cyclic(Edge(deps))
    ensures errors == [] ==> (offender.Some? <==> Cyclic(Edge(Unlisted(deps, ordering))))
    ensures errors == [] && (forall m | m in deps :: m in ordering) ==> offender == None
  {
    errors := PrecedencePass(deps, ordering);
    var search := new CycleSearch(deps);
    offender := search.Detect(keys);
    if errors == [] {
      assert forall e, i, dep | Offends(deps, ordering, i, dep, e) :: e in errors;
      SilentPassLeavesUnlisted(deps, ordering);
      if forall m | m in deps.Keys :: m in ordering {
        SilentPassRulesOutCycles(deps, ordering);
      }
    }
  }
}
