/**
 How src/CoordinatedShutdown.ts builds its phase graph: twelve seeded phases, a configuration
 block merged into them, and phases added later.
 */
module ShutdownPhases {
  import opened Options
  import opened PhaseGraphs
  import opened PhaseSorts

  const CANONICAL: seq<Name> := [
    "before-service-unbind", "service-unbind", "service-requests-done", "service-stop",
    "before-cluster-shutdown", "cluster-sharding-shutdown-region", "cluster-leave", "cluster-exiting",
    "cluster-exiting-done", "cluster-shutdown", "before-actor-system-terminate", "actor-system-terminate"]

  /** A phase of the seed depends on the one before it. */
  function SeedOf(order: seq<Name>): Graph {
    seq(|order|, i requires 0 <= i < |order| => Phase(order[i], if i == 0 then [] else [order[i - 1]]))
  }

  /** A child of the `phases` block; it may leave `depends-on` out. */
  datatype Override = Override(name: Name, dependsOn: Option<seq<Name>>)

  function DepsOfOverride(e: Override): seq<Name> {
    if e.dependsOn.Some? then e.dependsOn.value else []
  }

  function Declared(additions: seq<Override>): Graph {
    seq(|additions|, i requires 0 <= i < |additions| => Phase(additions[i].name, DepsOfOverride(additions[i])))
  }

  predicate AllKnown(g: Graph, deps: seq<Name>) {
    forall d :: d in deps ==> Has(g, d)
  }

  function NamesOf(g: Graph): seq<Name> {
    seq(|g|, i requires 0 <= i < |g| => g[i].name)
  }

  lemma NamesOfHas(g: Graph, n: Name)
    ensures n in NamesOf(g) <==> Has(g, n)
  {
    if Has(g, n) {
      var i :| 0 <= i < |g| && g[i].name == n;
      assert NamesOf(g)[i] == n;
    }
  }

  // ---- addPhase ----

  /** The graph after `addPhase`; the source throws, and changes nothing, where it is refused. */
  function Added(g: Graph, p: Phase): Graph {
    if Has(g, p.name) || !AllKnown(g, p.dependsOn) then g else g + [p]
  }

  function AddedAll(g: Graph, ps: seq<Phase>): Graph
    decreases |ps|
  {
    if ps == [] then g else AddedAll(Added(g, ps[0]), ps[1..])
  }

  /** A call adds its phase exactly when the name is new and every dependency is a phase, and nothing else. */
  lemma {:induction false} AddedLast(g: Graph, ps: seq<Phase>, p: Phase, q: Phase)
    ensures var h := AddedAll(g, ps);
      q in AddedAll(g, ps + [p]) <==> q in h || (q == p && !Has(h, p.name) && forall d :: d in p.dependsOn ==> Has(h, d))
    decreases |ps|
  {
    if ps == [] {
      assert ([] + [p])[1..] == [];
    } else {
      assert (ps + [p])[1..] == ps[1..] + [p];
      AddedLast(Added(g, ps[0]), ps[1..], p, q);
    }
  }

  lemma DepsAppend(g: Graph, p: Phase, n: Name)
    requires Distinct(g) && !Has(g, p.name)
    ensures Distinct(g + [p])
    ensures Deps(g + [p], n) == if n == p.name then p.dependsOn else Deps(g, n)
    ensures Has(g + [p], n) <==> Has(g, n) || n == p.name
  {
    var h := g + [p];
    assert Distinct(h);
    assert h[|g|] == p;
    assert forall i :: 0 <= i < |g| ==> h[i] == g[i];
    DepsHas(h, n);
    if n == p.name {
      DepsOf(h, p);
    } else if Has(g, n) {
      DepsHas(g, n);
      var q :| q in g && q.name == n && q.dependsOn == Deps(g, n);
      DepsOf(h, q);
    } else {
      DepsHas(g, n);
    }
  }

  /** A phase nothing depends on closes no cycle. */
  lemma AddedClosesNoCycle(g: Graph, p: Phase)
    requires Distinct(g) && Closed(g) && !Has(g, p.name) && AllKnown(g, p.dependsOn) && Cyclic(g + [p])
    ensures Cyclic(g)
  {
    var h := g + [p];
    var c :| IsCycle(h, c);
    forall n ensures p.name !in Deps(h, n) {
      DepsAppend(g, p, n);
      DepsHas(g, n);
    }
    forall i | 0 <= i < |c| ensures Deps(h, c[i]) == Deps(g, c[i]) {
      if i > 0 {
        assert c[i - 1 + 1] in Deps(h, c[i - 1]);
      }
      DepsAppend(g, p, c[i]);
    }
    assert IsCycle(g, c);
  }

  lemma AddedClosed(g: Graph, p: Phase)
    requires Distinct(g) && Closed(g) && !Has(g, p.name) && AllKnown(g, p.dependsOn)
    ensures Distinct(g + [p]) && Closed(g + [p])
  {
    var h := g + [p];
    DepsAppend(g, p, p.name);
    forall q, d | q in h && d in q.dependsOn ensures Has(h, d) {
      DepsAppend(g, p, d);
    }
  }

  /** Once built, a graph stays closed and acyclic whatever is added. */
  lemma AddedKeepsOrder(g: Graph, p: Phase)
    requires Distinct(g) && Closed(g) && !Cyclic(g)
    ensures Distinct(Added(g, p)) && Closed(Added(g, p)) && !Cyclic(Added(g, p))
  {
    if Added(g, p) != g {
      AddedClosed(g, p);
      if Cyclic(g + [p]) {
        AddedClosesNoCycle(g, p);
      }
    }
  }

  lemma {:induction false} AddedAllKeepsOrder(g: Graph, ps: seq<Phase>)
    requires Distinct(g) && Closed(g) && !Cyclic(g)
    ensures var h := AddedAll(g, ps); Distinct(h) && Closed(h) && !Cyclic(h)
    decreases |ps|
  {
    if ps == [] {
    } else {
      AddedKeepsOrder(g, ps[0]);
      AddedAllKeepsOrder(Added(g, ps[0]), ps[1..]);
    }
  }

  /**
   The sort inside a shutdown run fails, after any sequence of `addPhase` calls on a graph it
   could sort, exactly when one of the phases that were taken names a dependency twice.
   */
  lemma RunSortFailsExactlyWhen(g: Graph, ps: seq<Phase>)
    requires Distinct(g) && Kahn(g, [], true).Some?
    ensures var h := AddedAll(g, ps); Distinct(h) && Closed(h) && !Cyclic(h)
    ensures Kahn(AddedAll(g, ps), [], true).None? <==> exists p :: p in AddedAll(g, ps) && !NoDup(p.dependsOn)
  {
    SortFailsExactlyWhen(g, true);
    AddedAllKeepsOrder(g, ps);
    SortFailsExactlyWhen(AddedAll(g, ps), true);
  }

  // ---- registerDeclaredPhases ----

  /** The pending phases whose dependencies are all registered. */
  function Registrable(g: Graph, pending: Graph): Graph {
    if pending == [] then []
    else (if AllKnown(g, pending[0].dependsOn) then [pending[0]] else []) + Registrable(g, pending[1..])
  }

  function Unregistrable(g: Graph, pending: Graph): (r: Graph)
    ensures |r| + |Registrable(g, pending)| == |pending|
  {
    if pending == [] then []
    else (if AllKnown(g, pending[0].dependsOn) then [] else [pending[0]]) + Unregistrable(g, pending[1..])
  }

  lemma {:induction false} RegistrableMeans(g: Graph, pending: Graph, p: Phase)
    ensures p in Registrable(g, pending) <==> p in pending && AllKnown(g, p.dependsOn)
    ensures p in Unregistrable(g, pending) <==> p in pending && !AllKnown(g, p.dependsOn)
  {
    if pending == [] {
    } else {
      RegistrableMeans(g, pending[1..], p);
      assert pending == [pending[0]] + pending[1..];
    }
  }

  lemma {:induction false} RegistrableDistinct(g: Graph, pending: Graph)
    requires Distinct(pending)
    ensures Distinct(Registrable(g, pending)) && Distinct(Unregistrable(g, pending))
  {
    if pending == [] {
    } else {
      var rest := pending[1..];
      RegistrableDistinct(g, rest);
      forall p | p in Registrable(g, rest) || p in Unregistrable(g, rest) ensures p.name != pending[0].name {
        RegistrableMeans(g, rest, p);
        assert p in rest;
      }
    }
  }

  /** `order` lists phases so that each one's dependencies inside `g` stand before it. */
  ghost predicate Ranked(g: Graph, order: seq<Name>) {
    forall j, d :: 0 <= j < |order| && d in Deps(g, order[j]) && Has(g, d) ==> d in order[..j]
  }

  lemma {:induction false} NoCycleThrough(g: Graph, order: seq<Name>, c: seq<Name>, k: nat)
    requires Ranked(g, order) && IsCycle(g, c) && k <= |order|
    ensures forall i :: 0 <= i < |c| ==> c[i] !in order[..k]
    decreases k
  {
    if k == 0 {
    } else {
      NoCycleThrough(g, order, c, k - 1);
      assert order[..k] == order[..k - 1] + [order[k - 1]];
      forall i | 0 <= i < |c| ensures c[i] != order[k - 1] {
        var next := if i == |c| - 1 then 0 else i + 1;
        assert c[next] in Deps(g, c[i]);
        CycleInside(g, c, next);
      }
    }
  }

  lemma CycleInside(g: Graph, c: seq<Name>, i: nat)
    requires IsCycle(g, c) && i < |c|
    ensures Has(g, c[i])
  {
    var next := if i == |c| - 1 then 0 else i + 1;
    assert c[next] in Deps(g, c[i]);
    DepsHas(g, c[i]);
  }

  lemma RankedMeansAcyclic(g: Graph, order: seq<Name>)
    requires Ranked(g, order) && forall n :: Has(g, n) ==> n in order
    ensures !Cyclic(g)
  {
    if Cyclic(g) {
      var c :| IsCycle(g, c);
      assert order[..|order|] == order;
      CycleInside(g, c, 0);
      NoCycleThrough(g, order, c, |order|);
    }
  }

  /** Declared phases that all wait for one another are a cycle among them. */
  lemma StuckMeansDeclaredCycle(phases: Graph, declared: Graph, pending: Graph)
    requires Distinct(declared) && pending != [] && Registrable(phases, pending) == []
    requires forall p :: p in pending ==> p in declared
    requires forall p, d :: p in declared && d in p.dependsOn ==> Has(phases, d) || Has(declared, d)
    requires forall p :: p in declared ==> p in pending || Has(phases, p.name)
    ensures Cyclic(declared)
  {
    forall p | p in pending ensures Waits(declared, pending, p.name) {
      RegistrableMeans(phases, pending, p);
      var d :| d in p.dependsOn && !Has(phases, d);
      DepsOf(declared, p);
      NameIn(declared, d);
      var q :| q in declared && q.name == d;
      NameIn(pending, d);
    }
    WaitingMeansCyclic(declared, pending);
  }

  // ---- mergePhaseOverride ----

  function Missing(deps: seq<Name>, present: seq<Name>): seq<Name> {
    if deps == [] then []
    else (if deps[0] in present then [] else [deps[0]]) + Missing(deps[1..], present)
  }

  /** `depends-on` of a phase that exists is added to its edges, never a replacement. */
  function MergedPhase(p: Phase, e: Override): (r: Phase)
    ensures r.name == p.name
  {
    if p.name == e.name then Phase(p.name, p.dependsOn + Missing(DepsOfOverride(e), p.dependsOn)) else p
  }

  function Merged(g: Graph, e: Override): Graph {
    seq(|g|, i requires 0 <= i < |g| => MergedPhase(g[i], e))
  }

  function MergedAll(g: Graph, es: seq<Override>): Graph
    decreases |es|
  {
    if es == [] then g else MergedAll(Merged(g, es[0]), es[1..])
  }

  /** What a merge may do to a phase: keep its name and its edges. */
  ghost predicate Grown(before: Graph, after: Graph) {
    |after| == |before| && forall i :: 0 <= i < |before| ==>
      after[i].name == before[i].name && before[i].dependsOn <= after[i].dependsOn
  }

  lemma {:induction false} MissingFrom(deps: seq<Name>, present: seq<Name>, d: Name)
    ensures d in Missing(deps, present) <==> d in deps && d !in present
  {
    if deps == [] {
    } else {
      MissingFrom(deps[1..], present, d);
      assert deps == [deps[0]] + deps[1..];
    }
  }

  /** A merge adds exactly the dependencies its override names, to exactly the phase it names. */
  lemma MergedPhaseMeans(p: Phase, e: Override, d: Name)
    ensures d in MergedPhase(p, e).dependsOn <==> d in p.dependsOn || (p.name == e.name && d in DepsOfOverride(e))
  {
    MissingFrom(DepsOfOverride(e), p.dependsOn, d);
  }

  /** Whatever `deps` names twice is in `present`. */
  ghost predicate RepeatsOnly(deps: seq<Name>, present: seq<Name>) {
    forall i, j :: 0 <= i < j < |deps| && deps[i] == deps[j] ==> deps[i] in present
  }

  /** Only a dependency that is new to the phase can be repeated by a merge. */
  lemma {:induction false} MissingRepeats(deps: seq<Name>, present: seq<Name>)
    ensures NoDup(Missing(deps, present)) <==> RepeatsOnly(deps, present)
  {
    if deps == [] {
    } else {
      MissingRepeats(deps[1..], present);
      HeadRepeats(deps, present);
      if deps[0] !in present {
        MissingFrom(deps[1..], present, deps[0]);
        NoDupHead(deps[0], Missing(deps[1..], present));
      } else {
        assert Missing(deps, present) == Missing(deps[1..], present);
      }
    }
  }

  lemma HeadRepeats(deps: seq<Name>, present: seq<Name>)
    requires deps != []
    ensures RepeatsOnly(deps, present) <==> (deps[0] in deps[1..] ==> deps[0] in present) && RepeatsOnly(deps[1..], present)
  {
    var rest := deps[1..];
    if RepeatsOnly(deps, present) {
      forall i, j | 0 <= i < j < |rest| && rest[i] == rest[j] ensures rest[i] in present {
        assert deps[i + 1] == deps[j + 1];
      }
      if deps[0] in rest {
        var k :| 0 <= k < |rest| && rest[k] == deps[0];
        assert deps[0] == deps[k + 1];
      }
    }
    if (deps[0] in rest ==> deps[0] in present) && RepeatsOnly(rest, present) {
      forall i, j | 0 <= i < j < |deps| && deps[i] == deps[j] ensures deps[i] in present {
        assert rest[j - 1] == deps[j];
        if i > 0 {
          assert rest[i - 1] == deps[i];
        }
      }
    }
  }

  lemma NoDupHead(n: Name, s: seq<Name>)
    ensures NoDup([n] + s) <==> n !in s && NoDup(s)
  {
    var t := [n] + s;
    assert forall k :: 0 <= k < |s| ==> s[k] == t[k + 1];
    if NoDup(t) {
      forall i, j | 0 <= i < j < |s| ensures s[i] != s[j] {
        assert t[i + 1] != t[j + 1];
      }
      forall k | 0 <= k < |s| ensures s[k] != n {
        assert t[0] != t[k + 1];
      }
    }
  }

  lemma NoDupJoined(s: seq<Name>, t: seq<Name>)
    requires NoDup(s) && forall x :: x in t ==> x !in s
    ensures NoDup(s + t) <==> NoDup(t)
  {
    var u := s + t;
    assert forall k :: 0 <= k < |t| ==> t[k] == u[k + |s|];
    if NoDup(u) {
      forall i, j | 0 <= i < j < |t| ensures t[i] != t[j] {
        assert u[i + |s|] != u[j + |s|];
      }
    }
    if NoDup(t) {
      forall i, j | 0 <= i < j < |u| ensures u[i] != u[j] {
        if i < |s| <= j {
          assert u[j] in t;
        }
      }
    }
  }

  lemma {:induction false} MergedAllGrows(g: Graph, es: seq<Override>)
    ensures Grown(g, MergedAll(g, es))
    decreases |es|
  {
    if es == [] {
    } else {
      MergedAllGrows(Merged(g, es[0]), es[1..]);
    }
  }

  // ---- What configuration cannot change ----

  /** The seeded phases are there with their seeded edges, and every phase but the first has an edge. */
  ghost predicate KeepsSeed(order: seq<Name>, g: Graph) {
    && (forall i :: 0 <= i < |order| ==> Has(g, order[i]))
    && (forall i {:trigger Deps(g, order[i])} :: 0 < i < |order| ==> order[i - 1] in Deps(g, order[i]))
    && order != [] && (forall p :: p in g && p.name != order[0] ==> p.dependsOn != [])
  }

  ghost predicate Before(s: seq<Name>, a: Name, b: Name) {
    exists i, j :: 0 <= i < j < |s| && s[i] == a && s[j] == b
  }

  /** The sort puts a phase after everything it depends on. */
  lemma DependencyRunsBefore(g: Graph, strict: bool, n: Name, d: Name)
    requires Distinct(g) && Kahn(g, [], strict).Some? && d in Deps(g, n)
    ensures Before(Kahn(g, [], strict).value, d, n)
  {
    var r := Kahn(g, [], strict).value;
    SortReturnsTheOrder(g, strict);
    DepsHas(g, n);
    var j :| 0 <= j < |r| && r[j] == n;
    assert d in r[..j];
    var i :| 0 <= i < j && r[..j][i] == d;
    assert r[i] == d;
  }

  lemma {:induction false} SeedOrderKept(order: seq<Name>, g: Graph, r: seq<Name>, i: nat, j: nat)
    requires KeepsSeed(order, g) && DependenciesFirst(g, r) && NoDup(r) && i < j < |order| && order[j] in r
    ensures Before(r, order[i], order[j])
    decreases j
  {
    var b :| 0 <= b < |r| && r[b] == order[j];
    assert order[j - 1] in Deps(g, r[b]);
    assert order[j - 1] in r[..b];
    var a :| 0 <= a < b && r[a] == order[j - 1];
    if i < j - 1 {
      SeedOrderKept(order, g, r, i, j - 1);
      var x, y :| 0 <= x < y < |r| && r[x] == order[i] && r[y] == order[j - 1];
      assert y == a;
    }
  }

  lemma FirstWaitsForNothing(g: Graph, r: seq<Name>)
    requires DependenciesFirst(g, r) && r != []
    ensures Deps(g, r[0]) == []
  {
    assert forall d :: d in Deps(g, r[0]) ==> d in r[..0];
    NonEmptyHas(Deps(g, r[0]));
  }

  lemma NonEmptyHas(s: seq<Name>)
    ensures s == [] || exists x :: x in s
  {
    if s != [] {
      assert s[0] in s;
    }
  }

  /** The first phase run is the first of the seed, and the seeded phases run in their seeded order. */
  lemma SeedRunsFirst(order: seq<Name>, g: Graph, strict: bool)
    requires KeepsSeed(order, g) && Distinct(g) && Kahn(g, [], strict).Some?
    ensures var r := Kahn(g, [], strict).value;
      r != [] && r[0] == order[0] && forall i, j :: 0 <= i < j < |order| ==> Before(r, order[i], order[j])
  {
    var r := Kahn(g, [], strict).value;
    SortReturnsTheOrder(g, strict);
    assert order[0] in r;
    FirstWaitsForNothing(g, r);
    DepsHas(g, r[0]);
    forall i, j | 0 <= i < j < |order| ensures Before(r, order[i], order[j]) {
      SeedOrderKept(order, g, r, i, j);
    }
  }

  // ---- Which phase runs first ----

  /** Of the phases that depend on nothing, `n` has the least name. */
  ghost predicate LeastFree(g: Graph, n: Name) {
    && Has(g, n) && Deps(g, n) == []
    && forall p :: p in g && p.dependsOn == [] && p.name != n ==> Less(n, p.name)
  }

  lemma FreePrecedesByName(g: Graph, a: Name, b: Name)
    requires Deps(g, b) == [] && Precedes(g, a, b)
    ensures Less(a, b)
  {
    var i: nat, j: nat :| Depth(g, a, i) && Depth(g, b, j) && (i < j || (i == j && Less(a, b)));
    assert HasChain(g, b, j);
    assert j == 0;
  }

  /** The first phase run is the one with the least name among those that depend on nothing. */
  lemma FirstIsLeastFree(g: Graph, strict: bool, n: Name)
    requires Distinct(g) && Kahn(g, [], strict).Some?
    ensures var r := Kahn(g, [], strict).value; r != [] && r[0] == n <==> LeastFree(g, n)
  {
    var r := Kahn(g, [], strict).value;
    SortReturnsTheOrder(g, strict);
    if r != [] {
      FirstWaitsForNothing(g, r);
      forall p | p in g && p.dependsOn == [] && p.name != r[0] ensures Less(r[0], p.name) {
        DepsOf(g, p);
        assert p.name in r;
        var j :| 0 <= j < |r| && r[j] == p.name;
        FreePrecedesByName(g, r[0], p.name);
      }
      assert Has(g, r[0]);
      if LeastFree(g, n) && r[0] != n {
        DepsHas(g, n);
        DepsHas(g, r[0]);
        LessTrans(n, r[0], n);
        LessIrreflexive(n);
      }
    }
  }

  lemma {:induction false} AddedAllExtends(g: Graph, ps: seq<Phase>)
    ensures g <= AddedAll(g, ps)
    decreases |ps|
  {
    if ps == [] {
    } else {
      AddedAllExtends(Added(g, ps[0]), ps[1..]);
    }
  }

  lemma LeastFreeAfterAdding(g: Graph, h: Graph, first: Name)
    requires Distinct(h) && g <= h && LeastFree(g, first)
    ensures LeastFree(h, first) <==> forall p :: p in h && p !in g && p.dependsOn == [] ==> Less(first, p.name)
  {
    DepsHas(g, first);
    var f :| f in g && f.name == first && f.dependsOn == [];
    var j :| 0 <= j < |g| && g[j] == f;
    assert h[j] == f;
    DepsOf(h, f);
    forall p | p in h && p !in g ensures p.name != first {
      var i :| 0 <= i < |h| && h[i] == p;
    }
  }

  /**
   After `addPhase` calls the phase that ran first still does exactly when every phase that was
   taken with an empty `dependsOn` has a greater name.
   */
  lemma StaysFirstExactlyWhen(g: Graph, ps: seq<Phase>, first: Name)
    requires Distinct(g) && Kahn(g, [], true).Some? && Kahn(g, [], true).value != [] && Kahn(g, [], true).value[0] == first
    requires Kahn(AddedAll(g, ps), [], true).Some?
    ensures var h := AddedAll(g, ps);
      var r := Kahn(h, [], true).value;
      r != [] && r[0] == first <==> forall p :: p in h && p !in g && p.dependsOn == [] ==> Less(first, p.name)
  {
    var h := AddedAll(g, ps);
    RunSortFailsExactlyWhen(g, ps);
    AddedAllExtends(g, ps);
    FirstIsLeastFree(g, true, first);
    FirstIsLeastFree(h, true, first);
    LeastFreeAfterAdding(g, h, first);
  }
}
