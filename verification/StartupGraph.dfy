/**
 How src/CoordinatedStartup.ts builds its phase graph: two seeded phases, the configuration block,
 then the entries given in code, each merged over the seed.
 */
module StartupGraphs {
  import opened Options
  import opened PhaseGraphs
  import opened PhaseSorts
  import opened TopologicalOrders
  import opened ShutdownPhases
  import opened ShutdownGraphs

  const STARTUP: seq<Name> := ["persistence-start", "before-system-ready"]

  /** `new Set(...)` keeps the first of equal names. */
  function Deduped(s: seq<Name>): seq<Name> {
    if s == [] then []
    else
      var front := Deduped(s[..|s| - 1]);
      if s[|s| - 1] in front then front else front + [s[|s| - 1]]
  }

  /** `Map.set`: an entry of the same name is replaced where it stands. */
  function Put(g: Graph, p: Phase): Graph {
    if g == [] then [p] else if g[0].name == p.name then [p] + g[1..] else [g[0]] + Put(g[1..], p)
  }

  /** An entry over the seeded phase of its name: its edges are added to the seeded ones. */
  function Over(seed: Graph, p: Phase): (r: Phase)
    ensures r.name == p.name && Deps(seed, p.name) <= r.dependsOn
  {
    var base := Deps(seed, p.name);
    Phase(p.name, base + Deduped(Missing(p.dependsOn, base)))
  }

  function PutAll(g: Graph, seed: Graph, ps: seq<Phase>): Graph
    decreases |ps|
  {
    if ps == [] then g else PutAll(Put(g, Over(seed, ps[0])), seed, ps[1..])
  }

  /** What the source checks of each entry: a new phase says where it belongs, and names only known phases. */
  predicate Checked(seed: Graph, known: Graph, ps: seq<Phase>) {
    forall p :: p in ps ==> (Has(seed, p.name) || p.dependsOn != []) && AllKnown(known, p.dependsOn)
  }

  lemma {:induction false} DedupedMeans(s: seq<Name>, n: Name)
    ensures n in Deduped(s) <==> n in s
  {
    if s == [] {
    } else {
      DedupedMeans(s[..|s| - 1], n);
      assert s == s[..|s| - 1] + [s[|s| - 1]];
    }
  }

  lemma OverMeans(seed: Graph, p: Phase, d: Name)
    ensures d in Over(seed, p).dependsOn <==> d in Deps(seed, p.name) || d in p.dependsOn
  {
    var base := Deps(seed, p.name);
    DedupedMeans(Missing(p.dependsOn, base), d);
    MissingFrom(p.dependsOn, base, d);
  }

  lemma {:induction false} PutMeans(g: Graph, p: Phase, q: Phase)
    requires Distinct(g)
    ensures q in Put(g, p) <==> q == p || (q in g && q.name != p.name)
  {
    if g == [] {
    } else {
      PutMeans(g[1..], p, q);
      assert g == [g[0]] + g[1..];
    }
  }

  lemma {:induction false} PutDistinct(g: Graph, p: Phase)
    requires Distinct(g)
    ensures Distinct(Put(g, p))
  {
    if g == [] {
    } else {
      PutDistinct(g[1..], p);
      if g[0].name != p.name {
        forall q | q in Put(g[1..], p) ensures q.name != g[0].name {
          PutMeans(g[1..], p, q);
        }
      }
    }
  }

  /** Every phase of the result is an entry over its seed, or one of `g` that no entry names. */
  lemma {:induction false} PutAllMeans(g: Graph, seed: Graph, ps: seq<Phase>)
    requires Distinct(g) && Distinct(ps)
    ensures Distinct(PutAll(g, seed, ps))
    ensures forall q :: q in PutAll(g, seed, ps) <==>
      (exists p :: p in ps && q == Over(seed, p)) || (q in g && !Has(ps, q.name))
    decreases |ps|
  {
    if ps == [] {
    } else {
      var next := Put(g, Over(seed, ps[0]));
      PutDistinct(g, Over(seed, ps[0]));
      PutAllMeans(next, seed, ps[1..]);
      forall q ensures q in PutAll(g, seed, ps) <==>
        (exists p :: p in ps && q == Over(seed, p)) || (q in g && !Has(ps, q.name))
      {
        PutMeans(g, Over(seed, ps[0]), q);
        assert ps == [ps[0]] + ps[1..];
        NameIn(ps, q.name);
        NameIn(ps[1..], q.name);
      }
    }
  }

  /** The graph `create` builds: the configuration over the seed, then the code's entries over both. */
  function Built(seed: Graph, configured: seq<Phase>, entries: seq<Phase>): Graph {
    PutAll(PutAll(seed, seed, configured), seed, entries)
  }

  /** The block names only the seed and itself; the code may name the block's phases too. */
  ghost predicate Valid(seed: Graph, configured: seq<Phase>, entries: seq<Phase>) {
    && Distinct(configured) && Distinct(entries)
    && Checked(seed, seed + configured, configured)
    && Checked(seed, seed + configured + entries, entries)
  }

  lemma BuiltMeans(seed: Graph, configured: seq<Phase>, entries: seq<Phase>, q: Phase)
    requires Distinct(seed) && Distinct(configured) && Distinct(entries)
    ensures Distinct(Built(seed, configured, entries))
    ensures q in Built(seed, configured, entries) ==>
      q in seed || exists p :: (p in configured || p in entries) && q == Over(seed, p)
  {
    PutAllMeans(seed, seed, configured);
    PutAllMeans(PutAll(seed, seed, configured), seed, entries);
  }

  /** The entry that decides a phase's edges beyond the seeded ones: the code's, else the block's. */
  ghost predicate Decides(configured: seq<Phase>, entries: seq<Phase>, p: Phase) {
    p in entries || (p in configured && !Has(entries, p.name))
  }

  /** The edges of a built graph are the seeded ones and those its deciding entry names, and no others. */
  lemma BuiltEdges(seed: Graph, configured: seq<Phase>, entries: seq<Phase>, n: Name, d: Name)
    requires Distinct(seed) && Distinct(configured) && Distinct(entries)
    ensures d in Deps(Built(seed, configured, entries), n) <==>
      d in Deps(seed, n) || exists p :: Decides(configured, entries, p) && p.name == n && d in p.dependsOn
  {
    var c, g := PutAll(seed, seed, configured), Built(seed, configured, entries);
    PutAllMeans(seed, seed, configured);
    PutAllMeans(c, seed, entries);
    if p :| Decides(configured, entries, p) && p.name == n {
      assert Over(seed, p) in g;
      DepsOf(g, Over(seed, p));
      OverMeans(seed, p, d);
      forall q | Decides(configured, entries, q) && q.name == n ensures q == p {
        NameIn(entries, n);
      }
    } else {
      NameIn(entries, n);
      NameIn(configured, n);
      NameIn(g, n);
      NameIn(seed, n);
      DepsHas(seed, n);
      DepsHas(g, n);
      if Has(seed, n) {
        var q :| q in seed && q.name == n && q.dependsOn == Deps(seed, n);
        assert q in c && q in g;
        DepsOf(g, q);
      } else {
        assert !Has(g, n);
      }
    }
  }

  lemma BuiltNames(seed: Graph, configured: seq<Phase>, entries: seq<Phase>, n: Name)
    requires Distinct(seed) && Distinct(configured) && Distinct(entries) && Has(seed + configured + entries, n)
    ensures Has(Built(seed, configured, entries), n)
  {
    var c := PutAll(seed, seed, configured);
    PutAllMeans(seed, seed, configured);
    PutAllMeans(c, seed, entries);
    NameIn(seed + configured + entries, n);
    var p :| p in seed + configured + entries && p.name == n;
    NameIn(entries, n);
    NameIn(configured, n);
    var g := Built(seed, configured, entries);
    if Has(entries, n) {
      var e :| e in entries && e.name == n;
      assert Over(seed, e) in g;
      NameIn(g, n);
    } else if Has(configured, n) {
      var e :| e in configured && e.name == n;
      assert Over(seed, e) in c;
      NameIn(g, n);
    } else {
      assert p in c;
      NameIn(g, n);
    }
  }

  lemma BuiltClosed(seed: Graph, configured: seq<Phase>, entries: seq<Phase>)
    requires Distinct(seed) && Closed(seed) && Valid(seed, configured, entries)
    ensures Closed(Built(seed, configured, entries))
  {
    var g := Built(seed, configured, entries);
    forall q, d | q in g && d in q.dependsOn ensures Has(g, d) {
      BuiltMeans(seed, configured, entries, q);
      assert Has(seed + configured + entries, d) by {
        if q in seed {
          Wider(seed, configured, entries, d);
        } else {
          var p :| (p in configured || p in entries) && q == Over(seed, p);
          OverMeans(seed, p, d);
          DepsHas(seed, p.name);
          Wider(seed, configured, entries, d);
        }
      }
      BuiltNames(seed, configured, entries, d);
    }
  }

  lemma Wider(seed: Graph, configured: seq<Phase>, entries: seq<Phase>, n: Name)
    ensures Has(seed, n) || Has(seed + configured, n) ==> Has(seed + configured + entries, n)
  {
    NameIn(seed, n);
    NameIn(seed + configured, n);
    NameIn(seed + configured + entries, n);
  }

  lemma BuiltKeepsSeed(order: seq<Name>, configured: seq<Phase>, entries: seq<Phase>)
    requires order != [] && NoDup(order) && Valid(SeedOf(order), configured, entries)
    ensures KeepsSeed(order, Built(SeedOf(order), configured, entries))
  {
    var seed := SeedOf(order);
    var g := Built(seed, configured, entries);
    SeedIsFit(order);
    forall i | 0 <= i < |order| ensures Has(g, order[i]) && (i > 0 ==> order[i - 1] in Deps(g, order[i])) {
      assert seed[i].name == order[i] && seed[i] in seed;
      DepsOf(seed, seed[i]);
      Wider(seed, configured, entries, order[i]);
      BuiltNames(seed, configured, entries, order[i]);
      DepsHas(g, order[i]);
      var q :| q in g && q.name == order[i] && q.dependsOn == Deps(g, order[i]);
      BuiltMeans(seed, configured, entries, q);
      if q in seed {
        DepsOf(seed, q);
      } else {
        var p :| (p in configured || p in entries) && q == Over(seed, p);
        if i > 0 {
          OverMeans(seed, p, order[i - 1]);
          assert seed[i].dependsOn[0] == order[i - 1];
        }
      }
    }
    forall q | q in g && q.name != order[0] ensures q.dependsOn != [] {
      BuiltMeans(seed, configured, entries, q);
      if q !in seed {
        var p :| (p in configured || p in entries) && q == Over(seed, p);
        OverHasEdges(order, p);
      }
    }
  }

  lemma OverHasEdges(order: seq<Name>, p: Phase)
    requires NoDup(order) && order != [] && p.name != order[0] && (Has(SeedOf(order), p.name) || p.dependsOn != [])
    ensures Over(SeedOf(order), p).dependsOn != []
  {
    var seed := SeedOf(order);
    if Has(seed, p.name) {
      SeededEdge(order, p.name);
      OverMeans(seed, p, Deps(seed, p.name)[0]);
    } else {
      OverMeans(seed, p, p.dependsOn[0]);
    }
  }

  lemma SeededEdge(order: seq<Name>, n: Name)
    requires NoDup(order) && order != [] && n != order[0] && Has(SeedOf(order), n)
    ensures Deps(SeedOf(order), n) != []
  {
    var seed := SeedOf(order);
    SeedIsFit(order);
    var i :| 0 <= i < |seed| && seed[i].name == n;
    assert seed[i] in seed;
    DepsOf(seed, seed[i]);
  }

  /**
   A startup graph whose entries pass the checks is refused exactly when it is cyclic; otherwise
   the first phase run is `persistence-start` and `before-system-ready` runs after it.
   */
  lemma StartupKeepsItsOrder(configured: seq<Phase>, entries: seq<Phase>)
    requires Valid(SeedOf(STARTUP), configured, entries)
    ensures var g := Built(SeedOf(STARTUP), configured, entries);
      && Distinct(g) && (Kahn(g, [], false).None? <==> Cyclic(g))
      && (Kahn(g, [], false).Some? ==>
            var r := Kahn(g, [], false).value;
            r != [] && r[0] == "persistence-start" && Before(r, "persistence-start", "before-system-ready"))
  {
    var seed := SeedOf(STARTUP);
    var g := Built(seed, configured, entries);
    SeedIsFit(STARTUP);
    BuiltMeans(seed, configured, entries, Phase("", []));
    BuiltClosed(seed, configured, entries);
    SortFailsExactlyWhen(g, false);
    BuiltKeepsSeed(STARTUP, configured, entries);
    if Kahn(g, [], false).Some? {
      SeedRunsFirst(STARTUP, g, false);
      assert Before(Kahn(g, [], false).value, STARTUP[0], STARTUP[1]);
    }
  }

  /** The startup runs a phase after everything its deciding entry depends on. */
  lemma StartupOrderIsKept(configured: seq<Phase>, entries: seq<Phase>, p: Phase, d: Name)
    requires Valid(SeedOf(STARTUP), configured, entries) && Decides(configured, entries, p) && d in p.dependsOn
    requires Kahn(Built(SeedOf(STARTUP), configured, entries), [], false).Some?
    ensures Before(Kahn(Built(SeedOf(STARTUP), configured, entries), [], false).value, d, p.name)
  {
    SeedIsFit(STARTUP);
    StartupKeepsItsOrder(configured, entries);
    BuiltEdges(SeedOf(STARTUP), configured, entries, p.name, d);
    DependencyRunsBefore(Built(SeedOf(STARTUP), configured, entries), false, p.name, d);
  }

  class StartupGraph {
    var phases: Graph

    constructor ()
      ensures phases == SeedOf(STARTUP)
    {
      phases := SeedOf(STARTUP);
    }

    method PutEach(seed: Graph, ps: seq<Phase>)
      modifies this
      ensures phases == PutAll(old(phases), seed, ps)
    {
      for i := 0 to |ps|
        invariant PutAll(phases, seed, ps[i..]) == PutAll(old(phases), seed, ps)
      {
        phases := Put(phases, Over(seed, ps[i]));
        assert ps[i..][1..] == ps[i + 1..];
      }
    }

    /** The constructor's work on the graph: check, merge, and sort once so that a cycle is refused now. */
    method Build(configured: seq<Phase>, entries: seq<Phase>) returns (accepted: bool)
      requires phases == SeedOf(STARTUP) && Distinct(configured)
      modifies this
      ensures accepted <==>
        && Valid(SeedOf(STARTUP), configured, entries)
        && !Cyclic(Built(SeedOf(STARTUP), configured, [])) && !Cyclic(Built(SeedOf(STARTUP), configured, entries))
      ensures accepted ==> phases == Built(SeedOf(STARTUP), configured, entries)
    {
      var seed := phases;
      SeedIsFit(STARTUP);
      if !Distinct(entries) || !Checked(seed, seed + configured + entries, entries) || !Checked(seed, seed + configured, configured) {
        return false;
      }
      PutEach(seed, configured);
      assert phases == Built(seed, configured, []);
      assert Valid(seed, configured, []);
      StartupKeepsItsOrder(configured, []);
      var first := StartupOrder(phases);
      if first.None? {
        return false;
      }
      PutEach(seed, entries);
      StartupKeepsItsOrder(configured, entries);
      var order := StartupOrder(phases);
      return order.Some?;
    }
  }
}
