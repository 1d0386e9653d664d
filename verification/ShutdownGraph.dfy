/**
 The shutdown graph as an object: which configurations it accepts, and what a run is left with.
 */
module ShutdownGraphs {
  import opened Options
  import opened PhaseGraphs
  import opened PhaseSorts
  import opened TopologicalOrders
  import opened ShutdownPhases

  // ---- What a configuration amounts to ----

  function Additions(g: Graph, es: seq<Override>): seq<Override> {
    if es == [] then [] else (if Has(g, es[0].name) then [] else [es[0]]) + Additions(g, es[1..])
  }

  function Existing(g: Graph, es: seq<Override>): seq<Override> {
    if es == [] then [] else (if Has(g, es[0].name) then [es[0]] else []) + Existing(g, es[1..])
  }

  /** The graph a configuration asks for, whatever order its phases end up in. */
  function Configured(g: Graph, es: seq<Override>): Graph {
    MergedAll(g + Declared(Additions(g, es)), Existing(g, es))
  }

  ghost predicate DistinctNames(es: seq<Override>) {
    forall i, j :: 0 <= i < j < |es| ==> es[i].name != es[j].name
  }

  predicate Names(es: seq<Override>, n: Name) {
    exists e :: e in es && e.name == n
  }

  /** Every `depends-on` names a seeded phase or another child of the block. */
  predicate Resolves(g: Graph, es: seq<Override>) {
    forall e :: e in es ==> forall d :: d in DepsOfOverride(e) ==> Has(g, d) || Names(es, d)
  }

  /** A phase the block declares says where it belongs. */
  predicate Placed(additions: seq<Override>) {
    forall e :: e in additions ==> DepsOfOverride(e) != []
  }

  lemma {:induction false} AdditionsMean(g: Graph, es: seq<Override>, e: Override)
    ensures e in Additions(g, es) <==> e in es && !Has(g, e.name)
    ensures e in Existing(g, es) <==> e in es && Has(g, e.name)
  {
    if es == [] {
    } else {
      AdditionsMean(g, es[1..], e);
      assert es == [es[0]] + es[1..];
    }
  }

  lemma {:induction false} AdditionsDistinct(g: Graph, es: seq<Override>)
    requires DistinctNames(es)
    ensures DistinctNames(Additions(g, es))
  {
    if es == [] {
    } else {
      AdditionsDistinct(g, es[1..]);
      forall e | e in Additions(g, es[1..]) ensures e.name != es[0].name {
        AdditionsMean(g, es[1..], e);
        assert e in es[1..];
      }
    }
  }

  lemma DeclaredMeans(additions: seq<Override>, n: Name)
    ensures Has(Declared(additions), n) <==> Names(additions, n)
    ensures forall p :: p in Declared(additions) <==> exists e :: e in additions && p == Phase(e.name, DepsOfOverride(e))
  {
    var d := Declared(additions);
    forall i | 0 <= i < |additions| ensures d[i] == Phase(additions[i].name, DepsOfOverride(additions[i])) && additions[i] in additions {}
    forall e | e in additions ensures exists i :: 0 <= i < |d| && d[i] == Phase(e.name, DepsOfOverride(e)) {
      var i :| 0 <= i < |additions| && additions[i] == e;
      assert d[i] == Phase(e.name, DepsOfOverride(e));
    }
  }

  lemma DeclaredDistinct(g: Graph, es: seq<Override>)
    requires Distinct(g) && DistinctNames(es)
    ensures Distinct(Declared(Additions(g, es))) && Distinct(g + Declared(Additions(g, es)))
  {
    var additions := Additions(g, es);
    AdditionsDistinct(g, es);
    var d := Declared(additions);
    var h := g + d;
    forall i, j | 0 <= i < j < |h| ensures h[i].name != h[j].name {
      if i < |g| <= j {
        assert additions[j - |g|] in additions;
        AdditionsMean(g, es, additions[j - |g|]);
        assert g[i].name == h[i].name;
      }
    }
  }

  // ---- Merging ----

  function MergedThrough(p: Phase, es: seq<Override>): (r: Phase)
    ensures r.name == p.name
    decreases |es|
  {
    if es == [] then p else MergedThrough(MergedPhase(p, es[0]), es[1..])
  }

  lemma {:induction false} MergedAllAt(g: Graph, es: seq<Override>, i: nat)
    requires i < |g|
    ensures |MergedAll(g, es)| == |g| && MergedAll(g, es)[i] == MergedThrough(g[i], es)
    decreases |es|
  {
    if es == [] {
    } else {
      MergedAllAt(Merged(g, es[0]), es[1..], i);
    }
  }

  lemma MergedAllSize(g: Graph, es: seq<Override>)
    ensures |MergedAll(g, es)| == |g|
  {
    MergedAllGrows(g, es);
  }

  lemma MergedAllMeans(g: Graph, es: seq<Override>, p: Phase)
    ensures p in MergedAll(g, es) <==> exists q :: q in g && p == MergedThrough(q, es)
  {
    var m := MergedAll(g, es);
    MergedAllSize(g, es);
    if p in m {
      var i :| 0 <= i < |m| && m[i] == p;
      MergedAllAt(g, es, i);
      assert g[i] in g;
    }
    if q :| q in g && p == MergedThrough(q, es) {
      var i :| 0 <= i < |g| && g[i] == q;
      MergedAllAt(g, es, i);
      assert m[i] in m;
    }
  }

  lemma MergedAllSameNames(g: Graph, es: seq<Override>, n: Name)
    ensures Has(MergedAll(g, es), n) <==> Has(g, n)
    ensures Distinct(g) ==> Distinct(MergedAll(g, es))
  {
    MergedAllGrows(g, es);
    var m := MergedAll(g, es);
    if Has(g, n) {
      var i :| 0 <= i < |g| && g[i].name == n;
      assert m[i].name == n;
    }
  }

  /** The same phases in another order merge to the same phases. */
  lemma MergedAllSamePhases(g: Graph, h: Graph, es: seq<Override>)
    requires forall p :: p in g <==> p in h
    ensures forall p :: p in MergedAll(g, es) <==> p in MergedAll(h, es)
  {
    forall p ensures p in MergedAll(g, es) <==> p in MergedAll(h, es) {
      MergedAllMeans(g, es, p);
      MergedAllMeans(h, es, p);
    }
  }

  // ---- Which configurations are accepted ----

  lemma ConfiguredNames(g: Graph, es: seq<Override>, n: Name)
    requires Distinct(g) && DistinctNames(es)
    ensures Distinct(Configured(g, es))
    ensures Has(Configured(g, es), n) <==> Has(g, n) || Names(es, n)
  {
    var additions := Additions(g, es);
    var h := g + Declared(additions);
    DeclaredDistinct(g, es);
    MergedAllSameNames(h, Existing(g, es), n);
    DeclaredMeans(additions, n);
    NameIn(h, n);
    NameIn(g, n);
    NameIn(Declared(additions), n);
    if Names(es, n) {
      var e :| e in es && e.name == n;
      AdditionsMean(g, es, e);
    }
    if Names(additions, n) {
      var e :| e in additions && e.name == n;
      AdditionsMean(g, es, e);
    }
  }

  /** Some child of the block for the phase `n` lists `d` under `depends-on`. */
  predicate AsksFor(es: seq<Override>, n: Name, d: Name) {
    exists e :: e in es && e.name == n && d in DepsOfOverride(e)
  }

  /** A merged phase gains exactly the dependencies its overrides name. */
  lemma {:induction false} MergedThroughMeans(p: Phase, es: seq<Override>, d: Name)
    ensures d in MergedThrough(p, es).dependsOn <==> d in p.dependsOn || AsksFor(es, p.name, d)
    decreases |es|
  {
    if es == [] {
    } else {
      MergedThroughMeans(MergedPhase(p, es[0]), es[1..], d);
      assert es == [es[0]] + es[1..];
      MergedPhaseMeans(p, es[0], d);
    }
  }

  lemma UnmergedDeps(g: Graph, es: seq<Override>, n: Name)
    requires Distinct(g) && DistinctNames(es)
    ensures var h := g + Declared(Additions(g, es));
      && Distinct(h)
      && (Has(g, n) ==> Deps(h, n) == Deps(g, n))
      && (forall e :: e in es && e.name == n && !Has(g, n) ==> Deps(h, n) == DepsOfOverride(e))
  {
    var additions := Additions(g, es);
    var h := g + Declared(additions);
    DeclaredDistinct(g, es);
    if Has(g, n) {
      DepsHas(g, n);
      var p :| p in g && p.name == n && p.dependsOn == Deps(g, n);
      DepsOf(h, p);
    }
    forall e | e in es && e.name == n && !Has(g, n) ensures Deps(h, n) == DepsOfOverride(e) {
      AdditionsMean(g, es, e);
      DeclaredMeans(additions, n);
      assert Phase(e.name, DepsOfOverride(e)) in Declared(additions);
      DepsOf(h, Phase(e.name, DepsOfOverride(e)));
    }
  }

  lemma ConfiguredDeps(g: Graph, es: seq<Override>, n: Name)
    requires Distinct(g) && DistinctNames(es) && (Has(g, n) || Names(es, n))
    ensures var h := g + Declared(Additions(g, es));
      Deps(Configured(g, es), n) == MergedThrough(Phase(n, Deps(h, n)), Existing(g, es)).dependsOn
  {
    var h := g + Declared(Additions(g, es));
    var c := Configured(g, es);
    ConfiguredNames(g, es, n);
    MergedAllSameNames(h, Existing(g, es), n);
    DeclaredDistinct(g, es);
    DepsHas(h, n);
    var p :| p in h && p.name == n && p.dependsOn == Deps(h, n);
    MergedAllMeans(h, Existing(g, es), MergedThrough(p, Existing(g, es)));
    DepsOf(c, MergedThrough(p, Existing(g, es)));
    assert p == Phase(n, Deps(h, n));
  }

  /** The edges of the configured graph are the seeded ones and those its children ask for, and no others. */
  lemma ConfiguredEdges(g: Graph, es: seq<Override>, n: Name, d: Name)
    requires Distinct(g) && DistinctNames(es)
    ensures d in Deps(Configured(g, es), n) <==> d in Deps(g, n) || AsksFor(es, n, d)
  {
    var h := g + Declared(Additions(g, es));
    ConfiguredNames(g, es, n);
    DepsHas(g, n);
    if Has(g, n) || Names(es, n) {
      ConfiguredDeps(g, es, n);
      UnmergedDeps(g, es, n);
      MergedThroughMeans(Phase(n, Deps(h, n)), Existing(g, es), d);
      if AsksFor(es, n, d) {
        var e :| e in es && e.name == n && d in DepsOfOverride(e);
        AdditionsMean(g, es, e);
      }
      if AsksFor(Existing(g, es), n, d) {
        var e :| e in Existing(g, es) && e.name == n && d in DepsOfOverride(e);
        AdditionsMean(g, es, e);
      }
      if !Has(g, n) {
        var e :| e in es && e.name == n;
        assert d in Deps(h, n) <==> d in DepsOfOverride(e);
      }
    } else {
      DepsHas(Configured(g, es), n);
    }
  }

  /** With a name given once, a phase is merged with its own child alone. */
  lemma {:induction false} MergedOnce(p: Phase, es: seq<Override>, e: Override)
    requires DistinctNames(es) && e in es && e.name == p.name
    ensures MergedThrough(p, es) == MergedPhase(p, e)
    decreases |es|
  {
    assert es == [es[0]] + es[1..];
    if es[0] == e {
      NotMerged(MergedPhase(p, e), es[1..]);
    } else {
      var i :| 0 <= i < |es| && es[i] == e;
      assert es[0].name != es[i].name;
      MergedOnce(p, es[1..], e);
    }
  }

  lemma {:induction false} ExistingDistinct(g: Graph, es: seq<Override>)
    requires DistinctNames(es)
    ensures DistinctNames(Existing(g, es))
  {
    if es == [] {
    } else {
      ExistingDistinct(g, es[1..]);
      forall e | e in Existing(g, es[1..]) ensures e.name != es[0].name {
        AdditionsMean(g, es[1..], e);
        assert e in es[1..];
      }
    }
  }

  lemma ConfiguredRepeatsAt(g: Graph, es: seq<Override>, e: Override)
    requires Distinct(g) && DupFree(g) && DistinctNames(es) && e in es
    ensures NoDup(Deps(Configured(g, es), e.name)) <==> RepeatsOnly(DepsOfOverride(e), Deps(g, e.name))
  {
    var h := g + Declared(Additions(g, es));
    var p := Phase(e.name, Deps(h, e.name));
    ConfiguredDeps(g, es, e.name);
    UnmergedDeps(g, es, e.name);
    AdditionsMean(g, es, e);
    DepsHas(g, e.name);
    if Has(g, e.name) {
      ExistingDistinct(g, es);
      MergedOnce(p, Existing(g, es), e);
      var added := Missing(DepsOfOverride(e), p.dependsOn);
      MissingRepeats(DepsOfOverride(e), p.dependsOn);
      forall x | x in added ensures x !in p.dependsOn {
        MissingFrom(DepsOfOverride(e), p.dependsOn, x);
      }
      NoDupJoined(p.dependsOn, added);
    } else {
      forall f | f in Existing(g, es) ensures f.name != e.name {
        AdditionsMean(g, es, f);
      }
      NotMerged(p, Existing(g, es));
    }
  }

  /** The configured graph repeats no dependency exactly when no child repeats one that is new to its phase. */
  lemma ConfiguredRepeatsExactlyWhen(g: Graph, es: seq<Override>)
    requires Distinct(g) && DupFree(g) && DistinctNames(es)
    ensures DupFree(Configured(g, es)) <==> forall e :: e in es ==> RepeatsOnly(DepsOfOverride(e), Deps(g, e.name))
  {
    var c := Configured(g, es);
    ConfiguredNames(g, es, "");
    forall e | e in es ensures exists p :: p in c && p.name == e.name && p.dependsOn == Deps(c, e.name) {
      ConfiguredNames(g, es, e.name);
      DepsHas(c, e.name);
    }
    forall e | e in es ensures NoDup(Deps(c, e.name)) <==> RepeatsOnly(DepsOfOverride(e), Deps(g, e.name)) {
      ConfiguredRepeatsAt(g, es, e);
    }
    forall p | p in c && !Names(es, p.name) ensures NoDup(p.dependsOn) {
      DepsOf(c, p);
      ConfiguredNames(g, es, p.name);
      ConfiguredDeps(g, es, p.name);
      UnmergedDeps(g, es, p.name);
      DepsHas(g, p.name);
      forall f | f in Existing(g, es) ensures f.name != p.name {
        AdditionsMean(g, es, f);
      }
      NotMerged(Phase(p.name, Deps(g, p.name)), Existing(g, es));
    }
    forall p | p in c && Names(es, p.name) ensures exists e :: e in es && p.dependsOn == Deps(c, e.name) {
      DepsOf(c, p);
    }
  }

  lemma ConfiguredClosed(g: Graph, es: seq<Override>)
    requires Distinct(g) && Closed(g) && DistinctNames(es) && Resolves(g, es)
    ensures Closed(Configured(g, es))
  {
    var h := g + Declared(Additions(g, es));
    var c := Configured(g, es);
    forall p, d | p in c && d in p.dependsOn ensures Has(c, d) {
      ConfiguredNames(g, es, d);
      MergedAllMeans(h, Existing(g, es), p);
      var q :| q in h && p == MergedThrough(q, Existing(g, es));
      MergedThroughMeans(q, Existing(g, es), d);
      if d in q.dependsOn {
        DeclaredMeans(Additions(g, es), d);
        if q !in g {
          var e :| e in Additions(g, es) && q == Phase(e.name, DepsOfOverride(e));
          AdditionsMean(g, es, e);
        }
      } else {
        var e :| e in Existing(g, es) && d in DepsOfOverride(e);
        AdditionsMean(g, es, e);
      }
    }
  }

  lemma {:induction false} NotMerged(p: Phase, es: seq<Override>)
    requires forall e :: e in es ==> e.name != p.name
    ensures MergedThrough(p, es) == p
    decreases |es|
  {
    if es == [] {
    } else {
      NotMerged(p, es[1..]);
    }
  }

  /** A cycle among the declared phases is one of the whole graph. */
  lemma DeclaredCycleRemains(g: Graph, es: seq<Override>)
    requires Distinct(g) && DistinctNames(es) && Cyclic(Declared(Additions(g, es)))
    ensures Cyclic(Configured(g, es))
  {
    var declared, c := Declared(Additions(g, es)), Configured(g, es);
    DeclaredDistinct(g, es);
    var loop :| IsCycle(declared, loop);
    forall i | 0 <= i < |loop| ensures Deps(c, loop[i]) == Deps(declared, loop[i]) {
      CycleInside(declared, loop, i);
      DepsHas(declared, loop[i]);
      var p :| p in declared && p.name == loop[i] && p.dependsOn == Deps(declared, loop[i]);
      forall e | e in Existing(g, es) ensures e.name != p.name {
        DeclaredMeans(Additions(g, es), p.name);
        AdditionsMean(g, es, e);
        var a :| a in Additions(g, es) && p == Phase(a.name, DepsOfOverride(a));
        AdditionsMean(g, es, a);
      }
      NotMerged(p, Existing(g, es));
      MergedAllMeans(g + declared, Existing(g, es), p);
      ConfiguredNames(g, es, p.name);
      DepsOf(c, p);
    }
    assert IsCycle(c, loop);
  }

  /** What a configuration must be for the shutdown graph to take it. */
  ghost predicate Acceptable(g: Graph, es: seq<Override>) {
    && Resolves(g, es) && Placed(Additions(g, es))
    && !Cyclic(Configured(g, es)) && DupFree(Configured(g, es))
  }

  lemma RoundGoesOn(g: Graph, ready: Graph, i: nat)
    requires Distinct(ready) && i < |ready|
    requires forall p :: p in ready ==> !Has(g, p.name) && AllKnown(g, p.dependsOn)
    ensures !Has(g + ready[..i], ready[i].name) && AllKnown(g + ready[..i], ready[i].dependsOn)
  {
    var h := g + ready[..i];
    assert ready[i] in ready;
    forall k | 0 <= k < |h| ensures h[k].name != ready[i].name {
      if k < |g| {
        assert h[k] == g[k];
      }
    }
    forall d | d in ready[i].dependsOn ensures Has(h, d) {
      var k :| 0 <= k < |g| && g[k].name == d;
      assert h[k].name == d;
    }
  }

  /** Registration part way: `registered` are in, each after what it waits for; `pending` are not. */
  ghost predicate Registering(seed: Graph, declared: Graph, registered: Graph, pending: Graph) {
    && Distinct(seed + registered) && Distinct(pending)
    && Parts(declared, registered, pending) && NewTo(seed + registered, pending)
    && Ranked(declared, NamesOf(registered))
  }

  ghost predicate Parts(declared: Graph, registered: Graph, pending: Graph) {
    forall p :: p in declared <==> p in registered || p in pending
  }

  ghost predicate NewTo(g: Graph, ps: Graph) {
    forall p :: p in ps ==> !Has(g, p.name)
  }

  lemma RegisteringKeeps(seed: Graph, declared: Graph, registered: Graph, pending: Graph)
    requires Registering(seed, declared, registered, pending) && Distinct(declared)
    requires forall p :: p in declared ==> !Has(seed, p.name)
    requires Distinct(seed + (registered + Registrable(seed + registered, pending)))
    ensures var phases := seed + registered;
      Registering(seed, declared, registered + Registrable(phases, pending), Unregistrable(phases, pending))
  {
    var phases := seed + registered;
    assert phases + Registrable(phases, pending) == seed + (registered + Registrable(phases, pending));
    RegistrableDistinct(phases, pending);
    RestIsNew(phases, pending);
    RankedGrows(seed, declared, registered, pending);
    PendingSplits(declared, registered, phases, pending);
  }

  lemma PendingSplits(declared: Graph, registered: Graph, phases: Graph, pending: Graph)
    requires Parts(declared, registered, pending)
    ensures Parts(declared, registered + Registrable(phases, pending), Unregistrable(phases, pending))
  {
    forall p ensures p in pending <==> p in Registrable(phases, pending) || p in Unregistrable(phases, pending) {
      RegistrableMeans(phases, pending, p);
    }
  }

  lemma RestIsNew(phases: Graph, pending: Graph)
    requires Distinct(pending) && NewTo(phases, pending)
    ensures NewTo(phases + Registrable(phases, pending), Unregistrable(phases, pending))
  {
    var ready := Registrable(phases, pending);
    forall p | p in Unregistrable(phases, pending) ensures !Has(phases + ready, p.name) {
      RegistrableMeans(phases, pending, p);
      forall q | q in ready ensures q.name != p.name {
        RegistrableMeans(phases, pending, q);
      }
      NameIn(phases + ready, p.name);
      NameIn(phases, p.name);
    }
  }

  lemma ReadyToAdd(g: Graph, pending: Graph)
    requires Distinct(pending) && forall p :: p in pending ==> !Has(g, p.name)
    ensures var ready := Registrable(g, pending);
      Distinct(ready) && forall p :: p in ready ==> !Has(g, p.name) && AllKnown(g, p.dependsOn)
  {
    RegistrableDistinct(g, pending);
    forall p | p in Registrable(g, pending) ensures !Has(g, p.name) && AllKnown(g, p.dependsOn) {
      RegistrableMeans(g, pending, p);
    }
  }

  lemma EveryoneKnown(seed: Graph, declared: Graph, registered: Graph, pending: Graph)
    requires Registering(seed, declared, registered, pending)
    requires forall p, d :: p in declared && d in p.dependsOn ==> Has(seed, d) || Has(declared, d)
    ensures forall p, d :: p in declared && d in p.dependsOn ==> Has(seed + registered, d) || Has(declared, d)
    ensures forall p :: p in declared ==> p in pending || Has(seed + registered, p.name)
  {
    forall p, d | p in declared && d in p.dependsOn && Has(seed, d) ensures Has(seed + registered, d) {
      NameIn(seed, d);
      NameIn(seed + registered, d);
    }
    forall p | p in declared && p !in pending ensures Has(seed + registered, p.name) {
      NameIn(seed + registered, p.name);
    }
  }

  lemma RankedGrows(seed: Graph, declared: Graph, registered: Graph, pending: Graph)
    requires Ranked(declared, NamesOf(registered)) && Distinct(declared)
    requires forall p :: p in pending ==> p in declared
    requires forall p :: p in declared ==> !Has(seed, p.name)
    ensures Ranked(declared, NamesOf(registered + Registrable(seed + registered, pending)))
  {
    var ready := Registrable(seed + registered, pending);
    var before, after := NamesOf(registered), NamesOf(registered + ready);
    forall j, d | 0 <= j < |after| && d in Deps(declared, after[j]) && Has(declared, d) ensures d in after[..j] {
      if j < |before| {
        assert after[j] == before[j] && after[..j] == before[..j];
      } else {
        var p := ready[j - |before|];
        assert p in ready && after[j] == p.name;
        RegistrableMeans(seed + registered, pending, p);
        DepsOf(declared, p);
        NameIn(declared, d);
        NameIn(seed + registered, d);
        NameIn(seed, d);
        NameIn(registered, d);
        NamesOfHas(registered, d);
        assert after[..|before|] == before && after[..|before|] <= after[..j];
      }
    }
  }

  class ShutdownGraph {
    var phases: Graph

    /** The canonical phases, each after the one before. */
    constructor ()
      ensures phases == SeedOf(CANONICAL)
    {
      phases := SeedOf(CANONICAL);
    }

    method AddPhase(p: Phase) returns (added: bool)
      modifies this
      ensures phases == Added(old(phases), p)
      ensures added <==> !Has(old(phases), p.name) && AllKnown(old(phases), p.dependsOn)
    {
      if Has(phases, p.name) || !AllKnown(phases, p.dependsOn) {
        return false;
      }
      phases := phases + [p];
      return true;
    }

    method MergePhaseOverride(e: Override)
      modifies this
      ensures phases == Merged(old(phases), e)
    {
      phases := Merged(phases, e);
    }

    /** Add one round of phases, none of which waits for another. */
    method AddRound(ready: Graph)
      requires Distinct(phases) && Distinct(ready)
      requires forall p :: p in ready ==> !Has(phases, p.name) && AllKnown(phases, p.dependsOn)
      modifies this
      ensures phases == old(phases) + ready && Distinct(phases)
    {
      for i := 0 to |ready|
        invariant phases == old(phases) + ready[..i] && Distinct(phases)
      {
        RoundGoesOn(old(phases), ready, i);
        DepsAppend(phases, ready[i], ready[i].name);
        var added := AddPhase(ready[i]);
        assert ready[..i + 1] == ready[..i] + [ready[i]];
      }
      assert ready[..|ready|] == ready;
    }

    /** Register the declared phases, dependencies first, in rounds; a round with none ready is a cycle. */
    method RegisterDeclaredPhases(additions: seq<Override>) returns (accepted: bool)
      requires Distinct(phases) && Distinct(Declared(additions))
      requires forall p :: p in Declared(additions) ==> !Has(phases, p.name)
      requires forall p, d :: p in Declared(additions) && d in p.dependsOn ==> Has(phases, d) || Has(Declared(additions), d)
      modifies this
      ensures accepted <==> Placed(additions) && !Cyclic(Declared(additions))
      ensures accepted ==> Distinct(phases) && forall p :: p in phases <==> p in old(phases) || p in Declared(additions)
    {
      for i := 0 to |additions|
        invariant phases == old(phases)
        invariant forall k :: 0 <= k < i ==> DepsOfOverride(additions[k]) != []
      {
        if DepsOfOverride(additions[i]) == [] {
          assert additions[i] in additions;
          return false;
        }
      }
      ghost var seed, declared := phases, Declared(additions);
      var pending := Declared(additions);
      ghost var registered: Graph := [];
      assert phases == seed + registered && NamesOf(registered) == [];
      while |pending| > 0
        invariant phases == seed + registered && Registering(seed, declared, registered, pending)
        decreases |pending|
      {
        var ready := Registrable(phases, pending);
        if |ready| == 0 {
          StuckMeansDeclaredCycle(phases, declared, pending) by {
            EveryoneKnown(seed, declared, registered, pending);
          }
          return false;
        }
        ReadyToAdd(phases, pending);
        var later := Unregistrable(phases, pending);
        AddRound(ready);
        assert seed + registered + ready == seed + (registered + ready);
        RegisteringKeeps(seed, declared, registered, pending);
        pending := later;
        registered := registered + ready;
      }
      forall n | Has(declared, n) ensures n in NamesOf(registered) {
        NameIn(declared, n);
        NameIn(registered, n);
        NamesOfHas(registered, n);
      }
      RankedMeansAcyclic(declared, NamesOf(registered));
      return true;
    }

    /** Merge the children that declare no phase of their own. */
    method MergeOverrides(es: seq<Override>, additions: seq<Override>, ghost seed: Graph)
      requires additions == Additions(seed, es)
      modifies this
      ensures phases == MergedAll(old(phases), Existing(seed, es))
    {
      ghost var target := MergedAll(phases, Existing(seed, es));
      for i := 0 to |es|
        invariant MergedAll(phases, Existing(seed, es[i..])) == target
      {
        AdditionsMean(seed, es, es[i]);
        ghost var later := Existing(seed, es[i + 1..]);
        assert es[i..][1..] == es[i + 1..];
        if es[i] !in additions {
          assert Existing(seed, es[i..]) == [es[i]] + later && ([es[i]] + later)[1..] == later;
          MergePhaseOverride(es[i]);
        } else {
          assert Existing(seed, es[i..]) == later;
        }
      }
    }

    method ApplyPhaseOverrides(es: seq<Override>) returns (accepted: bool)
      requires Distinct(phases) && Closed(phases) && !Cyclic(phases) && DupFree(phases) && DistinctNames(es)
      modifies this
      ensures accepted <==> Acceptable(old(phases), es)
      ensures accepted ==> Distinct(phases) && forall p :: p in phases <==> p in Configured(old(phases), es)
    {
      ghost var seed := phases;
      if |es| == 0 {
        assert seed + Declared([]) == seed;
        return true;
      }
      if !Resolves(phases, es) {
        return false;
      }
      var additions := Additions(phases, es);
      ReadyToRegister(phases, es);
      accepted := RegisterDeclaredPhases(additions);
      if !accepted {
        if Cyclic(Declared(additions)) {
          DeclaredCycleRemains(seed, es);
        }
        return false;
      }
      ghost var registered := phases;
      MergeOverrides(es, additions, seed);
      MergedAllSamePhases(registered, seed + Declared(additions), Existing(seed, es));
      MergedAllSameNames(registered, Existing(seed, es), "");
      ConfiguredNames(seed, es, "");
      ConfiguredClosed(seed, es);
      var order := ShutdownOrder(phases);
      SortIsDetermined(phases, Configured(seed, es), true, true);
      SortFailsExactlyWhen(Configured(seed, es), true);
      return order.Some?;
    }
  }

  lemma ReadyToRegister(g: Graph, es: seq<Override>)
    requires Distinct(g) && DistinctNames(es) && Resolves(g, es)
    ensures var declared := Declared(Additions(g, es));
      && Distinct(declared)
      && (forall p :: p in declared ==> !Has(g, p.name))
      && (forall p, d :: p in declared && d in p.dependsOn ==> Has(g, d) || Has(declared, d))
  {
    var additions := Additions(g, es);
    DeclaredDistinct(g, es);
    forall p | p in Declared(additions) ensures !Has(g, p.name) {
      DeclaredMeans(additions, p.name);
      var e :| e in additions && p == Phase(e.name, DepsOfOverride(e));
      AdditionsMean(g, es, e);
    }
    forall p, d | p in Declared(additions) && d in p.dependsOn && !Has(g, d) ensures Has(Declared(additions), d) {
      DeclaredMeans(additions, d);
      var e :| e in additions && p == Phase(e.name, DepsOfOverride(e));
      AdditionsMean(g, es, e);
      var f :| f in es && f.name == d;
      AdditionsMean(g, es, f);
    }
  }

  // ---- The canonical phases keep their places ----

  lemma SeedIsFit(order: seq<Name>)
    requires NoDup(order)
    ensures var g := SeedOf(order); Distinct(g) && Closed(g) && !Cyclic(g) && DupFree(g)
  {
    var g := SeedOf(order);
    forall i | 0 <= i < |order| ensures Deps(g, order[i]) == if i == 0 then [] else [order[i - 1]] {
      assert g[i] in g;
      DepsOf(g, g[i]);
    }
    forall p, d | p in g && d in p.dependsOn ensures Has(g, d) {
      var i :| 0 <= i < |g| && g[i] == p;
      assert g[i - 1].name == d;
    }
    assert Ranked(g, order) by {
      forall j, d | 0 <= j < |order| && d in Deps(g, order[j]) ensures d in order[..j] {
        assert order[..j][j - 1] == d;
      }
    }
    RankedMeansAcyclic(g, order);
  }

  lemma {:induction false} MergedThroughKeeps(p: Phase, es: seq<Override>)
    ensures p.dependsOn <= MergedThrough(p, es).dependsOn
    decreases |es|
  {
    if es == [] {
    } else {
      MergedThroughKeeps(MergedPhase(p, es[0]), es[1..]);
    }
  }

  lemma SeedSurvives(order: seq<Name>, es: seq<Override>)
    requires order != [] && NoDup(order) && DistinctNames(es) && Placed(Additions(SeedOf(order), es))
    ensures KeepsSeed(order, Configured(SeedOf(order), es))
  {
    var g := SeedOf(order);
    var c, existing := Configured(g, es), Existing(g, es);
    var h := g + Declared(Additions(g, es));
    SeedIsFit(order);
    forall i | 0 <= i < |order| ensures Has(c, order[i]) && (i > 0 ==> order[i - 1] in Deps(c, order[i])) {
      ConfiguredNames(g, es, order[i]);
      assert g[i].name == order[i];
      var p := MergedThrough(g[i], existing);
      MergedThroughKeeps(g[i], existing);
      assert h[i] in h;
      MergedAllMeans(h, existing, p);
      DepsOf(c, p);
      if i > 0 {
        assert p.dependsOn[0] == order[i - 1];
      }
    }
    forall p | p in c && p.name != order[0] ensures p.dependsOn != [] {
      MergedAllMeans(h, existing, p);
      var q :| q in h && p == MergedThrough(q, existing);
      MergedThroughKeeps(q, existing);
      if q !in g {
        DeclaredMeans(Additions(g, es), q.name);
      }
    }
  }

  /**
   Whatever configuration is accepted, a shutdown run starts with `before-service-unbind` and runs
   the canonical phases in their canonical order.
   */
  lemma ShutdownKeepsItsOrder(es: seq<Override>, phases: Graph)
    requires DistinctNames(es) && Acceptable(SeedOf(CANONICAL), es)
    requires Distinct(phases) && forall p :: p in phases <==> p in Configured(SeedOf(CANONICAL), es)
    ensures Kahn(phases, [], true).Some?
    ensures var r := Kahn(phases, [], true).value;
      r != [] && r[0] == "before-service-unbind"
      && forall i, j :: 0 <= i < j < |CANONICAL| ==> Before(r, CANONICAL[i], CANONICAL[j])
  {
    var seed := SeedOf(CANONICAL);
    SeedIsFit(CANONICAL);
    ConfiguredNames(seed, es, "");
    ConfiguredClosed(seed, es);
    SortFailsExactlyWhen(Configured(seed, es), true);
    SortIsDetermined(phases, Configured(seed, es), true, true);
    SeedSurvives(CANONICAL, es);
    SeedRunsFirst(CANONICAL, Configured(seed, es), true);
  }

  lemma EdgeIsKept(c: Graph, phases: Graph, ps: seq<Phase>, n: Name, d: Name)
    requires Distinct(c) && Distinct(phases) && forall p :: p in phases <==> p in c
    requires Kahn(phases, [], true).Some? && Kahn(AddedAll(phases, ps), [], true).Some? && d in Deps(c, n)
    ensures Before(Kahn(AddedAll(phases, ps), [], true).value, d, n)
  {
    var h := AddedAll(phases, ps);
    RunSortFailsExactlyWhen(phases, ps);
    AddedAllExtends(phases, ps);
    DepsHas(c, n);
    var p :| p in c && p.name == n && p.dependsOn == Deps(c, n);
    var i :| 0 <= i < |phases| && phases[i] == p;
    assert h[i] == p;
    DepsOf(h, p);
    DependencyRunsBefore(h, true, n, d);
  }

  /**
   In every run, after whatever `addPhase` calls, a phase runs after everything its child of the
   block asks for: after the dependencies a declared phase names and those merged into a phase that was there.
   */
  lemma ConfiguredOrderIsKept(seed: Graph, es: seq<Override>, phases: Graph, ps: seq<Phase>, e: Override, d: Name)
    requires Distinct(seed) && Closed(seed) && DistinctNames(es) && Acceptable(seed, es)
    requires Distinct(phases) && forall p :: p in phases <==> p in Configured(seed, es)
    requires Kahn(AddedAll(phases, ps), [], true).Some? && e in es && d in DepsOfOverride(e)
    ensures Before(Kahn(AddedAll(phases, ps), [], true).value, d, e.name)
  {
    ConfiguredNames(seed, es, e.name);
    ConfiguredClosed(seed, es);
    SortFailsExactlyWhen(Configured(seed, es), true);
    SortIsDetermined(phases, Configured(seed, es), true, true);
    ConfiguredEdges(seed, es, e.name, d);
    EdgeIsKept(Configured(seed, es), phases, ps, e.name, d);
  }

  /** `addPhase` takes a phase that names a dependency twice, and every run after that fails to sort. */
  lemma DuplicateDependencyBreaksTheRun()
    ensures var g := Added(SeedOf(CANONICAL), Phase("x", ["service-stop", "service-stop"]));
      g != SeedOf(CANONICAL) && Kahn(g, [], true).None? && Kahn(g, [], false).Some?
  {
    var seed, p := SeedOf(CANONICAL), Phase("x", ["service-stop", "service-stop"]);
    SeedIsFit(CANONICAL);
    assert seed[3].name == "service-stop";
    assert !Has(seed, "x");
    assert |Added(seed, p)| == 13 && Added(seed, p)[12] == p;
    AddedKeepsOrder(seed, p);
    SortFailsExactlyWhen(Added(seed, p), true);
    SortFailsExactlyWhen(Added(seed, p), false);
    assert p in Added(seed, p) && p.dependsOn[0] == p.dependsOn[1];
  }
}
