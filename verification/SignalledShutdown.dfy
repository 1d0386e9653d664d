/**
 The shutdown graph and the life cycle together: which configurations and which `addPhase` calls
 let a signal take the system down.
 */
module SignalledShutdown {
  import opened Options
  import opened PhaseGraphs
  import opened PhaseSorts
  import opened ShutdownPhases
  import opened ShutdownGraphs
  import opened Lifecycles
  import opened ShutdownRuns

  const TERMINATOR_PHASE: Name := "actor-system-terminate"

  function IndexOf(s: seq<Name>, n: Name): (r: Option<nat>)
    ensures r.Some? ==> r.value < |s| && s[r.value] == n
    ensures r.None? ==> n !in s
  {
    if s == [] then None
    else if s[0] == n then Some(0)
    else
      var rest := IndexOf(s[1..], n);
      if rest.Some? then Some(rest.value + 1) else None
  }

  /**
   The life cycle of a system whose run finds `phases`: those named in `recovering` recover, and the
   terminator is `registered` unless somebody removed it.
   */
  ghost function With(cfg: Config, phases: Graph, recovering: set<Name>, registered: bool): Config {
    var order := Kahn(phases, [], true);
    var names := if order.Some? then order.value else [];
    cfg.(sorts := order.Some?,
         shutdownRecovers := seq(|names|, i requires 0 <= i < |names| => names[i] in recovering),
         terminatorPhase := if registered && cfg.terminates then IndexOf(names, TERMINATOR_PHASE) else None)
  }

  lemma WithIsWired(cfg: Config, phases: Graph, recovering: set<Name>, registered: bool)
    ensures Wired(With(cfg, phases, recovering, registered))
  {
  }

  lemma TerminatorIsThere(es: seq<Override>, phases: Graph, ps: seq<Phase>)
    requires DistinctNames(es) && Acceptable(SeedOf(CANONICAL), es)
    requires Distinct(phases) && forall p :: p in phases <==> p in Configured(SeedOf(CANONICAL), es)
    ensures Kahn(phases, [], true).Some?
    ensures Has(AddedAll(phases, ps), TERMINATOR_PHASE)
  {
    ShutdownKeepsItsOrder(es, phases);
    SortReturnsTheOrder(phases, true);
    var r := Kahn(phases, [], true).value;
    assert Before(r, CANONICAL[0], CANONICAL[11]);
    assert TERMINATOR_PHASE in r;
    AddedAllExtends(phases, ps);
    var i :| 0 <= i < |phases| && phases[i].name == TERMINATOR_PHASE;
    assert AddedAll(phases, ps)[i].name == TERMINATOR_PHASE;
  }

  /**
   For every accepted configuration and every sequence of `addPhase` calls after it: a signal's run
   that ends takes the system down exactly when no phase that was taken names a dependency twice,
   and the process exits or the terminator is in place.
   */
  lemma SignalTakesTheSystemDownExactlyWhen(cfg: Config, es: seq<Override>, phases: Graph, ps: seq<Phase>, recovering: set<Name>, registered: bool)
    requires DistinctNames(es) && Acceptable(SeedOf(CANONICAL), es)
    requires Distinct(phases) && forall p :: p in phases <==> p in Configured(SeedOf(CANONICAL), es)
    ensures ToldRunsAreAnswered(With(cfg, AddedAll(phases, ps), recovering, registered))
      <==> DupFree(AddedAll(phases, ps)) && (cfg.exitProcess || (registered && cfg.terminates))
  {
    var h := AddedAll(phases, ps);
    var c := With(cfg, h, recovering, registered);
    TerminatorIsThere(es, phases, ps);
    RunSortFailsExactlyWhen(phases, ps);
    if c.sorts {
      SortReturnsTheOrder(h, true);
    }
    WithIsWired(cfg, h, recovering, registered);
    ToldRunsAreAnsweredExactlyWhen(c);
  }
}
