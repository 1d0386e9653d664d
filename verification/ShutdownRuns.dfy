/**
 What a shutdown run promises on its way and at its end: the order of its tasks, the status the
 process exits with, and whether the system goes down with it.
 */
module ShutdownRuns {
  import opened Options
  import opened Lifecycles
  import opened LifecycleInvariants
  import opened LifecycleTheorems

  // ---- On the way ----

  lemma {:induction false} EndedAt(cfg: Config, past: seq<seq<Option<bool>>>, k: nat)
    requires PastEnded(cfg, past) && k < |past|
    ensures AllEnded(past[k]) && k < |cfg.shutdownRecovers| && (cfg.shutdownRecovers[k] || AllOk(past[k]))
    decreases |past|
  {
    if k == |past| - 1 {
    } else {
      EndedAt(cfg, past[..|past| - 1], k);
    }
  }

  /** When a task of a phase starts, every task of every earlier phase is over, and succeeded unless its phase recovers. */
  lemma EarlierPhasesAreOver(cfg: Config, n: Node, terminator: bool, k: nat, j: nat)
    requires Reachable(cfg, n) && Enabled(cfg, n, LaunchShutdownTask(terminator)) && k < n.run.at.i
    ensures |n.run.past| == n.run.at.i < |cfg.shutdownRecovers|
    ensures j < |n.run.past[k]| ==>
      n.run.past[k][j].Some? && (cfg.shutdownRecovers[k] || n.run.past[k][j] == Some(true))
  {
    ReachableKeeps(cfg, n);
    EndedAt(cfg, n.run.past, k);
  }

  /** A halted run starts no task and enters no phase. */
  lemma HaltedRunStartsNothing(cfg: Config, n: Node, steps: seq<Step>, i: nat)
    requires Reachable(cfg, n) && n.run.halted && Legal(cfg, n, steps) && i < |steps|
    ensures !steps[i].LaunchShutdownTask? && !steps[i].ShutdownPhaseOver?
    ensures Final(cfg, n, steps).run.past == n.run.past
  {
    ReachableKeeps(cfg, n);
    RunKeeps(cfg, n, steps);
    HaltedStartsNothing(cfg, n, steps, i);
  }

  lemma {:induction false} HaltedStartsNothing(cfg: Config, n: Node, steps: seq<Step>, i: nat)
    requires Inv(cfg, n) && n.run.halted && Legal(cfg, n, steps) && i < |steps|
    ensures !steps[i].LaunchShutdownTask? && !steps[i].ShutdownPhaseOver?
    decreases i
  {
    if i == 0 {
    } else {
      StepKeeps(cfg, n, steps[0]);
      HaltedStartsNothing(cfg, After(cfg, n, steps[0]), steps[1..], i - 1);
    }
  }

  /** While a run is in flight the teardown begins only where the run itself begins it: its terminator, or its halt. */
  lemma TeardownWaitsForTheRun(cfg: Config, n: Node, step: Step)
    requires Reachable(cfg, n) && Enabled(cfg, n, step) && RunInProgress(n.run)
    requires !n.terminating && After(cfg, n, step).terminating
    ensures step == LaunchShutdownTask(true) || step == ShutdownPhaseHalts
  {
    ReachableKeeps(cfg, n);
  }

  // ---- The exit status ----

  /** The walk through the phases is where it was; at most a run was opened. */
  ghost predicate SameWalk(p: Pipeline, q: Pipeline) {
    q.at == p.at || q.at.Opening?
  }

  lemma TornDownRun(cfg: Config, n: Node)
    ensures TornDown(cfg, n).run == n.run
  {
  }

  lemma RunThenTeardownWalk(cfg: Config, n: Node, reason: Reason, builds: bool)
    ensures SameWalk(n.run, RunThenTeardown(cfg, n, reason, builds).run)
  {
    TornDownRun(cfg, n);
  }

  lemma TerminateWalk(cfg: Config, n: Node, choice: Option<bool>, reason: Reason, builds: bool)
    ensures SameWalk(n.run, TerminateAnswered(cfg, n, choice, reason, builds).run)
  {
    TornDownRun(cfg, n);
    RunThenTeardownWalk(cfg, n, reason, builds);
  }

  lemma FailureWalk(cfg: Config, n: Node, builds: bool)
    ensures SameWalk(n.run, EndedWithFailure(cfg, n, builds).run)
  {
    if n.up.running && !n.run.begun {
      var f := n.(up := Failed(n.up), run := MarkedFailed(n.run, builds));
      RunThenTeardownWalk(cfg, f, StartupFailure, builds);
      assert EndedWithFailure(cfg, n, builds) == RunThenTeardown(cfg, f, StartupFailure, builds);
    }
  }

  /** Calls and the startup's own steps move no run past its opening. */
  lemma CallsKeepTheWalk(cfg: Config, n: Node, step: Step)
    requires Enabled(cfg, n, step)
    requires OwnStep(step) || step.CallTerminate? || step.CallRun? || step.Signal? || step.CallAbandon?
    ensures SameWalk(n.run, After(cfg, n, step).run)
  {
    if step.CallTerminate? {
      TerminateWalk(cfg, n.(up := Abandoned(n.up)), step.choice, step.reason, step.builds);
    } else if step.StartupPhaseOver? || step.StartupRunnerFails? {
      FailureWalk(cfg, n, step.builds);
    }
  }

  lemma TearingKeepsTheWalk(cfg: Config, n: Node, step: Step)
    requires Enabled(cfg, n, step) && (step.LaunchShutdownTask? || step.TeardownReaction?)
    ensures After(cfg, n, step).run.at == n.run.at
  {
    if step.LaunchShutdownTask? {
      TornDownRun(cfg, n.(run := n.run.(tasks := n.run.tasks + [None])));
    } else {
      TornDownRun(cfg, n.(run := n.run.(reactions := n.run.reactions - 1)));
    }
  }

  lemma OthersTakeNone(cfg: Config, n: Node, step: Step)
    requires Enabled(cfg, n, step) && !n.run.at.Flushing?
    requires step.AllShutdownLaunched? || step.ShutdownTaskEnds? || step.Exits? || step.RunPromiseSettles?
      || step.DrainOver? || step.RootTerminated?
    ensures !After(cfg, n, step).run.at.Flushing?
  {
  }

  /** The end of the phases, or the halt of one, is where a status is taken. */
  lemma TakenOnlyThere(cfg: Config, n: Node, step: Step)
    requires Enabled(cfg, n, step) && !n.run.at.Flushing?
    requires !step.RunBegins? && !step.ShutdownPhaseOver? && !step.ShutdownPhaseHalts?
    ensures !After(cfg, n, step).run.at.Flushing?
  {
    if OwnStep(step) || step.CallTerminate? || step.CallRun? || step.Signal? || step.CallAbandon? {
      CallsKeepTheWalk(cfg, n, step);
    } else if step.LaunchShutdownTask? || step.TeardownReaction? {
      TearingKeepsTheWalk(cfg, n, step);
    } else {
      OthersTakeNone(cfg, n, step);
    }
  }

  lemma StatusAtTheEnd(cfg: Config, p: Pipeline, i: nat)
    requires !p.at.Flushing? && AtShutdownPhase(cfg, p, i).at.Flushing?
    ensures AtShutdownPhase(cfg, p, i).at == Flushing(ExitStatus(cfg, p.failed))
  {
  }

  lemma StatusOfAHalt(cfg: Config, n: Node)
    requires RunHalted(cfg, n).run.at.Flushing?
    ensures RunHalted(cfg, n).run.at == Flushing(ExitStatus(cfg, true))
  {
    TornDownRun(cfg, n.(run := Halted(cfg, n.run)));
  }

  /** The step that takes the status reads it off the run as it finds it, or off the halt. */
  lemma TakesStatus(cfg: Config, n: Node, step: Step)
    requires Enabled(cfg, n, step) && !n.run.at.Flushing? && After(cfg, n, step).run.at.Flushing?
    ensures After(cfg, n, step).run.at == Flushing(ExitStatus(cfg, n.run.failed || step.ShutdownPhaseHalts?))
  {
    if step.RunBegins? {
      StatusAtTheEnd(cfg, n.run.(begun := true, walks := n.run.walks + 1), 0);
    } else if step.ShutdownPhaseOver? {
      StatusAtTheEnd(cfg, n.run.(past := n.run.past + [n.run.tasks]), n.run.at.i + 1);
    } else if step.ShutdownPhaseHalts? {
      StatusOfAHalt(cfg, n);
    } else {
      TakenOnlyThere(cfg, n, step);
    }
  }

  /** Once the status is taken the process exits with it or not at all. */
  lemma ExitsWithTheStatus(cfg: Config, n: Node, steps: seq<Step>)
    requires Inv(cfg, n) && n.run.at.Flushing? && Legal(cfg, n, steps) && Final(cfg, n, steps).exited.Some?
    ensures var f := Final(cfg, n, steps);
      f.exited == Some(n.run.at.status) && (n.run.at.status == 0 ==> f.run.completed && !f.run.halted && |f.run.past| == |cfg.shutdownRecovers|)
  {
    RunKeeps(cfg, n, steps);
  }

  /**
   The process exits with the configured code, except that a code of 0 becomes 1 where the run was
   marked as failed before the step that takes the status, or that step is a halt.  So it exits with
   0 exactly when the code is 0 and neither is the case; then every phase has run.
   */
  lemma ExitsCleanExactlyWhen(cfg: Config, n: Node, step: Step, steps: seq<Step>)
    requires Reachable(cfg, n) && Enabled(cfg, n, step)
    requires !n.run.at.Flushing? && After(cfg, n, step).run.at.Flushing?
    requires Legal(cfg, After(cfg, n, step), steps) && Final(cfg, After(cfg, n, step), steps).exited.Some?
    ensures var f := Final(cfg, After(cfg, n, step), steps);
      && f.exited == Some(if cfg.exitCode == 0 && (n.run.failed || step.ShutdownPhaseHalts?) then 1 else cfg.exitCode)
      && (f.exited == Some(0) <==> cfg.exitCode == 0 && !n.run.failed && !step.ShutdownPhaseHalts?)
      && (f.exited == Some(0) ==> f.run.completed && !f.run.halted && |f.run.past| == |cfg.shutdownRecovers|)
  {
    ReachableKeeps(cfg, n);
    StepKeeps(cfg, n, step);
    TakesStatus(cfg, n, step);
    ExitsWithTheStatus(cfg, After(cfg, n, step), steps);
  }

  /** A run marked as failed before its status is taken never exits clean, whatever marked it. */
  lemma MarkedRunNeverExitsClean(cfg: Config, n: Node, steps: seq<Step>)
    requires Reachable(cfg, n) && n.run.failed && !n.run.at.Flushing? && Legal(cfg, n, steps)
    ensures Final(cfg, n, steps).exited != Some(0)
  {
    ReachableKeeps(cfg, n);
    RunKeeps(cfg, n, steps);
  }

  // ---- A run through all its phases ----

  /** The walk stands before phase `i`, or behind the last one. */
  ghost predicate Standing(cfg: Config, p: Pipeline, i: nat) {
    if i < |cfg.shutdownRecovers| then p.at == Launch(i) && p.tasks == []
    else p.at == if cfg.exitProcess then Flushing(ExitStatus(cfg, p.failed)) else Ended(true)
  }

  /** Standing at `i`, with the exit still to come and the marks of the run as in `p`. */
  ghost predicate Stands(cfg: Config, n: Node, i: nat, p: Pipeline) {
    && Reachable(cfg, n) && n.exited.None? && Standing(cfg, n.run, i)
    && n.run.failed == p.failed && n.run.told == p.told
  }

  lemma StandsNext(cfg: Config, p: Pipeline, i: nat)
    ensures var q := AtShutdownPhase(cfg, p, i); Standing(cfg, q, i) && q.failed == p.failed && q.told == p.told
  {
  }

  /** A phase whose tasks have all ended well is left behind. */
  lemma PhaseEnds(cfg: Config, n: Node, i: nat)
    requires Reachable(cfg, n) && n.exited.None? && n.run.at == Wait(i) && i < |cfg.shutdownRecovers| && AllOk(n.run.tasks)
    ensures Enabled(cfg, n, ShutdownPhaseOver)
    ensures var m := After(cfg, n, ShutdownPhaseOver); Stands(cfg, m, i + 1, n.run) && m.terminating == n.terminating
  {
    ReachableStep(cfg, n, ShutdownPhaseOver);
    StandsNext(cfg, n.run.(past := n.run.past + [n.run.tasks]), i + 1);
  }

  lemma EmptyPhase(cfg: Config, n: Node, i: nat) returns (m: Node)
    requires Stands(cfg, n, i, n.run) && i < |cfg.shutdownRecovers| && (cfg.terminatorPhase == Some(i) ==> n.terminating)
    ensures Stands(cfg, m, i + 1, n.run) && m.terminating == n.terminating
  {
    ReachableStep(cfg, n, AllShutdownLaunched);
    var waiting := After(cfg, n, AllShutdownLaunched);
    PhaseEnds(cfg, waiting, i);
    m := After(cfg, waiting, ShutdownPhaseOver);
  }

  /** The terminator's phase, where it has not been launched yet. */
  lemma TerminatorLaunches(cfg: Config, n: Node, i: nat)
    requires Stands(cfg, n, i, n.run) && i < |cfg.shutdownRecovers| && cfg.terminatorPhase == Some(i) && !n.terminating
    ensures Enabled(cfg, n, LaunchShutdownTask(true))
    ensures var m := After(cfg, n, LaunchShutdownTask(true));
      && Reachable(cfg, m) && m.exited.None? && m.terminating && m.run == n.run.(tasks := [None])
  {
    ReachableKeeps(cfg, n);
    ReachableStep(cfg, n, LaunchShutdownTask(true));
    var q := n.(run := n.run.(tasks := n.run.tasks + [None]));
    TornDownRun(cfg, q);
    assert ShutdownTaskLaunched(cfg, n, true) == TornDown(cfg, q);
  }

  lemma TerminatorPhase(cfg: Config, n: Node, i: nat) returns (m: Node)
    requires Stands(cfg, n, i, n.run) && i < |cfg.shutdownRecovers| && cfg.terminatorPhase == Some(i) && !n.terminating
    ensures Stands(cfg, m, i + 1, n.run)
  {
    TerminatorLaunches(cfg, n, i);
    var launched := After(cfg, n, LaunchShutdownTask(true));
    ReachableStep(cfg, launched, AllShutdownLaunched);
    var waiting := After(cfg, launched, AllShutdownLaunched);
    ReachableStep(cfg, waiting, ShutdownTaskEnds(0, true));
    var ended := After(cfg, waiting, ShutdownTaskEnds(0, true));
    PhaseEnds(cfg, ended, i);
    m := After(cfg, ended, ShutdownPhaseOver);
  }

  lemma {:induction false} WalksToTheEnd(cfg: Config, n: Node, i: nat) returns (m: Node)
    requires Stands(cfg, n, i, n.run) && i <= |cfg.shutdownRecovers|
    ensures Stands(cfg, m, |cfg.shutdownRecovers|, n.run)
    ensures cfg.terminatorPhase.None? ==> m.terminating == n.terminating
    decreases |cfg.shutdownRecovers| - i
  {
    if i == |cfg.shutdownRecovers| {
      m := n;
    } else {
      var next: Node;
      if cfg.terminatorPhase == Some(i) && !n.terminating {
        next := TerminatorPhase(cfg, n, i);
      } else {
        next := EmptyPhase(cfg, n, i);
      }
      m := WalksToTheEnd(cfg, next, i + 1);
    }
  }

  /** A run asked for on a fresh system, as it begins. */
  lemma FreshRun(cfg: Config, reason: Reason) returns (n: Node)
    ensures Reachable(cfg, n) && n.exited.None? && !n.terminating && n.run.told == ToldTheNodeToGo(reason)
    ensures n.run.failed == ReportsFailure(reason) && n.run.reactions == 0
    ensures if cfg.sorts then Standing(cfg, n.run, 0) else n.run.at == Ended(false)
  {
    FreshIsReachable(cfg);
    ReachableStep(cfg, FRESH, CallRun(reason));
    var asked := After(cfg, FRESH, CallRun(reason));
    ReachableStep(cfg, asked, RunBegins);
    n := After(cfg, asked, RunBegins);
    StandsNext(cfg, asked.run.(begun := true, walks := asked.run.walks + 1), 0);
  }

  /** A failure reported during the flush in front of the exit comes too late: the process still exits with 0. */
  lemma FailureDuringTheFlush(cfg: Config) returns (n: Node)
    requires cfg.sorts && cfg.exitProcess && cfg.exitCode == 0
    ensures Reachable(cfg, n) && n.run.failed && n.exited == Some(0)
  {
    var begun := FreshRun(cfg, Unknown);
    var flushing := WalksToTheEnd(cfg, begun, 0);
    ReachableStep(cfg, flushing, CallRun(JoinUnsuccessful));
    var marked := After(cfg, flushing, CallRun(JoinUnsuccessful));
    ReachableKeeps(cfg, flushing);
    ReachableStep(cfg, marked, Exits);
    n := After(cfg, marked, Exits);
  }

  /** A process whose run was marked as failed can exit with 0 exactly when its code is 0 and its phases sort. */
  lemma FailureIsMissedExactlyWhen(cfg: Config)
    ensures (exists n :: Reachable(cfg, n) && n.run.failed && n.exited == Some(0))
      <==> cfg.sorts && cfg.exitProcess && cfg.exitCode == 0
  {
    if cfg.sorts && cfg.exitProcess && cfg.exitCode == 0 {
      var n := FailureDuringTheFlush(cfg);
    } else {
      forall n | Reachable(cfg, n) ensures n.exited != Some(0) {
        ReachableKeeps(cfg, n);
      }
    }
  }

  // ---- Who goes down with a run ----

  /** The constructor registers the terminator only with terminate-actor-system on, in a phase that is always there. */
  predicate Wired(cfg: Config) {
    cfg.terminatorPhase.Some? ==> cfg.terminates && (cfg.sorts ==> cfg.terminatorPhase.value < |cfg.shutdownRecovers|)
  }

  /** Whenever a run whose trigger nobody awaits has ended, the system goes down. */
  ghost predicate ToldRunsAreAnswered(cfg: Config) {
    forall n :: Reachable(cfg, n) && n.run.told && n.run.at.Ended? ==> n.terminating
  }

  /**
   A run told by a signal, a downing or a failed join takes the system down when it ends exactly
   when its phases sort and the process exits or the terminator is still registered.  A run whose
   sort fails is rejected before any phase, and nothing stands in for its terminator.
   */
  lemma ToldRunsAreAnsweredExactlyWhen(cfg: Config)
    requires Wired(cfg)
    ensures ToldRunsAreAnswered(cfg) <==> cfg.sorts && (cfg.exitProcess || cfg.terminatorPhase.Some?)
  {
    if cfg.sorts && (cfg.exitProcess || cfg.terminatorPhase.Some?) {
      forall n | Reachable(cfg, n) && n.run.told && n.run.at.Ended? ensures n.terminating {
        ReachableKeeps(cfg, n);
      }
    } else {
      var n := FreshRun(cfg, ProcessTerminate);
      if cfg.sorts {
        n := WalksToTheEnd(cfg, n, 0);
      }
      assert Reachable(cfg, n) && n.run.told && n.run.at.Ended? && !n.terminating;
    }
  }

  /** A halted run whose trigger nobody awaits takes the system down itself. */
  lemma HaltIsAnswered(cfg: Config, n: Node)
    requires Reachable(cfg, n) && n.run.halted && n.run.told && cfg.terminates && !cfg.exitProcess
    ensures n.terminating
  {
    ReachableKeeps(cfg, n);
  }

  /**
   What a halt comes to: with exit-process on the exit follows and nothing is torn down; else the run
   has ended, and stands in for the terminator exactly when its trigger told the node to go and
   terminate-actor-system is on.
   */
  lemma HaltDecides(cfg: Config, n: Node)
    requires Reachable(cfg, n) && Enabled(cfg, n, ShutdownPhaseHalts)
    ensures var m := After(cfg, n, ShutdownPhaseHalts);
      && m.run.halted && (if cfg.exitProcess then m.run.at.Flushing? else m.run.at == Ended(false) && m.run.settled)
      && (m.terminating <==> n.terminating || (!cfg.exitProcess && n.run.told && cfg.terminates))
  {
    ReachableKeeps(cfg, n);
    TornDownRun(cfg, n.(run := Halted(cfg, n.run)));
  }

  /** What the end of a phase comes to: the next one, or behind the last the exit or the end of the run. */
  lemma ShutdownPhaseEndDecides(cfg: Config, n: Node)
    requires Reachable(cfg, n) && Enabled(cfg, n, ShutdownPhaseOver)
    ensures var m := After(cfg, n, ShutdownPhaseOver);
      && m.terminating == n.terminating && m.up == n.up
      && (if n.run.at.i + 1 < |cfg.shutdownRecovers| then m.run.at == Launch(n.run.at.i + 1) && !m.run.completed
          else m.run.completed && if cfg.exitProcess then m.run.at.Flushing? else m.run.at == Ended(true) && m.run.settled)
  {
    ReachableKeeps(cfg, n);
  }

  /** The promise of a run resolves exactly when it completed; a halt and a sort that fails reject it. */
  lemma PromiseTellsHowItEnded(cfg: Config, n: Node)
    requires Reachable(cfg, n) && Enabled(cfg, n, RunPromiseSettles)
    ensures After(cfg, n, RunPromiseSettles).run.promise == Some(if n.run.completed then Resolved else Rejected)
  {
    ReachableKeeps(cfg, n);
  }
}
