/**
 The life cycle's promises, for every run, and where a promise fails, exactly when it does.
 */
module LifecycleTheorems {
  import opened Options
  import opened Lifecycles
  import opened LifecycleInvariants

  /** Where a sequence of steps leads from a fresh system, if every one of them is enabled in its turn. */
  ghost function Reached(cfg: Config, steps: seq<Step>): Option<Node> {
    if steps == [] then Some(FRESH)
    else
      var last, before := steps[|steps| - 1], Reached(cfg, steps[..|steps| - 1]);
      if before.Some? && Enabled(cfg, before.value, last) then Some(After(cfg, before.value, last)) else None
  }

  ghost predicate Reachable(cfg: Config, n: Node) {
    exists steps :: Reached(cfg, steps) == Some(n)
  }

  lemma FreshIsReachable(cfg: Config)
    ensures Reachable(cfg, FRESH)
  {
    assert Reached(cfg, []) == Some(FRESH);
  }

  lemma ReachableStep(cfg: Config, n: Node, step: Step)
    requires Reachable(cfg, n) && Enabled(cfg, n, step)
    ensures Reachable(cfg, After(cfg, n, step))
  {
    var steps :| Reached(cfg, steps) == Some(n);
    assert (steps + [step])[..|steps|] == steps;
    assert Reached(cfg, steps + [step]) == Some(After(cfg, n, step));
  }

  lemma {:induction false} ReachableOn(cfg: Config, n: Node, steps: seq<Step>)
    requires Reachable(cfg, n) && Legal(cfg, n, steps)
    ensures Reachable(cfg, Final(cfg, n, steps))
    decreases |steps|
  {
    if steps == [] {
    } else {
      ReachableStep(cfg, n, steps[0]);
      ReachableOn(cfg, After(cfg, n, steps[0]), steps[1..]);
    }
  }

  lemma {:induction false} ReachedKeeps(cfg: Config, steps: seq<Step>)
    ensures Reached(cfg, steps).Some? ==> Inv(cfg, Reached(cfg, steps).value)
  {
    if steps == [] {
    } else {
      var before := Reached(cfg, steps[..|steps| - 1]);
      ReachedKeeps(cfg, steps[..|steps| - 1]);
      if before.Some? && Enabled(cfg, before.value, steps[|steps| - 1]) {
        StepKeeps(cfg, before.value, steps[|steps| - 1]);
      }
    }
  }

  lemma ReachableKeeps(cfg: Config, n: Node)
    requires Reachable(cfg, n)
    ensures Inv(cfg, n)
  {
    var steps :| Reached(cfg, steps) == Some(n);
    ReachedKeeps(cfg, steps);
  }

  lemma StepThenRun(cfg: Config, n: Node, step: Step, rest: seq<Step>)
    requires Enabled(cfg, n, step) && Legal(cfg, After(cfg, n, step), rest)
    ensures Legal(cfg, n, [step] + rest) && Final(cfg, n, [step] + rest) == Final(cfg, After(cfg, n, step), rest)
  {
    assert ([step] + rest)[1..] == rest;
  }

  lemma OneStep(cfg: Config, n: Node, step: Step)
    requires Enabled(cfg, n, step)
    ensures Legal(cfg, n, [step]) && Final(cfg, n, [step]) == After(cfg, n, step)
  {
    StepThenRun(cfg, n, step, []);
    assert [step] + [] == [step];
  }

  // ---- Startup ----

  /** At most one of completed, failed and abandoned; readiness agrees; nothing of it is ever undone. */
  lemma StartupSettlesOnce(cfg: Config, n: Node, steps: seq<Step>)
    requires Reachable(cfg, n) && Legal(cfg, n, steps)
    ensures !(n.up.completed && n.up.failed) && !(n.up.completed && n.up.abandoned) && !(n.up.failed && n.up.abandoned)
    ensures n.up.readiness.Resolved? <==> n.up.completed
    ensures n.up.readiness.Rejected? <==> n.up.failed || n.up.abandoned
    ensures n.up.failuresReported == (if n.up.failed then 1 else 0)
    ensures var m := Final(cfg, n, steps);
      !n.up.readiness.Pending? ==>
        && m.up.readiness == n.up.readiness && m.up.failuresReported == n.up.failuresReported
        && m.up.completed == n.up.completed && m.up.failed == n.up.failed && m.up.abandoned == n.up.abandoned
  {
    ReachableKeeps(cfg, n);
    RunKeeps(cfg, n, steps);
  }

  lemma {:induction false} CleanAt(cfg: Config, past: seq<seq<Task>>, i: nat)
    requires AllClean(cfg, past) && i < |past|
    ensures Clean(cfg, i, past[i]) && |past[i]| == cfg.startup[i].tasks
    decreases |past|
  {
    if i == |past| - 1 {
    } else {
      CleanAt(cfg, past[..|past| - 1], i);
    }
  }

  /** Readiness means that every task of every phase ran, and that none failed where its phase does not recover. */
  lemma ReadyMeansEveryTaskRan(cfg: Config, n: Node, i: nat, j: nat)
    requires Reachable(cfg, n) && n.up.readiness.Resolved?
    requires i < |cfg.startup| && j < cfg.startup[i].tasks
    ensures |n.up.past| == |cfg.startup| && |n.up.past[i]| == cfg.startup[i].tasks
    ensures n.up.past[i][j].Handled? && (cfg.startup[i].recover || n.up.past[i][j].ok)
  {
    ReachableKeeps(cfg, n);
    assert HasTasks(cfg);
    CleanAt(cfg, n.up.past, i);
  }

  /** No startup phase begins once the startup is settled, or once a shutdown run was asked for. */
  lemma NoPhaseBeginsAfter(cfg: Config, n: Node, steps: seq<Step>)
    requires Reachable(cfg, n) && Legal(cfg, n, steps)
    requires !n.up.readiness.Pending? || n.run.promise.Some?
    ensures Final(cfg, n, steps).up.phasesBegun == n.up.phasesBegun
  {
    ReachableKeeps(cfg, n);
    RunKeeps(cfg, n, steps);
  }

  /** A startup that is not running is left alone by whatever would abandon it. */
  lemma QuietStartup(cfg: Config, n: Node, choice: Option<bool>, reason: Reason, builds: bool)
    requires !n.up.running
    ensures TornDown(cfg, n).up == n.up && RunOpened(n, reason).up == n.up
    ensures RunThenTeardown(cfg, n, reason, builds).up == n.up
    ensures TerminateAnswered(cfg, n, choice, reason, builds).up == n.up
  {
  }

  /** What a terminate() does to the startup. */
  lemma TerminateAbandons(cfg: Config, n: Node, choice: Option<bool>, reason: Reason, builds: bool)
    ensures Terminated(cfg, n, choice, reason, builds).up == if n.terminated then n.up else Abandoned(n.up)
  {
    QuietStartup(cfg, n.(up := Abandoned(n.up)), choice, reason, builds);
  }

  /** The steps the startup graph takes itself. */
  predicate OwnStep(step: Step) {
    step.Start? || step.FirstPhase? || step.LaunchStartupTask? || step.AllLaunched? || step.StartupTaskSettles?
    || step.StartupTaskHandled? || step.StartupPhaseOver? || step.StartupRunnerFails?
  }

  /** The others leave the startup alone or abandon it. */
  lemma OthersOnlyAbandon(cfg: Config, n: Node, step: Step)
    requires Enabled(cfg, n, step) && !OwnStep(step)
    ensures After(cfg, n, step).up == n.up || After(cfg, n, step).up == Abandoned(n.up)
  {
    if step.CallTerminate? {
      TerminateAbandons(cfg, n, step.choice, step.reason, step.builds);
    } else if step.LaunchShutdownTask? {
      TornDownUp(cfg, n.(run := n.run.(tasks := n.run.tasks + [None])));
    } else if step.ShutdownPhaseHalts? {
      TornDownUp(cfg, n.(run := Halted(cfg, n.run)));
    } else if step.TeardownReaction? {
      TornDownUp(cfg, n.(run := n.run.(reactions := n.run.reactions - 1)));
    }
  }

  lemma TornDownUp(cfg: Config, n: Node)
    ensures TornDown(cfg, n).up == n.up || TornDown(cfg, n).up == Abandoned(n.up)
  {
  }

  /** What a failure does to the startup. */
  lemma FailureUp(cfg: Config, n: Node, builds: bool)
    ensures EndedWithFailure(cfg, n, builds).up ==
      if !n.up.running then n.up.(at := Over) else if n.run.begun then Abandoned(n.up).(at := Over) else Failed(n.up)
  {
    if n.up.running && !n.run.begun {
      QuietStartup(cfg, n.(up := Failed(n.up), run := MarkedFailed(n.run, builds)), None, StartupFailure, builds);
    }
  }

  // ---- Which phases begin after a terminate() ----

  /** Without tasks the graph never starts walking. */
  lemma {:induction false} NoTasksNoPhases(cfg: Config, n: Node, steps: seq<Step>)
    requires Inv(cfg, n) && Legal(cfg, n, steps) && !HasTasks(cfg) && n.up.at.Unstarted?
    ensures Final(cfg, n, steps).up.phasesBegun == 0
    decreases |steps|
  {
    if steps == [] {
    } else {
      StepKeeps(cfg, n, steps[0]);
      StaysUnstarted(cfg, n, steps[0]);
      NoTasksNoPhases(cfg, After(cfg, n, steps[0]), steps[1..]);
    }
  }

  lemma StaysUnstarted(cfg: Config, n: Node, step: Step)
    requires Inv(cfg, n) && Enabled(cfg, n, step) && !HasTasks(cfg) && n.up.at.Unstarted?
    ensures After(cfg, n, step).up.at.Unstarted?
  {
    if !OwnStep(step) {
      OthersOnlyAbandon(cfg, n, step);
    }
  }

  /** Some continuation of `m` begins a startup phase. */
  ghost predicate PhaseCanBegin(cfg: Config, m: Node) {
    exists steps :: Legal(cfg, m, steps) && Final(cfg, m, steps).up.phasesBegun > m.up.phasesBegun
  }

  /** An unsealed graph with tasks begins its first phase, where no run was asked for. */
  lemma UnsealedBegins(cfg: Config, m: Node)
    requires Inv(cfg, m) && m.exited.None? && !m.up.sealed && m.run.promise.None? && HasTasks(cfg)
    ensures PhaseCanBegin(cfg, m)
  {
    var a := After(cfg, m, Start);
    OneStep(cfg, a, FirstPhase);
    StepThenRun(cfg, m, Start, [FirstPhase]);
    assert Final(cfg, m, [Start] + [FirstPhase]).up.phasesBegun == 1;
  }

  lemma FrozenNeverBegins(cfg: Config, m: Node)
    requires Inv(cfg, m) && (Frozen(m) || (!HasTasks(cfg) && m.up.at.Unstarted?))
    ensures !PhaseCanBegin(cfg, m)
  {
    forall steps | Legal(cfg, m, steps) ensures Final(cfg, m, steps).up.phasesBegun == m.up.phasesBegun {
      if Frozen(m) {
        RunKeeps(cfg, m, steps);
      } else {
        NoTasksNoPhases(cfg, m, steps);
      }
    }
  }

  lemma TerminateLeaves(cfg: Config, n: Node, step: Step)
    requires Inv(cfg, n) && Enabled(cfg, n, step) && step.CallTerminate? && !n.terminated
    ensures var m := After(cfg, n, step); Inv(cfg, m) && m.up == Abandoned(n.up) && m.exited.None?
  {
    StepKeeps(cfg, n, step);
    TerminateAbandons(cfg, n, step.choice, step.reason, step.builds);
    TerminateExitsNothing(cfg, n, step.choice, step.reason, step.builds);
  }

  lemma TerminateExitsNothing(cfg: Config, n: Node, choice: Option<bool>, reason: Reason, builds: bool)
    ensures Terminated(cfg, n, choice, reason, builds).exited == n.exited
  {
  }

  /**
   After a terminate() of a system still up a startup phase can begin exactly when the call came
   inside `create`, ahead of the sealing, the graph has tasks, and the call asked for no run.
   */
  lemma PhaseBeginsAfterTerminateExactlyWhen(cfg: Config, n: Node, step: Step)
    requires Reachable(cfg, n) && Enabled(cfg, n, step) && step.CallTerminate? && !n.terminated
    ensures var m := After(cfg, n, step);
      PhaseCanBegin(cfg, m) <==> !n.up.sealed && HasTasks(cfg) && m.run.promise.None?
  {
    ReachableKeeps(cfg, n);
    TerminateLeaves(cfg, n, step);
    var m := After(cfg, n, step);
    if !n.up.sealed && HasTasks(cfg) && m.run.promise.None? {
      UnsealedBegins(cfg, m);
    } else {
      FrozenNeverBegins(cfg, m);
    }
  }

  // ---- Which tasks start after an abandonment ----

  lemma AbandonedAborts(s: Startup)
    requires !s.abandoned && Abandoned(s).abandoned
    ensures NoneRunning(Abandoned(s).tasks)
  {
  }

  /** Whatever abandons the startup aborts every task that is running at that moment. */
  lemma AbandonmentAbortsEveryTask(cfg: Config, n: Node, step: Step)
    requires Reachable(cfg, n) && Enabled(cfg, n, step) && !n.up.abandoned && After(cfg, n, step).up.abandoned
    ensures var m := After(cfg, n, step);
      NoneRunning(m.up.tasks) && |m.up.tasks| == |n.up.tasks| && (m.up.at == n.up.at || m.up.at.Over?)
  {
    if !OwnStep(step) {
      OthersOnlyAbandon(cfg, n, step);
      AbandonedAborts(n.up);
    } else if step.FirstPhase? {
      AbandonedAborts(n.up);
    } else {
      ReachableKeeps(cfg, n);
      PhaseEndAborts(cfg, n, step);
    }
  }

  lemma PhaseEndAborts(cfg: Config, n: Node, step: Step)
    requires Inv(cfg, n) && Enabled(cfg, n, step) && OwnStep(step) && !step.FirstPhase?
    requires !n.up.abandoned && After(cfg, n, step).up.abandoned
    ensures var m := After(cfg, n, step); NoneRunning(m.up.tasks) && |m.up.tasks| == |n.up.tasks| && m.up.at.Over?
  {
    if step.StartupPhaseOver? || step.StartupRunnerFails? {
      FailureUp(cfg, n, step.builds);
      AbandonedAborts(n.up);
    }
  }

  /** The phase in progress has tasks left to launch. */
  ghost predicate CanLaunch(cfg: Config, s: Startup) {
    s.at.Launching? && s.at.i < |cfg.startup| && |s.tasks| < cfg.startup[s.at.i].tasks
  }

  lemma {:induction false} NeverLaunches(cfg: Config, n: Node, steps: seq<Step>)
    requires Inv(cfg, n) && Legal(cfg, n, steps) && n.up.abandoned && !CanLaunch(cfg, n.up)
    ensures LaunchStartupTask !in steps
    decreases |steps|
  {
    if steps == [] {
    } else {
      var m := After(cfg, n, steps[0]);
      StepKeeps(cfg, n, steps[0]);
      LaunchesNothing(cfg, n, steps[0]);
      NeverLaunches(cfg, m, steps[1..]);
      assert steps == [steps[0]] + steps[1..];
    }
  }

  lemma LaunchesNothing(cfg: Config, n: Node, step: Step)
    requires Inv(cfg, n) && Enabled(cfg, n, step) && n.up.abandoned && !CanLaunch(cfg, n.up)
    ensures step != LaunchStartupTask && !CanLaunch(cfg, After(cfg, n, step).up)
  {
    if !OwnStep(step) {
      OthersOnlyAbandon(cfg, n, step);
    } else if step.StartupPhaseOver? || step.StartupRunnerFails? {
      FailureUp(cfg, n, step.builds);
    }
  }

  lemma LaunchLeft(cfg: Config, n: Node, step: Step)
    requires Inv(cfg, n) && Enabled(cfg, n, step) && !n.up.abandoned && After(cfg, n, step).up.abandoned
    ensures CanLaunch(cfg, After(cfg, n, step).up) <==> CanLaunch(cfg, n.up) && !step.StartupRunnerFails?
  {
    if !OwnStep(step) {
      OthersOnlyAbandon(cfg, n, step);
      AbandonedLaunches(cfg, n.up);
    } else if !step.FirstPhase? {
      PhaseEndAborts(cfg, n, step);
    }
  }

  lemma AbandonedLaunches(cfg: Config, s: Startup)
    ensures CanLaunch(cfg, Abandoned(s)) == CanLaunch(cfg, s)
  {
  }

  /**
   A startup task can still start after the abandonment exactly when the abandonment came while its
   phase was being launched with tasks left: the later siblings of the task that brought it about.
   */
  lemma TasksStartAfterAbandonmentExactlyWhen(cfg: Config, n: Node, step: Step)
    requires Reachable(cfg, n) && Enabled(cfg, n, step) && !n.up.abandoned && After(cfg, n, step).up.abandoned
    ensures var m := After(cfg, n, step);
      (exists steps :: Legal(cfg, m, steps) && LaunchStartupTask in steps)
      <==> CanLaunch(cfg, n.up) && !step.StartupRunnerFails?
  {
    ReachableKeeps(cfg, n);
    StepKeeps(cfg, n, step);
    LaunchLeft(cfg, n, step);
    var m := After(cfg, n, step);
    if CanLaunch(cfg, m.up) {
      AbandonmentEndsNothing(cfg, n, step);
      OneStep(cfg, m, LaunchStartupTask);
      assert LaunchStartupTask in [LaunchStartupTask];
    } else {
      forall steps | Legal(cfg, m, steps) ensures LaunchStartupTask !in steps {
        NeverLaunches(cfg, m, steps);
      }
    }
  }

  /** An abandonment is not the end of the process. */
  lemma AbandonmentEndsNothing(cfg: Config, n: Node, step: Step)
    requires Inv(cfg, n) && Enabled(cfg, n, step) && !n.up.abandoned && After(cfg, n, step).up.abandoned
    ensures After(cfg, n, step).exited.None?
  {
    StepKeeps(cfg, n, step);
    if After(cfg, n, step).exited.Some? {
      OnlyExitsExits(cfg, n, step);
    }
  }

  lemma OnlyExitsExits(cfg: Config, n: Node, step: Step)
    requires Enabled(cfg, n, step) && !step.Exits?
    ensures After(cfg, n, step).exited.None?
  {
    if step.CallTerminate? {
      TerminateExitsNothing(cfg, n, step.choice, step.reason, step.builds);
    } else if step.StartupPhaseOver? || step.StartupRunnerFails? {
      FailureExitsNothing(cfg, n, step.builds);
    } else {
      OthersExitNothing(cfg, n, step);
    }
  }

  lemma FailureExitsNothing(cfg: Config, n: Node, builds: bool)
    ensures EndedWithFailure(cfg, n, builds).exited == n.exited
  {
  }

  lemma OthersExitNothing(cfg: Config, n: Node, step: Step)
    requires Enabled(cfg, n, step) && !step.Exits?
    requires !step.CallTerminate? && !step.StartupPhaseOver? && !step.StartupRunnerFails?
    ensures After(cfg, n, step).exited.None?
  {
  }

  /** The first phase is being launched and its first task is running. */
  const FIRST_TASK := FRESH.(up := FRESH.up.(sealed := true, running := true, at := Launching(0), tasks := [Running], phasesBegun := 1))

  lemma FirstTaskRuns(cfg: Config)
    requires |cfg.startup| > 0 && cfg.startup[0].tasks > 0
    ensures Reachable(cfg, FIRST_TASK)
  {
    assert HasTasks(cfg);
    FreshIsReachable(cfg);
    ReachableStep(cfg, FRESH, Start);
    var a := After(cfg, FRESH, Start);
    ReachableStep(cfg, a, FirstPhase);
    var b := After(cfg, a, FirstPhase);
    ReachableStep(cfg, b, LaunchStartupTask);
    assert After(cfg, b, LaunchStartupTask) == FIRST_TASK;
  }

  /** A first task that shuts the system down as it is launched is aborted, and its sibling is launched regardless. */
  lemma SiblingStillLaunches(cfg: Config, step: Step)
    requires |cfg.startup| > 0 && cfg.startup[0].tasks > 1
    requires step.CallTerminate? || step.CallRun? || step.Signal? || step.CallAbandon?
    ensures Reachable(cfg, FIRST_TASK) && Enabled(cfg, FIRST_TASK, step)
    ensures var m := After(cfg, FIRST_TASK, step);
      && m.up.abandoned && Enabled(cfg, m, LaunchStartupTask)
      && After(cfg, m, LaunchStartupTask).up.tasks == [Settled(false), Running]
  {
    FirstTaskRuns(cfg);
    CallAbandons(cfg, FIRST_TASK, step);
    AbandonedFirst(FIRST_TASK.up);
    ReachableKeeps(cfg, FIRST_TASK);
    AbandonmentEndsNothing(cfg, FIRST_TASK, step);
  }

  lemma AbandonedFirst(s: Startup)
    requires s.running && s.tasks == [Running]
    ensures Abandoned(s).abandoned && Abandoned(s).tasks == [Settled(false)] && Abandoned(s).at == s.at
  {
  }

  lemma CallAbandons(cfg: Config, n: Node, step: Step)
    requires Enabled(cfg, n, step) && n.run.promise.None? && !n.terminated && n.up.running
    requires step.CallTerminate? || step.CallRun? || step.Signal? || step.CallAbandon?
    ensures After(cfg, n, step).up == Abandoned(n.up)
  {
    if step.CallTerminate? {
      TerminateAbandons(cfg, n, step.choice, step.reason, step.builds);
    }
  }

  /** A failure that stops the startup aborts the other tasks of its phase. */
  lemma FailureAbortsItsPhase(cfg: Config, n: Node)
    requires Reachable(cfg, n) && n.up.at.Waiting? && n.up.broken
    ensures NoneRunning(n.up.tasks)
  {
    ReachableKeeps(cfg, n);
  }

  // ---- Shutdown and terminate() ----

  /** The pipeline is walked at most once, and at most one stop cascade is enqueued. */
  lemma OneWalkOneCascade(cfg: Config, n: Node)
    requires Reachable(cfg, n)
    ensures n.run.walks <= 1 && n.cascades <= 1
    ensures n.terminated ==> n.terminating && n.cascades == 1
  {
    ReachableKeeps(cfg, n);
  }

  /** From a terminate() on, the teardown has begun or a reaction that begins it waits for the run. */
  lemma TerminateIsNeverLost(cfg: Config, n: Node, step: Step, steps: seq<Step>)
    requires Reachable(cfg, n) && Enabled(cfg, n, step) && step.CallTerminate? && Legal(cfg, After(cfg, n, step), steps)
    ensures var m := Final(cfg, After(cfg, n, step), steps); m.terminating || (m.run.promise.Some? && m.run.reactions > 0)
  {
    ReachableKeeps(cfg, n);
    StepKeeps(cfg, n, step);
    RunKeeps(cfg, After(cfg, n, step), steps);
  }

  /** Nor is a failed startup: the system goes down, and its run, where it has one, counts as failed. */
  lemma FailedStartupIsAnswered(cfg: Config, n: Node)
    requires Reachable(cfg, n) && n.up.failed
    ensures n.terminating || (n.run.promise.Some? && n.run.reactions > 0 && n.run.failed)
  {
    ReachableKeeps(cfg, n);
  }

  /** The reaction that waits does begin the teardown, as soon as the run is over. */
  lemma TeardownFollowsTheRun(cfg: Config, n: Node)
    requires Reachable(cfg, n) && (n.asked || n.up.failed) && n.run.at.Ended? && n.exited.None? && !n.terminating
    ensures n.run.promise == Some(Pending) ==>
      Legal(cfg, n, [RunPromiseSettles] + [TeardownReaction]) && Final(cfg, n, [RunPromiseSettles] + [TeardownReaction]).terminating
    ensures n.run.promise != Some(Pending) ==>
      Legal(cfg, n, [TeardownReaction]) && Final(cfg, n, [TeardownReaction]).terminating
  {
    ReachableKeeps(cfg, n);
    if n.run.promise == Some(Pending) {
      var m := After(cfg, n, RunPromiseSettles);
      StepKeeps(cfg, n, RunPromiseSettles);
      ReactionTears(cfg, m);
      StepThenRun(cfg, n, RunPromiseSettles, [TeardownReaction]);
    } else {
      ReactionTears(cfg, n);
    }
  }

  lemma ReactionTears(cfg: Config, m: Node)
    requires Inv(cfg, m) && Enabled(cfg, m, TeardownReaction)
    ensures Legal(cfg, m, [TeardownReaction]) && Final(cfg, m, [TeardownReaction]).terminating
  {
    OneStep(cfg, m, TeardownReaction);
    ReactionSpent(cfg, m);
    TornDownKeeps(cfg, m.(run := m.run.(reactions := m.run.reactions - 1)));
  }

  lemma InvariantPromises(cfg: Config, n: Node, m: Node)
    requires Good(cfg, n, m)
    ensures m.run.walks <= 1 && m.cascades <= 1
    ensures !n.up.readiness.Pending? ==> m.up.readiness == n.up.readiness
    ensures m.asked || m.up.failed ==> m.terminating || m.run.reactions > 0
  {
  }

  /** The promises as one step finds and leaves them. */
  lemma StepPromises(cfg: Config, n: Node, step: Step)
    requires Reachable(cfg, n) && Enabled(cfg, n, step)
    ensures var m := After(cfg, n, step);
      && Reachable(cfg, m) && m.run.walks <= 1 && m.cascades <= 1
      && (!n.up.readiness.Pending? ==> m.up.readiness == n.up.readiness)
      && (m.asked || m.up.failed ==> m.terminating || m.run.reactions > 0)
  {
    ReachableKeeps(cfg, n);
    ReachableStep(cfg, n, step);
    StepKeeps(cfg, n, step);
    InvariantPromises(cfg, n, After(cfg, n, step));
  }

  // ---- What each call and each phase comes to ----

  /** terminate() asks for the pipeline: its own choice, else the configured one. */
  predicate Asks(cfg: Config, choice: Option<bool>) {
    choice == Some(true) || (choice.None? && cfg.runByTerminate)
  }

  lemma TerminateAnswer(cfg: Config, n: Node, choice: Option<bool>, reason: Reason, builds: bool)
    requires !n.terminated && !n.up.running
    ensures var m := TerminateAnswered(cfg, n, choice, reason, builds);
      if RunInProgress(n.run) then m == n.(run := n.run.(reactions := n.run.reactions + 1))
      else if Asks(cfg, choice) && !n.terminating && builds then
        && m.terminating == n.terminating && m.cascades == n.cascades && m.run.reactions == n.run.reactions + 1
        && (if n.run.promise.None? then m.run.promise == Some(Pending) && m.run.at.Opening?
            else m.run.promise == n.run.promise && m.run.at == n.run.at)
      else m.terminating && m.run == n.run
  {
    var m := TerminateAnswered(cfg, n, choice, reason, builds);
    if RunInProgress(n.run) {
    } else if Asks(cfg, choice) && !n.terminating && builds {
      assert m == RunThenTeardown(cfg, n, reason, true);
      RunOpenedPromise(n, reason);
    } else {
      assert m == TornDown(cfg, n);
    }
  }

  lemma RunOpenedPromise(n: Node, reason: Reason)
    ensures var m := RunOpened(n, reason);
      && m.terminating == n.terminating && m.cascades == n.cascades && m.run.reactions == n.run.reactions
      && (if n.run.promise.None? then m.run.promise == Some(Pending) && m.run.at.Opening?
          else m.run.promise == n.run.promise && m.run.at == n.run.at)
  {
  }

  /**
   What a terminate() of a system still up comes to.  It joins a run in flight and starts nothing.
   Otherwise it opens a run exactly when the choice, or else the configuration, asks for the
   pipeline, no teardown has begun, and there was no run; the teardown then waits for that run.  A
   run that has already ended is joined.  In every other case the teardown has begun.
   */
  lemma TerminateRunsThePipelineExactlyWhen(cfg: Config, n: Node, choice: Option<bool>, reason: Reason, builds: bool)
    requires Reachable(cfg, n) && Enabled(cfg, n, CallTerminate(choice, reason, builds)) && !n.terminated
    ensures var m := After(cfg, n, CallTerminate(choice, reason, builds));
      var runs := (choice == Some(true) || (choice.None? && cfg.runByTerminate)) && !n.terminating && builds;
      && (RunInProgress(n.run) ==>
            m.terminating == n.terminating && m.cascades == n.cascades && m.run == n.run.(reactions := n.run.reactions + 1))
      && (n.run.promise.None? && m.run.promise.Some? <==> n.run.promise.None? && runs)
      && (n.run.promise.None? && runs ==>
            m.run.promise == Some(Pending) && m.run.at.Opening? && m.run.reactions == 1 && !m.terminating && m.cascades == 0)
      && (n.run.promise.Some? && !RunInProgress(n.run) && runs ==>
            m.run.promise == n.run.promise && m.run.at == n.run.at && m.run.reactions == n.run.reactions + 1 && !m.terminating)
      && (!RunInProgress(n.run) && !runs ==> m.terminating && m.run == n.run)
  {
    ReachableKeeps(cfg, n);
    AbandonedKeeps(cfg, n.up);
    TerminateAnswer(cfg, n.(up := Abandoned(n.up)), choice, reason, builds);
  }

  /** A signal on a system without a run opens one that is told to go; a later one adds nothing. */
  lemma SignalOpensARun(cfg: Config, n: Node)
    requires Reachable(cfg, n) && Enabled(cfg, n, Signal)
    ensures var m := After(cfg, n, Signal);
      && (n.run.promise.None? ==> m.run.promise == Some(Pending) && m.run.at.Opening? && m.run.told && !m.up.running)
      && (n.run.promise.Some? ==> m == n)
  {
    ReachableKeeps(cfg, n);
    AbandonedKeeps(cfg, n.up);
  }

  /** Which reasons mark a run as failed, and which tell the node to go. */
  lemma ReasonsDecide(cfg: Config, n: Node, reason: Reason)
    requires Reachable(cfg, n) && Enabled(cfg, n, CallRun(reason))
    ensures var m := After(cfg, n, CallRun(reason));
      && m.run.promise.Some? && (m.run.failed <==> n.run.failed || reason == JoinUnsuccessful)
      && (n.run.promise.None? ==>
            && m.run.at.Opening? && !m.up.running
            && (m.run.told <==> reason == ProcessTerminate || reason == ClusterDowning || reason == JoinUnsuccessful))
      && (n.run.promise.Some? ==> m == n.(run := n.run.(failed := m.run.failed)))
  {
    ReachableKeeps(cfg, n);
    AbandonedKeeps(cfg, n.up);
  }

  /** A graph without tasks is ready as `create` returns; one with tasks runs. */
  lemma StartDecides(cfg: Config, n: Node)
    requires Reachable(cfg, n) && Enabled(cfg, n, Start)
    ensures var m := After(cfg, n, Start);
      && m.up.sealed
      && (m.up.completed <==> forall i :: 0 <= i < |cfg.startup| ==> cfg.startup[i].tasks == 0)
      && (if m.up.completed then m.up.readiness.Resolved? && !m.up.running else m.up.running && m.up.at.Starting?)
  {
    ReachableKeeps(cfg, n);
  }

  lemma BrokenMeans(cfg: Config, s: Startup)
    requires Flags(s) && Walk(cfg, s) && s.at.Waiting? && s.running && forall j :: 0 <= j < |s.tasks| ==> s.tasks[j].Handled?
    ensures s.broken <==> Breaks(cfg, s.at.i, s.tasks)
  {
  }

  /**
   What the end of a startup phase comes to.  With a shutdown begun the startup is abandoned.  Else a
   failed task of a phase that does not recover fails it and is reported, and otherwise the next
   phase begins, or the startup is complete behind the last one.
   */
  lemma PhaseEndDecides(cfg: Config, n: Node, builds: bool)
    requires Reachable(cfg, n) && Enabled(cfg, n, StartupPhaseOver(builds)) && n.up.running
    ensures n.up.at.i < |cfg.startup|
    ensures var m := After(cfg, n, StartupPhaseOver(builds));
      var i := n.up.at.i;
      var fails := !cfg.startup[i].recover && exists j :: 0 <= j < |n.up.tasks| && n.up.tasks[j] == Handled(false);
      if n.run.begun then m.up.abandoned
      else if fails then m.up.failed && m.up.failuresReported == 1
      else if i + 1 < |cfg.startup| then m.up.running && m.up.at == Launching(i + 1) && m.up.phasesBegun == i + 2
      else m.up.completed && m.up.readiness.Resolved?
  {
    ReachableKeeps(cfg, n);
    BrokenMeans(cfg, n.up);
    FailureUp(cfg, n, builds);
  }

  /** The runner's own failure fails a startup that is running, unless a shutdown has begun. */
  lemma RunnerFailureDecides(cfg: Config, n: Node, builds: bool)
    requires Reachable(cfg, n) && Enabled(cfg, n, StartupRunnerFails(builds)) && n.up.running
    ensures var m := After(cfg, n, StartupRunnerFails(builds));
      if n.run.begun then m.up.abandoned else m.up.failed && m.up.failuresReported == 1
  {
    ReachableKeeps(cfg, n);
    FailureUp(cfg, n, builds);
  }

  /** Where the walk starts: the first phase, unless the startup was abandoned or a shutdown has begun. */
  lemma WalkBegins(cfg: Config, n: Node)
    requires Reachable(cfg, n) && Enabled(cfg, n, FirstPhase)
    ensures var m := After(cfg, n, FirstPhase);
      if n.up.running && !n.run.begun then (if |cfg.startup| > 0 then m.up.at == Launching(0) && m.up.phasesBegun == 1 else m.up.completed)
      else m.up.abandoned && m.up.at.Over?
  {
    ReachableKeeps(cfg, n);
  }

  // ---- How a teardown begins ----

  /** The drain comes first where there is one, and the stop cascade is enqueued at once where there is none. */
  ghost predicate Begins(cfg: Config, n: Node, m: Node) {
    !n.terminating && m.terminating ==> m.draining == cfg.drains && m.cascades == n.cascades + (if cfg.drains then 0 else 1)
  }

  lemma TornDownBegins(cfg: Config, n: Node)
    requires !n.draining
    ensures Begins(cfg, n, TornDown(cfg, n))
  {
  }

  lemma AnswerBegins(cfg: Config, n: Node, choice: Option<bool>, reason: Reason, builds: bool)
    requires !n.draining
    ensures Begins(cfg, n, RunThenTeardown(cfg, n, reason, builds)) && Begins(cfg, n, TerminateAnswered(cfg, n, choice, reason, builds))
  {
  }

  lemma FailureBegins(cfg: Config, n: Node, builds: bool)
    requires !n.draining
    ensures Begins(cfg, n, EndedWithFailure(cfg, n, builds))
  {
    if n.up.running && !n.run.begun {
      var f := n.(up := Failed(n.up), run := MarkedFailed(n.run, builds));
      AnswerBegins(cfg, f, None, StartupFailure, builds);
      assert EndedWithFailure(cfg, n, builds) == RunThenTeardown(cfg, f, StartupFailure, builds);
    }
  }

  lemma RunBeginsTeardown(cfg: Config, n: Node, step: Step)
    requires Enabled(cfg, n, step) && !n.draining
    requires step.LaunchShutdownTask? || step.ShutdownPhaseHalts? || step.TeardownReaction?
    ensures Begins(cfg, n, After(cfg, n, step))
  {
    if step.LaunchShutdownTask? {
      TornDownBegins(cfg, n.(run := n.run.(tasks := n.run.tasks + [None])));
    } else if step.ShutdownPhaseHalts? {
      TornDownBegins(cfg, n.(run := Halted(cfg, n.run)));
    } else {
      TornDownBegins(cfg, n.(run := n.run.(reactions := n.run.reactions - 1)));
    }
  }

  lemma OthersBeginNone(cfg: Config, n: Node, step: Step)
    requires Enabled(cfg, n, step) && !n.terminating
    requires !step.CallTerminate? && !step.StartupPhaseOver? && !step.StartupRunnerFails?
    requires !step.LaunchShutdownTask? && !step.ShutdownPhaseHalts? && !step.TeardownReaction?
    ensures !After(cfg, n, step).terminating
  {
  }

  /** Whatever begins the teardown drains first where that is configured, and enqueues the stop cascade at once otherwise. */
  lemma TeardownBegins(cfg: Config, n: Node, step: Step)
    requires Reachable(cfg, n) && Enabled(cfg, n, step) && !n.terminating && After(cfg, n, step).terminating
    ensures var m := After(cfg, n, step); m.draining == cfg.drains && m.cascades == if cfg.drains then 0 else 1
  {
    ReachableKeeps(cfg, n);
    if step.CallTerminate? {
      AnswerBegins(cfg, n.(up := Abandoned(n.up)), step.choice, step.reason, step.builds);
    } else if step.StartupPhaseOver? || step.StartupRunnerFails? {
      FailureBegins(cfg, n, step.builds);
    } else if step.LaunchShutdownTask? || step.ShutdownPhaseHalts? || step.TeardownReaction? {
      RunBeginsTeardown(cfg, n, step);
    } else {
      OthersBeginNone(cfg, n, step);
    }
  }
}
