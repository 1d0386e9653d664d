/**
 What every run of the life cycle keeps, step by step.
 */
module LifecycleInvariants {
  import opened Options
  import opened Lifecycles

  /** Every task is over and, unless the phase recovers, none of them failed. */
  ghost predicate Clean(cfg: Config, k: nat, tasks: seq<Task>) {
    k < |cfg.startup| && forall j :: 0 <= j < |tasks| ==> tasks[j].Handled? && (cfg.startup[k].recover || tasks[j].ok)
  }

  /** Every phase behind the startup graph ran all its tasks and ended clean. */
  ghost predicate AllClean(cfg: Config, past: seq<seq<Task>>) {
    past == [] ||
    var k := |past| - 1;
    AllClean(cfg, past[..k]) && Clean(cfg, k, past[k]) && |past[k]| == cfg.startup[k].tasks
  }

  /** Every task of every phase behind the pipeline has ended, without failure where the phase does not recover. */
  ghost predicate PastEnded(cfg: Config, past: seq<seq<Option<bool>>>) {
    past == [] ||
    var k := |past| - 1;
    PastEnded(cfg, past[..k]) && AllEnded(past[k]) &&
    k < |cfg.shutdownRecovers| && (cfg.shutdownRecovers[k] || AllOk(past[k]))
  }

  /** No failure seen so far stops the run. */
  ghost predicate Unbroken(cfg: Config, k: nat, tasks: seq<Task>) {
    k < |cfg.startup| &&
    (cfg.startup[k].recover || forall j :: 0 <= j < |tasks| && tasks[j].Handled? ==> tasks[j].ok)
  }

  /** A task of phase `k`, which does not recover, was seen to fail. */
  ghost predicate Breaks(cfg: Config, k: nat, tasks: seq<Task>) {
    k < |cfg.startup| && !cfg.startup[k].recover && exists j :: 0 <= j < |tasks| && tasks[j] == Handled(false)
  }

  ghost predicate NoneRunning(tasks: seq<Task>) { forall j :: 0 <= j < |tasks| ==> !tasks[j].Running? }

  /** The flags of the startup graph agree with one another and with readiness. */
  ghost predicate Flags(s: Startup) {
    && (s.running ==> !s.completed && !s.failed && !s.abandoned)
    && (s.completed ==> !s.failed && !s.abandoned)
    && (s.failed ==> !s.abandoned && s.at.Over?)
    && (s.sealed <==> s.running || s.completed || s.failed || s.abandoned)
    && (s.readiness.Resolved? <==> s.completed)
    && (s.readiness.Rejected? <==> s.failed || s.abandoned)
    && s.failuresReported == (if s.failed then 1 else 0)
    && (!s.sealed ==> s.at.Unstarted?)
    && (s.running ==> !s.at.Unstarted? && !s.at.Over?)
    && (s.completed ==> s.at.Unstarted? || s.at.Over?)
  }

  /** Where the startup graph is, and what lies behind it. */
  ghost predicate Walk(cfg: Config, s: Startup) {
    && (s.at.Unstarted? || s.at.Starting? ==> s.past == [] && s.phasesBegun == 0 && s.tasks == [])
    && (s.at.Launching? || s.at.Waiting? ==>
          && s.at.i < |cfg.startup| && |s.past| == s.at.i && s.phasesBegun == s.at.i + 1
          && |s.tasks| <= cfg.startup[s.at.i].tasks
          && (s.running && !s.broken ==> Unbroken(cfg, s.at.i, s.tasks)))
    && (s.at.Waiting? ==>
          && |s.tasks| == cfg.startup[s.at.i].tasks
          && (s.broken ==> NoneRunning(s.tasks) && Breaks(cfg, s.at.i, s.tasks)))
    && (s.at.Launching? ==> !s.broken)
    && s.phasesBegun <= |cfg.startup|
    && (s.running || s.completed ==> AllClean(cfg, s.past))
    && (s.completed ==> if s.at.Over? then |s.past| == |cfg.startup| else !HasTasks(cfg))
  }

  ghost predicate PipelineOk(cfg: Config, p: Pipeline) {
    && (p.promise.None? <==> p.at.NoRun?)
    && (p.at.NoRun? ==> p.reactions == 0)
    && (p.begun <==> !p.at.NoRun? && !p.at.Opening?)
    && p.walks == (if p.begun then 1 else 0)
    && (p.settled <==> p.at.Ended?)
    && (p.promise.Some? && !p.at.Ended? ==> p.promise.value.Pending?)
    && (p.at.NoRun? || p.at.Opening? ==> p.past == [] && p.tasks == [])
    && (p.at.Launch? || p.at.Wait? ==> cfg.sorts && |p.past| == p.at.i < |cfg.shutdownRecovers|)
    && |p.past| <= |cfg.shutdownRecovers|
    && PastEnded(cfg, p.past)
    && (p.completed ==> |p.past| == |cfg.shutdownRecovers| && !p.halted && (p.at.Flushing? || p.at == Ended(true)))
    && (p.halted ==> (p.at.Flushing? && p.at.status == ExitStatus(cfg, true)) || p.at == Ended(false))
    && (p.at.Flushing? ==>
          && cfg.sorts && cfg.exitProcess && (p.completed || p.halted) && (p.at.status == 0 ==> cfg.exitCode == 0))
    && (p.at == Ended(true) ==> p.completed)
    && (p.at.Ended? && cfg.sorts ==> !cfg.exitProcess && (p.completed || p.halted))
  }

  ghost predicate Together(n: Node) {
    && (n.up.running && n.run.promise.Some? ==> n.run.begun)
    && n.cascades + (if n.draining then 1 else 0) == (if n.terminating then 1 else 0)
    && (n.terminated ==> n.cascades == 1)
    && (n.exited.Some? ==> n.run.at == Flushing(n.exited.value))
  }

  ghost predicate Base(cfg: Config, n: Node) {
    Flags(n.up) && Walk(cfg, n.up) && PipelineOk(cfg, n.run) && Together(n)
  }

  /** A terminate() and a startup that failed are answered by a teardown, and the run of the second is marked. */
  ghost predicate Answered(n: Node) {
    && (n.asked || n.up.failed ==> n.terminating || n.run.reactions > 0)
    && (n.up.failed ==> n.terminating || n.run.failed)
  }

  /** The run has launched its terminator, or has halted where it stands in for it. */
  ghost predicate GoesDown(cfg: Config, p: Pipeline) {
    || (cfg.terminatorPhase.Some? && (|p.past| > cfg.terminatorPhase.value || p.at == Wait(cfg.terminatorPhase.value)))
    || (p.halted && p.at.Ended? && p.told && cfg.terminates)
  }

  ghost predicate Inv(cfg: Config, n: Node) {
    Base(cfg, n) && Answered(n) && (GoesDown(cfg, n.run) ==> n.terminating)
  }

  // ---- What no step undoes ----

  ghost predicate StartupLater(s: Startup, t: Startup) {
    && (s.sealed ==> t.sealed && (t.running ==> s.running))
    && (s.completed ==> t.completed)
    && (s.failed ==> t.failed)
    && (s.abandoned ==> t.abandoned)
    && (!s.readiness.Pending? ==> t.readiness == s.readiness)
  }

  ghost predicate PipelineLater(p: Pipeline, q: Pipeline) {
    && (p.promise.Some? ==> q.promise.Some? && q.told == p.told)
    && (p.halted ==> q.halted && q.past == p.past)
    && (p.completed ==> q.completed)
    && (p.failed ==> q.failed)
    && (p.at.Flushing? ==> q.at == p.at)
    && (p.failed && !p.at.Flushing? && q.at.Flushing? ==> q.at.status != 0)
  }

  /** No startup phase begins from here on. */
  ghost predicate Frozen(n: Node) { (n.up.sealed && !n.up.running) || n.run.promise.Some? }

  ghost predicate Later(n: Node, m: Node) {
    && StartupLater(n.up, m.up) && PipelineLater(n.run, m.run)
    && (Frozen(n) ==> m.up.phasesBegun == n.up.phasesBegun)
    && (n.terminating ==> m.terminating)
    && (n.asked ==> m.asked)
  }

  /** What every step brings about. */
  ghost predicate Good(cfg: Config, n: Node, m: Node) { Inv(cfg, m) && Later(n, m) }

  lemma LaterTrans(n: Node, m: Node, k: Node)
    requires Later(n, m) && Later(m, k)
    ensures Later(n, k)
  {
  }

  lemma GoodTrans(cfg: Config, n: Node, m: Node, k: Node)
    requires Later(n, m) && Good(cfg, m, k)
    ensures Good(cfg, n, k)
  {
    LaterTrans(n, m, k);
  }

  // ---- A step of one component ----

  lemma StartupMoves(cfg: Config, n: Node, t: Startup)
    requires Inv(cfg, n) && Flags(t) && Walk(cfg, t) && StartupLater(n.up, t) && t.failed == n.up.failed
    requires t.running && n.run.promise.Some? ==> n.run.begun
    requires Frozen(n) ==> t.phasesBegun == n.up.phasesBegun
    ensures Good(cfg, n, n.(up := t))
  {
  }

  lemma PipelineMoves(cfg: Config, n: Node, q: Pipeline)
    requires Inv(cfg, n) && n.exited.None? && PipelineOk(cfg, q) && PipelineLater(n.run, q)
    requires q.reactions >= n.run.reactions && (n.up.running && q.promise.Some? ==> q.begun)
    requires GoesDown(cfg, q) ==> n.terminating
    ensures Good(cfg, n, n.(run := q))
  {
  }

  // ---- The synchronous pieces ----

  lemma AbandonedKeeps(cfg: Config, s: Startup)
    requires Flags(s) && Walk(cfg, s)
    ensures var t := Abandoned(s);
      && Flags(t) && Walk(cfg, t) && StartupLater(s, t)
      && !t.running && t.failed == s.failed && t.phasesBegun == s.phasesBegun
  {
  }

  lemma AbandonKeeps(cfg: Config, n: Node)
    requires Inv(cfg, n)
    ensures Good(cfg, n, n.(up := Abandoned(n.up)))
  {
    AbandonedKeeps(cfg, n.up);
    StartupMoves(cfg, n, Abandoned(n.up));
  }

  /** The teardown settles whatever was still owed one. */
  lemma TornDownKeeps(cfg: Config, n: Node)
    requires Base(cfg, n)
    ensures Good(cfg, n, TornDown(cfg, n)) && TornDown(cfg, n).terminating
  {
    AbandonedKeeps(cfg, n.up);
  }

  lemma OpenedKeeps(cfg: Config, p: Pipeline, reason: Reason)
    requires PipelineOk(cfg, p)
    ensures var q := Opened(p, reason);
      && PipelineOk(cfg, q) && PipelineLater(p, q) && q.promise.Some? && q.reactions == p.reactions
      && (GoesDown(cfg, q) ==> GoesDown(cfg, p)) && (p.promise.Some? ==> q.begun == p.begun)
  {
  }

  lemma RunOpenedKeeps(cfg: Config, n: Node, reason: Reason)
    requires Inv(cfg, n) && n.exited.None?
    ensures Good(cfg, n, RunOpened(n, reason)) && RunOpened(n, reason).run.promise.Some?
  {
    var m := if n.run.promise.Some? then n else n.(up := Abandoned(n.up));
    AbandonKeeps(cfg, n);
    AbandonedKeeps(cfg, n.up);
    OpenedKeeps(cfg, n.run, reason);
    PipelineMoves(cfg, m, Opened(n.run, reason));
    GoodTrans(cfg, n, m, RunOpened(n, reason));
  }

  /** A teardown that waits for a run. */
  lemma ReactionAdded(cfg: Config, n: Node)
    requires Base(cfg, n) && n.run.promise.Some? && (n.up.failed ==> n.terminating || n.run.failed)
    requires GoesDown(cfg, n.run) ==> n.terminating
    ensures var m := n.(run := n.run.(reactions := n.run.reactions + 1)); Good(cfg, n, m)
  {
  }

  /** The answer a system gives to a terminate() or to a failed startup. */
  ghost predicate Answers(m: Node) { m.terminating || m.run.reactions > 0 }

  lemma ReactingRunKeeps(cfg: Config, n: Node, reason: Reason)
    requires Inv(cfg, n) && n.exited.None?
    ensures var m := RunOpened(n, reason);
      Good(cfg, n, m.(run := m.run.(reactions := m.run.reactions + 1)))
  {
    var m := RunOpened(n, reason);
    RunOpenedKeeps(cfg, n, reason);
    ReactionAdded(cfg, m);
    GoodTrans(cfg, n, m, m.(run := m.run.(reactions := m.run.reactions + 1)));
  }

  lemma RunThenTeardownKeeps(cfg: Config, n: Node, reason: Reason, builds: bool)
    requires Inv(cfg, n) && n.exited.None?
    ensures var m := RunThenTeardown(cfg, n, reason, builds); Good(cfg, n, m) && Answers(m)
  {
    if builds {
      ReactingRunKeeps(cfg, n, reason);
    } else {
      TornDownKeeps(cfg, n);
    }
  }

  lemma TerminateAnsweredKeeps(cfg: Config, n: Node, choice: Option<bool>, reason: Reason, builds: bool)
    requires Inv(cfg, n) && n.exited.None?
    ensures var m := TerminateAnswered(cfg, n, choice, reason, builds); Good(cfg, n, m) && Answers(m)
  {
    if RunInProgress(n.run) {
      ReactionAdded(cfg, n);
    } else if !(if choice.Some? then choice.value else cfg.runByTerminate) || n.terminating {
      TornDownKeeps(cfg, n);
    } else {
      RunThenTeardownKeeps(cfg, n, reason, builds);
    }
  }

  lemma TerminatedKeeps(cfg: Config, n: Node, choice: Option<bool>, reason: Reason, builds: bool)
    requires Inv(cfg, n) && n.exited.None?
    ensures var m := Terminated(cfg, n, choice, reason, builds); Good(cfg, n, m) && Answers(m)
  {
    if n.terminated {
      assert n.terminating;
    } else {
      var m := n.(up := Abandoned(n.up));
      AbandonKeeps(cfg, n);
      TerminateAnsweredKeeps(cfg, m, choice, reason, builds);
      GoodTrans(cfg, n, m, TerminateAnswered(cfg, m, choice, reason, builds));
    }
  }

  lemma AskedKeeps(cfg: Config, n: Node, m: Node)
    requires Good(cfg, n, m) && Answers(m)
    ensures Good(cfg, n, m.(asked := true))
  {
  }

  lemma FailedKeeps(cfg: Config, s: Startup)
    requires Flags(s) && Walk(cfg, s) && s.running
    ensures var t := Failed(s); Flags(t) && Walk(cfg, t) && StartupLater(s, t) && t.phasesBegun == s.phasesBegun
  {
  }

  /** The startup failed and owes an answer; the run it will open counts as failed. */
  ghost predicate Owes(cfg: Config, n: Node) {
    && Base(cfg, n) && n.exited.None? && n.up.failed && !n.up.running
    && (GoesDown(cfg, n.run) ==> n.terminating)
  }

  lemma FailureMarked(cfg: Config, n: Node, builds: bool)
    requires Inv(cfg, n) && n.exited.None? && n.up.running
    ensures var m := n.(up := Failed(n.up), run := MarkedFailed(n.run, builds));
      Owes(cfg, m) && Later(n, m) && (builds ==> m.run.failed)
  {
    FailedKeeps(cfg, n.up);
  }

  /** Opening a run for a startup that failed. */
  lemma FailureOpens(cfg: Config, n: Node)
    requires Owes(cfg, n) && n.run.failed
    ensures var m := n.(run := Opened(n.run, StartupFailure));
      Base(cfg, m) && Later(n, m) && m.run.promise.Some? && m.run.failed && (GoesDown(cfg, m.run) ==> m.terminating)
  {
    OpenedKeeps(cfg, n.run, StartupFailure);
  }

  lemma FailureKeeps(cfg: Config, n: Node, builds: bool)
    requires Owes(cfg, n) && (builds ==> n.run.failed)
    ensures Good(cfg, n, RunThenTeardown(cfg, n, StartupFailure, builds))
  {
    if builds {
      var m := n.(run := Opened(n.run, StartupFailure));
      assert RunOpened(n, StartupFailure) == m;
      FailureOpens(cfg, n);
      ReactionAdded(cfg, m);
      GoodTrans(cfg, n, m, m.(run := m.run.(reactions := m.run.reactions + 1)));
    } else {
      TornDownKeeps(cfg, n);
    }
  }

  lemma FailureAnswered(cfg: Config, n: Node, builds: bool)
    requires Inv(cfg, n) && n.exited.None? && n.up.running
    ensures var f := n.(up := Failed(n.up), run := MarkedFailed(n.run, builds));
      Good(cfg, n, RunThenTeardown(cfg, f, StartupFailure, builds))
  {
    var f := n.(up := Failed(n.up), run := MarkedFailed(n.run, builds));
    FailureMarked(cfg, n, builds);
    FailureKeeps(cfg, f, builds);
    GoodTrans(cfg, n, f, RunThenTeardown(cfg, f, StartupFailure, builds));
  }

  lemma EndedWithFailureKeeps(cfg: Config, n: Node, builds: bool)
    requires Inv(cfg, n) && n.exited.None? && (n.up.at.Starting? || n.up.at.Launching? || n.up.at.Waiting?)
    ensures Good(cfg, n, EndedWithFailure(cfg, n, builds))
  {
    if !n.up.running {
      StartupMoves(cfg, n, n.up.(at := Over));
    } else if n.run.begun {
      AbandonedKeeps(cfg, n.up);
      StartupMoves(cfg, n, Abandoned(n.up).(at := Over));
    } else {
      FailureAnswered(cfg, n, builds);
    }
  }

  // ---- The steps, one kind at a time ----

  lemma AtStartupPhaseKeeps(cfg: Config, s: Startup, shutdownHasBegun: bool, i: nat)
    requires Flags(s) && s.sealed && !s.failed && !s.completed && !s.at.Unstarted? && !s.at.Over?
    requires |s.past| == s.phasesBegun == i <= |cfg.startup| && (s.running ==> AllClean(cfg, s.past))
    ensures var t := AtStartupPhase(cfg, s, shutdownHasBegun, i);
      && Flags(t) && Walk(cfg, t) && StartupLater(s, t) && !t.failed && (t.running ==> !shutdownHasBegun)
      && (!s.running || shutdownHasBegun ==> t.phasesBegun == s.phasesBegun)
  {
  }

  lemma FirstPhaseKeeps(cfg: Config, n: Node)
    requires Inv(cfg, n) && n.up.at.Starting?
    ensures Good(cfg, n, n.(up := AtStartupPhase(cfg, n.up, n.run.begun, 0)))
  {
    AtStartupPhaseKeeps(cfg, n.up, n.run.begun, 0);
    StartupMoves(cfg, n, AtStartupPhase(cfg, n.up, n.run.begun, 0));
  }

  lemma CleanPhase(cfg: Config, s: Startup)
    requires Flags(s) && Walk(cfg, s) && s.at.Waiting? && !s.broken && s.running
    requires forall j :: 0 <= j < |s.tasks| ==> s.tasks[j].Handled?
    ensures AllClean(cfg, s.past + [s.tasks])
  {
    var past := s.past + [s.tasks];
    assert past[..|past| - 1] == s.past;
    assert Clean(cfg, s.at.i, s.tasks);
  }

  lemma StartupPhaseOverKeeps(cfg: Config, n: Node)
    requires Inv(cfg, n) && n.up.at.Waiting? && (n.up.broken ==> n.up.abandoned)
    requires forall j :: 0 <= j < |n.up.tasks| ==> n.up.tasks[j].Handled?
    ensures var s := n.up.(past := n.up.past + [n.up.tasks]);
      Good(cfg, n, n.(up := AtStartupPhase(cfg, s, n.run.begun, n.up.at.i + 1)))
  {
    var s := n.up.(past := n.up.past + [n.up.tasks]);
    if n.up.running {
      CleanPhase(cfg, n.up);
    }
    assert Flags(s);
    AtStartupPhaseKeeps(cfg, s, n.run.begun, n.up.at.i + 1);
    StartupMoves(cfg, n, AtStartupPhase(cfg, s, n.run.begun, n.up.at.i + 1));
  }

  lemma StartupPhaseLeftKeeps(cfg: Config, n: Node, builds: bool)
    requires Inv(cfg, n) && n.exited.None? && n.up.at.Waiting?
    requires forall j :: 0 <= j < |n.up.tasks| ==> n.up.tasks[j].Handled?
    ensures Good(cfg, n, StartupPhaseLeft(cfg, n, builds))
  {
    if n.up.broken && !n.up.abandoned {
      EndedWithFailureKeeps(cfg, n, builds);
    } else {
      StartupPhaseOverKeeps(cfg, n);
    }
  }

  lemma StartKeeps(cfg: Config, n: Node)
    requires Inv(cfg, n) && !n.up.sealed && !n.run.at.Opening?
    ensures HasTasks(cfg) ==> Good(cfg, n, n.(up := n.up.(sealed := true, running := true, at := Starting)))
    ensures !HasTasks(cfg) ==>
      Good(cfg, n, n.(up := n.up.(sealed := true, completed := true, readiness := Settle(n.up.readiness, Resolved))))
  {
    if HasTasks(cfg) {
      StartupMoves(cfg, n, n.up.(sealed := true, running := true, at := Starting));
    } else {
      StartupMoves(cfg, n, n.up.(sealed := true, completed := true, readiness := Settle(n.up.readiness, Resolved)));
    }
  }

  lemma TaskLaunchedKeeps(cfg: Config, n: Node)
    requires Inv(cfg, n) && n.up.at.Launching? && |n.up.tasks| < cfg.startup[n.up.at.i].tasks
    ensures Good(cfg, n, n.(up := n.up.(tasks := n.up.tasks + [Running])))
  {
    StartupMoves(cfg, n, n.up.(tasks := n.up.tasks + [Running]));
  }

  lemma AllLaunchedKeeps(cfg: Config, n: Node)
    requires Inv(cfg, n) && n.up.at.Launching? && |n.up.tasks| == cfg.startup[n.up.at.i].tasks
    ensures Good(cfg, n, n.(up := n.up.(at := Waiting(n.up.at.i))))
  {
    StartupMoves(cfg, n, n.up.(at := Waiting(n.up.at.i)));
  }

  lemma TaskSettlesKeeps(cfg: Config, n: Node, j: nat, ok: bool)
    requires Inv(cfg, n) && j < |n.up.tasks| && n.up.tasks[j].Running?
    ensures Good(cfg, n, n.(up := n.up.(tasks := n.up.tasks[j := Settled(ok)])))
  {
    StartupMoves(cfg, n, n.up.(tasks := n.up.tasks[j := Settled(ok)]));
  }

  lemma HandledWalk(cfg: Config, s: Startup, j: nat)
    requires Flags(s) && Walk(cfg, s) && s.at.Waiting? && j < |s.tasks| && s.tasks[j].Settled?
    ensures Walk(cfg, TaskHandled(cfg, s, j))
  {
    var t := TaskHandled(cfg, s, j);
    if s.broken {
      var k :| 0 <= k < |s.tasks| && s.tasks[k] == Handled(false);
      assert t.tasks[k] == Handled(false);
    } else if t.broken {
      assert t.tasks[j] == Handled(false);
    }
  }

  lemma TaskHandledKeeps(cfg: Config, n: Node, j: nat)
    requires Inv(cfg, n) && n.up.at.Waiting? && j < |n.up.tasks| && n.up.tasks[j].Settled?
    ensures Good(cfg, n, n.(up := TaskHandled(cfg, n.up, j)))
  {
    HandledWalk(cfg, n.up, j);
    StartupMoves(cfg, n, TaskHandled(cfg, n.up, j));
  }

  lemma AtShutdownPhaseKeeps(cfg: Config, p: Pipeline, i: nat)
    requires p.begun && p.walks == 1 && p.promise == Some(Pending) && !p.settled && !p.completed && !p.halted && cfg.sorts
    requires |p.past| == i <= |cfg.shutdownRecovers| && PastEnded(cfg, p.past) && !p.at.Flushing?
    ensures var q := AtShutdownPhase(cfg, p, i);
      && PipelineOk(cfg, q) && PipelineLater(p, q) && q.reactions == p.reactions && q.begun && q.past == p.past
      && !q.at.Wait? && !q.halted
  {
  }

  lemma RunBeginsKeeps(cfg: Config, n: Node)
    requires Inv(cfg, n) && n.run.at.Opening? && n.exited.None?
    ensures Good(cfg, n, n.(run := RunBegun(cfg, n.run)))
  {
    var p := n.run.(begun := true, walks := n.run.walks + 1);
    if cfg.sorts {
      AtShutdownPhaseKeeps(cfg, p, 0);
      PipelineMoves(cfg, n, AtShutdownPhase(cfg, p, 0));
    } else {
      PipelineMoves(cfg, n, p.(at := Ended(false), settled := true));
    }
  }

  lemma LaunchKeeps(cfg: Config, n: Node, terminator: bool)
    requires Inv(cfg, n) && n.exited.None? && n.run.at.Launch?
    ensures Good(cfg, n, ShutdownTaskLaunched(cfg, n, terminator))
  {
    var q := n.run.(tasks := n.run.tasks + [None]);
    var m := n.(run := q);
    PipelineMoves(cfg, n, q);
    if terminator {
      TornDownKeeps(cfg, m);
      GoodTrans(cfg, n, m, TornDown(cfg, m));
    }
  }

  lemma AllShutdownLaunchedKeeps(cfg: Config, n: Node)
    requires Inv(cfg, n) && Enabled(cfg, n, AllShutdownLaunched)
    ensures Good(cfg, n, n.(run := n.run.(at := Wait(n.run.at.i))))
  {
    PipelineMoves(cfg, n, n.run.(at := Wait(n.run.at.i)));
  }

  lemma ShutdownTaskEndsKeeps(cfg: Config, n: Node, j: nat, ok: bool)
    requires Inv(cfg, n) && n.exited.None? && j < |n.run.tasks|
    ensures Good(cfg, n, n.(run := n.run.(tasks := n.run.tasks[j := Some(ok)])))
  {
    PipelineMoves(cfg, n, n.run.(tasks := n.run.tasks[j := Some(ok)]));
  }

  lemma PhaseBehind(cfg: Config, p: Pipeline)
    requires PipelineOk(cfg, p) && p.at.Wait? && AllEnded(p.tasks)
    requires cfg.shutdownRecovers[p.at.i] || AllOk(p.tasks)
    ensures PastEnded(cfg, p.past + [p.tasks])
  {
    var past := p.past + [p.tasks];
    assert past[..|past| - 1] == p.past;
  }

  lemma PhaseOverPipeline(cfg: Config, p: Pipeline)
    requires PipelineOk(cfg, p) && p.at.Wait? && PastEnded(cfg, p.past + [p.tasks])
    ensures var q := ShutdownPhaseLeft(cfg, p);
      && PipelineOk(cfg, q) && PipelineLater(p, q) && q.reactions == p.reactions && q.begun
      && (GoesDown(cfg, q) ==> GoesDown(cfg, p))
  {
    AtShutdownPhaseKeeps(cfg, p.(past := p.past + [p.tasks]), p.at.i + 1);
  }

  lemma ShutdownPhaseOverKeeps(cfg: Config, n: Node)
    requires Inv(cfg, n) && n.exited.None? && n.run.at.Wait? && AllEnded(n.run.tasks)
    requires cfg.shutdownRecovers[n.run.at.i] || AllOk(n.run.tasks)
    ensures Good(cfg, n, n.(run := ShutdownPhaseLeft(cfg, n.run)))
  {
    PhaseBehind(cfg, n.run);
    PhaseOverPipeline(cfg, n.run);
    PipelineMoves(cfg, n, ShutdownPhaseLeft(cfg, n.run));
  }

  lemma HaltedKeeps(cfg: Config, p: Pipeline)
    requires PipelineOk(cfg, p) && p.at.Wait?
    ensures var q := Halted(cfg, p);
      PipelineOk(cfg, q) && PipelineLater(p, q) && q.past == p.past && q.reactions == p.reactions && q.begun && q.told == p.told
  {
  }

  lemma HaltKeeps(cfg: Config, n: Node)
    requires Inv(cfg, n) && n.run.at.Wait? && n.exited.None?
    ensures Good(cfg, n, RunHalted(cfg, n))
  {
    var m := n.(run := Halted(cfg, n.run));
    HaltedKeeps(cfg, n.run);
    if !cfg.exitProcess && n.run.told && cfg.terminates {
      assert Base(cfg, m) && Later(n, m);
      TornDownKeeps(cfg, m);
      GoodTrans(cfg, n, m, TornDown(cfg, m));
    } else {
      PipelineMoves(cfg, n, Halted(cfg, n.run));
    }
  }

  lemma PromiseSettlesKeeps(cfg: Config, n: Node, outcome: Promise)
    requires Inv(cfg, n) && n.exited.None? && n.run.at.Ended?
    ensures Good(cfg, n, n.(run := n.run.(promise := Some(outcome))))
  {
    PipelineMoves(cfg, n, n.run.(promise := Some(outcome)));
  }

  lemma ReactionSpent(cfg: Config, n: Node)
    requires Inv(cfg, n) && n.run.reactions > 0
    ensures var m := n.(run := n.run.(reactions := n.run.reactions - 1)); Base(cfg, m) && Later(n, m)
  {
  }

  lemma ReactionKeeps(cfg: Config, n: Node)
    requires Inv(cfg, n) && n.run.reactions > 0
    ensures Good(cfg, n, Reacted(cfg, n))
  {
    var m := n.(run := n.run.(reactions := n.run.reactions - 1));
    ReactionSpent(cfg, n);
    TornDownKeeps(cfg, m);
    GoodTrans(cfg, n, m, TornDown(cfg, m));
  }

  lemma EndingKeeps(cfg: Config, n: Node, step: Step)
    requires Inv(cfg, n) && Enabled(cfg, n, step) && (step.Exits? || step.DrainOver? || step.RootTerminated?)
    ensures Good(cfg, n, After(cfg, n, step))
  {
  }

  lemma CallKeeps(cfg: Config, n: Node, step: Step)
    requires Inv(cfg, n) && Enabled(cfg, n, step)
    requires step.CallTerminate? || step.CallRun? || step.Signal? || step.CallAbandon?
    ensures Good(cfg, n, After(cfg, n, step))
  {
    if step.CallTerminate? {
      TerminatedKeeps(cfg, n, step.choice, step.reason, step.builds);
      AskedKeeps(cfg, n, Terminated(cfg, n, step.choice, step.reason, step.builds));
    } else if step.CallAbandon? {
      AbandonKeeps(cfg, n);
    } else {
      RunOpenedKeeps(cfg, n, if step.CallRun? then step.reason else ProcessTerminate);
    }
  }

  lemma StartupKeeps(cfg: Config, n: Node, step: Step)
    requires Inv(cfg, n) && Enabled(cfg, n, step)
    requires step.Start? || step.FirstPhase? || step.StartupPhaseOver? || step.StartupRunnerFails?
    ensures Good(cfg, n, After(cfg, n, step))
  {
    if step.Start? {
      StartKeeps(cfg, n);
    } else if step.FirstPhase? {
      FirstPhaseKeeps(cfg, n);
    } else if step.StartupRunnerFails? {
      EndedWithFailureKeeps(cfg, n, step.builds);
    } else {
      StartupPhaseLeftKeeps(cfg, n, step.builds);
    }
  }

  lemma StartupTaskKeeps(cfg: Config, n: Node, step: Step)
    requires Inv(cfg, n) && Enabled(cfg, n, step)
    requires step.LaunchStartupTask? || step.AllLaunched? || step.StartupTaskSettles? || step.StartupTaskHandled?
    ensures Good(cfg, n, After(cfg, n, step))
  {
    if step.LaunchStartupTask? {
      TaskLaunchedKeeps(cfg, n);
    } else if step.AllLaunched? {
      AllLaunchedKeeps(cfg, n);
    } else if step.StartupTaskSettles? {
      TaskSettlesKeeps(cfg, n, step.j, step.ok);
    } else {
      TaskHandledKeeps(cfg, n, step.j);
    }
  }

  lemma ShutdownTaskKeeps(cfg: Config, n: Node, step: Step)
    requires Inv(cfg, n) && Enabled(cfg, n, step)
    requires step.RunBegins? || step.LaunchShutdownTask? || step.AllShutdownLaunched? || step.ShutdownTaskEnds?
    ensures Good(cfg, n, After(cfg, n, step))
  {
    if step.RunBegins? {
      RunBeginsKeeps(cfg, n);
    } else if step.LaunchShutdownTask? {
      LaunchKeeps(cfg, n, step.terminator);
    } else if step.AllShutdownLaunched? {
      AllShutdownLaunchedKeeps(cfg, n);
    } else {
      ShutdownTaskEndsKeeps(cfg, n, step.j, step.ok);
    }
  }

  lemma ShutdownPhaseKeeps(cfg: Config, n: Node, step: Step)
    requires Inv(cfg, n) && Enabled(cfg, n, step) && (step.ShutdownPhaseOver? || step.ShutdownPhaseHalts?)
    ensures Good(cfg, n, After(cfg, n, step))
  {
    if step.ShutdownPhaseOver? {
      ShutdownPhaseOverKeeps(cfg, n);
    } else {
      HaltKeeps(cfg, n);
    }
  }

  lemma RunEndKeeps(cfg: Config, n: Node, step: Step)
    requires Inv(cfg, n) && Enabled(cfg, n, step) && (step.RunPromiseSettles? || step.TeardownReaction?)
    ensures Good(cfg, n, After(cfg, n, step))
  {
    if step.RunPromiseSettles? {
      PromiseSettlesKeeps(cfg, n, if n.run.at.ok then Resolved else Rejected);
    } else {
      ReactionKeeps(cfg, n);
    }
  }

  /** Every step keeps the invariant and undoes nothing. */
  lemma StepKeeps(cfg: Config, n: Node, step: Step)
    requires Inv(cfg, n) && Enabled(cfg, n, step)
    ensures Good(cfg, n, After(cfg, n, step))
  {
    if step.CallTerminate? || step.CallRun? || step.Signal? || step.CallAbandon? {
      CallKeeps(cfg, n, step);
    } else if step.LaunchStartupTask? || step.AllLaunched? || step.StartupTaskSettles? || step.StartupTaskHandled? {
      StartupTaskKeeps(cfg, n, step);
    } else if step.Start? || step.FirstPhase? || step.StartupPhaseOver? || step.StartupRunnerFails? {
      StartupKeeps(cfg, n, step);
    } else if step.RunBegins? || step.LaunchShutdownTask? || step.AllShutdownLaunched? || step.ShutdownTaskEnds? {
      ShutdownTaskKeeps(cfg, n, step);
    } else if step.Exits? || step.DrainOver? || step.RootTerminated? {
      EndingKeeps(cfg, n, step);
    } else if step.ShutdownPhaseOver? || step.ShutdownPhaseHalts? {
      ShutdownPhaseKeeps(cfg, n, step);
    } else {
      RunEndKeeps(cfg, n, step);
    }
  }

  lemma {:induction false} RunKeeps(cfg: Config, n: Node, steps: seq<Step>)
    requires Inv(cfg, n) && Legal(cfg, n, steps)
    ensures Good(cfg, n, Final(cfg, n, steps))
    decreases |steps|
  {
    if steps == [] {
    } else {
      var m := After(cfg, n, steps[0]);
      StepKeeps(cfg, n, steps[0]);
      RunKeeps(cfg, m, steps[1..]);
      GoodTrans(cfg, n, m, Final(cfg, m, steps[1..]));
    }
  }
}
