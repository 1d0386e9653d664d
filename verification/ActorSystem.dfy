/**
 The same life cycle as the objects hold it: three objects whose methods change their fields.  A
 system performs every step of the state machine as that machine says, so what holds for all of its
 runs holds for the objects.
 */
module ActorSystems {
  import opened Options
  import opened Lifecycles
  import opened LifecycleInvariants
  import opened LifecycleTheorems

  /** src/CoordinatedStartup.ts */
  class CoordinatedStartup {
    var sealed: bool
    var running: bool
    var completed: bool
    var failed: bool
    var abandoned: bool
    var readiness: Promise
    var at: StartupAt
    var tasks: seq<Task>
    var broken: bool
    var past: seq<seq<Task>>
    var phasesBegun: nat
    var failuresReported: nat

    function View(): Startup
      reads this
    {
      Startup(sealed, running, completed, failed, abandoned, readiness, at, tasks, broken, past, phasesBegun, failuresReported)
    }

    constructor ()
      ensures View() == FRESH.up
    {
      sealed, running, completed, failed, abandoned := false, false, false, false, false;
      readiness, at, tasks, broken, past := Pending, Unstarted, [], false, [];
      phasesBegun, failuresReported := 0, 0;
    }

    method SettleReadiness(outcome: Promise)
      modifies this`readiness
      ensures readiness == Settle(old(readiness), outcome)
    {
      if readiness.Pending? {
        readiness := outcome;
      }
    }

    /** Abort the tasks in flight, one after the other. */
    method AbortAll()
      modifies this`tasks
      ensures tasks == Aborted(old(tasks))
    {
      var k := 0;
      while k < |tasks|
        invariant k <= |tasks| == |old(tasks)|
        invariant forall j :: 0 <= j < k ==> tasks[j] == Aborted(old(tasks))[j]
        invariant forall j :: k <= j < |tasks| ==> tasks[j] == old(tasks)[j]
      {
        if tasks[k].Running? {
          tasks := tasks[k := Settled(false)];
        }
        k := k + 1;
      }
    }

    method Abandon()
      modifies this
      ensures View() == Abandoned(old(View()))
    {
      if !running {
        return;
      }
      abandoned := true;
      running := false;
      AbortAll();
      SettleReadiness(Rejected);
    }

    method Fail()
      modifies this
      ensures View() == Failed(old(View()))
    {
      running := false;
      failed := true;
      SettleReadiness(Rejected);
      failuresReported := failuresReported + 1;
      at := Over;
    }

    method Start(cfg: Config)
      modifies this
      ensures View() == if HasTasks(cfg) then old(View()).(sealed := true, running := true, at := Starting)
        else old(View()).(sealed := true, completed := true, readiness := Settle(old(readiness), Resolved))
    {
      sealed := true;
      if HasTasks(cfg) {
        running := true;
        at := Starting;
      } else {
        completed := true;
        SettleReadiness(Resolved);
      }
    }

    /** The head of the loop over the phases, and the end of the run behind it. */
    method EnterPhase(cfg: Config, shutdownHasBegun: bool, i: nat)
      modifies this
      ensures View() == AtStartupPhase(cfg, old(View()), shutdownHasBegun, i)
    {
      if abandoned {
        at := Over;
      } else if shutdownHasBegun {
        Abandon();
        at := Over;
      } else if i < |cfg.startup| {
        at := Launching(i);
        tasks, broken := [], false;
        phasesBegun := phasesBegun + 1;
      } else {
        at := Over;
        running := false;
        completed := true;
        SettleReadiness(Resolved);
      }
    }

    /** What the phase does with the outcome of its task `j`. */
    method HandleTask(cfg: Config, j: nat)
      requires at.Waiting? && j < |tasks| && tasks[j].Settled?
      modifies this
      ensures View() == TaskHandled(cfg, old(View()), j)
    {
      var ok := tasks[j].ok;
      tasks := tasks[j := Handled(ok)];
      if ok || abandoned || broken || (at.i < |cfg.startup| && cfg.startup[at.i].recover) {
        return;
      }
      broken := true;
      AbortAll();
    }
  }

  /** src/CoordinatedShutdown.ts */
  class CoordinatedShutdown {
    const startup: CoordinatedStartup
    var promise: Option<Promise>
    var begun: bool
    var completed: bool
    var settled: bool
    var failed: bool
    var told: bool
    var at: RunAt
    var tasks: seq<Option<bool>>
    var past: seq<seq<Option<bool>>>
    var halted: bool
    var walks: nat
    var reactions: nat

    function View(): Pipeline
      reads this
    {
      Pipeline(promise, begun, completed, settled, failed, told, at, tasks, past, halted, walks, reactions)
    }

    constructor (startup: CoordinatedStartup)
      ensures View() == FRESH.run && this.startup == startup
    {
      this.startup := startup;
      promise, begun, completed, settled, failed, told := None, false, false, false, false, false;
      at, tasks, past, halted, walks, reactions := NoRun, [], [], false, 0, 0;
    }

    /** Open a run, or join the one there is. */
    method Run(reason: Reason)
      modifies this, startup
      ensures View() == Opened(old(View()), reason)
      ensures startup.View() == if old(promise).Some? then old(startup.View()) else Abandoned(old(startup.View()))
    {
      if ReportsFailure(reason) {
        failed := true;
      }
      if promise.Some? {
        return;
      }
      promise := Some(Pending);
      told := ToldTheNodeToGo(reason);
      at := Opening;
      startup.Abandon();
    }

    /** Attach a teardown to the run's promise. */
    method ThenTeardown()
      modifies this`reactions
      ensures View() == old(View()).(reactions := old(reactions) + 1)
    {
      reactions := reactions + 1;
    }

    method MarkFailed(builds: bool)
      modifies this`failed
      ensures View() == MarkedFailed(old(View()), builds)
    {
      failed := failed || builds;
    }

    /** `_run` up to its first phase; a sort that fails ends the run there. */
    method Begin(cfg: Config)
      modifies this
      ensures View() == RunBegun(cfg, old(View()))
    {
      begun := true;
      walks := walks + 1;
      if cfg.sorts {
        EnterPhase(cfg, 0);
      } else {
        at := Ended(false);
        settled := true;
      }
    }

    /** The head of the loop over the phases, and the end of the run behind it. */
    method EnterPhase(cfg: Config, i: nat)
      modifies this
      ensures View() == AtShutdownPhase(cfg, old(View()), i)
    {
      if i < |cfg.shutdownRecovers| {
        at := Launch(i);
        tasks := [];
        return;
      }
      completed := true;
      if cfg.exitProcess {
        at := Flushing(ExitStatus(cfg, failed));
      } else {
        at := Ended(true);
        settled := true;
      }
    }

    method LeavePhase(cfg: Config)
      requires at.Wait?
      modifies this
      ensures View() == ShutdownPhaseLeft(cfg, old(View()))
    {
      past := past + [tasks];
      EnterPhase(cfg, at.i + 1);
    }

    method Halt(cfg: Config)
      modifies this
      ensures View() == Halted(cfg, old(View()))
    {
      halted := true;
      if cfg.exitProcess {
        at := Flushing(ExitStatus(cfg, true));
      } else {
        at := Ended(false);
        settled := true;
      }
    }
  }

  /** src/ActorSystem.ts */
  class ActorSystem {
    const cfg: Config
    const startup: CoordinatedStartup
    const shutdown: CoordinatedShutdown
    var terminating: bool
    var terminated: bool
    var draining: bool
    var cascades: nat
    var asked: bool
    var exited: Option<nat>

    predicate Linked() { shutdown.startup == startup }

    function View(): Node
      reads this, startup, shutdown
    {
      Node(startup.View(), shutdown.View(), terminating, terminated, draining, cascades, asked, exited)
    }

    /** Some run of the state machine leads to this system. */
    ghost predicate Valid()
      reads this, startup, shutdown
    {
      Linked() && Reachable(cfg, View())
    }

    constructor (cfg: Config)
      ensures Valid() && View() == FRESH && this.cfg == cfg && fresh(startup) && fresh(shutdown)
    {
      this.cfg := cfg;
      var graph := new CoordinatedStartup();
      startup := graph;
      shutdown := new CoordinatedShutdown(graph);
      terminating, terminated, draining, cascades, asked, exited := false, false, false, 0, false, None;
      new;
      FreshIsReachable(cfg);
    }

    method Teardown()
      requires Linked()
      modifies this, startup
      ensures View() == TornDown(cfg, old(View()))
    {
      if terminated || terminating {
        return;
      }
      startup.Abandon();
      terminating := true;
      if cfg.drains {
        draining := true;
      } else {
        cascades := cascades + 1;
      }
    }

    method RunCoordinatedShutdownThenTeardown(reason: Reason, builds: bool)
      requires Linked()
      modifies this, startup, shutdown
      ensures View() == RunThenTeardown(cfg, old(View()), reason, builds)
    {
      if !builds {
        Teardown();
        return;
      }
      shutdown.Run(reason);
      shutdown.ThenTeardown();
    }

    method AnswerTerminate(choice: Option<bool>, reason: Reason, builds: bool)
      requires Linked()
      modifies this, startup, shutdown
      ensures View() == TerminateAnswered(cfg, old(View()), choice, reason, builds)
    {
      var runs := if choice.Some? then choice.value else cfg.runByTerminate;
      if RunInProgress(shutdown.View()) {
        shutdown.ThenTeardown();
      } else if !runs || terminating {
        Teardown();
      } else {
        RunCoordinatedShutdownThenTeardown(reason, builds);
      }
    }

    method TerminateWith(choice: Option<bool>, reason: Reason, builds: bool)
      requires Linked()
      modifies this, startup, shutdown
      ensures View() == Terminated(cfg, old(View()), choice, reason, builds)
    {
      if terminated {
        return;
      }
      startup.Abandon();
      assert View() == old(View()).(up := Abandoned(old(startup.View())));
      AnswerTerminate(choice, reason, builds);
    }

    /** CoordinatedStartup.endWithFailure with the system's answer, onStartupFailed, behind it. */
    method EndStartupWithFailure(builds: bool)
      requires Linked()
      modifies this, startup, shutdown
      ensures View() == EndedWithFailure(cfg, old(View()), builds)
    {
      if !startup.running {
        startup.at := Over;
      } else if shutdown.begun {
        startup.Abandon();
        startup.at := Over;
      } else {
        startup.Fail();
        shutdown.MarkFailed(builds);
        assert View() == old(View()).(up := Failed(old(startup.View())), run := MarkedFailed(old(shutdown.View()), builds));
        RunCoordinatedShutdownThenTeardown(StartupFailure, builds);
      }
    }

    /** A phase that does not recover failed: exit, or stand in for the terminator the run never reached. */
    method OnRunHalted()
      requires Linked()
      modifies this, startup, shutdown
      ensures View() == RunHalted(cfg, old(View()))
    {
      shutdown.Halt(cfg);
      if !cfg.exitProcess && shutdown.told && cfg.terminates {
        Teardown();
      }
    }

    method PerformCall(step: Step)
      requires Linked() && Enabled(cfg, View(), step)
      requires step.CallTerminate? || step.CallRun? || step.Signal? || step.CallAbandon?
      modifies this, startup, shutdown
      ensures View() == After(cfg, old(View()), step)
    {
      match step {
        case CallTerminate(choice, reason, builds) =>
          TerminateWith(choice, reason, builds);
          asked := true;
        case CallRun(reason) =>
          shutdown.Run(reason);
        case Signal =>
          if shutdown.promise.None? {
            shutdown.Run(ProcessTerminate);
          }
        case CallAbandon =>
          startup.Abandon();
      }
    }

    method PerformStartupTask(step: Step)
      requires Linked() && Enabled(cfg, View(), step)
      requires step.LaunchStartupTask? || step.AllLaunched? || step.StartupTaskSettles? || step.StartupTaskHandled?
      modifies startup
      ensures View() == After(cfg, old(View()), step)
    {
      match step {
        case LaunchStartupTask =>
          startup.tasks := startup.tasks + [Running];
        case AllLaunched =>
          startup.at := Waiting(startup.at.i);
        case StartupTaskSettles(j, ok) =>
          startup.tasks := startup.tasks[j := Settled(ok)];
        case StartupTaskHandled(j) =>
          startup.HandleTask(cfg, j);
      }
    }

    method PerformStartup(step: Step)
      requires Linked() && Enabled(cfg, View(), step)
      requires step.Start? || step.FirstPhase? || step.StartupPhaseOver? || step.StartupRunnerFails?
      modifies this, startup, shutdown
      ensures View() == After(cfg, old(View()), step)
    {
      match step {
        case Start =>
          startup.Start(cfg);
        case FirstPhase =>
          startup.EnterPhase(cfg, shutdown.begun, 0);
        case StartupPhaseOver(builds) =>
          OnStartupPhaseOver(builds);
        case StartupRunnerFails(builds) =>
          EndStartupWithFailure(builds);
      }
    }

    method OnStartupPhaseOver(builds: bool)
      requires Linked() && startup.at.Waiting?
      modifies this, startup, shutdown
      ensures View() == StartupPhaseLeft(cfg, old(View()), builds)
    {
      if startup.broken && !startup.abandoned {
        EndStartupWithFailure(builds);
      } else {
        startup.past := startup.past + [startup.tasks];
        startup.EnterPhase(cfg, shutdown.begun, startup.at.i + 1);
      }
    }

    /** A task starts; the terminator begins the teardown as it does. */
    method OnTaskLaunched(terminator: bool)
      requires Linked()
      modifies this, startup, shutdown
      ensures View() == ShutdownTaskLaunched(cfg, old(View()), terminator)
    {
      shutdown.tasks := shutdown.tasks + [None];
      assert View() == old(View()).(run := old(shutdown.View()).(tasks := old(shutdown.tasks) + [None]));
      if terminator {
        Teardown();
      }
    }

    method PerformShutdownTask(step: Step)
      requires Linked() && Enabled(cfg, View(), step)
      requires step.LaunchShutdownTask? || step.AllShutdownLaunched? || step.ShutdownTaskEnds?
      modifies this, startup, shutdown
      ensures View() == After(cfg, old(View()), step)
    {
      match step {
        case LaunchShutdownTask(terminator) =>
          OnTaskLaunched(terminator);
        case AllShutdownLaunched =>
          shutdown.at := Wait(shutdown.at.i);
        case ShutdownTaskEnds(j, ok) =>
          shutdown.tasks := shutdown.tasks[j := Some(ok)];
      }
    }

    method PerformShutdown(step: Step)
      requires Linked() && Enabled(cfg, View(), step)
      requires step.RunBegins? || step.ShutdownPhaseOver? || step.ShutdownPhaseHalts?
      modifies this, startup, shutdown
      ensures View() == After(cfg, old(View()), step)
    {
      match step {
        case RunBegins =>
          shutdown.Begin(cfg);
        case ShutdownPhaseOver =>
          shutdown.LeavePhase(cfg);
        case ShutdownPhaseHalts =>
          OnRunHalted();
      }
    }

    method OnTeardownReaction()
      requires Linked() && shutdown.reactions > 0
      modifies this, startup, shutdown
      ensures View() == Reacted(cfg, old(View()))
    {
      shutdown.reactions := shutdown.reactions - 1;
      assert View() == old(View()).(run := old(shutdown.View()).(reactions := old(shutdown.reactions) - 1));
      Teardown();
    }

    method PerformRunEnd(step: Step)
      requires Linked() && Enabled(cfg, View(), step) && (step.RunPromiseSettles? || step.TeardownReaction?)
      modifies this, startup, shutdown
      ensures View() == After(cfg, old(View()), step)
    {
      if step.RunPromiseSettles? {
        shutdown.promise := Some(if shutdown.at.ok then Resolved else Rejected);
      } else {
        OnTeardownReaction();
      }
    }

    method PerformEnd(step: Step)
      requires Linked() && Enabled(cfg, View(), step) && (step.Exits? || step.DrainOver? || step.RootTerminated?)
      modifies this
      ensures View() == After(cfg, old(View()), step)
    {
      match step {
        case Exits =>
          exited := Some(shutdown.at.status);
        case DrainOver =>
          draining := false;
          cascades := cascades + 1;
        case RootTerminated =>
          terminated := true;
      }
    }

    method Dispatch(step: Step)
      requires Linked() && Enabled(cfg, View(), step)
      modifies this, startup, shutdown
      ensures View() == After(cfg, old(View()), step)
    {
      if step.CallTerminate? || step.CallRun? || step.Signal? || step.CallAbandon? {
        PerformCall(step);
      } else if step.LaunchStartupTask? || step.AllLaunched? || step.StartupTaskSettles? || step.StartupTaskHandled? {
        PerformStartupTask(step);
      } else if step.Start? || step.FirstPhase? || step.StartupPhaseOver? || step.StartupRunnerFails? {
        PerformStartup(step);
      } else if step.LaunchShutdownTask? || step.AllShutdownLaunched? || step.ShutdownTaskEnds? {
        PerformShutdownTask(step);
      } else if step.RunPromiseSettles? || step.TeardownReaction? {
        PerformRunEnd(step);
      } else if step.Exits? || step.DrainOver? || step.RootTerminated? {
        PerformEnd(step);
      } else {
        PerformShutdown(step);
      }
    }

    /**
     Any piece of code that may run next, run on the objects.  Whatever came before it: the pipeline
     is walked at most once, one stop cascade is enqueued at most, readiness never changes once it is
     settled, and a terminate() or a failed startup has its teardown begun or waiting for the run.
     */
    method Perform(step: Step)
      requires Valid() && Enabled(cfg, View(), step)
      modifies this, startup, shutdown
      ensures Valid() && View() == After(cfg, old(View()), step)
      ensures shutdown.walks <= 1 && cascades <= 1
      ensures !old(startup.readiness).Pending? ==> startup.readiness == old(startup.readiness)
      ensures asked || startup.failed ==> terminating || shutdown.reactions > 0
    {
      StepPromises(cfg, View(), step);
      Dispatch(step);
    }

    /** A whole run of the objects is a run of the state machine. */
    method Drive(steps: seq<Step>)
      requires Valid() && Legal(cfg, View(), steps)
      modifies this, startup, shutdown
      ensures Valid() && View() == Final(cfg, old(View()), steps)
    {
      ghost var start := View();
      var k := 0;
      while k < |steps|
        invariant k <= |steps| && Valid()
        invariant Legal(cfg, View(), steps[k..]) && Final(cfg, View(), steps[k..]) == Final(cfg, start, steps)
      {
        assert steps[k..][1..] == steps[k + 1..];
        Perform(steps[k]);
        k := k + 1;
      }
    }
  }
}
