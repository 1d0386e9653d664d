/**
 The life of a system as one state machine: the startup graph (src/CoordinatedStartup.ts), the
 shutdown pipeline (src/CoordinatedShutdown.ts) and `terminate()` with the teardown
 (src/ActorSystem.ts).

 A step is a piece of code that runs without interruption: a call from outside, a promise
 reaction, a task that settles, a budget that fires.  Steps may come in any order the guards
 allow, which covers every interleaving and every call that application code makes from inside
 a task, an abort listener or a launch.
 */
module Lifecycles {
  import opened Options

  datatype Promise = Pending | Resolved | Rejected

  /** Why a run was asked for. */
  datatype Reason = Unknown | SystemTerminate | ProcessTerminate | ClusterDowning | JoinUnsuccessful | StartupFailure

  predicate ReportsFailure(reason: Reason) { reason.JoinUnsuccessful? }

  predicate ToldTheNodeToGo(reason: Reason) {
    reason.ProcessTerminate? || reason.ClusterDowning? || reason.JoinUnsuccessful?
  }

  /** A phase of the startup graph, in the order the sort gives them. */
  datatype StartupPhase = StartupPhase(recover: bool, tasks: nat)

  datatype Config = Config(
    startup: seq<StartupPhase>,
    sorts: bool,                        // the sort of the shutdown phases succeeds
    shutdownRecovers: seq<bool>,        // one entry per shutdown phase, in order
    exitProcess: bool,
    exitCode: nat,
    terminates: bool,                   // terminate-actor-system
    terminatorPhase: Option<nat>,       // where the built-in terminator sits, unless it was removed
    runByTerminate: bool,               // run-by-actor-system-terminate
    drains: bool)                       // a drain or a prelude comes before the stop cascade

  /** A startup task: running, settled, or settled and seen by the phase that waits for it. */
  datatype Task = Running | Settled(ok: bool) | Handled(ok: bool)

  datatype StartupAt = Unstarted | Starting | Launching(i: nat) | Waiting(i: nat) | Over

  datatype Startup = Startup(
    sealed: bool,
    running: bool,
    completed: bool,
    failed: bool,                       // failureError is set
    abandoned: bool,                    // abandonment is set
    readiness: Promise,
    at: StartupAt,
    tasks: seq<Task>,                   // of the phase being launched or waited for
    broken: bool,                       // that phase has a failure that stops the run
    past: seq<seq<Task>>,               // the phases that are over
    phasesBegun: nat,
    failuresReported: nat)              // calls of onFailed

  datatype RunAt =
    | NoRun
    | Opening                           // `run()` was called, `_run` has not begun
    | Launch(i: nat)
    | Wait(i: nat)
    | Flushing(status: nat)             // in front of `process.exit`
    | Ended(ok: bool)

  datatype Pipeline = Pipeline(
    promise: Option<Promise>,           // _runPromise
    begun: bool,                        // _running
    completed: bool,
    settled: bool,
    failed: bool,                       // _failed
    told: bool,                         // the reason told the node to go
    at: RunAt,
    tasks: seq<Option<bool>>,           // of the current phase: None while running, else how it ended
    past: seq<seq<Option<bool>>>,       // the phases that are over
    halted: bool,
    walks: nat,                         // how often the phases were walked
    reactions: nat)                     // teardowns waiting for the promise to settle

  datatype Node = Node(
    up: Startup,
    run: Pipeline,
    terminating: bool,
    terminated: bool,
    draining: bool,
    cascades: nat,                      // stop cascades enqueued
    asked: bool,                        // terminate() was called
    exited: Option<nat>)                // process.exit

  const FRESH := Node(
    Startup(false, false, false, false, false, Pending, Unstarted, [], false, [], 0, 0),
    Pipeline(None, false, false, false, false, false, NoRun, [], [], false, 0, 0),
    false, false, false, 0, false, None)

  function Settle(p: Promise, outcome: Promise): Promise {
    if p.Pending? then outcome else p
  }

  /** Abort every task still running: its outcome settles as a failure. */
  function Aborted(tasks: seq<Task>): (r: seq<Task>)
    ensures |r| == |tasks|
    ensures forall j :: 0 <= j < |tasks| ==> r[j] == if tasks[j].Running? then Settled(false) else tasks[j]
  {
    seq(|tasks|, j requires 0 <= j < |tasks| => if tasks[j].Running? then Settled(false) else tasks[j])
  }

  // ---- The synchronous pieces ----

  /** CoordinatedStartup._abandon */
  function Abandoned(s: Startup): Startup {
    if !s.running then s
    else s.(abandoned := true, running := false, tasks := Aborted(s.tasks), readiness := Settle(s.readiness, Rejected))
  }

  /** ActorSystem._teardown */
  function TornDown(cfg: Config, n: Node): Node {
    if n.terminated || n.terminating then n
    else
      var m := n.(up := Abandoned(n.up), terminating := true);
      if cfg.drains then m.(draining := true) else m.(cascades := m.cascades + 1)
  }

  /** CoordinatedShutdown.run, up to the call of `_run`. */
  function Opened(p: Pipeline, reason: Reason): Pipeline {
    var m := p.(failed := p.failed || ReportsFailure(reason));
    if m.promise.Some? then m else m.(promise := Some(Pending), told := ToldTheNodeToGo(reason), at := Opening)
  }

  /** A run that opens abandons a startup still running, before its first phase. */
  function RunOpened(n: Node, reason: Reason): Node {
    n.(run := Opened(n.run, reason), up := if n.run.promise.Some? then n.up else Abandoned(n.up))
  }

  /** ActorSystem.runCoordinatedShutdownThenTeardown; `builds` is false when the extension cannot be built. */
  function RunThenTeardown(cfg: Config, n: Node, reason: Reason, builds: bool): Node {
    if !builds then TornDown(cfg, n)
    else
      var m := RunOpened(n, reason);
      m.(run := m.run.(reactions := m.run.reactions + 1))
  }

  predicate RunInProgress(p: Pipeline) { p.promise.Some? && !p.settled }

  /** ActorSystem.terminateWith, once the startup is abandoned: join the run in flight, tear down, or run first. */
  function TerminateAnswered(cfg: Config, n: Node, choice: Option<bool>, reason: Reason, builds: bool): Node {
    if RunInProgress(n.run) then n.(run := n.run.(reactions := n.run.reactions + 1))
    else
      var runs := if choice.Some? then choice.value else cfg.runByTerminate;
      if !runs || n.terminating then TornDown(cfg, n) else RunThenTeardown(cfg, n, reason, builds)
  }

  function Terminated(cfg: Config, n: Node, choice: Option<bool>, reason: Reason, builds: bool): Node {
    if n.terminated then n else TerminateAnswered(cfg, n.(up := Abandoned(n.up)), choice, reason, builds)
  }

  /** CoordinatedStartup.endWithFailure and ActorSystem.onStartupFailed; the graph's own run is over. */
  function EndedWithFailure(cfg: Config, n: Node, builds: bool): Node {
    if !n.up.running then n.(up := n.up.(at := Over))
    else if n.run.begun then n.(up := Abandoned(n.up).(at := Over))
    else RunThenTeardown(cfg, n.(up := Failed(n.up), run := MarkedFailed(n.run, builds)), StartupFailure, builds)
  }

  /** CoordinatedShutdown._runForFailure marks the run ahead of opening it. */
  function MarkedFailed(p: Pipeline, builds: bool): Pipeline {
    p.(failed := p.failed || builds)
  }

  function Failed(s: Startup): Startup {
    s.(running := false, failed := true, readiness := Settle(s.readiness, Rejected),
       failuresReported := s.failuresReported + 1, at := Over)
  }

  /** The head of the loop in CoordinatedStartup.run at phase `i`, and what follows the loop. */
  function AtStartupPhase(cfg: Config, s: Startup, shutdownHasBegun: bool, i: nat): Startup {
    if s.abandoned then s.(at := Over)
    else if shutdownHasBegun then Abandoned(s).(at := Over)
    else if i < |cfg.startup| then
      s.(at := Launching(i), tasks := [], broken := false, phasesBegun := s.phasesBegun + 1)
    else
      s.(at := Over, running := false, completed := true, readiness := Settle(s.readiness, Resolved))
  }

  function ExitStatus(cfg: Config, failed: bool): nat {
    if failed && cfg.exitCode == 0 then 1 else cfg.exitCode
  }

  /** The head of the loop in CoordinatedShutdown._run at phase `i`, and what follows the loop. */
  function AtShutdownPhase(cfg: Config, p: Pipeline, i: nat): Pipeline {
    if i < |cfg.shutdownRecovers| then p.(at := Launch(i), tasks := [])
    else if cfg.exitProcess then
      p.(completed := true, at := Flushing(ExitStatus(cfg, p.failed)))
    else p.(completed := true, at := Ended(true), settled := true)
  }

  /** CoordinatedShutdown.onRunHalted: the pipeline's part. */
  function Halted(cfg: Config, p: Pipeline): Pipeline {
    if cfg.exitProcess then p.(halted := true, at := Flushing(ExitStatus(cfg, true)))
    else p.(halted := true, at := Ended(false), settled := true)
  }

  /** Unless the process exits, a run whose trigger told the node to go stands in for the terminator. */
  function RunHalted(cfg: Config, n: Node): Node {
    var m := n.(run := Halted(cfg, n.run));
    if !cfg.exitProcess && n.run.told && cfg.terminates then TornDown(cfg, m) else m
  }

  /** A phase of the startup is over: fail, or go on to the next one. */
  function StartupPhaseLeft(cfg: Config, n: Node, builds: bool): Node
    requires n.up.at.Waiting?
  {
    if n.up.broken && !n.up.abandoned then EndedWithFailure(cfg, n, builds)
    else n.(up := AtStartupPhase(cfg, n.up.(past := n.up.past + [n.up.tasks]), n.run.begun, n.up.at.i + 1))
  }

  /** CoordinatedShutdown._run up to its first phase; a sort that fails ends the run there. */
  function RunBegun(cfg: Config, p: Pipeline): Pipeline {
    var q := p.(begun := true, walks := p.walks + 1);
    if cfg.sorts then AtShutdownPhase(cfg, q, 0) else q.(at := Ended(false), settled := true)
  }

  function ShutdownPhaseLeft(cfg: Config, p: Pipeline): Pipeline
    requires p.at.Wait?
  {
    AtShutdownPhase(cfg, p.(past := p.past + [p.tasks]), p.at.i + 1)
  }

  function ShutdownTaskLaunched(cfg: Config, n: Node, terminator: bool): Node {
    var m := n.(run := n.run.(tasks := n.run.tasks + [None]));
    if terminator then TornDown(cfg, m) else m
  }

  /** A teardown that waited for the run takes its turn. */
  function Reacted(cfg: Config, n: Node): Node
    requires n.run.reactions > 0
  {
    TornDown(cfg, n.(run := n.run.(reactions := n.run.reactions - 1)))
  }

  // ---- Steps ----

  datatype Step =
    // Calls from outside, from a task, or from an abort listener.
    | CallTerminate(choice: Option<bool>, reason: Reason, builds: bool)
    | CallRun(reason: Reason)
    | Signal
    | CallAbandon
    // The startup graph.
    | Start
    | FirstPhase
    | LaunchStartupTask
    | AllLaunched
    | StartupTaskSettles(j: nat, ok: bool)
    | StartupTaskHandled(j: nat)
    | StartupPhaseOver(builds: bool)
    | StartupRunnerFails(builds: bool)
    // The pipeline.
    | RunBegins
    | LaunchShutdownTask(terminator: bool)
    | AllShutdownLaunched
    | ShutdownTaskEnds(j: nat, ok: bool)
    | ShutdownPhaseOver
    | ShutdownPhaseHalts
    | Exits
    | RunPromiseSettles
    | TeardownReaction
    // The teardown.
    | DrainOver
    | RootTerminated

  predicate HasTasks(cfg: Config) {
    exists i :: 0 <= i < |cfg.startup| && cfg.startup[i].tasks > 0
  }

  predicate AllEnded(tasks: seq<Option<bool>>) { forall j :: 0 <= j < |tasks| ==> tasks[j].Some? }
  predicate AllOk(tasks: seq<Option<bool>>) { forall j :: 0 <= j < |tasks| ==> tasks[j] == Some(true) }

  predicate Enabled(cfg: Config, n: Node, step: Step) {
    n.exited.None? &&
    match step
    // A run there is means that the extension was built.
    case CallTerminate(_, _, builds) => n.run.promise.Some? ==> builds
    case CallRun(_) => true
    case Signal => true
    case CallAbandon => true
    // `create` calls `_start` once; no abort listener can be on the stack then.
    case Start => !n.up.sealed && !n.run.at.Opening?
    case FirstPhase => n.up.at.Starting?
    case LaunchStartupTask => n.up.at.Launching? && n.up.at.i < |cfg.startup| && |n.up.tasks| < cfg.startup[n.up.at.i].tasks
    case AllLaunched => n.up.at.Launching? && n.up.at.i < |cfg.startup| && |n.up.tasks| == cfg.startup[n.up.at.i].tasks
    case StartupTaskSettles(j, _) => j < |n.up.tasks| && n.up.tasks[j].Running?
    case StartupTaskHandled(j) => n.up.at.Waiting? && j < |n.up.tasks| && n.up.tasks[j].Settled?
    case StartupPhaseOver(builds) => n.up.at.Waiting? && (n.run.promise.Some? ==> builds) &&
      forall j :: 0 <= j < |n.up.tasks| ==> n.up.tasks[j].Handled?
    case StartupRunnerFails(builds) =>
      (n.up.at.Starting? || n.up.at.Launching? || n.up.at.Waiting?) && (n.run.promise.Some? ==> builds)
    case RunBegins => n.run.at.Opening?
    case LaunchShutdownTask(terminator) =>
      n.run.at.Launch? && (terminator ==> cfg.terminatorPhase == Some(n.run.at.i))
    // The terminator is one of the tasks of its phase, and begins the teardown as it is launched.
    case AllShutdownLaunched => n.run.at.Launch? && (cfg.terminatorPhase == Some(n.run.at.i) ==> n.terminating)
    case ShutdownTaskEnds(j, _) => j < |n.run.tasks| && n.run.tasks[j].None?
    case ShutdownPhaseOver => n.run.at.Wait? && n.run.at.i < |cfg.shutdownRecovers| &&
      if cfg.shutdownRecovers[n.run.at.i] then AllEnded(n.run.tasks) else AllOk(n.run.tasks)
    case ShutdownPhaseHalts => n.run.at.Wait? && n.run.at.i < |cfg.shutdownRecovers| &&
      !cfg.shutdownRecovers[n.run.at.i] && exists j :: 0 <= j < |n.run.tasks| && n.run.tasks[j] == Some(false)
    case Exits => n.run.at.Flushing?
    case RunPromiseSettles => n.run.at.Ended? && n.run.promise == Some(Pending)
    case TeardownReaction => n.run.promise.Some? && !n.run.promise.value.Pending? && n.run.reactions > 0
    case DrainOver => n.draining
    case RootTerminated => n.cascades > 0 && !n.terminated
  }

  /** In a phase that does not recover, the first failure stops the run and aborts the other tasks. */
  function TaskHandled(cfg: Config, s: Startup, j: nat): Startup
    requires s.at.Waiting? && j < |s.tasks| && s.tasks[j].Settled?
  {
    var ok := s.tasks[j].ok;
    var seen := s.(tasks := s.tasks[j := Handled(ok)]);
    if ok || s.abandoned || s.broken || (s.at.i < |cfg.startup| && cfg.startup[s.at.i].recover) then seen
    else seen.(broken := true, tasks := Aborted(seen.tasks))
  }

  function After(cfg: Config, n: Node, step: Step): Node
    requires Enabled(cfg, n, step)
  {
    match step
    case CallTerminate(choice, reason, builds) => Terminated(cfg, n, choice, reason, builds).(asked := true)
    case CallRun(reason) => RunOpened(n, reason)
    case Signal => if n.run.promise.Some? then n else RunOpened(n, ProcessTerminate)
    case CallAbandon => n.(up := Abandoned(n.up))
    case Start =>
      if HasTasks(cfg) then n.(up := n.up.(sealed := true, running := true, at := Starting))
      else n.(up := n.up.(sealed := true, completed := true, readiness := Settle(n.up.readiness, Resolved)))
    case FirstPhase => n.(up := AtStartupPhase(cfg, n.up, n.run.begun, 0))
    case LaunchStartupTask => n.(up := n.up.(tasks := n.up.tasks + [Running]))
    case AllLaunched => n.(up := n.up.(at := Waiting(n.up.at.i)))
    case StartupTaskSettles(j, ok) => n.(up := n.up.(tasks := n.up.tasks[j := Settled(ok)]))
    case StartupTaskHandled(j) => n.(up := TaskHandled(cfg, n.up, j))
    case StartupPhaseOver(builds) => StartupPhaseLeft(cfg, n, builds)
    case StartupRunnerFails(builds) => EndedWithFailure(cfg, n, builds)
    case RunBegins => n.(run := RunBegun(cfg, n.run))
    case LaunchShutdownTask(terminator) => ShutdownTaskLaunched(cfg, n, terminator)
    case AllShutdownLaunched => n.(run := n.run.(at := Wait(n.run.at.i)))
    case ShutdownTaskEnds(j, ok) => n.(run := n.run.(tasks := n.run.tasks[j := Some(ok)]))
    case ShutdownPhaseOver => n.(run := ShutdownPhaseLeft(cfg, n.run))
    case ShutdownPhaseHalts => RunHalted(cfg, n)
    case Exits => n.(exited := Some(n.run.at.status))
    case RunPromiseSettles => n.(run := n.run.(promise := Some(if n.run.at.ok then Resolved else Rejected)))
    case TeardownReaction => Reacted(cfg, n)
    case DrainOver => n.(draining := false, cascades := n.cascades + 1)
    case RootTerminated => n.(terminated := true)
  }

  predicate Legal(cfg: Config, n: Node, steps: seq<Step>)
    decreases |steps|
  {
    steps == [] || (Enabled(cfg, n, steps[0]) && Legal(cfg, After(cfg, n, steps[0]), steps[1..]))
  }

  function Final(cfg: Config, n: Node, steps: seq<Step>): Node
    requires Legal(cfg, n, steps)
    decreases |steps|
  {
    if steps == [] then n else Final(cfg, After(cfg, n, steps[0]), steps[1..])
  }
}
