/**
 The scheduler over an explicit table of host timers (src/Scheduler.ts).

 A delay that fits one host timer is armed as it is, a longer one as a chain of links; a chain of
 one link and a plain timer are the same table entry.  Host timers fire in any order, and the code
 a schedule runs may schedule, cancel and shut down, itself included.
 */
module Schedulers {
  import opened Options
  import opened HostTimers

  datatype Role = Timeout | Interval

  /** An armed host timer; `length` is what the host was asked to wait. */
  datatype Timer = Timer(owner: nat, role: Role, length: int)

  /** What the caller asked for; no interval for a one-shot. */
  datatype Plan = Plan(delay: int, interval: Option<int>)

  /** A cancellable with the handles its closures hold. */
  datatype Schedule = Schedule(
    settled: bool,
    timeout: Option<nat>,
    repeat: Option<nat>,
    remaining: int,                     // of the chain, behind the armed link
    links: seq<int>,                    // what the host timers waited since the last run
    runs: nat)

  datatype Entry = Ran(i: nat, links: seq<int>) | Cancelled(i: nat) | Down

  datatype State = State(
    armed: map<nat, Timer>,
    next: nat,                          // the next handle
    plans: seq<Plan>,
    schedules: seq<Schedule>,
    live: set<nat>,
    cancelled: bool,
    trace: seq<Entry>)

  const IDLE := State(map[], 0, [], [], {}, false, [])

  /** What a caller, or the code of a schedule, may ask for. */
  datatype Action = Submit(plan: Plan) | Cancel(i: nat) | Shutdown

  /** A call from outside, or an armed timer that fires and whose schedule, if it runs, does `actions`. */
  datatype Step = Call(action: Action) | Fire(h: nat, actions: seq<Action>)

  predicate Wellformed(s: State) { |s.plans| == |s.schedules| }

  /** Arm the next link of schedule `i`, with `ms` to go. */
  function LinkArmed(s: State, i: nat, ms: int): State
    requires i < |s.schedules|
  {
    s.(armed := s.armed[s.next := Timer(i, Timeout, Link(ms))], next := s.next + 1,
       schedules := s.schedules[i := s.schedules[i].(timeout := Some(s.next), remaining := ms - Link(ms))])
  }

  function IntervalArmed(s: State, i: nat, ms: int): State
    requires i < |s.schedules|
  {
    s.(armed := s.armed[s.next := Timer(i, Interval, ms)], next := s.next + 1,
       schedules := s.schedules[i := s.schedules[i].(repeat := Some(s.next))])
  }

  /** oneShot, fixedRate and their chained forms. */
  function Submitted(s: State, plan: Plan): State {
    var i := |s.schedules|;
    LinkArmed(s.(plans := s.plans + [plan], schedules := s.schedules + [Schedule(false, None, None, 0, [], 0)], live := s.live + {i}),
              i, plan.delay)
  }

  function HandlesOf(sch: Schedule): set<nat> {
    (if sch.timeout.Some? then {sch.timeout.value} else {}) + (if sch.repeat.Some? then {sch.repeat.value} else {})
  }

  /** SimpleCancellable.cancel, with the closure `track` gave it. */
  function AfterCancel(s: State, i: nat): State {
    if i >= |s.schedules| || s.schedules[i].settled then s
    else
      s.(armed := s.armed - HandlesOf(s.schedules[i]), live := s.live - {i}, trace := s.trace + [Cancelled(i)],
         schedules := s.schedules[i := s.schedules[i].(settled := true, timeout := None, repeat := None)])
  }

  /** Cancel every live schedule from `i` on, in the order they were made. */
  function AfterCancelFrom(s: State, i: nat): (r: State)
    ensures |r.schedules| == |s.schedules| && r.plans == s.plans
    decreases |s.schedules| - i
  {
    if i >= |s.schedules| then s
    else AfterCancelFrom(if i in s.live then AfterCancel(s, i) else s, i + 1)
  }

  function AfterShutdown(s: State): State {
    var r := AfterCancelFrom(s.(cancelled := true), 0);
    r.(live := {}, trace := r.trace + [Down])
  }

  function AfterAction(s: State, action: Action): State {
    match action
    case Submit(plan) => Submitted(s, plan)
    case Cancel(i) => AfterCancel(s, i)
    case Shutdown => AfterShutdown(s)
  }

  function AfterActions(s: State, actions: seq<Action>): (r: State)
    ensures Wellformed(s) ==> Wellformed(r) && |s.plans| <= |r.plans| && r.plans[..|s.plans|] == s.plans
    decreases |actions|
  {
    if actions == [] then s else AfterActions(AfterAction(s, actions[0]), actions[1..])
  }

  function Noted(s: State, i: nat, links: seq<int>): State
    requires i < |s.schedules|
  {
    s.(trace := s.trace + [Ran(i, links)],
       schedules := s.schedules[i := s.schedules[i].(links := [], runs := s.schedules[i].runs + 1)])
  }

  /** The host took the timer out of its table, and the closure forgot it. */
  function Elapsed(s: State, h: nat): State
    requires h in s.armed && s.armed[h].owner < |s.schedules|
  {
    var t := s.armed[h];
    s.(armed := s.armed - {h}, schedules := s.schedules[t.owner := s.schedules[t.owner].(
         timeout := None, links := s.schedules[t.owner].links + [t.length])])
  }

  function Settled(s: State, i: nat): State
    requires i < |s.schedules|
  {
    s.(live := s.live - {i}, schedules := s.schedules[i := s.schedules[i].(settled := true)])
  }

  /** A one-shot has waited its delay. */
  function OneShotDue(s: State, i: nat, actions: seq<Action>): State
    requires i < |s.schedules|
  {
    var r := Settled(s, i);
    if s.cancelled then r else AfterActions(Noted(r, i, r.schedules[i].links), actions)
  }

  /** A repeating schedule has waited; it arms what comes next only if its own run left it alone. */
  function TickDue(s: State, i: nat, actions: seq<Action>): State
    requires Wellformed(s) && i < |s.schedules| && s.plans[i].interval.Some?
  {
    if s.schedules[i].settled || s.cancelled then s
    else
      var r := AfterActions(Noted(s, i, s.schedules[i].links), actions);
      var ms := s.plans[i].interval.value;
      if r.schedules[i].settled || r.cancelled then r
      else if ms > MAX_TIMER_DELAY_MS then LinkArmed(r, i, ms)
      else IntervalArmed(r, i, ms)
  }

  /** The host's own repeat has waited `ms` once more. */
  function IntervalDue(s: State, i: nat, ms: int, actions: seq<Action>): State
    requires i < |s.schedules|
  {
    if s.schedules[i].settled || s.cancelled then s
    else AfterActions(Noted(s, i, s.schedules[i].links + [ms]), actions)
  }

  function Fired(s: State, h: nat, actions: seq<Action>): State
    requires Wellformed(s) && h in s.armed && s.armed[h].owner < |s.schedules|
  {
    var i := s.armed[h].owner;
    if s.armed[h].role.Interval? then IntervalDue(s, i, s.armed[h].length, actions)
    else
      var e := Elapsed(s, h);
      if e.schedules[i].remaining > 0 then LinkArmed(e, i, e.schedules[i].remaining)
      else if e.plans[i].interval.None? then OneShotDue(e, i, actions)
      else TickDue(e, i, actions)
  }

  predicate Enabled(s: State, step: Step) {
    Wellformed(s) && (step.Fire? ==> step.h in s.armed && s.armed[step.h].owner < |s.schedules|)
  }

  function After(s: State, step: Step): State
    requires Enabled(s, step)
  {
    match step
    case Call(action) => AfterAction(s, action)
    case Fire(h, actions) => Fired(s, h, actions)
  }

  predicate Legal(s: State, steps: seq<Step>)
    decreases |steps|
  {
    steps == [] || (Enabled(s, steps[0]) && Legal(After(s, steps[0]), steps[1..]))
  }

  function Final(s: State, steps: seq<Step>): State
    requires Legal(s, steps)
    decreases |steps|
  {
    if steps == [] then s else Final(After(s, steps[0]), steps[1..])
  }
}
