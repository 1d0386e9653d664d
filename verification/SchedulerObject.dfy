/**
 The scheduler as the object holds it, with the host's timer table beside it: a plain host timer
 where the delay fits one, a chain of links where it does not.
 */
module SchedulerObjects {
  import opened Options
  import opened HostTimers
  import opened Schedulers
  import opened SchedulerTheorems

  class Scheduler {
    var armed: map<nat, Timer>
    var next: nat
    var plans: seq<Plan>
    var schedules: seq<Schedule>
    var live: set<nat>
    var cancelled: bool
    var trace: seq<Entry>

    function View(): State
      reads this
    {
      State(armed, next, plans, schedules, live, cancelled, trace)
    }

    /** Some run of the state machine leads to this scheduler. */
    ghost predicate Valid()
      reads this
    {
      Reachable(View())
    }

    constructor ()
      ensures Valid() && View() == IDLE
    {
      armed, next, plans, schedules, live, cancelled, trace := map[], 0, [], [], {}, false, [];
      new;
      IdleIsReachable();
    }

    method Track(plan: Plan) returns (i: nat)
      modifies this
      ensures i == |old(schedules)| && View() == old(View()).(plans := old(plans) + [plan],
        schedules := old(schedules) + [Schedule(false, None, None, 0, [], 0)], live := old(live) + {i})
    {
      i := |schedules|;
      plans := plans + [plan];
      schedules := schedules + [Schedule(false, None, None, 0, [], 0)];
      live := live + {i};
    }

    /** `ChainedTimeout.armNextLink`, for the chain of schedule `i`. */
    method ArmNextLink(i: nat, ms: int)
      requires i < |schedules|
      modifies this
      ensures View() == LinkArmed(old(View()), i, ms)
    {
      var link := if ms < MAX_TIMER_DELAY_MS then ms else MAX_TIMER_DELAY_MS;
      SetTimeout(i, link, ms - link);
    }

    method SetTimeout(i: nat, ms: int, remaining: int)
      requires i < |schedules|
      modifies this
      ensures View() == old(View()).(armed := old(armed)[old(next) := Timer(i, Timeout, ms)], next := old(next) + 1,
        schedules := old(schedules)[i := old(schedules)[i].(timeout := Some(old(next)), remaining := remaining)])
    {
      armed := armed[next := Timer(i, Timeout, ms)];
      schedules := schedules[i := schedules[i].(timeout := Some(next), remaining := remaining)];
      next := next + 1;
    }

    /** One host timer where the delay fits it, a chain where it does not: the same schedule either way. */
    method OneShot(delay: int) returns (i: nat)
      modifies this
      ensures View() == Submitted(old(View()), Plan(delay, None)) && i == |old(schedules)|
      ensures plans == old(plans) + [Plan(delay, None)]
      ensures armed == old(armed)[old(next) := Timer(i, Timeout, if delay <= MAX_TIMER_DELAY_MS then delay else MAX_TIMER_DELAY_MS)]
    {
      i := Track(Plan(delay, None));
      if delay > MAX_TIMER_DELAY_MS {
        ArmNextLink(i, delay);
      } else {
        SetTimeout(i, delay, 0);
      }
    }

    method FixedRate(delay: int, interval: int) returns (i: nat)
      modifies this
      ensures View() == Submitted(old(View()), Plan(delay, Some(interval))) && i == |old(schedules)|
      ensures plans == old(plans) + [Plan(delay, Some(interval))]
      ensures armed == old(armed)[old(next) := Timer(i, Timeout, if delay <= MAX_TIMER_DELAY_MS then delay else MAX_TIMER_DELAY_MS)]
    {
      i := Track(Plan(delay, Some(interval)));
      if delay > MAX_TIMER_DELAY_MS || interval > MAX_TIMER_DELAY_MS {
        ArmNextLink(i, delay);
      } else {
        SetTimeout(i, delay, 0);
      }
    }

    method CancelSchedule(i: nat) returns (did: bool)
      requires i < |schedules|
      modifies this
      ensures View() == AfterCancel(old(View()), i) && did == !old(schedules)[i].settled
    {
      var sch := schedules[i];
      if sch.settled {
        return false;
      }
      live := live - {i};
      if sch.timeout.Some? {
        armed := armed - {sch.timeout.value};
      }
      if sch.repeat.Some? {
        armed := armed - {sch.repeat.value};
      }
      schedules := schedules[i := sch.(settled := true, timeout := None, repeat := None)];
      trace := trace + [Cancelled(i)];
      assert armed == old(armed) - HandlesOf(sch);
      return true;
    }

    method ShutDown()
      modifies this
      ensures View() == AfterShutdown(old(View()))
    {
      cancelled := true;
      ghost var start := View();
      var i := 0;
      while i < |schedules|
        invariant i <= |schedules| && AfterCancelFrom(View(), i) == AfterCancelFrom(start, 0)
      {
        if i in live {
          var _ := CancelSchedule(i);
        }
        i := i + 1;
      }
      live := {};
      trace := trace + [Down];
    }

    /** The code of a schedule, as the calls it makes. */
    method RunCode(i: nat, links: seq<int>, actions: seq<Action>)
      requires i < |schedules|
      modifies this
      ensures View() == AfterActions(Noted(old(View()), i, links), actions)
    {
      trace := trace + [Ran(i, links)];
      schedules := schedules[i := schedules[i].(links := [], runs := schedules[i].runs + 1)];
      ghost var start := View();
      var k := 0;
      while k < |actions|
        invariant k <= |actions| && AfterActions(View(), actions[k..]) == AfterActions(start, actions)
      {
        Perform(actions[k]);
        assert actions[k..][1..] == actions[k + 1..];
        k := k + 1;
      }
    }

    method Perform(action: Action)
      modifies this
      ensures View() == AfterAction(old(View()), action)
    {
      match action {
        case Submit(plan) =>
          var _ := SchedulePlan(plan);
        case Cancel(i) =>
          if i < |schedules| {
            var _ := CancelSchedule(i);
          }
        case Shutdown =>
          ShutDown();
      }
    }

    method SchedulePlan(plan: Plan) returns (i: nat)
      modifies this
      ensures View() == Submitted(old(View()), plan) && i == |old(schedules)|
    {
      match plan.interval {
        case None => i := OneShot(plan.delay);
        case Some(interval) => i := FixedRate(plan.delay, interval);
      }
    }

    /** A timer of the table fires. */
    method OnTimer(h: nat, actions: seq<Action>)
      requires Wellformed(View()) && h in armed && armed[h].owner < |schedules|
      modifies this
      ensures View() == Fired(old(View()), h, actions)
    {
      var t := armed[h];
      var i := t.owner;
      if t.role.Interval? {
        if !schedules[i].settled && !cancelled {
          RunCode(i, schedules[i].links + [t.length], actions);
        }
        return;
      }
      armed := armed - {h};
      schedules := schedules[i := schedules[i].(timeout := None, links := schedules[i].links + [t.length])];
      assert View() == Elapsed(old(View()), h);
      if schedules[i].remaining > 0 {
        ArmNextLink(i, schedules[i].remaining);
      } else if plans[i].interval.None? {
        OnOneShotDue(i, actions);
      } else {
        OnTickDue(i, actions);
      }
    }

    /** Settle before running: the code may itself schedule, cancel or shut down. */
    method OnOneShotDue(i: nat, actions: seq<Action>)
      requires i < |schedules|
      modifies this
      ensures View() == OneShotDue(old(View()), i, actions)
    {
      live := live - {i};
      schedules := schedules[i := schedules[i].(settled := true)];
      if !cancelled {
        RunCode(i, schedules[i].links, actions);
      }
    }

    /** Check again after running: the code may have ended its own schedule. */
    method OnTickDue(i: nat, actions: seq<Action>)
      requires Wellformed(View()) && i < |schedules| && plans[i].interval.Some?
      modifies this
      ensures View() == TickDue(old(View()), i, actions)
    {
      if schedules[i].settled || cancelled {
        return;
      }
      var ms := plans[i].interval.value;
      RunCode(i, schedules[i].links, actions);
      if schedules[i].settled || cancelled {
        return;
      }
      if ms > MAX_TIMER_DELAY_MS {
        ArmNextLink(i, ms);
      } else {
        armed := armed[next := Timer(i, Interval, ms)];
        schedules := schedules[i := schedules[i].(repeat := Some(next))];
        next := next + 1;
      }
    }

    /**
     A call from outside, or a timer that fires, on the object.  Whatever came before it, every armed
     timer belongs to a live schedule and fits the host, and a schedule that was settled has none.
     */
    method TakeStep(step: Step)
      requires Valid() && Enabled(View(), step)
      modifies this
      ensures Valid() && View() == After(old(View()), step)
      ensures forall h :: h in armed ==> armed[h].owner in live && armed[h].length <= MAX_TIMER_DELAY_MS
      ensures forall i, h :: 0 <= i < |old(schedules)| && old(schedules)[i].settled && h in armed ==> armed[h].owner != i
    {
      ghost var before := View();
      match step {
        case Call(action) =>
          Perform(action);
        case Fire(h, actions) =>
          OnTimer(h, actions);
      }
      StepPromises(before, step);
    }
  }
}
