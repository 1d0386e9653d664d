/**
 What the calls themselves fix about the scheduler: the plans it holds are the ones it was asked
 for, each call arms or clears exactly its own timers, and a timer runs code exactly when it is due.
 */
module SchedulerRuns {
  import opened Options
  import opened HostTimers
  import opened Schedulers
  import opened SchedulerTheorems
  import ChainedTimeouts

  // ---- Which plans were asked for ----

  /** The plans of the `Submit` actions, in order. */
  function PlansIn(actions: seq<Action>): seq<Plan> {
    if actions == [] then []
    else (if actions[0].Submit? then [actions[0].plan] else []) + PlansIn(actions[1..])
  }

  /** What a step asks for: a call's own plan, or those of the code it runs. */
  function AskedBy(s: State, step: Step): seq<Plan>
    requires Enabled(s, step)
  {
    match step
    case Call(action) => PlansIn([action])
    case Fire(h, actions) => if RunsCode(s, h) then PlansIn(actions) else []
  }

  function Asked(s: State, steps: seq<Step>): seq<Plan>
    requires Legal(s, steps)
    decreases |steps|
  {
    if steps == [] then [] else AskedBy(s, steps[0]) + Asked(After(s, steps[0]), steps[1..])
  }

  lemma ActionAsks(s: State, action: Action)
    ensures AfterAction(s, action).plans == s.plans + PlansIn([action])
  {
    assert [action][1..] == [];
  }

  lemma PlansInJoined(action: Action, actions: seq<Action>)
    ensures PlansIn([action] + actions) == PlansIn([action]) + PlansIn(actions)
  {
    assert ([action] + actions)[1..] == actions && [action][1..] == [];
  }

  lemma Regrouped(a: seq<Plan>, b: seq<Plan>, c: seq<Plan>)
    ensures (a + b) + c == a + (b + c)
  {
  }

  lemma {:induction false} PlansAfterActions(s: State, actions: seq<Action>)
    ensures AfterActions(s, actions).plans == s.plans + PlansIn(actions)
    decreases |actions|
  {
    if actions == [] {
    } else {
      var rest := actions[1..];
      assert actions == [actions[0]] + rest;
      ActionAsks(s, actions[0]);
      PlansAfterActions(AfterAction(s, actions[0]), rest);
      PlansInJoined(actions[0], rest);
      Regrouped(s.plans, PlansIn([actions[0]]), PlansIn(rest));
    }
  }

  /** The schedule that owns an armed timer of a reachable table has not been settled. */
  lemma OwnerUnsettled(s: State, h: nat)
    requires Inv(s, {}) && h in s.armed
    ensures s.armed[h].owner < |s.schedules| && !s.schedules[s.armed[h].owner].settled
  {
    assert TimerOk(s, h);
  }

  lemma NextIsFree(s: State)
    requires Inv(s, {})
    ensures s.next !in s.armed
  {
    assert forall h :: h in s.armed ==> h < s.next;
  }

  /** The code a firing runs, and what it is given to run on. */
  ghost predicate Runs(s: State, r: State, i: nat, actions: seq<Action>) {
    exists n: State, links :: i < |n.schedules| && n.plans == s.plans && n.trace == s.trace
      && RanThen(n, i, links, actions, r)
  }

  /** After the run of schedule `i` and its actions at most a timer of its own is armed. */
  ghost predicate RanThen(n: State, i: nat, links: seq<int>, actions: seq<Action>, r: State)
    requires i < |n.schedules|
  {
    var m := AfterActions(Noted(n, i, links), actions);
    r.plans == m.plans && r.trace == m.trace
  }

  lemma RunExtends(s: State, r: State, i: nat, actions: seq<Action>)
    requires Runs(s, r, i, actions)
    ensures r.plans == s.plans + PlansIn(actions)
    ensures s.trace < r.trace && r.trace[|s.trace|].Ran? && r.trace[|s.trace|].i == i
  {
    var n: State, links :| i < |n.schedules| && n.plans == s.plans && n.trace == s.trace && RanThen(n, i, links, actions, r);
    PlansAfterActions(Noted(n, i, links), actions);
    ActionsExtendTrace(Noted(n, i, links), actions);
  }

  lemma {:induction false} ActionsExtendTrace(s: State, actions: seq<Action>)
    ensures s.trace <= AfterActions(s, actions).trace
    decreases |actions|
  {
    if actions == [] {
    } else {
      if actions[0].Shutdown? {
        CancelFromSpares(s.(cancelled := true), 0);
      }
      ActionsExtendTrace(AfterAction(s, actions[0]), actions[1..]);
    }
  }

  lemma FiredRuns(s: State, h: nat, actions: seq<Action>)
    requires Inv(s, {}) && Enabled(s, Fire(h, actions)) && RunsCode(s, h)
    ensures Runs(s, Fired(s, h, actions), s.armed[h].owner, actions)
  {
    OwnerUnsettled(s, h);
    if s.armed[h].role.Interval? {
      IntervalRuns(s, h, actions);
    } else {
      TimeoutRuns(s, h, actions);
    }
  }

  lemma IntervalRuns(s: State, h: nat, actions: seq<Action>)
    requires Enabled(s, Fire(h, actions)) && s.armed[h].role.Interval? && !s.cancelled
    requires !s.schedules[s.armed[h].owner].settled
    ensures Runs(s, Fired(s, h, actions), s.armed[h].owner, actions)
  {
    var i := s.armed[h].owner;
    assert RanThen(s, i, s.schedules[i].links + [s.armed[h].length], actions, Fired(s, h, actions));
  }

  lemma TimeoutRuns(s: State, h: nat, actions: seq<Action>)
    requires Enabled(s, Fire(h, actions)) && s.armed[h].role.Timeout? && !s.cancelled
    requires !s.schedules[s.armed[h].owner].settled && s.schedules[s.armed[h].owner].remaining <= 0
    ensures Runs(s, Fired(s, h, actions), s.armed[h].owner, actions)
  {
    var i := s.armed[h].owner;
    var e := Elapsed(s, h);
    if e.plans[i].interval.None? {
      assert Fired(s, h, actions) == OneShotDue(e, i, actions);
      assert RanThen(Settled(e, i), i, e.schedules[i].links, actions, Fired(s, h, actions));
    } else {
      assert Fired(s, h, actions) == TickDue(e, i, actions);
      assert RanThen(e, i, e.schedules[i].links, actions, Fired(s, h, actions));
    }
  }

  lemma FiredRunsNothing(s: State, h: nat, actions: seq<Action>)
    requires Inv(s, {}) && Enabled(s, Fire(h, actions)) && !RunsCode(s, h)
    ensures Fired(s, h, actions).plans == s.plans && Fired(s, h, actions).trace == s.trace
  {
  }

  lemma StepAsks(s: State, step: Step)
    requires Inv(s, {}) && Enabled(s, step)
    ensures After(s, step).plans == s.plans + AskedBy(s, step)
  {
    match step
    case Call(action) =>
      ActionAsks(s, action);
    case Fire(h, actions) =>
      if RunsCode(s, h) {
        FiredRuns(s, h, actions);
        RunExtends(s, Fired(s, h, actions), s.armed[h].owner, actions);
      } else {
        FiredRunsNothing(s, h, actions);
      }
  }

  /** In every run the plans held are those of its `Submit` actions, those made inside ticks included, in order. */
  lemma {:induction false} PlansAreWhatWasAsked(s: State, steps: seq<Step>)
    requires Inv(s, {}) && Legal(s, steps)
    ensures Final(s, steps).plans == s.plans + Asked(s, steps)
    decreases |steps|
  {
    if steps == [] {
    } else {
      var m := After(s, steps[0]);
      StepKeeps(s, steps[0]);
      StepAsks(s, steps[0]);
      PlansAreWhatWasAsked(m, steps[1..]);
      Regrouped(s.plans, AskedBy(s, steps[0]), Asked(m, steps[1..]));
    }
  }

  /**
   Each run of a schedule comes after exactly the host timers that make up the delay it was submitted
   with, or the interval after its first run; none of them is longer than the host holds, and a
   one-shot runs once.
   */
  lemma EveryRunIsOnTime(steps: seq<Step>, k: nat)
    requires Legal(IDLE, steps) && k < |Final(IDLE, steps).trace| && Final(IDLE, steps).trace[k].Ran?
    ensures var trace := Final(IDLE, steps).trace;
      var i := trace[k].i;
      i < |Asked(IDLE, steps)| &&
      var plan := Asked(IDLE, steps)[i];
      var due := if RunsIn(trace[..k], i) == 0 || plan.interval.None? then plan.delay else plan.interval.value;
      && trace[k].links == ChainedTimeouts.Links(due) && ChainedTimeouts.Sum(trace[k].links) == due
      && (forall m :: 0 <= m < |trace[k].links| ==> trace[k].links[m] <= MAX_TIMER_DELAY_MS)
      && (plan.interval.None? ==> RunsIn(trace[..k], i) == 0)
  {
    PlansFromIdle(steps);
    RunFollowsItsPlan(Final(IDLE, steps), k);
  }

  lemma PlansFromIdle(steps: seq<Step>)
    requires Legal(IDLE, steps)
    ensures Reachable(Final(IDLE, steps)) && Final(IDLE, steps).plans == Asked(IDLE, steps)
  {
    PlansAreWhatWasAsked(IDLE, steps);
    assert IDLE.plans == [];
  }

  // ---- What one call does ----

  /** The timers of `r` are those of `s`, but for the timers of schedule `i`. */
  ghost predicate OnlyTimersOf(s: State, r: State, i: nat) {
    && (forall h :: h in s.armed && s.armed[h].owner != i ==> h in r.armed && r.armed[h] == s.armed[h])
    && (forall h :: h in r.armed && r.armed[h].owner != i ==> h in s.armed && r.armed[h] == s.armed[h])
  }

  /**
   A call that schedules arms one timer, for the new schedule, of its delay or of as much as the
   host holds, and disturbs nothing else.
   */
  lemma SubmitArms(s: State, plan: Plan)
    requires Reachable(s) && Enabled(s, Call(Submit(plan)))
    ensures var r := After(s, Call(Submit(plan)));
      var i := |s.schedules|;
      && r.plans == s.plans + [plan] && r.trace == s.trace && r.cancelled == s.cancelled
      && r.live == s.live + {i} && i !in s.live && |r.schedules| == i + 1 && r.schedules[..i] == s.schedules
      && r.schedules[i].runs == 0 && !r.schedules[i].settled
      && OnlyTimersOf(s, r, i) && s.next !in s.armed
      && s.next in r.armed && r.armed[s.next].owner == i && r.armed[s.next].role == Timeout
      && r.armed[s.next].length == (if plan.delay <= MAX_TIMER_DELAY_MS then plan.delay else MAX_TIMER_DELAY_MS)
      && r.armed.Keys == s.armed.Keys + {s.next}
  {
    ReachableKeeps(s);
    NextIsFree(s);
    forall h | h in s.armed ensures s.armed[h].owner != |s.schedules| {
      assert TimerOk(s, h);
    }
  }

  /** Cancelling a schedule that is over, or that was never made, changes nothing. */
  lemma CancelAgain(s: State, i: nat)
    requires Enabled(s, Call(Cancel(i))) && (i >= |s.schedules| || s.schedules[i].settled)
    ensures After(s, Call(Cancel(i))) == s
  {
  }

  /** A cancel clears its schedule's timers and no others, and that schedule never runs again. */
  lemma CancelEnds(s: State, i: nat, steps: seq<Step>, k: nat)
    requires Reachable(s) && i < |s.schedules| && !s.schedules[i].settled
    requires Enabled(s, Call(Cancel(i))) && Legal(After(s, Call(Cancel(i))), steps)
    ensures var r := After(s, Call(Cancel(i)));
      && r.trace == s.trace + [Cancelled(i)] && r.plans == s.plans && r.cancelled == s.cancelled
      && r.live == s.live - {i} && |r.schedules| == |s.schedules|
      && (forall j :: 0 <= j < |s.schedules| && j != i ==> r.schedules[j] == s.schedules[j])
      && OnlyTimersOf(s, r, i) && (forall h :: h in r.armed ==> r.armed[h].owner != i)
      && var f := Final(r, steps);
        && (forall h :: h in f.armed ==> f.armed[h].owner != i)
        && (|r.trace| <= k < |f.trace| ==> !(f.trace[k].Ran? && f.trace[k].i == i))
  {
    ReachableKeeps(s);
    var r := After(s, Call(Cancel(i)));
    ReachableStep(s, Call(Cancel(i)));
    SettledForGood(r, i, steps, k);
    SettledForGood(r, i, [], k);
    OwnHandlesOnly(s, i);
  }

  lemma OwnHandlesOnly(s: State, i: nat)
    requires Inv(s, {}) && i < |s.schedules|
    ensures forall h :: h in s.armed && h in HandlesOf(s.schedules[i]) ==> s.armed[h].owner == i
  {
    assert ScheduleOk(s.armed, s.plans[i], s.schedules[i], i, s.cancelled || i in {});
  }

  /**
   A timer that fires runs its schedule's code, as the first thing it does, exactly when the scheduler
   is up and nothing is left of the chain; otherwise nothing runs and nobody is asked.
   */
  lemma FireRunsExactlyWhen(s: State, h: nat, actions: seq<Action>)
    requires Reachable(s) && Enabled(s, Fire(h, actions))
    ensures var r := After(s, Fire(h, actions));
      var i := s.armed[h].owner;
      var runs := !s.cancelled && (s.armed[h].role.Interval? || s.schedules[i].remaining <= 0);
      if runs then
        && s.trace < r.trace && r.trace[|s.trace|].Ran? && r.trace[|s.trace|].i == i
        && r.plans == s.plans + PlansIn(actions)
      else
        r.trace == s.trace && r.plans == s.plans
  {
    ReachableKeeps(s);
    if RunsCode(s, h) {
      FiredRuns(s, h, actions);
      RunExtends(s, Fired(s, h, actions), s.armed[h].owner, actions);
    } else {
      FiredRunsNothing(s, h, actions);
    }
  }

  /** A link of a chain that is not the last arms the next, of what is left or of as much as the host holds. */
  lemma LinkMovesOn(s: State, h: nat, actions: seq<Action>)
    requires Reachable(s) && Enabled(s, Fire(h, actions))
    requires s.armed[h].role == Timeout && s.schedules[s.armed[h].owner].remaining > 0
    ensures var r := After(s, Fire(h, actions));
      var i := s.armed[h].owner;
      var left := s.schedules[i].remaining;
      && r.live == s.live && OnlyTimersOf(s, r, i) && h !in r.armed
      && s.next in r.armed && r.armed[s.next].owner == i && r.armed[s.next].role == Timeout
      && r.armed[s.next].length == (if left <= MAX_TIMER_DELAY_MS then left else MAX_TIMER_DELAY_MS)
      && (forall j :: 0 <= j < |s.schedules| && j != i ==> r.schedules[j] == s.schedules[j])
  {
    ReachableKeeps(s);
    assert TimerOk(s, h);
    NextIsFree(s);
  }
}
