/**
 What every run of the scheduler keeps: which schedule each host timer belongs to, and which of
 the schedules may run.
 */
module SchedulerTheorems {
  import opened Options
  import opened Schedulers
  import opened HostTimers
  import ChainedTimeouts

  /** What a schedule waits for next. */
  function Due(plan: Plan, runs: nat): int {
    if runs > 0 && plan.interval.Some? then plan.interval.value else plan.delay
  }

  // ---- The timer table ----

  /** Schedule `i` and the table agree, with the links of its chain where they should be; an `idle` one may have no timer. */
  ghost predicate ScheduleOk(armed: map<nat, Timer>, plan: Plan, sch: Schedule, i: nat, idle: bool) {
    && (sch.settled ==> sch.timeout.None? && sch.repeat.None?)
    && (sch.timeout.Some? ==>
          && sch.repeat.None? && sch.timeout.value in armed
          && var t := armed[sch.timeout.value];
             t.owner == i && t.role.Timeout? && t.length <= MAX_TIMER_DELAY_MS
             && ChainedTimeouts.Ahead(sch.links, t.length, sch.remaining, Due(plan, sch.runs)))
    && (sch.repeat.Some? ==>
          && sch.repeat.value in armed && plan.interval.Some? && sch.runs > 0 && sch.links == []
          && armed[sch.repeat.value] == Timer(i, Interval, plan.interval.value) && plan.interval.value <= MAX_TIMER_DELAY_MS)
    && (plan.interval.None? && sch.runs > 0 ==> sch.settled && sch.runs == 1)
    && (!idle && !sch.settled ==> sch.timeout.Some? || sch.repeat.Some?)
  }

  ghost predicate TimerOk(s: State, h: nat)
    requires h in s.armed
  {
    var i := s.armed[h].owner;
    h < s.next && i < |s.schedules| && !s.schedules[i].settled && h in HandlesOf(s.schedules[i])
  }

  /** The table and the schedules agree, apart from the `busy` ones, which are between two timers. */
  ghost predicate Table(s: State, busy: set<nat>) {
    && Wellformed(s)
    && (forall h :: h in s.armed ==> TimerOk(s, h))
    && (forall i :: 0 <= i < |s.schedules| ==>
          ScheduleOk(s.armed, s.plans[i], s.schedules[i], i, s.cancelled || i in busy))
    && (forall i: nat :: i in s.live <==> i < |s.schedules| && !s.schedules[i].settled)
  }

  /** A schedule only looks at the table where its own handles are. */
  lemma OtherTimers(armed: map<nat, Timer>, other: map<nat, Timer>, plan: Plan, sch: Schedule, i: nat, idle: bool, still: bool)
    requires ScheduleOk(armed, plan, sch, i, idle) && (idle ==> still)
    requires forall h :: h in HandlesOf(sch) && h in armed ==> h in other && other[h] == armed[h]
    ensures ScheduleOk(other, plan, sch, i, still)
  {
    assert sch.timeout.Some? ==> sch.timeout.value in HandlesOf(sch);
    assert sch.repeat.Some? ==> sch.repeat.value in HandlesOf(sch);
  }

  /** Arming one more timer for schedule `i`, which holds none, leaves the others with their owners. */
  lemma TimersStay(s: State, r: State, i: nat)
    requires (forall h :: h in s.armed ==> TimerOk(s, h)) && i < |s.schedules| && HandlesOf(s.schedules[i]) == {}
    requires r.next == s.next + 1 && s.next in r.armed && r.armed - {s.next} == s.armed
    requires |r.schedules| == |s.schedules| && r.armed[s.next].owner == i
    requires !r.schedules[i].settled && s.next in HandlesOf(r.schedules[i])
    requires forall j :: 0 <= j < |s.schedules| && j != i ==> r.schedules[j] == s.schedules[j]
    ensures forall h :: h in r.armed ==> TimerOk(r, h)
  {
    forall h | h in r.armed ensures TimerOk(r, h) {
      if h != s.next {
        assert h in r.armed - {s.next};
        assert TimerOk(s, h);
      }
    }
  }

  lemma LinkArmedKeeps(s: State, i: nat, ms: int, busy: set<nat>)
    requires Table(s, busy) && i < |s.schedules| && !s.schedules[i].settled
    requires s.schedules[i].timeout.None? && s.schedules[i].repeat.None?
    requires ChainedTimeouts.Ahead(s.schedules[i].links, Link(ms), ms - Link(ms), Due(s.plans[i], s.schedules[i].runs))
    ensures Table(LinkArmed(s, i, ms), busy - {i})
  {
    var r := LinkArmed(s, i, ms);
    assert s.next !in s.armed;
    TimersStay(s, r, i);
    forall j | 0 <= j < |s.schedules|
      ensures ScheduleOk(r.armed, r.plans[j], r.schedules[j], j, r.cancelled || j in busy - {i})
    {
      if j != i {
        OtherTimers(s.armed, r.armed, s.plans[j], s.schedules[j], j, s.cancelled || j in busy, s.cancelled || j in busy - {i});
      }
    }
  }

  lemma IntervalArmedKeeps(s: State, i: nat, busy: set<nat>)
    requires Table(s, busy) && i < |s.schedules| && !s.schedules[i].settled
    requires s.schedules[i].timeout.None? && s.schedules[i].repeat.None?
    requires s.plans[i].interval.Some? && s.plans[i].interval.value <= MAX_TIMER_DELAY_MS
    requires s.schedules[i].runs > 0 && s.schedules[i].links == []
    ensures Table(IntervalArmed(s, i, s.plans[i].interval.value), busy - {i})
  {
    var r := IntervalArmed(s, i, s.plans[i].interval.value);
    assert s.next !in s.armed;
    TimersStay(s, r, i);
    forall j | 0 <= j < |s.schedules|
      ensures ScheduleOk(r.armed, r.plans[j], r.schedules[j], j, r.cancelled || j in busy - {i})
    {
      if j != i {
        OtherTimers(s.armed, r.armed, s.plans[j], s.schedules[j], j, s.cancelled || j in busy, s.cancelled || j in busy - {i});
      }
    }
  }

  lemma TrackedKeeps(s: State, plan: Plan, busy: set<nat>)
    requires Table(s, busy)
    ensures var i := |s.schedules|;
      Table(s.(plans := s.plans + [plan], schedules := s.schedules + [Schedule(false, None, None, 0, [], 0)], live := s.live + {i}),
            busy + {i})
  {
    var i := |s.schedules|;
    var t := s.(plans := s.plans + [plan], schedules := s.schedules + [Schedule(false, None, None, 0, [], 0)], live := s.live + {i});
    forall h | h in t.armed ensures TimerOk(t, h) {
      assert TimerOk(s, h);
    }
    forall j | 0 <= j < |t.schedules| ensures ScheduleOk(t.armed, t.plans[j], t.schedules[j], j, t.cancelled || j in busy + {i}) {
      if j < i {
        OtherTimers(s.armed, t.armed, s.plans[j], s.schedules[j], j, s.cancelled || j in busy, t.cancelled || j in busy + {i});
      }
    }
  }

  lemma SubmittedKeeps(s: State, plan: Plan, busy: set<nat>)
    requires Table(s, busy) && (forall j :: j in busy ==> j < |s.schedules|)
    ensures Table(Submitted(s, plan), busy)
  {
    var i := |s.schedules|;
    var t := s.(plans := s.plans + [plan], schedules := s.schedules + [Schedule(false, None, None, 0, [], 0)], live := s.live + {i});
    TrackedKeeps(s, plan, busy);
    ChainedTimeouts.AheadAtFirst(plan.delay);
    LinkArmedKeeps(t, i, plan.delay, busy + {i});
    assert (busy + {i}) - {i} == busy;
  }

  /** Timers of other schedules survive a cancel. */
  lemma OthersStayArmed(s: State, i: nat, j: nat, busy: set<nat>)
    requires Table(s, busy) && i < |s.schedules| && j < |s.schedules| && i != j
    ensures forall h :: h in HandlesOf(s.schedules[j]) && h in s.armed ==> h !in HandlesOf(s.schedules[i])
  {
    assert ScheduleOk(s.armed, s.plans[i], s.schedules[i], i, s.cancelled || i in busy);
    assert ScheduleOk(s.armed, s.plans[j], s.schedules[j], j, s.cancelled || j in busy);
  }

  lemma CancelKeeps(s: State, i: nat, busy: set<nat>)
    requires Table(s, busy)
    ensures Table(AfterCancel(s, i), busy)
  {
    if i < |s.schedules| && !s.schedules[i].settled {
      var r := AfterCancel(s, i);
      forall h | h in r.armed ensures TimerOk(r, h) {
        assert TimerOk(s, h);
      }
      forall j | 0 <= j < |s.schedules|
        ensures ScheduleOk(r.armed, r.plans[j], r.schedules[j], j, r.cancelled || j in busy)
      {
        if j == i {
          assert ScheduleOk(s.armed, s.plans[i], s.schedules[i], i, s.cancelled || i in busy);
        } else {
          OthersStayArmed(s, i, j, busy);
          OtherTimers(s.armed, r.armed, s.plans[j], s.schedules[j], j, s.cancelled || j in busy, s.cancelled || j in busy);
        }
      }
    }
  }

  lemma {:induction false} CancelFromKeeps(s: State, i: nat, busy: set<nat>)
    requires Table(s, busy)
    ensures Table(AfterCancelFrom(s, i), busy)
    decreases |s.schedules| - i
  {
    if i >= |s.schedules| {
    } else {
      CancelKeeps(s, i, busy);
      CancelFromKeeps(if i in s.live then AfterCancel(s, i) else s, i + 1, busy);
    }
  }

  /** Cancelling from `i` on settles every schedule from there, and unsettles none. */
  lemma {:induction false} CancelFromSettles(s: State, i: nat, j: nat, busy: set<nat>)
    requires Table(s, busy) && j < |s.schedules| && (j < i ==> s.schedules[j].settled)
    ensures AfterCancelFrom(s, i).schedules[j].settled
    decreases |s.schedules| - i
  {
    if i >= |s.schedules| {
    } else {
      CancelKeeps(s, i, busy);
      CancelFromSettles(if i in s.live then AfterCancel(s, i) else s, i + 1, j, busy);
    }
  }

  lemma FlagKeeps(s: State, busy: set<nat>)
    requires Table(s, busy)
    ensures Table(s.(cancelled := true), busy)
  {
    var c := s.(cancelled := true);
    forall j | 0 <= j < |s.schedules| ensures ScheduleOk(c.armed, c.plans[j], c.schedules[j], j, true) {
      OtherTimers(s.armed, c.armed, s.plans[j], s.schedules[j], j, s.cancelled || j in busy, true);
    }
    forall h | h in c.armed ensures TimerOk(c, h) {
      assert TimerOk(s, h);
    }
  }

  /** A shutdown leaves no timer armed. */
  lemma ShutdownKeeps(s: State, busy: set<nat>)
    requires Table(s, busy)
    ensures Table(AfterShutdown(s), busy)
    ensures AfterShutdown(s).armed == map[]
  {
    var c := s.(cancelled := true);
    FlagKeeps(s, busy);
    CancelFromKeeps(c, 0, busy);
    var r := AfterCancelFrom(c, 0);
    forall j | 0 <= j < |r.schedules| ensures r.schedules[j].settled {
      CancelFromSettles(c, 0, j, busy);
    }
    assert forall h :: h in r.armed ==> TimerOk(r, h);
    assert r.armed == map[];
    CancelFromFlag(c, 0);
    assert r.live == {};
  }

  lemma {:induction false} CancelFromFlag(s: State, i: nat)
    ensures AfterCancelFrom(s, i).cancelled == s.cancelled
    decreases |s.schedules| - i
  {
    if i >= |s.schedules| {
    } else {
      CancelFromFlag(if i in s.live then AfterCancel(s, i) else s, i + 1);
    }
  }

  lemma NotedKeeps(s: State, i: nat, links: seq<int>, busy: set<nat>)
    requires Table(s, busy) && i < |s.schedules| && s.schedules[i].timeout.None?
    requires s.plans[i].interval.None? ==> s.schedules[i].settled && s.schedules[i].runs == 0
    ensures Table(Noted(s, i, links), busy)
  {
    var r := Noted(s, i, links);
    forall h | h in r.armed ensures TimerOk(r, h) {
      assert TimerOk(s, h);
    }
  }

  /** Where the chain of schedule `i` stands once its armed link has run out. */
  ghost predicate LinkGone(plan: Plan, sch: Schedule) {
    && sch.timeout.None? && sch.repeat.None?
    && (if sch.remaining > 0
        then ChainedTimeouts.Ahead(sch.links, Link(sch.remaining), sch.remaining - Link(sch.remaining), Due(plan, sch.runs))
        else sch.links == ChainedTimeouts.Links(Due(plan, sch.runs)))
  }

  lemma LinkRunsOut(armed: map<nat, Timer>, plan: Plan, sch: Schedule, i: nat, idle: bool)
    requires ScheduleOk(armed, plan, sch, i, idle) && sch.timeout.Some?
    ensures LinkGone(plan, sch.(timeout := None, links := sch.links + [armed[sch.timeout.value].length]))
  {
    var armedMs := armed[sch.timeout.value].length;
    if sch.remaining > 0 {
      ChainedTimeouts.AheadNext(sch.links, armedMs, sch.remaining, Due(plan, sch.runs));
    } else {
      ChainedTimeouts.AheadAtLast(sch.links, armedMs, sch.remaining, Due(plan, sch.runs));
    }
  }

  lemma OwnerHolds(s: State, h: nat, busy: set<nat>)
    requires Table(s, busy) && h in s.armed
    ensures var i := s.armed[h].owner;
      && i < |s.schedules| && !s.schedules[i].settled
      && ScheduleOk(s.armed, s.plans[i], s.schedules[i], i, s.cancelled || i in busy)
      && (s.armed[h].role.Timeout? ==> s.schedules[i].timeout == Some(h))
      && (s.armed[h].role.Interval? ==> s.schedules[i].repeat == Some(h) && s.schedules[i].timeout.None?)
  {
    assert TimerOk(s, h);
  }

  lemma ElapsedTable(s: State, h: nat)
    requires Table(s, {}) && h in s.armed && s.armed[h].role.Timeout? && s.armed[h].owner < |s.schedules|
    requires s.schedules[s.armed[h].owner].timeout == Some(h) && s.schedules[s.armed[h].owner].repeat.None?
    ensures Table(Elapsed(s, h), {s.armed[h].owner})
  {
    var i := s.armed[h].owner;
    var r := Elapsed(s, h);
    forall j | 0 <= j < |s.schedules|
      ensures ScheduleOk(r.armed, r.plans[j], r.schedules[j], j, r.cancelled || j in {i})
    {
      if j != i {
        forall k | k in HandlesOf(s.schedules[j]) && k in s.armed
          ensures k in r.armed
        {
          assert s.armed[k].owner == j;
        }
        OtherTimers(s.armed, r.armed, s.plans[j], s.schedules[j], j, s.cancelled, s.cancelled);
      }
    }
    forall k | k in r.armed ensures TimerOk(r, k) {
      assert TimerOk(s, k);
    }
  }

  lemma ElapsedKeeps(s: State, h: nat)
    requires Table(s, {}) && h in s.armed && s.armed[h].role.Timeout?
    ensures var i := s.armed[h].owner;
      && i < |s.schedules| && Table(Elapsed(s, h), {i}) && !s.schedules[i].settled
      && LinkGone(s.plans[i], Elapsed(s, h).schedules[i])
  {
    OwnerHolds(s, h, {});
    var i := s.armed[h].owner;
    ElapsedTable(s, h);
    LinkRunsOut(s.armed, s.plans[i], s.schedules[i], i, s.cancelled);
  }

  // ---- The trace ----

  function RunsIn(trace: seq<Entry>, i: nat): nat {
    if trace == [] then 0
    else RunsIn(trace[..|trace| - 1], i) + (if trace[|trace| - 1].Ran? && trace[|trace| - 1].i == i then 1 else 0)
  }

  /** What may come next in a trace. */
  ghost predicate Allowed(plans: seq<Plan>, trace: seq<Entry>, e: Entry) {
    match e
    case Ran(i, links) =>
      && i < |plans| && Down !in trace && Cancelled(i) !in trace
      && links == ChainedTimeouts.Links(Due(plans[i], RunsIn(trace, i))) && (plans[i].interval.None? ==> RunsIn(trace, i) == 0)
    case Cancelled(i) => i < |plans| && Cancelled(i) !in trace && (plans[i].interval.None? ==> RunsIn(trace, i) == 0)
    case Down => true
  }

  ghost predicate Lawful(plans: seq<Plan>, trace: seq<Entry>) {
    trace == [] ||
    (Lawful(plans, trace[..|trace| - 1]) && Allowed(plans, trace[..|trace| - 1], trace[|trace| - 1]))
  }

  lemma Grown(plans: seq<Plan>, trace: seq<Entry>, e: Entry)
    requires Lawful(plans, trace) && Allowed(plans, trace, e)
    ensures Lawful(plans, trace + [e])
    ensures forall i :: RunsIn(trace + [e], i) == RunsIn(trace, i) + (if e.Ran? && e.i == i then 1 else 0)
  {
    assert (trace + [e])[..|trace|] == trace;
  }

  lemma {:induction false} MorePlans(plans: seq<Plan>, trace: seq<Entry>, plan: Plan)
    requires Lawful(plans, trace)
    ensures Lawful(plans + [plan], trace)
    ensures RunsIn(trace, |plans|) == 0 && Cancelled(|plans|) !in trace
  {
    if trace == [] {
    } else {
      MorePlans(plans, trace[..|trace| - 1], plan);
    }
  }

  /** The schedules and the trace agree. */
  ghost predicate Log(s: State) {
    && Wellformed(s) && Lawful(s.plans, s.trace) && (Down in s.trace ==> s.cancelled)
    && (forall i :: 0 <= i < |s.schedules| ==>
          && s.schedules[i].runs == RunsIn(s.trace, i) && (Cancelled(i) in s.trace ==> s.schedules[i].settled)
          && (s.schedules[i].settled ==>
                s.cancelled || Cancelled(i) in s.trace || (s.plans[i].interval.None? && s.schedules[i].runs > 0)))
  }

  ghost predicate Inv(s: State, busy: set<nat>) { Table(s, busy) && Log(s) && (s.cancelled ==> Down in s.trace) }

  lemma SubmittedLogs(s: State, plan: Plan)
    requires Log(s)
    ensures Log(Submitted(s, plan))
  {
    MorePlans(s.plans, s.trace, plan);
  }

  lemma CancelLogs(s: State, i: nat, busy: set<nat>)
    requires Table(s, busy) && Log(s)
    ensures Log(AfterCancel(s, i))
  {
    if i < |s.schedules| && !s.schedules[i].settled {
      assert ScheduleOk(s.armed, s.plans[i], s.schedules[i], i, s.cancelled || i in busy);
      Grown(s.plans, s.trace, Cancelled(i));
    }
  }

  lemma {:induction false} CancelFromLogs(s: State, i: nat, busy: set<nat>)
    requires Table(s, busy) && Log(s)
    ensures Log(AfterCancelFrom(s, i))
    decreases |s.schedules| - i
  {
    if i >= |s.schedules| {
    } else {
      CancelKeeps(s, i, busy);
      CancelLogs(s, i, busy);
      CancelFromLogs(if i in s.live then AfterCancel(s, i) else s, i + 1, busy);
    }
  }

  lemma ShutdownLogs(s: State, busy: set<nat>)
    requires Table(s, busy) && Log(s)
    ensures Log(AfterShutdown(s))
  {
    var c := s.(cancelled := true);
    FlagKeeps(s, busy);
    CancelFromLogs(c, 0, busy);
    CancelFromFlag(c, 0);
    var r := AfterCancelFrom(c, 0);
    Grown(r.plans, r.trace, Down);
  }

  lemma NotedLogs(s: State, i: nat, links: seq<int>)
    requires Log(s) && i < |s.schedules| && Allowed(s.plans, s.trace, Ran(i, links))
    ensures Log(Noted(s, i, links))
  {
    Grown(s.plans, s.trace, Ran(i, links));
  }

  lemma LastRunLogs(s: State, i: nat, links: seq<int>)
    requires Log(s) && i < |s.schedules| && s.plans[i].interval.None? && Allowed(s.plans, s.trace, Ran(i, links))
    ensures Log(Noted(Settled(s, i), i, links))
  {
    Grown(s.plans, s.trace, Ran(i, links));
  }

  // ---- Steps ----

  /** Calls settle schedules and add new ones; they leave the rest alone. */
  ghost predicate Spares(s: State, r: State) {
    && s.plans <= r.plans && s.trace <= r.trace && (s.cancelled ==> r.cancelled)
    && |s.schedules| <= |r.schedules|
    && (forall i :: 0 <= i < |s.schedules| ==> r.schedules[i].settled || r.schedules[i] == s.schedules[i])
  }

  lemma {:induction false} CancelFromSpares(s: State, i: nat)
    ensures Spares(s, AfterCancelFrom(s, i))
    decreases |s.schedules| - i
  {
    if i >= |s.schedules| {
    } else {
      CancelFromSpares(if i in s.live then AfterCancel(s, i) else s, i + 1);
    }
  }

  lemma SubmitKeeps(s: State, plan: Plan, busy: set<nat>)
    requires Inv(s, busy) && (forall j :: j in busy ==> j < |s.schedules|)
    ensures Inv(Submitted(s, plan), busy) && Spares(s, Submitted(s, plan))
  {
    SubmittedKeeps(s, plan, busy);
    SubmittedLogs(s, plan);
  }

  lemma CancelSpares(s: State, i: nat)
    ensures Spares(s, AfterCancel(s, i)) && AfterCancel(s, i).cancelled == s.cancelled
    ensures Down in s.trace ==> Down in AfterCancel(s, i).trace
  {
  }

  lemma CancelCallKeeps(s: State, i: nat, busy: set<nat>)
    requires Inv(s, busy)
    ensures Inv(AfterCancel(s, i), busy) && Spares(s, AfterCancel(s, i))
  {
    CancelSpares(s, i);
    assert Table(AfterCancel(s, i), busy) by { CancelKeeps(s, i, busy); }
    assert Log(AfterCancel(s, i)) by { CancelLogs(s, i, busy); }
  }

  lemma ShutdownCallKeeps(s: State, busy: set<nat>)
    requires Inv(s, busy)
    ensures Inv(AfterShutdown(s), busy) && Spares(s, AfterShutdown(s))
  {
    ShutdownKeeps(s, busy);
    ShutdownLogs(s, busy);
    CancelFromSpares(s.(cancelled := true), 0);
  }

  lemma ActionKeeps(s: State, action: Action, busy: set<nat>)
    requires Inv(s, busy) && (forall j :: j in busy ==> j < |s.schedules|)
    ensures Inv(AfterAction(s, action), busy) && Spares(s, AfterAction(s, action))
  {
    match action
    case Submit(plan) => SubmitKeeps(s, plan, busy);
    case Cancel(i) => CancelCallKeeps(s, i, busy);
    case Shutdown => ShutdownCallKeeps(s, busy);
  }

  lemma SparesTrans(s: State, m: State, r: State)
    requires Spares(s, m) && Spares(m, r)
    ensures Spares(s, r)
  {
  }

  lemma {:induction false} ActionsKeep(s: State, actions: seq<Action>, busy: set<nat>)
    requires Inv(s, busy) && (forall j :: j in busy ==> j < |s.schedules|)
    ensures Inv(AfterActions(s, actions), busy) && Spares(s, AfterActions(s, actions))
    decreases |actions|
  {
    if actions == [] {
    } else {
      var m := AfterAction(s, actions[0]);
      ActionKeeps(s, actions[0], busy);
      ActionsKeep(m, actions[1..], busy);
      SparesTrans(s, m, AfterActions(m, actions[1..]));
    }
  }

  /** What no step undoes. */
  ghost predicate Later(s: State, r: State) {
    && s.plans <= r.plans && s.trace <= r.trace && (s.cancelled ==> r.cancelled) && |s.schedules| <= |r.schedules|
    && (forall i :: 0 <= i < |s.schedules| && s.schedules[i].settled ==> r.schedules[i].settled)
  }

  lemma LaterTrans(s: State, m: State, r: State)
    requires Later(s, m) && Later(m, r)
    ensures Later(s, r)
  {
  }

  lemma SparesIsLater(s: State, r: State)
    requires Spares(s, r)
    ensures Later(s, r)
  {
  }

  /** A schedule about to run has waited all the links it is due. */
  ghost predicate DueNow(s: State, i: nat, links: seq<int>) {
    && i < |s.schedules| && i < |s.plans| && s.schedules[i].timeout.None? && !s.cancelled
    && links == ChainedTimeouts.Links(Due(s.plans[i], s.schedules[i].runs))
  }

  /** The code of a schedule that repeats runs. */
  lemma RepeatRuns(s: State, i: nat, links: seq<int>, actions: seq<Action>, busy: set<nat>)
    requires Inv(s, busy) && (forall j :: j in busy ==> j < |s.schedules|)
    requires DueNow(s, i, links) && !s.schedules[i].settled && s.plans[i].interval.Some?
    ensures var n := Noted(s, i, links);
      var r := AfterActions(n, actions);
      Inv(r, busy) && Spares(n, r) && Later(s, r)
  {
    var n := Noted(s, i, links);
    NotedKeeps(s, i, links, busy);
    NotedLogs(s, i, links);
    assert Later(s, n);
    ActionsKeep(n, actions, busy);
    SparesIsLater(n, AfterActions(n, actions));
    LaterTrans(s, n, AfterActions(n, actions));
  }

  /** The code of a one-shot runs, once. */
  lemma LastRunKeeps(s: State, i: nat, actions: seq<Action>, busy: set<nat>)
    requires Inv(s, busy + {i}) && i !in busy && (forall j :: j in busy ==> j < |s.schedules|)
    requires i < |s.schedules| && DueNow(s, i, s.schedules[i].links)
    requires !s.schedules[i].settled && s.plans[i].interval.None? && s.schedules[i].repeat.None?
    ensures var n := Noted(Settled(s, i), i, s.schedules[i].links);
      var r := AfterActions(n, actions);
      Inv(r, busy) && Spares(n, r) && Later(s, r)
  {
    var n := Noted(Settled(s, i), i, s.schedules[i].links);
    OnlyOnce(s, i, busy + {i});
    SettledTable(s, i, busy);
    NotedKeeps(Settled(s, i), i, s.schedules[i].links, busy);
    LastRunLogs(s, i, s.schedules[i].links);
    assert Later(s, n);
    ActionsKeep(n, actions, busy);
    SparesIsLater(n, AfterActions(n, actions));
    LaterTrans(s, n, AfterActions(n, actions));
  }

  lemma OnlyOnce(s: State, i: nat, busy: set<nat>)
    requires Inv(s, busy) && i < |s.schedules| && !s.schedules[i].settled && s.plans[i].interval.None?
    ensures s.schedules[i].runs == RunsIn(s.trace, i) == 0
  {
    assert ScheduleOk(s.armed, s.plans[i], s.schedules[i], i, s.cancelled || i in busy);
  }

  lemma SettledTable(s: State, i: nat, busy: set<nat>)
    requires Table(s, busy + {i}) && i < |s.schedules| && s.schedules[i].timeout.None? && s.schedules[i].repeat.None?
    ensures Table(Settled(s, i), busy)
  {
    var r := Settled(s, i);
    forall h | h in r.armed ensures TimerOk(r, h) {
      assert TimerOk(s, h);
    }
    forall j | 0 <= j < |r.schedules| ensures ScheduleOk(r.armed, r.plans[j], r.schedules[j], j, r.cancelled || j in busy) {
      assert ScheduleOk(s.armed, s.plans[j], s.schedules[j], j, s.cancelled || j in busy + {i});
    }
  }

  lemma OneShotKeeps(s: State, i: nat, actions: seq<Action>)
    requires Inv(s, {i}) && i < |s.schedules| && !s.schedules[i].settled && s.plans[i].interval.None?
    requires LinkGone(s.plans[i], s.schedules[i]) && s.schedules[i].remaining <= 0
    ensures Inv(OneShotDue(s, i, actions), {}) && Later(s, OneShotDue(s, i, actions))
  {
    assert {} + {i} == {i};
    if s.cancelled {
      SettledTable(s, i, {});
      assert Log(Settled(s, i));
    } else {
      LastRunKeeps(s, i, actions, {});
    }
  }

  lemma TickKeeps(s: State, i: nat, actions: seq<Action>)
    requires Inv(s, {i}) && i < |s.schedules| && !s.schedules[i].settled && s.plans[i].interval.Some?
    requires LinkGone(s.plans[i], s.schedules[i]) && s.schedules[i].remaining <= 0
    ensures Inv(TickDue(s, i, actions), {}) && Later(s, TickDue(s, i, actions))
  {
    if s.cancelled {
      NoneBusy(s, i);
    } else {
      RepeatRuns(s, i, s.schedules[i].links, actions, {i});
      var r := AfterActions(Noted(s, i, s.schedules[i].links), actions);
      if r.schedules[i].settled || r.cancelled {
        NoneBusy(r, i);
      } else {
        RearmedKeeps(r, i);
      }
    }
  }

  lemma NoneBusy(s: State, i: nat)
    requires Table(s, {i}) && i < |s.schedules| && (s.schedules[i].settled || s.cancelled)
    ensures Table(s, {})
  {
    forall j | 0 <= j < |s.schedules| ensures ScheduleOk(s.armed, s.plans[j], s.schedules[j], j, s.cancelled || j in {}) {
      assert ScheduleOk(s.armed, s.plans[j], s.schedules[j], j, s.cancelled || j in {i});
    }
  }

  lemma RearmedKeeps(s: State, i: nat)
    requires Inv(s, {i}) && i < |s.schedules| && !s.schedules[i].settled && s.plans[i].interval.Some?
    requires s.schedules[i].timeout.None? && s.schedules[i].repeat.None?
    requires s.schedules[i].links == [] && s.schedules[i].runs > 0
    ensures var ms := s.plans[i].interval.value;
      var r := if ms > MAX_TIMER_DELAY_MS then LinkArmed(s, i, ms) else IntervalArmed(s, i, ms);
      Inv(r, {}) && Later(s, r)
  {
    assert {i} - {i} == {};
    if s.plans[i].interval.value > MAX_TIMER_DELAY_MS {
      ChainedTimeouts.AheadAtFirst(s.plans[i].interval.value);
      LinkArmedKeeps(s, i, s.plans[i].interval.value, {i});
    } else {
      IntervalArmedKeeps(s, i, {i});
    }
  }

  lemma IntervalDueKeeps(s: State, i: nat, ms: int, actions: seq<Action>, busy: set<nat>)
    requires Inv(s, busy) && (forall j :: j in busy ==> j < |s.schedules|)
    requires i < |s.schedules| && !s.schedules[i].settled && s.plans[i].interval.Some? && s.schedules[i].timeout.None?
    requires s.schedules[i].links + [ms] == ChainedTimeouts.Links(Due(s.plans[i], s.schedules[i].runs))
    ensures Inv(IntervalDue(s, i, ms, actions), busy) && Later(s, IntervalDue(s, i, ms, actions))
  {
    if s.cancelled {
      assert IntervalDue(s, i, ms, actions) == s;
    } else {
      var links := s.schedules[i].links + [ms];
      RepeatRuns(s, i, links, actions, busy);
      assert IntervalDue(s, i, ms, actions) == AfterActions(Noted(s, i, links), actions);
    }
  }

  lemma IntervalIsOneLink(s: State, h: nat, busy: set<nat>)
    requires Table(s, busy) && h in s.armed && s.armed[h].role.Interval?
    ensures var i := s.armed[h].owner;
      && i < |s.schedules| && !s.schedules[i].settled && s.plans[i].interval.Some? && s.schedules[i].timeout.None?
      && s.schedules[i].links + [s.armed[h].length] == ChainedTimeouts.Links(Due(s.plans[i], s.schedules[i].runs))
  {
    OwnerHolds(s, h, busy);
  }

  lemma TimeoutFiredKeeps(s: State, h: nat, actions: seq<Action>)
    requires Inv(s, {}) && h in s.armed && s.armed[h].owner < |s.schedules| && s.armed[h].role.Timeout?
    ensures Inv(Fired(s, h, actions), {}) && Later(s, Fired(s, h, actions))
  {
    var i := s.armed[h].owner;
    var e := Elapsed(s, h);
    ElapsedKeeps(s, h);
    assert Log(e) && Later(s, e);
    LinkGoneKeeps(e, i, actions);
    LaterTrans(s, e, Fired(s, h, actions));
  }

  lemma LinkGoneKeeps(s: State, i: nat, actions: seq<Action>)
    requires Inv(s, {i}) && i < |s.schedules| && !s.schedules[i].settled && LinkGone(s.plans[i], s.schedules[i])
    ensures var r := if s.schedules[i].remaining > 0 then LinkArmed(s, i, s.schedules[i].remaining)
        else if s.plans[i].interval.None? then OneShotDue(s, i, actions) else TickDue(s, i, actions);
      Inv(r, {}) && Later(s, r)
  {
    if s.schedules[i].remaining > 0 {
      LinkArmedKeeps(s, i, s.schedules[i].remaining, {i});
      assert {i} - {i} == {};
    } else if s.plans[i].interval.None? {
      OneShotKeeps(s, i, actions);
    } else {
      TickKeeps(s, i, actions);
    }
  }

  lemma StepKeeps(s: State, step: Step)
    requires Inv(s, {}) && Enabled(s, step)
    ensures Inv(After(s, step), {}) && Later(s, After(s, step))
  {
    match step
    case Call(action) =>
      ActionKeeps(s, action, {});
      SparesIsLater(s, AfterAction(s, action));
    case Fire(h, actions) =>
      if s.armed[h].role.Interval? {
        IntervalIsOneLink(s, h, {});
        IntervalDueKeeps(s, s.armed[h].owner, s.armed[h].length, actions, {});
      } else {
        TimeoutFiredKeeps(s, h, actions);
      }
  }

  lemma {:induction false} RunKeeps(s: State, steps: seq<Step>)
    requires Inv(s, {}) && Legal(s, steps)
    ensures Inv(Final(s, steps), {}) && Later(s, Final(s, steps))
    decreases |steps|
  {
    if steps == [] {
    } else {
      var m := After(s, steps[0]);
      StepKeeps(s, steps[0]);
      RunKeeps(m, steps[1..]);
      LaterTrans(s, m, Final(m, steps[1..]));
    }
  }

  // ---- The promises ----

  ghost predicate Reachable(s: State) {
    exists steps :: Legal(IDLE, steps) && Final(IDLE, steps) == s
  }

  lemma ReachableKeeps(s: State)
    requires Reachable(s)
    ensures Inv(s, {})
  {
    var steps :| Legal(IDLE, steps) && Final(IDLE, steps) == s;
    RunKeeps(IDLE, steps);
  }

  /** Every armed timer belongs to a live, unsettled schedule that holds its handle, and fits the host. */
  lemma TimersBelongToLiveSchedules(s: State, h: nat)
    requires Reachable(s) && h in s.armed
    ensures var i := s.armed[h].owner;
      i in s.live && i < |s.schedules| && !s.schedules[i].settled && h in HandlesOf(s.schedules[i])
    ensures s.armed[h].length <= MAX_TIMER_DELAY_MS
  {
    ReachableKeeps(s);
    assert TimerOk(s, h);
    var i := s.armed[h].owner;
    assert ScheduleOk(s.armed, s.plans[i], s.schedules[i], i, s.cancelled || i in {});
  }

  /** A schedule never has two timers, and before a shutdown a live one always has one. */
  lemma LiveSchedulesHaveOneTimer(s: State, i: nat)
    requires Reachable(s)
    ensures forall h, k :: h in s.armed && k in s.armed && s.armed[h].owner == i && s.armed[k].owner == i ==> h == k
    ensures !s.cancelled ==> (i in s.live <==> exists h :: h in s.armed && s.armed[h].owner == i)
  {
    ReachableKeeps(s);
    if i < |s.schedules| {
      assert ScheduleOk(s.armed, s.plans[i], s.schedules[i], i, s.cancelled || i in {});
      forall h | h in s.armed && s.armed[h].owner == i ensures h in HandlesOf(s.schedules[i]) {
        assert TimerOk(s, h);
      }
      if i in s.live && !s.cancelled {
        var h := if s.schedules[i].timeout.Some? then s.schedules[i].timeout.value else s.schedules[i].repeat.value;
        assert h in s.armed && s.armed[h].owner == i;
      }
    } else {
      forall h | h in s.armed ensures s.armed[h].owner != i {
        assert TimerOk(s, h);
      }
    }
  }

  lemma {:induction false} LawfulAt(plans: seq<Plan>, trace: seq<Entry>, k: nat)
    requires Lawful(plans, trace) && k < |trace|
    ensures Allowed(plans, trace[..k], trace[k])
    decreases |trace|
  {
    var init := trace[..|trace| - 1];
    if k >= |init| {
    } else {
      LawfulAt(plans, init, k);
      assert init[..k] == trace[..k];
    }
  }

  /** Each run comes after the host timers that make up what its recorded plan is due. */
  lemma RunFollowsItsPlan(s: State, k: nat)
    requires Reachable(s) && k < |s.trace| && s.trace[k].Ran?
    ensures var i := s.trace[k].i;
      i < |s.plans| &&
      var due := if RunsIn(s.trace[..k], i) == 0 || s.plans[i].interval.None? then s.plans[i].delay else s.plans[i].interval.value;
      && s.trace[k].links == ChainedTimeouts.Links(due) && ChainedTimeouts.Sum(s.trace[k].links) == due
      && (forall m :: 0 <= m < |s.trace[k].links| ==> s.trace[k].links[m] <= MAX_TIMER_DELAY_MS)
      && (s.plans[i].interval.None? ==> RunsIn(s.trace[..k], i) == 0)
  {
    ReachableKeeps(s);
    LawfulAt(s.plans, s.trace, k);
    ChainedTimeouts.LinksMakeTheDelay(Due(s.plans[s.trace[k].i], RunsIn(s.trace[..k], s.trace[k].i)));
  }

  /** Once schedule `i` is settled, no timer of it is armed again and it never runs again. */
  lemma SettledForGood(s: State, i: nat, steps: seq<Step>, k: nat)
    requires Reachable(s) && i < |s.schedules| && s.schedules[i].settled && Legal(s, steps)
    ensures var f := Final(s, steps);
      && (forall h :: h in f.armed ==> f.armed[h].owner != i)
      && (|s.trace| <= k < |f.trace| ==> !(f.trace[k].Ran? && f.trace[k].i == i))
  {
    ReachableKeeps(s);
    RunKeeps(s, steps);
    var f := Final(s, steps);
    forall h | h in f.armed ensures f.armed[h].owner != i {
      assert TimerOk(f, h);
    }
    if |s.trace| <= k < |f.trace| && f.trace[k].Ran? && f.trace[k].i == i {
      RunsInPrefix(s.trace, f.trace, k, i);
      LawfulAt(f.plans, f.trace, k);
      assert false;
    }
  }

  lemma {:induction false} RunsInPrefix(a: seq<Entry>, b: seq<Entry>, k: nat, i: nat)
    requires a <= b && |a| <= k <= |b|
    ensures RunsIn(a, i) <= RunsIn(b[..k], i)
    decreases k
  {
    if k == |a| {
      assert b[..k] == a;
    } else {
      RunsInPrefix(a, b, k - 1, i);
      assert b[..k][..k - 1] == b[..k - 1];
    }
  }

  /** A cancel that returned, from outside or from anybody's tick, has settled the schedule. */
  lemma {:induction false} EndedInside(s: State, actions: seq<Action>, i: nat, busy: set<nat>)
    requires Inv(s, busy) && (forall j :: j in busy ==> j < |s.schedules|) && i < |s.schedules|
    requires Cancel(i) in actions || Shutdown in actions || s.schedules[i].settled
    ensures AfterActions(s, actions).schedules[i].settled
    decreases |actions|
  {
    if actions == [] {
    } else {
      var r := AfterAction(s, actions[0]);
      ActionKeeps(s, actions[0], busy);
      if actions[0] == Shutdown {
        FlagKeeps(s, busy);
        CancelFromSettles(s.(cancelled := true), 0, i, busy);
      }
      assert Cancel(i) in actions ==> actions[0] == Cancel(i) || Cancel(i) in actions[1..];
      assert Shutdown in actions ==> actions[0] == Shutdown || Shutdown in actions[1..];
      EndedInside(r, actions[1..], i, busy);
    }
  }

  /** Does the firing of `h` run its schedule's code, or does it only move a chain on? */
  predicate RunsCode(s: State, h: nat)
    requires Enabled(s, Fire(h, []))
  {
    !s.cancelled && (s.armed[h].role.Interval? || s.schedules[s.armed[h].owner].remaining <= 0)
  }

  /** A tick that cancels its own schedule, or shuts the scheduler down, is that schedule's last. */
  lemma TickEndsItself(s: State, h: nat, actions: seq<Action>, steps: seq<Step>, k: nat)
    requires Reachable(s) && Enabled(s, Fire(h, actions)) && RunsCode(s, h)
    requires Cancel(s.armed[h].owner) in actions || Shutdown in actions
    requires Legal(After(s, Fire(h, actions)), steps)
    ensures var r := After(s, Fire(h, actions));
      var f := Final(r, steps);
      var i := s.armed[h].owner;
      && (forall g :: g in f.armed ==> f.armed[g].owner != i)
      && (|r.trace| <= k < |f.trace| ==> !(f.trace[k].Ran? && f.trace[k].i == i))
  {
    ReachableKeeps(s);
    var r := After(s, Fire(h, actions));
    FiredSettles(s, h, actions);
    ReachableStep(s, Fire(h, actions));
    SettledForGood(r, s.armed[h].owner, steps, k);
  }

  lemma FiredSettles(s: State, h: nat, actions: seq<Action>)
    requires Inv(s, {}) && Enabled(s, Fire(h, actions)) && RunsCode(s, h)
    requires Cancel(s.armed[h].owner) in actions || Shutdown in actions
    ensures var i := s.armed[h].owner;
      i < |Fired(s, h, actions).schedules| && Fired(s, h, actions).schedules[i].settled
  {
    var i := s.armed[h].owner;
    if s.armed[h].role.Interval? {
      IntervalIsOneLink(s, h, {});
      RunEndsItself(s, i, s.schedules[i].links + [s.armed[h].length], actions, {});
    } else {
      ElapsedKeeps(s, h);
      assert Log(Elapsed(s, h));
      TimeoutSettles(Elapsed(s, h), i, actions);
    }
  }

  /** The code that runs when a timeout of schedule `i` is due ends that schedule. */
  lemma TimeoutSettles(s: State, i: nat, actions: seq<Action>)
    requires Inv(s, {i}) && i < |s.schedules| && !s.schedules[i].settled && !s.cancelled
    requires LinkGone(s.plans[i], s.schedules[i]) && s.schedules[i].remaining <= 0
    requires Cancel(i) in actions || Shutdown in actions
    ensures var r := if s.plans[i].interval.None? then OneShotDue(s, i, actions) else TickDue(s, i, actions);
      i < |r.schedules| && r.schedules[i].settled
  {
    if s.plans[i].interval.None? {
      assert {} + {i} == {i};
      LastRunKeeps(s, i, actions, {});
    } else {
      RunEndsItself(s, i, s.schedules[i].links, actions, {i});
    }
  }

  lemma RunEndsItself(s: State, i: nat, links: seq<int>, actions: seq<Action>, busy: set<nat>)
    requires Inv(s, busy) && (forall j :: j in busy ==> j < |s.schedules|)
    requires DueNow(s, i, links) && !s.schedules[i].settled && s.plans[i].interval.Some?
    requires Cancel(i) in actions || Shutdown in actions
    ensures i < |AfterActions(Noted(s, i, links), actions).schedules|
    ensures AfterActions(Noted(s, i, links), actions).schedules[i].settled
  {
    RepeatRuns(s, i, links, actions, busy);
    NotedKeeps(s, i, links, busy);
    NotedLogs(s, i, links);
    EndedInside(Noted(s, i, links), actions, i, busy);
  }

  lemma ReachableStep(s: State, step: Step)
    requires Reachable(s) && Enabled(s, step)
    ensures Reachable(After(s, step))
  {
    var steps :| Legal(IDLE, steps) && Final(IDLE, steps) == s;
    LegalAppend(IDLE, steps, step);
  }

  lemma {:induction false} LegalAppend(s: State, steps: seq<Step>, step: Step)
    requires Legal(s, steps) && Enabled(Final(s, steps), step)
    ensures Legal(s, steps + [step]) && Final(s, steps + [step]) == After(Final(s, steps), step)
    decreases |steps|
  {
    if steps == [] {
      assert (steps + [step])[1..] == [];
    } else {
      LegalAppend(After(s, steps[0]), steps[1..], step);
      assert (steps + [step])[1..] == steps[1..] + [step];
    }
  }

  /** After a shutdown returns no timer is armed; timers armed later never run anything, whatever their schedule. */
  lemma ShutdownEndsEverything(s: State, steps: seq<Step>, k: nat)
    requires Reachable(s) && Enabled(s, Call(Shutdown)) && Legal(After(s, Call(Shutdown)), steps)
    ensures After(s, Call(Shutdown)).armed == map[] && After(s, Call(Shutdown)).live == {}
    ensures var r := After(s, Call(Shutdown));
      var f := Final(r, steps);
      && (forall h :: h in f.armed ==> f.armed[h].owner >= |s.schedules|)
      && (|r.trace| <= k < |f.trace| ==> !f.trace[k].Ran?)
  {
    ReachableKeeps(s);
    ShutdownKeeps(s, {});
    var r := After(s, Call(Shutdown));
    ActionKeeps(s, Shutdown, {});
    assert r.trace[|r.trace| - 1] == Down;
    RunKeeps(r, steps);
    var f := Final(r, steps);
    forall h | h in f.armed ensures f.armed[h].owner >= |s.schedules| {
      assert TimerOk(f, h);
      if f.armed[h].owner < |s.schedules| {
        FlagKeeps(s, {});
        CancelFromSettles(s.(cancelled := true), 0, f.armed[h].owner, {});
      }
    }
    if |r.trace| <= k < |f.trace| && f.trace[k].Ran? {
      LawfulAt(f.plans, f.trace, k);
      assert false;
    }
  }

  /** Scheduling after a shutdown still arms a host timer. */
  lemma ScheduledAfterShutdown(s: State, plan: Plan)
    requires Reachable(s) && s.cancelled && Enabled(s, Call(Submit(plan)))
    ensures var r := After(s, Call(Submit(plan))); s.next in r.armed && r.armed[s.next].owner == |s.schedules| && |s.schedules| in r.live
  {
    ReachableKeeps(s);
  }

  lemma IdleIsReachable()
    ensures Reachable(IDLE)
  {
    assert Legal(IDLE, []) && Final(IDLE, []) == IDLE;
  }

  /** The promises as one step finds and leaves them. */
  lemma StepPromises(s: State, step: Step)
    requires Reachable(s) && Enabled(s, step)
    ensures var r := After(s, step);
      && Reachable(r)
      && (forall h :: h in r.armed ==> r.armed[h].owner in r.live && r.armed[h].length <= MAX_TIMER_DELAY_MS)
      && (forall i, h :: 0 <= i < |s.schedules| && s.schedules[i].settled && h in r.armed ==> r.armed[h].owner != i)
  {
    ReachableKeeps(s);
    ReachableStep(s, step);
    StepKeeps(s, step);
    var r := After(s, step);
    forall h | h in r.armed
      ensures r.armed[h].owner in r.live && r.armed[h].length <= MAX_TIMER_DELAY_MS
      ensures forall i :: 0 <= i < |s.schedules| && s.schedules[i].settled ==> r.armed[h].owner != i
    {
      TimersBelongToLiveSchedules(r, h);
    }
  }
}
