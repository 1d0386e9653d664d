/**
 `ThroughputDispatcher` of src/Dispatcher.ts: a queue drained in macrotasks, at most
 `throughput` units each.  A unit may submit more units while it runs.
 */
module ThroughputDispatchers {

  type Unit = nat

  datatype Throughput = Throughput(
    throughput: nat,
    queue: seq<Unit>,
    scheduled: bool,
    // The host: drains armed as macrotasks, and the units started so far.
    armed: nat,
    started: seq<Unit>)

  function Fresh(throughput: nat): Throughput
    requires throughput >= 1
  {
    Throughput(throughput, [], false, 0, [])
  }

  function Executed(d: Throughput, unit: Unit): Throughput {
    var queued := d.(queue := d.queue + [unit]);
    if d.scheduled then queued else queued.(scheduled := true, armed := d.armed + 1)
  }

  function ExecutedAll(d: Throughput, units: seq<Unit>): (r: Throughput)
    ensures r.throughput == d.throughput && r.started == d.started
    decreases |units|
  {
    if units == [] then d else ExecutedAll(Executed(d, units[0]), units[1..])
  }

  /** What the units of one drain submit: `submits(i)` is what its `i`-th unit submits while it runs. */
  type Behaviour = nat -> seq<Unit>

  function StartedNext(d: Throughput): Throughput
    requires d.queue != []
  {
    d.(queue := d.queue[1..], started := d.started + [d.queue[0]])
  }

  function DrainLoop(d: Throughput, processed: nat, submits: Behaviour): (r: Throughput)
    ensures |r.started| >= |d.started|
    decreases d.throughput - processed
  {
    if processed < d.throughput && d.queue != [] then
      DrainLoop(ExecutedAll(StartedNext(d), submits(processed)), processed + 1, submits)
    else d
  }

  function Drained(d: Throughput, submits: Behaviour): Throughput
    requires d.armed > 0
  {
    var r := DrainLoop(d.(armed := d.armed - 1, scheduled := false), 0, submits);
    if r.queue != [] then r.(scheduled := true, armed := r.armed + 1) else r
  }

  datatype Step = Submit(units: seq<Unit>) | Drain(submits: Behaviour)

  predicate Enabled(d: Throughput, step: Step) { step.Drain? ==> d.armed > 0 }

  function After(d: Throughput, step: Step): Throughput
    requires Enabled(d, step)
  {
    match step
    case Submit(units) => ExecutedAll(d, units)
    case Drain(submits) => Drained(d, submits)
  }

  predicate Legal(d: Throughput, steps: seq<Step>)
    decreases |steps|
  {
    steps == [] || (Enabled(d, steps[0]) && Legal(After(d, steps[0]), steps[1..]))
  }

  function Final(d: Throughput, steps: seq<Step>): Throughput
    requires Legal(d, steps)
    decreases |steps|
  {
    if steps == [] then d else Final(After(d, steps[0]), steps[1..])
  }

  /** Everything the units `lo`, ..., `hi - 1` of a drain submit, in order. */
  function Submissions(submits: Behaviour, lo: nat, hi: nat): seq<Unit>
    requires lo <= hi
    decreases hi - lo
  {
    if lo == hi then [] else submits(lo) + Submissions(submits, lo + 1, hi)
  }

  /** How many units a step starts. */
  function Starts(d: Throughput, step: Step): nat
    requires Enabled(d, step)
  {
    |After(d, step).started| - |d.started|
  }

  function SubmittedBy(d: Throughput, step: Step): seq<Unit>
    requires Enabled(d, step)
  {
    match step
    case Submit(units) => units
    case Drain(submits) => Submissions(submits, 0, Starts(d, step))
  }

  function Submitted(d: Throughput, steps: seq<Step>): seq<Unit>
    requires Legal(d, steps)
    decreases |steps|
  {
    if steps == [] then [] else SubmittedBy(d, steps[0]) + Submitted(After(d, steps[0]), steps[1..])
  }

  /** Between two steps: work that is queued has a drain armed for it. */
  ghost predicate Valid(d: Throughput) {
    d.throughput >= 1 && (d.queue != [] ==> d.scheduled) && (d.scheduled ==> d.armed >= 1)
  }

  lemma {:induction false} ExecutedAllQueues(d: Throughput, units: seq<Unit>)
    ensures ExecutedAll(d, units) ==
      d.(queue := d.queue + units,
         scheduled := d.scheduled || units != [],
         armed := d.armed + if d.scheduled || units == [] then 0 else 1)
    decreases |units|
  {
    if units == [] {
      assert d.queue + units == d.queue;
    } else {
      ExecutedAllQueues(Executed(d, units[0]), units[1..]);
      assert d.queue + [units[0]] + units[1..] == d.queue + units;
    }
  }

  /** One turn of the drain loop: a unit is started and what it submits joins the queue. */
  lemma UnitKeeps(d: Throughput, units: seq<Unit>)
    requires d.queue != []
    ensures var r := ExecutedAll(StartedNext(d), units);
      && r.started + r.queue == d.started + d.queue + units && |r.started| == |d.started| + 1
      && r.scheduled == (d.scheduled || units != [])
      && r.armed == d.armed + if d.scheduled || units == [] then 0 else 1
  {
    ExecutedAllQueues(StartedNext(d), units);
    assert d.started + [d.queue[0]] + d.queue[1..] == d.started + d.queue;
    assert StartedNext(d).started + (StartedNext(d).queue + units) == d.started + d.queue + units;
  }

  lemma {:induction false} DrainLoopKeeps(d: Throughput, processed: nat, submits: Behaviour) returns (n: nat)
    requires processed <= d.throughput
    ensures var r := DrainLoop(d, processed, submits);
      && r.throughput == d.throughput && |r.started| == |d.started| + n
      && n <= d.throughput - processed && (r.queue == [] || n == d.throughput - processed)
      && (d.queue != [] && processed < d.throughput ==> n >= 1)
      && r.started + r.queue == d.started + d.queue + Submissions(submits, processed, processed + n)
      && r.scheduled == (d.scheduled || Submissions(submits, processed, processed + n) != [])
      && r.armed == d.armed + if d.scheduled || !r.scheduled then 0 else 1
    decreases d.throughput - processed
  {
    if processed < d.throughput && d.queue != [] {
      UnitKeeps(d, submits(processed));
      n := DrainLoopKeeps(ExecutedAll(StartedNext(d), submits(processed)), processed + 1, submits);
      n := n + 1;
      Assoc(d.started + d.queue, submits(processed), Submissions(submits, processed + 1, processed + n));
    } else {
      n := 0;
    }
  }

  lemma Assoc(a: seq<Unit>, b: seq<Unit>, c: seq<Unit>)
    ensures a + b + c == a + (b + c)
  {
  }

  /** One drain: how much it starts, what order it keeps, and how many drains are armed after it. */
  lemma DrainKeeps(d: Throughput, submits: Behaviour)
    requires Valid(d) && d.armed > 0
    ensures var r := Drained(d, submits);
      var n := Starts(d, Drain(submits));
      && Valid(r) && r.throughput == d.throughput && |r.started| == |d.started| + n
      && n <= d.throughput && (d.queue != [] ==> n >= 1) && (r.queue == [] || n == d.throughput)
      && r.started + r.queue == d.started + d.queue + Submissions(submits, 0, n)
      && r.armed == d.armed - 1 + (if Submissions(submits, 0, n) != [] then 1 else 0) + (if r.queue != [] then 1 else 0)
  {
    var n := DrainLoopKeeps(d.(armed := d.armed - 1, scheduled := false), 0, submits);
  }

  lemma {:induction false} RunKeeps(d: Throughput, steps: seq<Step>)
    requires Valid(d) && Legal(d, steps)
    ensures var r := Final(d, steps);
      && Valid(r) && r.throughput == d.throughput
      && r.started + r.queue == d.started + d.queue + Submitted(d, steps)
    decreases |steps|
  {
    if steps == [] {
    } else {
      var next := After(d, steps[0]);
      match steps[0] {
        case Submit(units) =>
          ExecutedAllQueues(d, units);
          assert next.started + next.queue == d.started + d.queue + units;
        case Drain(submits) => DrainKeeps(d, submits);
      }
      RunKeeps(next, steps[1..]);
      Assoc(d.started + d.queue, SubmittedBy(d, steps[0]), Submitted(next, steps[1..]));
    }
  }

  /**
   In every run: units start exactly once and in submission order, and no wake-up is lost: while
   units are queued a drain is armed, so once none is armed every unit has started.
   */
  lemma ThroughputStartsInOrder(throughput: nat, steps: seq<Step>)
    requires throughput >= 1 && Legal(Fresh(throughput), steps)
    ensures var r := Final(Fresh(throughput), steps);
      && r.started + r.queue == Submitted(Fresh(throughput), steps)
      && (r.queue != [] ==> r.armed >= 1)
      && (r.armed == 0 ==> r.started == Submitted(Fresh(throughput), steps))
  {
    RunKeeps(Fresh(throughput), steps);
  }

  // ---- "At most one drain is armed" does not hold ----

  /** The backlog never runs out while the rest of a drain's budget is spent on it. */
  predicate StaysAhead(backlog: nat, submits: Behaviour, processed: nat, throughput: nat)
    requires processed <= throughput
    decreases throughput - processed
  {
    backlog > 0 && (processed < throughput ==> StaysAhead(backlog - 1 + |submits(processed)|, submits, processed + 1, throughput))
  }

  lemma {:induction false} WorkIsLeftWhenAhead(d: Throughput, processed: nat, submits: Behaviour)
    requires processed <= d.throughput
    ensures DrainLoop(d, processed, submits).queue != [] <==> StaysAhead(|d.queue|, submits, processed, d.throughput)
    decreases d.throughput - processed
  {
    if processed < d.throughput && d.queue != [] {
      ExecutedAllQueues(StartedNext(d), submits(processed));
      WorkIsLeftWhenAhead(ExecutedAll(StartedNext(d), submits(processed)), processed + 1, submits);
    }
  }

  lemma {:induction false} SubmissionsEmpty(submits: Behaviour, lo: nat, hi: nat)
    requires lo <= hi
    ensures Submissions(submits, lo, hi) == [] <==> (forall i :: lo <= i < hi ==> submits(i) == [])
    decreases hi - lo
  {
    if lo < hi {
      SubmissionsEmpty(submits, lo + 1, hi);
    }
  }

  /**
   From one armed drain, a second one is armed afterwards exactly when a unit of the drain
   submits and the backlog outlasts the budget: `execute` arms one, the tail of `drain` another.
   */
  lemma SecondDrainArmedExactlyWhen(d: Throughput, submits: Behaviour)
    requires Valid(d) && d.armed == 1
    ensures Drained(d, submits).armed > 1 <==>
      StaysAhead(|d.queue|, submits, 0, d.throughput) && exists i :: 0 <= i < d.throughput && submits(i) != []
  {
    DrainKeeps(d, submits);
    WorkIsLeftWhenAhead(d.(armed := 0, scheduled := false), 0, submits);
    SubmissionsEmpty(submits, 0, d.throughput);
  }

  /** A dispatcher whose units keep its queue one longer than the budget. */
  function Refilling(throughput: nat): Behaviour {
    i => if i == 0 then seq(throughput, i => 0) else []
  }

  lemma {:induction false} RefillStaysAhead(backlog: nat, throughput: nat, processed: nat)
    requires 1 <= processed <= throughput && backlog > throughput - processed
    ensures StaysAhead(backlog, Refilling(throughput), processed, throughput)
    decreases throughput - processed
  {
    if processed < throughput {
      RefillStaysAhead(backlog - 1, throughput, processed + 1);
    }
  }

  lemma {:induction false} RefillSubmits(throughput: nat, hi: nat)
    requires 1 <= hi
    ensures |Submissions(Refilling(throughput), 0, hi)| == throughput
  {
    SubmissionsEmpty(Refilling(throughput), 1, hi);
  }

  /** The number of armed drains has no bound: after `n` drains of refilling units, n + 1 are armed. */
  lemma {:induction false} ArmedDrainsAreUnbounded(throughput: nat, n: nat) returns (steps: seq<Step>)
    requires throughput >= 1
    ensures Legal(Fresh(throughput), steps)
    ensures var r := Final(Fresh(throughput), steps);
      Valid(r) && r.throughput == throughput && r.armed == n + 1 && |r.queue| == throughput + 1
  {
    if n == 0 {
      var units := seq(throughput + 1, i => 0);
      steps := [Submit(units)];
      ExecutedAllQueues(Fresh(throughput), units);
      assert After(Fresh(throughput), Submit(units)).queue == units;
      assert steps[1..] == [];
    } else {
      var earlier := ArmedDrainsAreUnbounded(throughput, n - 1);
      var step := Drain(Refilling(throughput));
      steps := earlier + [step];
      var d := Final(Fresh(throughput), earlier);
      FinalAppend(Fresh(throughput), earlier, step);
      DrainKeeps(d, Refilling(throughput));
      RefillStaysAhead(2 * throughput, throughput, 1);
      WorkIsLeftWhenAhead(d.(armed := d.armed - 1, scheduled := false), 0, Refilling(throughput));
      RefillSubmits(throughput, throughput);
    }
  }

  lemma {:induction false} FinalAppend(d: Throughput, steps: seq<Step>, step: Step)
    requires Legal(d, steps) && Enabled(Final(d, steps), step)
    ensures Legal(d, steps + [step]) && Final(d, steps + [step]) == After(Final(d, steps), step)
    decreases |steps|
  {
    if steps == [] {
      assert (steps + [step])[1..] == [];
    } else {
      FinalAppend(After(d, steps[0]), steps[1..], step);
      assert (steps + [step])[1..] == steps[1..] + [step];
    }
  }

  class ThroughputDispatcher {
    const throughput: nat
    var queue: seq<Unit>
    var scheduled: bool
    var armed: nat
    var started: seq<Unit>

    ghost function View(): Throughput
      reads this
    {
      Throughput(throughput, queue, scheduled, armed, started)
    }

    constructor (throughput: nat)
      requires throughput >= 1
      ensures View() == Fresh(throughput)
    {
      this.throughput := throughput;
      queue, scheduled, armed, started := [], false, 0, [];
    }

    method Execute(unit: Unit)
      modifies this
      ensures View() == Executed(old(View()), unit)
    {
      queue := queue + [unit];
      if !scheduled {
        scheduled := true;
        armed := armed + 1;
      }
    }

    method ExecuteEach(units: seq<Unit>)
      modifies this
      ensures View() == ExecutedAll(old(View()), units)
    {
      for i := 0 to |units|
        invariant ExecutedAll(View(), units[i..]) == ExecutedAll(old(View()), units)
      {
        Execute(units[i]);
        assert units[i..][1..] == units[i + 1..];
      }
    }

    /** Take the first unit off the queue and run it; `units` is what it submits meanwhile. */
    method RunNext(units: seq<Unit>)
      requires queue != []
      modifies this
      ensures View() == ExecutedAll(StartedNext(old(View())), units)
    {
      started := started + [queue[0]];
      queue := queue[1..];
      ExecuteEach(units);
    }

    /** `submits(i)` is what the `i`-th unit of this drain submits while it runs. */
    method Drain(submits: Behaviour)
      requires armed > 0
      modifies this
      ensures View() == Drained(old(View()), submits)
    {
      armed := armed - 1;
      scheduled := false;
      ghost var target := DrainLoop(View(), 0, submits);
      var processed := 0;
      while processed < throughput && |queue| > 0
        invariant processed <= throughput
        invariant DrainLoop(View(), processed, submits) == target
      {
        RunNext(submits(processed));
        processed := processed + 1;
      }
      if |queue| > 0 {
        scheduled := true;
        armed := armed + 1;
      }
    }
  }
}
