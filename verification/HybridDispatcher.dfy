/**
 `HybridDispatcher` of src/Dispatcher.ts over an event loop with a FIFO microtask queue that
 is drained after every macrotask.  What a running unit submits is chosen freely at each
 step, so the theorems hold for every behaviour of the units.
 */
module HybridDispatchers {

  type Unit = nat

  datatype Hybrid = Hybrid(
    yieldEvery: nat,
    microtaskBurst: nat,
    pending: seq<Unit>,
    yielding: bool,
    // The host: units queued as microtasks, flushes armed as macrotasks, units started,
    // and how many of them in the current turn of the event loop.
    microtasks: seq<Unit>,
    flushes: nat,
    started: seq<Unit>,
    thisTurn: nat)

  /** `assertTurnBudget` admits integers from 1 up. */
  function Fresh(yieldEvery: nat): Hybrid
    requires yieldEvery >= 1
  {
    Hybrid(yieldEvery, 0, [], false, [], 0, [], 0)
  }

  function Executed(h: Hybrid, unit: Unit): Hybrid {
    if h.yielding then h.(pending := h.pending + [unit])
    else if h.microtaskBurst >= h.yieldEvery then
      h.(yielding := true, pending := h.pending + [unit], flushes := h.flushes + 1)
    else h.(microtaskBurst := h.microtaskBurst + 1, microtasks := h.microtasks + [unit])
  }

  function ExecutedAll(h: Hybrid, units: seq<Unit>): Hybrid
    decreases |units|
  {
    if units == [] then h else ExecutedAll(Executed(h, units[0]), units[1..])
  }

  function Flushed(h: Hybrid): Hybrid {
    ExecutedAll(h.(yielding := false, microtaskBurst := 0, pending := []), h.pending)
  }

  datatype Step =
    | Submit(units: seq<Unit>)                // host code running in the current turn submits
    | Start(submits: seq<Unit>)               // the first microtask runs its unit, which submits
    | Turn                                    // the loop takes a macrotask that is not ours
    | Flush                                   // the loop takes our flush

  predicate Enabled(h: Hybrid, step: Step) {
    match step
    case Submit(_) => true
    case Start(_) => h.microtasks != []
    case Turn => h.microtasks == []
    case Flush => h.microtasks == [] && h.flushes > 0
  }

  /** The microtask the host has just taken off its queue is started. */
  function Started(h: Hybrid): Hybrid
    requires h.microtasks != []
  {
    h.(microtasks := h.microtasks[1..], started := h.started + [h.microtasks[0]], thisTurn := h.thisTurn + 1)
  }

  function After(h: Hybrid, step: Step): Hybrid
    requires Enabled(h, step)
  {
    match step
    case Submit(units) => ExecutedAll(h, units)
    case Start(submits) =>
      ExecutedAll(Started(h), submits)
    case Turn => h.(thisTurn := 0)
    case Flush => Flushed(h.(flushes := h.flushes - 1, thisTurn := 0))
  }

  predicate Legal(h: Hybrid, steps: seq<Step>)
    decreases |steps|
  {
    steps == [] || (Enabled(h, steps[0]) && Legal(After(h, steps[0]), steps[1..]))
  }

  function Final(h: Hybrid, steps: seq<Step>): Hybrid
    requires Legal(h, steps)
    decreases |steps|
  {
    if steps == [] then h else Final(After(h, steps[0]), steps[1..])
  }

  function SubmittedBy(step: Step): seq<Unit> {
    match step
    case Submit(units) => units
    case Start(submits) => submits
    case _ => []
  }

  function Submitted(steps: seq<Step>): seq<Unit> {
    if steps == [] then [] else SubmittedBy(steps[0]) + Submitted(steps[1..])
  }

  function Flushes(steps: seq<Step>): nat {
    if steps == [] then 0 else (if steps[0].Flush? then 1 else 0) + Flushes(steps[1..])
  }

  /** Everything handed over: what has started, then what waits, in the order it will start. */
  function Stock(h: Hybrid): seq<Unit> {
    h.started + h.microtasks + h.pending
  }

  ghost predicate Valid(h: Hybrid) {
    && h.yieldEvery >= 1
    && (h.yielding <==> h.pending != [])
    && h.flushes == (if h.yielding then 1 else 0)
    && (h.yielding ==> h.microtaskBurst == h.yieldEvery)
    && h.thisTurn + |h.microtasks| <= h.microtaskBurst <= h.yieldEvery
  }

  lemma ExecutedKeeps(h: Hybrid, unit: Unit)
    requires Valid(h)
    ensures Valid(Executed(h, unit)) && Stock(Executed(h, unit)) == Stock(h) + [unit]
  {
  }

  lemma {:induction false} ExecutedAllKeeps(h: Hybrid, units: seq<Unit>)
    requires Valid(h)
    ensures var r := ExecutedAll(h, units);
      && Valid(r) && r.yieldEvery == h.yieldEvery && r.started == h.started && r.thisTurn == h.thisTurn
      && Stock(r) == Stock(h) + units && |h.microtasks| <= |r.microtasks|
    decreases |units|
  {
    if units == [] {
    } else {
      ExecutedKeeps(h, units[0]);
      ExecutedAllKeeps(Executed(h, units[0]), units[1..]);
      assert Stock(h) + [units[0]] + units[1..] == Stock(h) + units;
    }
  }

  lemma {:induction false} ExecutedAllQueues(h: Hybrid, units: seq<Unit>)
    requires h.yielding
    ensures ExecutedAll(h, units) == h.(pending := h.pending + units)
    decreases |units|
  {
    if units == [] {
      assert h.pending + units == h.pending;
    } else {
      ExecutedAllQueues(Executed(h, units[0]), units[1..]);
      assert h.pending + [units[0]] + units[1..] == h.pending + units;
    }
  }

  function First(units: seq<Unit>, room: nat): seq<Unit> { if |units| <= room then units else units[..room] }

  function Rest(units: seq<Unit>, room: nat): seq<Unit> { if |units| <= room then [] else units[room..] }

  lemma FirstAndRest(units: seq<Unit>, room: nat)
    requires units != [] && room > 0
    ensures First(units, room) == [units[0]] + First(units[1..], room - 1)
    ensures Rest(units, room) == Rest(units[1..], room - 1)
  {
    if |units| <= room {
      assert units == [units[0]] + units[1..];
    } else {
      assert units[..room] == [units[0]] + units[1..][..room - 1];
      assert units[room..] == units[1..][room - 1..];
    }
  }

  /** From a dispatcher that is not yielding: the budget's worth goes to the microtask queue, the rest waits. */
  lemma {:induction false} ExecutedAllSplits(h: Hybrid, units: seq<Unit>)
    requires Valid(h) && !h.yielding
    ensures var room := h.yieldEvery - h.microtaskBurst;
      var r := ExecutedAll(h, units);
      r.microtasks == h.microtasks + First(units, room) && r.pending == Rest(units, room)
    decreases |units|
  {
    var room := h.yieldEvery - h.microtaskBurst;
    if units == [] {
      assert h.microtasks + First(units, room) == h.microtasks;
    } else if room == 0 {
      ExecutedAllQueues(Executed(h, units[0]), units[1..]);
      assert [units[0]] + units[1..] == units == units[0..];
      assert h.microtasks + units[..0] == h.microtasks;
    } else {
      ExecutedAllSplits(Executed(h, units[0]), units[1..]);
      FirstAndRest(units, room);
      var more := First(units[1..], room - 1);
      assert h.microtasks + [units[0]] + more == h.microtasks + ([units[0]] + more);
    }
  }

  /** What a flush does: one budget's worth of the waiting units moves up, in order. */
  lemma FlushSplits(h: Hybrid)
    requires Valid(h) && h.microtasks == [] && h.flushes > 0
    ensures var r := After(h, Flush);
      && Valid(r) && r.yieldEvery == h.yieldEvery && r.started == h.started
      && r.microtasks == First(h.pending, h.yieldEvery) && r.pending == Rest(h.pending, h.yieldEvery)
  {
    var cleared := h.(flushes := h.flushes - 1, thisTurn := 0, yielding := false, microtaskBurst := 0, pending := []);
    ExecutedAllKeeps(cleared, h.pending);
    ExecutedAllSplits(cleared, h.pending);
  }

  lemma StepKeeps(h: Hybrid, step: Step)
    requires Valid(h) && Enabled(h, step)
    ensures Valid(After(h, step)) && After(h, step).yieldEvery == h.yieldEvery
    ensures Stock(After(h, step)) == Stock(h) + SubmittedBy(step)
  {
    match step
    case Submit(units) => ExecutedAllKeeps(h, units);
    case Start(submits) =>
      assert Stock(Started(h)) == Stock(h);
      ExecutedAllKeeps(Started(h), submits);
    case Turn =>
    case Flush => FlushSplits(h);
  }

  lemma Assoc(a: seq<Unit>, b: seq<Unit>, c: seq<Unit>)
    ensures a + b + c == a + (b + c)
  {
  }

  lemma {:induction false} RunKeeps(h: Hybrid, steps: seq<Step>)
    requires Valid(h) && Legal(h, steps)
    ensures var r := Final(h, steps);
      Valid(r) && r.yieldEvery == h.yieldEvery && Stock(r) == Stock(h) + Submitted(steps)
    decreases |steps|
  {
    if steps == [] {
    } else {
      var next := After(h, steps[0]);
      StepKeeps(h, steps[0]);
      RunKeeps(next, steps[1..]);
      calc {
        Stock(Final(next, steps[1..]));
        Stock(next) + Submitted(steps[1..]);
        Stock(h) + SubmittedBy(steps[0]) + Submitted(steps[1..]);
        { Assoc(Stock(h), SubmittedBy(steps[0]), Submitted(steps[1..])); }
        Stock(h) + Submitted(steps);
      }
    }
  }

  /**
   In every run: units start exactly once and in submission order, at most `yieldEvery` of them
   in one turn of the event loop, and when nothing is queued or armed all of them have started.
   */
  lemma HybridStartsInOrder(yieldEvery: nat, steps: seq<Step>)
    requires yieldEvery >= 1 && Legal(Fresh(yieldEvery), steps)
    ensures var r := Final(Fresh(yieldEvery), steps);
      && r.started + r.microtasks + r.pending == Submitted(steps)
      && r.thisTurn <= yieldEvery
      && (r.pending != [] ==> r.flushes == 1)
      && (r.microtasks == [] && r.flushes == 0 ==> r.started == Submitted(steps))
  {
    RunKeeps(Fresh(yieldEvery), steps);
  }

  /** How many units have left `pending` for the microtask queue. */
  function Released(h: Hybrid): nat { |h.started| + |h.microtasks| }

  lemma StepReleases(h: Hybrid, step: Step, j: nat)
    requires Valid(h) && Enabled(h, step) && j < |h.pending|
    ensures var r := After(h, step);
      if !step.Flush? then Released(r) == Released(h) && j < |r.pending| && r.pending[j] == h.pending[j]
      else if j < h.yieldEvery then Released(r) > Released(h) + j
      else Released(r) == Released(h) + h.yieldEvery
           && j - h.yieldEvery < |r.pending| && r.pending[j - h.yieldEvery] == h.pending[j]
  {
    match step
    case Submit(units) => ExecutedAllQueues(h, units);
    case Start(submits) => ExecutedAllQueues(Started(h), submits);
    case Turn =>
    case Flush => FlushSplits(h);
  }

  lemma ReleasedGrows(h: Hybrid, step: Step)
    requires Valid(h) && Enabled(h, step)
    ensures Released(After(h, step)) >= Released(h)
  {
    match step
    case Submit(units) => ExecutedAllKeeps(h, units);
    case Start(submits) => ExecutedAllKeeps(Started(h), submits);
    case Turn =>
    case Flush => FlushSplits(h);
  }

  lemma {:induction false} RunReleasesMore(h: Hybrid, steps: seq<Step>)
    requires Valid(h) && Legal(h, steps)
    ensures Released(Final(h, steps)) >= Released(h)
    decreases |steps|
  {
    if steps == [] {
    } else {
      StepKeeps(h, steps[0]);
      ReleasedGrows(h, steps[0]);
      RunReleasesMore(After(h, steps[0]), steps[1..]);
    }
  }

  /** How many units the flushes among `steps` make room for. */
  function Moved(steps: seq<Step>, budget: nat): nat {
    if steps == [] then 0 else (if steps[0].Flush? then budget else 0) + Moved(steps[1..], budget)
  }

  lemma {:induction false} MovedIsProduct(steps: seq<Step>, budget: nat)
    ensures Moved(steps, budget) == Flushes(steps) * budget
  {
    if steps == [] {
    } else {
      MovedIsProduct(steps[1..], budget);
      OnceMore(Flushes(steps[1..]), budget);
    }
  }

  lemma OnceMore(k: nat, n: nat)
    ensures (1 + k) * n == n + k * n
  {
  }

  lemma {:induction false} ReleasedAfterBudgets(h: Hybrid, steps: seq<Step>, j: nat)
    requires Valid(h) && Legal(h, steps) && j < |h.pending|
    ensures var r := Final(h, steps);
      var moved := Moved(steps, h.yieldEvery);
      if moved > j then Released(h) + j < Released(r)
      else Released(r) == Released(h) + moved && j - moved < |r.pending| && r.pending[j - moved] == h.pending[j]
    decreases |steps|
  {
    if steps == [] {
    } else {
      var next := After(h, steps[0]);
      StepKeeps(h, steps[0]);
      StepReleases(h, steps[0], j);
      if !steps[0].Flush? {
        ReleasedAfterBudgets(next, steps[1..], j);
      } else if j < h.yieldEvery {
        RunReleasesMore(next, steps[1..]);
      } else {
        ReleasedAfterBudgets(next, steps[1..], j - h.yieldEvery);
      }
    }
  }

  /**
   No unit starves: whatever else happens, the unit at index `j` of `pending` goes to the
   microtask queue with exactly the (j / yieldEvery + 1)-th flush from now.
   */
  lemma ReleasedByExactlyThatFlush(h: Hybrid, steps: seq<Step>, j: nat)
    requires Valid(h) && Legal(h, steps) && j < |h.pending|
    ensures Released(h) + j < Released(Final(h, steps)) <==> Flushes(steps) >= j / h.yieldEvery + 1
  {
    ReleasedAfterBudgets(h, steps, j);
    MovedIsProduct(steps, h.yieldEvery);
    BudgetsNeeded(j, h.yieldEvery, Flushes(steps));
  }

  lemma BudgetsNeeded(j: nat, budget: nat, flushes: nat)
    requires budget >= 1
    ensures flushes * budget > j <==> flushes >= j / budget + 1
  {
    var q := j / budget;
    assert q * budget <= j < q * budget + budget;
    if flushes > q {
      NoLess(q + 1, flushes, budget);
      OnceMore(q, budget);
    } else {
      NoLess(flushes, q, budget);
    }
  }

  lemma NoLess(a: nat, b: nat, n: nat)
    requires a <= b
    ensures a * n <= b * n
  {
  }

  /** The dispatcher itself, with the host's two queues beside it. */
  class HybridDispatcher {
    const yieldEvery: nat
    var microtaskBurst: nat
    var pending: seq<Unit>
    var yielding: bool
    var microtasks: seq<Unit>
    var flushes: nat
    var started: seq<Unit>
    var thisTurn: nat

    ghost function View(): Hybrid
      reads this
    {
      Hybrid(yieldEvery, microtaskBurst, pending, yielding, microtasks, flushes, started, thisTurn)
    }

    constructor (yieldEvery: nat)
      requires yieldEvery >= 1
      ensures View() == Fresh(yieldEvery)
    {
      this.yieldEvery := yieldEvery;
      microtaskBurst, pending, yielding, microtasks, flushes, started, thisTurn := 0, [], false, [], 0, [], 0;
    }

    method Execute(unit: Unit)
      modifies this
      ensures View() == Executed(old(View()), unit)
    {
      if yielding {
        pending := pending + [unit];
        return;
      }
      if microtaskBurst >= yieldEvery {
        yielding := true;
        pending := pending + [unit];
        flushes := flushes + 1;
        return;
      }
      microtaskBurst := microtaskBurst + 1;
      microtasks := microtasks + [unit];
    }

    /** The macrotask `execute` arms: re-enter `Execute` with a fresh budget, in arrival order. */
    method Flush()
      requires flushes > 0 && microtasks == []
      modifies this
      ensures View() == After(old(View()), Step.Flush)
    {
      flushes, thisTurn := flushes - 1, 0;
      yielding := false;
      microtaskBurst := 0;
      var queued := pending;
      pending := [];
      ghost var start := View();
      for i := 0 to |queued|
        invariant ExecutedAll(View(), queued[i..]) == ExecutedAll(start, queued)
      {
        Execute(queued[i]);
        assert queued[i..][1..] == queued[i + 1..];
      }
    }

    /** The host runs the first microtask; its unit submits more units while it runs. */
    method StartNext(submits: seq<Unit>)
      requires microtasks != []
      modifies this
      ensures View() == After(old(View()), Step.Start(submits))
    {
      started := started + [microtasks[0]];
      microtasks := microtasks[1..];
      thisTurn := thisTurn + 1;
      ghost var start := View();
      for i := 0 to |submits|
        invariant ExecutedAll(View(), submits[i..]) == ExecutedAll(start, submits)
      {
        Execute(submits[i]);
        assert submits[i..][1..] == submits[i + 1..];
      }
    }
  }
}
