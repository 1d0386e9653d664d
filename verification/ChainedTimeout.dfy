/** The host's one-shot timers, as far as a schedule needs them. */
module HostTimers {

  /** The longest delay one host timer holds (src/util/Constants.ts). */
  const MAX_TIMER_DELAY_MS := 2_147_483_647

  /** How long a chain with `ms` to go asks the host to wait. */
  function Link(ms: int): int { if ms < MAX_TIMER_DELAY_MS then ms else MAX_TIMER_DELAY_MS }
}

/**
 A one-shot armed as a chain of host timers, none longer than the host can hold
 (src/Scheduler.ts, `ChainedTimeout`), and the one ideal timer it stands for.
 */
module ChainedTimeouts {
  import opened Options
  import opened HostTimers

  /** The chain: what is left behind the armed link, the link, and what has happened. */
  datatype Chain = Chain(
    remaining: int,
    handle: Option<int>,                // the armed link's length
    settled: bool,
    elapsed: seq<int>,                  // the links that ran out
    calls: nat)                         // of the callback

  datatype Step = Elapse | Cancel

  function Armed(c: Chain): Chain {
    c.(remaining := c.remaining - Link(c.remaining), handle := Some(Link(c.remaining)))
  }

  function Started(delay: int): Chain { Armed(Chain(delay, None, false, [], 0)) }

  function Elapsed(c: Chain): Chain
    requires c.handle.Some?
  {
    var e := c.(handle := None, elapsed := c.elapsed + [c.handle.value]);
    if e.remaining > 0 then Armed(e) else e.(settled := true, calls := e.calls + 1)
  }

  function Cancelled(c: Chain): Chain {
    if c.settled then c else c.(settled := true, handle := None)
  }

  predicate Legal(c: Chain, steps: seq<Step>)
    decreases |steps|
  {
    steps == [] || ((steps[0].Elapse? ==> c.handle.Some?) && Legal(After(c, steps[0]), steps[1..]))
  }

  function After(c: Chain, step: Step): Chain
    requires step.Elapse? ==> c.handle.Some?
  {
    if step.Elapse? then Elapsed(c) else Cancelled(c)
  }

  function Final(c: Chain, steps: seq<Step>): Chain
    requires Legal(c, steps)
    decreases |steps|
  {
    if steps == [] then c else Final(After(c, steps[0]), steps[1..])
  }

  // ---- The links of a delay ----

  /** The lengths the chain arms for a delay, in order. */
  function Links(delay: int): seq<int>
    decreases if delay > 0 then delay else 0
  {
    if delay - Link(delay) > 0 then [Link(delay)] + Links(delay - Link(delay)) else [Link(delay)]
  }

  function Sum(ms: seq<int>): int {
    if ms == [] then 0 else ms[0] + Sum(ms[1..])
  }

  /** The links add up to the delay, none is longer than the host holds, and there are no more than it takes. */
  lemma {:induction false} LinksMakeTheDelay(delay: int)
    ensures Sum(Links(delay)) == delay
    ensures forall k :: 0 <= k < |Links(delay)| ==> Links(delay)[k] <= MAX_TIMER_DELAY_MS
    ensures |Links(delay)| == if delay <= 0 then 1 else (delay + MAX_TIMER_DELAY_MS - 1) / MAX_TIMER_DELAY_MS
    decreases if delay > 0 then delay else 0
  {
    var rest := delay - Link(delay);
    if rest > 0 {
      LinksMakeTheDelay(rest);
      assert Links(delay)[1..] == Links(rest);
    } else {
      assert Links(delay)[1..] == [];
    }
  }

  // ---- The ideal timer ----

  /** Steps up to the first cancel. */
  function BeforeCancel(steps: seq<Step>): nat {
    if steps == [] || steps[0].Cancel? then 0 else 1 + BeforeCancel(steps[1..])
  }

  /** Of the links of `delay`, `gone` have run out, `armed` is armed, and `remaining` is left behind it. */
  ghost predicate Ahead(gone: seq<int>, armed: int, remaining: int, delay: int) {
    Links(delay) == gone + [armed] + (if remaining > 0 then Links(remaining) else [])
  }

  lemma AheadAtFirst(delay: int)
    ensures Ahead([], Link(delay), delay - Link(delay), delay)
  {
  }

  lemma AheadNext(gone: seq<int>, armed: int, remaining: int, delay: int)
    requires Ahead(gone, armed, remaining, delay) && remaining > 0
    ensures Ahead(gone + [armed], Link(remaining), remaining - Link(remaining), delay)
  {
    var rest := if remaining - Link(remaining) > 0 then Links(remaining - Link(remaining)) else [];
    assert Links(remaining) == [Link(remaining)] + rest;
    assert gone + [armed] + ([Link(remaining)] + rest) == gone + [armed] + [Link(remaining)] + rest;
  }

  lemma AheadAtLast(gone: seq<int>, armed: int, remaining: int, delay: int)
    requires Ahead(gone, armed, remaining, delay) && remaining <= 0
    ensures gone + [armed] == Links(delay)
  {
  }

  /** The chain as a view of the delay: links gone, the armed one, and the links to come. */
  ghost predicate Runs(c: Chain, delay: int) {
    c.calls == 0 && !c.settled && c.handle.Some? && Ahead(c.elapsed, c.handle.value, c.remaining, delay)
  }

  lemma StartedRuns(delay: int)
    ensures Runs(Started(delay), delay)
  {
    AheadAtFirst(delay);
  }

  lemma ElapseRuns(c: Chain, delay: int)
    requires Runs(c, delay)
    ensures c.remaining > 0 ==> Runs(Elapsed(c), delay)
    ensures c.remaining <= 0 ==> Elapsed(c) == c.(handle := None, elapsed := Links(delay), settled := true, calls := 1)
  {
    if c.remaining > 0 {
      AheadNext(c.elapsed, c.handle.value, c.remaining, delay);
    } else {
      AheadAtLast(c.elapsed, c.handle.value, c.remaining, delay);
    }
  }

  /** Once settled, nothing is armed and nothing follows. */
  lemma {:induction false} SettledStays(c: Chain, steps: seq<Step>)
    requires c.settled && c.handle.None? && Legal(c, steps)
    ensures Final(c, steps) == c
    decreases |steps|
  {
    if steps == [] {
    } else {
      SettledStays(After(c, steps[0]), steps[1..]);
    }
  }

  /** The links of `delay` that are gone by the end of `steps`. */
  ghost predicate Outcome(f: Chain, delay: int, n: nat) {
    if n < |Links(delay)| then f.calls == 0 && f.elapsed == Links(delay)[..n] else f.calls == 1 && f.elapsed == Links(delay)
  }

  lemma RunningOutcome(c: Chain, delay: int)
    requires Runs(c, delay)
    ensures Outcome(c, delay, |c.elapsed|) && Outcome(Cancelled(c), delay, |c.elapsed|)
  {
    assert Links(delay)[..|c.elapsed|] == c.elapsed;
  }

  lemma {:induction false} RunsToTheEnd(c: Chain, delay: int, steps: seq<Step>)
    requires Runs(c, delay) && Legal(c, steps)
    ensures Outcome(Final(c, steps), delay, |c.elapsed| + BeforeCancel(steps))
    ensures BeforeCancel(steps) < |steps| ==> Final(c, steps).handle.None?
    decreases |steps|
  {
    if steps == [] {
      RunningOutcome(c, delay);
    } else if steps[0].Cancel? {
      RunningOutcome(c, delay);
      SettledStays(Cancelled(c), steps[1..]);
    } else {
      ElapseRuns(c, delay);
      if c.remaining > 0 {
        RunsToTheEnd(Elapsed(c), delay, steps[1..]);
      } else {
        AheadAtLast(c.elapsed, c.handle.value, c.remaining, delay);
        SettledStays(Elapsed(c), steps[1..]);
      }
    }
  }

  /**
   Over every run, a chain behaves as one timer of the requested delay: the callback is called, and
   called once, exactly when all its links ran out ahead of any cancel, which is when the elapsed
   links add up to the delay; after a cancel no link is armed.
   */
  lemma ChainIsOneTimer(delay: int, steps: seq<Step>)
    requires Legal(Started(delay), steps)
    ensures var f := Final(Started(delay), steps);
      && f.calls <= 1
      && (f.calls == 1 <==> BeforeCancel(steps) >= |Links(delay)|)
      && (f.calls == 1 ==> f.elapsed == Links(delay) && Sum(f.elapsed) == delay)
      && (f.calls == 0 ==> f.elapsed == Links(delay)[..BeforeCancel(steps)])
      && (BeforeCancel(steps) < |steps| ==> f.handle.None?)
  {
    StartedRuns(delay);
    RunsToTheEnd(Started(delay), delay, steps);
    LinksMakeTheDelay(delay);
  }

  /** The object: `hostTimers` is the caller's, here the armed link alone. */
  class ChainedTimeout {
    const delay: int
    var remaining: int
    var handle: Option<int>
    var settled: bool
    ghost var elapsed: seq<int>
    ghost var calls: nat

    ghost function View(): Chain
      reads this
    {
      Chain(remaining, handle, settled, elapsed, calls)
    }

    /** A link is armed and the rest follows it, or the chain is over: called after the whole delay, or not at all. */
    ghost predicate Valid()
      reads this
    {
      && (handle.Some? ==> Runs(View(), delay) && handle.value <= MAX_TIMER_DELAY_MS)
      && (handle.None? ==> settled && calls <= 1 && (calls == 1 ==> elapsed == Links(delay)))
    }

    constructor (delay: int)
      ensures Valid() && this.delay == delay && calls == 0
    {
      this.delay := delay;
      remaining, handle, settled, elapsed, calls := delay, None, false, [], 0;
      new;
      ArmNextLink();
      StartedRuns(delay);
    }

    method ArmNextLink()
      modifies this
      ensures View() == Armed(old(View()))
    {
      var link := if remaining < MAX_TIMER_DELAY_MS then remaining else MAX_TIMER_DELAY_MS;
      remaining := remaining - link;
      handle := Some(link);
    }

    /** The callback fires exactly when the links that ran out make up the delay; until then one is armed. */
    method OnLinkElapsed() returns (fires: bool)
      requires Valid() && handle.Some?
      modifies this
      ensures Valid() && elapsed == old(elapsed) + [old(handle).value]
      ensures fires <==> calls == 1
      ensures fires ==> handle.None? && Sum(elapsed) == delay
      ensures !fires ==> handle.Some?
    {
      ElapseRuns(View(), delay);
      LinksMakeTheDelay(delay);
      elapsed := elapsed + [handle.value];
      handle := None;
      if remaining > 0 {
        ArmNextLink();
        return false;
      }
      settled := true;
      calls := calls + 1;
      return true;
    }

    /** Whichever link is armed is disarmed, and the callback is never called after it. */
    method CancelChain() returns (cancelled: bool)
      requires Valid()
      modifies this
      ensures Valid() && handle.None? && calls == old(calls) && elapsed == old(elapsed)
      ensures cancelled <==> old(handle).Some?
    {
      if settled {
        return false;
      }
      settled := true;
      handle := None;
      return true;
    }
  }
}
