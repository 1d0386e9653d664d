/**
 What a loop of callbacks costs: the exact number of callback calls and of cascade warnings
 that one outermost publish makes when callbacks publish back onto the channel they share.
 */
module EventBusCascades {
  import opened Options
  import opened EventBus

  ghost function Calls(tr: seq<Entry>): nat {
    if tr == [] then 0 else Calls(tr[..|tr| - 1]) + if tr[|tr| - 1].Called? then 1 else 0
  }

  ghost function Warnings(tr: seq<Entry>): nat {
    if tr == [] then 0 else Warnings(tr[..|tr| - 1]) + if tr[|tr| - 1].CascadeCut? then 1 else 0
  }

  lemma CountAppend(tr: seq<Entry>, e: Entry)
    ensures Calls(tr + [e]) == Calls(tr) + if e.Called? then 1 else 0
    ensures Warnings(tr + [e]) == Warnings(tr) + if e.CascadeCut? then 1 else 0
  {
    assert (tr + [e])[..|tr|] == tr;
  }

  lemma {:induction false} CountTells(tr: seq<Entry>, tells: seq<Entry>)
    requires forall i :: 0 <= i < |tells| ==> tells[i].Told?
    ensures Calls(tr + tells) == Calls(tr) && Warnings(tr + tells) == Warnings(tr)
    decreases |tells|
  {
    if tells == [] {
      assert tr + tells == tr;
    } else {
      CountAppend(tr, tells[0]);
      CountTells(tr + [tells[0]], tells[1..]);
      assert tr + [tells[0]] + tells[1..] == tr + tells;
    }
  }

  /** How often a callback publishes the event again each time it is called with it. */
  type Echoes = Callback -> nat

  ghost predicate Answers(w: World, event: Event, echoes: Echoes, c: Callback, b: Bus) {
    w.reacts(c, event, b) == seq(echoes(c), i => Publish(event))
  }

  /** Every callback answers `event` by publishing it again `echoes` times, and does nothing else. */
  ghost predicate Loops(w: World, event: Event, echoes: Echoes) {
    forall c: Callback, b: Bus :: Answers(w, event, echoes, c, b)
  }

  ghost function Wanting(w: World, cs: seq<CallbackSubscription>, event: Event): nat {
    if cs == [] then 0 else (if w.matches(cs[0].channel, event) then 1 else 0) + Wanting(w, cs[1..], event)
  }

  /** How many of the callbacks that want the event publish it again. */
  ghost function Looping(w: World, cs: seq<CallbackSubscription>, event: Event, echoes: Echoes): nat {
    if cs == [] then 0
    else (if w.matches(cs[0].channel, event) && echoes(cs[0].callback) > 0 then 1 else 0) + Looping(w, cs[1..], event, echoes)
  }

  ghost predicate AllSubscribed(b: Bus, cs: seq<CallbackSubscription>) {
    forall c :: c in cs ==> c.id in b.subscribed
  }

  /** `r` differs from `b` by `calls` callback calls and `warnings` warnings, and has the same subscribers. */
  ghost predicate Costs(b: Bus, r: Bus, calls: nat, warnings: nat) {
    && r.callbacks == b.callbacks && r.subscribed == b.subscribed
    && Calls(r.trace) == Calls(b.trace) + calls
    && Warnings(r.trace) == Warnings(b.trace) + warnings
  }

  lemma CostsTrans(b: Bus, m: Bus, r: Bus, calls: nat, warnings: nat, more: nat, moreWarnings: nat)
    requires Costs(b, m, calls, warnings) && Costs(m, r, more, moreWarnings)
    ensures Costs(b, r, calls + more, warnings + moreWarnings)
  {
  }

  /** `n`, `k` times over. */
  ghost function Times(k: nat, n: nat): nat {
    if k == 0 then 0 else n + Times(k - 1, n)
  }

  lemma {:induction false} TimesIsProduct(k: nat, n: nat)
    ensures Times(k, n) == k * n
  {
    if k == 0 {
    } else {
      TimesIsProduct(k - 1, n);
    }
  }

  lemma {:induction false} LoopingWants(w: World, cs: seq<CallbackSubscription>, event: Event, echoes: Echoes)
    ensures Looping(w, cs, event, echoes) <= Wanting(w, cs, event)
  {
    if cs == [] {
    } else {
      LoopingWants(w, cs[1..], event, echoes);
    }
  }

  /** Inside a cascade: what one publish of the looping event costs from here on. */
  ghost function BelowHere(w: World, b: Bus, event: Event): nat
    requires b.callbackDepth <= MAX_DEPTH
  {
    if b.cascadeCut then 0 else Times(MAX_DEPTH - b.callbackDepth, Wanting(w, b.callbacks, event))
  }

  ghost predicate InLoop(w: World, b: Bus, event: Event, echoes: Echoes) {
    && Loops(w, event, echoes) && AllSubscribed(b, b.callbacks)
    && Looping(w, b.callbacks, event, echoes) > 0
  }

  /** The bus once the actors have been told of a publish, before any callback is called. */
  ghost function ToldOf(w: World, b: Bus, event: Event, cause: Option<nat>): (told: Bus)
    ensures Costs(b, told, 0, 0)
  {
    var tells := Tells(w, b.subscriptions, event, |b.trace|);
    CountAppend(b.trace, Published(event, cause));
    CountTells(b.trace + [Published(event, cause)], tells);
    b.(trace := b.trace + [Published(event, cause)] + tells)
  }

  lemma {:induction false} NestedPublish(w: World, b: Bus, event: Event, echoes: Echoes, cause: Option<nat>)
    requires InLoop(w, b, event, echoes) && 1 <= b.callbackDepth <= MAX_DEPTH
    ensures var r := AfterPublish(w, b, event, cause);
      Costs(b, r, BelowHere(w, b, event), if b.cascadeCut then 0 else 1) && r.cascadeCut
    decreases MAX_DEPTH + 1 - b.callbackDepth, 2, 0
  {
    var told := ToldOf(w, b, event, cause);
    LoopingWants(w, b.callbacks, event, echoes);
    if b.cascadeCut {
      assert AfterPublish(w, b, event, cause) == told;
    } else {
      var raised := told.(callbackDepth := b.callbackDepth + 1);
      var delivered := AfterDelivery(w, raised, raised.callbacks, event, |b.trace|);
      NestedCallbacks(w, raised, event, echoes, |b.trace|);
      assert AfterPublish(w, b, event, cause) == delivered.(callbackDepth := b.callbackDepth);
      CostsTrans(b, raised, delivered, 0, 0, BelowHere(w, b, event), 1);
    }
  }

  lemma {:induction false} NestedCallbacks(w: World, b: Bus, event: Event, echoes: Echoes, pub: nat)
    requires InLoop(w, b, event, echoes) && 2 <= b.callbackDepth <= MAX_DEPTH + 1 && !b.cascadeCut
    ensures var r := AfterDelivery(w, b, b.callbacks, event, pub);
      var n := Wanting(w, b.callbacks, event);
      Costs(b, r, if b.callbackDepth > MAX_DEPTH then 0 else n + Times(MAX_DEPTH - b.callbackDepth, n), 1) && r.cascadeCut
    decreases MAX_DEPTH + 1 - b.callbackDepth, 6, 0
  {
    LoopingWants(w, b.callbacks, event, echoes);
    if b.callbackDepth > MAX_DEPTH {
      DeliveryTooDeep(w, b, b.callbacks, event, pub);
    } else {
      NestedDelivery(w, b, b.callbacks, event, echoes, pub);
    }
  }

  lemma {:induction false} DeliveryTooDeep(w: World, b: Bus, cs: seq<CallbackSubscription>, event: Event, pub: nat)
    requires b.callbackDepth == MAX_DEPTH + 1 && !b.cascadeCut
    requires AllSubscribed(b, cs) && Wanting(w, cs, event) > 0
    ensures var r := AfterDelivery(w, b, cs, event, pub); Costs(b, r, 0, 1) && r.cascadeCut
    decreases |cs|
  {
    if Wants(w, b, cs[0], event) {
      CountAppend(b.trace, CascadeCut);
    } else {
      DeliveryTooDeep(w, b, cs[1..], event, pub);
    }
  }

  /** A delivery on the way down or, once the cascade is cut, on the way back up. */
  lemma {:induction false} NestedDelivery(w: World, b: Bus, cs: seq<CallbackSubscription>, event: Event, echoes: Echoes, pub: nat)
    requires InLoop(w, b, event, echoes) && 2 <= b.callbackDepth <= MAX_DEPTH && AllSubscribed(b, cs)
    ensures var r := AfterDelivery(w, b, cs, event, pub);
      if b.cascadeCut || Looping(w, cs, event, echoes) == 0 then
        Costs(b, r, Wanting(w, cs, event), 0) && r.cascadeCut == b.cascadeCut
      else
        Costs(b, r, Wanting(w, cs, event) + BelowHere(w, b, event), 1) && r.cascadeCut
    decreases MAX_DEPTH + 1 - b.callbackDepth, 5, |cs|
  {
    if cs == [] {
    } else {
      var next := AfterRecipient(w, b, cs[0], event, pub);
      var calls, warnings := RecipientCost(w, b, cs[0], event, echoes, pub);
      NestedDelivery(w, next, cs[1..], event, echoes, pub);
    }
  }

  /** One recipient: its own call, and the descent it causes if the cascade is not yet cut. */
  lemma {:induction false} RecipientCost(w: World, b: Bus, c: CallbackSubscription, event: Event, echoes: Echoes, pub: nat)
    returns (calls: nat, warnings: nat)
    requires InLoop(w, b, event, echoes) && 1 <= b.callbackDepth <= MAX_DEPTH && c.id in b.subscribed
    ensures var next := AfterRecipient(w, b, c, event, pub);
      Costs(b, next, calls, warnings)
      && next.cascadeCut == (AfterCascadeStart(b).cascadeCut || (w.matches(c.channel, event) && echoes(c.callback) > 0))
    ensures !w.matches(c.channel, event) ==> calls == warnings == 0
    ensures w.matches(c.channel, event) ==>
      if echoes(c.callback) == 0 then calls == 1 && warnings == 0
      else calls == 1 + BelowHere(w, AfterCascadeStart(b), event)
           && warnings == if AfterCascadeStart(b).cascadeCut then 0 else 1
    decreases MAX_DEPTH + 1 - b.callbackDepth, 4, 0
  {
    var s := AfterCascadeStart(b);
    CountAppend(b.trace, CascadeStarted);
    calls, warnings := 0, 0;
    if Wants(w, s, c, event) {
      calls, warnings := CallCost(w, s, c, event, echoes, pub);
    }
  }

  lemma {:induction false} CallCost(w: World, b: Bus, c: CallbackSubscription, event: Event, echoes: Echoes, pub: nat)
    returns (calls: nat, warnings: nat)
    requires InLoop(w, b, event, echoes) && 1 <= b.callbackDepth <= MAX_DEPTH
    ensures var called := b.Log(Called(c.id, pub, b.callbackDepth));
      var r := AfterActions(w, called, w.reacts(c.callback, event, called), pub);
      Costs(b, r, calls, warnings) && r.cascadeCut == (b.cascadeCut || echoes(c.callback) > 0)
    ensures if echoes(c.callback) == 0 then calls == 1 && warnings == 0
      else calls == 1 + BelowHere(w, b, event) && warnings == if b.cascadeCut then 0 else 1
    decreases MAX_DEPTH + 1 - b.callbackDepth, 3, echoes(c.callback) + 1
  {
    var called := b.Log(Called(c.id, pub, b.callbackDepth));
    CountAppend(b.trace, Called(c.id, pub, b.callbackDepth));
    EchoCost(w, called, event, echoes, echoes(c.callback), pub);
    assert Answers(w, event, echoes, c.callback, called);
    calls := 1 + if echoes(c.callback) == 0 then 0 else BelowHere(w, b, event);
    warnings := if echoes(c.callback) == 0 || b.cascadeCut then 0 else 1;
  }

  lemma {:induction false} EchoCost(w: World, b: Bus, event: Event, echoes: Echoes, times: nat, pub: nat)
    requires InLoop(w, b, event, echoes) && 1 <= b.callbackDepth <= MAX_DEPTH
    ensures var r := AfterActions(w, b, seq(times, i => Publish(event)), pub);
      if times == 0 then r == b
      else Costs(b, r, BelowHere(w, b, event), if b.cascadeCut then 0 else 1) && r.cascadeCut
    decreases MAX_DEPTH + 1 - b.callbackDepth, 3, times
  {
    if times == 0 {
    } else {
      var next := AfterPublish(w, b, event, Some(pub));
      NestedPublish(w, b, event, echoes, Some(pub));
      EchoCost(w, next, event, echoes, times - 1, pub);
      assert seq(times, i => Publish(event))[1..] == seq(times - 1, i => Publish(event));
    }
  }

  /** The outermost delivery: a fresh cascade for each recipient, of `per` calls if it loops. */
  lemma {:induction false} OutermostDelivery(w: World, b: Bus, cs: seq<CallbackSubscription>, event: Event, echoes: Echoes, pub: nat, per: nat)
    requires Loops(w, event, echoes) && AllSubscribed(b, b.callbacks) && b.callbackDepth == 1 && AllSubscribed(b, cs)
    requires Looping(w, cs, event, echoes) <= Looping(w, b.callbacks, event, echoes)
    requires per == Times(MAX_DEPTH - b.callbackDepth, Wanting(w, b.callbacks, event))
    ensures Costs(b, AfterDelivery(w, b, cs, event, pub),
      Wanting(w, cs, event) + Times(Looping(w, cs, event, echoes), per), Looping(w, cs, event, echoes))
    decreases |cs|
  {
    if cs == [] {
    } else {
      var next, rest := AfterRecipient(w, b, cs[0], event, pub), cs[1..];
      var calls, warnings := OutermostRecipient(w, b, cs[0], event, echoes, pub, per);
      OutermostDelivery(w, next, rest, event, echoes, pub, per);
      var k := Looping(w, rest, event, echoes);
      CostsTrans(b, next, AfterDelivery(w, next, rest, event, pub), calls, warnings, Wanting(w, rest, event) + Times(k, per), k);
      assert AfterDelivery(w, b, cs, event, pub) == AfterDelivery(w, next, rest, event, pub);
      OneMoreRecipient(w, cs, event, echoes, per, calls, warnings);
    }
  }

  lemma OneMoreRecipient(w: World, cs: seq<CallbackSubscription>, event: Event, echoes: Echoes, per: nat, calls: nat, warnings: nat)
    requires cs != []
    requires var wants := w.matches(cs[0].channel, event);
      && calls == (if wants then 1 else 0) + (if wants && echoes(cs[0].callback) > 0 then per else 0)
      && warnings == if wants && echoes(cs[0].callback) > 0 then 1 else 0
    ensures Looping(w, cs, event, echoes) == warnings + Looping(w, cs[1..], event, echoes)
    ensures Wanting(w, cs, event) + Times(Looping(w, cs, event, echoes), per)
         == calls + (Wanting(w, cs[1..], event) + Times(Looping(w, cs[1..], event, echoes), per))
  {
  }

  lemma OutermostRecipient(w: World, b: Bus, c: CallbackSubscription, event: Event, echoes: Echoes, pub: nat, per: nat)
    returns (calls: nat, warnings: nat)
    requires Loops(w, event, echoes) && AllSubscribed(b, b.callbacks) && b.callbackDepth == 1 && c.id in b.subscribed
    requires w.matches(c.channel, event) && echoes(c.callback) > 0 ==> Looping(w, b.callbacks, event, echoes) > 0
    requires per == Times(MAX_DEPTH - b.callbackDepth, Wanting(w, b.callbacks, event))
    ensures Costs(b, AfterRecipient(w, b, c, event, pub), calls, warnings)
    ensures var wants := w.matches(c.channel, event);
      && calls == (if wants then 1 else 0) + (if wants && echoes(c.callback) > 0 then per else 0)
      && warnings == if wants && echoes(c.callback) > 0 then 1 else 0
  {
    if Looping(w, b.callbacks, event, echoes) > 0 {
      calls, warnings := RecipientCost(w, b, c, event, echoes, pub);
    } else {
      QuietRecipient(w, b, c, event, echoes, pub);
      calls, warnings := if w.matches(c.channel, event) then 1 else 0, 0;
    }
  }

  lemma QuietRecipient(w: World, b: Bus, c: CallbackSubscription, event: Event, echoes: Echoes, pub: nat)
    requires Loops(w, event, echoes) && b.callbackDepth == 1 && c.id in b.subscribed
    requires w.matches(c.channel, event) ==> echoes(c.callback) == 0
    ensures Costs(b, AfterRecipient(w, b, c, event, pub), if w.matches(c.channel, event) then 1 else 0, 0)
  {
    var s := AfterCascadeStart(b);
    CountAppend(b.trace, CascadeStarted);
    CountAppend(s.trace, Called(c.id, pub, s.callbackDepth));
    assert Answers(w, event, echoes, c.callback, s.Log(Called(c.id, pub, s.callbackDepth)));
  }

  /**
   The cost of a loop.  With `n` callbacks wanting the event, `k` of them publishing it again at
   each call (however often), one outermost publish makes n + 15kn calls and k warnings.
   */
  lemma LoopCost(w: World, b: Bus, event: Event, echoes: Echoes)
    requires Loops(w, event, echoes) && AllSubscribed(b, b.callbacks) && b.callbackDepth == 0
    ensures var n, k := Wanting(w, b.callbacks, event), Looping(w, b.callbacks, event, echoes);
      Costs(b, AfterPublish(w, b, event, None), n + k * ((MAX_DEPTH - 1) * n), k)
  {
    var told := ToldOf(w, b, event, None);
    if b.callbacks != [] {
      var n, k := Wanting(w, b.callbacks, event), Looping(w, b.callbacks, event, echoes);
      OutermostDelivery(w, told.(callbackDepth := 1), b.callbacks, event, echoes, |b.trace|, Times(MAX_DEPTH - 1, n));
      TimesIsProduct(MAX_DEPTH - 1, n);
      TimesIsProduct(k, (MAX_DEPTH - 1) * n);
    }
  }

  lemma SameFigure(k: nat)
    ensures k + k * (15 * k) == k * (16 + 15 * (k - 1))
  {
  }

  /** The figure in src/Constants.ts: k callbacks on one channel, each publishing back onto it. */
  lemma SharedChannelCost(w: World, b: Bus, event: Event, echoes: Echoes, k: nat)
    requires Loops(w, event, echoes) && AllSubscribed(b, b.callbacks) && b.callbackDepth == 0
    requires Wanting(w, b.callbacks, event) == Looping(w, b.callbacks, event, echoes) == k
    ensures Costs(b, AfterPublish(w, b, event, None), k * (16 + 15 * (k - 1)), k)
  {
    LoopCost(w, b, event, echoes);
    SameFigure(k);
  }
}
