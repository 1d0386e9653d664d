/**
 What a call of a callback does: the reaction of the callback that was subscribed, to the event that
 was published, carried out on the bus as it was at the call, whatever cascade it is part of.
 */
module EventBusCalls {
  import opened Options
  import opened EventBus
  import opened EventBusTraces
  import opened EventBusRecipients
  import opened EventBusHandles

  /**
   The call at `j` ran the callback its subscription names, with the event its publish names: `called`
   is the bus at that moment, and what those actions do to it is what the trace goes on with.
   */
  ghost predicate RanOn(w: World, tr: seq<Entry>, j: nat, called: Bus) {
    && j < |tr| && tr[j].Called? && IsSubscription(tr, tr[j].id) && IsPublish(tr, tr[j].pub)
    && called.trace == tr[..j + 1] && AtWork(w, called, tr[j].pub)
    && AfterActions(w, called, w.reacts(tr[tr[j].id].callback, tr[tr[j].pub].event, called), tr[j].pub).trace <= tr
  }

  ghost predicate Acted(w: World, tr: seq<Entry>, j: nat) {
    exists called :: RanOn(w, tr, j, called)
  }

  ghost predicate AllActed(w: World, tr: seq<Entry>, floor: nat) {
    forall j :: floor <= j < |tr| && tr[j].Called? ==> Acted(w, tr, j)
  }

  lemma ActedLater(w: World, tr: seq<Entry>, more: seq<Entry>, j: nat)
    requires Acted(w, tr, j) && tr <= more
    ensures Acted(w, more, j)
  {
    var called :| RanOn(w, tr, j, called);
    assert more[..j + 1] == tr[..j + 1];
    assert RanOn(w, more, j, called);
  }

  lemma AllActedTrans(w: World, tr: seq<Entry>, more: seq<Entry>, floor: nat)
    requires AllActed(w, tr, floor) && AllActed(w, more, |tr|) && tr <= more
    ensures AllActed(w, more, floor)
  {
    forall j | floor <= j < |more| && more[j].Called? ensures Acted(w, more, j) {
      if j < |tr| {
        ActedLater(w, tr, more, j);
      }
    }
  }

  ghost predicate NoCalls(tr: seq<Entry>, more: seq<Entry>) {
    tr <= more && forall j :: |tr| <= j < |more| ==> !more[j].Called?
  }

  lemma {:induction false} RemoveAllCallsNobody(b: Bus, ending: seq<CallbackSubscription>)
    ensures NoCalls(b.trace, AfterRemoveAll(b, ending).trace)
    decreases |ending|
  {
    if ending == [] {
    } else {
      RemoveAllCallsNobody(AfterRemove(b, ending[0].id), ending[1..]);
    }
  }

  lemma UpdateCallsNobody(b: Bus, action: Action)
    requires !action.Publish? && !action.Throw?
    ensures NoCalls(b.trace, AfterUpdate(b, action).trace)
  {
    if action.EndCallbackSubscriptions? {
      RemoveAllCallsNobody(b.(callbacksEnded := true).Log(SystemEnded), b.callbacks);
    }
  }

  lemma {:induction false} ActionsAct(w: World, b: Bus, actions: seq<Action>, pub: nat)
    requires AtWork(w, b, pub)
    ensures AllActed(w, AfterActions(w, b, actions, pub).trace, |b.trace|)
    decreases MAX_DEPTH + 1 - b.callbackDepth, 3, |actions|
  {
    if actions == [] || actions[0].Throw? {
    } else if actions[0].Publish? {
      var next := AfterPublish(w, b, actions[0].event, Some(pub));
      PublishActs(w, b, actions[0].event, Some(pub));
      PublishKeeps(w, b, actions[0].event, Some(pub));
      NestingPrefix(b.trace, next.trace, pub);
      ActionsAct(w, next, actions[1..], pub);
      StaysAtWork(w, next, actions[1..], pub);
      AllActedTrans(w, next.trace, AfterActions(w, next, actions[1..], pub).trace, |b.trace|);
    } else {
      var next := AfterUpdate(b, actions[0]);
      UpdateCallsNobody(b, actions[0]);
      UpdateKeeps(w, b, actions[0]);
      NestingPrefix(b.trace, next.trace, pub);
      ActionsAct(w, next, actions[1..], pub);
      StaysAtWork(w, next, actions[1..], pub);
      AllActedTrans(w, next.trace, AfterActions(w, next, actions[1..], pub).trace, |b.trace|);
    }
  }

  lemma {:induction false} PublishActs(w: World, b: Bus, event: Event, cause: Option<nat>)
    requires Consistent(w, b) && b.callbackDepth <= MAX_DEPTH
    requires if b.callbackDepth == 0 then cause.None?
      else cause.Some? && IsPublish(b.trace, cause.value) && Nesting(b.trace, cause.value) == b.callbackDepth
    ensures AllActed(w, AfterPublish(w, b, event, cause).trace, |b.trace|)
    decreases MAX_DEPTH + 1 - b.callbackDepth, 2, 0
  {
    var pub := |b.trace|;
    var told := b.(trace := b.trace + [Published(event, cause)] + Tells(w, b.subscriptions, event, pub));
    ActorsToldKeeps(w, b, event, cause, told);
    assert AllActed(w, told.trace, |b.trace|);
    if |told.callbacks| > 0 {
      CallbacksAct(w, told, event, pub);
      CallbacksKeep(w, told, event, pub);
      AllActedTrans(w, told.trace, AfterCallbacks(w, told, event, pub).trace, |b.trace|);
    }
  }

  lemma {:induction false} CallbacksAct(w: World, b: Bus, event: Event, pub: nat)
    requires Consistent(w, b) && b.callbackDepth <= MAX_DEPTH
    requires InFlight(b.trace, pub, event, b.callbackDepth + 1)
    requires Recorded(b.trace[..pub], b.callbacks, 0) && CalledBelow(b.trace, pub, 0)
    ensures AllActed(w, AfterCallbacks(w, b, event, pub).trace, |b.trace|)
    decreases MAX_DEPTH + 1 - b.callbackDepth, 1, 0
  {
    if b.callbackDepth == 0 || !b.cascadeCut {
      DeliveryActs(w, b.(callbackDepth := b.callbackDepth + 1), b.callbacks, event, pub, 0);
    }
  }

  lemma {:induction false} DeliveryActs(w: World, b: Bus, recipients: seq<CallbackSubscription>, event: Event, pub: nat, floor: nat)
    requires Delivering(w, b, recipients, event, pub, floor)
    ensures AllActed(w, AfterDelivery(w, b, recipients, event, pub).trace, |b.trace|)
    decreases MAX_DEPTH + 1 - b.callbackDepth, 4, |recipients|, 1
  {
    if recipients == [] || (b.callbackDepth > MAX_DEPTH && Wants(w, b, recipients[0], event)) {
    } else {
      RecipientActs(w, b, recipients, event, pub, floor);
      RecipientKeeps(w, b, recipients, event, pub, floor);
      var next, rest := AfterRecipient(w, b, recipients[0], event, pub), recipients[1..];
      DeliveryActs(w, next, rest, event, pub, recipients[0].id + 1);
      DeliveryKeeps(w, next, rest, event, pub, recipients[0].id + 1);
      AllActedTrans(w, next.trace, AfterDelivery(w, next, rest, event, pub).trace, |b.trace|);
    }
  }

  lemma {:induction false} RecipientActs(w: World, b: Bus, recipients: seq<CallbackSubscription>, event: Event, pub: nat, floor: nat)
    requires Delivering(w, b, recipients, event, pub, floor) && recipients != []
    requires Wants(w, b, recipients[0], event) ==> b.callbackDepth <= MAX_DEPTH
    ensures AllActed(w, AfterRecipient(w, b, recipients[0], event, pub).trace, |b.trace|)
    decreases MAX_DEPTH + 1 - b.callbackDepth, 4, |recipients|, 0
  {
    var s := AfterCascadeStart(b);
    CascadeStarts(w, b, recipients, event, pub, floor);
    if Wants(w, s, recipients[0], event) {
      CallActs(w, s, recipients, event, pub, floor);
      NoCallAtTheStart(w, b, AfterRecipient(w, b, recipients[0], event, pub));
    } else {
      assert NoCalls(b.trace, s.trace);
    }
  }

  lemma {:induction false} CallActs(w: World, b: Bus, recipients: seq<CallbackSubscription>, event: Event, pub: nat, floor: nat)
    requires Delivering(w, b, recipients, event, pub, floor) && b.callbackDepth <= MAX_DEPTH && recipients != []
    requires OpenCut(b.trace).Some? ==> pub < OpenCut(b.trace).value
    requires Wants(w, b, recipients[0], event)
    ensures var c := recipients[0];
      var called := b.Log(Called(c.id, pub, b.callbackDepth));
      var next := AfterActions(w, called, w.reacts(c.callback, event, called), pub);
      b.trace <= next.trace && AllActed(w, next.trace, |b.trace|)
    decreases MAX_DEPTH + 1 - b.callbackDepth, 4, 0
  {
    var c := recipients[0];
    assert AtWork(w, b.Log(Called(c.id, pub, b.callbackDepth)), pub) by {
      CallKeeps(w, b, recipients, event, pub, floor);
    }
    RecordedFirst(b, recipients, pub, floor);
    CallOutcome(w, b, c, event, pub);
  }

  lemma {:induction false} CallOutcome(w: World, b: Bus, c: CallbackSubscription, event: Event, pub: nat)
    requires AtWork(w, b.Log(Called(c.id, pub, b.callbackDepth)), pub) && IsPublish(b.trace, pub) && b.trace[pub].event == event
    requires c.id < |b.trace| && b.trace[c.id] == Subscribed(c.channel, c.callback)
    ensures var called := b.Log(Called(c.id, pub, b.callbackDepth));
      var next := AfterActions(w, called, w.reacts(c.callback, event, called), pub);
      b.trace <= next.trace && AllActed(w, next.trace, |b.trace|)
    decreases MAX_DEPTH + 1 - b.callbackDepth, 3, |w.reacts(c.callback, event, b.Log(Called(c.id, pub, b.callbackDepth)))| + 1
  {
    var called := b.Log(Called(c.id, pub, b.callbackDepth));
    var actions := w.reacts(c.callback, event, called);
    var next := AfterActions(w, called, actions, pub);
    StaysAtWork(w, called, actions, pub);
    ActionsAct(w, called, actions, pub);
    CallRan(w, called, next, c, event, pub);
    AndBefore(w, next.trace, |b.trace|);
  }

  lemma AndBefore(w: World, tr: seq<Entry>, floor: nat)
    requires AllActed(w, tr, floor + 1) && Acted(w, tr, floor)
    ensures AllActed(w, tr, floor)
  {
  }

  lemma NoCallAtTheStart(w: World, b: Bus, next: Bus)
    requires AfterCascadeStart(b).trace <= next.trace && AllActed(w, next.trace, |AfterCascadeStart(b).trace|)
    ensures AllActed(w, next.trace, |b.trace|)
  {
    assert NoCalls(b.trace, AfterCascadeStart(b).trace);
  }

  lemma RecordedFirst(b: Bus, recipients: seq<CallbackSubscription>, pub: nat, floor: nat)
    requires pub <= |b.trace| && recipients != [] && Recorded(b.trace[..pub], recipients, floor)
    ensures var c := recipients[0]; c.id < |b.trace| && b.trace[c.id] == Subscribed(c.channel, c.callback)
  {
    var c := recipients[0];
    assert b.trace[c.id] == b.trace[..pub][c.id];
  }

  lemma CallRan(w: World, called: Bus, next: Bus, c: CallbackSubscription, event: Event, pub: nat)
    requires called.trace != [] && AtWork(w, called, pub) && called.trace[pub].event == event
    requires called.trace[|called.trace| - 1] == Called(c.id, pub, called.callbackDepth)
    requires c.id < |called.trace| && called.trace[c.id] == Subscribed(c.channel, c.callback)
    requires next == AfterActions(w, called, w.reacts(c.callback, event, called), pub) && called.trace <= next.trace
    ensures Acted(w, next.trace, |called.trace| - 1)
  {
    var j := |called.trace| - 1;
    assert next.trace[j] == called.trace[j] && next.trace[c.id] == called.trace[c.id] && next.trace[pub] == called.trace[pub];
    assert next.trace[..j + 1] == called.trace;
    assert RanOn(w, next.trace, j, called);
  }

  lemma RequestActs(w: World, b: Bus, request: Action)
    requires Consistent(w, b) && b.callbackDepth == 0
    ensures AllActed(w, AfterRequest(w, b, request).trace, |b.trace|)
  {
    if request.Publish? {
      PublishActs(w, b, request.event, None);
    } else if !request.Throw? {
      UpdateCallsNobody(b, request);
    }
  }

  lemma {:induction false} RunActs(w: World, requests: seq<Action>)
    ensures AllActed(w, Run(w, requests).trace, 0)
  {
    if requests == [] {
    } else {
      var earlier, last := requests[..|requests| - 1], requests[|requests| - 1];
      var b := Run(w, earlier);
      RunActs(w, earlier);
      EveryRunIsLawful(w, earlier);
      RequestActs(w, b, last);
      RequestExtends(w, b, last);
      AllActedTrans(w, b.trace, Run(w, requests).trace, 0);
    }
  }

  /** For every run and every call in it: the callback subscribed under that id did what it does with that event, there and then. */
  lemma EveryCallRunsItsCallback(w: World, requests: seq<Action>, j: nat)
    requires j < |Run(w, requests).trace| && Run(w, requests).trace[j].Called?
    ensures Acted(w, Run(w, requests).trace, j)
  {
    RunActs(w, requests);
  }

  /**
   For every run: where the callback called at `j` runs a handle before it throws, the callback behind
   that handle is never called after that action, neither in this cascade nor in any later one.
   */
  lemma HandleRunByACallback(w: World, requests: seq<Action>, j: nat, called: Bus, first: seq<Action>, id: nat, rest: seq<Action>, k: nat)
    requires RanOn(w, Run(w, requests).trace, j, called) && NoThrow(first) && id <= j
    requires var tr := Run(w, requests).trace;
      w.reacts(tr[tr[j].id].callback, tr[tr[j].pub].event, called) == first + [RunHandle(id)] + rest
    ensures var tr := Run(w, requests).trace;
      var m := AfterActions(w, called, first + [RunHandle(id)], tr[j].pub);
      && id !in Run(w, requests).subscribed
      && (|m.trace| <= k < |tr| ==> !(tr[k].Called? && tr[k].id == id))
  {
    HandleFromInside(w, called, first, id, rest, Run(w, requests).trace[j].pub, requests, k);
  }
}
