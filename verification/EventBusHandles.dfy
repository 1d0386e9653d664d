/**
 Handles and the end of the system, by what follows them: a callback whose handle has run, from
 outside or inside any callback, is on no list and is never called again, and nobody else is touched.
 */
module EventBusHandles {
  import opened Options
  import opened EventBus
  import opened EventBusTraces
  import opened EventBusRecipients

  // ---- One action ----

  lemma {:induction false} SplicedMeans(tr: seq<Entry>, cs: seq<CallbackSubscription>, floor: nat, id: nat, c: CallbackSubscription)
    requires Recorded(tr, cs, floor)
    ensures c in Spliced(cs, id) <==> c in cs && c.id != id
  {
    if cs == [] {
    } else {
      SplicedMeans(tr, cs[1..], cs[0].id + 1, id, c);
      assert cs == [cs[0]] + cs[1..];
      if cs[0].id == id && c in cs[1..] {
        FloorOf(tr, cs[1..], id + 1, c);
      }
    }
  }

  /** A handle that runs ends its own subscription and no other. */
  lemma HandleEndsItsOwn(w: World, b: Bus, id: nat, c: CallbackSubscription)
    requires Consistent(w, b)
    ensures var r := AfterUpdate(b, RunHandle(id));
      && Consistent(w, r) && id !in r.subscribed && id !in Ids(r.callbacks)
      && r.subscribed == b.subscribed - {id} && (c in r.callbacks <==> c in b.callbacks && c.id != id)
  {
    UpdateKeeps(w, b, RunHandle(id));
    RemoveKeeps(w, b, id);
    SplicedMeans(b.trace, b.callbacks, 0, id, c);
    if id !in b.subscribed && c in b.callbacks {
      ListedIsOpen(b.callbacks, c);
    }
  }

  /** The end of the system ends every callback subscription, and none can be made after it. */
  lemma SystemEndEndsAll(w: World, b: Bus, channel: Channel, callback: Callback)
    requires Consistent(w, b)
    ensures var r := AfterUpdate(b, EndCallbackSubscriptions);
      && Consistent(w, r) && r.subscribed == {} && r.callbacks == [] && r.callbacksEnded
      && AfterUpdate(r, SubscribeFunction(channel, callback)) == r
  {
    var r := AfterUpdate(b, EndCallbackSubscriptions);
    UpdateKeeps(w, b, EndCallbackSubscriptions);
    EndedFlag(b.(callbacksEnded := true).Log(SystemEnded), b.callbacks);
    NoIdsNobody(r.callbacks);
  }

  lemma NoIdsNobody(cs: seq<CallbackSubscription>)
    requires Ids(cs) == {}
    ensures cs == []
  {
  }

  lemma {:induction false} EndedFlag(b: Bus, ending: seq<CallbackSubscription>)
    ensures AfterRemoveAll(b, ending).callbacksEnded == b.callbacksEnded
    decreases |ending|
  {
    if ending == [] {
    } else {
      EndedFlag(AfterRemove(b, ending[0].id), ending[1..]);
    }
  }

  /** On a live system a callback is subscribed under a new id, beside those there are. */
  lemma SubscribedUnderItsId(w: World, b: Bus, channel: Channel, callback: Callback)
    requires Consistent(w, b) && !b.callbacksEnded
    ensures var r := AfterUpdate(b, SubscribeFunction(channel, callback));
      var id := |b.trace|;
      && Consistent(w, r) && id !in b.subscribed && r.subscribed == b.subscribed + {id}
      && r.callbacks == b.callbacks + [CallbackSubscription(id, channel, callback)]
  {
    UpdateKeeps(w, b, SubscribeFunction(channel, callback));
  }

  /** A callback subscribed on a live system gets the next event its channel matches, unless it is ended before its turn. */
  lemma SubscribedIsCalled(w: World, b: Bus, channel: Channel, callback: Callback, event: Event)
    requires Consistent(w, b) && !b.callbacksEnded && b.callbackDepth == 0 && w.matches(channel, event)
    ensures var s := AfterUpdate(b, SubscribeFunction(channel, callback));
      var tr := AfterPublish(w, s, event, None).trace;
      Called(|b.trace|, |s.trace|, 1) in tr || EndedBeforeItsTurn(tr, |b.trace|, |s.trace|)
  {
    SubscribedUnderItsId(w, b, channel, callback);
    var s := AfterUpdate(b, SubscribeFunction(channel, callback));
    PublishReachesItsCallbacks(w, s, event, None, CallbackSubscription(|b.trace|, channel, callback));
  }

  // ---- What follows ----

  lemma {:induction false} OpenOnlyShrinks(tr: seq<Entry>, more: seq<Entry>, id: nat)
    requires tr <= more && id < |tr| && id in Open(more)
    ensures id in Open(tr)
    decreases |more|
  {
    if |tr| == |more| {
      assert tr == more;
    } else {
      OpenOnlyShrinks(tr, more[..|more| - 1], id);
    }
  }

  /** Whatever run a bus is part of: an id that is no longer subscribed is never called from there on, nor subscribed. */
  lemma GoneForGood(w: World, m: Bus, id: nat, requests: seq<Action>, j: nat)
    requires Consistent(w, m) && id < |m.trace| && id !in m.subscribed && m.trace <= Run(w, requests).trace
    ensures id !in Run(w, requests).subscribed && id !in Ids(Run(w, requests).callbacks)
    ensures var tr := Run(w, requests).trace; |m.trace| <= j < |tr| ==> !(tr[j].Called? && tr[j].id == id)
  {
    var r := Run(w, requests);
    EveryRunIsLawful(w, requests);
    if id in r.subscribed {
      OpenOnlyShrinks(m.trace, r.trace, id);
    }
    if |m.trace| <= j < |r.trace| {
      LawfulAt(w, r.trace, j);
      if id in Open(r.trace[..j]) {
        OpenOnlyShrinks(m.trace, r.trace[..j], id);
      }
    }
  }

  lemma RequestExtends(w: World, b: Bus, request: Action)
    requires Consistent(w, b) && b.callbackDepth == 0
    ensures b.trace <= AfterRequest(w, b, request).trace
  {
    if request.Publish? {
      PublishKeeps(w, b, request.event, None);
    } else if !request.Throw? {
      UpdateKeeps(w, b, request);
    }
  }

  lemma {:induction false} RunExtends(w: World, requests: seq<Action>, more: seq<Action>)
    ensures Run(w, requests).trace <= Run(w, requests + more).trace
    decreases |more|
  {
    if more == [] {
      assert requests + more == requests;
    } else {
      var init, last := more[..|more| - 1], more[|more| - 1];
      RunExtends(w, requests, init);
      assert requests + more == requests + init + [last];
      RunSnoc(w, requests + init, last);
      EveryRunIsLawful(w, requests + init);
      RequestExtends(w, Run(w, requests + init), last);
    }
  }

  lemma RunSnoc(w: World, requests: seq<Action>, request: Action)
    ensures Run(w, requests + [request]) == AfterRequest(w, Run(w, requests), request)
  {
    assert (requests + [request])[..|requests|] == requests;
  }

  /** For every run: once its handle has been run from outside, a callback is never called again. */
  lemma HandleFromOutside(w: World, before: seq<Action>, id: nat, later: seq<Action>, j: nat)
    requires id < |Run(w, before).trace|
    ensures var m := Run(w, before + [RunHandle(id)]);
      var r := Run(w, before + [RunHandle(id)] + later);
      && m.subscribed == Run(w, before).subscribed - {id}
      && id !in r.subscribed && id !in Ids(r.callbacks)
      && (|m.trace| <= j < |r.trace| ==> !(r.trace[j].Called? && r.trace[j].id == id))
  {
    var b, m := Run(w, before), Run(w, before + [RunHandle(id)]);
    EveryRunIsLawful(w, before);
    RunSnoc(w, before, RunHandle(id));
    HandleEndsItsOwn(w, b, id, CallbackSubscription(0, 0, 0));
    RunExtends(w, before, [RunHandle(id)]);
    RunExtends(w, before + [RunHandle(id)], later);
    GoneForGood(w, m, id, before + [RunHandle(id)] + later, j);
  }

  /** Whatever run a bus is part of: once the system has ended nobody is called, and nobody is subscribed. */
  lemma OverForGood(w: World, m: Bus, requests: seq<Action>, j: nat)
    requires HasEnded(m.trace) && m.trace <= Run(w, requests).trace
    ensures Run(w, requests).subscribed == {} && Run(w, requests).callbacks == []
    ensures var tr := Run(w, requests).trace; |m.trace| <= j < |tr| ==> !tr[j].Called?
  {
    var r := Run(w, requests);
    EveryRunIsLawful(w, requests);
    EndStays(m.trace, r.trace);
    NoIdsNobody(r.callbacks);
    if |m.trace| <= j < |r.trace| {
      LawfulAt(w, r.trace, j);
      EndStays(m.trace, r.trace[..j]);
    }
  }

  /** For every run: once the system has ended, no callback is called again, and none is subscribed. */
  lemma SystemEndFromOutside(w: World, before: seq<Action>, later: seq<Action>, j: nat)
    ensures var m := Run(w, before + [EndCallbackSubscriptions]);
      var r := Run(w, before + [EndCallbackSubscriptions] + later);
      && m.subscribed == {} && r.subscribed == {} && r.callbacks == []
      && (|m.trace| <= j < |r.trace| ==> !r.trace[j].Called?)
  {
    SystemEndOfRun(w, before);
    RunExtends(w, before + [EndCallbackSubscriptions], later);
    OverForGood(w, Run(w, before + [EndCallbackSubscriptions]), before + [EndCallbackSubscriptions] + later, j);
  }

  lemma SystemEndOfRun(w: World, before: seq<Action>)
    ensures var m := Run(w, before + [EndCallbackSubscriptions]); m.subscribed == {} && HasEnded(m.trace)
  {
    var b := Run(w, before);
    EveryRunIsLawful(w, before);
    SystemEndEndsAll(w, b, 0, 0);
    RunSnoc(w, before, EndCallbackSubscriptions);
    assert AfterRequest(w, b, EndCallbackSubscriptions) == AfterUpdate(b, EndCallbackSubscriptions);
  }

  lemma {:induction false} EndStays(tr: seq<Entry>, more: seq<Entry>)
    requires tr <= more && HasEnded(tr)
    ensures HasEnded(more)
    decreases |more|
  {
    if |tr| == |more| {
      assert tr == more;
    } else {
      EndStays(tr, more[..|more| - 1]);
    }
  }

  // ---- Inside a callback ----

  ghost predicate NoThrow(actions: seq<Action>) { forall a :: a in actions ==> !a.Throw? }

  /** What a callback does first and then is what it does altogether. */
  lemma {:induction false} ActionsInTurn(w: World, b: Bus, first: seq<Action>, rest: seq<Action>, pub: nat)
    requires b.callbackDepth <= MAX_DEPTH && NoThrow(first)
    ensures AfterActions(w, b, first + rest, pub) == AfterActions(w, AfterActions(w, b, first, pub), rest, pub)
    decreases |first|
  {
    if first == [] {
      assert first + rest == rest;
    } else {
      assert (first + rest)[1..] == first[1..] + rest && first[0] in first;
      assert forall a :: a in first[1..] ==> a in first;
      var next := if first[0].Publish? then AfterPublish(w, b, first[0].event, Some(pub)) else AfterUpdate(b, first[0]);
      ActionsInTurn(w, next, first[1..], rest, pub);
    }
  }

  /** A throw ends the callback there: what would have followed does not happen. */
  lemma ThrowEndsTheCallback(w: World, b: Bus, first: seq<Action>, rest: seq<Action>, pub: nat)
    requires b.callbackDepth <= MAX_DEPTH && NoThrow(first)
    ensures AfterActions(w, b, first + [Throw] + rest, pub) == AfterActions(w, b, first, pub)
  {
    assert first + [Throw] + rest == first + ([Throw] + rest);
    ActionsInTurn(w, b, first, [Throw] + rest, pub);
  }

  /** A callback is at work for `pub`. */
  ghost predicate AtWork(w: World, b: Bus, pub: nat) {
    Consistent(w, b) && 1 <= b.callbackDepth <= MAX_DEPTH && IsPublish(b.trace, pub) && Nesting(b.trace, pub) == b.callbackDepth
  }

  lemma StaysAtWork(w: World, b: Bus, actions: seq<Action>, pub: nat)
    requires AtWork(w, b, pub)
    ensures var r := AfterActions(w, b, actions, pub); AtWork(w, r, pub) && b.trace <= r.trace
  {
    var r := AfterActions(w, b, actions, pub);
    ActionsKeep(w, b, actions, pub);
    NestingPrefix(b.trace, r.trace, pub);
    assert r.trace[pub] == b.trace[pub];
  }

  /**
   For every callback that runs a handle, its own or another's: from that action on, in the rest of
   the callback and in whatever run it is part of, the callback behind the handle is not called.
   */
  lemma HandleFromInside(w: World, b: Bus, first: seq<Action>, id: nat, rest: seq<Action>, pub: nat, requests: seq<Action>, j: nat)
    requires AtWork(w, b, pub) && NoThrow(first) && id < |b.trace|
    requires AfterActions(w, b, first + [RunHandle(id)] + rest, pub).trace <= Run(w, requests).trace
    ensures var m := AfterActions(w, b, first + [RunHandle(id)], pub);
      var tr := Run(w, requests).trace;
      && id !in m.subscribed && id !in Ids(m.callbacks)
      && m.subscribed == AfterActions(w, b, first, pub).subscribed - {id}
      && id !in Run(w, requests).subscribed
      && (|m.trace| <= j < |tr| ==> !(tr[j].Called? && tr[j].id == id))
  {
    var before := AfterActions(w, b, first, pub);
    var m := AfterActions(w, b, first + [RunHandle(id)], pub);
    StaysAtWork(w, b, first, pub);
    ActionsInTurn(w, b, first, [RunHandle(id)], pub);
    OneAction(w, before, RunHandle(id), pub);
    HandleEndsItsOwn(w, before, id, CallbackSubscription(0, 0, 0));
    StaysAtWork(w, b, first + [RunHandle(id)], pub);
    NoThrowMore(first, RunHandle(id));
    ActionsInTurn(w, b, first + [RunHandle(id)], rest, pub);
    StaysAtWork(w, m, rest, pub);
    GoneForGood(w, m, id, requests, j);
  }

  lemma NoThrowMore(first: seq<Action>, action: Action)
    requires NoThrow(first) && !action.Throw?
    ensures NoThrow(first + [action])
  {
  }

  lemma OneAction(w: World, b: Bus, action: Action, pub: nat)
    requires b.callbackDepth <= MAX_DEPTH && !action.Throw? && !action.Publish?
    ensures AfterActions(w, b, [action], pub) == AfterUpdate(b, action)
  {
    assert [action][1..] == [];
  }

  /** The same for the end of the system, brought about from inside a callback, and every callback. */
  lemma SystemEndFromInside(w: World, b: Bus, first: seq<Action>, rest: seq<Action>, pub: nat, requests: seq<Action>, j: nat)
    requires AtWork(w, b, pub) && NoThrow(first)
    requires AfterActions(w, b, first + [EndCallbackSubscriptions] + rest, pub).trace <= Run(w, requests).trace
    ensures var m := AfterActions(w, b, first + [EndCallbackSubscriptions], pub);
      var tr := Run(w, requests).trace;
      m.subscribed == {} && m.callbacks == [] && (|m.trace| <= j < |tr| ==> !tr[j].Called?)
  {
    var before := AfterActions(w, b, first, pub);
    var m := AfterActions(w, b, first + [EndCallbackSubscriptions], pub);
    StaysAtWork(w, b, first, pub);
    ActionsInTurn(w, b, first, [EndCallbackSubscriptions], pub);
    OneAction(w, before, EndCallbackSubscriptions, pub);
    SystemEndEndsAll(w, before, 0, 0);
    NoThrowMore(first, EndCallbackSubscriptions);
    StaysAtWork(w, b, first + [EndCallbackSubscriptions], pub);
    ActionsInTurn(w, b, first + [EndCallbackSubscriptions], rest, pub);
    StaysAtWork(w, m, rest, pub);
    OverForGood(w, m, requests, j);
  }
}
