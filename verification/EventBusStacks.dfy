/**
 The discipline of the stack: a callback is called for a publish only while the delivery of that
 publish is in progress, so everything published since then descends from it along `cause`.
 */
module EventBusStacks {
  import opened Options
  import opened EventBus
  import opened EventBusTraces

  /** `p` is `q` or one of the publishes that caused it: with `q` in delivery, those are the deliveries on the stack. */
  ghost predicate Descends(tr: seq<Entry>, q: nat, p: nat)
    decreases q
  {
    q == p || (q < |tr| && tr[q].Published? && tr[q].cause.Some? && tr[q].cause.value < q && Descends(tr, tr[q].cause.value, p))
  }

  /** Every publish from `start` on descends from `p`. */
  ghost predicate Under(tr: seq<Entry>, start: nat, p: nat) {
    forall q {:trigger Descends(tr, q, p)} :: start <= q < |tr| && tr[q].Published? ==> Descends(tr, q, p)
  }

  /** Where the last publish of `tr` stands. */
  ghost function LastPublish(tr: seq<Entry>): (r: Option<nat>)
    ensures r.Some? ==> r.value < |tr| && tr[r.value].Published?
    ensures forall q :: (if r.Some? then r.value + 1 else 0) <= q < |tr| ==> !tr[q].Published?
  {
    if tr == [] then None
    else if tr[|tr| - 1].Published? then Some(|tr| - 1)
    else LastPublish(tr[..|tr| - 1])
  }

  /** What the stack allows next. */
  ghost predicate OnStack(tr: seq<Entry>, e: Entry) {
    match e
    case Called(_, pub, _) => Under(tr, pub, pub)
    case CascadeCut => LastPublish(tr).Some? && Nesting(tr, LastPublish(tr).value) == MAX_DEPTH + 1
    case _ => true
  }

  ghost predicate Stacked(tr: seq<Entry>) {
    tr == [] || (Stacked(tr[..|tr| - 1]) && OnStack(tr[..|tr| - 1], tr[|tr| - 1]))
  }

  lemma {:induction false} StackedAt(tr: seq<Entry>, j: nat)
    requires Stacked(tr) && j < |tr|
    ensures OnStack(tr[..j], tr[j])
  {
    if j == |tr| - 1 {
    } else {
      StackedAt(tr[..|tr| - 1], j);
      assert tr[..|tr| - 1][..j] == tr[..j];
    }
  }

  lemma StackedAppend(tr: seq<Entry>, e: Entry)
    requires Stacked(tr) && OnStack(tr, e)
    ensures Stacked(tr + [e])
  {
    assert (tr + [e])[..|tr|] == tr;
  }

  lemma {:induction false} DescendsLater(tr: seq<Entry>, more: seq<Entry>, q: nat, p: nat)
    requires tr <= more && q < |tr|
    ensures Descends(more, q, p) == Descends(tr, q, p)
    decreases q
  {
    assert more[q] == tr[q];
    if tr[q].Published? && tr[q].cause.Some? && tr[q].cause.value < q {
      DescendsLater(tr, more, tr[q].cause.value, p);
    }
  }

  lemma {:induction false} DescendsTrans(tr: seq<Entry>, q: nat, m: nat, p: nat)
    requires Descends(tr, q, m) && Descends(tr, m, p)
    ensures Descends(tr, q, p)
    decreases q
  {
    if q == m {
    } else {
      DescendsTrans(tr, tr[q].cause.value, m, p);
    }
  }

  /** Entries that publish nothing leave everything under `p`. */
  lemma UnderLater(tr: seq<Entry>, more: seq<Entry>, start: nat, p: nat)
    requires Under(tr, start, p) && tr <= more && (forall q :: |tr| <= q < |more| ==> !more[q].Published?)
    ensures Under(more, start, p)
  {
    forall q | start <= q < |more| && more[q].Published? ensures Descends(more, q, p) {
      assert q < |tr|;
      assert more[q] == tr[q];
      assert Descends(tr, q, p);
      DescendsLater(tr, more, q, p);
    }
  }

  /** A publish caused by `p`, with all that came of it, is under `p`. */
  lemma UnderEffect(tr: seq<Entry>, more: seq<Entry>, p: nat)
    requires Under(tr, p, p) && p < |tr| && tr <= more && |tr| < |more|
    requires more[|tr|].Published? && more[|tr|].cause == Some(p) && Under(more, |tr|, |tr|)
    ensures Under(more, p, p)
  {
    var effect := |tr|;
    assert Descends(more, p, p);
    assert Descends(more, effect, p);
    forall q | p <= q < |more| && more[q].Published? ensures Descends(more, q, p) {
      if q < |tr| {
        assert more[q] == tr[q];
        assert Descends(tr, q, p);
        DescendsLater(tr, more, q, p);
      } else {
        assert Descends(more, q, effect);
        DescendsTrans(more, q, effect, p);
      }
    }
  }

  // ---- Every run keeps the discipline ----

  /** `r` goes on from `b` without a publish or a call. */
  ghost predicate Silent(b: Bus, r: Bus) {
    && b.trace <= r.trace && (Stacked(b.trace) ==> Stacked(r.trace))
    && (forall q :: |b.trace| <= q < |r.trace| ==> !r.trace[q].Published?)
  }

  lemma LogIsSilent(b: Bus, e: Entry)
    requires !e.Published? && !e.Called? && !e.CascadeCut?
    ensures Silent(b, b.Log(e))
  {
    if Stacked(b.trace) {
      StackedAppend(b.trace, e);
    }
  }

  lemma {:induction false} TellsAreSilent(b: Bus, tells: seq<Entry>)
    requires forall i :: 0 <= i < |tells| ==> tells[i].Told?
    ensures Silent(b, b.(trace := b.trace + tells))
    decreases |tells|
  {
    if tells == [] {
      assert b.trace + tells == b.trace;
    } else {
      LogIsSilent(b, tells[0]);
      TellsAreSilent(b.Log(tells[0]), tells[1..]);
      assert b.trace + [tells[0]] + tells[1..] == b.trace + tells;
    }
  }

  lemma RemoveIsSilent(b: Bus, id: nat)
    ensures Silent(b, AfterRemove(b, id))
  {
    LogIsSilent(b, Ended(id));
  }

  lemma {:induction false} RemoveAllIsSilent(b: Bus, ending: seq<CallbackSubscription>)
    ensures Silent(b, AfterRemoveAll(b, ending))
    decreases |ending|
  {
    if ending == [] {
    } else {
      RemoveIsSilent(b, ending[0].id);
      RemoveAllIsSilent(AfterRemove(b, ending[0].id), ending[1..]);
    }
  }

  lemma UpdateIsSilent(b: Bus, action: Action)
    requires !action.Publish? && !action.Throw?
    ensures Silent(b, AfterUpdate(b, action))
  {
    match action
    case SubscribeFunction(channel, callback) => LogIsSilent(b, Subscribed(channel, callback));
    case RunHandle(id) => RemoveIsSilent(b, id);
    case EndCallbackSubscriptions =>
      LogIsSilent(b, SystemEnded);
      RemoveAllIsSilent(b.(callbacksEnded := true).Log(SystemEnded), b.callbacks);
    case _ =>
  }

  /** The delivery of `pub` is in progress at the depth its causes say. */
  ghost predicate Delivers(b: Bus, pub: nat) {
    && Stacked(b.trace) && IsPublish(b.trace, pub) && Under(b.trace, pub, pub)
    && b.callbackDepth == Nesting(b.trace, pub)
  }

  /** Beyond the bound nothing is called, so nothing has been published since. */
  ghost predicate Waits(b: Bus, pub: nat) { b.callbackDepth > MAX_DEPTH ==> LastPublish(b.trace) == Some(pub) }

  lemma DeliversLater(b: Bus, r: Bus, pub: nat)
    requires Delivers(b, pub) && b.trace <= r.trace && Stacked(r.trace) && Under(r.trace, pub, pub) && r.callbackDepth == b.callbackDepth
    ensures Delivers(r, pub)
  {
    NestingPrefix(b.trace, r.trace, pub);
    assert r.trace[pub] == b.trace[pub];
  }

  lemma SilentDelivers(b: Bus, r: Bus, pub: nat)
    requires Delivers(b, pub) && Silent(b, r) && r.callbackDepth == b.callbackDepth
    ensures Delivers(r, pub)
  {
    UnderLater(b.trace, r.trace, pub, pub);
    DeliversLater(b, r, pub);
  }

  lemma {:induction false} PublishStacks(w: World, b: Bus, event: Event, cause: Option<nat>)
    requires Stacked(b.trace) && b.callbackDepth <= MAX_DEPTH
    requires if b.callbackDepth == 0 then cause.None?
      else cause.Some? && IsPublish(b.trace, cause.value) && Nesting(b.trace, cause.value) == b.callbackDepth
    ensures var r := AfterPublish(w, b, event, cause);
      && b.trace <= r.trace && Stacked(r.trace) && |b.trace| < |r.trace|
      && r.trace[|b.trace|] == Published(event, cause) && Under(r.trace, |b.trace|, |b.trace|)
    decreases MAX_DEPTH + 1 - b.callbackDepth, 2, 0
  {
    var pub := |b.trace|;
    var published := b.Log(Published(event, cause));
    StackedAppend(b.trace, Published(event, cause));
    var tells := Tells(w, b.subscriptions, event, pub);
    var told := published.(trace := published.trace + tells);
    TellsAreSilent(published, tells);
    PublishedUnder(b, published, cause, pub);
    UnderLater(published.trace, told.trace, pub, pub);
    NestingPrefix(published.trace, told.trace, pub);
    if |told.callbacks| > 0 {
      CallbacksStack(w, told, event, pub);
    }
  }

  lemma PublishedUnder(b: Bus, r: Bus, cause: Option<nat>, pub: nat)
    requires pub == |b.trace| && |r.trace| == pub + 1 && b.trace <= r.trace && r.trace[pub].Published? && r.trace[pub].cause == cause
    requires if b.callbackDepth == 0 then cause.None?
      else cause.Some? && IsPublish(b.trace, cause.value) && Nesting(b.trace, cause.value) == b.callbackDepth
    ensures Under(r.trace, pub, pub) && Nesting(r.trace, pub) == b.callbackDepth + 1
  {
    if cause.Some? {
      NestingPrefix(b.trace, r.trace, cause.value);
    }
  }

  lemma {:induction false} CallbacksStack(w: World, b: Bus, event: Event, pub: nat)
    requires b.callbackDepth <= MAX_DEPTH && Delivers(b.(callbackDepth := b.callbackDepth + 1), pub)
    requires LastPublish(b.trace) == Some(pub)
    ensures var r := AfterCallbacks(w, b, event, pub); b.trace <= r.trace && Stacked(r.trace) && Under(r.trace, pub, pub)
    decreases MAX_DEPTH + 1 - b.callbackDepth, 1, 0
  {
    if b.callbackDepth != 0 && b.cascadeCut {
    } else {
      DeliveryStacks(w, b.(callbackDepth := b.callbackDepth + 1), b.callbacks, event, pub);
    }
  }

  lemma {:induction false} DeliveryStacks(w: World, b: Bus, recipients: seq<CallbackSubscription>, event: Event, pub: nat)
    requires 1 <= b.callbackDepth <= MAX_DEPTH + 1 && Delivers(b, pub) && Waits(b, pub)
    ensures var r := AfterDelivery(w, b, recipients, event, pub); b.trace <= r.trace && Delivers(r, pub)
    decreases MAX_DEPTH + 1 - b.callbackDepth, 5, |recipients|
  {
    if recipients == [] {
    } else if b.callbackDepth > MAX_DEPTH && Wants(w, b, recipients[0], event) {
      CutStacks(b, pub);
    } else {
      RecipientStacks(w, b, recipients[0], event, pub);
      DeliveryStacks(w, AfterRecipient(w, b, recipients[0], event, pub), recipients[1..], event, pub);
    }
  }

  lemma CutStacks(b: Bus, pub: nat)
    requires b.callbackDepth == MAX_DEPTH + 1 && Delivers(b, pub) && Waits(b, pub)
    ensures Delivers(b.(cascadeCut := true).Log(CascadeCut), pub)
  {
    var r := b.(cascadeCut := true).Log(CascadeCut);
    StackedAppend(b.trace, CascadeCut);
    UnderLater(b.trace, r.trace, pub, pub);
    DeliversLater(b, r, pub);
  }

  lemma StartStacks(b: Bus, pub: nat)
    requires Delivers(b, pub) && Waits(b, pub) && b.callbackDepth >= 1
    ensures var s := AfterCascadeStart(b); b.trace <= s.trace && Delivers(s, pub) && Waits(s, pub)
  {
    if b.callbackDepth == 1 {
      LogIsSilent(b, CascadeStarted);
      SilentDelivers(b, AfterCascadeStart(b), pub);
    }
  }

  lemma {:induction false} RecipientStacks(w: World, b: Bus, c: CallbackSubscription, event: Event, pub: nat)
    requires 1 <= b.callbackDepth <= MAX_DEPTH + 1 && Delivers(b, pub) && Waits(b, pub)
    requires Wants(w, b, c, event) ==> b.callbackDepth <= MAX_DEPTH
    ensures var r := AfterRecipient(w, b, c, event, pub); b.trace <= r.trace && Delivers(r, pub) && Waits(r, pub)
    decreases MAX_DEPTH + 1 - b.callbackDepth, 4, 0
  {
    var s := AfterCascadeStart(b);
    StartStacks(b, pub);
    if Wants(w, s, c, event) {
      var called := s.Log(Called(c.id, pub, s.callbackDepth));
      StackedAppend(s.trace, Called(c.id, pub, s.callbackDepth));
      UnderLater(s.trace, called.trace, pub, pub);
      DeliversLater(s, called, pub);
      ActionsStack(w, called, w.reacts(c.callback, event, called), pub);
    }
  }

  lemma {:induction false} ActionsStack(w: World, b: Bus, actions: seq<Action>, pub: nat)
    requires 1 <= b.callbackDepth <= MAX_DEPTH && Delivers(b, pub)
    ensures var r := AfterActions(w, b, actions, pub); b.trace <= r.trace && Delivers(r, pub)
    decreases MAX_DEPTH + 1 - b.callbackDepth, 3, |actions|
  {
    if actions == [] || actions[0].Throw? {
    } else if actions[0].Publish? {
      var next := AfterPublish(w, b, actions[0].event, Some(pub));
      PublishStacks(w, b, actions[0].event, Some(pub));
      UnderEffect(b.trace, next.trace, pub);
      DeliversLater(b, next, pub);
      ActionsStack(w, next, actions[1..], pub);
    } else {
      var next := AfterUpdate(b, actions[0]);
      UpdateIsSilent(b, actions[0]);
      SilentDelivers(b, next, pub);
      ActionsStack(w, next, actions[1..], pub);
    }
  }

  lemma {:induction false} EveryRunIsStacked(w: World, requests: seq<Action>)
    ensures Stacked(Run(w, requests).trace)
  {
    if requests == [] {
    } else {
      var earlier, request := requests[..|requests| - 1], requests[|requests| - 1];
      EveryRunIsStacked(w, earlier);
      if request.Publish? {
        PublishStacks(w, Run(w, earlier), request.event, None);
      } else if !request.Throw? {
        UpdateIsSilent(Run(w, earlier), request);
      }
    }
  }

  /**
   A cascade is cut in the delivery of the last publish before the cut, one level beyond the bound.
   From the cut until the next cascade starts, callbacks are called only for publishes on the chain
   of causes of that one, which are the deliveries on the stack, and it is not cut again.
   */
  lemma QuietAfterACut(w: World, requests: seq<Action>, i: nat, j: nat)
    requires var tr := Run(w, requests).trace;
      i < j < |tr| && tr[i].CascadeCut? && forall k :: i < k < j ==> !tr[k].CascadeStarted?
    ensures var tr := Run(w, requests).trace;
      var last := LastPublish(tr[..i]);
      && !tr[j].CascadeCut?
      && last.Some? && Nesting(tr, last.value) == MAX_DEPTH + 1
      && (tr[j].Called? ==> tr[j].pub < last.value && Descends(tr, last.value, tr[j].pub))
  {
    var tr := Run(w, requests).trace;
    NothingNewAfterACut(w, requests, i, j);
    EveryRunIsStacked(w, requests);
    StackedAt(tr, i);
    StackedAt(tr, j);
    var last := LastPublish(tr[..i]).value;
    NestingPrefix(tr[..i], tr, last);
    if tr[j].Called? {
      NestingIsBounded(w, requests, j);
      CalledOnceIfSubscribedInTime(w, requests, i, j);
      OnTheChain(tr, i, j, last);
    }
  }

  lemma OnTheChain(tr: seq<Entry>, i: nat, j: nat, last: nat)
    requires i < j < |tr| && LastPublish(tr[..i]) == Some(last) && tr[j].Called? && tr[j].pub < i
    requires OnStack(tr[..j], tr[j]) && Nesting(tr, tr[j].pub) <= MAX_DEPTH < Nesting(tr, last) && tr[tr[j].pub].Published?
    ensures tr[j].pub < last && Descends(tr, last, tr[j].pub)
  {
    var pub := tr[j].pub;
    assert tr[..i][pub] == tr[pub];
    assert Descends(tr[..j], last, pub);
    DescendsLater(tr[..j], tr, last, pub);
  }
}
