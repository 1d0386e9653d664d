/**
 Who a publish reaches: actors exactly as often as they have accepting subscriptions, callbacks
 unless they are ended before their turn.
 */
module EventBusRecipients {
  import opened Options
  import opened EventBus
  import opened EventBusTraces

  // ---- Actors ----

  /** How often `actor` was told of the publish at `pub`. */
  ghost function ToldTimes(tr: seq<Entry>, actor: Actor, pub: nat): nat {
    if tr == [] then 0
    else ToldTimes(tr[..|tr| - 1], actor, pub) + if tr[|tr| - 1] == Told(actor, pub) then 1 else 0
  }

  /** How many subscriptions of `actor` are on a channel that matches the event, with no filter or one that passes it. */
  ghost function Accepting(w: World, subs: seq<ActorSubscription>, event: Event, actor: Actor): nat {
    if subs == [] then 0
    else
      var s := subs[0];
      Accepting(w, subs[1..], event, actor) +
      if s.subscriber == actor && w.matches(s.channel, event) && (s.filter.None? || w.passes(s.filter.value, event)) then 1 else 0
  }

  lemma ToldOnceMore(tr: seq<Entry>, e: Entry, actor: Actor, pub: nat)
    ensures ToldTimes(tr + [e], actor, pub) == ToldTimes(tr, actor, pub) + if e == Told(actor, pub) then 1 else 0
  {
    assert (tr + [e])[..|tr|] == tr;
  }

  lemma TellsHead(w: World, subs: seq<ActorSubscription>, event: Event, pub: nat)
    requires subs != []
    ensures var rest := Tells(w, subs[1..], event, pub);
      Tells(w, subs, event, pub) == if Accepts(w, subs[0], event) then [Told(subs[0].subscriber, pub)] + rest else rest
  {
  }

  lemma {:induction false} TellsCount(w: World, tr: seq<Entry>, subs: seq<ActorSubscription>, event: Event, pub: nat, actor: Actor)
    ensures ToldTimes(tr + Tells(w, subs, event, pub), actor, pub) == ToldTimes(tr, actor, pub) + Accepting(w, subs, event, actor)
    decreases |subs|, 1
  {
    if subs == [] {
      assert tr + Tells(w, subs, event, pub) == tr;
    } else {
      TellsHead(w, subs, event, pub);
      if Accepts(w, subs[0], event) {
        AcceptedCount(w, tr, subs, event, pub, actor);
      } else {
        TellsCount(w, tr, subs[1..], event, pub, actor);
      }
    }
  }

  lemma {:induction false} AcceptedCount(w: World, tr: seq<Entry>, subs: seq<ActorSubscription>, event: Event, pub: nat, actor: Actor)
    requires subs != [] && Accepts(w, subs[0], event)
    ensures var rest := Tells(w, subs[1..], event, pub);
      ToldTimes(tr + ([Told(subs[0].subscriber, pub)] + rest), actor, pub)
        == ToldTimes(tr, actor, pub) + (if subs[0].subscriber == actor then 1 else 0) + Accepting(w, subs[1..], event, actor)
    decreases |subs|, 0
  {
    var e, rest := Told(subs[0].subscriber, pub), Tells(w, subs[1..], event, pub);
    ToldOnceMore(tr, e, actor, pub);
    TellsCount(w, tr + [e], subs[1..], event, pub, actor);
    assert tr + [e] + rest == tr + ([e] + rest);
  }

  lemma {:induction false} NothingToldYet(w: World, tr: seq<Entry>, actor: Actor, pub: nat)
    requires Lawful(w, tr) && pub >= |tr|
    ensures ToldTimes(tr, actor, pub) == 0
  {
    if tr == [] {
    } else {
      NothingToldYet(w, tr[..|tr| - 1], actor, pub);
    }
  }

  lemma {:induction false} NothingToldSince(tr: seq<Entry>, more: seq<Entry>, actor: Actor, pub: nat)
    requires tr <= more && pub < |tr| && forall j :: |tr| <= j < |more| && more[j].Told? ==> more[j].pub >= |tr|
    ensures ToldTimes(more, actor, pub) == ToldTimes(tr, actor, pub)
    decreases |more|
  {
    if |more| == |tr| {
      assert more == tr;
    } else {
      NothingToldSince(tr, more[..|more| - 1], actor, pub);
    }
  }

  /**
   A publish tells an actor exactly as often as it has accepting subscriptions when the publish
   starts, in subscription order and ahead of everything else; whatever callbacks do afterwards,
   nobody is told of it again.
   */
  lemma PublishReachesItsActors(w: World, b: Bus, event: Event, cause: Option<nat>, actor: Actor)
    requires Consistent(w, b) && b.callbackDepth <= MAX_DEPTH
    requires if b.callbackDepth == 0 then cause.None?
      else cause.Some? && IsPublish(b.trace, cause.value) && Nesting(b.trace, cause.value) == b.callbackDepth
    ensures var pub, tr := |b.trace|, AfterPublish(w, b, event, cause).trace;
      && b.trace + [Published(event, cause)] + Tells(w, b.subscriptions, event, pub) <= tr
      && ToldTimes(tr, actor, pub) == Accepting(w, b.subscriptions, event, actor)
  {
    var pub := |b.trace|;
    var published := b.trace + [Published(event, cause)];
    var told := b.(trace := published + Tells(w, b.subscriptions, event, pub));
    ActorsToldKeeps(w, b, event, cause, told);
    if |told.callbacks| > 0 {
      CallbacksKeep(w, told, event, pub);
    }
    NothingToldYet(w, b.trace, actor, pub);
    ToldOnceMore(b.trace, Published(event, cause), actor, pub);
    TellsCount(w, published, b.subscriptions, event, pub, actor);
    NothingToldSince(told.trace, AfterPublish(w, b, event, cause).trace, actor, pub);
  }

  // ---- Callbacks ----

  /** Subscription `id` was ended since the publish, before any callback after it in the list was called. */
  ghost predicate EndedBeforeItsTurn(tr: seq<Entry>, id: nat, pub: nat) {
    exists k :: pub <= k < |tr| && tr[k] == Ended(id) &&
      forall m :: 0 <= m < k && tr[m].Called? && tr[m].pub == pub ==> tr[m].id < id
  }

  lemma EndedLater(tr: seq<Entry>, more: seq<Entry>, id: nat, pub: nat)
    requires EndedBeforeItsTurn(tr, id, pub) && tr <= more
    ensures EndedBeforeItsTurn(more, id, pub)
  {
    var k :| pub <= k < |tr| && tr[k] == Ended(id) &&
      forall m :: 0 <= m < k && tr[m].Called? && tr[m].pub == pub ==> tr[m].id < id;
    assert more[k] == tr[k];
    assert forall m :: 0 <= m < k ==> more[m] == tr[m];
  }

  /** What is no longer open was ended in between. */
  lemma {:induction false} ClosedMeansEnded(tr: seq<Entry>, more: seq<Entry>, id: nat)
    requires tr <= more && id in Open(tr) && id !in Open(more)
    ensures exists k :: |tr| <= k < |more| && more[k] == Ended(id)
    decreases |more|
  {
    assert tr != more;
    var init := more[..|more| - 1];
    if id in Open(init) {
      assert more[|more| - 1] == Ended(id);
    } else {
      ClosedMeansEnded(tr, init, id);
      var k :| |tr| <= k < |init| && init[k] == Ended(id);
      assert more[k] == Ended(id);
    }
  }

  lemma ClosedAtItsTurn(tr: seq<Entry>, id: nat, pub: nat, floor: nat)
    requires pub <= |tr| && id in Open(tr[..pub]) && id !in Open(tr) && CalledBelow(tr, pub, floor) && floor <= id
    ensures EndedBeforeItsTurn(tr, id, pub)
  {
    ClosedMeansEnded(tr[..pub], tr, id);
  }

  lemma {:induction false} FloorOf(tr: seq<Entry>, cs: seq<CallbackSubscription>, floor: nat, c: CallbackSubscription)
    requires Recorded(tr, cs, floor) && c in cs
    ensures floor <= c.id < |tr|
  {
    if c == cs[0] {
    } else {
      FloorOf(tr, cs[1..], cs[0].id + 1, c);
    }
  }

  /** A delivery below the bound calls every recipient that wants the event, unless it was ended before its turn. */
  lemma {:induction false} DeliveryReaches(w: World, b: Bus, recipients: seq<CallbackSubscription>, event: Event, pub: nat, floor: nat, c: CallbackSubscription)
    requires Delivering(w, b, recipients, event, pub, floor) && b.callbackDepth <= MAX_DEPTH
    requires c in recipients && w.matches(c.channel, event) && c.id in Open(b.trace[..pub])
    ensures var tr := AfterDelivery(w, b, recipients, event, pub).trace;
      Called(c.id, pub, b.callbackDepth) in tr || EndedBeforeItsTurn(tr, c.id, pub)
    decreases |recipients|
  {
    RecipientKeeps(w, b, recipients, event, pub, floor);
    var next, rest := AfterRecipient(w, b, recipients[0], event, pub), recipients[1..];
    var r := AfterDelivery(w, next, rest, event, pub);
    DeliveryKeeps(w, next, rest, event, pub, recipients[0].id + 1);
    if c != recipients[0] {
      assert next.trace[..pub] == b.trace[..pub];
      DeliveryReaches(w, next, rest, event, pub, recipients[0].id + 1, c);
    } else if c.id in b.subscribed {
      Persists(next.trace, r.trace, Called(c.id, pub, b.callbackDepth));
    } else {
      FloorOf(b.trace[..pub], recipients, floor, c);
      ClosedAtItsTurn(b.trace, c.id, pub, floor);
      EndedLater(b.trace, r.trace, c.id, pub);
    }
  }

  lemma {:induction false} ListedIsOpen(cs: seq<CallbackSubscription>, c: CallbackSubscription)
    requires c in cs
    ensures c.id in Ids(cs)
  {
    if c == cs[0] {
    } else {
      ListedIsOpen(cs[1..], c);
    }
  }

  /**
   A publish below the bound whose cascade is not cut calls every callback that was subscribed when
   it started and wants the event, unless its subscription was ended before its turn came.
   */
  lemma PublishReachesItsCallbacks(w: World, b: Bus, event: Event, cause: Option<nat>, c: CallbackSubscription)
    requires Consistent(w, b) && b.callbackDepth < MAX_DEPTH
    requires if b.callbackDepth == 0 then cause.None?
      else cause.Some? && IsPublish(b.trace, cause.value) && Nesting(b.trace, cause.value) == b.callbackDepth && !b.cascadeCut
    requires c in b.callbacks && w.matches(c.channel, event)
    ensures var tr := AfterPublish(w, b, event, cause).trace;
      Called(c.id, |b.trace|, b.callbackDepth + 1) in tr || EndedBeforeItsTurn(tr, c.id, |b.trace|)
  {
    var pub := |b.trace|;
    var told := b.(trace := b.trace + [Published(event, cause)] + Tells(w, b.subscriptions, event, pub));
    ActorsToldKeeps(w, b, event, cause, told);
    assert c.id in Open(told.trace[..pub]) by {
      assert told.trace[..pub] == b.trace;
      ListedIsOpen(b.callbacks, c);
    }
    ToldReaches(w, told, event, pub, c);
  }

  /** With the actors told, the callbacks are next. */
  lemma ToldReaches(w: World, b: Bus, event: Event, pub: nat, c: CallbackSubscription)
    requires Consistent(w, b) && b.callbackDepth < MAX_DEPTH && (b.callbackDepth == 0 || !b.cascadeCut)
    requires InFlight(b.trace, pub, event, b.callbackDepth + 1)
    requires Recorded(b.trace[..pub], b.callbacks, 0) && CalledBelow(b.trace, pub, 0)
    requires c in b.callbacks && w.matches(c.channel, event) && c.id in Open(b.trace[..pub])
    ensures var tr := AfterCallbacks(w, b, event, pub).trace;
      Called(c.id, pub, b.callbackDepth + 1) in tr || EndedBeforeItsTurn(tr, c.id, pub)
  {
    DeliveryReaches(w, b.(callbackDepth := b.callbackDepth + 1), b.callbacks, event, pub, 0, c);
  }
}
