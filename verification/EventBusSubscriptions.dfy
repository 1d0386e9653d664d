/**
 The actor subscriptions of the bus: what ending them leaves, and that no actor ever holds the same
 unfiltered subscription twice, whatever callbacks subscribe and unsubscribe meanwhile.
 */
module EventBusSubscriptions {
  import opened Options
  import opened EventBus

  predicate Ends(s: ActorSubscription, subscriber: Actor, channel: Option<Channel>) {
    s.subscriber == subscriber && (channel.Some? ==> s.channel == channel.value)
  }

  /** Ending subscriptions keeps exactly the others ... */
  lemma {:induction false} WithoutMeans(subs: seq<ActorSubscription>, subscriber: Actor, channel: Option<Channel>, s: ActorSubscription)
    ensures s in Without(subs, subscriber, channel) <==> s in subs && !Ends(s, subscriber, channel)
  {
    if subs == [] {
    } else {
      WithoutMeans(subs[1..], subscriber, channel, s);
      assert subs == [subs[0]] + subs[1..];
    }
  }

  /** ... in their order. */
  lemma {:induction false} WithoutInOrder(subs: seq<ActorSubscription>, more: seq<ActorSubscription>, subscriber: Actor, channel: Option<Channel>)
    ensures Without(subs + more, subscriber, channel) == Without(subs, subscriber, channel) + Without(more, subscriber, channel)
    decreases |subs|
  {
    if subs == [] {
      assert subs + more == more;
    } else {
      WithoutInOrder(subs[1..], more, subscriber, channel);
      WithoutFirst(subs, subscriber, channel);
      WithoutFirst(subs + more, subscriber, channel);
      assert (subs + more)[1..] == subs[1..] + more;
      Assoc(Kept(subs[0], subscriber, channel), Without(subs[1..], subscriber, channel), Without(more, subscriber, channel));
    }
  }

  function Kept(s: ActorSubscription, subscriber: Actor, channel: Option<Channel>): seq<ActorSubscription> {
    if Ends(s, subscriber, channel) then [] else [s]
  }

  lemma WithoutFirst(subs: seq<ActorSubscription>, subscriber: Actor, channel: Option<Channel>)
    requires subs != []
    ensures Without(subs, subscriber, channel) == Kept(subs[0], subscriber, channel) + Without(subs[1..], subscriber, channel)
  {
  }

  lemma Assoc(a: seq<ActorSubscription>, b: seq<ActorSubscription>, c: seq<ActorSubscription>)
    ensures a + (b + c) == (a + b) + c
  {
  }

  lemma {:induction false} WithoutNone(subs: seq<ActorSubscription>, subscriber: Actor, channel: Option<Channel>)
    requires forall s :: s in subs ==> !Ends(s, subscriber, channel)
    ensures Without(subs, subscriber, channel) == subs
  {
    if subs == [] {
    } else {
      assert subs[0] in subs;
      assert forall s :: s in subs[1..] ==> s in subs;
      WithoutNone(subs[1..], subscriber, channel);
      assert subs == [subs[0]] + subs[1..];
    }
  }

  /** `unsubscribe`, by what is left: exactly the subscriptions of others and, with a channel given, to other channels. */
  lemma UnsubscribeLeaves(b: Bus, subscriber: Actor, channel: Option<Channel>, s: ActorSubscription)
    ensures s in AfterUpdate(b, Unsubscribe(subscriber, channel)).subscriptions
      <==> s in b.subscriptions && !(s.subscriber == subscriber && (channel.None? || s.channel == channel.value))
  {
    WithoutMeans(b.subscriptions, subscriber, channel, s);
  }

  function Occurrences(subs: seq<ActorSubscription>, s: ActorSubscription): nat {
    if subs == [] then 0 else (if subs[0] == s then 1 else 0) + Occurrences(subs[1..], s)
  }

  lemma {:induction false} OneMoreOccurrence(subs: seq<ActorSubscription>, t: ActorSubscription, s: ActorSubscription)
    ensures Occurrences(subs + [t], s) == Occurrences(subs, s) + if t == s then 1 else 0
  {
    if subs == [] {
      assert (subs + [t])[1..] == [];
    } else {
      OneMoreOccurrence(subs[1..], t, s);
      assert (subs + [t])[1..] == subs[1..] + [t];
    }
  }

  lemma {:induction false} OccursWhenIn(subs: seq<ActorSubscription>, s: ActorSubscription)
    ensures Occurrences(subs, s) > 0 <==> s in subs
    ensures Single(subs) && s.filter.None? ==> Occurrences(subs, s) <= 1
  {
    if subs == [] {
    } else {
      OccursWhenIn(subs[1..], s);
      assert subs == [subs[0]] + subs[1..];
    }
  }

  /** `subscribe`, by what it adds: with a filter one more each time, without one exactly one; nobody else is touched. */
  lemma SubscribeAdds(b: Bus, subscriber: Actor, channel: Channel, filter: Option<Filter>, other: ActorSubscription)
    requires Single(b.subscriptions)
    ensures var s := ActorSubscription(subscriber, channel, filter);
      var r := AfterUpdate(b, Subscribe(subscriber, channel, filter)).subscriptions;
      && b.subscriptions <= r && s in r
      && Occurrences(r, s) == (if filter.None? then 1 else Occurrences(b.subscriptions, s) + 1)
      && (other != s ==> Occurrences(r, other) == Occurrences(b.subscriptions, other))
  {
    var s := ActorSubscription(subscriber, channel, filter);
    OccursWhenIn(b.subscriptions, s);
    OneMoreOccurrence(b.subscriptions, s, s);
    OneMoreOccurrence(b.subscriptions, s, other);
  }

  /** A subscription to a channel the actor was not on, once ended, leaves the list as it was. */
  lemma UnsubscribeUndoesSubscribe(b: Bus, s: ActorSubscription)
    requires forall t :: t in b.subscriptions ==> !Ends(t, s.subscriber, Some(s.channel))
    ensures Without(AfterSubscribe(b, s).subscriptions, s.subscriber, Some(s.channel)) == b.subscriptions
  {
    assert Ends(s, s.subscriber, Some(s.channel));
    WithoutInOrder(b.subscriptions, [s], s.subscriber, Some(s.channel));
    WithoutNone(b.subscriptions, s.subscriber, Some(s.channel));
  }

  // ---- No unfiltered subscription twice ----

  ghost predicate Single(subs: seq<ActorSubscription>) {
    subs == [] || (Single(subs[1..]) && (subs[0].filter.None? ==> subs[0] !in subs[1..]))
  }

  lemma {:induction false} SubscribedSingle(subs: seq<ActorSubscription>, s: ActorSubscription)
    requires Single(subs) && (s.filter.None? ==> s !in subs)
    ensures Single(subs + [s])
  {
    if subs == [] {
      assert (subs + [s])[1..] == [];
    } else {
      SubscribedSingle(subs[1..], s);
      assert (subs + [s])[1..] == subs[1..] + [s];
    }
  }

  lemma {:induction false} WithoutSingle(subs: seq<ActorSubscription>, subscriber: Actor, channel: Option<Channel>)
    requires Single(subs)
    ensures Single(Without(subs, subscriber, channel))
  {
    if subs == [] {
    } else {
      var rest := Without(subs[1..], subscriber, channel);
      WithoutSingle(subs[1..], subscriber, channel);
      WithoutMeans(subs[1..], subscriber, channel, subs[0]);
      if Ends(subs[0], subscriber, channel) {
        assert Without(subs, subscriber, channel) == rest;
      } else {
        assert Without(subs, subscriber, channel)[1..] == rest;
      }
    }
  }

  lemma {:induction false} RemoveAllKeeps(b: Bus, ending: seq<CallbackSubscription>)
    ensures AfterRemoveAll(b, ending).subscriptions == b.subscriptions
    decreases |ending|
  {
    if ending == [] {
    } else {
      RemoveAllKeeps(AfterRemove(b, ending[0].id), ending[1..]);
    }
  }

  lemma UpdateSingle(b: Bus, action: Action)
    requires Single(b.subscriptions) && !action.Publish? && !action.Throw?
    ensures Single(AfterUpdate(b, action).subscriptions)
  {
    match action
    case Subscribe(subscriber, channel, filter) =>
      var s := ActorSubscription(subscriber, channel, filter);
      if !(filter.None? && s in b.subscriptions) {
        SubscribedSingle(b.subscriptions, s);
      }
    case Unsubscribe(subscriber, channel) => WithoutSingle(b.subscriptions, subscriber, channel);
    case EndCallbackSubscriptions => RemoveAllKeeps(b.(callbacksEnded := true).Log(SystemEnded), b.callbacks);
    case _ =>
  }

  lemma {:induction false} PublishSingle(w: World, b: Bus, event: Event, cause: Option<nat>)
    requires Single(b.subscriptions) && b.callbackDepth <= MAX_DEPTH
    ensures Single(AfterPublish(w, b, event, cause).subscriptions)
    decreases MAX_DEPTH + 1 - b.callbackDepth, 2, 0
  {
    var pub := |b.trace|;
    var told := b.(trace := b.trace + [Published(event, cause)] + Tells(w, b.subscriptions, event, pub));
    if |told.callbacks| > 0 && !(told.callbackDepth != 0 && told.cascadeCut) {
      DeliverySingle(w, told.(callbackDepth := told.callbackDepth + 1), told.callbacks, event, pub);
    }
  }

  lemma {:induction false} DeliverySingle(w: World, b: Bus, recipients: seq<CallbackSubscription>, event: Event, pub: nat)
    requires Single(b.subscriptions) && 1 <= b.callbackDepth <= MAX_DEPTH + 1
    ensures Single(AfterDelivery(w, b, recipients, event, pub).subscriptions)
    decreases MAX_DEPTH + 1 - b.callbackDepth, 5, |recipients|
  {
    if recipients == [] || (b.callbackDepth > MAX_DEPTH && Wants(w, b, recipients[0], event)) {
    } else {
      RecipientSingle(w, b, recipients[0], event, pub);
      DeliverySingle(w, AfterRecipient(w, b, recipients[0], event, pub), recipients[1..], event, pub);
    }
  }

  lemma {:induction false} RecipientSingle(w: World, b: Bus, c: CallbackSubscription, event: Event, pub: nat)
    requires Single(b.subscriptions) && 1 <= b.callbackDepth <= MAX_DEPTH + 1
    requires Wants(w, b, c, event) ==> b.callbackDepth <= MAX_DEPTH
    ensures Single(AfterRecipient(w, b, c, event, pub).subscriptions)
    decreases MAX_DEPTH + 1 - b.callbackDepth, 4, 0
  {
    var s := AfterCascadeStart(b);
    if Wants(w, s, c, event) {
      var called := s.Log(Called(c.id, pub, s.callbackDepth));
      ActionsSingle(w, called, w.reacts(c.callback, event, called), pub);
    }
  }

  lemma {:induction false} ActionsSingle(w: World, b: Bus, actions: seq<Action>, pub: nat)
    requires Single(b.subscriptions) && b.callbackDepth <= MAX_DEPTH
    ensures Single(AfterActions(w, b, actions, pub).subscriptions)
    decreases MAX_DEPTH + 1 - b.callbackDepth, 3, |actions|
  {
    if actions == [] || actions[0].Throw? {
    } else if actions[0].Publish? {
      PublishSingle(w, b, actions[0].event, Some(pub));
      ActionsSingle(w, AfterPublish(w, b, actions[0].event, Some(pub)), actions[1..], pub);
    } else {
      UpdateSingle(b, actions[0]);
      ActionsSingle(w, AfterUpdate(b, actions[0]), actions[1..], pub);
    }
  }

  lemma {:induction false} RunSingle(w: World, requests: seq<Action>)
    ensures Single(Run(w, requests).subscriptions)
  {
    if requests == [] {
    } else {
      var earlier, request := requests[..|requests| - 1], requests[|requests| - 1];
      RunSingle(w, earlier);
      if request.Publish? {
        PublishSingle(w, Run(w, earlier), request.event, None);
      } else if !request.Throw? {
        UpdateSingle(Run(w, earlier), request);
      }
    }
  }

  lemma {:induction false} SingleAt(subs: seq<ActorSubscription>, i: nat, j: nat)
    requires Single(subs) && i < j < |subs| && subs[i].filter.None?
    ensures subs[i] != subs[j]
  {
    if i == 0 {
      assert subs[j] in subs[1..];
    } else {
      SingleAt(subs[1..], i - 1, j - 1);
    }
  }

  /** In every run an actor holds an unfiltered subscription to a channel at most once. */
  lemma NoSubscriptionTwice(w: World, requests: seq<Action>, i: nat, j: nat)
    requires var subs := Run(w, requests).subscriptions; i < j < |subs| && subs[i].filter.None?
    ensures var subs := Run(w, requests).subscriptions; subs[i] != subs[j]
  {
    RunSingle(w, requests);
    SingleAt(Run(w, requests).subscriptions, i, j);
  }
}
