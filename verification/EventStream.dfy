/**
 The bus in the source's own form: one object whose lists and flags change while deliveries
 are on the stack.  Every method is proved to do what the functions of `EventBus` say.
 */
module EventStreams {
  import opened Options
  import opened EventBus

  class EventStream {
    var subscriptions: seq<ActorSubscription>
    var callbacks: seq<CallbackSubscription>
    /** The ids whose `subscribed` flag is still set. */
    var subscribed: set<nat>
    var callbackDepth: nat
    var cascadeCut: bool
    var callbacksEnded: bool
    /** What subscribers and callbacks have seen. */
    var trace: seq<Entry>

    ghost function View(): Bus
      reads this
    {
      Bus(subscriptions, callbacks, subscribed, callbackDepth, cascadeCut, callbacksEnded, trace)
    }

    constructor ()
      ensures View() == EMPTY
    {
      subscriptions, callbacks, subscribed := [], [], {};
      callbackDepth, cascadeCut, callbacksEnded, trace := 0, false, false, [];
    }

    method Subscribe(s: ActorSubscription) returns (added: bool)
      modifies this
      ensures View() == AfterSubscribe(old(View()), s)
      ensures added <==> !(s.filter.None? && s in old(subscriptions))
    {
      if s.filter.None? && s in subscriptions { return false; }
      subscriptions := subscriptions + [s];
      return true;
    }

    method Unsubscribe(subscriber: Actor, from: Option<Channel>) returns (removed: bool)
      modifies this
      ensures View() == old(View()).(subscriptions := Without(old(subscriptions), subscriber, from))
      ensures removed <==> |subscriptions| != |old(subscriptions)|
    {
      var before := |subscriptions|;
      subscriptions := Without(subscriptions, subscriber, from);
      removed := |subscriptions| != before;
    }

    /** Returns the id the handle ends, or nothing when the system has terminated. */
    method SubscribeFunction(channel: Channel, callback: Callback) returns (handle: Option<nat>)
      modifies this
      ensures View() == AfterUpdate(old(View()), Action.SubscribeFunction(channel, callback))
      ensures handle == if old(callbacksEnded) then None else Some(|old(trace)|)
    {
      if callbacksEnded { return None; }
      var id := |trace|;
      callbacks := callbacks + [CallbackSubscription(id, channel, callback)];
      subscribed := subscribed + {id};
      trace := trace + [Subscribed(channel, callback)];
      return Some(id);
    }

    method RemoveCallback(id: nat)
      modifies this
      ensures View() == AfterRemove(old(View()), id)
    {
      if id !in subscribed { return; }
      subscribed := subscribed - {id};
      callbacks := Spliced(callbacks, id);
      trace := trace + [Ended(id)];
    }

    method EndCallbackSubscriptions()
      modifies this
      ensures View() == AfterUpdate(old(View()), Action.EndCallbackSubscriptions)
    {
      callbacksEnded := true;
      trace := trace + [SystemEnded];
      var ending := callbacks;
      ghost var start := View();
      for i := 0 to |ending|
        invariant AfterRemoveAll(View(), ending[i..]) == AfterRemoveAll(start, ending)
      {
        RemoveCallback(ending[i].id);
        assert ending[i..][1..] == ending[i + 1..];
      }
    }

    method Publish(w: World, event: Event, cause: Option<nat>)
      requires callbackDepth <= MAX_DEPTH
      modifies this
      ensures View() == AfterPublish(w, old(View()), event, cause)
      decreases MAX_DEPTH + 1 - callbackDepth, 2, 0
    {
      var pub := |trace|;
      trace := trace + [Published(event, cause)];
      var recipients := subscriptions;
      ghost var start := trace;
      for i := 0 to |recipients|
        invariant unchanged(this`subscriptions, this`callbacks, this`subscribed, this`callbackDepth, this`cascadeCut, this`callbacksEnded)
        invariant trace + Tells(w, recipients[i..], event, pub) == start + Tells(w, recipients, event, pub)
      {
        if Accepts(w, recipients[i], event) {
          trace := trace + [Told(recipients[i].subscriber, pub)];
        }
        assert recipients[i..][1..] == recipients[i + 1..];
      }
      assert trace == old(trace) + [Published(event, cause)] + Tells(w, recipients, event, pub);
      assert View() == old(View()).(trace := trace);
      if |callbacks| > 0 {
        CallCallbacks(w, event, pub);
      }
    }

    method CallCallbacks(w: World, event: Event, pub: nat)
      requires callbackDepth <= MAX_DEPTH
      modifies this
      ensures View() == AfterCallbacks(w, old(View()), event, pub)
      decreases MAX_DEPTH + 1 - callbackDepth, 1, 0
    {
      var outermost := callbackDepth == 0;
      if !outermost && cascadeCut { return; }
      var tooDeep := callbackDepth >= MAX_DEPTH;
      var recipients := callbacks;
      callbackDepth := callbackDepth + 1;
      ghost var start := View();
      var i := 0;
      while i < |recipients|
        invariant i <= |recipients| && callbackDepth == start.callbackDepth
        invariant AfterDelivery(w, View(), recipients[i..], event, pub) == AfterDelivery(w, start, recipients, event, pub)
        decreases |recipients| - i
      {
        var c := recipients[i];
        assert recipients[i..][1..] == recipients[i + 1..];
        if tooDeep && c.id in subscribed && w.matches(c.channel, event) {
          cascadeCut := true;
          trace := trace + [CascadeCut];
          break;
        }
        CallRecipient(w, c, event, pub);
        i := i + 1;
      }
      callbackDepth := callbackDepth - 1;
    }

    /** The body of the delivery loop for a recipient that does not cut the cascade. */
    method CallRecipient(w: World, c: CallbackSubscription, event: Event, pub: nat)
      requires 1 <= callbackDepth <= MAX_DEPTH + 1
      requires c.id in subscribed && w.matches(c.channel, event) ==> callbackDepth <= MAX_DEPTH
      modifies this
      ensures View() == AfterRecipient(w, old(View()), c, event, pub)
      decreases MAX_DEPTH + 1 - callbackDepth, 4, 0
    {
      if callbackDepth == 1 {
        cascadeCut := false;
        trace := trace + [CascadeStarted];
      }
      if c.id !in subscribed || !w.matches(c.channel, event) { return; }
      trace := trace + [Called(c.id, pub, callbackDepth)];
      var here := Bus(subscriptions, callbacks, subscribed, callbackDepth, cascadeCut, callbacksEnded, trace);
      RunCallback(w, w.reacts(c.callback, event, here), pub);
    }

    method Update(action: Action)
      requires !action.Publish? && !action.Throw?
      modifies this
      ensures View() == AfterUpdate(old(View()), action)
    {
      match action {
        case Subscribe(subscriber, channel, filter) =>
          var _ := Subscribe(ActorSubscription(subscriber, channel, filter));
        case Unsubscribe(subscriber, from) => var _ := Unsubscribe(subscriber, from);
        case SubscribeFunction(channel, callback) => var _ := SubscribeFunction(channel, callback);
        case RunHandle(id) => RemoveCallback(id);
        case EndCallbackSubscriptions => EndCallbackSubscriptions();
      }
    }

    /** A callback at work: each of its actions is a call into this very object. */
    method RunCallback(w: World, actions: seq<Action>, pub: nat)
      requires callbackDepth <= MAX_DEPTH
      modifies this
      ensures View() == AfterActions(w, old(View()), actions, pub)
      decreases MAX_DEPTH + 1 - callbackDepth, 3, |actions|
    {
      if actions == [] || actions[0].Throw? { return; }
      if actions[0].Publish? {
        Publish(w, actions[0].event, Some(pub));
      } else {
        Update(actions[0]);
      }
      RunCallback(w, actions[1..], pub);
    }

    /** One request from outside after `earlier` ones: the object is where the run over all of them leads. */
    method Request(w: World, request: Action, ghost earlier: seq<Action>)
      requires View() == Run(w, earlier)
      modifies this
      ensures View() == Run(w, earlier + [request])
    {
      assert (earlier + [request])[..|earlier|] == earlier;
      if request.Publish? {
        Publish(w, request.event, None);
      } else if !request.Throw? {
        Update(request);
      }
    }
  }
}
