/**
 The event bus of src/EventStream.ts: what one `publish` does to the bus, to the
 mailboxes of its actor subscribers and to its callbacks.

 The bus is a value (`Bus`) and every operation a function on it, because delivery
 is re-entrant: a callback runs inside `publish` and may itself publish, subscribe
 or end subscriptions.  The class `EventStream` in EventStream.dfy has the source's
 own mutable form and is proved equal to these functions.

 Everything observable is recorded in `trace`.  A publish is named by the index of
 its `Published` entry and a callback subscription by the index of its `Subscribed`
 entry, so "was subscribed before the event was published" is a comparison of two
 indices.
 */
module EventBus {
  import opened Options

  /** MAX_EVENT_STREAM_CALLBACK_DEPTH */
  const MAX_DEPTH: nat := 16

  type Actor = nat
  type Channel = nat
  type Event = nat
  type Filter = nat
  type Callback = nat


  datatype ActorSubscription = ActorSubscription(subscriber: Actor, channel: Channel, filter: Option<Filter>)
  datatype CallbackSubscription = CallbackSubscription(id: nat, channel: Channel, callback: Callback)

  /** What application code may ask of the bus, from outside or from inside a callback. */
  datatype Action =
    | Publish(event: Event)
    | Subscribe(subscriber: Actor, channel: Channel, filter: Option<Filter>)
    | Unsubscribe(subscriber: Actor, from: Option<Channel>)
    | SubscribeFunction(channel: Channel, callback: Callback)
    | RunHandle(subscription: nat)
    | EndCallbackSubscriptions
    | Throw

  datatype Entry =
    | Published(event: Event, cause: Option<nat>)
    | Told(actor: Actor, pub: nat)
    | Subscribed(channel: Channel, callback: Callback)
    | Ended(id: nat)
    | SystemEnded
    | CascadeStarted
    | Called(id: nat, pub: nat, depth: nat)
    | CascadeCut

  datatype Bus = Bus(
    subscriptions: seq<ActorSubscription>,
    callbacks: seq<CallbackSubscription>,
    subscribed: set<nat>,
    callbackDepth: nat,
    cascadeCut: bool,
    callbacksEnded: bool,
    trace: seq<Entry>)
  {
    function Log(e: Entry): Bus {
      this.(trace := trace + [e])
    }
  }

  const EMPTY := Bus([], [], {}, 0, false, false, [])

  /**
   The code the bus does not own.  `reacts` is what a callback does when it is called;
   it sees the whole bus, so a callback may behave differently at every call.  A channel
   or a filter that throws counts as "no match", which is how the bus treats it.
   */
  datatype World = World(
    matches: (Channel, Event) -> bool,
    passes: (Filter, Event) -> bool,
    reacts: (Callback, Event, Bus) -> seq<Action>)

  predicate Accepts(w: World, s: ActorSubscription, event: Event) {
    w.matches(s.channel, event) && (s.filter.Some? ==> w.passes(s.filter.value, event))
  }

  /** One `Told` per accepting subscription, in subscription order. */
  function Tells(w: World, subs: seq<ActorSubscription>, event: Event, pub: nat): (tells: seq<Entry>)
    ensures forall i :: 0 <= i < |tells| ==> tells[i].Told? && tells[i].pub == pub
  {
    if subs == [] then []
    else (if Accepts(w, subs[0], event) then [Told(subs[0].subscriber, pub)] else []) + Tells(w, subs[1..], event, pub)
  }

  function AfterPublish(w: World, b: Bus, event: Event, cause: Option<nat>): (r: Bus)
    requires b.callbackDepth <= MAX_DEPTH
    ensures r.callbackDepth == b.callbackDepth
    decreases MAX_DEPTH + 1 - b.callbackDepth, 2, 0
  {
    var pub := |b.trace|;
    var told := b.(trace := b.trace + [Published(event, cause)] + Tells(w, b.subscriptions, event, pub));
    if |told.callbacks| > 0 then AfterCallbacks(w, told, event, pub) else told
  }

  function AfterCallbacks(w: World, b: Bus, event: Event, pub: nat): (r: Bus)
    requires b.callbackDepth <= MAX_DEPTH
    ensures r.callbackDepth == b.callbackDepth
    decreases MAX_DEPTH + 1 - b.callbackDepth, 1, 0
  {
    if b.callbackDepth != 0 && b.cascadeCut then b
    else
      var delivered := AfterDelivery(w, b.(callbackDepth := b.callbackDepth + 1), b.callbacks, event, pub);
      delivered.(callbackDepth := delivered.callbackDepth - 1)
  }

  /** The loop of `callCallbacks` over the recipients that are left; the depth is already raised. */
  function AfterDelivery(w: World, b: Bus, recipients: seq<CallbackSubscription>, event: Event, pub: nat): (r: Bus)
    requires 1 <= b.callbackDepth <= MAX_DEPTH + 1
    ensures r.callbackDepth == b.callbackDepth
    decreases MAX_DEPTH + 1 - b.callbackDepth, 5, |recipients|
  {
    if recipients == [] then b
    else if b.callbackDepth > MAX_DEPTH && Wants(w, b, recipients[0], event) then
      b.(cascadeCut := true).Log(CascadeCut)
    else
      AfterDelivery(w, AfterRecipient(w, b, recipients[0], event, pub), recipients[1..], event, pub)
  }

  predicate Wants(w: World, b: Bus, c: CallbackSubscription, event: Event) {
    c.id in b.subscribed && w.matches(c.channel, event)
  }

  /** Each recipient of the outermost publish starts a cascade of its own. */
  function AfterCascadeStart(b: Bus): Bus {
    if b.callbackDepth == 1 then b.(cascadeCut := false).Log(CascadeStarted) else b
  }

  function AfterRecipient(w: World, b: Bus, c: CallbackSubscription, event: Event, pub: nat): (r: Bus)
    requires 1 <= b.callbackDepth <= MAX_DEPTH + 1
    requires Wants(w, b, c, event) ==> b.callbackDepth <= MAX_DEPTH
    ensures r.callbackDepth == b.callbackDepth
    decreases MAX_DEPTH + 1 - b.callbackDepth, 4, 0
  {
    var s := AfterCascadeStart(b);
    if !Wants(w, s, c, event) then s
    else
      var called := s.Log(Called(c.id, pub, s.callbackDepth));
      AfterActions(w, called, w.reacts(c.callback, event, called), pub)
  }

  /** What a callback called for `pub` does, action by action; a throw ends it and goes no further. */
  function AfterActions(w: World, b: Bus, actions: seq<Action>, pub: nat): (r: Bus)
    requires b.callbackDepth <= MAX_DEPTH
    ensures r.callbackDepth == b.callbackDepth
    decreases MAX_DEPTH + 1 - b.callbackDepth, 3, |actions|
  {
    if actions == [] || actions[0].Throw? then b
    else if actions[0].Publish? then
      AfterActions(w, AfterPublish(w, b, actions[0].event, Some(pub)), actions[1..], pub)
    else
      AfterActions(w, AfterUpdate(b, actions[0]), actions[1..], pub)
  }

  /** The actions that only change the subscription lists. */
  function AfterUpdate(b: Bus, action: Action): (r: Bus)
    requires !action.Publish? && !action.Throw?
    ensures r.callbackDepth == b.callbackDepth && r.cascadeCut == b.cascadeCut
  {
    match action
    case Subscribe(subscriber, channel, filter) => AfterSubscribe(b, ActorSubscription(subscriber, channel, filter))
    case Unsubscribe(subscriber, from) =>
      b.(subscriptions := Without(b.subscriptions, subscriber, from))
    case SubscribeFunction(channel, callback) =>
      if b.callbacksEnded then b
      else
        var id := |b.trace|;
        b.(callbacks := b.callbacks + [CallbackSubscription(id, channel, callback)],
           subscribed := b.subscribed + {id}).Log(Subscribed(channel, callback))
    case RunHandle(id) => AfterRemove(b, id)
    case EndCallbackSubscriptions =>
      AfterRemoveAll(b.(callbacksEnded := true).Log(SystemEnded), b.callbacks)
  }

  /** Only a subscription without a filter is refused as a duplicate. */
  function AfterSubscribe(b: Bus, s: ActorSubscription): Bus {
    if s.filter.None? && s in b.subscriptions then b else b.(subscriptions := b.subscriptions + [s])
  }

  function Without(subs: seq<ActorSubscription>, subscriber: Actor, from: Option<Channel>): seq<ActorSubscription> {
    if subs == [] then []
    else (if subs[0].subscriber == subscriber && (from.Some? ==> subs[0].channel == from.value) then [] else [subs[0]])
         + Without(subs[1..], subscriber, from)
  }

  function AfterRemove(b: Bus, id: nat): (r: Bus)
    ensures r.callbackDepth == b.callbackDepth && r.cascadeCut == b.cascadeCut
  {
    if id !in b.subscribed then b
    else b.(subscribed := b.subscribed - {id}, callbacks := Spliced(b.callbacks, id)).Log(Ended(id))
  }

  function Spliced(callbacks: seq<CallbackSubscription>, id: nat): seq<CallbackSubscription> {
    if callbacks == [] then []
    else if callbacks[0].id == id then callbacks[1..]
    else [callbacks[0]] + Spliced(callbacks[1..], id)
  }

  function AfterRemoveAll(b: Bus, ending: seq<CallbackSubscription>): (r: Bus)
    ensures r.callbackDepth == b.callbackDepth && r.cascadeCut == b.cascadeCut
    decreases |ending|
  {
    if ending == [] then b else AfterRemoveAll(AfterRemove(b, ending[0].id), ending[1..])
  }

  /** One request made from outside any callback. */
  function AfterRequest(w: World, b: Bus, request: Action): (r: Bus)
    requires b.callbackDepth == 0
    ensures r.callbackDepth == 0
  {
    match request
    case Publish(event) => AfterPublish(w, b, event, None)
    case Throw => b
    case _ => AfterUpdate(b, request)
  }

  /** Every bus an application can bring about. */
  function Run(w: World, requests: seq<Action>): (r: Bus)
    ensures r.callbackDepth == 0
  {
    if requests == [] then EMPTY
    else AfterRequest(w, Run(w, requests[..|requests| - 1]), requests[|requests| - 1])
  }
}
