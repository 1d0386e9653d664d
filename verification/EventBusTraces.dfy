/**
 What every run of the event bus keeps: each entry of the trace is justified by the
 entries before it (`Allowed`), for any callback behaviour and any sequence of requests.
 The lemmas at the end restate the parts of `Allowed` in terms of two positions in a trace.
 */
module EventBusTraces {
  import opened Options
  import opened EventBus

  /** Where the cascade in progress at the end of `tr` was cut, if it was. */
  ghost function OpenCut(tr: seq<Entry>): (r: Option<nat>)
    ensures r.Some? ==> r.value < |tr| && tr[r.value].CascadeCut?
  {
    if tr == [] then None
    else
      var before := OpenCut(tr[..|tr| - 1]);
      match tr[|tr| - 1]
      case CascadeStarted => None
      case CascadeCut => if before.Some? then before else Some(|tr| - 1)
      case _ => before
  }

  /** The callback subscriptions that have not ended by the end of `tr`. */
  ghost function Open(tr: seq<Entry>): (r: set<nat>)
    ensures forall id :: id in r ==> IsSubscription(tr, id)
  {
    if tr == [] then {}
    else
      var before := Open(tr[..|tr| - 1]);
      match tr[|tr| - 1]
      case Subscribed(_, _) => before + {|tr| - 1}
      case Ended(id) => before - {id}
      case _ => before
  }

  ghost predicate HasEnded(tr: seq<Entry>) {
    tr != [] && (tr[|tr| - 1].SystemEnded? || HasEnded(tr[..|tr| - 1]))
  }

  /** How many callbacks are on the stack when a callback is called for `pub`. */
  ghost function Nesting(tr: seq<Entry>, pub: nat): nat
    decreases pub
  {
    if pub < |tr| && tr[pub].Published? && tr[pub].cause.Some? && tr[pub].cause.value < pub
    then 1 + Nesting(tr, tr[pub].cause.value)
    else 1
  }

  ghost predicate IsPublish(tr: seq<Entry>, pub: nat) { pub < |tr| && tr[pub].Published? }
  ghost predicate IsSubscription(tr: seq<Entry>, id: nat) { id < |tr| && tr[id].Subscribed? }

  /** May `e` follow the entries `tr`? */
  ghost predicate Allowed(w: World, tr: seq<Entry>, e: Entry) {
    match e
    case Published(_, cause) => cause.Some? ==> IsPublish(tr, cause.value)
    // An event reaches all its actors before anything else happens.
    case Told(_, pub) =>
      IsPublish(tr, pub) && forall k :: pub < k < |tr| ==> tr[k].Told? && tr[k].pub == pub
    case Subscribed(_, _) => !HasEnded(tr)
    case Ended(id) => id in Open(tr)
    case SystemEnded => true
    case CascadeStarted => true
    case Called(id, pub, depth) =>
      && id in Open(tr) && !HasEnded(tr)                           // handle not run, system not ended
      && IsPublish(tr, pub)
      && id < pub                                                  // not subscribed mid-delivery
      && w.matches(tr[id].channel, tr[pub].event)
      && depth == Nesting(tr, pub) <= MAX_DEPTH                    // the bound
      && (OpenCut(tr).Some? ==> pub < OpenCut(tr).value)           // not published after a cut
      && (forall k :: 0 <= k < |tr| && tr[k].Called? ==> !(tr[k].id == id && tr[k].pub == pub))  // once
    case CascadeCut => OpenCut(tr).None?                           // one warning per cascade
  }

  ghost predicate Lawful(w: World, tr: seq<Entry>) {
    tr == [] || (Lawful(w, tr[..|tr| - 1]) && Allowed(w, tr[..|tr| - 1], tr[|tr| - 1]))
  }

  lemma {:induction false} LawfulAt(w: World, tr: seq<Entry>, j: nat)
    requires Lawful(w, tr) && j < |tr|
    ensures Allowed(w, tr[..j], tr[j])
  {
    if j < |tr| - 1 {
      LawfulAt(w, tr[..|tr| - 1], j);
      assert tr[..|tr| - 1][..j] == tr[..j];
    }
  }

  ghost function Ids(cs: seq<CallbackSubscription>): set<nat> {
    if cs == [] then {} else {cs[0].id} + Ids(cs[1..])
  }

  /** `cs` in order of id, none below `floor`, each as the trace recorded it. */
  ghost predicate Recorded(tr: seq<Entry>, cs: seq<CallbackSubscription>, floor: nat) {
    cs == [] ||
    (floor <= cs[0].id < |tr| && tr[cs[0].id] == Subscribed(cs[0].channel, cs[0].callback)
     && Recorded(tr, cs[1..], cs[0].id + 1))
  }

  /** The subscribed ids are the ids of the list and the subscriptions not yet ended. */
  ghost predicate Listed(w: World, b: Bus) {
    && Lawful(w, b.trace)
    && Recorded(b.trace, b.callbacks, 0)
    && b.subscribed == Ids(b.callbacks)
    && b.subscribed == Open(b.trace)
    && (b.callbacksEnded <==> HasEnded(b.trace))
    && (b.cascadeCut <==> OpenCut(b.trace).Some?)
  }

  /** The fields of the bus say what its trace says. */
  ghost predicate Consistent(w: World, b: Bus) {
    Listed(w, b) && (b.callbacksEnded ==> b.subscribed == {})
  }

  /** `r` adds entries to `b`, calls callbacks only for publishes from `from` on and tells actors only of new ones. */
  ghost predicate Extends(b: Bus, r: Bus, from: nat) {
    && b.trace <= r.trace
    && (forall j :: |b.trace| <= j < |r.trace| && r.trace[j].Called? ==> r.trace[j].pub >= from)
    && (forall j :: |b.trace| <= j < |r.trace| && r.trace[j].Told? ==> r.trace[j].pub >= |b.trace|)
  }

  /** No cascade starts between `b` and `r`: a cut stays, and a new one lies after `b`. */
  ghost predicate SameCascade(b: Bus, r: Bus) {
    if OpenCut(b.trace).Some? then OpenCut(r.trace) == OpenCut(b.trace)
    else OpenCut(r.trace).Some? ==> OpenCut(r.trace).value >= |b.trace|
  }

  lemma LawfulAppend(w: World, tr: seq<Entry>, e: Entry)
    requires Lawful(w, tr) && Allowed(w, tr, e)
    ensures Lawful(w, tr + [e])
    ensures OpenCut(tr + [e]) == match e
      case CascadeStarted => None
      case CascadeCut => if OpenCut(tr).Some? then OpenCut(tr) else Some(|tr|)
      case _ => OpenCut(tr)
    ensures Open(tr + [e]) == match e
      case Subscribed(_, _) => Open(tr) + {|tr|}
      case Ended(id) => Open(tr) - {id}
      case _ => Open(tr)
    ensures HasEnded(tr + [e]) == (e.SystemEnded? || HasEnded(tr))
  {
    assert (tr + [e])[..|tr|] == tr;
  }

  lemma {:induction false} NestingPrefix(tr: seq<Entry>, more: seq<Entry>, pub: nat)
    requires tr <= more && pub < |tr|
    ensures Nesting(tr, pub) == Nesting(more, pub)
    decreases pub
  {
    assert more[pub] == tr[pub];
    if tr[pub].Published? && tr[pub].cause.Some? && tr[pub].cause.value < pub {
      NestingPrefix(tr, more, tr[pub].cause.value);
    }
  }

  lemma {:induction false} RecordedLater(tr: seq<Entry>, more: seq<Entry>, cs: seq<CallbackSubscription>, floor: nat)
    requires Recorded(tr, cs, floor) && tr <= more
    ensures Recorded(more, cs, floor)
  {
    if cs == [] {
    } else {
      assert more[cs[0].id] == tr[cs[0].id];
      RecordedLater(tr, more, cs[1..], cs[0].id + 1);
    }
  }

  /** Logging an entry that touches no subscription keeps the fields in step. */
  lemma LogKeeps(w: World, b: Bus, e: Entry, r: Bus)
    requires Consistent(w, b) && Allowed(w, b.trace, e)
    requires e.Published? || e.Told? || e.Called? || e.CascadeStarted? || e.CascadeCut?
    requires r == b.Log(e).(cascadeCut := if e.CascadeCut? then true else if e.CascadeStarted? then false else b.cascadeCut)
    ensures Consistent(w, r)
  {
    LawfulAppend(w, b.trace, e);
    RecordedLater(b.trace, r.trace, b.callbacks, 0);
  }

  lemma {:induction false} TellsKeep(w: World, b: Bus, tells: seq<Entry>, pub: nat)
    requires Consistent(w, b) && IsPublish(b.trace, pub)
    requires forall k :: pub < k < |b.trace| ==> b.trace[k].Told? && b.trace[k].pub == pub
    requires forall i :: 0 <= i < |tells| ==> tells[i].Told? && tells[i].pub == pub
    ensures Consistent(w, b.(trace := b.trace + tells))
    ensures OpenCut(b.trace + tells) == OpenCut(b.trace)
    decreases |tells|
  {
    if tells == [] {
      assert b.trace + tells == b.trace;
    } else {
      LogKeeps(w, b, tells[0], b.Log(tells[0]));
      LawfulAppend(w, b.trace, tells[0]);
      TellsKeep(w, b.Log(tells[0]), tells[1..], pub);
      assert b.trace + [tells[0]] + tells[1..] == b.trace + tells;
    }
  }

  lemma {:induction false} IdsFrom(tr: seq<Entry>, cs: seq<CallbackSubscription>, floor: nat, id: nat)
    requires Recorded(tr, cs, floor) && id in Ids(cs)
    ensures floor <= id
  {
    if id != cs[0].id {
      IdsFrom(tr, cs[1..], cs[0].id + 1, id);
    }
  }

  lemma {:induction false} SplicedKeeps(tr: seq<Entry>, cs: seq<CallbackSubscription>, floor: nat, id: nat)
    requires Recorded(tr, cs, floor)
    ensures Recorded(tr, Spliced(cs, id), floor)
    ensures Ids(Spliced(cs, id)) == Ids(cs) - {id}
  {
    if cs == [] {
    } else if cs[0].id == id {
      if id in Ids(cs[1..]) {
        IdsFrom(tr, cs[1..], id + 1, id);
      }
      RecordedLower(tr, cs[1..], id + 1, floor);
    } else {
      SplicedKeeps(tr, cs[1..], cs[0].id + 1, id);
      assert Spliced(cs, id)[1..] == Spliced(cs[1..], id);
    }
  }

  lemma RecordedLower(tr: seq<Entry>, cs: seq<CallbackSubscription>, floor: nat, lower: nat)
    requires Recorded(tr, cs, floor) && lower <= floor
    ensures Recorded(tr, cs, lower)
  {
  }

  lemma {:induction false} AppendKeeps(tr: seq<Entry>, cs: seq<CallbackSubscription>, floor: nat, c: CallbackSubscription)
    requires Recorded(tr, cs, floor) && floor <= |tr| == c.id
    ensures Recorded(tr + [Subscribed(c.channel, c.callback)], cs + [c], floor)
    ensures Ids(cs + [c]) == Ids(cs) + {c.id}
  {
    var more := tr + [Subscribed(c.channel, c.callback)];
    if cs == [] {
    } else {
      AppendKeeps(tr, cs[1..], cs[0].id + 1, c);
      assert (cs + [c])[1..] == cs[1..] + [c];
      assert more[cs[0].id] == tr[cs[0].id];
    }
  }

  lemma RemoveKeeps(w: World, b: Bus, id: nat)
    requires Listed(w, b)
    ensures var r := AfterRemove(b, id); Listed(w, r) && Extends(b, r, |b.trace|) && SameCascade(b, r)
    ensures AfterRemove(b, id).subscribed == b.subscribed - {id}
  {
    if id in b.subscribed {
      LawfulAppend(w, b.trace, Ended(id));
      SplicedKeeps(b.trace, b.callbacks, 0, id);
      RecordedLater(b.trace, b.trace + [Ended(id)], Spliced(b.callbacks, id), 0);
    }
  }

  lemma {:induction false} RemoveAllKeeps(w: World, b: Bus)
    requires Listed(w, b)
    ensures var r := AfterRemoveAll(b, b.callbacks);
      Listed(w, r) && r.subscribed == {} && Extends(b, r, |b.trace|) && SameCascade(b, r)
    decreases |b.callbacks|
  {
    if b.callbacks == [] {
    } else {
      var rest := AfterRemove(b, b.callbacks[0].id);
      assert b.callbacks[0].id in Ids(b.callbacks);
      RemoveKeeps(w, b, b.callbacks[0].id);
      RemoveAllKeeps(w, rest);
    }
  }

  lemma SubscribeFunctionKeeps(w: World, b: Bus, action: Action)
    requires Consistent(w, b) && action.SubscribeFunction? && !b.callbacksEnded
    ensures var r := AfterUpdate(b, action); Consistent(w, r) && Extends(b, r, |b.trace|) && SameCascade(b, r)
  {
    LawfulAppend(w, b.trace, Subscribed(action.channel, action.callback));
    AppendKeeps(b.trace, b.callbacks, 0, CallbackSubscription(|b.trace|, action.channel, action.callback));
  }

  lemma EndCallbacksKeeps(w: World, b: Bus)
    requires Consistent(w, b)
    ensures var r := AfterUpdate(b, EndCallbackSubscriptions);
      Consistent(w, r) && Extends(b, r, |b.trace|) && SameCascade(b, r)
  {
    var ending := b.(callbacksEnded := true).Log(SystemEnded);
    LawfulAppend(w, b.trace, SystemEnded);
    RecordedLater(b.trace, ending.trace, b.callbacks, 0);
    RemoveAllKeeps(w, ending);
  }

  lemma UpdateKeeps(w: World, b: Bus, action: Action)
    requires Consistent(w, b) && !action.Publish? && !action.Throw?
    ensures var r := AfterUpdate(b, action); Consistent(w, r) && Extends(b, r, |b.trace|) && SameCascade(b, r)
  {
    match action
    case SubscribeFunction(_, _) =>
      if !b.callbacksEnded {
        SubscribeFunctionKeeps(w, b, action);
      }
    case RunHandle(id) => RemoveKeeps(w, b, id);
    case EndCallbackSubscriptions => EndCallbacksKeeps(w, b);
    case _ =>
  }

  /** `pub` is a publish of `event`, and callbacks for it are called at `depth`. */
  ghost predicate InFlight(tr: seq<Entry>, pub: nat, event: Event, depth: nat) {
    IsPublish(tr, pub) && tr[pub].event == event && Nesting(tr, pub) == depth
  }

  /** Callbacks called for `pub` so far all come before `floor`. */
  ghost predicate CalledBelow(tr: seq<Entry>, pub: nat, floor: nat) {
    forall k :: 0 <= k < |tr| && tr[k].Called? && tr[k].pub == pub ==> tr[k].id < floor
  }

  lemma InFlightLater(b: Bus, r: Bus, pub: nat, event: Event, depth: nat, floor: nat)
    requires InFlight(b.trace, pub, event, depth) && CalledBelow(b.trace, pub, floor)
    requires Extends(b, r, |b.trace|)
    ensures InFlight(r.trace, pub, event, depth) && CalledBelow(r.trace, pub, floor)
    ensures r.trace[..pub] == b.trace[..pub]
  {
    NestingPrefix(b.trace, r.trace, pub);
  }

  lemma {:induction false} PublishKeeps(w: World, b: Bus, event: Event, cause: Option<nat>)
    requires Consistent(w, b) && b.callbackDepth <= MAX_DEPTH
    requires if b.callbackDepth == 0 then cause.None?
      else cause.Some? && IsPublish(b.trace, cause.value) && Nesting(b.trace, cause.value) == b.callbackDepth
    ensures var r := AfterPublish(w, b, event, cause);
      Consistent(w, r) && Extends(b, r, |b.trace|) && (b.callbackDepth > 0 ==> SameCascade(b, r))
    decreases MAX_DEPTH + 1 - b.callbackDepth, 2, 0
  {
    var pub := |b.trace|;
    var told := b.(trace := b.trace + [Published(event, cause)] + Tells(w, b.subscriptions, event, pub));
    ActorsToldKeeps(w, b, event, cause, told);
    if |told.callbacks| > 0 {
      CallbacksKeep(w, told, event, pub);
    }
  }

  /** The publish is recorded and every accepting actor told; no callback has been called for it. */
  lemma ActorsToldKeeps(w: World, b: Bus, event: Event, cause: Option<nat>, told: Bus)
    requires Consistent(w, b)
    requires cause.Some? ==> IsPublish(b.trace, cause.value)
    requires told == b.(trace := b.trace + [Published(event, cause)] + Tells(w, b.subscriptions, event, |b.trace|))
    ensures Consistent(w, told) && Extends(b, told, |b.trace|) && SameCascade(b, told)
    ensures InFlight(told.trace, |b.trace|, event, if cause.Some? then 1 + Nesting(b.trace, cause.value) else 1)
    ensures Recorded(told.trace[..|b.trace|], told.callbacks, 0) && CalledBelow(told.trace, |b.trace|, 0)
  {
    var pub := |b.trace|;
    var published := b.Log(Published(event, cause));
    PublishedKeeps(w, b, event, cause);
    TellsKeep(w, published, Tells(w, b.subscriptions, event, pub), pub);
    NestingPrefix(published.trace, told.trace, pub);
    assert told.trace[..pub] == b.trace;
    NoCallsYet(w, b.trace, pub);
  }

  lemma PublishedKeeps(w: World, b: Bus, event: Event, cause: Option<nat>)
    requires Consistent(w, b) && (cause.Some? ==> IsPublish(b.trace, cause.value))
    ensures var r := b.Log(Published(event, cause));
      && Consistent(w, r) && OpenCut(r.trace) == OpenCut(b.trace)
      && InFlight(r.trace, |b.trace|, event, if cause.Some? then 1 + Nesting(b.trace, cause.value) else 1)
  {
    var r := b.Log(Published(event, cause));
    LogKeeps(w, b, Published(event, cause), r);
    LawfulAppend(w, b.trace, Published(event, cause));
    if cause.Some? {
      NestingPrefix(b.trace, r.trace, cause.value);
    }
  }

  lemma {:induction false} NoCallsYet(w: World, tr: seq<Entry>, pub: nat)
    requires Lawful(w, tr) && pub >= |tr|
    ensures CalledBelow(tr, pub, 0)
  {
    if tr == [] {
    } else {
      NoCallsYet(w, tr[..|tr| - 1], pub);
    }
  }

  lemma {:induction false} CallbacksKeep(w: World, b: Bus, event: Event, pub: nat)
    requires Consistent(w, b) && b.callbackDepth <= MAX_DEPTH
    requires InFlight(b.trace, pub, event, b.callbackDepth + 1)
    requires Recorded(b.trace[..pub], b.callbacks, 0) && CalledBelow(b.trace, pub, 0)
    ensures var r := AfterCallbacks(w, b, event, pub);
      Consistent(w, r) && Extends(b, r, pub) && (b.callbackDepth > 0 ==> SameCascade(b, r))
    decreases MAX_DEPTH + 1 - b.callbackDepth, 1, 0
  {
    if b.callbackDepth == 0 || !b.cascadeCut {
      DeliveryKeeps(w, b.(callbackDepth := b.callbackDepth + 1), b.callbacks, event, pub, 0);
    }
  }

  /** Between two calls of a delivery, with `recipients` still to come. */
  ghost predicate Delivering(w: World, b: Bus, recipients: seq<CallbackSubscription>, event: Event, pub: nat, floor: nat) {
    && Consistent(w, b) && 1 <= b.callbackDepth <= MAX_DEPTH + 1
    && InFlight(b.trace, pub, event, b.callbackDepth)
    && Recorded(b.trace[..pub], recipients, floor) && CalledBelow(b.trace, pub, floor)
    && (b.callbackDepth > 1 && OpenCut(b.trace).Some? ==> pub < OpenCut(b.trace).value)
    && (b.callbackDepth > MAX_DEPTH ==> OpenCut(b.trace).None?)
  }

  ghost predicate Kept(w: World, b: Bus, r: Bus, pub: nat) {
    Consistent(w, r) && Extends(b, r, pub) && (b.callbackDepth > 1 ==> SameCascade(b, r))
  }

  lemma KeptTrans(w: World, b: Bus, s: Bus, r: Bus, pub: nat)
    requires Kept(w, b, s, pub) && Kept(w, s, r, pub) && b.callbackDepth == s.callbackDepth
    ensures Kept(w, b, r, pub)
  {
  }

  lemma {:induction false} DeliveryKeeps(w: World, b: Bus, recipients: seq<CallbackSubscription>, event: Event, pub: nat, floor: nat)
    requires Delivering(w, b, recipients, event, pub, floor)
    ensures Kept(w, b, AfterDelivery(w, b, recipients, event, pub), pub)
    decreases MAX_DEPTH + 1 - b.callbackDepth, 4, |recipients|, 1
  {
    if recipients == [] {
    } else if b.callbackDepth > MAX_DEPTH && Wants(w, b, recipients[0], event) {
      CutKeeps(w, b, pub);
    } else {
      RecipientKeeps(w, b, recipients, event, pub, floor);
      var next, rest := AfterRecipient(w, b, recipients[0], event, pub), recipients[1..];
      DeliveryKeeps(w, next, rest, event, pub, recipients[0].id + 1);
      KeptTrans(w, b, next, AfterDelivery(w, next, rest, event, pub), pub);
    }
  }

  lemma CutKeeps(w: World, b: Bus, pub: nat)
    requires Consistent(w, b) && OpenCut(b.trace).None?
    ensures Kept(w, b, b.(cascadeCut := true).Log(CascadeCut), pub)
  {
    LogKeeps(w, b, CascadeCut, b.(cascadeCut := true).Log(CascadeCut));
    LawfulAppend(w, b.trace, CascadeCut);
  }

  /** One turn of the delivery loop, unless the turn cuts the cascade. */
  lemma {:induction false} RecipientKeeps(w: World, b: Bus, recipients: seq<CallbackSubscription>, event: Event, pub: nat, floor: nat)
    requires Delivering(w, b, recipients, event, pub, floor) && recipients != []
    requires Wants(w, b, recipients[0], event) ==> b.callbackDepth <= MAX_DEPTH
    ensures var c := recipients[0];
      var next := AfterRecipient(w, b, c, event, pub);
      && Delivering(w, next, recipients[1..], event, pub, c.id + 1) && Kept(w, b, next, pub)
      && (Wants(w, b, c, event) ==> Called(c.id, pub, b.callbackDepth) in next.trace)
    decreases MAX_DEPTH + 1 - b.callbackDepth, 4, |recipients|, 0
  {
    var c, rest := recipients[0], recipients[1..];
    var s := AfterCascadeStart(b);
    CascadeStarts(w, b, recipients, event, pub, floor);
    if Wants(w, s, c, event) {
      CallKeeps(w, s, recipients, event, pub, floor);
      var called := s.Log(Called(c.id, pub, s.callbackDepth));
      var actions := w.reacts(c.callback, event, called);
      var next := AfterActions(w, called, actions, pub);
      ActionsKeep(w, called, actions, pub);
      ActedKeeps(w, called, next, rest, event, pub, c.id + 1);
      KeptTrans(w, b, s, called, pub);
      KeptTrans(w, b, called, next, pub);
      Persists(called.trace, next.trace, Called(c.id, pub, b.callbackDepth));
    }
  }

  lemma CascadeStarts(w: World, b: Bus, recipients: seq<CallbackSubscription>, event: Event, pub: nat, floor: nat)
    requires Delivering(w, b, recipients, event, pub, floor)
    ensures var s := AfterCascadeStart(b);
      && Delivering(w, s, recipients, event, pub, floor) && Kept(w, b, s, pub)
      && (OpenCut(s.trace).Some? ==> pub < OpenCut(s.trace).value)
  {
    var s := AfterCascadeStart(b);
    if b.callbackDepth == 1 {
      LogKeeps(w, b, CascadeStarted, s);
      LawfulAppend(w, b.trace, CascadeStarted);
      NestingPrefix(b.trace, s.trace, pub);
      assert s.trace[..pub] == b.trace[..pub];
    }
  }

  lemma CallKeeps(w: World, b: Bus, recipients: seq<CallbackSubscription>, event: Event, pub: nat, floor: nat)
    requires Delivering(w, b, recipients, event, pub, floor) && b.callbackDepth <= MAX_DEPTH && recipients != []
    requires OpenCut(b.trace).Some? ==> pub < OpenCut(b.trace).value
    requires Wants(w, b, recipients[0], event)
    ensures var c := recipients[0];
      var called := b.Log(Called(c.id, pub, b.callbackDepth));
      Delivering(w, called, recipients[1..], event, pub, c.id + 1) && Kept(w, b, called, pub)
      && OpenCut(called.trace) == OpenCut(b.trace)
  {
    var c := recipients[0];
    var e := Called(c.id, pub, b.callbackDepth);
    assert b.trace[c.id] == b.trace[..pub][c.id];
    LogKeeps(w, b, e, b.Log(e));
    LawfulAppend(w, b.trace, e);
    NestingPrefix(b.trace, b.trace + [e], pub);
    assert (b.trace + [e])[..pub] == b.trace[..pub];
  }

  lemma ActedKeeps(w: World, called: Bus, acted: Bus, rest: seq<CallbackSubscription>, event: Event, pub: nat, floor: nat)
    requires Delivering(w, called, rest, event, pub, floor)
    requires OpenCut(called.trace).Some? ==> pub < OpenCut(called.trace).value
    requires Consistent(w, acted) && Extends(called, acted, |called.trace|) && SameCascade(called, acted)
    requires acted.callbackDepth == called.callbackDepth <= MAX_DEPTH
    ensures Delivering(w, acted, rest, event, pub, floor) && Kept(w, called, acted, pub)
  {
    InFlightLater(called, acted, pub, event, called.callbackDepth, floor);
  }

  lemma {:induction false} ActionsKeep(w: World, b: Bus, actions: seq<Action>, pub: nat)
    requires Consistent(w, b) && 1 <= b.callbackDepth <= MAX_DEPTH
    requires IsPublish(b.trace, pub) && Nesting(b.trace, pub) == b.callbackDepth
    ensures var r := AfterActions(w, b, actions, pub);
      Consistent(w, r) && Extends(b, r, |b.trace|) && SameCascade(b, r)
    decreases MAX_DEPTH + 1 - b.callbackDepth, 3, |actions|
  {
    if actions == [] || actions[0].Throw? {
    } else if actions[0].Publish? {
      var next := AfterPublish(w, b, actions[0].event, Some(pub));
      PublishKeeps(w, b, actions[0].event, Some(pub));
      NestingPrefix(b.trace, next.trace, pub);
      ActionsKeep(w, next, actions[1..], pub);
      ExtendsTrans(b, next, AfterActions(w, next, actions[1..], pub));
    } else {
      var next := AfterUpdate(b, actions[0]);
      UpdateKeeps(w, b, actions[0]);
      NestingPrefix(b.trace, next.trace, pub);
      ActionsKeep(w, next, actions[1..], pub);
      ExtendsTrans(b, next, AfterActions(w, next, actions[1..], pub));
    }
  }

  lemma ExtendsTrans(b: Bus, m: Bus, r: Bus)
    requires Extends(b, m, |b.trace|) && Extends(m, r, |m.trace|) && SameCascade(b, m) && SameCascade(m, r)
    ensures Extends(b, r, |b.trace|) && SameCascade(b, r)
  {
  }

  /** Every bus an application can bring about is consistent with a lawful trace. */
  lemma {:induction false} EveryRunIsLawful(w: World, requests: seq<Action>)
    ensures Consistent(w, Run(w, requests))
  {
    if requests == [] {
    } else {
      var earlier := requests[..|requests| - 1];
      EveryRunIsLawful(w, earlier);
      var request := requests[|requests| - 1];
      if request.Publish? {
        PublishKeeps(w, Run(w, earlier), request.event, None);
      } else if !request.Throw? {
        UpdateKeeps(w, Run(w, earlier), request);
      }
    }
  }

  // ---- What a lawful trace means, position by position ----

  lemma {:induction false} EndedIsNotOpen(tr: seq<Entry>, i: nat, j: nat, id: nat)
    requires id < i < j <= |tr| && tr[i] == Ended(id)
    ensures id !in Open(tr[..j])
    decreases j
  {
    assert tr[..j][..j - 1] == tr[..j - 1];
    if i < j - 1 {
      EndedIsNotOpen(tr, i, j - 1, id);
    }
  }

  lemma {:induction false} EndIsRemembered(tr: seq<Entry>, i: nat, j: nat)
    requires i < j <= |tr| && tr[i].SystemEnded?
    ensures HasEnded(tr[..j])
    decreases j
  {
    assert tr[..j][..j - 1] == tr[..j - 1];
    if i < j - 1 {
      EndIsRemembered(tr, i, j - 1);
    }
  }

  lemma {:induction false} CutIsRemembered(tr: seq<Entry>, i: nat, j: nat)
    requires i < j <= |tr| && tr[i].CascadeCut?
    requires forall k :: i < k < j ==> !tr[k].CascadeStarted?
    ensures OpenCut(tr[..j]).Some? && OpenCut(tr[..j]).value <= i
    decreases j
  {
    assert tr[..j][..j - 1] == tr[..j - 1];
    if i < j - 1 {
      CutIsRemembered(tr, i, j - 1);
    }
  }

  /** A callback is not called once its handle has run, nor once the system has ended. */
  lemma NeverCalledAfterItsEnd(w: World, requests: seq<Action>, i: nat, j: nat)
    requires var tr := Run(w, requests).trace; i < j < |tr| && tr[j].Called?
    ensures var tr := Run(w, requests).trace; tr[i] != Ended(tr[j].id) && tr[i] != SystemEnded
  {
    EveryRunIsLawful(w, requests);
    var tr := Run(w, requests).trace;
    LawfulAt(w, tr, i);
    LawfulAt(w, tr, j);
    if tr[i] == Ended(tr[j].id) {
      EndedIsNotOpen(tr, i, j, tr[j].id);
    }
    if tr[i].SystemEnded? {
      EndIsRemembered(tr, i, j);
    }
  }

  /** A callback gets an event at most once, and only if it was subscribed before the event was published. */
  lemma CalledOnceIfSubscribedInTime(w: World, requests: seq<Action>, i: nat, j: nat)
    requires var tr := Run(w, requests).trace; i < j < |tr| && tr[j].Called?
    ensures var tr := Run(w, requests).trace;
      && IsSubscription(tr, tr[j].id) && IsPublish(tr, tr[j].pub) && tr[j].id < tr[j].pub < j
      && w.matches(tr[tr[j].id].channel, tr[tr[j].pub].event)
      && !(tr[i].Called? && tr[i].id == tr[j].id && tr[i].pub == tr[j].pub)
  {
    EveryRunIsLawful(w, requests);
    LawfulAt(w, Run(w, requests).trace, j);
  }

  /** At most MAX_DEPTH callbacks are ever on the stack. */
  lemma NestingIsBounded(w: World, requests: seq<Action>, j: nat)
    requires var tr := Run(w, requests).trace; j < |tr| && tr[j].Called?
    ensures var tr := Run(w, requests).trace; 1 <= tr[j].depth == Nesting(tr, tr[j].pub) <= MAX_DEPTH
  {
    EveryRunIsLawful(w, requests);
    var tr := Run(w, requests).trace;
    LawfulAt(w, tr, j);
    NestingPrefix(tr[..j], tr, tr[j].pub);
  }

  /** Once a cascade is cut, nothing it publishes from then on reaches a callback, and it is not cut again. */
  lemma NothingNewAfterACut(w: World, requests: seq<Action>, i: nat, j: nat)
    requires var tr := Run(w, requests).trace;
      i < j < |tr| && tr[i].CascadeCut? && forall k :: i < k < j ==> !tr[k].CascadeStarted?
    ensures var tr := Run(w, requests).trace;
      !tr[j].CascadeCut? && (tr[j].Called? ==> tr[j].pub < i)
  {
    EveryRunIsLawful(w, requests);
    var tr := Run(w, requests).trace;
    LawfulAt(w, tr, j);
    CutIsRemembered(tr, i, j);
  }

  /** Every actor is told of an event before anyone is told of an event a callback published because of it. */
  lemma CauseReachesActorsFirst(w: World, requests: seq<Action>, i: nat, j: nat)
    requires var tr := Run(w, requests).trace;
      i < |tr| && j < |tr| && tr[i].Told? && tr[j].Told? && IsPublish(tr, tr[j].pub)
      && tr[tr[j].pub].cause == Some(tr[i].pub)
    ensures i < Run(w, requests).trace[j].pub < j
  {
    EveryRunIsLawful(w, requests);
    var tr := Run(w, requests).trace;
    var cause, effect := tr[i].pub, tr[j].pub;
    LawfulAt(w, tr, i);
    LawfulAt(w, tr, j);
    LawfulAt(w, tr, effect);
    assert tr[..effect][cause] == tr[cause];
  }

  lemma Persists(tr: seq<Entry>, more: seq<Entry>, e: Entry)
    requires tr <= more && e in tr
    ensures e in more
  {
    assert more == tr + more[|tr|..];
  }
}
