/**
 The router as the object holds it: every step of the state machine is performed on its fields, so
 what holds for all runs holds for the object.
 */
module ScatterGatherRouterActors {
  import opened Options
  import opened ScatterGatherRouters
  import opened ScatterGatherTheorems

  class ScatterGatherRouter {
    var routees: seq<nat>
    var spawned: nat
    var scatters: seq<Scatter>
    var pending: set<nat>
    var dropped: nat
    var stopped: bool
    var replies: seq<Reply>

    function View(): State
      reads this
    {
      State(routees, spawned, scatters, pending, dropped, stopped, replies)
    }

    /** Some run of the state machine leads to this router. */
    ghost predicate Valid()
      reads this
    {
      Reachable(View())
    }

    /** preStart */
    constructor (size: nat)
      ensures Valid() && View() == Started(size)
    {
      routees, spawned := [], 0;
      scatters, pending, dropped, stopped, replies := [], {}, 0, false, [];
      new;
      while spawned < size
        invariant spawned <= size && View() == Started(spawned)
      {
        routees := routees + [spawned];
        spawned := spawned + 1;
        assert routees == Numbered(0, spawned);
      }
      StartedIsReachable(size);
    }

    method OnTerminated(routee: nat)
      modifies this`routees
      ensures View() == old(View()).(routees := Without(old(routees), routee))
    {
      var k := 0;
      while k < |routees| && routees[k] != routee
        invariant k <= |routees|
        invariant Without(routees, routee) == routees[..k] + Without(routees[k..], routee)
      {
        assert routees[k..][1..] == routees[k + 1..];
        k := k + 1;
      }
      if k < |routees| {
        assert routees[k..][1..] == routees[k + 1..];
        routees := routees[..k] + routees[k + 1..];
      }
    }

    method SettleScatter(i: nat, outcome: Outcome, sender: Option<nat>)
      requires i < |scatters|
      modifies this
      ensures View() == Settle(old(View()), i, outcome, sender)
    {
      if scatters[i].settled {
        return;
      }
      scatters := scatters[i := scatters[i].(settled := true)];
      pending := pending - {i};
      replies := replies + [Reply(i, scatters[i].replyTo, outcome, sender)];
    }

    method OnScatter(replyTo: Option<nat>)
      modifies this
      ensures View() == AfterMessage(old(View()), replyTo)
    {
      if replyTo.None? {
        dropped := dropped + 1;
        return;
      }
      var i := |scatters|;
      scatters := scatters + [Scatter(replyTo.value, routees, seq(|routees|, k => Waiting), [], Open, false, false)];
      pending := pending + {i};
      if routees == [] {
        SettleScatter(i, AllFailed, None);
      }
    }

    method OnFirstReply(i: nat)
      requires i < |scatters| && Decided(scatters[i]) && scatters[i].any.Won?
      modifies this
      ensures View() == Answered(old(View()), i)
    {
      var k := scatters[i].order[scatters[i].any.place];
      SettleScatter(i, First(scatters[i].attempts[k].value), Some(scatters[i].asked[k]));
    }

    method OnEveryRouteeFailed(i: nat)
      requires i < |scatters| && scatters[i].any.Lost?
      modifies this
      ensures View() == Answered(old(View()), i)
    {
      var errors := scatters[i].attempts;
      if |errors| > 0 && EveryTimedOut(errors) {
        SettleScatter(i, Timeout, None);
      } else {
        SettleScatter(i, AllFailed, None);
      }
    }

    method PostStop()
      modifies this
      ensures View() == StoppedFrom(old(View()), 0)
    {
      var i := 0;
      while i < |scatters|
        invariant i <= |scatters| && StoppedFrom(View(), i) == StoppedFrom(old(View()), 0)
      {
        if i in pending {
          SettleScatter(i, Stopped, None);
        }
        i := i + 1;
      }
    }

    /** The reaction of `Promise.any`. */
    method OnAnySettled(i: nat)
      requires i < |scatters| && Decided(scatters[i])
      modifies this
      ensures View() == AfterReaction(old(View()), i)
    {
      if scatters[i].any.Won? {
        OnFirstReply(i);
      } else {
        OnEveryRouteeFailed(i);
      }
      scatters := scatters[i := scatters[i].(reacted := true)];
    }

    /** postStop, then preStart on a fresh pool. */
    method OnRestart(size: nat)
      modifies this
      ensures View() == Restarted(old(View()), size)
    {
      PostStop();
      ghost var answered := View();
      StoppedKeepsPool(old(View()), 0);
      var first := spawned;
      routees := [];
      while |routees| < size
        invariant |routees| <= size && routees == Numbered(first, |routees|)
        invariant spawned == first + |routees| && View() == answered.(routees := routees, spawned := spawned)
      {
        routees := routees + [spawned];
        spawned := spawned + 1;
      }
    }

    /**
     Any step the router may take next, on the object.  Whatever came before it, every scatter has one
     reply if it is settled and none otherwise, and `pending` holds exactly the scatters without one.
     */
    method Perform(step: Step)
      requires Valid() && Enabled(View(), step)
      modifies this
      ensures Valid() && View() == After(old(View()), step)
      ensures forall i: nat :: RepliesTo(replies, i) == if i < |scatters| && scatters[i].settled then 1 else 0
      ensures forall i: nat :: i in pending <==> i < |scatters| && !scatters[i].settled
    {
      ghost var before := View();
      match step {
        case Message(replyTo) =>
          OnScatter(replyTo);
        case RouteeTerminated(routee) =>
          OnTerminated(routee);
        case AttemptSettles(i, k, outcome) =>
          scatters := scatters[i := Seen(scatters[i], k, outcome)];
        case Reaction(i) =>
          OnAnySettled(i);
        case Stop =>
          PostStop();
          stopped := true;
        case Restart(size) =>
          OnRestart(size);
      }
      ReachableStep(before, step);
      ReachableKeeps(View());
    }
  }
}
