/**
 What every run of the scatter/gather router keeps, over all orders of replies, failures, deadlines,
 routee stops and router stops.
 */
module ScatterGatherTheorems {
  import opened Options
  import opened ScatterGatherRouters

  // ---- What every run keeps ----

  /** The attempts of a scatter and `Promise.any` agree. */
  ghost predicate RaceOk(c: Scatter) {
    && |c.attempts| == |c.asked|
    && (forall q :: 0 <= q < |c.order| ==> c.order[q] < |c.attempts| && !c.attempts[c.order[q]].Waiting?)
    && (forall k :: 0 <= k < |c.attempts| && c.attempts[k].Replied? ==> c.any.Won?)
    && (c.any.Won? ==>
          && c.any.place < |c.order| && c.attempts[c.order[c.any.place]].Replied?
          && forall q :: 0 <= q < c.any.place ==> c.attempts[c.order[q]].Failed?)
    && (c.any.Lost? ==> EveryFailed(c.attempts) && c.asked != [])
    && (c.any.Open? && c.asked != [] ==> !EveryFailed(c.attempts))
    && (c.reacted ==> !c.any.Open?)
    && (c.reacted ==> c.settled)
  }

  /** What a reply says is true of its scatter. */
  ghost predicate Justified(c: Scatter, r: Reply) {
    && c.settled && r.target == c.replyTo && |c.attempts| == |c.asked|
    && (r.sender.Some? <==> r.outcome.First?)
    && match r.outcome
       case First(value) =>
         && c.any.Won? && c.any.place < |c.order| && c.order[c.any.place] < |c.attempts|
         && c.attempts[c.order[c.any.place]] == Replied(value) && r.sender == Some(c.asked[c.order[c.any.place]])
       case Timeout => c.asked != [] && EveryTimedOut(c.attempts)
       case AllFailed => EveryFailed(c.attempts) && (c.asked != [] ==> !EveryTimedOut(c.attempts))
       case Stopped => true
  }

  function RepliesTo(replies: seq<Reply>, i: nat): nat {
    if replies == [] then 0
    else
      var n := |replies| - 1;
      RepliesTo(replies[..n], i) + (if replies[n].scatter == i then 1 else 0)
  }

  ghost predicate Inv(s: State) {
    && (forall i :: 0 <= i < |s.scatters| ==> RaceOk(s.scatters[i]))
    && (forall i: nat :: i in s.pending <==> i < |s.scatters| && !s.scatters[i].settled)
    && (forall i: nat {:trigger RepliesTo(s.replies, i)} ::
          RepliesTo(s.replies, i) == if i < |s.scatters| && s.scatters[i].settled then 1 else 0)
    && (forall k :: 0 <= k < |s.replies| ==>
          s.replies[k].scatter < |s.scatters| && Justified(s.scatters[s.replies[k].scatter], s.replies[k]))
    && (s.stopped ==> s.pending == {})
  }

  lemma SettleKeeps(s: State, i: nat, outcome: Outcome, sender: Option<nat>)
    requires Inv(s) && i < |s.scatters|
    requires !s.scatters[i].settled ==>
      Justified(s.scatters[i].(settled := true), Reply(i, s.scatters[i].replyTo, outcome, sender))
    ensures Inv(Settle(s, i, outcome, sender))
    ensures Settle(s, i, outcome, sender).scatters[i] == s.scatters[i].(settled := true)
  {
    if !s.scatters[i].settled {
      var r := Settle(s, i, outcome, sender);
      assert RaceOk(s.scatters[i]);
      forall j: nat ensures RepliesTo(r.replies, j) == if j < |r.scatters| && r.scatters[j].settled then 1 else 0 {
        assert RepliesTo(s.replies, j) == if j < |s.scatters| && s.scatters[j].settled then 1 else 0;
      }
      forall k | 0 <= k < |r.replies|
        ensures r.replies[k].scatter < |r.scatters| && Justified(r.scatters[r.replies[k].scatter], r.replies[k])
      {
        if k < |s.replies| {
          assert Justified(s.scatters[s.replies[k].scatter], s.replies[k]);
        }
      }
    }
  }

  /** A scatter may change without its books: what was justified stays so. */
  lemma ScatterMoves(s: State, i: nat, c: Scatter)
    requires Inv(s) && i < |s.scatters| && RaceOk(c) && c.settled == s.scatters[i].settled
    requires forall r :: Justified(s.scatters[i], r) ==> Justified(c, r)
    ensures Inv(s.(scatters := s.scatters[i := c]))
  {
    var m := s.(scatters := s.scatters[i := c]);
    forall j: nat ensures RepliesTo(m.replies, j) == if j < |m.scatters| && m.scatters[j].settled then 1 else 0 {
      assert RepliesTo(s.replies, j) == if j < |s.scatters| && s.scatters[j].settled then 1 else 0;
    }
    forall k | 0 <= k < |m.replies|
      ensures m.replies[k].scatter < |m.scatters| && Justified(m.scatters[m.replies[k].scatter], m.replies[k])
    {
      assert Justified(s.scatters[s.replies[k].scatter], s.replies[k]);
    }
  }

  lemma SeenKeeps(c: Scatter, k: nat, outcome: Attempt)
    requires RaceOk(c) && k < |c.attempts| && c.attempts[k].Waiting? && !outcome.Waiting?
    ensures RaceOk(Seen(c, k, outcome)) && Seen(c, k, outcome).settled == c.settled
    ensures forall r :: Justified(c, r) ==> Justified(Seen(c, k, outcome), r)
  {
    var m := Seen(c, k, outcome);
    forall q | 0 <= q < |c.order| ensures m.order[q] == c.order[q] && m.attempts[m.order[q]] == c.attempts[c.order[q]] {
      assert c.order[q] != k;
    }
    forall r | Justified(c, r) ensures Justified(m, r) {
    }
  }

  /** A scatter that asked nobody was answered on the spot. */
  ghost predicate EmptyAnswered(s: State) {
    forall i :: 0 <= i < |s.scatters| && s.scatters[i].asked == [] ==> s.scatters[i].settled
  }

  lemma MessageKeeps(s: State, replyTo: Option<nat>)
    requires Inv(s) && EmptyAnswered(s) && !s.stopped
    ensures Inv(AfterMessage(s, replyTo)) && EmptyAnswered(AfterMessage(s, replyTo))
  {
    if replyTo.Some? {
      var c := Scatter(replyTo.value, s.routees, seq(|s.routees|, k => Waiting), [], Open, false, false);
      assert s.routees != [] ==> c.attempts[0].Waiting?;
      if s.routees == [] {
        SettleKeeps(s.(scatters := s.scatters + [c], pending := s.pending + {|s.scatters|}), |s.scatters|, AllFailed, None);
      }
    } else {
      DroppedKeeps(s);
    }
  }

  lemma DroppedKeeps(s: State)
    requires Inv(s)
    ensures Inv(s.(dropped := s.dropped + 1))
  {
  }

  lemma ReactionKeeps(s: State, i: nat)
    requires Inv(s) && EmptyAnswered(s) && i < |s.scatters| && Decided(s.scatters[i])
    ensures Inv(AfterReaction(s, i)) && EmptyAnswered(AfterReaction(s, i))
  {
    var c := s.scatters[i];
    assert RaceOk(c);
    if c.any.Won? {
      var k := c.order[c.any.place];
      SettleKeeps(s, i, First(c.attempts[k].value), Some(c.asked[k]));
    } else if |c.attempts| > 0 && EveryTimedOut(c.attempts) {
      SettleKeeps(s, i, Timeout, None);
    } else {
      SettleKeeps(s, i, AllFailed, None);
    }
    var m := Answered(s, i);
    ScatterMoves(m, i, m.scatters[i].(reacted := true));
  }

  lemma {:induction false} StoppedFromKeeps(s: State, i: nat)
    requires Inv(s) && EmptyAnswered(s) && forall j :: j in s.pending ==> j >= i
    ensures Inv(StoppedFrom(s, i)) && EmptyAnswered(StoppedFrom(s, i)) && StoppedFrom(s, i).pending == {}
    decreases |s.scatters| - i
  {
    if i >= |s.scatters| {
    } else {
      assert RaceOk(s.scatters[i]);
      if i in s.pending {
        SettleKeeps(s, i, Stopped, None);
      }
      StoppedFromKeeps(if i in s.pending then Settle(s, i, Stopped, None) else s, i + 1);
    }
  }

  lemma StepKeeps(s: State, step: Step)
    requires Inv(s) && EmptyAnswered(s) && Enabled(s, step)
    ensures Inv(After(s, step)) && EmptyAnswered(After(s, step))
  {
    match step
    case Message(replyTo) => MessageKeeps(s, replyTo);
    case RouteeTerminated(routee) => PoolChanges(s, Without(s.routees, routee), s.spawned, s.stopped);
    case AttemptSettles(i, k, outcome) =>
      SeenKeeps(s.scatters[i], k, outcome);
      ScatterMoves(s, i, Seen(s.scatters[i], k, outcome));
    case Reaction(i) => ReactionKeeps(s, i);
    case Stop =>
      StoppedFromKeeps(s, 0);
      PoolChanges(StoppedFrom(s, 0), StoppedFrom(s, 0).routees, StoppedFrom(s, 0).spawned, true);
    case Restart(size) =>
      StoppedFromKeeps(s, 0);
      PoolChanges(StoppedFrom(s, 0), Numbered(s.spawned, size), s.spawned + size, StoppedFrom(s, 0).stopped);
  }

  lemma PoolChanges(s: State, routees: seq<nat>, spawned: nat, stopped: bool)
    requires Inv(s) && (stopped ==> s.pending == {})
    ensures Inv(s.(routees := routees, spawned := spawned, stopped := stopped))
  {
  }

  lemma {:induction false} RunKeeps(s: State, steps: seq<Step>)
    requires Inv(s) && EmptyAnswered(s) && Legal(s, steps)
    ensures Inv(Final(s, steps)) && EmptyAnswered(Final(s, steps))
    decreases |steps|
  {
    if steps == [] {
    } else {
      StepKeeps(s, steps[0]);
      RunKeeps(After(s, steps[0]), steps[1..]);
    }
  }

  // ---- The promises ----

  ghost predicate Reachable(s: State) {
    exists size: nat, steps :: Legal(Started(size), steps) && Final(Started(size), steps) == s
  }

  lemma StartedIsReachable(size: nat)
    ensures Reachable(Started(size))
  {
    assert Legal(Started(size), []) && Final(Started(size), []) == Started(size);
  }

  lemma {:induction false} OneStepMore(s: State, steps: seq<Step>, step: Step)
    requires Legal(s, steps) && Enabled(Final(s, steps), step)
    ensures Legal(s, steps + [step]) && Final(s, steps + [step]) == After(Final(s, steps), step)
    decreases |steps|
  {
    if steps == [] {
      assert (steps + [step])[1..] == [];
    } else {
      OneStepMore(After(s, steps[0]), steps[1..], step);
      assert (steps + [step])[1..] == steps[1..] + [step];
    }
  }

  lemma ReachableStep(s: State, step: Step)
    requires Reachable(s) && Enabled(s, step)
    ensures Reachable(After(s, step))
  {
    var size: nat, steps :| Legal(Started(size), steps) && Final(Started(size), steps) == s;
    OneStepMore(Started(size), steps, step);
  }

  lemma ReachableKeeps(s: State)
    requires Reachable(s)
    ensures Inv(s) && EmptyAnswered(s)
  {
    var size: nat, steps :| Legal(Started(size), steps) && Final(Started(size), steps) == s;
    RunKeeps(Started(size), steps);
  }

  /** Answering the open scatters leaves the pool alone. */
  lemma {:induction false} StoppedKeepsPool(s: State, i: nat)
    ensures StoppedFrom(s, i).routees == s.routees && StoppedFrom(s, i).spawned == s.spawned
    decreases |s.scatters| - i
  {
    if i >= |s.scatters| {
    } else {
      StoppedKeepsPool(if i in s.pending then Settle(s, i, Stopped, None) else s, i + 1);
    }
  }

  /** Every scatter gets at most one reply, exactly when it is settled; `pending` is the rest. */
  lemma AtMostOneReply(s: State, i: nat)
    requires Reachable(s)
    ensures RepliesTo(s.replies, i) == if i < |s.scatters| && s.scatters[i].settled then 1 else 0
    ensures i in s.pending <==> i < |s.scatters| && RepliesTo(s.replies, i) == 0
  {
    ReachableKeeps(s);
  }

  /** A reply goes to the caller of its scatter, from the attempt that won. */
  lemma WinnerIsNamed(s: State, k: nat)
    requires Reachable(s) && k < |s.replies| && s.replies[k].outcome.First?
    ensures var r := s.replies[k];
      r.scatter < |s.scatters| &&
      var c := s.scatters[r.scatter];
      && r.target == c.replyTo && c.any.Won? && c.any.place < |c.order| && |c.attempts| == |c.asked|
      && (forall q :: 0 <= q <= c.any.place ==> c.order[q] < |c.attempts|)
      && c.attempts[c.order[c.any.place]] == Replied(r.outcome.value) && r.sender == Some(c.asked[c.order[c.any.place]])
      && (forall q :: 0 <= q < c.any.place ==> c.attempts[c.order[q]].Failed?)
  {
    ReachableKeeps(s);
    assert RaceOk(s.scatters[s.replies[k].scatter]);
  }

  /** A failure is reported only when every attempt failed, and as a timeout exactly when all of them timed out. */
  lemma FailureFitsTheAttempts(s: State, k: nat)
    requires Reachable(s) && k < |s.replies| && (s.replies[k].outcome.Timeout? || s.replies[k].outcome.AllFailed?)
    ensures var r := s.replies[k];
      r.scatter < |s.scatters| &&
      var c := s.scatters[r.scatter];
      && r.target == c.replyTo && r.sender.None? && |c.attempts| == |c.asked| && EveryFailed(c.attempts)
      && (r.outcome.Timeout? <==> c.asked != [] && EveryTimedOut(c.attempts))
  {
    ReachableKeeps(s);
  }

  /** An unanswered scatter waits for an attempt or for the reaction to one; none is forgotten. */
  lemma NoScatterIsForgotten(s: State, i: nat)
    requires Reachable(s) && i in s.pending
    ensures i < |s.scatters| && !s.stopped
    ensures Enabled(s, Reaction(i)) || exists k :: 0 <= k < |s.scatters[i].attempts| && s.scatters[i].attempts[k].Waiting?
  {
    ReachableKeeps(s);
    var c := s.scatters[i];
    assert RaceOk(c);
    if c.any.Open? {
      var k :| 0 <= k < |c.attempts| && !c.attempts[k].Failed?;
      assert c.attempts[k].Waiting?;
    }
  }

  /** A stop answers every open scatter, and whatever settles later answers nobody. */
  lemma {:induction false} NothingAfterStop(s: State, steps: seq<Step>)
    requires Reachable(s) && s.stopped && Legal(s, steps)
    ensures s.pending == {} && Final(s, steps).replies == s.replies
  {
    ReachableKeeps(s);
    StoppedStays(s, steps);
  }

  lemma {:induction false} StoppedStays(s: State, steps: seq<Step>)
    requires Inv(s) && EmptyAnswered(s) && s.stopped && Legal(s, steps)
    ensures Final(s, steps).replies == s.replies
    decreases |steps|
  {
    if steps == [] {
    } else {
      StepKeeps(s, steps[0]);
      if steps[0].Reaction? {
        assert s.scatters[steps[0].i].settled;
      }
      StoppedStays(After(s, steps[0]), steps[1..]);
    }
  }
}
