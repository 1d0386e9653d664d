/**
 What the steps of a run fix about the scatter/gather router: whom a message asks, what settles a
 scatter and how, and which routees can still be asked.
 */
module ScatterGatherRuns {
  import opened Options
  import opened ScatterGatherRouters
  import opened ScatterGatherTheorems

  // ---- The pool ----

  /** `w` is `routees` without the first `routee`, which stands at `k`; the others keep their order. */
  ghost predicate FirstGone(routees: seq<nat>, routee: nat, w: seq<nat>, k: nat) {
    && k < |routees| && routees[k] == routee && |w| == |routees| - 1
    && (forall j :: 0 <= j < k ==> routees[j] != routee && w[j] == routees[j])
    && (forall j :: k <= j < |w| ==> w[j] == routees[j + 1])
  }

  /** A routee that stopped leaves the pool once, at its first place, and an unknown one changes nothing. */
  lemma {:induction false} WithoutMeans(routees: seq<nat>, routee: nat)
    ensures routee !in routees ==> Without(routees, routee) == routees
    ensures routee in routees ==> exists k: nat :: FirstGone(routees, routee, Without(routees, routee), k)
  {
    if routees == [] {
    } else if routees[0] == routee {
      assert FirstGone(routees, routee, Without(routees, routee), 0);
    } else {
      var rest := routees[1..];
      WithoutMeans(rest, routee);
      assert routees == [routees[0]] + rest;
      if routee in rest {
        var k: nat :| FirstGone(rest, routee, Without(rest, routee), k);
        GoneBehind(routees, routee, Without(rest, routee), k);
        assert FirstGone(routees, routee, Without(routees, routee), k + 1);
      }
    }
  }

  lemma GoneBehind(routees: seq<nat>, routee: nat, w: seq<nat>, k: nat)
    requires routees != [] && routees[0] != routee && FirstGone(routees[1..], routee, w, k)
    ensures FirstGone(routees, routee, [routees[0]] + w, k + 1)
  {
    var v := [routees[0]] + w;
    forall j | 0 <= j < k + 1 ensures routees[j] != routee && v[j] == routees[j] {
      if j > 0 {
        assert routees[j] == routees[1..][j - 1] && v[j] == w[j - 1];
      }
    }
    forall j | k + 1 <= j < |v| ensures v[j] == routees[j + 1] {
      assert routees[j + 1] == routees[1..][j] && v[j] == w[j - 1];
    }
  }

  /** Every routee has its own number, below the next one to be spawned. */
  ghost predicate Pooled(s: State) {
    Apart(s.routees) && (forall r :: r in s.routees ==> r < s.spawned)
  }

  ghost predicate Apart(routees: seq<nat>) {
    forall j, k :: 0 <= j < k < |routees| ==> routees[j] != routees[k]
  }

  lemma PrunedPool(routees: seq<nat>, routee: nat)
    requires Apart(routees)
    ensures Apart(Without(routees, routee))
    ensures forall r :: r in Without(routees, routee) <==> r in routees && r != routee
  {
    WithoutMeans(routees, routee);
    if routee in routees {
      var k: nat :| FirstGone(routees, routee, Without(routees, routee), k);
      GoneFromPool(routees, routee, Without(routees, routee), k);
    }
  }

  lemma GoneFromPool(routees: seq<nat>, routee: nat, w: seq<nat>, k: nat)
    requires Apart(routees) && FirstGone(routees, routee, w, k)
    ensures Apart(w) && forall r :: r in w <==> r in routees && r != routee
  {
    forall j | 0 <= j < |w| ensures w[j] == routees[if j < k then j else j + 1] {
    }
    forall r | r in routees && r != routee ensures r in w {
      var j :| 0 <= j < |routees| && routees[j] == r;
      assert w[if j < k then j else j - 1] == r;
    }
  }

  lemma PoolStep(s: State, step: Step)
    requires Pooled(s) && Enabled(s, step)
    ensures Pooled(After(s, step)) && s.spawned <= After(s, step).spawned
    ensures forall r :: r in After(s, step).routees ==> r in s.routees || r >= s.spawned
  {
    match step
    case Message(replyTo) =>
    case RouteeTerminated(routee) => PrunedPool(s.routees, routee);
    case AttemptSettles(i, k, outcome) =>
    case Reaction(i) =>
    case Stop => StoppedKeepsPool(s, 0);
    case Restart(size) => StoppedKeepsPool(s, 0);
  }

  lemma {:induction false} PoolRun(s: State, steps: seq<Step>)
    requires Pooled(s) && Legal(s, steps)
    ensures Pooled(Final(s, steps))
    decreases |steps|
  {
    if steps == [] {
    } else {
      PoolStep(s, steps[0]);
      PoolRun(After(s, steps[0]), steps[1..]);
    }
  }

  lemma ReachablePool(s: State)
    requires Reachable(s)
    ensures Pooled(s)
  {
    var size: nat, steps :| Legal(Started(size), steps) && Final(Started(size), steps) == s;
    PoolRun(Started(size), steps);
  }

  /** From a state without the spawned routee `x` in its pool nobody ever asks it. */
  lemma {:induction false} NeverAsked(s: State, x: nat, steps: seq<Step>)
    requires Pooled(s) && x !in s.routees && x < s.spawned && Legal(s, steps)
    ensures var f := Final(s, steps);
      |s.scatters| <= |f.scatters| && forall i :: |s.scatters| <= i < |f.scatters| ==> x !in f.scatters[i].asked
    decreases |steps|
  {
    if steps == [] {
    } else {
      var m := After(s, steps[0]);
      PoolStep(s, steps[0]);
      NeverAsked(m, x, steps[1..]);
      forall i | |s.scatters| <= i < |m.scatters| ensures x !in Final(m, steps[1..]).scatters[i].asked {
        assert m.scatters[i].asked == s.routees;
        ScatterRun(m, i, steps[1..]);
      }
    }
  }

  /** Once the router knows that a routee stopped it asks that routee nothing more, in every continuation. */
  lemma TerminatedIsNeverAskedAgain(s: State, x: nat, steps: seq<Step>)
    requires Reachable(s) && x < s.spawned && Enabled(s, RouteeTerminated(x))
    requires Legal(After(s, RouteeTerminated(x)), steps)
    ensures var f := Final(After(s, RouteeTerminated(x)), steps);
      |s.scatters| <= |f.scatters| && forall i :: |s.scatters| <= i < |f.scatters| ==> x !in f.scatters[i].asked
  {
    ReachablePool(s);
    PrunedPool(s.routees, x);
    PoolStep(s, RouteeTerminated(x));
    NeverAsked(After(s, RouteeTerminated(x)), x, steps);
  }

  /** A routee that stops changes the pool and nothing else: only it leaves. */
  lemma TerminationPrunesOne(s: State, x: nat)
    requires Reachable(s) && Enabled(s, RouteeTerminated(x))
    ensures var r := After(s, RouteeTerminated(x));
      && r == s.(routees := r.routees) && (forall y :: y in r.routees <==> y in s.routees && y != x)
      && |r.routees| == |s.routees| - (if x in s.routees then 1 else 0)
  {
    ReachablePool(s);
    PrunedPool(s.routees, x);
    WithoutMeans(s.routees, x);
  }

  // ---- The scatters ----

  /**
   A message with a reply target makes one scatter that asks the whole pool, and an empty pool is
   answered on the spot; a message without one is dropped and asks nobody.
   */
  lemma MessageAsksThePool(s: State, replyTo: Option<nat>)
    requires Enabled(s, Message(replyTo))
    ensures var r := After(s, Message(replyTo));
      var i := |s.scatters|;
      && r.routees == s.routees && r.spawned == s.spawned && r.stopped == s.stopped
      && (replyTo.None? ==>
            && r.scatters == s.scatters && r.pending == s.pending && r.replies == s.replies && r.dropped == s.dropped + 1)
      && (replyTo.Some? ==>
            && r.dropped == s.dropped && |r.scatters| == i + 1 && r.scatters[..i] == s.scatters
            && r.scatters[i].replyTo == replyTo.value && r.scatters[i].asked == s.routees
            && |r.scatters[i].attempts| == |s.routees| && r.scatters[i].order == []
            && (forall k :: 0 <= k < |s.routees| ==> r.scatters[i].attempts[k] == Waiting)
            && (s.routees != [] ==> r.pending == s.pending + {i} && r.replies == s.replies && !r.scatters[i].settled)
            && (s.routees == [] ==>
                  && r.pending == s.pending - {i} && r.scatters[i].settled
                  && r.replies == s.replies + [Reply(i, replyTo.value, AllFailed, None)]))
  {
    if replyTo.Some? {
      var c := Scatter(replyTo.value, s.routees, seq(|s.routees|, k => Waiting), [], Open, false, false);
      assert (s.scatters + [c])[..|s.scatters|] == s.scatters;
    }
  }

  lemma {:induction false} StoppedKeepsScatter(s: State, i: nat, j: nat)
    requires j < |s.scatters|
    ensures StoppedFrom(s, i).scatters[j] == s.scatters[j].(settled := StoppedFrom(s, i).scatters[j].settled)
    ensures s.scatters[j].settled ==> StoppedFrom(s, i).scatters[j].settled
    decreases |s.scatters| - i
  {
    if i >= |s.scatters| {
    } else {
      StoppedKeepsScatter(if i in s.pending then Settle(s, i, Stopped, None) else s, i + 1, j);
    }
  }

  /** The attempt of one routee, by its place in the pool that was asked, and how it settled. */
  datatype Settlement = Settlement(place: nat, outcome: Attempt)

  function SettledBy(step: Step, i: nat): seq<Settlement> {
    if step.AttemptSettles? && step.i == i then [Settlement(step.k, step.outcome)] else []
  }

  /** How the attempts of scatter `i` settle in a run, in that order. */
  function Settlements(steps: seq<Step>, i: nat): seq<Settlement> {
    if steps == [] then [] else SettledBy(steps[0], i) + Settlements(steps[1..], i)
  }

  /** The scatter shows exactly these settlements. */
  ghost predicate Shows(c: Scatter, t: seq<Settlement>) {
    && |c.order| == |t|
    && (forall q :: 0 <= q < |t| ==>
          c.order[q] == t[q].place && t[q].place < |c.attempts| && c.attempts[t[q].place] == t[q].outcome && !t[q].outcome.Waiting?)
    && (forall k :: 0 <= k < |c.attempts| && !c.attempts[k].Waiting? ==> Settlement(k, c.attempts[k]) in t)
  }

  /** What no step changes about a scatter: whom it asked, and whom it answers. */
  ghost predicate SameQuestion(c: Scatter, d: Scatter) {
    d.asked == c.asked && d.replyTo == c.replyTo && |d.attempts| == |c.attempts| && (c.settled ==> d.settled)
  }

  lemma ScatterStep(s: State, i: nat, step: Step)
    requires i < |s.scatters| && Enabled(s, step)
    ensures i < |After(s, step).scatters| && SameQuestion(s.scatters[i], After(s, step).scatters[i])
    ensures !(step.AttemptSettles? && step.i == i) ==>
      var c, d := s.scatters[i], After(s, step).scatters[i]; d.attempts == c.attempts && d.order == c.order
  {
    match step
    case Message(replyTo) =>
    case RouteeTerminated(routee) =>
    case AttemptSettles(j, k, outcome) =>
    case Reaction(j) =>
    case Stop => StoppedKeepsScatter(s, 0, i);
    case Restart(size) => StoppedKeepsScatter(s, 0, i);
  }

  /** Whom a scatter asked and whom it answers are fixed in every continuation. */
  lemma {:induction false} ScatterRun(s: State, i: nat, steps: seq<Step>)
    requires i < |s.scatters| && Legal(s, steps)
    ensures i < |Final(s, steps).scatters| && SameQuestion(s.scatters[i], Final(s, steps).scatters[i])
    decreases |steps|
  {
    if steps == [] {
    } else {
      ScatterStep(s, i, steps[0]);
      ScatterRun(After(s, steps[0]), i, steps[1..]);
    }
  }

  lemma SeenShows(c: Scatter, t: seq<Settlement>, k: nat, outcome: Attempt)
    requires Shows(c, t) && k < |c.attempts| && c.attempts[k].Waiting? && !outcome.Waiting?
    ensures Shows(Seen(c, k, outcome), t + [Settlement(k, outcome)])
  {
    var d, u := Seen(c, k, outcome), t + [Settlement(k, outcome)];
    assert d.attempts == c.attempts[k := outcome] && d.order == c.order + [k];
    forall j | 0 <= j < |d.attempts| && !d.attempts[j].Waiting? ensures Settlement(j, d.attempts[j]) in u {
      if j == k {
        assert u[|t|] == Settlement(j, d.attempts[j]);
      } else {
        assert Settlement(j, c.attempts[j]) in t;
      }
    }
  }

  lemma StepShows(s: State, i: nat, step: Step, t: seq<Settlement>)
    requires i < |s.scatters| && Enabled(s, step) && Shows(s.scatters[i], t)
    ensures i < |After(s, step).scatters| && Shows(After(s, step).scatters[i], t + SettledBy(step, i))
  {
    ScatterStep(s, i, step);
    if step.AttemptSettles? && step.i == i {
      SeenShows(s.scatters[i], t, step.k, step.outcome);
    } else {
      assert t + SettledBy(step, i) == t;
    }
  }

  lemma {:induction false} RunShows(s: State, i: nat, steps: seq<Step>, t: seq<Settlement>)
    requires i < |s.scatters| && Legal(s, steps) && Shows(s.scatters[i], t)
    ensures i < |Final(s, steps).scatters| && Shows(Final(s, steps).scatters[i], t + Settlements(steps, i))
    decreases |steps|
  {
    if steps == [] {
      assert t + Settlements(steps, i) == t;
    } else {
      StepShows(s, i, steps[0], t);
      RunShows(After(s, steps[0]), i, steps[1..], t + SettledBy(steps[0], i));
      Regrouped(t, SettledBy(steps[0], i), Settlements(steps[1..], i));
    }
  }

  lemma Regrouped(a: seq<Settlement>, b: seq<Settlement>, c: seq<Settlement>)
    ensures (a + b) + c == a + (b + c)
  {
  }

  /** After a message, its scatter has the pool of that moment as its question and the run's settlements as its answers. */
  lemma ScatterOfMessage(s: State, caller: nat, steps: seq<Step>)
    requires Reachable(s) && Enabled(s, Message(Some(caller))) && Legal(After(s, Message(Some(caller))), steps)
    ensures var f := Final(After(s, Message(Some(caller))), steps);
      var i := |s.scatters|;
      && Reachable(f) && i < |f.scatters|
      && f.scatters[i].asked == s.routees && f.scatters[i].replyTo == caller && |f.scatters[i].attempts| == |s.routees|
      && Shows(f.scatters[i], Settlements(steps, i))
  {
    var m := After(s, Message(Some(caller)));
    var i := |s.scatters|;
    MessageAsksThePool(s, Some(caller));
    ReachableStep(s, Message(Some(caller)));
    ReachableRun(m, steps);
    ScatterRun(m, i, steps);
    assert Shows(m.scatters[i], []);
    RunShows(m, i, steps, []);
    assert [] + Settlements(steps, i) == Settlements(steps, i);
  }

  lemma {:induction false} ReachableRun(s: State, steps: seq<Step>)
    requires Reachable(s) && Legal(s, steps)
    ensures Reachable(Final(s, steps))
    decreases |steps|
  {
    if steps == [] {
    } else {
      ReachableStep(s, steps[0]);
      ReachableRun(After(s, steps[0]), steps[1..]);
    }
  }

  /**
   A caller is told of a failure only after every routee of the pool at the time of its message
   failed, and of a timeout exactly when all of them timed out.
   */
  lemma FailureMeansEveryRouteeFailed(s: State, caller: nat, steps: seq<Step>, k: nat)
    requires Reachable(s) && Enabled(s, Message(Some(caller))) && Legal(After(s, Message(Some(caller))), steps)
    requires var f := Final(After(s, Message(Some(caller))), steps);
      k < |f.replies| && f.replies[k].scatter == |s.scatters| && (f.replies[k].outcome.Timeout? || f.replies[k].outcome.AllFailed?)
    ensures var r := Final(After(s, Message(Some(caller))), steps).replies[k];
      var t := Settlements(steps, |s.scatters|);
      && r.target == caller && r.sender.None?
      && (forall j :: 0 <= j < |s.routees| ==> Settlement(j, Failed(true)) in t || Settlement(j, Failed(false)) in t)
      && (r.outcome.Timeout? <==> s.routees != [] && forall j :: 0 <= j < |s.routees| ==> Settlement(j, Failed(true)) in t)
  {
    var f := Final(After(s, Message(Some(caller))), steps);
    var t := Settlements(steps, |s.scatters|);
    ScatterOfMessage(s, caller, steps);
    FailureFitsTheAttempts(f, k);
    TimeoutsShow(f.scatters[|s.scatters|], t);
  }

  lemma TimeoutsShow(c: Scatter, t: seq<Settlement>)
    requires Shows(c, t) && EveryFailed(c.attempts)
    ensures forall j :: 0 <= j < |c.attempts| ==> Settlement(j, Failed(true)) in t || Settlement(j, Failed(false)) in t
    ensures EveryTimedOut(c.attempts) <==> forall j :: 0 <= j < |c.attempts| ==> Settlement(j, Failed(true)) in t
  {
    forall j | 0 <= j < |c.attempts|
      ensures Settlement(j, Failed(true)) in t || Settlement(j, Failed(false)) in t
      ensures Settlement(j, c.attempts[j]) in t
    {
      assert c.attempts[j] == Failed(true) || c.attempts[j] == Failed(false);
    }
    forall j | 0 <= j < |c.attempts| && Settlement(j, Failed(true)) in t ensures c.attempts[j] == Failed(true) {
      var q :| 0 <= q < |t| && t[q] == Settlement(j, Failed(true));
    }
  }

  /** The settlement at `p` is `r`'s value, from the routee of `pool` that `r` names, and all before it failed. */
  ghost predicate WonAt(t: seq<Settlement>, p: nat, pool: seq<nat>, r: Reply)
    requires r.outcome.First?
  {
    && p < |t| && t[p].outcome == Replied(r.outcome.value)
    && t[p].place < |pool| && r.sender == Some(pool[t[p].place])
    && forall q :: 0 <= q < p ==> t[q].outcome.Failed?
  }

  /** A caller is told the first reply to its message, from the routee of that pool that gave it. */
  lemma FirstReplyWins(s: State, caller: nat, steps: seq<Step>, k: nat)
    requires Reachable(s) && Enabled(s, Message(Some(caller))) && Legal(After(s, Message(Some(caller))), steps)
    requires var f := Final(After(s, Message(Some(caller))), steps);
      k < |f.replies| && f.replies[k].scatter == |s.scatters| && f.replies[k].outcome.First?
    ensures var r := Final(After(s, Message(Some(caller))), steps).replies[k];
      r.target == caller && exists p: nat :: WonAt(Settlements(steps, |s.scatters|), p, s.routees, r)
  {
    var f := Final(After(s, Message(Some(caller))), steps);
    ScatterOfMessage(s, caller, steps);
    WinnerIsNamed(f, k);
    var t, p := Settlements(steps, |s.scatters|), f.scatters[|s.scatters|].any.place;
    assert f.scatters[|s.scatters|].order[p] == t[p].place;
    assert WonAt(t, p, s.routees, f.replies[k]);
  }

  // ---- Who is answered, and when ----

  /** The reaction answers a scatter that is still open: with a reply if any routee replied, with a failure if none did. */
  lemma ReactionAnswers(s: State, i: nat)
    requires Reachable(s) && Enabled(s, Reaction(i))
    ensures var r := After(s, Reaction(i));
      var c := s.scatters[i];
      && r.routees == s.routees && r.pending == s.pending - {i}
      && (c.settled ==> r.replies == s.replies)
      && (!c.settled ==>
            && |r.replies| == |s.replies| + 1 && r.replies[..|s.replies|] == s.replies
            && var x := r.replies[|s.replies|];
              && x.scatter == i && x.target == c.replyTo
              && (x.outcome.First? <==> exists k :: 0 <= k < |c.attempts| && c.attempts[k].Replied?)
              && (x.outcome.Timeout? <==> EveryTimedOut(c.attempts)) && !x.outcome.Stopped?)
  {
    ReachableKeeps(s);
    assert RaceOk(s.scatters[i]);
  }

  /** The replies after a stop: the earlier ones, and one for each scatter that was open. */
  lemma {:induction false} StoppedReplies(s: State, i: nat)
    ensures var r := StoppedFrom(s, i);
      && s.replies <= r.replies && r.dropped == s.dropped && r.stopped == s.stopped
      && (forall k :: |s.replies| <= k < |r.replies| ==>
            && r.replies[k].scatter in s.pending && r.replies[k].scatter < |s.scatters|
            && r.replies[k] == Reply(r.replies[k].scatter, s.scatters[r.replies[k].scatter].replyTo, Stopped, None))
    decreases |s.scatters| - i
  {
    if i >= |s.scatters| {
    } else {
      StoppedReplies(if i in s.pending then Settle(s, i, Stopped, None) else s, i + 1);
    }
  }

  /** A stop or a restart tells every open caller, and only those, that the router is gone. */
  lemma StopAnswersTheOpenOnes(s: State, step: Step)
    requires Reachable(s) && Enabled(s, step) && (step.Stop? || step.Restart?)
    ensures var r := After(s, step);
      && r.pending == {} && s.replies <= r.replies && |r.scatters| == |s.scatters|
      && (forall i :: 0 <= i < |r.scatters| ==> r.scatters[i].settled)
      && (forall k :: |s.replies| <= k < |r.replies| ==>
            && r.replies[k].scatter in s.pending && r.replies[k].scatter < |s.scatters|
            && r.replies[k] == Reply(r.replies[k].scatter, s.scatters[r.replies[k].scatter].replyTo, Stopped, None))
      && (forall i :: i in s.pending ==> RepliesTo(s.replies, i) == 0 && RepliesTo(r.replies, i) == 1)
  {
    ReachableKeeps(s);
    ReachableStep(s, step);
    ReachableKeeps(After(s, step));
    StoppedFromKeeps(s, 0);
    StoppedReplies(s, 0);
  }

  /** A restart spawns a pool of its size, with none of the routees there were. */
  lemma RestartSpawnsAFreshPool(s: State, size: nat)
    requires Reachable(s) && Enabled(s, Restart(size))
    ensures var r := After(s, Restart(size));
      && |r.routees| == size && !r.stopped && r.spawned == s.spawned + size
      && (forall k :: 0 <= k < size ==> r.routees[k] == s.spawned + k && r.routees[k] !in s.routees)
  {
    ReachablePool(s);
    StoppedReplies(s, 0);
  }

  lemma StepAddsReply(s: State, step: Step, k: nat)
    requires Inv(s) && EmptyAnswered(s) && Enabled(s, step)
    ensures s.replies <= After(s, step).replies
    ensures |s.replies| <= k < |After(s, step).replies| && After(s, step).replies[k].outcome.Stopped? ==> step.Stop? || step.Restart?
  {
    match step
    case Message(replyTo) =>
    case RouteeTerminated(routee) =>
    case AttemptSettles(i, j, outcome) =>
    case Reaction(i) =>
    case Stop => StoppedReplies(s, 0);
    case Restart(size) => StoppedReplies(s, 0);
  }

  /** A caller is told that the router stopped only where it stopped or restarted after the message. */
  lemma {:induction false} StoppedMeansTheRouterStopped(s: State, steps: seq<Step>, k: nat)
    requires Reachable(s) && Legal(s, steps)
    requires |s.replies| <= k < |Final(s, steps).replies| && Final(s, steps).replies[k].outcome.Stopped?
    ensures exists q :: 0 <= q < |steps| && (steps[q].Stop? || steps[q].Restart?)
    decreases |steps|
  {
    var m := After(s, steps[0]);
    ReachableKeeps(s);
    ReachableStep(s, steps[0]);
    RepliesStay(m, steps[1..]);
    assert k < |m.replies| ==> m.replies[k] == Final(s, steps).replies[k];
    StepAddsReply(s, steps[0], k);
    if !(steps[0].Stop? || steps[0].Restart?) {
      StoppedMeansTheRouterStopped(m, steps[1..], k);
      var q :| 0 <= q < |steps[1..]| && (steps[1..][q].Stop? || steps[1..][q].Restart?);
      assert steps[q + 1] == steps[1..][q];
    }
  }

  lemma {:induction false} RepliesStay(s: State, steps: seq<Step>)
    requires Reachable(s) && Legal(s, steps)
    ensures s.replies <= Final(s, steps).replies
    decreases |steps|
  {
    if steps == [] {
    } else {
      ReachableKeeps(s);
      StepAddsReply(s, steps[0], 0);
      ReachableStep(s, steps[0]);
      RepliesStay(After(s, steps[0]), steps[1..]);
    }
  }
}
