/**
 The scatter/gather router (src/ScatterGatherRouter.ts): every message goes to every routee, and
 the first reply goes back to the caller.

 An attempt settles, `Promise.any` follows the attempts, and its reaction runs later, outside the
 router's mailbox; a routee may stop and the router may stop or restart in between.
 */
module ScatterGatherRouters {
  import opened Options

  /** One ask: still out, answered, or failed, by its deadline or otherwise. */
  datatype Attempt = Waiting | Replied(value: int) | Failed(timedOut: bool)

  /** `Promise.any` over the attempts; the winner as its place in the order in which they settled. */
  datatype Any = Open | Won(place: nat) | Lost

  datatype Scatter = Scatter(
    replyTo: nat,
    asked: seq<nat>,                    // the routees, in pool order
    attempts: seq<Attempt>,
    order: seq<nat>,                    // the attempts that settled, in that order
    any: Any,
    reacted: bool,                      // the reaction of `Promise.any` has run
    settled: bool)

  datatype Outcome = First(value: int) | Timeout | AllFailed | Stopped

  /** What a caller was told; a reply comes from the routee that won, everything else from the router. */
  datatype Reply = Reply(scatter: nat, target: nat, outcome: Outcome, sender: Option<nat>)

  datatype State = State(
    routees: seq<nat>,
    spawned: nat,                       // routees so far; each has its own number
    scatters: seq<Scatter>,
    pending: set<nat>,
    dropped: nat,                       // messages without a reply target
    stopped: bool,
    replies: seq<Reply>)

  datatype Step =
    | Message(replyTo: Option<nat>)
    | RouteeTerminated(routee: nat)
    | AttemptSettles(i: nat, k: nat, outcome: Attempt)
    | Reaction(i: nat)
    | Stop
    | Restart(size: nat)

  function Numbered(start: nat, size: nat): (r: seq<nat>)
    ensures |r| == size
  {
    seq(size, i => start + i)
  }

  /** The router after preStart. */
  function Started(size: nat): State {
    State(Numbered(0, size), size, [], {}, 0, false, [])
  }

  /** The single exit for a scatter. */
  function Settle(s: State, i: nat, outcome: Outcome, sender: Option<nat>): State
    requires i < |s.scatters|
  {
    if s.scatters[i].settled then s
    else
      s.(scatters := s.scatters[i := s.scatters[i].(settled := true)], pending := s.pending - {i},
         replies := s.replies + [Reply(i, s.scatters[i].replyTo, outcome, sender)])
  }

  function AfterMessage(s: State, replyTo: Option<nat>): State {
    if replyTo.None? then s.(dropped := s.dropped + 1)
    else
      var i := |s.scatters|;
      var scatter := Scatter(replyTo.value, s.routees, seq(|s.routees|, k => Waiting), [], Open, false, false);
      var m := s.(scatters := s.scatters + [scatter], pending := s.pending + {i});
      if s.routees == [] then Settle(m, i, AllFailed, None) else m
  }

  function Without(routees: seq<nat>, routee: nat): seq<nat> {
    if routees == [] then []
    else if routees[0] == routee then routees[1..]
    else [routees[0]] + Without(routees[1..], routee)
  }

  predicate EveryFailed(attempts: seq<Attempt>) { forall k :: 0 <= k < |attempts| ==> attempts[k].Failed? }

  predicate EveryTimedOut(attempts: seq<Attempt>) {
    forall k :: 0 <= k < |attempts| ==> attempts[k] == Failed(true)
  }

  /** Attempt `k` settles, and `Promise.any` with it if that decides it. */
  function Seen(scatter: Scatter, k: nat, outcome: Attempt): Scatter
    requires k < |scatter.attempts|
  {
    var m := scatter.(attempts := scatter.attempts[k := outcome], order := scatter.order + [k]);
    if !m.any.Open? then m
    else if outcome.Replied? then m.(any := Won(|scatter.order|))
    else if EveryFailed(m.attempts) then m.(any := Lost)
    else m
  }

  predicate Decided(scatter: Scatter) {
    match scatter.any
    case Open => false
    case Won(p) =>
      p < |scatter.order| && scatter.order[p] < |scatter.attempts| && |scatter.attempts| == |scatter.asked|
      && scatter.attempts[scatter.order[p]].Replied?
    case Lost => true
  }

  /** onFirstReply or onEveryRouteeFailed */
  function Answered(s: State, i: nat): State
    requires i < |s.scatters| && Decided(s.scatters[i])
  {
    var scatter := s.scatters[i];
    if scatter.any.Won? then
      var k := scatter.order[scatter.any.place];
      Settle(s, i, First(scatter.attempts[k].value), Some(scatter.asked[k]))
    else if |scatter.attempts| > 0 && EveryTimedOut(scatter.attempts) then Settle(s, i, Timeout, None)
    else Settle(s, i, AllFailed, None)
  }

  function AfterReaction(s: State, i: nat): State
    requires i < |s.scatters| && Decided(s.scatters[i])
  {
    var m := Answered(s, i);
    m.(scatters := m.scatters[i := m.scatters[i].(reacted := true)])
  }

  /** postStop: every pending scatter from `i` on, in the order they came. */
  function StoppedFrom(s: State, i: nat): (r: State)
    ensures |r.scatters| == |s.scatters|
    decreases |s.scatters| - i
  {
    if i >= |s.scatters| then s
    else StoppedFrom(if i in s.pending then Settle(s, i, Stopped, None) else s, i + 1)
  }

  function Restarted(s: State, size: nat): State {
    StoppedFrom(s, 0).(routees := Numbered(s.spawned, size), spawned := s.spawned + size)
  }

  predicate Enabled(s: State, step: Step) {
    match step
    case Message(_) => !s.stopped
    case RouteeTerminated(_) => !s.stopped
    case AttemptSettles(i, k, outcome) =>
      i < |s.scatters| && k < |s.scatters[i].attempts| && s.scatters[i].attempts[k].Waiting? && !outcome.Waiting?
    case Reaction(i) => i < |s.scatters| && Decided(s.scatters[i]) && !s.scatters[i].reacted
    case Stop => !s.stopped
    case Restart(_) => !s.stopped
  }

  function After(s: State, step: Step): State
    requires Enabled(s, step)
  {
    match step
    case Message(replyTo) => AfterMessage(s, replyTo)
    case RouteeTerminated(routee) => s.(routees := Without(s.routees, routee))
    case AttemptSettles(i, k, outcome) => s.(scatters := s.scatters[i := Seen(s.scatters[i], k, outcome)])
    case Reaction(i) => AfterReaction(s, i)
    case Stop => StoppedFrom(s, 0).(stopped := true)
    case Restart(size) => Restarted(s, size)
  }

  predicate Legal(s: State, steps: seq<Step>)
    decreases |steps|
  {
    steps == [] || (Enabled(s, steps[0]) && Legal(After(s, steps[0]), steps[1..]))
  }

  function Final(s: State, steps: seq<Step>): State
    requires Legal(s, steps)
    decreases |steps|
  {
    if steps == [] then s else Final(After(s, steps[0]), steps[1..])
  }
}
