/**
 The two sorts as the source writes them: a shrinking map of what each phase still waits for.
 Both are proved to compute `Kahn`, the startup sort in its plain form, the shutdown sort in
 its strict one.
 */
module TopologicalOrders {
  import opened Options
  import opened PhaseGraphs
  import opened PhaseSorts

  /** What `filter` leaves: the dependencies not among the finished ones. */
  function Unfinished(deps: seq<Name>, done: seq<Name>): seq<Name> {
    if deps == [] then []
    else (if deps[0] in done then [] else [deps[0]]) + Unfinished(deps[1..], done)
  }

  /** What `indexOf` and `splice` leave: the first occurrence gone. */
  function Struck(deps: seq<Name>, done: Name): seq<Name> {
    if deps == [] then [] else if deps[0] == done then deps[1..] else [deps[0]] + Struck(deps[1..], done)
  }

  function StruckAll(deps: seq<Name>, done: seq<Name>): seq<Name>
    decreases |done|
  {
    if done == [] then deps else StruckAll(Struck(deps, done[0]), done[1..])
  }

  /** The names whose list has run empty. */
  function EmptyNames(waiting: Graph): seq<Name> {
    if waiting == [] then []
    else (if waiting[0].dependsOn == [] then [waiting[0].name] else []) + EmptyNames(waiting[1..])
  }

  function NonEmpty(waiting: Graph): (r: Graph)
    ensures |r| + |EmptyNames(waiting)| == |waiting|
  {
    if waiting == [] then []
    else (if waiting[0].dependsOn == [] then [] else [waiting[0]]) + NonEmpty(waiting[1..])
  }

  /** `waiting` is `g` with every list reduced to what is left of it once `out` is done. */
  ghost predicate Reduced(g: Graph, waiting: Graph, out: seq<Name>, strict: bool) {
    |waiting| == |g| && forall i :: 0 <= i < |g| ==>
      && waiting[i].name == g[i].name
      && waiting[i].dependsOn == if strict then StruckAll(g[i].dependsOn, out) else Unfinished(g[i].dependsOn, out)
  }

  lemma {:induction false} UnfinishedEmpty(deps: seq<Name>, done: seq<Name>)
    ensures Unfinished(deps, done) == [] <==> forall d :: d in deps ==> d in done
  {
    if deps == [] {
    } else {
      UnfinishedEmpty(deps[1..], done);
      assert deps == [deps[0]] + deps[1..];
    }
  }

  lemma {:induction false} UnfinishedTwice(deps: seq<Name>, done: seq<Name>, more: seq<Name>)
    ensures Unfinished(Unfinished(deps, done), more) == Unfinished(deps, done + more)
  {
    if deps == [] {
    } else {
      UnfinishedTwice(deps[1..], done, more);
      var rest := Unfinished(deps[1..], done);
      if deps[0] in done {
        assert Unfinished(deps, done) == rest;
      } else {
        assert Unfinished(deps, done) == [deps[0]] + rest && ([deps[0]] + rest)[1..] == rest;
      }
    }
  }

  lemma {:induction false} NoDupFront(s: seq<Name>)
    requires s != []
    ensures NoDup(s) <==> NoDup(s[1..]) && s[0] !in s[1..]
  {
    if NoDup(s[1..]) && s[0] !in s[1..] {
      assert forall j :: 0 < j < |s| ==> s[j] == s[1..][j - 1];
    }
    assert forall j :: 0 <= j < |s[1..]| ==> s[1..][j] == s[j + 1];
  }

  lemma {:induction false} StruckMeans(deps: seq<Name>, done: Name)
    ensures forall d :: d != done ==> (d in Struck(deps, done) <==> d in deps)
    ensures NoDup(deps) <==> NoDup(Struck(deps, done)) && done !in Struck(deps, done)
  {
    if deps == [] {
    } else {
      var rest := deps[1..];
      assert deps == [deps[0]] + rest;
      NoDupFront(deps);
      if deps[0] != done {
        StruckMeans(rest, done);
        NoDupFront(Struck(deps, done));
        assert Struck(deps, done)[1..] == Struck(rest, done);
      }
    }
  }

  lemma {:induction false} StruckAllTwice(deps: seq<Name>, done: seq<Name>, more: seq<Name>)
    ensures StruckAll(StruckAll(deps, done), more) == StruckAll(deps, done + more)
    decreases |done|
  {
    if done == [] {
      assert done + more == more;
    } else {
      StruckAllTwice(Struck(deps, done[0]), done[1..], more);
      assert (done + more)[1..] == done[1..] + more;
    }
  }

  /** Striking each finished phase off once empties a list exactly when it was met and had no duplicates. */
  lemma {:induction false} StruckAllEmpty(deps: seq<Name>, done: seq<Name>)
    requires NoDup(done)
    ensures StruckAll(deps, done) == [] <==> NoDup(deps) && forall d :: d in deps ==> d in done
    decreases |done|
  {
    if done == [] {
      assert deps != [] ==> deps[0] in deps;
    } else {
      var struck := Struck(deps, done[0]);
      NoDupFront(done);
      StruckMeans(deps, done[0]);
      StruckAllEmpty(struck, done[1..]);
      assert done == [done[0]] + done[1..];
    }
  }

  // ---- One round ----

  lemma EntryEmpty(g: Graph, waiting: Graph, out: seq<Name>, strict: bool, i: nat)
    requires Reduced(g, waiting, out, strict) && NoDup(out) && i < |g|
    ensures waiting[i].dependsOn == [] <==> Ready(g[i], out, strict)
  {
    UnfinishedEmpty(g[i].dependsOn, out);
    StruckAllEmpty(g[i].dependsOn, out);
  }

  lemma ReducedCons(g: Graph, waiting: Graph, p: Phase, q: Phase, out: seq<Name>, strict: bool)
    requires Reduced(g, waiting, out, strict) && q.name == p.name
    requires q.dependsOn == if strict then StruckAll(p.dependsOn, out) else Unfinished(p.dependsOn, out)
    ensures Reduced([p] + g, [q] + waiting, out, strict)
  {
  }

  /** The lists that have run empty are those of the phases that are ready. */
  lemma {:induction false} RoundAgrees(g: Graph, waiting: Graph, out: seq<Name>, strict: bool)
    requires Reduced(g, waiting, out, strict) && NoDup(out)
    ensures EmptyNames(waiting) == ReadyNames(g, out, strict)
    ensures Reduced(Unready(g, out, strict), NonEmpty(waiting), out, strict)
  {
    if g == [] {
    } else {
      EntryEmpty(g, waiting, out, strict, 0);
      RoundAgrees(g[1..], waiting[1..], out, strict);
      var rest, left := Unready(g[1..], out, strict), NonEmpty(waiting[1..]);
      if Ready(g[0], out, strict) {
        assert Unready(g, out, strict) == rest && NonEmpty(waiting) == left;
      } else {
        ReducedCons(rest, left, g[0], waiting[0], out, strict);
        assert Unready(g, out, strict) == [g[0]] + rest && NonEmpty(waiting) == [waiting[0]] + left;
      }
    }
  }

  lemma ReducedFurther(g: Graph, before: Graph, after: Graph, out: seq<Name>, batch: seq<Name>, strict: bool)
    requires Reduced(g, before, out, strict) && |after| == |before|
    requires forall i :: 0 <= i < |before| ==>
      && after[i].name == before[i].name
      && after[i].dependsOn == if strict then StruckAll(before[i].dependsOn, batch) else Unfinished(before[i].dependsOn, batch)
    ensures Reduced(g, after, out + batch, strict)
  {
    forall i | 0 <= i < |g|
      ensures after[i].dependsOn == if strict then StruckAll(g[i].dependsOn, out + batch) else Unfinished(g[i].dependsOn, out + batch)
    {
      StruckAllTwice(g[i].dependsOn, out, batch);
      UnfinishedTwice(g[i].dependsOn, out, batch);
    }
  }

  lemma {:induction false} ReducedAtFirst(g: Graph, strict: bool)
    ensures Reduced(g, g, [], strict)
  {
    forall i | 0 <= i < |g| ensures Unfinished(g[i].dependsOn, []) == g[i].dependsOn {
      NothingFinished(g[i].dependsOn);
    }
  }

  lemma {:induction false} NothingFinished(deps: seq<Name>)
    ensures Unfinished(deps, []) == deps
  {
    if deps == [] {
    } else {
      NothingFinished(deps[1..]);
    }
  }

  /** The names in `out` and those still waiting never repeat, so `out` stays duplicate-free. */
  lemma OutGrows(g: Graph, out: seq<Name>, strict: bool)
    requires Distinct(g) && NoDup(out) && forall p :: p in g ==> p.name !in out
    ensures var out' := out + Sorted(ReadyNames(g, out, strict));
      var rest := Unready(g, out, strict);
      NoDup(out') && Distinct(rest) && forall p :: p in rest ==> p.name !in out'
  {
    var ready := ReadyNames(g, out, strict);
    PartsDistinct(g, out, strict);
    SortedKeeps(ready);
    AscendingNoDup(Sorted(ready));
    forall n | n in Sorted(ready) ensures n !in out {
      ReadyMeans(g, out, strict, n);
    }
    NoDupJoin(out, Sorted(ready));
    forall p | p in Unready(g, out, strict) ensures p.name !in out && p.name !in ready {
      UnreadyIsElsewhere(g, out, strict, p);
    }
  }

  lemma UnreadyIsElsewhere(g: Graph, out: seq<Name>, strict: bool, p: Phase)
    requires Distinct(g) && p in Unready(g, out, strict)
    ensures p in g && p.name !in ReadyNames(g, out, strict)
  {
    UnreadyMeans(g, out, strict, p);
    ReadyMeans(g, out, strict, p.name);
  }

  lemma NoDupJoin(s: seq<Name>, t: seq<Name>)
    requires NoDup(s) && NoDup(t) && forall x :: x in t ==> x !in s
    ensures NoDup(s + t)
  {
    var all := s + t;
    forall i, j | 0 <= i < j < |all| ensures all[i] != all[j] {
      if i < |s| <= j {
        assert all[i] in s && all[j] in t;
      }
    }
  }

  lemma AscendingNoDup(s: seq<Name>)
    requires Ascending(s)
    ensures NoDup(s)
  {
    forall i, j | 0 <= i < j < |s| ensures s[i] != s[j] {
      LessIrreflexive(s[i]);
    }
  }

  // ---- The loops ----

  method FilterEach(waiting: Graph, ready: seq<Name>) returns (r: Graph)
    ensures |r| == |waiting|
    ensures forall i :: 0 <= i < |r| ==> r[i] == Phase(waiting[i].name, Unfinished(waiting[i].dependsOn, ready))
  {
    r := [];
    for i := 0 to |waiting|
      invariant |r| == i
      invariant forall k :: 0 <= k < i ==> r[k] == Phase(waiting[k].name, Unfinished(waiting[k].dependsOn, ready))
    {
      r := r + [Phase(waiting[i].name, Unfinished(waiting[i].dependsOn, ready))];
    }
  }

  method StrikeEach(waiting: Graph, ready: seq<Name>) returns (r: Graph)
    ensures |r| == |waiting|
    ensures forall i :: 0 <= i < |r| ==> r[i] == Phase(waiting[i].name, StruckAll(waiting[i].dependsOn, ready))
  {
    r := [];
    for i := 0 to |waiting|
      invariant |r| == i
      invariant forall k :: 0 <= k < i ==> r[k] == Phase(waiting[k].name, StruckAll(waiting[k].dependsOn, ready))
    {
      var deps := waiting[i].dependsOn;
      for j := 0 to |ready|
        invariant StruckAll(deps, ready[j..]) == StruckAll(waiting[i].dependsOn, ready)
      {
        deps := Struck(deps, ready[j]);
        assert ready[j..][1..] == ready[j + 1..];
      }
      r := r + [Phase(waiting[i].name, deps)];
    }
  }

  /** CoordinatedStartup.topologicalOrder; nothing is returned where the source throws. */
  method StartupOrder(phases: Graph) returns (order: Option<seq<Name>>)
    requires Distinct(phases)
    ensures order == Kahn(phases, [], false)
    ensures order.None? <==> !Closed(phases) || Cyclic(phases)
    ensures order.Some? ==> IsOrderOf(phases, order.value)
  {
    SortFailsExactlyWhen(phases, false);
    if Kahn(phases, [], false).Some? {
      SortReturnsTheOrder(phases, false);
    }
    var remaining, out := phases, [];
    ghost var g := phases;
    ReducedAtFirst(phases, false);
    while |remaining| > 0
      invariant Reduced(g, remaining, out, false)
      invariant Distinct(g) && NoDup(out) && forall p :: p in g ==> p.name !in out
      invariant Kahn(g, out, false) == Kahn(phases, [], false)
      decreases |remaining|
    {
      RoundAgrees(g, remaining, out, false);
      OutGrows(g, out, false);
      var ready := Sorted(EmptyNames(remaining));
      if |EmptyNames(remaining)| == 0 {
        return None;
      }
      var left := NonEmpty(remaining);
      remaining := FilterEach(left, ready);
      ReducedFurther(Unready(g, out, false), left, remaining, out, ready, false);
      g := Unready(g, out, false);
      out := out + ready;
    }
    return Some(out);
  }

  /** CoordinatedShutdown.topologicalOrder. */
  method ShutdownOrder(phases: Graph) returns (order: Option<seq<Name>>)
    requires Distinct(phases)
    ensures order == Kahn(phases, [], true)
    ensures order.None? <==> !Closed(phases) || Cyclic(phases) || !DupFree(phases)
    ensures order.Some? ==> IsOrderOf(phases, order.value)
  {
    SortFailsExactlyWhen(phases, true);
    if Kahn(phases, [], true).Some? {
      SortReturnsTheOrder(phases, true);
    }
    var remaining, out := phases, [];
    ghost var g := phases;
    ReducedAtFirst(phases, true);
    while |remaining| > 0
      invariant Reduced(g, remaining, out, true)
      invariant Distinct(g) && NoDup(out) && forall p :: p in g ==> p.name !in out
      invariant Kahn(g, out, true) == Kahn(phases, [], true)
      decreases |remaining|
    {
      RoundAgrees(g, remaining, out, true);
      OutGrows(g, out, true);
      var ready := Sorted(EmptyNames(remaining));
      if |EmptyNames(remaining)| == 0 {
        return None;
      }
      var left := NonEmpty(remaining);
      remaining := StrikeEach(left, ready);
      ReducedFurther(Unready(g, out, true), left, remaining, out, ready, true);
      g := Unready(g, out, true);
      out := out + ready;
    }
    return Some(out);
  }
}
