/**
 The sort: what it returns, when it fails, and that it depends on nothing but the graph.
 */
module PhaseSorts {
  import opened Options
  import opened PhaseGraphs

  /** May `p` run once the phases in `out` have?  `strict` is the shutdown sort's extra demand. */
  ghost predicate Ready(p: Phase, out: seq<Name>, strict: bool) {
    (forall d :: d in p.dependsOn ==> d in out) && (strict ==> NoDup(p.dependsOn))
  }

  ghost function ReadyNames(g: Graph, out: seq<Name>, strict: bool): seq<Name> {
    if g == [] then []
    else (if Ready(g[0], out, strict) then [g[0].name] else []) + ReadyNames(g[1..], out, strict)
  }

  ghost function Unready(g: Graph, out: seq<Name>, strict: bool): (r: Graph)
    ensures |r| + |ReadyNames(g, out, strict)| == |g|
  {
    if g == [] then []
    else (if Ready(g[0], out, strict) then [] else [g[0]]) + Unready(g[1..], out, strict)
  }

  /** Batch after batch: every ready phase, sorted by name, until none is left or none is ready. */
  ghost function Kahn(remaining: Graph, out: seq<Name>, strict: bool): Option<seq<Name>>
    decreases |remaining|
  {
    if remaining == [] then Some(out)
    else
      var ready := ReadyNames(remaining, out, strict);
      if ready == [] then None
      else Kahn(Unready(remaining, out, strict), out + Sorted(ready), strict)
  }

  lemma {:induction false} UnreadyMeans(g: Graph, out: seq<Name>, strict: bool, p: Phase)
    ensures p in Unready(g, out, strict) <==> p in g && !Ready(p, out, strict)
  {
    if g == [] {
    } else {
      UnreadyMeans(g[1..], out, strict, p);
      assert p in g <==> p == g[0] || p in g[1..];
    }
  }

  lemma {:induction false} ReadyMeans(g: Graph, out: seq<Name>, strict: bool, n: Name)
    ensures n in ReadyNames(g, out, strict) <==> exists p :: p in g && p.name == n && Ready(p, out, strict)
  {
    if g == [] {
    } else {
      ReadyMeans(g[1..], out, strict, n);
      assert g == [g[0]] + g[1..];
    }
  }

  lemma {:induction false} PartsDistinct(g: Graph, out: seq<Name>, strict: bool)
    requires Distinct(g)
    ensures NoDup(ReadyNames(g, out, strict)) && Distinct(Unready(g, out, strict))
  {
    if g == [] {
    } else {
      var tail := g[1..];
      PartsDistinct(tail, out, strict);
      if Ready(g[0], out, strict) {
        ReadyMeans(tail, out, strict, g[0].name);
      } else {
        forall p | p in Unready(tail, out, strict) ensures p.name != g[0].name {
          UnreadyMeans(tail, out, strict, p);
        }
      }
    }
  }

  lemma NameIn(g: Graph, n: Name)
    ensures Has(g, n) <==> exists p :: p in g && p.name == n
  {
    if Has(g, n) {
      var i :| 0 <= i < |g| && g[i].name == n;
      assert g[i] in g;
    }
  }

  // ---- A sort that succeeds ----

  /** Whatever the sort returns holds every phase, with its dependencies met. */
  lemma {:induction false} KahnMeets(remaining: Graph, out: seq<Name>, strict: bool, p: Phase)
    requires Distinct(remaining) && Kahn(remaining, out, strict).Some? && p in remaining
    ensures var r := Kahn(remaining, out, strict).value; out <= r && p.name in r && Ready(p, r, strict)
    decreases |remaining|
  {
    var ready, rest := ReadyNames(remaining, out, strict), Unready(remaining, out, strict);
    PartsDistinct(remaining, out, strict);
    SortedKeeps(ready);
    KahnExtends(rest, out + Sorted(ready), strict);
    UnreadyMeans(remaining, out, strict, p);
    ReadyMeans(remaining, out, strict, p.name);
    var r := Kahn(remaining, out, strict).value;
    if p in rest {
      KahnMeets(rest, out + Sorted(ready), strict, p);
    } else {
      assert p.name in Sorted(ready);
      assert r == out + Sorted(ready) + r[|out + Sorted(ready)|..];
    }
  }

  lemma {:induction false} KahnExtends(remaining: Graph, out: seq<Name>, strict: bool)
    requires Kahn(remaining, out, strict).Some?
    ensures out <= Kahn(remaining, out, strict).value
    decreases |remaining|
  {
    if remaining == [] {
    } else {
      var ready := ReadyNames(remaining, out, strict);
      KahnExtends(Unready(remaining, out, strict), out + Sorted(ready), strict);
    }
  }

  lemma {:induction false} KahnAddsPhases(remaining: Graph, out: seq<Name>, strict: bool, n: Name)
    requires Distinct(remaining) && Kahn(remaining, out, strict).Some? && n in Kahn(remaining, out, strict).value
    ensures n in out || Has(remaining, n)
    decreases |remaining|
  {
    if remaining == [] {
    } else {
      var ready, rest := ReadyNames(remaining, out, strict), Unready(remaining, out, strict);
      PartsDistinct(remaining, out, strict);
      SortedKeeps(ready);
      KahnAddsPhases(rest, out + Sorted(ready), strict, n);
      ReadyMeans(remaining, out, strict, n);
      if Has(rest, n) {
        NameIn(rest, n);
        var p :| p in rest && p.name == n;
        UnreadyMeans(remaining, out, strict, p);
      }
      NameIn(remaining, n);
    }
  }

  /** A sort that succeeds had a closed graph, and the shutdown sort a duplicate-free one. */
  lemma SortedMeansUsable(g: Graph, strict: bool)
    requires Distinct(g) && Kahn(g, [], strict).Some?
    ensures Closed(g) && (strict ==> DupFree(g))
  {
    forall p, d | p in g && d in p.dependsOn ensures Has(g, d) {
      KahnMeets(g, [], strict, p);
      KahnAddsPhases(g, [], strict, d);
    }
    if strict {
      forall p | p in g ensures NoDup(p.dependsOn) {
        KahnMeets(g, [], strict, p);
      }
    }
  }

  ghost predicate Usable(g: Graph, strict: bool) {
    Distinct(g) && Closed(g) && (strict ==> DupFree(g))
  }

  /** Every dependency of a phase in `out` stands before it. */
  ghost predicate DependenciesFirst(g: Graph, out: seq<Name>) {
    forall j, d :: 0 <= j < |out| && d in Deps(g, out[j]) ==> d in out[..j]
  }

  /** The sort at the start of round `k`: phases in `out` have depth below `k`, the others at least `k`. */
  ghost predicate Round(g: Graph, remaining: Graph, out: seq<Name>, k: nat) {
    && Distinct(remaining)
    && (forall p :: p in remaining ==> p in g && p.name !in out && HasChain(g, p.name, k))
    && (forall p :: p in g ==> p in remaining || p.name in out)
    && (forall n :: n in out ==> Has(g, n) && exists j: nat :: j < k && Depth(g, n, j))
    && DependenciesFirst(g, out)
    && InOrder(g, out)
  }

  lemma ReadyHasDepth(g: Graph, remaining: Graph, out: seq<Name>, k: nat, strict: bool, n: Name)
    requires Usable(g, strict) && Round(g, remaining, out, k) && n in ReadyNames(remaining, out, strict)
    ensures Has(g, n) && n !in out && Depth(g, n, k) && forall d :: d in Deps(g, n) ==> d in out
  {
    ReadyMeans(remaining, out, strict, n);
    var p :| p in remaining && p.name == n && Ready(p, out, strict);
    DepsOf(g, p);
    NotDeeper(g, n, out, k);
  }

  lemma NotDeeper(g: Graph, n: Name, out: seq<Name>, k: nat)
    requires forall d :: d in Deps(g, n) ==> d in out
    requires forall d :: d in out ==> exists j: nat :: j < k && Depth(g, d, j)
    ensures !HasChain(g, n, k + 1)
  {
    if HasChain(g, n, k + 1) {
      var d :| d in Deps(g, n) && HasChain(g, d, k);
      var j: nat :| j < k && Depth(g, d, j);
      ChainShorter(g, d, k, j + 1);
    }
  }

  lemma UnreadyHasChain(g: Graph, remaining: Graph, out: seq<Name>, k: nat, strict: bool, p: Phase)
    requires Usable(g, strict) && Round(g, remaining, out, k) && p in remaining && !Ready(p, out, strict)
    ensures exists d :: d in Deps(g, p.name) && Has(remaining, d)
    ensures HasChain(g, p.name, k + 1)
  {
    DepsOf(g, p);
    var d :| d in p.dependsOn && d !in out;
    NameIn(g, d);
    var q :| q in g && q.name == d;
    NameIn(remaining, d);
    assert HasChain(g, d, k);
  }

  lemma {:induction false} RoundKeeps(g: Graph, remaining: Graph, out: seq<Name>, k: nat, strict: bool)
    requires Usable(g, strict) && Round(g, remaining, out, k)
    ensures var ready := ReadyNames(remaining, out, strict);
      Round(g, Unready(remaining, out, strict), out + Sorted(ready), k + 1)
  {
    var ready, rest := ReadyNames(remaining, out, strict), Unready(remaining, out, strict);
    var batch := Sorted(ready);
    var out' := out + batch;
    PartsDistinct(remaining, out, strict);
    SortedKeeps(ready);
    forall n | n in batch ensures Has(g, n) && n !in out && Depth(g, n, k) && forall d :: d in Deps(g, n) ==> d in out {
      ReadyHasDepth(g, remaining, out, k, strict, n);
    }
    forall p | p in rest ensures p in g && p.name !in out' && HasChain(g, p.name, k + 1) {
      UnreadyMeans(remaining, out, strict, p);
      UnreadyHasChain(g, remaining, out, k, strict, p);
      ReadyMeans(remaining, out, strict, p.name);
    }
    forall p | p in g ensures p in rest || p.name in out' {
      UnreadyMeans(remaining, out, strict, p);
      ReadyMeans(remaining, out, strict, p.name);
    }
    BatchInOrder(g, out, batch, k);
    BatchAfterDependencies(g, out, batch);
  }

  lemma BatchInOrder(g: Graph, out: seq<Name>, batch: seq<Name>, k: nat)
    requires InOrder(g, out) && forall n :: n in out ==> exists j: nat :: j < k && Depth(g, n, j)
    requires Ascending(batch) && forall n :: n in batch ==> Depth(g, n, k)
    ensures InOrder(g, out + batch)
  {
    var all := out + batch;
    forall i, j | 0 <= i < j < |all| ensures Precedes(g, all[i], all[j]) {
      if j >= |out| {
        assert all[j] in batch;
        if i < |out| {
          assert all[i] in out;
        } else {
          assert all[i] in batch;
        }
      }
    }
  }

  lemma BatchAfterDependencies(g: Graph, out: seq<Name>, batch: seq<Name>)
    requires DependenciesFirst(g, out) && forall n, d :: n in batch && d in Deps(g, n) ==> d in out
    ensures DependenciesFirst(g, out + batch)
  {
    var all := out + batch;
    forall j, d | 0 <= j < |all| && d in Deps(g, all[j]) ensures d in all[..j] {
      if j < |out| {
        assert all[..j] == out[..j];
      } else {
        assert all[j] in batch;
        assert all[..j] == out + batch[..j - |out|];
      }
    }
  }

  lemma {:induction false} KahnOrders(g: Graph, remaining: Graph, out: seq<Name>, k: nat, strict: bool)
    requires Usable(g, strict) && Round(g, remaining, out, k) && Kahn(remaining, out, strict).Some?
    ensures var r := Kahn(remaining, out, strict).value; exists m: nat :: Round(g, [], r, m)
    decreases |remaining|
  {
    if remaining == [] {
    } else {
      RoundKeeps(g, remaining, out, k, strict);
      KahnOrders(g, Unready(remaining, out, strict), out + Sorted(ReadyNames(remaining, out, strict)), k + 1, strict);
    }
  }

  /** What a successful sort returns: every phase once, dependencies first, by depth and then by name. */
  ghost predicate IsOrderOf(g: Graph, order: seq<Name>) {
    (forall n :: n in order <==> Has(g, n)) && InOrder(g, order) && DependenciesFirst(g, order)
  }

  lemma SortReturnsTheOrder(g: Graph, strict: bool)
    requires Distinct(g) && Kahn(g, [], strict).Some?
    ensures IsOrderOf(g, Kahn(g, [], strict).value) && NoDup(Kahn(g, [], strict).value)
  {
    var order := Kahn(g, [], strict).value;
    SortedMeansUsable(g, strict);
    KahnOrders(g, g, [], 0, strict);
    forall n | Has(g, n) ensures n in order {
      NameIn(g, n);
    }
    forall i, j | 0 <= i < j < |order| ensures order[i] != order[j] {
      PrecedesAsymmetric(g, order[i], order[j]);
    }
  }

  // ---- A sort that fails ----

  lemma {:induction false} CycleHasChains(g: Graph, c: seq<Name>, i: nat, k: nat)
    requires IsCycle(g, c) && i < |c|
    ensures HasChain(g, c[i], k)
    decreases k
  {
    if k == 0 {
    } else {
      var next := if i == |c| - 1 then 0 else i + 1;
      CycleHasChains(g, c, next, k - 1);
      assert c[next] in Deps(g, c[i]);
    }
  }

  /** Every phase of `stuck` waits for another phase of `stuck`. */
  ghost predicate Waiting(g: Graph, stuck: Graph) {
    forall p {:trigger Waits(g, stuck, p.name)} :: p in stuck ==> Waits(g, stuck, p.name)
  }

  ghost predicate Waits(g: Graph, stuck: Graph, n: Name) {
    exists d :: d in Deps(g, n) && Has(stuck, d)
  }

  ghost predicate IsWalk(g: Graph, stuck: Graph, walk: seq<Name>) {
    && (forall i :: 0 <= i < |walk| ==> Has(stuck, walk[i]))
    && (forall i {:trigger Deps(g, walk[i])} :: 0 <= i < |walk| - 1 ==> walk[i + 1] in Deps(g, walk[i]))
  }

  lemma {:induction false} LongWalk(g: Graph, stuck: Graph, n: Name, length: nat) returns (walk: seq<Name>)
    requires Waiting(g, stuck) && Has(stuck, n)
    ensures IsWalk(g, stuck, walk) && |walk| == length + 1 && walk[0] == n
    decreases length
  {
    if length == 0 {
      walk := [n];
    } else {
      NameIn(stuck, n);
      var p :| p in stuck && p.name == n;
      assert Waits(g, stuck, p.name);
      var d :| d in Deps(g, p.name) && Has(stuck, d);
      var rest := LongWalk(g, stuck, d, length - 1);
      walk := [n] + rest;
    }
  }

  ghost function NameSet(g: Graph): (r: set<Name>)
    ensures |r| <= |g|
  {
    if g == [] then {} else {g[0].name} + NameSet(g[1..])
  }

  lemma {:induction false} NameSetHas(g: Graph, n: Name)
    requires Has(g, n)
    ensures n in NameSet(g)
  {
    if g[0].name != n {
      var i :| 0 <= i < |g| && g[i].name == n;
      assert g[1..][i - 1].name == n;
      NameSetHas(g[1..], n);
    }
  }

  lemma {:induction false} Pigeonhole(s: seq<Name>, holes: set<Name>)
    requires NoDup(s) && forall x :: x in s ==> x in holes
    ensures |s| <= |holes|
  {
    if s == [] {
    } else {
      assert s[0] in holes;
      assert forall x :: x in s[1..] ==> x in s;
      Pigeonhole(s[1..], holes - {s[0]});
    }
  }

  /** Phases that all wait for one another contain a cycle. */
  lemma WaitingMeansCyclic(g: Graph, stuck: Graph)
    requires stuck != [] && Waiting(g, stuck)
    ensures Cyclic(g)
  {
    assert Has(stuck, stuck[0].name);
    var walk := LongWalk(g, stuck, stuck[0].name, |stuck|);
    forall x | x in walk ensures x in NameSet(stuck) {
      NameSetHas(stuck, x);
    }
    if NoDup(walk) {
      Pigeonhole(walk, NameSet(stuck));
    }
    var i, j :| 0 <= i < j < |walk| && walk[i] == walk[j];
    LoopIsCycle(g, stuck, walk, i, j);
  }

  lemma LoopIsCycle(g: Graph, stuck: Graph, walk: seq<Name>, i: nat, j: nat)
    requires IsWalk(g, stuck, walk) && i < j < |walk| && walk[i] == walk[j]
    ensures Cyclic(g)
  {
    var c := walk[i..j];
    assert c[|c| - 1] == walk[j - 1] && c[0] == walk[j];
    assert IsCycle(g, c);
  }

  lemma {:induction false} KahnFails(g: Graph, remaining: Graph, out: seq<Name>, k: nat, strict: bool)
    requires Usable(g, strict) && Round(g, remaining, out, k) && Kahn(remaining, out, strict).None?
    ensures Cyclic(g)
    decreases |remaining|
  {
    var ready := ReadyNames(remaining, out, strict);
    if ready == [] {
      forall p | p in remaining ensures Waits(g, remaining, p.name) {
        ReadyMeans(remaining, out, strict, p.name);
        UnreadyHasChain(g, remaining, out, k, strict, p);
      }
      WaitingMeansCyclic(g, remaining);
    } else {
      RoundKeeps(g, remaining, out, k, strict);
      KahnFails(g, Unready(remaining, out, strict), out + Sorted(ready), k + 1, strict);
    }
  }

  /**
   The sort fails exactly when a dependency names no phase, the phases are cyclic, or, for the
   shutdown sort, some phase names a dependency twice.
   */
  lemma SortFailsExactlyWhen(g: Graph, strict: bool)
    requires Distinct(g)
    ensures Kahn(g, [], strict).None? <==> !Closed(g) || Cyclic(g) || (strict && !DupFree(g))
  {
    if Kahn(g, [], strict).Some? {
      SortedMeansUsable(g, strict);
      SortReturnsTheOrder(g, strict);
      if Cyclic(g) {
        var c :| IsCycle(g, c);
        SortedMeansNoCycle(g, strict, c);
      }
    } else if Closed(g) && (strict ==> DupFree(g)) {
      KahnFails(g, g, [], 0, strict);
    }
  }

  lemma SortedPhaseHasDepth(g: Graph, strict: bool, n: Name)
    requires Distinct(g) && Kahn(g, [], strict).Some? && Has(g, n)
    ensures exists k: nat :: Depth(g, n, k)
  {
    NameIn(g, n);
    var p :| p in g && p.name == n;
    KahnMeets(g, [], strict, p);
    SortedMeansUsable(g, strict);
    KahnOrders(g, g, [], 0, strict);
  }

  lemma CycleHasNoDepth(g: Graph, c: seq<Name>, k: nat)
    requires IsCycle(g, c)
    ensures !Depth(g, c[|c| - 1], k)
  {
    CycleHasChains(g, c, |c| - 1, k + 1);
  }

  lemma SortedMeansNoCycle(g: Graph, strict: bool, c: seq<Name>)
    requires Distinct(g) && Kahn(g, [], strict).Some?
    ensures !IsCycle(g, c)
  {
    if IsCycle(g, c) {
      var n := c[|c| - 1];
      DepsHas(g, n);
      SortedPhaseHasDepth(g, strict, n);
      var k: nat :| Depth(g, n, k);
      CycleHasNoDepth(g, c, k);
    }
  }

  // ---- What the sort does not depend on ----

  lemma {:induction false} SameChains(g: Graph, h: Graph, n: Name, k: nat)
    requires forall x :: Deps(g, x) == Deps(h, x)
    ensures HasChain(g, n, k) == HasChain(h, n, k)
    decreases k
  {
    if k == 0 {
    } else {
      forall d | d in Deps(g, n) ensures HasChain(g, d, k - 1) == HasChain(h, d, k - 1) {
        SameChains(g, h, d, k - 1);
      }
    }
  }

  lemma SameLookups(g: Graph, h: Graph, n: Name)
    requires Distinct(g) && Distinct(h) && forall p :: p in g <==> p in h
    ensures Has(g, n) == Has(h, n) && Deps(g, n) == Deps(h, n)
  {
    NameIn(g, n);
    NameIn(h, n);
    DepsHas(g, n);
    DepsHas(h, n);
    if Has(g, n) {
      var p :| p in g && p.name == n && p.dependsOn == Deps(g, n);
      DepsOf(h, p);
    }
  }

  /**
   The order does not depend on the order phases were added in, and where both sorts succeed
   they agree.
   */
  lemma SortIsDetermined(g: Graph, h: Graph, strict: bool, strict': bool)
    requires Distinct(g) && Distinct(h) && forall p :: p in g <==> p in h
    requires strict == strict' || DupFree(g)
    ensures Kahn(g, [], strict) == Kahn(h, [], strict')
  {
    forall n ensures Has(g, n) == Has(h, n) && Deps(g, n) == Deps(h, n) {
      SameLookups(g, h, n);
    }
    SortFailsExactlyWhen(g, strict);
    SortFailsExactlyWhen(h, strict');
    SameCycles(g, h);
    assert Closed(g) == Closed(h) && DupFree(g) == DupFree(h);
    if Kahn(g, [], strict).Some? {
      SortReturnsTheOrder(g, strict);
      SortReturnsTheOrder(h, strict');
      SameOrder(g, h, Kahn(h, [], strict').value);
      OrderUnique(g, Kahn(g, [], strict).value, Kahn(h, [], strict').value);
    }
  }

  lemma SameCycles(g: Graph, h: Graph)
    requires forall n :: Deps(g, n) == Deps(h, n)
    ensures Cyclic(g) == Cyclic(h)
  {
    if Cyclic(g) {
      var c :| IsCycle(g, c);
      assert IsCycle(h, c);
    }
    if Cyclic(h) {
      var c :| IsCycle(h, c);
      assert IsCycle(g, c);
    }
  }

  lemma SameDepth(g: Graph, h: Graph, n: Name, k: nat)
    requires Depth(h, n, k) && forall x :: Deps(g, x) == Deps(h, x)
    ensures Depth(g, n, k)
  {
    SameChains(g, h, n, k);
    SameChains(g, h, n, k + 1);
  }

  lemma SamePrecedes(g: Graph, h: Graph, a: Name, b: Name)
    requires Precedes(h, a, b) && forall x :: Deps(g, x) == Deps(h, x)
    ensures Precedes(g, a, b)
  {
    var k: nat, m: nat :| Depth(h, a, k) && Depth(h, b, m) && (k < m || (k == m && Less(a, b)));
    SameDepth(g, h, a, k);
    SameDepth(g, h, b, m);
  }

  lemma SameOrder(g: Graph, h: Graph, s: seq<Name>)
    requires InOrder(h, s) && forall n :: Deps(g, n) == Deps(h, n)
    ensures InOrder(g, s)
  {
    forall i, j | 0 <= i < j < |s| ensures Precedes(g, s[i], s[j]) {
      SamePrecedes(g, h, s[i], s[j]);
    }
  }
}
