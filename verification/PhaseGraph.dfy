/**
 Phase graphs and the order their phases run in.  The two sorts of src/CoordinatedShutdown.ts
 and src/CoordinatedStartup.ts are one algorithm, `Kahn`, with one difference: the shutdown sort
 strikes a finished dependency off once, so it also demands duplicate-free dependencies.

 A graph is a sequence of phases, the way a `Map` keeps its entries in insertion order.
 */
module PhaseGraphs {
  import opened Options

  type Name = string

  datatype Phase = Phase(name: Name, dependsOn: seq<Name>)

  type Graph = seq<Phase>

  // ---- Names, and how `sort()` compares them ----

  predicate Less(a: Name, b: Name) {
    b != [] && (a == [] || a[0] < b[0] || (a[0] == b[0] && Less(a[1..], b[1..])))
  }

  lemma {:induction false} LessTrans(a: Name, b: Name, c: Name)
    requires Less(a, b) && Less(b, c)
    ensures Less(a, c)
  {
    if a != [] && a[0] == b[0] == c[0] {
      LessTrans(a[1..], b[1..], c[1..]);
    }
  }

  lemma {:induction false} LessIrreflexive(a: Name)
    ensures !Less(a, a)
  {
    if a == [] {
    } else {
      LessIrreflexive(a[1..]);
    }
  }

  lemma {:induction false} LessTotal(a: Name, b: Name)
    ensures a == b || Less(a, b) || Less(b, a)
  {
    if a != [] && b != [] && a[0] == b[0] {
      LessTotal(a[1..], b[1..]);
      assert a == [a[0]] + a[1..] && b == [b[0]] + b[1..];
    }
  }

  /** `a` and `b` agree on their first `k` characters, and `a` ends there or goes on with a lesser one. */
  ghost predicate SmallerAt(a: Name, b: Name, k: nat) {
    k <= |a| && k < |b| && a[..k] == b[..k] && (k == |a| || a[k] < b[k])
  }

  lemma SmallerInTail(a: Name, b: Name, k: nat)
    requires SmallerAt(a, b, k) && k > 0
    ensures a != [] && b != [] && a[0] == b[0] && SmallerAt(a[1..], b[1..], k - 1)
  {
    assert a[..k][0] == a[0] && b[..k][0] == b[0];
    assert a[1..][..k - 1] == a[..k][1..] && b[1..][..k - 1] == b[..k][1..];
  }

  /** The order is the lexicographic one. */
  lemma {:induction false} LessMeans(a: Name, b: Name)
    ensures Less(a, b) <==> exists k: nat :: SmallerAt(a, b, k)
  {
    if a != [] && b != [] && a[0] == b[0] {
      LessMeans(a[1..], b[1..]);
      if Less(a, b) {
        var k: nat :| SmallerAt(a[1..], b[1..], k);
        assert a[..k + 1] == [a[0]] + a[1..][..k] && b[..k + 1] == [b[0]] + b[1..][..k];
        assert SmallerAt(a, b, k + 1);
      }
    } else if Less(a, b) {
      assert SmallerAt(a, b, 0);
    }
    if k: nat :| SmallerAt(a, b, k) {
      if k > 0 {
        SmallerInTail(a, b, k);
      }
    }
  }

  ghost predicate Ascending(s: seq<Name>) {
    forall i, j :: 0 <= i < j < |s| ==> Less(s[i], s[j])
  }

  ghost predicate NoDup(s: seq<Name>) {
    forall i, j :: 0 <= i < j < |s| ==> s[i] != s[j]
  }

  function Inserted(n: Name, s: seq<Name>): seq<Name> {
    if s == [] || Less(n, s[0]) then [n] + s else [s[0]] + Inserted(n, s[1..])
  }

  /** `Array.prototype.sort()` with its default comparison. */
  function Sorted(s: seq<Name>): seq<Name> {
    if s == [] then [] else Inserted(s[0], Sorted(s[1..]))
  }

  lemma {:induction false} InsertedKeeps(n: Name, s: seq<Name>)
    requires Ascending(s) && n !in s
    ensures Ascending(Inserted(n, s)) && |Inserted(n, s)| == |s| + 1
    ensures forall x :: x in Inserted(n, s) <==> x == n || x in s
  {
    if s == [] {
    } else if Less(n, s[0]) {
      forall j | 0 < j < |s| ensures Less(n, s[j]) {
        LessTrans(n, s[0], s[j]);
      }
    } else {
      var rest := Inserted(n, s[1..]);
      InsertedKeeps(n, s[1..]);
      LessTotal(n, s[0]);
      assert s == [s[0]] + s[1..];
      forall j | 0 <= j < |rest| ensures Less(s[0], rest[j]) {
        assert rest[j] == n || rest[j] in s[1..];
      }
    }
  }

  lemma {:induction false} SortedKeeps(s: seq<Name>)
    requires NoDup(s)
    ensures Ascending(Sorted(s)) && |Sorted(s)| == |s|
    ensures forall x :: x in Sorted(s) <==> x in s
  {
    if s == [] {
    } else {
      assert s == [s[0]] + s[1..];
      SortedKeeps(s[1..]);
      InsertedKeeps(s[0], Sorted(s[1..]));
    }
  }

  // ---- Graphs ----

  predicate Has(g: Graph, n: Name) {
    exists i :: 0 <= i < |g| && g[i].name == n
  }

  function Deps(g: Graph, n: Name): seq<Name> {
    if g == [] then [] else if g[0].name == n then g[0].dependsOn else Deps(g[1..], n)
  }

  /** The names of a `Map` are distinct. */
  predicate Distinct(g: Graph) {
    forall i, j :: 0 <= i < j < |g| ==> g[i].name != g[j].name
  }

  /** Every dependency is a phase. */
  ghost predicate Closed(g: Graph) {
    forall p, d :: p in g && d in p.dependsOn ==> Has(g, d)
  }

  ghost predicate DupFree(g: Graph) {
    forall p :: p in g ==> NoDup(p.dependsOn)
  }

  /** Each phase of `c` depends on the next, and the last on the first. */
  ghost predicate IsCycle(g: Graph, c: seq<Name>) {
    c != [] && (forall i {:trigger Deps(g, c[i])} :: 0 <= i < |c| - 1 ==> c[i + 1] in Deps(g, c[i])) && c[0] in Deps(g, c[|c| - 1])
  }

  ghost predicate Cyclic(g: Graph) {
    exists c :: IsCycle(g, c)
  }

  /** There is a chain of `k` dependencies starting at `n`. */
  ghost predicate HasChain(g: Graph, n: Name, k: nat)
    decreases k
  {
    k == 0 || exists d :: d in Deps(g, n) && HasChain(g, d, k - 1)
  }

  /** The longest chain of dependencies starting at `n` has `k` links. */
  ghost predicate Depth(g: Graph, n: Name, k: nat) {
    HasChain(g, n, k) && !HasChain(g, n, k + 1)
  }

  /** The order phases run in: by longest chain, then by name. */
  ghost predicate Precedes(g: Graph, a: Name, b: Name) {
    exists i: nat, j: nat :: Depth(g, a, i) && Depth(g, b, j) && (i < j || (i == j && Less(a, b)))
  }

  ghost predicate InOrder(g: Graph, s: seq<Name>) {
    forall i, j :: 0 <= i < j < |s| ==> Precedes(g, s[i], s[j])
  }

  lemma {:induction false} DepsOf(g: Graph, p: Phase)
    requires Distinct(g) && p in g
    ensures Deps(g, p.name) == p.dependsOn && Has(g, p.name)
  {
    var i :| 0 <= i < |g| && g[i] == p;
    if i == 0 {
    } else {
      assert p == g[1..][i - 1];
      DepsOf(g[1..], p);
    }
  }

  lemma {:induction false} DepsHas(g: Graph, n: Name)
    ensures Has(g, n) ==> exists p :: p in g && p.name == n && p.dependsOn == Deps(g, n)
    ensures !Has(g, n) ==> Deps(g, n) == []
  {
    if g == [] {
    } else {
      DepsHas(g[1..], n);
      if g[0].name == n {
        assert g[0] in g;
      } else {
        assert Has(g, n) ==> Has(g[1..], n) by {
          if Has(g, n) {
            var i :| 0 <= i < |g| && g[i].name == n;
            assert g[1..][i - 1].name == n;
          }
        }
        assert Has(g[1..], n) ==> Has(g, n) by {
          if Has(g[1..], n) {
            var i :| 0 <= i < |g[1..]| && g[1..][i].name == n;
            assert g[i + 1].name == n;
          }
        }
      }
    }
  }

  lemma {:induction false} ChainShorter(g: Graph, n: Name, k: nat, m: nat)
    requires HasChain(g, n, k) && m <= k
    ensures HasChain(g, n, m)
    decreases m
  {
    if m == 0 {
    } else {
      var d :| d in Deps(g, n) && HasChain(g, d, k - 1);
      ChainShorter(g, d, k - 1, m - 1);
    }
  }

  lemma DepthUnique(g: Graph, n: Name, k: nat, m: nat)
    requires Depth(g, n, k) && Depth(g, n, m)
    ensures k == m
  {
    if k < m {
      ChainShorter(g, n, m, k + 1);
    } else if m < k {
      ChainShorter(g, n, k, m + 1);
    }
  }

  lemma PrecedesAsymmetric(g: Graph, a: Name, b: Name)
    requires Precedes(g, a, b)
    ensures !Precedes(g, b, a)
  {
    if Precedes(g, b, a) {
      var i: nat, j: nat :| Depth(g, a, i) && Depth(g, b, j) && (i < j || (i == j && Less(a, b)));
      var k: nat, m: nat :| Depth(g, b, k) && Depth(g, a, m) && (k < m || (k == m && Less(b, a)));
      DepthUnique(g, a, i, m);
      DepthUnique(g, b, j, k);
      LessTrans(a, b, a);
      LessIrreflexive(a);
    }
  }

  /** The order is determined by the graph: two sequences of the same names in order are equal. */
  lemma {:induction false} OrderUnique(g: Graph, s: seq<Name>, t: seq<Name>)
    requires InOrder(g, s) && InOrder(g, t)
    requires forall x :: x in s <==> x in t
    ensures s == t
  {
    if |s| > 0 {
      assert s[0] in t;
    }
    if |t| > 0 {
      assert t[0] in s;
      HeadsAgree(g, s, t);
      var s', t' := s[1..], t[1..];
      assert s == [s[0]] + s' && t == [t[0]] + t';
      HeadIsNew(g, s);
      HeadIsNew(g, t);
      assert forall x :: x in s' <==> x in s && x != s[0];
      assert forall x :: x in t' <==> x in t && x != t[0];
      OrderUnique(g, s', t');
    }
  }

  lemma HeadIsNew(g: Graph, s: seq<Name>)
    requires InOrder(g, s) && s != []
    ensures s[0] !in s[1..]
  {
    if s[0] in s[1..] {
      var i :| 0 <= i < |s[1..]| && s[1..][i] == s[0];
      assert Precedes(g, s[0], s[i + 1]);
      PrecedesAsymmetric(g, s[0], s[0]);
    }
  }

  lemma HeadsAgree(g: Graph, s: seq<Name>, t: seq<Name>)
    requires InOrder(g, s) && InOrder(g, t) && s != [] && t != []
    requires forall x :: x in s <==> x in t
    ensures s[0] == t[0]
  {
    assert s[0] in t && t[0] in s;
    var i :| 0 <= i < |t| && t[i] == s[0];
    var j :| 0 <= j < |s| && s[j] == t[0];
    if s[0] != t[0] {
      assert Precedes(g, t[0], t[i]);
      assert Precedes(g, s[0], s[j]);
      PrecedesAsymmetric(g, s[0], t[0]);
    }
  }
}
