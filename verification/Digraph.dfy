/** Finite directed graphs: paths, reachability, acyclicity, and the searches and sorts the topology uses. */
module Digraph {
  datatype Graph<T(==)> = Graph(nodes: set<T>, edges: set<(T, T)>)

  predicate WellFormed<T(==)>(g: Graph<T>) {
    forall e | e in g.edges :: e.0 in g.nodes && e.1 in g.nodes
  }

  // ---- paths ---------------------------------------------------------------------------------

  predicate IsPath<T(==)>(edges: set<(T, T)>, p: seq<T>) {
    p != [] && forall k | 0 <= k < |p| - 1 :: (p[k], p[k + 1]) in edges
  }

  predicate Links<T(==)>(edges: set<(T, T)>, p: seq<T>, a: T, b: T) {
    IsPath(edges, p) && p[0] == a && p[|p| - 1] == b
  }

  /** Some path leads from `a` to `b`, perhaps of no edge. */
  ghost predicate Reach<T(!new)>(edges: set<(T, T)>, a: T, b: T) {
    exists p :: Links(edges, p, a, b)
  }

  /** Some path of at least one edge does. */
  ghost predicate Follows<T(!new)>(edges: set<(T, T)>, a: T, b: T) {
    exists p :: Links(edges, p, a, b) && |p| >= 2
  }

  ghost predicate Acyclic<T(!new)>(edges: set<(T, T)>) {
    forall a :: !Follows(edges, a, a)
  }

  lemma ReachSelf<T(!new)>(edges: set<(T, T)>, a: T)
    ensures Reach(edges, a, a)
  {
    assert Links(edges, [a], a, a);
  }

  lemma EdgeFollows<T(!new)>(edges: set<(T, T)>, a: T, b: T)
    requires (a, b) in edges
    ensures Follows(edges, a, b)
  {
    assert Links(edges, [a, b], a, b);
  }

  /** Paths that meet can be joined. */
  lemma Join<T(!new)>(edges: set<(T, T)>, p: seq<T>, q: seq<T>, a: T, b: T, c: T)
    requires Links(edges, p, a, b) && Links(edges, q, b, c)
    ensures Links(edges, p + q[1..], a, c) && |p + q[1..]| == |p| + |q| - 1
  {
    var r := p + q[1..];
    forall k | 0 <= k < |r| - 1 ensures (r[k], r[k + 1]) in edges {
      if k < |p| - 1 {
      } else {
        assert r[k] == q[k - (|p| - 1)] && r[k + 1] == q[k - (|p| - 1) + 1];
      }
    }
  }

  lemma ReachTransitive<T(!new)>(edges: set<(T, T)>, a: T, b: T, c: T)
    requires Reach(edges, a, b) && Reach(edges, b, c)
    ensures Reach(edges, a, c)
    ensures Follows(edges, a, b) || Follows(edges, b, c) ==> Follows(edges, a, c)
  {
    var p :| Links(edges, p, a, b) && (Follows(edges, a, b) ==> |p| >= 2);
    var q :| Links(edges, q, b, c) && (Follows(edges, b, c) ==> |q| >= 2);
    Join(edges, p, q, a, b, c);
  }

  lemma FollowsReach<T(!new)>(edges: set<(T, T)>, a: T, b: T)
    ensures Follows(edges, a, b) ==> Reach(edges, a, b)
    ensures Reach(edges, a, b) && a != b ==> Follows(edges, a, b)
  {
  }

  lemma SubPath<T(!new)>(edges: set<(T, T)>, p: seq<T>, i: nat, j: nat)
    requires IsPath(edges, p) && i <= j < |p|
    ensures Reach(edges, p[i], p[j]) && (i < j ==> Follows(edges, p[i], p[j]))
  {
    assert Links(edges, p[i..j + 1], p[i], p[j]);
  }

  function Reversed<T(==)>(edges: set<(T, T)>): set<(T, T)> {
    set e | e in edges :: (e.1, e.0)
  }

  lemma ReachReversed<T(!new)>(edges: set<(T, T)>, a: T, b: T)
    ensures Reach(Reversed(edges), a, b) <==> Reach(edges, b, a)
  {
    if Reach(edges, b, a) { ReverseOne(edges, b, a); }
    if Reach(Reversed(edges), a, b) {
      ReverseOne(Reversed(edges), a, b);
      assert Reversed(Reversed(edges)) == edges by {
        forall e ensures e in Reversed(Reversed(edges)) <==> e in edges {
          if e in edges { assert (e.1, e.0) in Reversed(edges); }
        }
      }
    }
  }

  lemma ReverseOne<T(!new)>(edges: set<(T, T)>, a: T, b: T)
    requires Reach(edges, a, b)
    ensures Reach(Reversed(edges), b, a)
  {
    var p :| Links(edges, p, a, b);
    var q := seq(|p|, k requires 0 <= k < |p| => p[|p| - 1 - k]);
    forall k | 0 <= k < |q| - 1 ensures (q[k], q[k + 1]) in Reversed(edges) {
      var j := |p| - 2 - k;
      assert (p[j], p[j + 1]) in edges;
    }
    assert Links(Reversed(edges), q, b, a);
  }

  /** A set closed under the edges holds everything reachable from it. */
  lemma {:induction false} ClosedHolds<T(!new)>(edges: set<(T, T)>, s: set<T>, p: seq<T>)
    requires IsPath(edges, p) && p[0] in s
    requires forall e | e in edges && e.0 in s :: e.1 in s
    ensures p[|p| - 1] in s
    decreases |p|
  {
    if |p| > 1 {
      var init := p[..|p| - 1];
      ClosedHolds(edges, s, init);
      assert (p[|p| - 2], p[|p| - 1]) in edges;
    }
  }

  // ---- descendants ---------------------------------------------------------------------------

  /** The nodes other than the source that it reaches. */
  method Descendants<T(==,!new)>(g: Graph<T>, source: T) returns (found: set<T>)
    requires WellFormed(g) && source in g.nodes
    ensures forall x :: x in found <==> x != source && Reach(g.edges, source, x)
    ensures found <= g.nodes
  {
    var seen, todo := {source}, {source};
    ReachSelf(g.edges, source);
    while todo != {}
      invariant todo <= seen <= g.nodes && source in seen
      invariant forall x | x in seen :: Reach(g.edges, source, x)
      invariant forall e | e in g.edges && e.0 in seen - todo :: e.1 in seen
      decreases |g.nodes - seen|, |todo|
    {
      var x :| x in todo;
      var next := set e | e in g.edges && e.0 == x && e.1 !in seen :: e.1;
      forall y | y in next ensures Reach(g.edges, source, y) {
        EdgeFollows(g.edges, x, y);
        FollowsReach(g.edges, x, y);
        ReachTransitive(g.edges, source, x, y);
      }
      ghost var before := g.nodes - seen;
      if next != {} { Shrinks(g.nodes, seen, next); }
      seen, todo := seen + next, todo - {x} + next;
    }
    forall x | Reach(g.edges, source, x) ensures x in seen {
      var p :| Links(g.edges, p, source, x);
      ClosedHolds(g.edges, seen, p);
    }
    found := seen - {source};
  }

  lemma Shrinks<T>(nodes: set<T>, seen: set<T>, next: set<T>)
    requires next != {} && next <= nodes - seen
    ensures |nodes - (seen + next)| < |nodes - seen|
  {
    assert nodes - seen == (nodes - (seen + next)) + next;
  }

  // ---- sorting -------------------------------------------------------------------------------

  /** No edge leads into `x` from within `s`. */
  predicate IsSource<T(==)>(edges: set<(T, T)>, s: set<T>, x: T) {
    x in s && forall e | e in edges && e.1 == x :: e.0 !in s
  }

  /** A finite non-empty part of an acyclic graph has a source. */
  lemma {:induction false} SourceExists<T(!new)>(edges: set<(T, T)>, s: set<T>) returns (x: T)
    requires s != {} && Acyclic(edges)
    ensures IsSource(edges, s, x)
    decreases |s|
  {
    var y :| y in s;
    var earlier := set z | z in s && Follows(edges, z, y);
    if earlier == {} {
      x := y;
      forall e | e in edges && e.1 == x ensures e.0 !in s {
        EdgeFollows(edges, e.0, x);
        assert e.0 in s ==> e.0 in earlier;
      }
    } else {
      assert y !in earlier;
      Smaller(earlier, s, y);
      x := SourceExists(edges, earlier);
      forall e | e in edges && e.1 == x ensures e.0 !in s {
        EdgeFollows(edges, e.0, x);
        FollowsReach(edges, e.0, x);
        FollowsReach(edges, x, y);
        ReachTransitive(edges, e.0, x, y);
        assert e.0 in s ==> e.0 in earlier;
      }
    }
  }

  lemma Smaller<T>(a: set<T>, b: set<T>, y: T)
    requires a <= b && y in b && y !in a
    ensures |a| < |b|
  {
    assert a <= b - {y};
    Within(a, b - {y});
  }

  lemma Within<T>(a: set<T>, b: set<T>)
    requires a <= b
    ensures |a| <= |b|
  {
    assert b == a + (b - a);
  }

  /** The members of `s`, each once. */
  ghost predicate Lists<T(!new)>(order: seq<T>, s: set<T>) {
    && (forall i, j | 0 <= i < j < |order| :: order[i] != order[j])
    && (forall x :: x in s <==> x in order)
  }

  /** Every edge between listed nodes points forward. */
  predicate Forward<T(==)>(edges: set<(T, T)>, order: seq<T>) {
    forall i, j | 0 <= i < |order| && 0 <= j < |order| && (order[i], order[j]) in edges :: i < j
  }

  /** Each place goes to the smallest node whose predecessors among the listed ones all came before. */
  predicate Smallest<T(==)>(edges: set<(T, T)>, order: seq<T>, key: T -> int) {
    forall i, j | 0 <= i <= j < |order| && (forall k | i <= k < |order| :: (order[k], order[j]) !in edges) ::
      key(order[i]) <= key(order[j])
  }

  /** The sources of `s`, least key first. */
  method LeastSource<T(==,!new)>(edges: set<(T, T)>, s: set<T>, key: T -> int) returns (least: T)
    requires s != {} && Acyclic(edges)
    ensures IsSource(edges, s, least) && forall x | IsSource(edges, s, x) :: key(least) <= key(x)
  {
    var sources := set x | x in s && forall e | e in edges && e.1 == x :: e.0 !in s;
    ghost var some := SourceExists(edges, s);
    assert some in sources;
    least :| least in sources;
    var rest := sources - {least};
    while rest != {}
      invariant rest <= sources && least in sources - rest
      invariant forall x | x in sources - rest :: key(least) <= key(x)
      decreases |rest|
    {
      var x :| x in rest;
      if key(x) < key(least) { least := x; }
      rest := rest - {x};
    }
    forall x | IsSource(edges, s, x) ensures key(least) <= key(x) { assert x in sources; }
  }

  /** What was left to order when place `i` was filled. */
  function Rest<T(==)>(order: seq<T>, remaining: set<T>, i: nat): set<T>
    requires i <= |order|
  {
    (set x | x in order[i..]) + remaining
  }

  ghost predicate IsLeast<T(!new)>(edges: set<(T, T)>, rest: set<T>, x: T, key: T -> int) {
    IsSource(edges, rest, x) && forall y | IsSource(edges, rest, y) :: key(x) <= key(y)
  }

  /** The lexicographically smallest topological order of a part of an acyclic graph. */
  method TopologicalSort<T(==,!new)>(edges: set<(T, T)>, s: set<T>, key: T -> int) returns (order: seq<T>)
    requires Acyclic(edges)
    ensures Lists(order, s) && Forward(edges, order) && Smallest(edges, order, key)
  {
    hide IsLeast, IsSource, Acyclic;
    order := [];
    var remaining := s;
    while remaining != {}
      invariant remaining <= s && Lists(order, s - remaining)
      invariant forall i: nat | i < |order| :: IsLeast(edges, Rest(order, remaining, i), order[i], key)
      decreases |remaining|
    {
      var x := LeastSource(edges, remaining, key);
      var later, left := order + [x], remaining - {x};
      assert IsLeast(edges, remaining, x, key) by { LeastIs(edges, remaining, x, key); }
      SourceIn(edges, remaining, x);
      forall i: nat | i < |later| ensures IsLeast(edges, Rest(later, left, i), later[i], key) {
        RestKept(order, remaining, x, i);
      }
      ListsMore(order, s - remaining, x);
      assert s - left == s - remaining + {x};
      order, remaining := later, left;
    }
    assert s - remaining == s;
    ForwardFrom(edges, order, key);
  }

  lemma LeastIs<T(!new)>(edges: set<(T, T)>, rest: set<T>, x: T, key: T -> int)
    requires IsSource(edges, rest, x) && forall y | IsSource(edges, rest, y) :: key(x) <= key(y)
    ensures IsLeast(edges, rest, x, key)
  {
  }

  lemma SourceIn<T>(edges: set<(T, T)>, rest: set<T>, x: T)
    requires IsSource(edges, rest, x)
    ensures x in rest
  {
  }

  lemma RestKept<T>(order: seq<T>, remaining: set<T>, x: T, i: nat)
    requires i <= |order| && x in remaining
    ensures Rest(order + [x], remaining - {x}, i) == Rest(order, remaining, i)
    ensures i == |order| ==> Rest(order, remaining, i) == remaining
  {
    assert (order + [x])[i..] == order[i..] + [x];
  }

  lemma ListsMore<T(!new)>(order: seq<T>, s: set<T>, x: T)
    requires Lists(order, s) && x !in s
    ensures Lists(order + [x], s + {x})
  {
    forall i | 0 <= i < |order| ensures order[i] != x { assert order[i] in order; }
  }

  lemma RestHas<T>(order: seq<T>, i: nat, j: nat)
    requires i < |order| && j < |order|
    ensures i <= j ==> order[j] in Rest(order, {}, i)
  {
    if i <= j { assert order[j] == order[i..][j - i]; }
  }

  lemma RestAt<T>(order: seq<T>, i: nat, x: T) returns (k: nat)
    requires i <= |order| && x in Rest(order, {}, i)
    ensures i <= k < |order| && order[k] == x
  {
    var j :| 0 <= j < |order[i..]| && order[i..][j] == x;
    k := i + j;
  }

  lemma ForwardFrom<T(!new)>(edges: set<(T, T)>, order: seq<T>, key: T -> int)
    requires forall i: nat | i < |order| :: IsLeast(edges, Rest(order, {}, i), order[i], key)
    ensures Forward(edges, order) && Smallest(edges, order, key)
  {
    forall i, j | 0 <= i < |order| && 0 <= j < |order| && (order[i], order[j]) in edges ensures i < j {
      assert IsLeast(edges, Rest(order, {}, j), order[j], key);
      RestHas(order, j, i);
    }
    forall i, j | 0 <= i <= j < |order| && (forall k | i <= k < |order| :: (order[k], order[j]) !in edges)
      ensures key(order[i]) <= key(order[j])
    {
      assert IsLeast(edges, Rest(order, {}, i), order[i], key);
      RestHas(order, i, j);
      forall e | e in edges && e.1 == order[j] ensures e.0 !in Rest(order, {}, i) {
        if e.0 in Rest(order, {}, i) {
          var k := RestAt(order, i, e.0);
        }
      }
      assert IsSource(edges, Rest(order, {}, i), order[j]);
    }
  }
}
