/**
 Intervals and execution orders on the quotient.  The quotient of the raw edges has no cycle; an interval
 selects exactly the components on some path from its start to its end, the end excluded.
 */
module Intervals {
  import opened Prelude
  import opened Digraph
  import opened Topology

  // ---- the quotient has no cycle -------------------------------------------------------------

  /** The quotient, in terms of classes. */
  ghost function Quotient(g: Graph<Node>, h: Graph<Node>): set<(Component, Component)> {
    set e | e in g.edges && Class(h, e.0) != Class(h, e.1) :: (Class(h, e.0), Class(h, e.1))
  }

  ghost predicate Augments(g: Graph<Node>, h: Graph<Node>) {
    WellFormed(g) && WellFormed(h) && h.nodes == g.nodes && g.edges <= h.edges
  }

  lemma ClassOfMember(h: Graph<Node>, n: Node, m: Node)
    requires m in Class(h, n)
    ensures Class(h, m) == Class(h, n)
  {
    MutualClasses(h, n, m);
  }

  lemma SameClassReach(h: Graph<Node>, n: Node, x: Node, y: Node)
    requires x in Class(h, n) && y in Class(h, n)
    ensures Reach(h.edges, x, y)
  {
    ReachTransitive(h.edges, x, n, y);
  }

  /** A quotient path lifts: any node of its first component reaches any node of its last. */
  lemma {:induction false} PathLifts(g: Graph<Node>, h: Graph<Node>, p: seq<Component>, x: Node, y: Node, n: Node)
    requires Augments(g, h) && IsPath(Quotient(g, h), p) && n in h.nodes && p[0] == Class(h, n)
    requires x in p[0] && y in p[|p| - 1]
    ensures Reach(h.edges, x, y)
    decreases |p|
  {
    if |p| == 1 {
      SameClassReach(h, n, x, y);
    } else {
      var tail := p[1..];
      assert (p[0], p[1]) in Quotient(g, h);
      var e :| e in g.edges && p[0] == Class(h, e.0) && p[1] == Class(h, e.1);
      forall k | 0 <= k < |tail| - 1 ensures (tail[k], tail[k + 1]) in Quotient(g, h) {
        assert (p[k + 1], p[k + 1 + 1]) in Quotient(g, h);
      }
      InOwnClass(h, e.0);
      InOwnClass(h, e.1);
      PathLifts(g, h, tail, e.1, y, e.1);
      SameClassReach(h, n, x, e.0);
      EdgeFollows(h.edges, e.0, e.1);
      FollowsReach(h.edges, e.0, e.1);
      ReachTransitive(h.edges, x, e.0, e.1);
      ReachTransitive(h.edges, x, e.1, y);
    }
  }

  /** The quotient of the raw edges over the components of the augmented graph is acyclic. */
  lemma QuotientAcyclic(g: Graph<Node>, h: Graph<Node>)
    requires Augments(g, h)
    ensures Acyclic(Quotient(g, h))
  {
    forall c ensures !Follows(Quotient(g, h), c, c) {
      if Follows(Quotient(g, h), c, c) {
        var p :| Links(Quotient(g, h), p, c, c) && |p| >= 2;
        NoCycle(g, h, p);
      }
    }
  }

  lemma NoCycle(g: Graph<Node>, h: Graph<Node>, p: seq<Component>)
    requires Augments(g, h) && IsPath(Quotient(g, h), p) && |p| >= 2
    ensures p[0] != p[|p| - 1]
  {
    assert (p[0], p[1]) in Quotient(g, h);
    var e :| e in g.edges && p[0] == Class(h, e.0) && p[1] == Class(h, e.1) && p[0] != p[1];
    InOwnClass(h, e.0);
    InOwnClass(h, e.1);
    var tail := p[1..];
    forall k | 0 <= k < |tail| - 1 ensures (tail[k], tail[k + 1]) in Quotient(g, h) {
      assert (p[k + 1], p[k + 1 + 1]) in Quotient(g, h);
    }
    EdgeFollows(h.edges, e.0, e.1);
    FollowsReach(h.edges, e.0, e.1);
    if p[0] == p[|p| - 1] {
      PathLifts(g, h, tail, e.1, e.0, e.1);
      MutualClasses(h, e.0, e.1);
    }
  }

  /** The graph that is built is the quotient. */
  lemma QuotientBuilt(g: Graph<Node>, h: Graph<Node>, components: seq<Component>, dag: Graph<Component>)
    requires Augments(g, h) && AreComponents(h, components) && IsQuotient(g, components, dag)
    ensures dag.edges == Quotient(g, h)
    ensures forall c :: c in dag.nodes <==> IsClass(h, c)
  {
    forall c ensures c in dag.nodes <==> IsClass(h, c) { ListedIsClass(h, components, c); }
    forall e ensures e in dag.edges <==> e in Quotient(g, h) {
      assert e == (e.0, e.1);
      ListedIsClass(h, components, e.0);
      ListedIsClass(h, components, e.1);
      JoinedIsQuotient(g, h, e.0, e.1);
    }
  }

  lemma ListedIsClass(h: Graph<Node>, components: seq<Component>, c: Component)
    requires AreComponents(h, components)
    ensures c in components <==> IsClass(h, c)
  {
    if c in components { var k := IndexOf(components, c); }
  }

  lemma JoinedIsQuotient(g: Graph<Node>, h: Graph<Node>, c: Component, d: Component)
    requires Augments(g, h)
    ensures IsClass(h, c) && IsClass(h, d) && Joined(g.edges, c, d) <==> (c, d) in Quotient(g, h)
  {
    if IsClass(h, c) && IsClass(h, d) && Joined(g.edges, c, d) {
      var n: Node :| n in h.nodes && c == Class(h, n);
      var m: Node :| m in h.nodes && d == Class(h, m);
      var e :| e in g.edges && e.0 in c && e.1 in d;
      ClassOfMember(h, n, e.0);
      ClassOfMember(h, m, e.1);
    }
    if (c, d) in Quotient(g, h) {
      var e :| e in g.edges && c == Class(h, e.0) && d == Class(h, e.1) && c != d;
      InOwnClass(h, e.0);
      InOwnClass(h, e.1);
      assert Joined(g.edges, c, d);
    }
  }

  // ---- keys ----------------------------------------------------------------------------------

  lemma {:induction false} HasLeast(c: Component) returns (m: Node)
    requires c != {}
    ensures m in c && forall y | y in c :: m <= y
    decreases |c|
  {
    m :| m in c;
    var rest := c - {m};
    assert c == {m} + rest;
    if rest != {} {
      var least := HasLeast(rest);
      m := if m <= least then m else least;
    }
  }

  /** The first entry of a component's key, which is its nodes in ascending order. */
  function FirstOfKey(c: Component): int {
    if c == {} then -1
    else
      assert exists m :: m in c && forall y | y in c :: m <= y by { var m := HasLeast(c); }
      var m :| m in c && forall y | y in c :: m <= y;
      m
  }

  predicate IsKey(c: Component, key: seq<Node>) {
    (forall i, j | 0 <= i < j < |key| :: key[i] < key[j]) && c == set k | 0 <= k < |key| :: key[k]
  }

  /** Keys of disjoint components differ in their first entries, so these decide their order. */
  lemma FirstDecides(c: Component, d: Component, x: seq<Node>, y: seq<Node>)
    requires c != {} && d != {} && c !! d && IsKey(c, x) && IsKey(d, y)
    ensures x != [] && y != [] && x[0] == FirstOfKey(c) && y[0] == FirstOfKey(d) && x[0] != y[0]
  {
    assert x != [] && y != [];
    assert x[0] in c && y[0] in d;
  }

  // ---- intervals -----------------------------------------------------------------------------

  datatype IntervalError = UnknownNode(node: Node) | NotADescendant

  datatype Interval = Selected(components: seq<Component>) | Refused(error: IntervalError)

  /** Some path from `start` to `end` passes through `c`. */
  ghost predicate Between(edges: set<(Component, Component)>, start: Component, end: Component, c: Component) {
    exists p :: Links(edges, p, start, end) && c in p
  }

  lemma BetweenReach(edges: set<(Component, Component)>, start: Component, end: Component, c: Component)
    ensures Between(edges, start, end, c) <==> Reach(edges, start, c) && Reach(edges, c, end)
  {
    if Between(edges, start, end, c) {
      var p :| Links(edges, p, start, end) && c in p;
      var k := IndexOf(p, c);
      SubPath(edges, p, 0, k);
      SubPath(edges, p, k, |p| - 1);
    }
    if Reach(edges, start, c) && Reach(edges, c, end) {
      var p :| Links(edges, p, start, c);
      var q :| Links(edges, q, c, end);
      Join(edges, p, q, start, c, end);
      assert (p + q[1..])[|p| - 1] == c;
    }
  }

  /** The half-open interval, each component once, in the order of their keys as far as edges allow. */
  ghost predicate IsInterval(edges: set<(Component, Component)>, start: Component, end: Component,
      list: seq<Component>)
  {
    && (forall c :: c in list <==> c != end && Between(edges, start, end, c))
    && (forall i, j | 0 <= i < j < |list| :: list[i] != list[j])
    && Forward(edges, list) && Smallest(edges, list, FirstOfKey)
  }

  ghost predicate Within(p: seq<Component>, list: seq<Component>) {
    forall c | c in p :: c in list
  }

  /** Every path between two listed components stays within the list. */
  ghost predicate Convex(edges: set<(Component, Component)>, list: seq<Component>) {
    forall p | IsPath(edges, p) && p[0] in list && p[|p| - 1] in list :: Within(p, list)
  }

  /** An interval contains its start, neither its end nor anything after it, and every path between two of
      its components. */
  lemma IntervalConvex(edges: set<(Component, Component)>, start: Component, end: Component, list: seq<Component>)
    requires Acyclic(edges) && Follows(edges, start, end) && IsInterval(edges, start, end, list)
    ensures start in list && end !in list
    ensures forall c | Follows(edges, end, c) :: c !in list
    ensures Convex(edges, list)
    ensures forall i, j | 0 <= i < |list| && 0 <= j < |list| && Follows(edges, list[i], list[j]) :: i < j
  {
    StartInside(edges, start, end);
    forall c | Follows(edges, end, c) ensures c !in list { AfterEnd(edges, start, end, c); }
    forall p | IsPath(edges, p) && p[0] in list && p[|p| - 1] in list ensures Within(p, list) {
      forall c | c in p ensures c in list { InsidePath(edges, start, end, p, c); }
    }
    forall i, j | 0 <= i < |list| && 0 <= j < |list| && Follows(edges, list[i], list[j]) ensures i < j {
      var p :| Links(edges, p, list[i], list[j]) && |p| >= 2;
      forall c | c in p ensures c in list { InsidePath(edges, start, end, p, c); }
      PathForward(edges, list, p, i, j);
    }
  }

  lemma StartInside(edges: set<(Component, Component)>, start: Component, end: Component)
    requires Acyclic(edges) && Follows(edges, start, end)
    ensures start != end && Between(edges, start, end, start)
  {
    ReachSelf(edges, start);
    FollowsReach(edges, start, end);
    BetweenReach(edges, start, end, start);
  }

  lemma AfterEnd(edges: set<(Component, Component)>, start: Component, end: Component, c: Component)
    requires Acyclic(edges) && Follows(edges, end, c)
    ensures !Between(edges, start, end, c)
  {
    BetweenReach(edges, start, end, c);
    FollowsReach(edges, end, c);
    if Reach(edges, c, end) { ReachTransitive(edges, end, c, end); }
  }

  lemma InsidePath(edges: set<(Component, Component)>, start: Component, end: Component, p: seq<Component>,
      c: Component)
    requires Acyclic(edges) && IsPath(edges, p) && c in p
    requires Between(edges, start, end, p[0]) && Between(edges, start, end, p[|p| - 1]) && p[|p| - 1] != end
    ensures c != end && Between(edges, start, end, c)
  {
    var k := IndexOf(p, c);
    var last := p[|p| - 1];
    SubPath(edges, p, 0, k);
    SubPath(edges, p, k, |p| - 1);
    BetweenReach(edges, start, end, p[0]);
    BetweenReach(edges, start, end, last);
    BetweenReach(edges, start, end, c);
    ReachTransitive(edges, start, p[0], c);
    ReachTransitive(edges, c, last, end);
    FollowsReach(edges, last, end);
    assert Follows(edges, c, end);
  }

  /** A path within a listing whose edges point forward goes forward. */
  lemma {:induction false} PathForward(edges: set<(Component, Component)>, list: seq<Component>, p: seq<Component>,
      i: nat, j: nat)
    requires Forward(edges, list) && IsPath(edges, p) && |p| >= 2 && i < |list| && j < |list|
    requires list[i] == p[0] && list[j] == p[|p| - 1] && forall c | c in p :: c in list
    ensures i < j
    decreases |p|
  {
    if |p| == 2 {
      assert (list[i], list[j]) in edges;
    } else {
      assert p[1] in p;
      var k := IndexOf(list, p[1]);
      assert (list[i], list[k]) in edges;
      var tail := p[1..];
      forall m | 0 <= m < |tail| - 1 ensures (tail[m], tail[m + 1]) in edges {
        assert (p[m + 1], p[m + 1 + 1]) in edges;
      }
      PathForward(edges, list, tail, k, j);
    }
  }

  /** The first listed component with the node, or the node alone. */
  method ComponentFor(components: seq<Component>, node: Node) returns (component: Component)
    ensures if exists k :: 0 <= k < |components| && node in components[k]
            then component in components && node in component else component == {node}
  {
    for k := 0 to |components|
      invariant forall j | 0 <= j < k :: node !in components[j]
    {
      if node in components[k] { return components[k]; }
    }
    return {node};
  }

  method BuildDag(g: Graph<Node>, autostart: seq<(Node, Node)>)
    returns (dag: Graph<Component>, components: seq<Component>)
    requires WellFormed(g)
    ensures var h := Graph(g.nodes, Augmented(g.edges, autostart));
      && Augments(g, h) && AreComponents(h, components)
      && dag.edges == Quotient(g, h) && WellFormed(dag) && Acyclic(dag.edges)
      && forall c :: c in dag.nodes <==> IsClass(h, c)
  {
    var h := HoefleinGraph(g, autostart);
    components := Components(h);
    ComponentsPartition(h, components);
    dag := ComponentDag(g, components);
    QuotientBuilt(g, h, components, dag);
    QuotientAcyclic(g, h);
  }

  lemma FoundClass(h: Graph<Node>, components: seq<Component>, n: Node, c: Component)
    requires AreComponents(h, components) && n in h.nodes
    requires if exists k :: 0 <= k < |components| && n in components[k] then c in components && n in c else c == {n}
    ensures c == Class(h, n) && IsClass(h, c)
  {
    InOwnClass(h, n);
    var k := IndexOf(components, Class(h, n));
    assert n in components[k];
    ListedIsClass(h, components, c);
    var m: Node :| m in h.nodes && c == Class(h, m);
    ClassOfMember(h, m, n);
  }

  method ComponentInterval(g: Graph<Node>, autostart: seq<(Node, Node)>, startNode: Node, endNode: Node)
    returns (interval: Interval)
    requires WellFormed(g)
    ensures startNode !in g.nodes ==> interval == Refused(UnknownNode(startNode))
    ensures startNode in g.nodes && endNode !in g.nodes ==> interval == Refused(UnknownNode(endNode))
    ensures startNode in g.nodes && endNode in g.nodes ==>
      var h := Graph(g.nodes, Augmented(g.edges, autostart));
      var start, end := Class(h, startNode), Class(h, endNode);
      if Follows(Quotient(g, h), start, end)
      then interval.Selected? && IsInterval(Quotient(g, h), start, end, interval.components)
      else interval == Refused(NotADescendant)
  {
    if startNode !in g.nodes { return Refused(UnknownNode(startNode)); }
    if endNode !in g.nodes { return Refused(UnknownNode(endNode)); }
    hide Quotient, Class, Augmented, IsClass, AreComponents, Acyclic, Forward, Smallest, Follows, Reach;
    var dag, components := BuildDag(g, autostart);
    ghost var h := Graph(g.nodes, Augmented(g.edges, autostart));
    var start := ComponentFor(components, startNode);
    FoundClass(h, components, startNode, start);
    var end := ComponentFor(components, endNode);
    FoundClass(h, components, endNode, end);
    interval := IntervalIn(dag, start, end);
  }

  /** The interval within the quotient. */
  method IntervalIn(dag: Graph<Component>, start: Component, end: Component) returns (interval: Interval)
    requires WellFormed(dag) && Acyclic(dag.edges) && start in dag.nodes && end in dag.nodes
    ensures if Follows(dag.edges, start, end)
            then interval.Selected? && IsInterval(dag.edges, start, end, interval.components)
            else interval == Refused(NotADescendant)
  {
    var descendants := Descendants(dag, start);
    FollowsReach(dag.edges, start, end);
    if end !in descendants { return Refused(NotADescendant); }
    var reversed := Graph(dag.nodes, Reversed(dag.edges));
    var ancestors := Descendants(reversed, end);
    var selected := ({start} + descendants) * ({end} + ancestors) - {end};
    forall c ensures c in selected <==> c != end && Between(dag.edges, start, end, c) {
      ReachReversed(dag.edges, end, c);
      ReachSelf(dag.edges, start);
      ReachSelf(dag.edges, end);
      BetweenReach(dag.edges, start, end, c);
    }
    hide Between, Acyclic, Forward, Smallest, Reach, Follows;
    var order := TopologicalSort(dag.edges, selected, FirstOfKey);
    interval := Selected(order);
  }

  // ---- execution order -----------------------------------------------------------------------

  /** The components that hold a selected node, each once, every component after those it depends on. */
  ghost predicate IsExecution(g: Graph<Node>, h: Graph<Node>, selected: set<Node>, list: seq<Component>) {
    && (forall c :: c in list <==> IsClass(h, c) && c * selected != {})
    && (forall i, j | 0 <= i < j < |list| :: list[i] != list[j])
    && (forall i, j | 0 <= i < |list| && 0 <= j < |list| && Follows(Quotient(g, h), list[i], list[j]) :: i < j)
  }

  /** `execution_components`; without a selection, all nodes. */
  method ExecutionComponents(g: Graph<Node>, autostart: seq<(Node, Node)>, nodes: Option<set<Node>>)
    returns (list: seq<Component>)
    requires WellFormed(g)
    ensures var selected := if nodes.Some? then nodes.value else g.nodes;
      IsExecution(g, Graph(g.nodes, Augmented(g.edges, autostart)), selected, list)
  {
    var selected := if nodes.Some? then nodes.value else g.nodes;
    ghost var h := Graph(g.nodes, Augmented(g.edges, autostart));
    if selected == {} {
      NoneSelected(g, h);
      return [];
    }
    hide IsExecution, Quotient, Augmented, IsClass, AreComponents, Acyclic, Smallest, Forward, Picked, Lists;
    var dag, components := BuildDag(g, autostart);
    var order := TopologicalSort(dag.edges, dag.nodes, FirstOfKey);
    ghost var places;
    list, places := Meeting(order, selected);
    PickedInOrder(g, h, dag, order, selected, list, places);
  }

  lemma NoneSelected(g: Graph<Node>, h: Graph<Node>)
    ensures IsExecution(g, h, {}, [])
  {
    forall c: Component ensures c * {} == {} {}
  }

  /** The entries of `order` that meet the selection. */
  method Meeting(order: seq<Component>, selected: set<Node>) returns (list: seq<Component>, ghost places: seq<nat>)
    ensures Picked(order, |order|, selected, list, places)
  {
    hide Picked;
    places := [];
    list := [];
    PickedNone(order, selected);
    for k := 0 to |order|
      invariant Picked(order, k, selected, list, places)
    {
      PickedStep(order, k, selected, list, places);
      if order[k] * selected != {} {
        list, places := list + [order[k]], places + [k];
      }
    }
  }

  /** `list` holds the entries of `order[..k]` that meet the selection, from the given places. */
  ghost predicate Picked(order: seq<Component>, k: nat, selected: set<Node>, list: seq<Component>, places: seq<nat>) {
    && k <= |order| && |places| == |list|
    && (forall i | 0 <= i < |list| :: places[i] < k && list[i] == order[places[i]] && list[i] * selected != {})
    && (forall i, j | 0 <= i < j < |list| :: places[i] < places[j])
    && (forall m | 0 <= m < k && order[m] * selected != {} :: m in places)
  }

  lemma PickedNone(order: seq<Component>, selected: set<Node>)
    ensures Picked(order, 0, selected, [], [])
  {
  }

  lemma PickedStep(order: seq<Component>, k: nat, selected: set<Node>, list: seq<Component>, places: seq<nat>)
    requires k < |order| && Picked(order, k, selected, list, places)
    ensures if order[k] * selected != {} then Picked(order, k + 1, selected, list + [order[k]], places + [k])
            else Picked(order, k + 1, selected, list, places)
  {
    var more := places + [k];
    assert more[|places|] == k;
    forall m | 0 <= m < k && order[m] * selected != {} ensures m in more {
      var i := IndexOf(places, m);
      assert more[i] == m;
    }
  }

  lemma PickedInOrder(g: Graph<Node>, h: Graph<Node>, dag: Graph<Component>, order: seq<Component>,
                      selected: set<Node>, list: seq<Component>, places: seq<nat>)
    requires Picked(order, |order|, selected, list, places) && Lists(order, dag.nodes) && Forward(dag.edges, order)
    requires dag.edges == Quotient(g, h) && WellFormed(dag) && forall c :: c in dag.nodes <==> IsClass(h, c)
    ensures IsExecution(g, h, selected, list)
  {
    hide Quotient, IsClass;
    forall c ensures c in list <==> IsClass(h, c) && c * selected != {} {
      if c in list {
        var i := IndexOf(list, c);
        assert order[places[i]] in order;
      }
      if IsClass(h, c) && c * selected != {} {
        var m := IndexOf(order, c);
        var i := IndexOf(places, m);
        assert list[i] == c;
      }
    }
    forall i, j | 0 <= i < |list| && 0 <= j < |list| && Follows(Quotient(g, h), list[i], list[j]) ensures i < j {
      var p :| Links(dag.edges, p, list[i], list[j]) && |p| >= 2;
      forall c | c in p ensures c in order {
        var k := IndexOf(p, c);
        if k < |p| - 1 { assert (p[k], p[k + 1]) in dag.edges; } else { assert (p[k - 1], p[k]) in dag.edges; }
      }
      PathForward(dag.edges, order, p, places[i], places[j]);
    }
  }
}
