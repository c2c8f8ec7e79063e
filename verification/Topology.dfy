/**
 Components of a workflow graph and the quotient over them.  Autostart edges make their ends mutually
 reachable; components are the classes of mutual reachability in that augmented graph, and the quotient of
 the raw edges over them is what intervals and execution orders are read from.
 */
module Topology {
  import opened Prelude
  import opened Digraph

  type Node = nat
  type Component = set<Node>

  // ---- the augmented graph -------------------------------------------------------------------

  /** The raw edges, and the reverses of those that are autostart edges too. */
  function Augmented(edges: set<(Node, Node)>, autostart: seq<(Node, Node)>): set<(Node, Node)> {
    edges + set a | a in autostart && a in edges :: (a.1, a.0)
  }

  /** `hoeflein_graph`: whether an edge exists is asked of the graph that is being extended; the outcome is
      that of asking the raw graph, in whatever order the autostart edges come. */
  method HoefleinGraph(g: Graph<Node>, autostart: seq<(Node, Node)>) returns (h: Graph<Node>)
    requires WellFormed(g)
    ensures h == Graph(g.nodes, Augmented(g.edges, autostart)) && WellFormed(h)
    ensures forall a, b ::
      (a, b) in h.edges <==> (a, b) in g.edges || ((b, a) in g.edges && (b, a) in autostart)
  {
    h := g;
    for i := 0 to |autostart|
      invariant h == Graph(g.nodes, Augmented(g.edges, autostart[..i])) && WellFormed(h)
    {
      var (start, end) := autostart[i];
      AugmentedStep(g.edges, autostart, i);
      if (start, end) in h.edges {
        h := Graph(h.nodes, h.edges + {(end, start)});
      }
    }
    assert autostart[..|autostart|] == autostart;
  }

  lemma AugmentedStep(edges: set<(Node, Node)>, autostart: seq<(Node, Node)>, i: nat)
    requires i < |autostart|
    ensures var before, (start, end) := Augmented(edges, autostart[..i]), autostart[i];
      Augmented(edges, autostart[..i + 1]) == if (start, end) in before then before + {(end, start)} else before
  {
    var before, after, a := Augmented(edges, autostart[..i]), Augmented(edges, autostart[..i + 1]), autostart[i];
    assert autostart[..i + 1] == autostart[..i] + [a];
    forall e ensures e in after <==> e in before || (e == (a.1, a.0) && a in before) {
      if e == (a.1, a.0) && a in before && a !in edges {
        assert e in edges;
      }
      if e in before { assert e in after; }
    }
  }

  lemma AutostartOrderIrrelevant(edges: set<(Node, Node)>, a: seq<(Node, Node)>, b: seq<(Node, Node)>)
    requires forall e :: e in a <==> e in b
    ensures Augmented(edges, a) == Augmented(edges, b)
  {
    var x, y := Augmented(edges, a), Augmented(edges, b);
    forall e ensures e in x <==> e in y {
      if e in x && e !in edges { assert (e.1, e.0) in b; }
      if e in y && e !in edges { assert (e.1, e.0) in a; }
    }
  }

  // ---- components ----------------------------------------------------------------------------

  ghost predicate Mutual(h: Graph<Node>, a: Node, b: Node) {
    a in h.nodes && b in h.nodes && Reach(h.edges, a, b) && Reach(h.edges, b, a)
  }

  ghost function Class(h: Graph<Node>, n: Node): Component {
    set m | m in h.nodes && Mutual(h, n, m)
  }

  ghost predicate IsClass(h: Graph<Node>, c: Component) {
    exists n :: n in h.nodes && c == Class(h, n)
  }

  ghost predicate AreComponents(h: Graph<Node>, components: seq<Component>) {
    && (forall k | 0 <= k < |components| :: IsClass(h, components[k]))
    && (forall n | n in h.nodes :: Class(h, n) in components)
    && (forall j, k | 0 <= j < k < |components| :: components[j] != components[k])
  }

  lemma MutualClasses(h: Graph<Node>, a: Node, b: Node)
    requires Mutual(h, a, b)
    ensures Class(h, a) == Class(h, b)
  {
    forall m ensures m in Class(h, a) <==> m in Class(h, b) {
      if m in Class(h, a) { ReachTransitive(h.edges, b, a, m); ReachTransitive(h.edges, m, a, b); }
      if m in Class(h, b) { ReachTransitive(h.edges, a, b, m); ReachTransitive(h.edges, m, b, a); }
    }
  }

  lemma InOwnClass(h: Graph<Node>, n: Node)
    requires n in h.nodes
    ensures n in Class(h, n)
  {
    ReachSelf(h.edges, n);
  }

  lemma ClassesDisjoint(h: Graph<Node>, a: Node, b: Node)
    requires Class(h, a) != Class(h, b)
    ensures Class(h, a) !! Class(h, b)
  {
    forall m | m in Class(h, a) && m in Class(h, b) ensures false {
      MutualClasses(h, a, m);
      MutualClasses(h, b, m);
    }
  }

  predicate Parts(nodes: set<Node>, components: seq<Component>) {
    forall k | 0 <= k < |components| :: components[k] != {} && components[k] <= nodes
  }

  predicate Apart(components: seq<Component>) {
    forall j, k | 0 <= j < k < |components| :: components[j] !! components[k]
  }

  ghost predicate Covering(nodes: set<Node>, components: seq<Component>) {
    forall n | n in nodes :: exists k :: 0 <= k < |components| && n in components[k]
  }

  ghost predicate Partition(nodes: set<Node>, components: seq<Component>) {
    Parts(nodes, components) && Apart(components) && Covering(nodes, components)
  }

  /** Components partition the nodes: each node is in exactly one, and none is empty. */
  lemma ComponentsPartition(h: Graph<Node>, components: seq<Component>)
    requires AreComponents(h, components)
    ensures Partition(h.nodes, components)
  {
    forall k | 0 <= k < |components| ensures components[k] != {} && components[k] <= h.nodes {
      var n := ClassAt(h, components, k);
      InOwnClass(h, n);
    }
    forall j, k | 0 <= j < k < |components| ensures components[j] !! components[k] {
      var a := ClassAt(h, components, j);
      var b := ClassAt(h, components, k);
      ClassesDisjoint(h, a, b);
    }
    forall n | n in h.nodes ensures exists k :: 0 <= k < |components| && n in components[k] {
      InOwnClass(h, n);
      var k := IndexOf(components, Class(h, n));
      assert n in components[k];
    }
  }

  lemma ClassAt(h: Graph<Node>, components: seq<Component>, k: nat) returns (n: Node)
    requires AreComponents(h, components) && k < |components|
    ensures n in h.nodes && components[k] == Class(h, n)
  {
    assert IsClass(h, components[k]);
    var m: Node :| m in h.nodes && components[k] == Class(h, m);
    n := m;
  }

  /** The component of a node: what it reaches and is reached from. */
  method ComponentOf(h: Graph<Node>, n: Node) returns (component: Component)
    requires WellFormed(h) && n in h.nodes
    ensures component == Class(h, n)
  {
    var descendants := Descendants(h, n);
    var reversed := Graph(h.nodes, Reversed(h.edges));
    var ancestors := Descendants(reversed, n);
    component := {n} + descendants * ancestors;
    forall m ensures m in component <==> m in Class(h, n) {
      ReachReversed(h.edges, n, m);
      ReachSelf(h.edges, n);
    }
  }

  /** The classes outside `remaining` have been listed, and those inside are whole. */
  ghost predicate Collected(h: Graph<Node>, components: seq<Component>, remaining: set<Node>) {
    && remaining <= h.nodes
    && (forall k | 0 <= k < |components| :: components[k] !! remaining && IsClass(h, components[k]))
    && (forall n | n in h.nodes :: if n in remaining then Class(h, n) <= remaining else Class(h, n) in components)
    && (forall j, k | 0 <= j < k < |components| :: components[j] != components[k])
  }

  method Components(h: Graph<Node>) returns (components: seq<Component>)
    requires WellFormed(h)
    ensures AreComponents(h, components)
  {
    components := [];
    var remaining := h.nodes;
    CollectedStart(h);
    while remaining != {}
      invariant remaining <= h.nodes && Collected(h, components, remaining)
      decreases |remaining|
    {
      hide Collected, Class;
      var n :| n in remaining;
      var component := ComponentOf(h, n);
      CollectedStep(h, components, remaining, n);
      components, remaining := components + [component], remaining - component;
    }
    CollectedAll(h, components);
  }

  lemma CollectedStart(h: Graph<Node>)
    ensures Collected(h, [], h.nodes)
  {
  }

  lemma CollectedAll(h: Graph<Node>, components: seq<Component>)
    requires Collected(h, components, {})
    ensures AreComponents(h, components)
  {
  }

  lemma CollectedStep(h: Graph<Node>, components: seq<Component>, remaining: set<Node>, n: Node)
    requires n in remaining && Collected(h, components, remaining)
    ensures var c := Class(h, n);
      Collected(h, components + [c], remaining - c) && |remaining - c| < |remaining| && remaining - c <= h.nodes
  {
    hide Class, Mutual, IsClass;
    var c := Class(h, n);
    InOwnClass(h, n);
    OneClass(h, n);
    Smaller(remaining - c, remaining, n);
    forall m | m in h.nodes
      ensures if m in remaining - c then Class(h, m) <= remaining - c else Class(h, m) in components + [c]
    {
      ListedBy(h, components, remaining, n, m);
    }
    var more := components + [c];
    forall k | 0 <= k < |more| ensures more[k] !! remaining - c && IsClass(h, more[k]) {
      if k < |components| { assert more[k] == components[k]; }
    }
    forall j, k | 0 <= j < k < |more| ensures more[j] != more[k] {
      if k == |components| { assert n !in components[j]; }
    }
  }

  lemma OneClass(h: Graph<Node>, n: Node)
    requires n in h.nodes
    ensures IsClass(h, Class(h, n))
  {
  }

  lemma ListedBy(h: Graph<Node>, components: seq<Component>, remaining: set<Node>, n: Node, m: Node)
    requires n in remaining && Collected(h, components, remaining) && m in h.nodes
    ensures var c := Class(h, n);
      if m in remaining - c then Class(h, m) <= remaining - c else Class(h, m) in components + [c]
  {
    var c := Class(h, n);
    if m in c {
      MutualClasses(h, n, m);
      assert (components + [c])[|components|] == c;
    } else if m in remaining {
      InOwnClass(h, m);
      assert Class(h, m) != c;
      ClassesDisjoint(h, n, m);
    } else {
      hide Class;
      var k :| 0 <= k < |components| && components[k] == Class(h, m);
      assert (components + [c])[k] == Class(h, m);
    }
  }

  // ---- the quotient --------------------------------------------------------------------------

  /** Some raw edge leads from one component to another. */
  predicate Joined(edges: set<(Node, Node)>, c: Component, d: Component) {
    c != d && exists e | e in edges :: e.0 in c && e.1 in d
  }

  ghost predicate IsQuotient(g: Graph<Node>, components: seq<Component>, dag: Graph<Component>) {
    && (forall c :: c in dag.nodes <==> c in components)
    && (forall c, d :: (c, d) in dag.edges <==> c in components && d in components && Joined(g.edges, c, d))
  }

  /** `byNode` gives the component, among the first `count`, of each of their nodes. */
  ghost predicate Indexed(components: seq<Component>, count: nat, byNode: map<Node, nat>)
    requires count <= |components|
  {
    && (forall n | n in byNode :: byNode[n] < count && n in components[byNode[n]])
    && (forall k, n | 0 <= k < count && n in components[k] :: n in byNode)
  }

  /** The place of each node's component among them, as `component_map` indexes it. */
  method ByNode(nodes: set<Node>, components: seq<Component>) returns (byNode: map<Node, nat>)
    requires Partition(nodes, components)
    ensures Indexed(components, |components|, byNode) && forall n | n in nodes :: n in byNode
  {
    hide Partition;
    byNode := map[];
    for k := 0 to |components|
      invariant Indexed(components, k, byNode)
    {
      var more := map n | n in components[k] :: k;
      byNode := byNode + more;
    }
    AllIndexed(nodes, components, byNode);
  }

  lemma AllIndexed(nodes: set<Node>, components: seq<Component>, byNode: map<Node, nat>)
    requires Partition(nodes, components) && Indexed(components, |components|, byNode)
    ensures forall n | n in nodes :: n in byNode
  {
  }

  /** The quotient edges that the raw edges `edges` give. */
  ghost predicate Quotients(edges: set<(Node, Node)>, components: seq<Component>,
      quotient: set<(Component, Component)>)
  {
    forall c, d :: (c, d) in quotient <==> c in components && d in components && Joined(edges, c, d)
  }

  /** `component_dag`. */
  method ComponentDag(g: Graph<Node>, components: seq<Component>) returns (dag: Graph<Component>)
    requires WellFormed(g) && Partition(g.nodes, components)
    ensures IsQuotient(g, components, dag) && WellFormed(dag)
  {
    hide Partition, Quotients;
    var byNode := ByNode(g.nodes, components);
    var nodes := set k | 0 <= k < |components| :: components[k];
    var edges: set<(Component, Component)> := {};
    var todo := g.edges;
    QuotientStart(components);
    assert g.edges - todo == {};
    while todo != {}
      invariant todo <= g.edges && Quotients(g.edges - todo, components, edges)
      decreases |todo|
    {
      var e :| e in todo;
      var start, end := components[byNode[e.0]], components[byNode[e.1]];
      QuotientStep(g.nodes, g.edges - todo, e, components, edges, byNode[e.0], byNode[e.1]);
      assert g.edges - (todo - {e}) == g.edges - todo + {e};
      if start != end { edges := edges + {(start, end)}; }
      todo := todo - {e};
    }
    assert g.edges - todo == g.edges;
    dag := Graph(nodes, edges);
    QuotientAll(g, components, dag);
  }

  lemma QuotientStart(components: seq<Component>)
    ensures Quotients({}, components, {})
  {
  }

  lemma QuotientAll(g: Graph<Node>, components: seq<Component>, dag: Graph<Component>)
    requires Quotients(g.edges, components, dag.edges) && dag.nodes == set k | 0 <= k < |components| :: components[k]
    ensures IsQuotient(g, components, dag) && WellFormed(dag)
  {
    forall c ensures c in dag.nodes <==> c in components {
      if c in components { var k :| 0 <= k < |components| && components[k] == c; }
    }
    hide Joined;
  }

  lemma QuotientStep(nodes: set<Node>, done: set<(Node, Node)>, e: (Node, Node), components: seq<Component>,
                     quotient: set<(Component, Component)>, j: nat, k: nat)
    requires Partition(nodes, components) && Quotients(done, components, quotient)
    requires j < |components| && k < |components| && e.0 in components[j] && e.1 in components[k]
    ensures Quotients(done + {e}, components,
                      if components[j] == components[k] then quotient else quotient + {(components[j], components[k])})
  {
    hide Quotients, Partition, Parts, Apart, Covering, Joined;
    var more := if components[j] == components[k] then quotient else quotient + {(components[j], components[k])};
    forall c, d ensures (c, d) in more <==> c in components && d in components && Joined(done + {e}, c, d) {
      assert (c, d) in quotient <==> c in components && d in components && Joined(done, c, d) by {
        QuotientAt(done, components, quotient, c, d);
      }
      if c in components && d in components { JoinedStep(nodes, done, e, components, j, k, c, d); }
    }
    QuotientsFrom(done + {e}, components, more);
  }

  lemma QuotientAt(edges: set<(Node, Node)>, components: seq<Component>, quotient: set<(Component, Component)>,
      c: Component, d: Component)
    requires Quotients(edges, components, quotient)
    ensures (c, d) in quotient <==> c in components && d in components && Joined(edges, c, d)
  {
  }

  lemma QuotientsFrom(edges: set<(Node, Node)>, components: seq<Component>, quotient: set<(Component, Component)>)
    requires forall c, d :: (c, d) in quotient <==> c in components && d in components && Joined(edges, c, d)
    ensures Quotients(edges, components, quotient)
  {
  }

  lemma JoinedStep(nodes: set<Node>, done: set<(Node, Node)>, e: (Node, Node), components: seq<Component>,
                   j: nat, k: nat, c: Component, d: Component)
    requires Partition(nodes, components)
    requires j < |components| && k < |components| && e.0 in components[j] && e.1 in components[k]
    requires c in components && d in components
    ensures Joined(done + {e}, c, d) <==> Joined(done, c, d) || (c == components[j] && d == components[k] && c != d)
  {
    hide Partition, Parts, Apart, Covering;
    var a := IndexOf(components, c);
    var b := IndexOf(components, d);
    SamePlace(nodes, components, a, j, e.0);
    SamePlace(nodes, components, b, k, e.1);
    if Joined(done, c, d) {
      var x :| x in done && x.0 in c && x.1 in d;
      assert x in done + {e};
    }
    if c == components[j] && d == components[k] && c != d { assert e in done + {e}; }
    if Joined(done + {e}, c, d) {
      var x :| x in done + {e} && x.0 in c && x.1 in d;
    }
  }

  lemma SamePlace(nodes: set<Node>, components: seq<Component>, a: nat, b: nat, x: Node)
    requires Partition(nodes, components) && a < |components| && b < |components|
    ensures x in components[a] && x in components[b] ==> a == b
  {
    hide Parts, Covering;
  }
}
