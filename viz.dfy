/** The graph payload of `_build_graph_viz` (backend/graph_engine.py:501-530): one node per graph
    node, carrying its score, whether it is suspicious, the ids of every ring that lists it and
    its degrees; one edge per graph edge, carrying its total amount and transaction count. */
module Viz {
  import opened Accounts
  import opened Ledger
  import opened Scoring

  datatype VizNode = VizNode(id: Account, suspicious: bool, score: int, ringIds: seq<string>,
                             inDegree: nat, outDegree: nat)

  datatype VizEdge = VizEdge(source: Account, target: Account, total: real, count: nat)

  /** `account_ring_map[a]`: the ids of the rings that list `a` among their members. */
  function MemberIds(rings: seq<FraudRing>, a: Account): set<string>
    decreases |rings|
  {
    if rings == [] then {}
    else
      var r := rings[|rings| - 1];
      MemberIds(rings[..|rings| - 1], a) + (if a in r.members then {r.ringId} else {})
  }

  /** `m.get(a, set())`. */
  function Lookup(m: map<Account, set<string>>, a: Account): set<string>
  {
    if a in m then m[a] else {}
  }

  /** `suspicious_set`: the accounts of `account_scores` with a positive score. */
  function Suspicious(info: map<Account, Info>): set<Account>
  {
    set a | a in info && info[a].score > 0
  }

  function NodeOf(g: Graph, info: map<Account, Info>, rings: seq<FraudRing>, n: Account): VizNode
    requires n in g.succ && n in g.pred
  {
    VizNode(n, n in Suspicious(info), ScoreOf(info, n), SortedList(MemberIds(rings, n)),
            InDegree(g, n), OutDegree(g, n))
  }

  /** The `nodes` list: one entry per graph node, in node order. */
  function VizNodes(g: Graph, info: map<Account, Info>, rings: seq<FraudRing>): seq<VizNode>
    requires Indexed(g)
  {
    seq(|g.nodes|, k requires 0 <= k < |g.nodes| => NodeOf(g, info, rings, g.nodes[k]))
  }

  function EdgeOf(g: Graph, p: (Account, Account)): VizEdge
    requires p in g.edges
  {
    VizEdge(p.0, p.1, g.edges[p].total, g.edges[p].count)
  }

  /** Every listed pair has an edge. */
  predicate AllEdges(g: Graph, ps: seq<(Account, Account)>)
  {
    forall k :: 0 <= k < |ps| ==> ps[k] in g.edges
  }

  function EdgesOf(g: Graph, ps: seq<(Account, Account)>): seq<VizEdge>
    requires AllEdges(g, ps)
  {
    seq(|ps|, k requires 0 <= k < |ps| => EdgeOf(g, ps[k]))
  }

  lemma EdgeListAllEdges(g: Graph)
    requires Valid(g)
    ensures AllEdges(g, EdgeList(g))
  {
    var ps := EdgeList(g);
    EdgeListSpec(g);
    forall k | 0 <= k < |ps| ensures ps[k] in g.edges { assert ps[k] in Elems(ps); }
  }

  /** The `edges` list: one entry per graph edge, in `G.edges()` order. */
  function VizEdges(g: Graph): seq<VizEdge>
    requires Valid(g)
  {
    EdgeListAllEdges(g);
    EdgesOf(g, EdgeList(g))
  }

  // ----- the ring map -----

  lemma {:induction false} MemberIdsMember(rings: seq<FraudRing>, a: Account, id: string)
    ensures id in MemberIds(rings, a) <==> exists k :: 0 <= k < |rings| && rings[k].ringId == id && a in rings[k].members
    decreases |rings|
  {
    if rings != [] {
      var init := rings[..|rings| - 1];
      MemberIdsMember(init, a, id);
      if exists k :: 0 <= k < |init| && init[k].ringId == id && a in init[k].members {
        var k :| 0 <= k < |init| && init[k].ringId == id && a in init[k].members;
        assert rings[k] == init[k];
      }
      if exists k :: 0 <= k < |rings| && rings[k].ringId == id && a in rings[k].members {
        var k :| 0 <= k < |rings| && rings[k].ringId == id && a in rings[k].members;
        if k < |init| { assert init[k] == rings[k]; }
      }
    }
  }

  /** Ring ids shown on a node against ring ids the account holds: a node shows the id of every
      ring that lists it, which includes every id the account holds; with distinct ids, a ring's
      id is shown exactly on its members. */
  lemma ShownIds(g: Graph, cs: seq<seq<Account>>, rs: seq<Smurfing.SmurfRing>, ss: seq<seq<Account>>,
                 legit: set<Account>, a: Account)
    ensures var s := Scored(g, cs, rs, ss, legit);
            && IdsOf(s.board.info, a) <= MemberIds(s.rings, a)
            && forall k :: 0 <= k < |s.rings| ==> (s.rings[k].ringId in MemberIds(s.rings, a) <==> a in s.rings[k].members)
  {
    var s := Scored(g, cs, rs, ss, legit);
    ScoredIds(g, cs, rs, ss, legit, a);
    ScoredRings(g, cs, rs, ss, legit);
    HeldShown(s.rings, a, IdsOf(s.board.info, a));
  }

  /** On rings with distinct ids, the ids an account holds are among those its node shows, and
      a ring's id is shown exactly on its members. */
  lemma HeldShown(rings: seq<FraudRing>, a: Account, held: set<string>)
    requires held == HeldIds(rings, a)
    requires forall i, j :: 0 <= i < j < |rings| ==> rings[i].ringId != rings[j].ringId
    ensures held <= MemberIds(rings, a)
    ensures forall k :: 0 <= k < |rings| ==> (rings[k].ringId in MemberIds(rings, a) <==> a in rings[k].members)
  {
    forall id | id in held ensures id in MemberIds(rings, a) {
      HeldIdsMember(rings, a, id);
      var k :| 0 <= k < |rings| && rings[k].ringId == id && Holds(rings[k], a);
      assert a in rings[k].members;
      MemberIdsMember(rings, a, id);
    }
    forall k | 0 <= k < |rings| ensures rings[k].ringId in MemberIds(rings, a) <==> a in rings[k].members {
      MemberIdsMember(rings, a, rings[k].ringId);
    }
  }

  /** The two listings part ways on cycle rings: a cycle member other than the last shows the
      ring's id on its graph node, yet holds no such id and so gets no account row for it. */
  lemma CycleIdShownNotHeld(g: Graph, cs: seq<seq<Account>>, rs: seq<Smurfing.SmurfRing>, ss: seq<seq<Account>>,
                            legit: set<Account>, k: nat, a: Account)
    requires var s := Scored(g, cs, rs, ss, legit);
             && k < |s.rings| && s.rings[k].patternType == Cycle
             && a in s.rings[k].members && a != s.rings[k].members[|s.rings[k].members| - 1]
    ensures var s := Scored(g, cs, rs, ss, legit);
            s.rings[k].ringId in MemberIds(s.rings, a) && s.rings[k].ringId !in IdsOf(s.board.info, a)
  {
    ScoredIds(g, cs, rs, ss, legit, a);
    ShownIds(g, cs, rs, ss, legit, a);
  }

  // ----- what the payload lists -----

  /** One node per graph node, in node order; a node is suspicious exactly when its score is
      positive; its ring ids are the sorted ids of the rings listing it; its degrees count its
      distinct counterparties. */
  lemma VizNodesSpec(g: Graph, info: map<Account, Info>, rings: seq<FraudRing>)
    requires Valid(g)
    ensures var ns := VizNodes(g, info, rings);
            && |ns| == |g.nodes|
            && forall k :: 0 <= k < |ns| ==> NodeFacts(g, info, rings, g.nodes[k], ns[k])
  {
    var ns := VizNodes(g, info, rings);
    forall k | 0 <= k < |ns| ensures NodeFacts(g, info, rings, g.nodes[k], ns[k]) {
      assert g.nodes[k] in g.nodes;
      VizNodeAt(g, info, rings, g.nodes[k]);
    }
  }

  /** What one entry of `nodes` says about node `n`. */
  ghost predicate NodeFacts(g: Graph, info: map<Account, Info>, rings: seq<FraudRing>, n: Account, node: VizNode)
  {
    && node.id == n
    && (node.suspicious <==> node.score > 0)
    && node.score == ScoreOf(info, n)
    && StrictlySorted(node.ringIds)
    && (forall id :: id in node.ringIds <==>
          exists j :: 0 <= j < |rings| && rings[j].ringId == id && n in rings[j].members)
    && node.outDegree == |set p | p in g.edges && p.0 == n :: p.1|
    && node.inDegree == |set p | p in g.edges && p.1 == n :: p.0|
  }

  lemma VizNodeAt(g: Graph, info: map<Account, Info>, rings: seq<FraudRing>, n: Account)
    requires Valid(g) && n in g.nodes
    ensures NodeFacts(g, info, rings, n, NodeOf(g, info, rings, n))
  {
    var node := NodeOf(g, info, rings, n);
    DegreesCountCounterparties(g, n);
    forall id ensures id in node.ringIds <==> exists j :: 0 <= j < |rings| && rings[j].ringId == id && n in rings[j].members {
      assert id in node.ringIds <==> id in Elems(node.ringIds);
      MemberIdsMember(rings, n, id);
    }
  }

  /** One edge per graph edge, none twice; each carries its transaction count and the sum of
      its amounts. */
  lemma VizEdgesSpec(g: Graph)
    requires Valid(g)
    ensures var es := VizEdges(g);
            && |es| == |g.edges|
            && (forall i, j :: 0 <= i < j < |es| ==> (es[i].source, es[i].target) != (es[j].source, es[j].target))
            && (forall u, v :: (u, v) in g.edges <==> exists k :: 0 <= k < |es| && es[k].source == u && es[k].target == v)
            && forall k :: 0 <= k < |es| ==>
                 && (es[k].source, es[k].target) in g.edges
                 && es[k].count == |g.edges[(es[k].source, es[k].target)].txns|
                 && es[k].total == SumAmounts(g.edges[(es[k].source, es[k].target)].txns)
  {
    EdgeListSpec(g);
    EdgeListAllEdges(g);
    EdgesOfSpec(g, EdgeList(g));
  }

  lemma EdgesOfSpec(g: Graph, ps: seq<(Account, Account)>)
    requires AllEdges(g, ps) && NoDup(ps) && Elems(ps) == g.edges.Keys && |ps| == |g.edges|
    requires AttributesOk(g)
    ensures var es := EdgesOf(g, ps);
            && |es| == |g.edges|
            && (forall i, j :: 0 <= i < j < |es| ==> (es[i].source, es[i].target) != (es[j].source, es[j].target))
            && (forall u, v :: (u, v) in g.edges <==> exists k :: 0 <= k < |es| && es[k].source == u && es[k].target == v)
            && forall k :: 0 <= k < |es| ==>
                 && (es[k].source, es[k].target) in g.edges
                 && es[k].count == |g.edges[(es[k].source, es[k].target)].txns|
                 && es[k].total == SumAmounts(g.edges[(es[k].source, es[k].target)].txns)
  {
    var es := EdgesOf(g, ps);
    forall k | 0 <= k < |es|
      ensures (es[k].source, es[k].target) == ps[k] && ps[k] in g.edges
      ensures es[k].count == |g.edges[ps[k]].txns| && es[k].total == SumAmounts(g.edges[ps[k]].txns)
    {
      EdgeAt(g, ps, k);
    }
    forall u, v | (u, v) in g.edges ensures exists k :: 0 <= k < |es| && es[k].source == u && es[k].target == v {
      assert (u, v) in Elems(ps);
      var k :| 0 <= k < |ps| && ps[k] == (u, v);
      assert es[k].source == u && es[k].target == v;
    }
  }

  /** The k-th payload edge carries the k-th pair and that edge's attributes. */
  lemma EdgeAt(g: Graph, ps: seq<(Account, Account)>, k: nat)
    requires AllEdges(g, ps) && AttributesOk(g) && k < |ps|
    ensures (EdgesOf(g, ps)[k].source, EdgesOf(g, ps)[k].target) == ps[k] && ps[k] in g.edges
    ensures EdgesOf(g, ps)[k].count == |g.edges[ps[k]].txns|
    ensures EdgesOf(g, ps)[k].total == SumAmounts(g.edges[ps[k]].txns)
  {
    assert ps[k] in g.edges;
    assert EdgeConsistent(g.edges[ps[k]]);
    assert EdgesOf(g, ps)[k] == EdgeOf(g, ps[k]);
  }

  // ----- the loops that build the payload -----

  /** `_build_graph_viz` as the source writes it: the ring map, then the node and edge loops. */
  method BuildGraphViz(g: Graph, info: map<Account, Info>, rings: seq<FraudRing>)
    returns (nodes: seq<VizNode>, edges: seq<VizEdge>)
    requires Valid(g)
    ensures nodes == VizNodes(g, info, rings)
    ensures edges == VizEdges(g)
  {
    var suspicious := set a | a in info && info[a].score > 0;
    var ringMap := RingMap(rings);
    nodes := [];
    for k := 0 to |g.nodes|
      invariant nodes == VizNodes(g, info, rings)[..k]
    {
      var n := g.nodes[k];
      assert n in g.nodes;
      var score := if n in info then info[n].score else 0;
      nodes := nodes + [VizNode(n, n in suspicious, score, SortedList(Lookup(ringMap, n)), InDegree(g, n), OutDegree(g, n))];
      assert VizNodes(g, info, rings)[..k + 1] == VizNodes(g, info, rings)[..k] + [VizNodes(g, info, rings)[k]];
    }
    edges := EdgePayload(g);
  }

  /** The `account_ring_map` loop: every member of every ring collects the ring's id. */
  method RingMap(rings: seq<FraudRing>) returns (m: map<Account, set<string>>)
    ensures forall a :: Lookup(m, a) == MemberIds(rings, a)
  {
    m := map[];
    for i := 0 to |rings|
      invariant forall a :: Lookup(m, a) == MemberIds(rings[..i], a)
    {
      var r := rings[i];
      ghost var m0 := m;
      for j := 0 to |r.members|
        invariant forall a :: Lookup(m, a) == Lookup(m0, a) + (if a in r.members[..j] then {r.ringId} else {})
      {
        var acc := r.members[j];
        var cur := if acc in m then m[acc] else {};
        m := m[acc := cur + {r.ringId}];
        assert forall a :: a in r.members[..j + 1] <==> a in r.members[..j] || a == acc;
      }
      assert r.members[..|r.members|] == r.members;
      assert rings[..i + 1][..i] == rings[..i] && rings[..i + 1][i] == r;
    }
    assert rings[..|rings|] == rings;
  }

  /** The edge loop over `G.edges(data=True)`. */
  method EdgePayload(g: Graph) returns (edges: seq<VizEdge>)
    requires Valid(g)
    ensures edges == VizEdges(g)
  {
    var ps := EdgeList(g);
    EdgeListAllEdges(g);
    edges := EdgeLoop(g, ps);
  }

  method EdgeLoop(g: Graph, ps: seq<(Account, Account)>) returns (edges: seq<VizEdge>)
    requires AllEdges(g, ps)
    ensures edges == EdgesOf(g, ps)
  {
    edges := [];
    for k := 0 to |ps|
      invariant edges == EdgesOf(g, ps)[..k]
    {
      var (u, v) := ps[k];
      var e := g.edges[(u, v)];
      edges := edges + [VizEdge(u, v, e.total, e.count)];
      assert EdgesOf(g, ps)[..k + 1] == EdgesOf(g, ps)[..k] + [EdgesOf(g, ps)[k]];
    }
  }
}
