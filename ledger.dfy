/** The transaction graph of backend/graph_engine.py (`build_graph`): one directed edge per
    ordered (sender, receiver) pair, holding that pair's transactions, their running total and
    their count. The graph is a networkx DiGraph: nodes in first-insertion order, successors
    and predecessors of a node in the order their edges were first created. */
module Ledger {
  import opened Accounts

  /** One parsed CSV row. Timestamps are whole seconds; amounts are exact reals. */
  datatype Txn = Txn(id: string, sender: string, receiver: string, amount: real, ts: int)

  /** The per-transaction record an edge keeps. */
  datatype TxnRecord = TxnRecord(id: string, amount: real, ts: int)

  datatype Edge = Edge(txns: seq<TxnRecord>, total: real, count: nat)

  datatype Graph = Graph(
    nodes: seq<Account>,
    succ: map<Account, seq<Account>>,
    pred: map<Account, seq<Account>>,
    edges: map<(Account, Account), Edge>)

  const EmptyGraph := Graph([], map[], map[], map[])

  // ----- str.strip() -----

  /** The characters Python's `str.isspace` accepts. */
  predicate IsSpace(c: char)
  {
    ('\t' <= c <= '\r') || ('\U{1c}' <= c <= ' ') || c == '\U{85}' || c == '\U{a0}' ||
    c == '\U{1680}' || ('\U{2000}' <= c <= '\U{200a}') || c == '\U{2028}' || c == '\U{2029}' ||
    c == '\U{202f}' || c == '\U{205f}' || c == '\U{3000}'
  }

  function TrimLeft(s: string): string
  {
    if s != [] && IsSpace(s[0]) then TrimLeft(s[1..]) else s
  }

  function TrimRight(s: string): string
  {
    if s != [] && IsSpace(s[|s| - 1]) then TrimRight(s[..|s| - 1]) else s
  }

  /** `s.strip()`: the infix of `s` left after removing leading and trailing whitespace. */
  function Strip(s: string): (r: string)
  {
    TrimRight(TrimLeft(s))
  }

  /** Every character of `t` is whitespace. */
  predicate Blank(t: string)
  {
    t == [] || (IsSpace(t[0]) && Blank(t[1..]))
  }

  lemma {:induction false} BlankSnoc(t: string, c: char)
    requires Blank(t) && IsSpace(c)
    ensures Blank(t + [c])
    decreases |t|
  {
    if t == [] {
      assert (t + [c])[1..] == [];
    } else {
      BlankSnoc(t[1..], c);
      assert (t + [c])[1..] == t[1..] + [c];
    }
  }

  /** `lstrip` drops a blank prefix: what remains is the suffix of the same length. */
  lemma {:induction false} TrimLeftSpec(s: string)
    ensures |TrimLeft(s)| <= |s|
    ensures TrimLeft(s) == s[|s| - |TrimLeft(s)|..] && Blank(s[..|s| - |TrimLeft(s)|])
    ensures TrimLeft(s) == [] || !IsSpace(TrimLeft(s)[0])
  {
    var t := TrimLeft(s);
    if s != [] && IsSpace(s[0]) {
      assert t == TrimLeft(s[1..]);
      TrimLeftSpec(s[1..]);
      var k := |s| - |t|;
      assert s[1..][k - 1..] == s[k..];
      assert s[..k][1..] == s[1..][..k - 1];
    } else {
      assert t == s;
      assert s[..0] == [] && s == s[0..];
    }
  }

  /** `rstrip` drops a blank suffix: what remains is the prefix of the same length. */
  lemma {:induction false} TrimRightSpec(s: string)
    ensures |TrimRight(s)| <= |s|
    ensures TrimRight(s) == s[..|TrimRight(s)|] && Blank(s[|TrimRight(s)|..])
    ensures TrimRight(s) == [] || !IsSpace(TrimRight(s)[|TrimRight(s)| - 1])
  {
    var t := TrimRight(s);
    if s != [] && IsSpace(s[|s| - 1]) {
      var p := s[..|s| - 1];
      assert t == TrimRight(p);
      TrimRightSpec(p);
      var k := |t|;
      assert p[..k] == s[..k];
      assert s[k..] == p[k..] + [s[|s| - 1]];
      BlankSnoc(p[k..], s[|s| - 1]);
    } else {
      assert t == s;
      assert s[|s|..] == [] && s == s[..|s|];
    }
  }

  /** `strip` keeps a contiguous middle part of the id and drops only whitespace around it. */
  lemma StripSpec(s: string)
    ensures exists a, b :: 0 <= a <= b <= |s| && Strip(s) == s[a..b] && Blank(s[..a]) && Blank(s[b..])
  {
    var t := TrimLeft(s);
    TrimLeftSpec(s);
    var a := |s| - |t|;
    TrimRightSpec(t);
    var k := |TrimRight(t)|;
    assert t[..k] == s[a..a + k] && t[k..] == s[a + k..];
    assert Strip(s) == s[a..a + k] && Blank(s[..a]) && Blank(s[a + k..]);
  }

  /** `strip` leaves no whitespace at either end. */
  lemma StripEnds(s: string)
    ensures Strip(s) != [] ==> !IsSpace(Strip(s)[0]) && !IsSpace(Strip(s)[|Strip(s)| - 1])
  {
    var t := TrimLeft(s);
    TrimLeftSpec(s);
    TrimRightSpec(t);
    if Strip(s) != [] {
      assert Strip(s) == t[..|Strip(s)|];
      assert Strip(s)[0] == t[0];
    }
  }

  // ----- the graph operations networkx performs -----

  function Record(t: Txn): TxnRecord
  {
    TxnRecord(t.id, t.amount, t.ts)
  }

  function SumAmounts(txns: seq<TxnRecord>): real
  {
    if txns == [] then 0.0 else SumAmounts(txns[..|txns| - 1]) + txns[|txns| - 1].amount
  }

  /** `G.add_node(n)` as `add_edge` does it: a new node gets empty adjacency. */
  function AddNode(g: Graph, n: Account): Graph
  {
    if n in g.succ then g
    else g.(nodes := g.nodes + [n], succ := g.succ[n := []], pred := g.pred[n := []])
  }

  /** The well-formedness networkx maintains, plus the edge attribute invariant:
      every edge's `count` and `total_amount` are those of its transaction list. */
  ghost predicate Valid(g: Graph)
  {
    NodesOk(g) && AdjacencyOk(g) && AttributesOk(g)
  }

  /** Every node has an adjacency entry: the part of `Valid` that lookups by node need. */
  ghost predicate Indexed(g: Graph)
  {
    forall n :: n in g.nodes ==> n in g.succ && n in g.pred
  }

  lemma ValidIndexed(g: Graph)
    requires Valid(g)
    ensures Indexed(g)
  {
  }

  ghost predicate NodesOk(g: Graph)
  {
    && NoDup(g.nodes)
    && (forall n :: n in g.succ <==> n in g.nodes)
    && (forall n :: n in g.pred <==> n in g.nodes)
  }

  ghost predicate AdjacencyOk(g: Graph)
  {
    && (forall n :: n in g.succ ==> NoDup(g.succ[n]))
    && (forall n :: n in g.pred ==> NoDup(g.pred[n]))
    && (forall u, v :: (u, v) in g.edges <==> u in g.succ && v in g.succ[u])
    && (forall u, v :: (u, v) in g.edges <==> v in g.pred && u in g.pred[v])
  }

  ghost predicate AttributesOk(g: Graph)
  {
    forall k :: k in g.edges ==> EdgeConsistent(g.edges[k])
  }

  ghost predicate EdgeConsistent(e: Edge)
  {
    e.count == |e.txns| && e.count >= 1 && e.total == SumAmounts(e.txns)
  }

  /** The body of `build_graph`'s row loop: append to the pair's edge, or create it. */
  function AddTxn(g: Graph, t: Txn): Graph
    requires Valid(g)
  {
    var u := Strip(t.sender);
    var v := Strip(t.receiver);
    if (u, v) in g.edges then
      var e := g.edges[(u, v)];
      g.(edges := g.edges[(u, v) := Edge(e.txns + [Record(t)], e.total + t.amount, e.count + 1)])
    else
      var g1 := AddNode(AddNode(g, u), v);
      g1.(succ := g1.succ[u := g1.succ[u] + [v]],
          pred := g1.pred[v := g1.pred[v] + [u]],
          edges := g1.edges[(u, v) := Edge([Record(t)], t.amount, 1)])
  }

  lemma AddNodeValid(g: Graph, n: Account)
    requires Valid(g)
    ensures Valid(AddNode(g, n)) && n in AddNode(g, n).nodes
    ensures AddNode(g, n).edges == g.edges
  {
    if n !in g.succ {
      var g' := AddNode(g, n);
      assert n !in g.nodes;
      assert NodesOk(g');
      assert forall u, v :: (u, v) in g.edges ==> u != n && v != n;
      assert AdjacencyOk(g');
    }
  }

  lemma AppendRecordConsistent(e: Edge, t: Txn)
    requires EdgeConsistent(e)
    ensures EdgeConsistent(Edge(e.txns + [Record(t)], e.total + t.amount, e.count + 1))
  {
    assert (e.txns + [Record(t)])[..|e.txns|] == e.txns;
  }

  /** The graph after `add_edge(u, v)` creates a new edge between existing nodes. */
  function WithNewEdge(g1: Graph, u: Account, v: Account, t: Txn): Graph
    requires u in g1.succ && v in g1.pred
  {
    g1.(succ := g1.succ[u := g1.succ[u] + [v]],
        pred := g1.pred[v := g1.pred[v] + [u]],
        edges := g1.edges[(u, v) := Edge([Record(t)], t.amount, 1)])
  }

  lemma NewEdgeAdjacency(g1: Graph, u: Account, v: Account, t: Txn)
    requires Valid(g1) && u in g1.nodes && v in g1.nodes && (u, v) !in g1.edges
    ensures NodesOk(WithNewEdge(g1, u, v, t)) && AdjacencyOk(WithNewEdge(g1, u, v, t))
  {
    var g' := WithNewEdge(g1, u, v, t);
    assert NodesOk(g');
    assert v !in g1.succ[u] && u !in g1.pred[v];
    NoDupSnoc(g1.succ[u], v);
    NoDupSnoc(g1.pred[v], u);
    NewEdgeSucc(g1, u, v, t);
    NewEdgePred(g1, u, v, t);
  }

  lemma NewEdgeSucc(g1: Graph, u: Account, v: Account, t: Txn)
    requires Valid(g1) && u in g1.nodes && v in g1.nodes && (u, v) !in g1.edges
    ensures forall a, b :: (a, b) in WithNewEdge(g1, u, v, t).edges <==>
      a in WithNewEdge(g1, u, v, t).succ && b in WithNewEdge(g1, u, v, t).succ[a]
  {
  }

  lemma NewEdgePred(g1: Graph, u: Account, v: Account, t: Txn)
    requires Valid(g1) && u in g1.nodes && v in g1.nodes && (u, v) !in g1.edges
    ensures forall a, b :: (a, b) in WithNewEdge(g1, u, v, t).edges <==>
      b in WithNewEdge(g1, u, v, t).pred && a in WithNewEdge(g1, u, v, t).pred[b]
  {
  }

  lemma NewEdgeValid(g1: Graph, u: Account, v: Account, t: Txn)
    requires Valid(g1) && u in g1.nodes && v in g1.nodes && (u, v) !in g1.edges
    ensures Valid(WithNewEdge(g1, u, v, t))
  {
    NewEdgeAdjacency(g1, u, v, t);
    assert SumAmounts([Record(t)]) == t.amount by {
      assert [Record(t)][..0] == [];
    }
    assert AttributesOk(WithNewEdge(g1, u, v, t));
  }

  lemma AddTxnValid(g: Graph, t: Txn)
    requires Valid(g)
    ensures Valid(AddTxn(g, t))
  {
    var u := Strip(t.sender);
    var v := Strip(t.receiver);
    if (u, v) in g.edges {
      AppendRecordConsistent(g.edges[(u, v)], t);
      var g' := AddTxn(g, t);
      assert NodesOk(g') && AdjacencyOk(g');
    } else {
      AddNodeValid(g, u);
      AddNodeValid(AddNode(g, u), v);
      NewEdgeValid(AddNode(AddNode(g, u), v), u, v, t);
      assert AddTxn(g, t) == WithNewEdge(AddNode(AddNode(g, u), v), u, v, t);
    }
  }

  /** `build_graph(df)`: the graph after folding in every row, in order. Well-formed,
      whatever the rows. */
  function GraphOf(rows: seq<Txn>): (g: Graph)
    ensures Valid(g)
  {
    if rows == [] then EmptyGraph
    else
      var prev := GraphOf(rows[..|rows| - 1]);
      AddTxnValid(prev, rows[|rows| - 1]);
      AddTxn(prev, rows[|rows| - 1])
  }

  /** `build_graph` as the source writes it: a row loop mutating one graph object. */
  method BuildGraph(rows: seq<Txn>) returns (g: Graph)
    ensures g == GraphOf(rows)
    ensures Valid(g)
  {
    var builder := new GraphBuilder();
    for i := 0 to |rows|
      invariant builder.Snapshot() == GraphOf(rows[..i])
    {
      assert rows[..i + 1][..i] == rows[..i] && rows[..i + 1][i] == rows[i];
      assert GraphOf(rows[..i + 1]) == AddTxn(GraphOf(rows[..i]), rows[i]);
      builder.AddRow(rows[i]);
    }
    assert rows[..|rows|] == rows;
    g := builder.Snapshot();
    assert g == GraphOf(rows);
  }

  /** The DiGraph under construction, whose adjacency and edge attributes the row loop updates
      in place. */
  class GraphBuilder {
    var nodes: seq<Account>
    var succ: map<Account, seq<Account>>
    var pred: map<Account, seq<Account>>
    var edges: map<(Account, Account), Edge>

    function Snapshot(): Graph
      reads this
    {
      Graph(nodes, succ, pred, edges)
    }

    constructor ()
      ensures Snapshot() == EmptyGraph
    {
      nodes, succ, pred, edges := [], map[], map[], map[];
    }

    method AddRow(t: Txn)
      requires Valid(Snapshot())
      modifies this
      ensures Snapshot() == AddTxn(old(Snapshot()), t)
    {
      var u := Strip(t.sender);
      var v := Strip(t.receiver);
      if (u, v) in edges {
        var e := edges[(u, v)];
        edges := edges[(u, v) := Edge(e.txns + [Record(t)], e.total + t.amount, e.count + 1)];
      } else {
        if u !in succ {
          nodes, succ, pred := nodes + [u], succ[u := []], pred[u := []];
        }
        if v !in succ {
          nodes, succ, pred := nodes + [v], succ[v := []], pred[v := []];
        }
        succ := succ[u := succ[u] + [v]];
        pred := pred[v := pred[v] + [u]];
        edges := edges[(u, v) := Edge([Record(t)], t.amount, 1)];
      }
    }
  }

  // ----- degrees and edge listing -----

  /** `G.out_degree(n)`: the number of distinct receivers `n` has sent to. */
  function OutDegree(g: Graph, n: Account): nat
    requires n in g.succ
  {
    |g.succ[n]|
  }

  /** `G.in_degree(n)`: the number of distinct senders `n` has received from. */
  function InDegree(g: Graph, n: Account): nat
    requires n in g.pred
  {
    |g.pred[n]|
  }

  function Degree(g: Graph, n: Account): nat
    requires n in g.succ && n in g.pred
  {
    InDegree(g, n) + OutDegree(g, n)
  }

  /** Degrees count counterparties, not transactions. */
  lemma DegreesCountCounterparties(g: Graph, n: Account)
    requires Valid(g) && n in g.nodes
    ensures OutDegree(g, n) == |set k | k in g.edges && k.0 == n :: k.1|
    ensures InDegree(g, n) == |set k | k in g.edges && k.1 == n :: k.0|
  {
    NoDupCard(g.succ[n]);
    NoDupCard(g.pred[n]);
    assert (set k | k in g.edges && k.0 == n :: k.1) == Elems(g.succ[n]);
    assert (set k | k in g.edges && k.1 == n :: k.0) == Elems(g.pred[n]);
  }

  function OutPairs(u: Account, vs: seq<Account>): (r: seq<(Account, Account)>)
    ensures |r| == |vs|
    ensures forall k :: 0 <= k < |r| ==> r[k] == (u, vs[k])
  {
    if vs == [] then [] else [(u, vs[0])] + OutPairs(u, vs[1..])
  }

  function EdgeListFrom(g: Graph, ns: seq<Account>): seq<(Account, Account)>
    requires forall n :: n in ns ==> n in g.succ
  {
    if ns == [] then [] else OutPairs(ns[0], g.succ[ns[0]]) + EdgeListFrom(g, ns[1..])
  }

  /** `G.edges()`: node by node in insertion order, each node's successors in order. */
  function EdgeList(g: Graph): seq<(Account, Account)>
    requires Valid(g)
  {
    EdgeListFrom(g, g.nodes)
  }

  lemma {:induction false} EdgeListFromSpec(g: Graph, ns: seq<Account>)
    requires Valid(g) && NoDup(ns) && forall n :: n in ns ==> n in g.succ
    ensures NoDup(EdgeListFrom(g, ns))
    ensures forall u, v :: (u, v) in EdgeListFrom(g, ns) <==> u in ns && (u, v) in g.edges
  {
    if ns != [] {
      var head := OutPairs(ns[0], g.succ[ns[0]]);
      var rest := EdgeListFrom(g, ns[1..]);
      EdgeListFromSpec(g, ns[1..]);
      assert forall k :: 0 <= k < |head| ==> head[k].0 == ns[0];
      assert forall k :: 0 <= k < |rest| ==> rest[k].0 in ns[1..] && rest[k].0 != ns[0] by {
        forall k | 0 <= k < |rest| ensures rest[k].0 in ns[1..] && rest[k].0 != ns[0] {
          assert rest[k] in rest;
        }
      }
      forall u, v ensures (u, v) in head <==> u == ns[0] && (u, v) in g.edges {
        if (u, v) in head {
          var k :| 0 <= k < |head| && head[k] == (u, v);
        }
        if u == ns[0] && (u, v) in g.edges {
          var k :| 0 <= k < |g.succ[u]| && g.succ[u][k] == v;
          assert head[k] == (u, v);
        }
      }
    }
  }

  /** Each ordered pair with an edge appears in `G.edges()` exactly once: a repeated
      (sender, receiver) pair never yields a second edge. */
  lemma EdgeListSpec(g: Graph)
    requires Valid(g)
    ensures NoDup(EdgeList(g))
    ensures Elems(EdgeList(g)) == g.edges.Keys
    ensures |EdgeList(g)| == |g.edges|
  {
    EdgeListFromSpec(g, g.nodes);
    forall k ensures k in Elems(EdgeList(g)) <==> k in g.edges {
      var (u, v) := k;
      assert (u, v) in g.edges ==> u in g.nodes;
    }
    NoDupCard(EdgeList(g));
  }

  // ----- what build_graph promises about its input -----

  /** The record list of the edge for (u, v): every row whose stripped endpoints are (u, v),
      in input order. */
  function PairRecords(rows: seq<Txn>, u: Account, v: Account): seq<TxnRecord>
  {
    if rows == [] then []
    else
      var last := rows[|rows| - 1];
      PairRecords(rows[..|rows| - 1], u, v)
        + (if Strip(last.sender) == u && Strip(last.receiver) == v then [Record(last)] else [])
  }

  /** What one row does to the edge of a given pair. */
  lemma AddTxnEdgeAt(g: Graph, t: Txn, u: Account, v: Account)
    requires Valid(g)
    ensures (Strip(t.sender), Strip(t.receiver)) != (u, v) ==>
              ((u, v) in AddTxn(g, t).edges <==> (u, v) in g.edges) &&
              ((u, v) in g.edges ==> AddTxn(g, t).edges[(u, v)] == g.edges[(u, v)])
    ensures (Strip(t.sender), Strip(t.receiver)) == (u, v) ==>
              (u, v) in AddTxn(g, t).edges &&
              AddTxn(g, t).edges[(u, v)].txns
                == (if (u, v) in g.edges then g.edges[(u, v)].txns else []) + [Record(t)]
  {
    AddNodeValid(g, Strip(t.sender));
    AddNodeValid(AddNode(g, Strip(t.sender)), Strip(t.receiver));
  }

  /** Every edge holds exactly the transactions of its ordered pair, in row order, and an
      edge exists exactly for the pairs that occur. */
  lemma {:induction false} EdgeHoldsPairRows(rows: seq<Txn>, u: Account, v: Account)
    ensures (u, v) in GraphOf(rows).edges <==> PairRecords(rows, u, v) != []
    ensures (u, v) in GraphOf(rows).edges ==> GraphOf(rows).edges[(u, v)].txns == PairRecords(rows, u, v)
  {
    if rows != [] {
      var prefix := rows[..|rows| - 1];
      EdgeHoldsPairRows(prefix, u, v);
      AddTxnEdgeAt(GraphOf(prefix), rows[|rows| - 1], u, v);
    }
  }

  function Seen(p: seq<Account>, x: Account): seq<Account>
  {
    if x in p then p else p + [x]
  }

  /** Python's dict-insertion order of first sightings. */
  function FirstSeen(xs: seq<Account>): (r: seq<Account>)
    ensures NoDup(r) && Elems(r) == Elems(xs)
  {
    if xs == [] then []
    else
      var p := FirstSeen(xs[..|xs| - 1]);
      var x := xs[|xs| - 1];
      assert Elems(xs) == Elems(xs[..|xs| - 1]) + {x};
      Seen(p, x)
  }

  /** What one row does to the node list. */
  lemma AddTxnNodes(g: Graph, t: Txn)
    requires Valid(g)
    ensures AddTxn(g, t).nodes == Seen(Seen(g.nodes, Strip(t.sender)), Strip(t.receiver))
  {
    var u, v := Strip(t.sender), Strip(t.receiver);
    if (u, v) in g.edges {
      assert u in g.nodes && v in g.nodes;
    } else {
      AddNodeValid(g, u);
    }
  }

  /** Each row's stripped sender then receiver, row after row. */
  function Endpoints(rows: seq<Txn>): seq<Account>
  {
    if rows == [] then []
    else
      var last := rows[|rows| - 1];
      Endpoints(rows[..|rows| - 1]) + [Strip(last.sender), Strip(last.receiver)]
  }

  /** The nodes are the ids that occur, in order of first appearance (sender before
      receiver within a row). */
  lemma {:induction false} NodesInFirstAppearanceOrder(rows: seq<Txn>)
    ensures GraphOf(rows).nodes == FirstSeen(Endpoints(rows))
  {
    if rows != [] {
      var prefix := rows[..|rows| - 1];
      var last := rows[|rows| - 1];
      var su, sv := Strip(last.sender), Strip(last.receiver);
      NodesInFirstAppearanceOrder(prefix);
      AddTxnNodes(GraphOf(prefix), last);
      var e := Endpoints(prefix);
      var e1 := e + [su];
      var e2 := Endpoints(rows);
      assert e2 == e + [su, sv];
      assert e2[..|e2| - 1] == e1;
      assert e1[..|e1| - 1] == e;
      calc {
        FirstSeen(e2);
        Seen(FirstSeen(e1), sv);
        Seen(Seen(FirstSeen(e), su), sv);
        Seen(Seen(GraphOf(prefix).nodes, su), sv);
        GraphOf(rows).nodes;
      }
    }
  }

  // ----- the counts sum to the number of rows -----

  ghost function CountTotal(m: map<(Account, Account), Edge>): int
    decreases |m|
  {
    if m == map[] then 0
    else
      var k :| k in m;
      m[k].count + CountTotal(m - {k})
  }

  lemma {:induction false} CountTotalRemove(m: map<(Account, Account), Edge>, k: (Account, Account))
    requires k in m
    ensures CountTotal(m) == m[k].count + CountTotal(m - {k})
    decreases |m|
  {
    var c :| c in m && CountTotal(m) == m[c].count + CountTotal(m - {c});
    if c != k {
      var m1 := m - {c};
      var m2 := m - {k};
      CountTotalRemove(m1, k);
      CountTotalRemove(m2, c);
      assert m1 - {k} == m2 - {c};
    }
  }

  lemma CountTotalPut(m: map<(Account, Account), Edge>, k: (Account, Account), e: Edge)
    ensures CountTotal(m[k := e]) == e.count + CountTotal(m - {k})
  {
    CountTotalRemove(m[k := e], k);
    assert m[k := e] - {k} == m - {k};
  }

  /** Folding in one row adds exactly one to the sum of all edge counts. */
  lemma AddTxnCountTotal(g: Graph, t: Txn)
    requires Valid(g)
    ensures CountTotal(AddTxn(g, t).edges) == CountTotal(g.edges) + 1
  {
    var u := Strip(t.sender);
    var v := Strip(t.receiver);
    var k := (u, v);
    if k in g.edges {
      var e := g.edges[k];
      var e' := Edge(e.txns + [Record(t)], e.total + t.amount, e.count + 1);
      assert AddTxn(g, t).edges == g.edges[k := e'];
      CountTotalPut(g.edges, k, e');
      CountTotalRemove(g.edges, k);
    } else {
      AddNodeValid(g, u);
      AddNodeValid(AddNode(g, u), v);
      var e' := Edge([Record(t)], t.amount, 1);
      assert AddTxn(g, t).edges == g.edges[k := e'];
      CountTotalPut(g.edges, k, e');
      assert g.edges - {k} == g.edges;
    }
  }

  /** The edge counts of the built graph add up to the number of rows. */
  lemma {:induction false} CountsSumToRows(rows: seq<Txn>)
    ensures CountTotal(GraphOf(rows).edges) == |rows|
  {
    if rows != [] {
      CountsSumToRows(rows[..|rows| - 1]);
      AddTxnCountTotal(GraphOf(rows[..|rows| - 1]), rows[|rows| - 1]);
    }
  }
}
