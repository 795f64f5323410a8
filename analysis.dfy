/** The `analyze` pipeline of backend/graph_engine.py:334-498: build the graph, run the three
    detectors and the legitimacy filter, score the accounts, then assemble the account rows,
    the ring list, the summary and the graph payload. CSV parsing is not part of this model:
    the parsed rows are the parameter `df`, and what the cycle enumerator yields is `raw`. */
module Analysis {
  import opened Accounts
  import opened Ledger
  import opened RingMerge
  import Cycles
  import Smurfing
  import Shells
  import Legitimacy
  import opened Scoring
  import opened Ranking
  import opened Viz

  datatype Summary = Summary(totalAccounts: nat, flagged: nat, ringsDetected: nat,
                             rowsProcessed: nat, isPartial: bool)

  /** The result dict, without `processing_time_seconds`. */
  datatype Report = Report(rows: seq<Row>, rings: seq<FraudRing>, summary: Summary,
                           nodes: seq<VizNode>, edges: seq<VizEdge>)

  /** `all_accounts`: the sender and receiver ids as parsed, before any stripping. */
  function RawIds(df: seq<Txn>): set<Account>
  {
    (set t | t in df :: t.sender) + (set t | t in df :: t.receiver)
  }

  /** `cycle_members`: every account of every merged cycle ring. */
  function CycleMembers(cs: seq<seq<Account>>): set<Account>
  {
    set c, a | c in cs && a in c :: a
  }

  /** `is_partial`: a truthy limit (given and non-zero) that the rows read reach. */
  function IsPartial(limit: Option<int>, rowsProcessed: nat): bool
  {
    limit.Some? && limit.value != 0 && rowsProcessed >= limit.value
  }

  function CycleRings(raw: seq<seq<Account>>): seq<seq<Account>>
  {
    Merged(Cycles.Candidates(raw, Cycles.MinCycleLen))
  }

  function SmurfRings(g: Graph): seq<Smurfing.SmurfRing>
    requires Valid(g)
  {
    Smurfing.SmurfRings(g, Smurfing.FanThreshold, Smurfing.WindowHours)
  }

  function ShellRings(g: Graph, exclude: set<Account>): seq<seq<Account>>
    requires Valid(g)
  {
    Shells.ValidClosed(g);
    Merged(Shells.ShellChains(g, Shells.MaxIntermediateDegree, Shells.MinHops, exclude))
  }

  /** `account_scores` and `fraud_rings` for the parsed rows. */
  function ScoredRun(df: seq<Txn>, raw: seq<seq<Account>>): Tally
  {
    var g := GraphOf(df);
    var cs := CycleRings(raw);
    Scored(g, cs, SmurfRings(g), ShellRings(g, CycleMembers(cs)), Legitimacy.LegitimateSet(g))
  }

  /** The whole result for the parsed rows `df`, the enumerator's cycles `raw` and `limit`. */
  function AnalysisOf(df: seq<Txn>, raw: seq<seq<Account>>, limit: Option<int>): Report
  {
    var g := GraphOf(df);
    var s := ScoredRun(df, raw);
    ScoredRunBoard(df, raw);
    var rows := Rows(s.board.order, s.board.info);
    Report(rows, s.rings,
           Summary(|RawIds(df)|, Flagged(rows), |s.rings|, |df|, IsPartial(limit, |df|)),
           VizNodes(g, s.board.info, s.rings), VizEdges(g))
  }

  /** The dict's insertion-order list has exactly its keys. */
  lemma ScoredRunBoard(df: seq<Txn>, raw: seq<seq<Account>>)
    ensures BoardOk(ScoredRun(df, raw).board)
    ensures forall a :: a in ScoredRun(df, raw).board.order ==> a in ScoredRun(df, raw).board.info
  {
    var g := GraphOf(df);
    var cs := CycleRings(raw);
    var b := ScoredRun(df, raw).board;
    ScoredKeys(g, cs, SmurfRings(g), ShellRings(g, CycleMembers(cs)), Legitimacy.LegitimateSet(g), "");
    forall a | a in b.order ensures a in b.info { assert a in Elems(b.order); }
  }

  // ----- what the report promises -----

  /** The account rows come sorted by descending score, then account id; every row's score lies
      in (0, 100], it lists no exception tag, and it names a ring of the report that hands its
      account that ring's id. */
  lemma RowsExplained(df: seq<Txn>, raw: seq<seq<Account>>, limit: Option<int>, r: Row)
    ensures Ranked(AnalysisOf(df, raw, limit).rows)
    ensures var rep := AnalysisOf(df, raw, limit);
            r in rep.rows ==>
              && 0 < r.score <= ScoreCap
              && Exception !in r.patterns
              && exists k :: 0 <= k < |rep.rings| && rep.rings[k].ringId == r.ringId && Holds(rep.rings[k], r.account)
  {
    var g := GraphOf(df);
    var cs := CycleRings(raw);
    var rs := SmurfRings(g);
    var ss := ShellRings(g, CycleMembers(cs));
    var legit := Legitimacy.LegitimateSet(g);
    var s := ScoredRun(df, raw);
    ScoredRunBoard(df, raw);
    RowsRanked(s.board.order, s.board.info);
    if r in AnalysisOf(df, raw, limit).rows {
      RowsMember(s.board.order, s.board.info, r);
      ScoredScore(g, cs, rs, ss, legit, r.account);
      ScoredIds(g, cs, rs, ss, legit, r.account);
      HeldIdsMember(s.rings, r.account, r.ringId);
    }
  }

  /** A row's `detected_patterns` are, sorted, the patterns its account collected ring by ring,
      without the exception tag. */
  lemma RowPatterns(df: seq<Txn>, raw: seq<seq<Account>>, limit: Option<int>, r: Row)
    ensures var g := GraphOf(df);
            var cs := CycleRings(raw);
            r in AnalysisOf(df, raw, limit).rows ==>
              r.patterns == SortedList(RawPatterns(g, cs, SmurfRings(g), ShellRings(g, CycleMembers(cs)), r.account))
  {
    var g := GraphOf(df);
    var cs := CycleRings(raw);
    var s := ScoredRun(df, raw);
    ScoredRunBoard(df, raw);
    if r in AnalysisOf(df, raw, limit).rows {
      RowsMember(s.board.order, s.board.info, r);
      ScoredPatterns(g, cs, SmurfRings(g), ShellRings(g, CycleMembers(cs)), Legitimacy.LegitimateSet(g), r.account);
    }
  }

  /** Which raw ids strip to a given node: the nodes are exactly the stripped raw ids. */
  lemma {:induction false} EndpointsMember(rows: seq<Txn>, x: Account)
    ensures x in Endpoints(rows) <==> exists t :: t in rows && (x == Strip(t.sender) || x == Strip(t.receiver))
    decreases |rows|
  {
    if rows != [] {
      var prefix := rows[..|rows| - 1];
      var last := rows[|rows| - 1];
      EndpointsMember(prefix, x);
      assert Endpoints(rows) == Endpoints(prefix) + [Strip(last.sender), Strip(last.receiver)];
      assert rows == prefix + [last];
      if x in Endpoints(rows) {
        if x in Endpoints(prefix) {
          var t :| t in prefix && (x == Strip(t.sender) || x == Strip(t.receiver));
          assert t in rows;
        } else {
          assert last in rows && (x == Strip(last.sender) || x == Strip(last.receiver));
        }
      }
      if exists t :: t in rows && (x == Strip(t.sender) || x == Strip(t.receiver)) {
        var t :| t in rows && (x == Strip(t.sender) || x == Strip(t.receiver));
        if t != last { assert t in prefix; }
      }
    }
  }

  /** Stripping never makes more ids than it is given. */
  lemma {:induction false} StripImageCard(s: set<string>)
    ensures |set x | x in s :: Strip(x)| <= |s|
    decreases |s|
  {
    if s != {} {
      var x :| x in s;
      StripImageCard(s - {x});
      assert (set y | y in s :: Strip(y)) == (set y | y in s - {x} :: Strip(y)) + {Strip(x)};
    }
  }

  /** `total_accounts_analyzed` counts the raw ids, so it is at least the number of graph
      nodes: ids that differ only in surrounding whitespace count twice there but make one node. */
  lemma TotalCoversNodes(df: seq<Txn>, raw: seq<seq<Account>>, limit: Option<int>)
    ensures AnalysisOf(df, raw, limit).summary.totalAccounts >= |GraphOf(df).nodes|
  {
    var g := GraphOf(df);
    var ids := RawIds(df);
    NodesInFirstAppearanceOrder(df);
    NoDupCard(g.nodes);
    forall x | x in Elems(g.nodes) ensures x in (set y | y in ids :: Strip(y)) {
      assert x in Endpoints(df);
      EndpointsMember(df, x);
      var t :| t in df && (x == Strip(t.sender) || x == Strip(t.receiver));
      assert t.sender in ids && t.receiver in ids;
    }
    SubsetCard(Elems(g.nodes), set y | y in ids :: Strip(y));
    StripImageCard(ids);
  }

  // ----- the pipeline as the source writes it -----

  /** `analyze(file_storage, limit)` once the CSV has been parsed into `df`. */
  method Analyze(df: seq<Txn>, raw: seq<seq<Account>>, limit: Option<int>) returns (report: Report)
    ensures report == AnalysisOf(df, raw, limit)
  {
    var rowsProcessed := |df|;
    var isPartial := false;
    if limit.Some? && limit.value != 0 && rowsProcessed >= limit.value {
      isPartial := true;
    }
    var g := BuildGraph(df);
    var allAccounts := RawIds(df);
    var order, info, rings := DetectAndScore(g, raw);
    assert Tally(Board(order, info), rings) == ScoredRun(df, raw);
    ScoredRunBoard(df, raw);
    var rows := BuildRows(order, info);
    var summary := Summary(|allAccounts|, Flagged(rows), |rings|, rowsProcessed, isPartial);
    var nodes, edges := BuildGraphViz(g, info, rings);
    report := Report(rows, rings, summary, nodes, edges);
  }

  /** The detector calls and the scoring loops of `analyze`, on the built graph. */
  method DetectAndScore(g: Graph, raw: seq<seq<Account>>)
    returns (order: seq<Account>, info: map<Account, Info>, rings: seq<FraudRing>)
    requires Valid(g)
    ensures var cs := CycleRings(raw);
            Tally(Board(order, info), rings)
              == Scored(g, cs, SmurfRings(g), ShellRings(g, CycleMembers(cs)), Legitimacy.LegitimateSet(g))
  {
    Shells.ValidClosed(g);
    var cycleRings := Cycles.DetectCycles(raw, Cycles.MinCycleLen);
    var smurfingRings := Smurfing.DetectSmurfing(g, Smurfing.FanThreshold, Smurfing.WindowHours);
    var cycleMembers := set c, a | c in cycleRings && a in c :: a;
    var shellRings := Shells.DetectShellNetworks(g, Shells.MaxIntermediateDegree, Shells.MinHops, cycleMembers);
    var legitimate := Legitimacy.IdentifyLegitimateAccounts(g);
    order, info, rings := ScoreAccounts(g, cycleRings, smurfingRings, shellRings, legitimate);
  }
}
