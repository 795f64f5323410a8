/** `_get_edge_timestamps` and `_time_span_hours` of backend/graph_engine.py, and the velocity
    bonuses the scorer derives from a span. Timestamps are whole seconds, so a span below
    `h` hours is a difference below `h * 3600` seconds. */
module Temporal {
  import opened Accounts
  import opened Ledger

  /** The timestamps of an edge's transactions, in order. */
  function Stamps(txns: seq<TxnRecord>): (r: seq<int>)
    ensures |r| == |txns| && forall k :: 0 <= k < |r| ==> r[k] == txns[k].ts
  {
    seq(|txns|, k requires 0 <= k < |txns| => txns[k].ts)
  }

  /** The timestamps of edge u -> v, none when there is no such edge. */
  function HopStamps(g: Graph, u: Account, v: Account): seq<int>
  {
    if (u, v) in g.edges then Stamps(g.edges[(u, v)].txns) else []
  }

  /** The hops path[0] -> path[1], path[1] -> path[2], ... in order. */
  function PathStamps(g: Graph, path: seq<Account>): seq<int>
    decreases |path|
  {
    if |path| < 2 then [] else HopStamps(g, path[0], path[1]) + PathStamps(g, path[1..])
  }

  /** `_get_edge_timestamps(G, path, is_cycle)`: the hops along `path`, then, for a cycle of at
      least two accounts, the closing hop from the last back to the first. */
  function EdgeTimestamps(g: Graph, path: seq<Account>, isCycle: bool): seq<int>
  {
    PathStamps(g, path) +
      (if isCycle && |path| >= 2 then HopStamps(g, path[|path| - 1], path[0]) else [])
  }

  /** The number of transactions on edge u -> v (0 when there is none). */
  function HopCount(g: Graph, u: Account, v: Account): nat
  {
    if (u, v) in g.edges then g.edges[(u, v)].count else 0
  }

  function PathCount(g: Graph, path: seq<Account>): nat
    decreases |path|
  {
    if |path| < 2 then 0 else HopCount(g, path[0], path[1]) + PathCount(g, path[1..])
  }

  /** The list holds one timestamp per transaction on the path's hops, which is what a ring's
      `transaction_count` reports. */
  lemma {:induction false} PathStampsCount(g: Graph, path: seq<Account>)
    requires Valid(g)
    ensures |PathStamps(g, path)| == PathCount(g, path)
    decreases |path|
  {
    if |path| >= 2 {
      PathStampsCount(g, path[1..]);
      if (path[0], path[1]) in g.edges {
        assert EdgeConsistent(g.edges[(path[0], path[1])]);
      }
    }
  }

  lemma EdgeTimestampsCount(g: Graph, path: seq<Account>, isCycle: bool)
    requires Valid(g)
    ensures |EdgeTimestamps(g, path, isCycle)| == PathCount(g, path) +
              (if isCycle && |path| >= 2 then HopCount(g, path[|path| - 1], path[0]) else 0)
  {
    PathStampsCount(g, path);
    if isCycle && |path| >= 2 && (path[|path| - 1], path[0]) in g.edges {
      assert EdgeConsistent(g.edges[(path[|path| - 1], path[0])]);
    }
  }

  /** A timestamp is on the list exactly when some transaction of some hop of the path has it. */
  lemma {:induction false} PathStampsMember(g: Graph, path: seq<Account>, t: int)
    ensures t in PathStamps(g, path) <==>
              exists k :: 0 <= k < |path| - 1 && t in HopStamps(g, path[k], path[k + 1])
    decreases |path|
  {
    if |path| >= 2 {
      PathStampsMember(g, path[1..], t);
      if t in PathStamps(g, path[1..]) {
        var k :| 0 <= k < |path[1..]| - 1 && t in HopStamps(g, path[1..][k], path[1..][k + 1]);
        assert t in HopStamps(g, path[k + 1], path[k + 2]);
      }
      if exists k :: 0 <= k < |path| - 1 && t in HopStamps(g, path[k], path[k + 1]) {
        var k :| 0 <= k < |path| - 1 && t in HopStamps(g, path[k], path[k + 1]);
        if k > 0 {
          assert t in HopStamps(g, path[1..][k - 1], path[1..][k]);
        }
      }
    }
  }

  // ----- the span -----

  /** `_time_span_hours`: infinite below two timestamps, else latest minus earliest. */
  datatype Span = Unbounded | Seconds(d: int)

  function Earliest(ts: seq<int>): (m: int)
    requires ts != []
    ensures m in ts && forall t :: t in ts ==> m <= t
  {
    if |ts| == 1 then ts[0]
    else
      var m := Earliest(ts[1..]);
      assert forall t :: t in ts ==> t == ts[0] || t in ts[1..];
      if ts[0] <= m then ts[0] else m
  }

  function Latest(ts: seq<int>): (m: int)
    requires ts != []
    ensures m in ts && forall t :: t in ts ==> t <= m
  {
    if |ts| == 1 then ts[0]
    else
      var m := Latest(ts[1..]);
      assert forall t :: t in ts ==> t == ts[0] || t in ts[1..];
      if ts[0] >= m then ts[0] else m
  }

  /** The span: the last minus the first of the sorted timestamps. */
  function TimeSpan(ts: seq<int>): (r: Span)
    ensures r.Unbounded? <==> |ts| < 2
    ensures r.Seconds? ==> r.d >= 0
  {
    if |ts| < 2 then Unbounded else Seconds(Latest(ts) - Earliest(ts))
  }

  /** A finite span is the largest difference between two of the timestamps. */
  lemma TimeSpanSpec(ts: seq<int>)
    ensures TimeSpan(ts).Seconds? ==> forall a, b :: a in ts && b in ts ==> b - a <= TimeSpan(ts).d
    ensures TimeSpan(ts).Seconds? ==> exists a, b :: a in ts && b in ts && b - a == TimeSpan(ts).d
  {
  }

  /** `span < hours`, with an infinite span never below. */
  predicate Below(s: Span, hours: nat)
  {
    s.Seconds? && s.d < hours * 3600
  }

  /** The integer comparison is the source's comparison of `seconds / 3600` with the hours. */
  lemma BelowIsHours(s: Span, hours: nat)
    ensures Below(s, hours) <==> s.Seconds? && (s.d as real) / 3600.0 < hours as real
  {
  }

  /** The cycle bonus: 15 below a day, 5 below three days, otherwise none. */
  function CycleBonus(s: Span): (b: int)
    ensures b in {0, 5, 15}
    ensures b == 15 <==> Below(s, 24)
    ensures b == 5 <==> !Below(s, 24) && Below(s, 72)
  {
    if Below(s, 24) then 15 else if Below(s, 72) then 5 else 0
  }

  /** The shell bonus: 10 below a day, otherwise none. */
  function ShellBonus(s: Span): (b: int)
    ensures b in {0, 10}
    ensures b == 10 <==> Below(s, 24)
  {
    if Below(s, 24) then 10 else 0
  }

  /** A ring earns the top cycle bonus exactly when it has at least two timestamps and all of
      them fall within less than a day of each other; a ring with one timestamp or none earns
      no bonus at all. */
  lemma CycleBonusWithinDay(ts: seq<int>)
    ensures CycleBonus(TimeSpan(ts)) == 15 <==>
              |ts| >= 2 && forall a, b :: a in ts && b in ts ==> b - a < 86400
    ensures |ts| < 2 ==> CycleBonus(TimeSpan(ts)) == 0 && ShellBonus(TimeSpan(ts)) == 0
  {
    TimeSpanSpec(ts);
    if |ts| >= 2 && forall a, b :: a in ts && b in ts ==> b - a < 86400 {
      assert Latest(ts) - Earliest(ts) < 86400;
    }
  }
}
