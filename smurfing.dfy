/** `detect_smurfing` and `_find_best_window` of backend/graph_engine.py: a hub with enough
    distinct receivers (fan-out) or senders (fan-in) is a smurfing hub when, in its transactions
    sorted by time, some run spanning at most the window holds enough distinct counterparties. */
module Smurfing {
  import opened Accounts
  import opened Ledger

  /** The defaults `detect_smurfing` is called with. */
  const FanThreshold: int := 10
  const WindowHours: nat := 72

  /** One entry `{'peer': ..., 'ts': ...}` of a hub's transaction list. */
  datatype Peer = Peer(peer: Account, ts: int)

  datatype Kind = FanOut | FanIn

  /** One ring `{'type', 'hub', 'members'}`. */
  datatype SmurfRing = SmurfRing(kind: Kind, hub: Account, members: seq<Account>)

  // ----- gathering a hub's transactions -----

  /** The hub's counterparties in adjacency order: receivers for fan-out, senders for fan-in. */
  function Counterparties(g: Graph, hub: Account, kind: Kind): seq<Account>
    requires hub in g.succ && hub in g.pred
  {
    if kind == FanOut then g.succ[hub] else g.pred[hub]
  }

  /** The transactions between the hub and one counterparty, in the edge's order. */
  function EdgeTxns(g: Graph, hub: Account, kind: Kind, p: Account): seq<TxnRecord>
  {
    var key := if kind == FanOut then (hub, p) else (p, hub);
    if key in g.edges then g.edges[key].txns else []
  }

  function PeerEntries(p: Account, txns: seq<TxnRecord>): (r: seq<Peer>)
    ensures |r| == |txns| && forall k :: 0 <= k < |r| ==> r[k] == Peer(p, txns[k].ts)
  {
    seq(|txns|, k requires 0 <= k < |txns| => Peer(p, txns[k].ts))
  }

  function Gather(g: Graph, hub: Account, kind: Kind, ps: seq<Account>): seq<Peer>
    decreases |ps|
  {
    if ps == [] then []
    else PeerEntries(ps[0], EdgeTxns(g, hub, kind, ps[0])) + Gather(g, hub, kind, ps[1..])
  }

  /** The list `txns` built for a hub before sorting. */
  function HubTxns(g: Graph, hub: Account, kind: Kind): seq<Peer>
    requires hub in g.succ && hub in g.pred
  {
    Gather(g, hub, kind, Counterparties(g, hub, kind))
  }

  /** The two nested loops that build a hub's `txns`. */
  method GatherPeers(g: Graph, hub: Account, kind: Kind) returns (txns: seq<Peer>)
    requires hub in g.succ && hub in g.pred
    ensures txns == HubTxns(g, hub, kind)
  {
    var ps := Counterparties(g, hub, kind);
    txns := [];
    for k := 0 to |ps|
      invariant txns + Gather(g, hub, kind, ps[k..]) == HubTxns(g, hub, kind)
    {
      var records := EdgeTxns(g, hub, kind, ps[k]);
      GatherStep(g, hub, kind, ps, k);
      ghost var before := txns;
      txns := AppendEntries(txns, ps[k], records);
      Assoc(before, PeerEntries(ps[k], records), Gather(g, hub, kind, ps[k + 1..]));
    }
    assert ps[|ps|..] == [];
  }

  lemma GatherStep(g: Graph, hub: Account, kind: Kind, ps: seq<Account>, k: nat)
    requires k < |ps|
    ensures Gather(g, hub, kind, ps[k..])
            == PeerEntries(ps[k], EdgeTxns(g, hub, kind, ps[k])) + Gather(g, hub, kind, ps[k + 1..])
  {
    assert ps[k..][0] == ps[k] && ps[k..][1..] == ps[k + 1..];
  }

  /** The inner loop: one entry per transaction of one edge. */
  method AppendEntries(txns: seq<Peer>, p: Account, records: seq<TxnRecord>) returns (r: seq<Peer>)
    ensures r == txns + PeerEntries(p, records)
  {
    r := txns;
    for m := 0 to |records|
      invariant r == txns + PeerEntries(p, records[..m])
    {
      assert PeerEntries(p, records[..m + 1]) == PeerEntries(p, records[..m]) + [Peer(p, records[m].ts)];
      r := r + [Peer(p, records[m].ts)];
    }
    assert records[..|records|] == records;
  }

  /** Every gathered entry names one of the given counterparties. */
  lemma {:induction false} GatherPeersFrom(g: Graph, hub: Account, kind: Kind, ps: seq<Account>)
    ensures forall e :: e in Gather(g, hub, kind, ps) ==> e.peer in ps
    decreases |ps|
  {
    if ps != [] {
      GatherPeersFrom(g, hub, kind, ps[1..]);
      assert forall p :: p in ps[1..] ==> p in ps;
    }
  }

  /** A hub with at least one counterparty has at least one transaction to gather. */
  lemma GatherNonEmpty(g: Graph, hub: Account, kind: Kind)
    requires Valid(g) && hub in g.nodes && |Counterparties(g, hub, kind)| > 0
    ensures HubTxns(g, hub, kind) != []
  {
    var p := Counterparties(g, hub, kind)[0];
    var key := if kind == FanOut then (hub, p) else (p, hub);
    assert key in g.edges && EdgeConsistent(g.edges[key]);
  }

  // ----- the stable sort by timestamp -----

  /** Insert `x` after every entry whose time is not later than its own. */
  function InsertByTs(s: seq<Peer>, x: Peer): seq<Peer>
    decreases |s|
  {
    if s == [] then [x]
    else if x.ts < s[0].ts then [x] + s
    else [s[0]] + InsertByTs(s[1..], x)
  }

  /** `txns.sort(key=lambda x: x['ts'])`: Python's sort is stable, as insertion sort is. */
  function SortByTs(s: seq<Peer>): seq<Peer>
    decreases |s|
  {
    if s == [] then [] else InsertByTs(SortByTs(s[..|s| - 1]), s[|s| - 1])
  }

  predicate SortedByTs(s: seq<Peer>)
  {
    forall i, j :: 0 <= i < j < |s| ==> s[i].ts <= s[j].ts
  }

  /** The entries of `s` stamped `t`, in order. */
  function AtTime(s: seq<Peer>, t: int): seq<Peer>
    decreases |s|
  {
    if s == [] then [] else (if s[0].ts == t then [s[0]] else []) + AtTime(s[1..], t)
  }

  lemma {:induction false} AtTimeAppend(s: seq<Peer>, x: Peer, t: int)
    ensures AtTime(s + [x], t) == AtTime(s, t) + (if x.ts == t then [x] else [])
    decreases |s|
  {
    if s != [] {
      AtTimeAppend(s[1..], x, t);
      assert (s + [x])[0] == s[0] && (s + [x])[1..] == s[1..] + [x];
    } else {
      assert [x][1..] == [];
    }
  }

  lemma {:induction false} AtTimeNone(s: seq<Peer>, t: int)
    requires forall k :: 0 <= k < |s| ==> s[k].ts != t
    ensures AtTime(s, t) == []
    decreases |s|
  {
    if s != [] { AtTimeNone(s[1..], t); }
  }

  lemma {:induction false} InsertByTsElems(s: seq<Peer>, x: Peer)
    ensures multiset(InsertByTs(s, x)) == multiset(s) + multiset{x}
    decreases |s|
  {
    if s != [] && x.ts >= s[0].ts {
      InsertByTsElems(s[1..], x);
      assert s == [s[0]] + s[1..];
    }
  }

  lemma {:induction false} InsertByTsSorted(s: seq<Peer>, x: Peer)
    requires SortedByTs(s)
    ensures SortedByTs(InsertByTs(s, x))
    decreases |s|
  {
    if s != [] && x.ts >= s[0].ts {
      var r := InsertByTs(s[1..], x);
      InsertByTsSorted(s[1..], x);
      InsertByTsElems(s[1..], x);
      forall k | 0 <= k < |r| ensures s[0].ts <= r[k].ts {
        HeadTsBound(s, x, r, r[k]);
      }
      assert InsertByTs(s, x) == [s[0]] + r;
    }
  }

  /** An entry of the insertion into a sorted tail is no earlier than the head, given that `x` is not. */
  lemma HeadTsBound(s: seq<Peer>, x: Peer, r: seq<Peer>, y: Peer)
    requires SortedByTs(s) && s != [] && x.ts >= s[0].ts
    requires multiset(r) == multiset(s[1..]) + multiset{x} && y in r
    ensures s[0].ts <= y.ts
  {
    assert y in multiset(r);
    if y != x {
      assert y in multiset(s[1..]);
      var m :| 0 <= m < |s[1..]| && s[1..][m] == y;
      assert y == s[m + 1];
    }
  }

  lemma {:induction false} InsertByTsAtTime(s: seq<Peer>, x: Peer, t: int)
    requires SortedByTs(s)
    ensures AtTime(InsertByTs(s, x), t) == AtTime(s, t) + (if x.ts == t then [x] else [])
    decreases |s|
  {
    if s == [] {
      assert [x][1..] == [];
    } else if x.ts < s[0].ts {
      assert ([x] + s)[1..] == s;
      if x.ts == t { AtTimeNone(s, t); }
    } else {
      var r := InsertByTs(s[1..], x);
      InsertByTsAtTime(s[1..], x, t);
      assert ([s[0]] + r)[1..] == r;
      var h := if s[0].ts == t then [s[0]] else [];
      var tail := if x.ts == t then [x] else [];
      assert h + (AtTime(s[1..], t) + tail) == (h + AtTime(s[1..], t)) + tail;
    }
  }

  /** The sort orders by time, keeps every entry, and keeps entries of equal time in their
      original order (stability) — which fixes its result completely. */
  lemma SortByTsSpec(s: seq<Peer>)
    ensures SortedByTs(SortByTs(s))
    ensures multiset(SortByTs(s)) == multiset(s)
    ensures forall t :: AtTime(SortByTs(s), t) == AtTime(s, t)
  {
    SortByTsSorted(s);
    SortByTsPerm(s);
    forall t ensures AtTime(SortByTs(s), t) == AtTime(s, t) {
      SortByTsStable(s, t);
    }
  }

  lemma {:induction false} SortByTsSorted(s: seq<Peer>)
    ensures SortedByTs(SortByTs(s))
    decreases |s|
  {
    if s != [] {
      var init := s[..|s| - 1];
      SortByTsSorted(init);
      InsertByTsSorted(SortByTs(init), s[|s| - 1]);
    }
  }

  lemma {:induction false} SortByTsPerm(s: seq<Peer>)
    ensures multiset(SortByTs(s)) == multiset(s)
    decreases |s|
  {
    if s != [] {
      var init := s[..|s| - 1];
      var x := s[|s| - 1];
      var sorted := SortByTs(init);
      SortByTsPerm(init);
      InsertByTsElems(sorted, x);
      assert s == init + [x];
      calc {
        multiset(SortByTs(s));
        multiset(InsertByTs(sorted, x));
        multiset(sorted) + multiset{x};
        multiset(init) + multiset{x};
        multiset(init + [x]);
      }
    }
  }

  lemma {:induction false} SortByTsStable(s: seq<Peer>, t: int)
    ensures AtTime(SortByTs(s), t) == AtTime(s, t)
    decreases |s|
  {
    if s != [] {
      var init := s[..|s| - 1];
      var x := s[|s| - 1];
      SortByTsStable(init, t);
      SortByTsSorted(init);
      InsertByTsAtTime(SortByTs(init), x, t);
      AtTimeAppend(init, x, t);
      assert s == init + [x];
    }
  }

  // ----- the sliding window -----

  /** The distinct peers of `txns[i..j]`, both ends included. */
  function PeerSet(txns: seq<Peer>, i: nat, j: nat): set<Account>
    requires i <= j < |txns|
  {
    set k | i <= k <= j :: txns[k].peer
  }

  /** The `while` loop: advance the left end while the run is wider than the window. It stops
      at j at the latest, since a one-entry run spans nothing. */
  function Left(txns: seq<Peer>, window: int, i: nat, j: nat): (l: nat)
    requires window >= 0 && i <= j < |txns|
    ensures i <= l <= j
    ensures txns[j].ts - txns[l].ts <= window
    ensures forall k :: i <= k < l ==> txns[j].ts - txns[k].ts > window
    decreases j - i
  {
    if txns[j].ts - txns[i].ts > window then Left(txns, window, i + 1, j) else i
  }

  /** The `for j` loop from position j on, with the left end at i. */
  function Scan(txns: seq<Peer>, window: int, threshold: int, i: nat, j: nat): Option<set<Account>>
    requires window >= 0 && i <= j <= |txns|
    decreases |txns| - j
  {
    if j == |txns| then None
    else
      var l := Left(txns, window, i, j);
      var peers := PeerSet(txns, l, j);
      if |peers| >= threshold then Some(peers) else Scan(txns, window, threshold, l, j + 1)
  }

  /** What `_find_best_window(txns, window, threshold)` returns, as a set of peers. */
  function BestWindow(txns: seq<Peer>, window: int, threshold: int): Option<set<Account>>
    requires window >= 0
  {
    Scan(txns, window, threshold, 0, 0)
  }

  /** `_find_best_window`: two pointers, the left one never passing the right one. */
  method FindBestWindow(txns: seq<Peer>, window: int, threshold: int) returns (r: Option<set<Account>>)
    requires window >= 0
    ensures r == BestWindow(txns, window, threshold)
  {
    var i := 0;
    for j := 0 to |txns|
      invariant i <= j
      invariant Scan(txns, window, threshold, i, j) == BestWindow(txns, window, threshold)
    {
      ghost var i0 := i;
      while txns[j].ts - txns[i].ts > window
        invariant i0 <= i <= j
        invariant Left(txns, window, i, j) == Left(txns, window, i0, j)
        decreases j - i
      {
        i := i + 1;
      }
      var peers := PeerSet(txns, i, j);
      if |peers| >= threshold {
        return Some(peers);
      }
    }
    return None;
  }

  /** A run ending at j whose span fits the window starts no earlier than the left end. */
  lemma LeftIsEarliest(txns: seq<Peer>, window: int, i: nat, j: nat, i0: nat)
    requires window >= 0 && i <= j < |txns| && i0 <= j
    requires forall k :: 0 <= k < i ==> txns[j].ts - txns[k].ts > window
    requires txns[j].ts - txns[i0].ts <= window
    ensures Left(txns, window, i, j) <= i0
    ensures PeerSet(txns, i0, j) <= PeerSet(txns, Left(txns, window, i, j), j)
    ensures |PeerSet(txns, i0, j)| <= |PeerSet(txns, Left(txns, window, i, j), j)|
  {
    SubsetCard(PeerSet(txns, i0, j), PeerSet(txns, Left(txns, window, i, j), j));
  }

  /** Moving right in sorted entries, everything too early for j is too early for j + 1. */
  lemma TooEarlyStays(txns: seq<Peer>, window: int, l: nat, j: nat)
    requires window >= 0 && SortedByTs(txns) && l <= j && j + 1 < |txns|
    requires forall k :: 0 <= k < l ==> txns[j].ts - txns[k].ts > window
    ensures forall k :: 0 <= k < l ==> txns[j + 1].ts - txns[k].ts > window
  {
  }

  /** On sorted entries the scan misses no qualifying run: if it finds nothing, no run whose
      span fits the window holds `threshold` distinct peers. */
  lemma {:induction false} ScanNone(txns: seq<Peer>, window: int, threshold: int, i: nat, j: nat)
    requires window >= 0 && i <= j <= |txns| && SortedByTs(txns)
    requires j < |txns| ==> forall k :: 0 <= k < i ==> txns[j].ts - txns[k].ts > window
    requires Scan(txns, window, threshold, i, j) == None
    ensures NoWindowFrom(txns, window, threshold, j)
    decreases |txns| - j
  {
    if j < |txns| {
      var l := Left(txns, window, i, j);
      if j + 1 < |txns| { TooEarlyStays(txns, window, l, j); }
      ScanNone(txns, window, threshold, l, j + 1);
      forall i0 | 0 <= i0 <= j && txns[j].ts - txns[i0].ts <= window
        ensures |PeerSet(txns, i0, j)| < threshold
      {
        LeftIsEarliest(txns, window, i, j, i0);
      }
      NoWindowEarlier(txns, window, threshold, j);
    }
  }

  /** No run fitting the window and ending at position `from` or later holds `threshold`
      distinct peers. */
  ghost predicate NoWindowFrom(txns: seq<Peer>, window: int, threshold: int, from: nat)
  {
    forall i0, j0 :: 0 <= i0 <= j0 && from <= j0 < |txns| && txns[j0].ts - txns[i0].ts <= window
      ==> |PeerSet(txns, i0, j0)| < threshold
  }

  lemma NoWindowEarlier(txns: seq<Peer>, window: int, threshold: int, j: nat)
    requires j < |txns| && NoWindowFrom(txns, window, threshold, j + 1)
    requires forall i0 :: 0 <= i0 <= j && txns[j].ts - txns[i0].ts <= window ==>
               |PeerSet(txns, i0, j)| < threshold
    ensures NoWindowFrom(txns, window, threshold, j)
  {
  }

  /** On sorted entries a found window is the first one: it is the widest run ending at the
      first position j where some run fitting the window holds `threshold` distinct peers. */
  lemma {:induction false} ScanSome(txns: seq<Peer>, window: int, threshold: int, i: nat, j: nat)
    requires window >= 0 && i <= j <= |txns| && SortedByTs(txns)
    requires j < |txns| ==> forall k :: 0 <= k < i ==> txns[j].ts - txns[k].ts > window
    requires Scan(txns, window, threshold, i, j).Some?
    ensures exists l: nat, e: nat :: FirstWindow(txns, window, threshold, j, l, e)
                                    && Scan(txns, window, threshold, i, j).value == PeerSet(txns, l, e)
    decreases |txns| - j
  {
    var l := Left(txns, window, i, j);
    if |PeerSet(txns, l, j)| >= threshold {
      forall i0 | 0 <= i0 <= j && txns[j].ts - txns[i0].ts <= window
        ensures PeerSet(txns, i0, j) <= PeerSet(txns, l, j)
      {
        LeftIsEarliest(txns, window, i, j, i0);
      }
      assert FirstWindow(txns, window, threshold, j, l, j);
    } else {
      if j + 1 < |txns| { TooEarlyStays(txns, window, l, j); }
      ScanSome(txns, window, threshold, l, j + 1);
      var l': nat, e: nat :| FirstWindow(txns, window, threshold, j + 1, l', e)
                             && Scan(txns, window, threshold, l, j + 1).value == PeerSet(txns, l', e);
      forall i0 | 0 <= i0 <= j && txns[j].ts - txns[i0].ts <= window
        ensures |PeerSet(txns, i0, j)| < threshold
      {
        LeftIsEarliest(txns, window, i, j, i0);
      }
      FirstWindowEarlier(txns, window, threshold, j, l', e);
    }
  }

  /** A first window from j + 1 on is the first from j on when nothing qualifies at j. */
  lemma FirstWindowEarlier(txns: seq<Peer>, window: int, threshold: int, j: nat, l: nat, e: nat)
    requires FirstWindow(txns, window, threshold, j + 1, l, e)
    requires forall i0 :: 0 <= i0 <= j && txns[j].ts - txns[i0].ts <= window ==>
               |PeerSet(txns, i0, j)| < threshold
    ensures FirstWindow(txns, window, threshold, j, l, e)
  {
  }

  /** The run txns[l..e] fits the window, holds `threshold` distinct peers and contains every
      fitting run ending at e; and no fitting run ending in from..e-1 holds that many. */
  ghost predicate FirstWindow(txns: seq<Peer>, window: int, threshold: int, from: nat, l: nat, e: nat)
  {
    && l <= e < |txns| && from <= e
    && txns[e].ts - txns[l].ts <= window
    && |PeerSet(txns, l, e)| >= threshold
    && (forall i0 :: 0 <= i0 <= e && txns[e].ts - txns[i0].ts <= window ==>
          PeerSet(txns, i0, e) <= PeerSet(txns, l, e))
    && (forall i0, j0 :: 0 <= i0 <= j0 && from <= j0 < e && txns[j0].ts - txns[i0].ts <= window ==>
          |PeerSet(txns, i0, j0)| < threshold)
  }

  /** What `_find_best_window` promises on time-sorted entries: a result is the first
      qualifying window, all of whose entries lie within `window` of each other; no result
      means no run that fits the window holds `threshold` distinct peers. */
  lemma BestWindowSpec(txns: seq<Peer>, window: int, threshold: int)
    requires window >= 0 && SortedByTs(txns)
    ensures BestWindow(txns, window, threshold).None? ==> NoWindowFrom(txns, window, threshold, 0)
    ensures BestWindow(txns, window, threshold).Some? ==>
              exists l: nat, e: nat :: FirstWindow(txns, window, threshold, 0, l, e)
                             && BestWindow(txns, window, threshold).value == PeerSet(txns, l, e)
                             && forall a, b :: l <= a <= b <= e ==> txns[b].ts - txns[a].ts <= window
  {
    if BestWindow(txns, window, threshold).None? {
      ScanNone(txns, window, threshold, 0, 0);
    } else {
      ScanSome(txns, window, threshold, 0, 0);
      var l: nat, e: nat :| FirstWindow(txns, window, threshold, 0, l, e)
                            && BestWindow(txns, window, threshold).value == PeerSet(txns, l, e);
      WithinWindow(txns, window, l, e);
    }
  }

  /** In sorted entries, every pair inside a run that fits the window is within the window. */
  lemma WithinWindow(txns: seq<Peer>, window: int, l: nat, e: nat)
    requires SortedByTs(txns) && l <= e < |txns| && txns[e].ts - txns[l].ts <= window
    ensures forall a, b :: l <= a <= b <= e ==> txns[b].ts - txns[a].ts <= window
  {
  }

  /** A result is never empty, so `if best_window` only tests for a result. */
  lemma {:induction false} ScanNonEmpty(txns: seq<Peer>, window: int, threshold: int, i: nat, j: nat)
    requires window >= 0 && i <= j <= |txns|
    requires Scan(txns, window, threshold, i, j).Some?
    ensures Scan(txns, window, threshold, i, j).value != {}
    ensures exists l: nat, e: nat :: l <= e < |txns| && Scan(txns, window, threshold, i, j).value == PeerSet(txns, l, e)
    ensures |Scan(txns, window, threshold, i, j).value| >= threshold
    decreases |txns| - j
  {
    var l := Left(txns, window, i, j);
    if |PeerSet(txns, l, j)| < threshold {
      ScanNonEmpty(txns, window, threshold, l, j + 1);
    } else {
      assert txns[j].peer in PeerSet(txns, l, j);
    }
  }

  // ----- the detector -----

  /** What one hub yields for one direction. */
  function HubRing(g: Graph, hub: Account, kind: Kind, threshold: int, window: int): Option<SmurfRing>
    requires hub in g.succ && hub in g.pred && window >= 0
  {
    if |Counterparties(g, hub, kind)| < threshold then None
    else
      var txns := HubTxns(g, hub, kind);
      if txns == [] then None
      else
        match BestWindow(SortByTs(txns), window, threshold)
        case None => None
        case Some(peers) => Some(SmurfRing(kind, hub, SortedList({hub} + peers)))
  }

  function KindRings(g: Graph, ns: seq<Account>, kind: Kind, threshold: int, window: int): seq<SmurfRing>
    requires forall n :: n in ns ==> n in g.succ && n in g.pred
    requires window >= 0
    decreases |ns|
  {
    if ns == [] then []
    else
      var rest := KindRings(g, ns[1..], kind, threshold, window);
      match HubRing(g, ns[0], kind, threshold, window)
      case None => rest
      case Some(r) => [r] + rest
  }

  /** `detect_smurfing(G, df, fan_threshold, time_window_hours)`: every fan-out ring, in node
      order, then every fan-in ring. */
  function SmurfRings(g: Graph, threshold: int, windowHours: nat): seq<SmurfRing>
    requires Indexed(g)
  {
    KindRings(g, g.nodes, FanOut, threshold, windowHours * 3600) +
    KindRings(g, g.nodes, FanIn, threshold, windowHours * 3600)
  }

  method DetectSmurfing(g: Graph, threshold: int, windowHours: nat) returns (rings: seq<SmurfRing>)
    requires Indexed(g)
    ensures rings == SmurfRings(g, threshold, windowHours)
  {
    var window := windowHours * 3600;
    rings := [];
    var out := ScanHubs(g, FanOut, threshold, window);
    var inn := ScanHubs(g, FanIn, threshold, window);
    rings := out + inn;
  }

  /** One of the two `for node in G.nodes()` loops. */
  method ScanHubs(g: Graph, kind: Kind, threshold: int, window: int) returns (rings: seq<SmurfRing>)
    requires Indexed(g) && window >= 0
    ensures rings == KindRings(g, g.nodes, kind, threshold, window)
  {
    rings := [];
    var ns := g.nodes;
    for k := 0 to |ns|
      invariant rings + KindRings(g, ns[k..], kind, threshold, window) == KindRings(g, ns, kind, threshold, window)
    {
      var node := ns[k];
      assert ns[k..][0] == node && ns[k..][1..] == ns[k + 1..];
      if |Counterparties(g, node, kind)| < threshold {
        continue;
      }
      var txns := GatherPeers(g, node, kind);
      if txns == [] {
        continue;
      }
      var sorted := SortByTs(txns);
      var best := FindBestWindow(sorted, window, threshold);
      if best.Some? {
        var members := SortedList({node} + best.value);
        Assoc(rings, [SmurfRing(kind, node, members)], KindRings(g, ns[k + 1..], kind, threshold, window));
        rings := rings + [SmurfRing(kind, node, members)];
      }
    }
    assert ns[|ns|..] == [];
  }

  // ----- properties of the rings -----

  /** What every emitted ring satisfies. */
  ghost predicate WellFormedRing(g: Graph, r: SmurfRing, threshold: int)
    requires Indexed(g)
  {
    && r.hub in g.nodes
    && |Counterparties(g, r.hub, r.kind)| >= threshold
    && StrictlySorted(r.members)
    && r.hub in r.members
    && |r.members| >= threshold
    && forall m :: m in r.members ==> m == r.hub || m in Counterparties(g, r.hub, r.kind)
  }

  /** The peers of a hub's window are counterparties of the hub, at least `threshold` many. */
  lemma WindowPeers(g: Graph, hub: Account, kind: Kind, threshold: int, window: int)
    requires hub in g.succ && hub in g.pred && window >= 0
    ensures BestWindow(SortByTs(HubTxns(g, hub, kind)), window, threshold).Some? ==>
              var peers := BestWindow(SortByTs(HubTxns(g, hub, kind)), window, threshold).value;
              |peers| >= threshold && forall p :: p in peers ==> p in Counterparties(g, hub, kind)
  {
    var txns := HubTxns(g, hub, kind);
    var sorted := SortByTs(txns);
    if BestWindow(sorted, window, threshold).Some? {
      SortByTsSpec(txns);
      ScanNonEmpty(sorted, window, threshold, 0, 0);
      var peers := BestWindow(sorted, window, threshold).value;
      var l: nat, e: nat :| l <= e < |sorted| && peers == PeerSet(sorted, l, e);
      GatherPeersFrom(g, hub, kind, Counterparties(g, hub, kind));
      forall p | p in peers ensures p in Counterparties(g, hub, kind) {
        var k :| l <= k <= e && sorted[k].peer == p;
        assert sorted[k] in multiset(sorted);
        assert sorted[k] in txns;
      }
    }
  }

  lemma HubRingSpec(g: Graph, hub: Account, kind: Kind, threshold: int, window: int)
    requires Indexed(g) && hub in g.nodes && window >= 0
    ensures HubRing(g, hub, kind, threshold, window).Some? ==>
              var r := HubRing(g, hub, kind, threshold, window).value;
              r.kind == kind && r.hub == hub && WellFormedRing(g, r, threshold)
  {
    var best := BestWindow(SortByTs(HubTxns(g, hub, kind)), window, threshold);
    if HubRing(g, hub, kind, threshold, window).Some? {
      WindowPeers(g, hub, kind, threshold, window);
      var peers := best.value;
      var members := SortedList({hub} + peers);
      assert HubRing(g, hub, kind, threshold, window).value == SmurfRing(kind, hub, members);
      assert peers <= Elems(members);
      SubsetCard(peers, Elems(members));
      assert hub in Elems(members);
      assert |Counterparties(g, hub, kind)| >= threshold;
      assert |members| >= threshold;
      forall m | m in members ensures m == hub || m in Counterparties(g, hub, kind) {
        assert m in Elems(members);
      }
    }
  }

  lemma {:induction false} KindRingsSpec(g: Graph, ns: seq<Account>, kind: Kind, threshold: int, window: int)
    requires Indexed(g) && window >= 0 && forall n :: n in ns ==> n in g.nodes
    ensures forall r :: r in KindRings(g, ns, kind, threshold, window) ==>
              r.kind == kind && r.hub in ns && WellFormedRing(g, r, threshold)
    decreases |ns|
  {
    if ns != [] {
      assert forall n :: n in ns[1..] ==> n in ns;
      KindRingsSpec(g, ns[1..], kind, threshold, window);
      HubRingSpec(g, ns[0], kind, threshold, window);
    }
  }

  lemma HubRingShape(g: Graph, hub: Account, kind: Kind, threshold: int, window: int)
    requires hub in g.succ && hub in g.pred && window >= 0
    ensures HubRing(g, hub, kind, threshold, window).Some? ==>
              HubRing(g, hub, kind, threshold, window).value.hub == hub &&
              HubRing(g, hub, kind, threshold, window).value.kind == kind
  {
  }

  function Hubs(rs: seq<SmurfRing>): (h: seq<Account>)
    ensures |h| == |rs| && forall k :: 0 <= k < |h| ==> h[k] == rs[k].hub
  {
    seq(|rs|, k requires 0 <= k < |rs| => rs[k].hub)
  }

  lemma HubsCons(r: SmurfRing, rest: seq<SmurfRing>)
    ensures Hubs([r] + rest) == [r.hub] + Hubs(rest)
  {
    var a := Hubs([r] + rest);
    var b := [r.hub] + Hubs(rest);
    forall k | 0 <= k < |a| ensures a[k] == b[k] {
      if k > 0 { assert ([r] + rest)[k] == rest[k - 1]; }
    }
  }

  /** Hubs come from the scanned nodes, each at most once per direction. */
  lemma {:induction false} KindRingsHubs(g: Graph, ns: seq<Account>, kind: Kind, threshold: int, window: int)
    requires Indexed(g) && window >= 0 && forall n :: n in ns ==> n in g.nodes
    requires NoDup(ns)
    ensures forall h :: h in Hubs(KindRings(g, ns, kind, threshold, window)) ==> h in ns
    ensures NoDup(Hubs(KindRings(g, ns, kind, threshold, window)))
    decreases |ns|
  {
    if ns != [] {
      var tail := ns[1..];
      var rest := KindRings(g, tail, kind, threshold, window);
      assert forall n :: n in tail ==> n in ns;
      NoDupTail(ns);
      KindRingsHubs(g, tail, kind, threshold, window);
      var hr := HubRing(g, ns[0], kind, threshold, window);
      HubRingShape(g, ns[0], kind, threshold, window);
      if hr.Some? {
        assert KindRings(g, ns, kind, threshold, window) == [hr.value] + rest;
        HubsCons(hr.value, rest);
        NoDupCons(ns[0], Hubs(rest));
      } else {
        assert KindRings(g, ns, kind, threshold, window) == rest;
      }
    }
  }

  /** Every ring is sorted, duplicate-free and holds its hub; its hub has at least
      `threshold` distinct counterparties in its direction; and its other members are such
      counterparties. */
  lemma SmurfRingsSpec(g: Graph, threshold: int, windowHours: nat)
    requires Indexed(g)
    ensures forall r :: r in SmurfRings(g, threshold, windowHours) ==> WellFormedRing(g, r, threshold)
  {
    var w := windowHours * 3600;
    KindRingsSpec(g, g.nodes, FanOut, threshold, w);
    KindRingsSpec(g, g.nodes, FanIn, threshold, w);
  }

  /** No hub yields two rings of the same direction. */
  lemma SmurfRingsOnePerHub(g: Graph, threshold: int, windowHours: nat)
    requires Indexed(g) && NoDup(g.nodes)
    ensures forall i, j :: (0 <= i < j < |SmurfRings(g, threshold, windowHours)| &&
              SmurfRings(g, threshold, windowHours)[i].kind == SmurfRings(g, threshold, windowHours)[j].kind) ==>
              SmurfRings(g, threshold, windowHours)[i].hub != SmurfRings(g, threshold, windowHours)[j].hub
  {
    var w := windowHours * 3600;
    var outs := KindRings(g, g.nodes, FanOut, threshold, w);
    var ins := KindRings(g, g.nodes, FanIn, threshold, w);
    KindRingsSpec(g, g.nodes, FanOut, threshold, w);
    KindRingsSpec(g, g.nodes, FanIn, threshold, w);
    KindRingsHubs(g, g.nodes, FanOut, threshold, w);
    KindRingsHubs(g, g.nodes, FanIn, threshold, w);
    DistinctHubsConcat(outs, ins);
  }

  lemma DistinctHubsConcat(outs: seq<SmurfRing>, ins: seq<SmurfRing>)
    requires forall r :: r in outs ==> r.kind == FanOut
    requires forall r :: r in ins ==> r.kind == FanIn
    requires NoDup(Hubs(outs)) && NoDup(Hubs(ins))
    ensures forall i, j :: (0 <= i < j < |outs + ins| && (outs + ins)[i].kind == (outs + ins)[j].kind) ==>
              (outs + ins)[i].hub != (outs + ins)[j].hub
  {
    var all := outs + ins;
    forall i, j | 0 <= i < j < |all| && all[i].kind == all[j].kind ensures all[i].hub != all[j].hub {
      if j < |outs| {
        assert Hubs(outs)[i] != Hubs(outs)[j];
      } else if i >= |outs| {
        assert all[i] == ins[i - |outs|] && all[j] == ins[j - |outs|];
        assert Hubs(ins)[i - |outs|] != Hubs(ins)[j - |outs|];
      }
    }
  }
}
