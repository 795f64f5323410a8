/** `detect_cycles` of backend/graph_engine.py, after the cycle enumeration: drop cycles shorter
    than the minimum, keep the first cycle of every vertex set, then merge overlapping ones.
    The enumerator (networkx's `simple_cycles` with a length bound) is not modelled: its output,
    up to the point where it stopped or raised, is the parameter `raw`. */
module Cycles {
  import opened Accounts
  import opened Ledger
  import opened RingMerge

  /** The defaults `detect_cycles` is called with. */
  const MinCycleLen: nat := 3
  const MaxCycleLen: nat := 5

  /** What the enumerator promises about each list it yields: a simple directed cycle of `g`,
      closing from the last vertex back to the first, of at most `maxLen` vertices. */
  ghost predicate IsSimpleCycle(g: Graph, c: seq<Account>, maxLen: nat)
  {
    && 1 <= |c| <= maxLen
    && NoDup(c)
    && forall k :: 0 <= k < |c| ==> CycleStep(c, k) in g.edges
  }

  /** The k-th hop of a cycle, the last one closing back to the first vertex. */
  function CycleStep(c: seq<Account>, k: nat): (Account, Account)
    requires k < |c|
  {
    (c[k], c[(k + 1) % |c|])
  }

  /** The cycles the filter keeps from `raw`, given the vertex sets `seen` so far. */
  function Dedup(raw: seq<seq<Account>>, minLen: nat, seen: set<set<Account>>): seq<seq<Account>>
    decreases |raw|
  {
    if raw == [] then []
    else if |raw[0]| < minLen || Elems(raw[0]) in seen then Dedup(raw[1..], minLen, seen)
    else [raw[0]] + Dedup(raw[1..], minLen, seen + {Elems(raw[0])})
  }

  /** The list `raw_cycles` the loop builds. */
  function Candidates(raw: seq<seq<Account>>, minLen: nat): seq<seq<Account>>
  {
    Dedup(raw, minLen, {})
  }

  /** `detect_cycles(G, min_len, max_len)`, given what the enumerator yielded. */
  method DetectCycles(raw: seq<seq<Account>>, minLen: nat) returns (rings: seq<seq<Account>>)
    ensures rings == Merged(Candidates(raw, minLen))
  {
    var kept: seq<seq<Account>> := [];
    var seen: set<set<Account>> := {};
    for k := 0 to |raw|
      invariant kept + Dedup(raw[k..], minLen, seen) == Candidates(raw, minLen)
    {
      var cycle := raw[k];
      assert raw[k..][0] == cycle && raw[k..][1..] == raw[k + 1..];
      if |cycle| < minLen {
        continue;
      }
      var key := Elems(cycle);
      if key in seen {
        continue;
      }
      seen := seen + {key};
      assert kept + ([cycle] + Dedup(raw[k + 1..], minLen, seen))
          == (kept + [cycle]) + Dedup(raw[k + 1..], minLen, seen);
      kept := kept + [cycle];
    }
    assert raw[|raw|..] == [];
    assert kept == Candidates(raw, minLen);
    rings := MergeOverlapping(kept);
  }

  // ----- properties -----

  /** Every kept cycle comes from `raw`, is long enough, and has a vertex set not seen before. */
  lemma {:induction false} DedupSound(raw: seq<seq<Account>>, minLen: nat, seen: set<set<Account>>)
    ensures forall c :: c in Dedup(raw, minLen, seen) ==>
              c in raw && |c| >= minLen && Elems(c) !in seen
    decreases |raw|
  {
    if raw != [] {
      assert forall c :: c in raw[1..] ==> c in raw;
      DedupSound(raw[1..], minLen, seen);
      DedupSound(raw[1..], minLen, seen + {Elems(raw[0])});
    }
  }

  /** No two kept cycles have the same vertex set. */
  lemma {:induction false} DedupDistinct(raw: seq<seq<Account>>, minLen: nat, seen: set<set<Account>>)
    ensures forall i, j :: 0 <= i < j < |Dedup(raw, minLen, seen)| ==>
              Elems(Dedup(raw, minLen, seen)[i]) != Elems(Dedup(raw, minLen, seen)[j])
    decreases |raw|
  {
    if raw != [] {
      var seen' := seen + {Elems(raw[0])};
      DedupDistinct(raw[1..], minLen, seen);
      DedupDistinct(raw[1..], minLen, seen');
      if !(|raw[0]| < minLen || Elems(raw[0]) in seen) {
        var tail := Dedup(raw[1..], minLen, seen');
        DedupSound(raw[1..], minLen, seen');
        forall j | 0 < j < |[raw[0]] + tail|
          ensures Elems(raw[0]) != Elems(([raw[0]] + tail)[j])
        {
          assert ([raw[0]] + tail)[j] == tail[j - 1] && tail[j - 1] in tail;
        }
      }
    }
  }

  /** Nothing long enough is lost: every vertex set of a long enough raw cycle not seen before
      is represented by a kept cycle. */
  lemma {:induction false} DedupComplete(raw: seq<seq<Account>>, minLen: nat, seen: set<set<Account>>)
    ensures forall c :: c in raw && |c| >= minLen && Elems(c) !in seen ==>
              exists d :: d in Dedup(raw, minLen, seen) && Elems(d) == Elems(c)
    decreases |raw|
  {
    if raw != [] {
      var seen' := seen + {Elems(raw[0])};
      DedupComplete(raw[1..], minLen, seen);
      DedupComplete(raw[1..], minLen, seen');
      forall c | c in raw && |c| >= minLen && Elems(c) !in seen
        ensures exists d :: d in Dedup(raw, minLen, seen) && Elems(d) == Elems(c)
      {
        var keepHead := !(|raw[0]| < minLen || Elems(raw[0]) in seen);
        if keepHead {
          assert Dedup(raw, minLen, seen) == [raw[0]] + Dedup(raw[1..], minLen, seen');
          if Elems(c) == Elems(raw[0]) {
            assert raw[0] in Dedup(raw, minLen, seen);
          } else {
            assert c in raw[1..];
            var d :| d in Dedup(raw[1..], minLen, seen') && Elems(d) == Elems(c);
            assert d in Dedup(raw, minLen, seen);
          }
        } else {
          assert Dedup(raw, minLen, seen) == Dedup(raw[1..], minLen, seen);
          assert c != raw[0];
          assert c in raw[1..];
        }
      }
    }
  }

  /** The candidate list: cycles of `raw` of at least `minLen` vertices, one per vertex set,
      covering every such vertex set. */
  lemma CandidatesSpec(raw: seq<seq<Account>>, minLen: nat)
    ensures forall c :: c in Candidates(raw, minLen) ==> c in raw && |c| >= minLen
    ensures forall i, j :: 0 <= i < j < |Candidates(raw, minLen)| ==>
              Elems(Candidates(raw, minLen)[i]) != Elems(Candidates(raw, minLen)[j])
    ensures forall c :: c in raw && |c| >= minLen ==>
              exists d :: d in Candidates(raw, minLen) && Elems(d) == Elems(c)
  {
    DedupSound(raw, minLen, {});
    DedupDistinct(raw, minLen, {});
    DedupComplete(raw, minLen, {});
  }

  /** Every account of a cycle ring lies on a kept cycle of the graph, and every kept cycle
      lies inside one ring. */
  lemma CycleRingMembers(g: Graph, raw: seq<seq<Account>>, minLen: nat)
    requires forall c :: c in raw ==> IsSimpleCycle(g, c, MaxCycleLen)
    ensures forall a :: a in Members(Merged(Candidates(raw, minLen))) ==>
              exists c :: c in raw && IsSimpleCycle(g, c, MaxCycleLen) && |c| >= minLen && a in c
    ensures forall c :: c in Candidates(raw, minLen) ==>
              exists r :: r in Merged(Candidates(raw, minLen)) && Elems(c) <= Elems(r)
  {
    var cands := Candidates(raw, minLen);
    CandidatesSpec(raw, minLen);
    MergedKeepsMembers(cands);
    MergedCoversGroups(cands);
    forall a | a in Members(Merged(cands))
      ensures exists c :: c in raw && IsSimpleCycle(g, c, MaxCycleLen) && |c| >= minLen && a in c
    {
      var c :| c in cands && a in c;
    }
  }

  /** When the enumerator yields simple cycles, every merged cycle ring has at least `minLen`
      accounts; so the scorer's `3 <= len <= 5` filter only ever drops rings of more than five. */
  lemma CycleRingSize(g: Graph, raw: seq<seq<Account>>, minLen: nat)
    requires forall c :: c in raw ==> IsSimpleCycle(g, c, MaxCycleLen)
    ensures forall r :: r in Merged(Candidates(raw, minLen)) ==> |r| >= minLen
  {
    var cands := Candidates(raw, minLen);
    CandidatesSpec(raw, minLen);
    MergedGrounded(cands);
    MergedShape(cands);
    forall r | r in Merged(cands) ensures |r| >= minLen {
      var c :| c in cands && Elems(c) <= Elems(r);
      assert c in raw && |c| >= minLen;
      assert NoDup(c) by { assert IsSimpleCycle(g, c, MaxCycleLen); }
      CoveredSize(c, r);
    }
  }

  /** A sorted ring covering a duplicate-free cycle is at least as long. */
  lemma CoveredSize(c: seq<Account>, r: seq<Account>)
    requires NoDup(c) && StrictlySorted(r) && Elems(c) <= Elems(r)
    ensures |c| <= |r|
  {
    NoDupCard(c);
    StrictlySortedDistinct(r);
    NoDupCard(r);
    SubsetCard(Elems(c), Elems(r));
  }
}
