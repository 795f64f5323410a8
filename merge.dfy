/** `_merge_overlapping` of backend/graph_engine.py: repeatedly union any two member sets that
    share at least two accounts, until a whole pass merges nothing; then list every set sorted.
    A pass walks the list left to right; each still-unused set absorbs, in order, every later
    unused set that meets its growing union in two or more accounts. */
module RingMerge {
  import opened Accounts

  type Group = set<Account>

  /** The inner `for j` scan of one pass: `cur` absorbs the sets of `rest` that overlap it
      (as it grows); the others are kept, in order. */
  function Absorb(cur: Group, rest: seq<Group>): (r: (Group, seq<Group>))
    ensures |r.1| <= |rest|
    decreases |rest|
  {
    if rest == [] then (cur, [])
    else if |cur * rest[0]| >= 2 then Absorb(cur + rest[0], rest[1..])
    else
      var (c, kept) := Absorb(cur, rest[1..]);
      (c, [rest[0]] + kept)
  }

  /** One pass of the `while merged` loop: the list `new_sets` it builds. */
  function Pass(sets: seq<Group>): (r: seq<Group>)
    decreases |sets|
  {
    if sets == [] then []
    else
      var (c, kept) := Absorb(sets[0], sets[1..]);
      [c] + Pass(kept)
  }

  /** Passes until one merges nothing. Each merging pass shortens the list, so this ends. */
  function Fixpoint(sets: seq<Group>): seq<Group>
    decreases |sets|
  {
    PassShrinks(sets);
    var p := Pass(sets);
    if |p| < |sets| then Fixpoint(p) else sets
  }

  function ToSets(groups: seq<seq<Account>>): (r: seq<Group>)
    ensures |r| == |groups| && forall k :: 0 <= k < |r| ==> r[k] == Elems(groups[k])
  {
    seq(|groups|, k requires 0 <= k < |groups| => Elems(groups[k]))
  }

  function SortAll(sets: seq<Group>): (r: seq<seq<Account>>)
    ensures |r| == |sets| && forall k :: 0 <= k < |r| ==> r[k] == SortedList(sets[k])
  {
    seq(|sets|, k requires 0 <= k < |sets| => SortedList(sets[k]))
  }

  /** What `_merge_overlapping(groups)` returns. */
  function Merged(groups: seq<seq<Account>>): seq<seq<Account>>
  {
    if groups == [] then [] else SortAll(Fixpoint(ToSets(groups)))
  }

  // ----- the loop the source runs -----

  /** The sets at indices lo..hi-1 that are not yet marked used, in order. */
  function Unused(sets: seq<Group>, used: seq<bool>, lo: nat, hi: nat): seq<Group>
    requires |used| == |sets| && lo <= hi <= |sets|
    decreases hi - lo
  {
    if lo == hi then [] else (if used[lo] then [] else [sets[lo]]) + Unused(sets, used, lo + 1, hi)
  }

  lemma {:induction false} UnusedSplit(sets: seq<Group>, used: seq<bool>, lo: nat, mid: nat, hi: nat)
    requires |used| == |sets| && lo <= mid <= hi <= |sets|
    ensures Unused(sets, used, lo, hi) == Unused(sets, used, lo, mid) + Unused(sets, used, mid, hi)
    decreases mid - lo
  {
    if lo < mid { UnusedSplit(sets, used, lo + 1, mid, hi); }
  }

  lemma {:induction false} UnusedFrame(sets: seq<Group>, used: seq<bool>, used': seq<bool>, lo: nat, hi: nat)
    requires |used| == |sets| == |used'| && lo <= hi <= |sets|
    requires forall k :: lo <= k < hi ==> used[k] == used'[k]
    ensures Unused(sets, used, lo, hi) == Unused(sets, used', lo, hi)
    decreases hi - lo
  {
    if lo < hi {
      UnusedFrame(sets, used, used', lo + 1, hi);
      var h: seq<Group> := if used[lo] then [] else [sets[lo]];
      assert used[lo] == used'[lo];
      assert Unused(sets, used, lo, hi) == h + Unused(sets, used, lo + 1, hi);
      assert Unused(sets, used', lo, hi) == h + Unused(sets, used', lo + 1, hi);
    }
  }

  /** Index j, still unused, splits the range around its own set. */
  lemma UnusedAt(sets: seq<Group>, used: seq<bool>, lo: nat, j: nat, hi: nat)
    requires |used| == |sets| && lo <= j < hi <= |sets| && !used[j]
    ensures Unused(sets, used, lo, hi)
            == Unused(sets, used, lo, j) + ([sets[j]] + Unused(sets, used, j + 1, hi))
  {
    UnusedSplit(sets, used, lo, j, hi);
    assert Unused(sets, used, j, hi) == [sets[j]] + Unused(sets, used, j + 1, hi);
  }

  /** Marking index j used drops exactly that set from the range. */
  lemma MarkUsed(sets: seq<Group>, used: seq<bool>, lo: nat, j: nat, hi: nat)
    requires |used| == |sets| && lo <= j < hi <= |sets| && !used[j]
    ensures Unused(sets, used[j := true], lo, hi)
            == Unused(sets, used, lo, j) + Unused(sets, used, j + 1, hi)
    ensures Unused(sets, used, lo, hi)
            == Unused(sets, used, lo, j) + ([sets[j]] + Unused(sets, used, j + 1, hi))
  {
    var used' := used[j := true];
    UnusedAt(sets, used, lo, j, hi);
    UnusedUpdate(sets, used, j, lo, j);
    UnusedUpdate(sets, used, j, j + 1, hi);
    UnusedSkip(sets, used', j, hi);
    UnusedSplit(sets, used', lo, j, hi);
  }

  /** Marking an index outside the range leaves the range's unused sets alone. */
  lemma {:induction false} UnusedUpdate(sets: seq<Group>, used: seq<bool>, j: nat, lo: nat, hi: nat)
    requires |used| == |sets| && lo <= hi <= |sets| && j < |used| && (j < lo || hi <= j)
    ensures Unused(sets, used[j := true], lo, hi) == Unused(sets, used, lo, hi)
    decreases hi - lo
  {
    if lo < hi {
      UnusedUpdate(sets, used, j, lo + 1, hi);
      assert used[j := true][lo] == used[lo];
    }
  }

  lemma UnusedSkip(sets: seq<Group>, used: seq<bool>, j: nat, hi: nat)
    requires |used| == |sets| && j < hi <= |sets| && used[j]
    ensures Unused(sets, used, j, hi) == Unused(sets, used, j + 1, hi)
  {
    assert Unused(sets, used, j, hi) == [] + Unused(sets, used, j + 1, hi);
  }


  lemma {:induction false} UnusedNoneUsed(sets: seq<Group>, used: seq<bool>, lo: nat)
    requires |used| == |sets| && lo <= |sets| && forall k :: 0 <= k < |used| ==> !used[k]
    ensures Unused(sets, used, lo, |sets|) == sets[lo..]
    decreases |sets| - lo
  {
    if lo < |sets| {
      UnusedNoneUsed(sets, used, lo + 1);
      assert sets[lo..] == [sets[lo]] + sets[lo + 1..];
    }
  }

  /** `_merge_overlapping` as the source writes it: passes over a list of sets with a `used`
      flag per set, until a pass sets no flag. */
  method MergeOverlapping(groups: seq<seq<Account>>) returns (rings: seq<seq<Account>>)
    ensures rings == Merged(groups)
  {
    if groups == [] {
      return [];
    }
    var sets := ToSets(groups);
    var merged := true;
    while merged
      invariant Fixpoint(sets) == Fixpoint(ToSets(groups))
      invariant !merged ==> Pass(sets) == sets
      decreases |sets| + (if merged then 1 else 0)
    {
      var newSets;
      newSets, merged := MergePass(sets);
      PassLength(sets, newSets, merged);
      sets := newSets;
    }
    rings := SortAll(sets);
  }

  /** One pass of the `while merged` loop: the `for i` loop with its `used` flags. */
  method MergePass(sets: seq<Group>) returns (newSets: seq<Group>, merged: bool)
    ensures newSets == Pass(sets)
    ensures merged <==> |newSets| < |sets|
  {
    var n := |sets|;
    merged := false;
    newSets := [];
    var used := seq(n, _ => false);
    ghost var absorbed := 0;
    UnusedNoneUsed(sets, used, 0);
    assert sets[0..] == sets;
    for i := 0 to n
      invariant |used| == n
      invariant newSets + Pass(Unused(sets, used, i, n)) == Pass(sets)
      invariant |newSets| + |Unused(sets, used, i, n)| + absorbed == n
      invariant absorbed >= 0 && (merged <==> absorbed > 0)
    {
      if used[i] {
        assert Unused(sets, used, i, n) == Unused(sets, used, i + 1, n);
        continue;
      }
      ghost var used0 := used;
      var current, grew;
      current, used, grew := AbsorbLater(sets, used, i);
      ghost var rest0 := Unused(sets, used0, i + 1, n);
      ghost var kept := Unused(sets, used, i + 1, n);
      assert kept == Absorb(sets[i], rest0).1 && |kept| <= |rest0|;
      absorbed := absorbed + (|rest0| - |kept|);
      assert grew <==> |kept| < |rest0|;
      merged := merged || grew;
      assert merged <==> absorbed > 0;
      MarkUsedHead(sets, used0, i, n);
      UnusedFrame(sets, used0, used, i, i + 1);
      UnusedSplit(sets, used, i, i + 1, n);
      assert Unused(sets, used0, i, n) == [sets[i]] + rest0;
      assert Unused(sets, used, i + 1, n) == kept;
      assert Pass([sets[i]] + rest0) == [current] + Pass(kept) by {
        assert ([sets[i]] + rest0)[0] == sets[i] && ([sets[i]] + rest0)[1..] == rest0;
      }
      assert newSets + ([current] + Pass(kept)) == (newSets + [current]) + Pass(kept);
      newSets := newSets + [current];
    }
  }

  /** The inner `for j` loop: set `i` absorbs every later unused set that meets it (as it
      grows) in two or more accounts, marking each one used. */
  method AbsorbLater(sets: seq<Group>, used: seq<bool>, i: nat)
    returns (current: Group, used': seq<bool>, grew: bool)
    requires |used| == |sets| && i < |sets| && !used[i]
    ensures |used'| == |sets|
    ensures forall k :: 0 <= k < i + 1 ==> used'[k] == used[k]
    ensures current == Absorb(sets[i], Unused(sets, used, i + 1, |sets|)).0
    ensures Unused(sets, used', i + 1, |sets|) == Absorb(sets[i], Unused(sets, used, i + 1, |sets|)).1
    ensures grew <==> |Unused(sets, used', i + 1, |sets|)| < |Unused(sets, used, i + 1, |sets|)|
  {
    var n := |sets|;
    current := sets[i];
    used' := used;
    grew := false;
    ghost var rest0 := Unused(sets, used, i + 1, n);
    ghost var absorbed := 0;
    assert Unused(sets, used', i + 1, i + 1) == [];
    for j := i + 1 to n
      invariant |used'| == n
      invariant forall k :: 0 <= k < i + 1 || j <= k < n ==> used'[k] == used[k]
      invariant Scanned(sets, used', i + 1, j, current, Absorb(sets[i], rest0))
      invariant |Unused(sets, used', i + 1, n)| + absorbed == |rest0|
      invariant grew <==> absorbed > 0
    {
      if used'[j] {
        ScanSkip(sets, used', i + 1, j, current, Absorb(sets[i], rest0));
        continue;
      }
      if |current * sets[j]| >= 2 {
        ScanTake(sets, used', i + 1, j, current, Absorb(sets[i], rest0));
        current := current + sets[j];
        used' := used'[j := true];
        grew := true;
        absorbed := absorbed + 1;
      } else {
        ScanKeep(sets, used', i + 1, j, current, Absorb(sets[i], rest0));
      }
    }
    assert Unused(sets, used', n, n) == [];
  }

  /** The scan of `Absorb(sets[lo - 1], ...)` has reached index j with the union `cur`:
      what remains to do, applied to the unused sets from j on, yields `target`. */
  ghost predicate Scanned(sets: seq<Group>, used: seq<bool>, lo: nat, j: nat, cur: Group,
                          target: (Group, seq<Group>))
    requires |used| == |sets| && lo <= j <= |sets|
  {
    && target.0 == Absorb(cur, Unused(sets, used, j, |sets|)).0
    && target.1 == Unused(sets, used, lo, j) + Absorb(cur, Unused(sets, used, j, |sets|)).1
  }

  lemma ScanSkip(sets: seq<Group>, used: seq<bool>, lo: nat, j: nat, cur: Group,
                 target: (Group, seq<Group>))
    requires |used| == |sets| && lo <= j < |sets| && used[j]
    requires Scanned(sets, used, lo, j, cur, target)
    ensures Scanned(sets, used, lo, j + 1, cur, target)
  {
    UnusedSplit(sets, used, lo, j, j + 1);
    assert Unused(sets, used, j, |sets|) == Unused(sets, used, j + 1, |sets|);
  }

  lemma ScanKeep(sets: seq<Group>, used: seq<bool>, lo: nat, j: nat, cur: Group,
                 target: (Group, seq<Group>))
    requires |used| == |sets| && lo <= j < |sets| && !used[j] && |cur * sets[j]| < 2
    requires Scanned(sets, used, lo, j, cur, target)
    ensures Scanned(sets, used, lo, j + 1, cur, target)
  {
    var n := |sets|;
    UnusedSplit(sets, used, lo, j, j + 1);
    var done := Unused(sets, used, lo, j);
    var later := Unused(sets, used, j + 1, n);
    assert Unused(sets, used, j, n) == [sets[j]] + later;
    AbsorbCons(cur, sets[j], later);
    assert Unused(sets, used, lo, j + 1) == done + [sets[j]];
    var kept := Absorb(cur, later).1;
    assert done + ([sets[j]] + kept) == (done + [sets[j]]) + kept;
  }

  lemma ScanTake(sets: seq<Group>, used: seq<bool>, lo: nat, j: nat, cur: Group,
                 target: (Group, seq<Group>))
    requires |used| == |sets| && lo <= j < |sets| && !used[j] && |cur * sets[j]| >= 2
    requires Scanned(sets, used, lo, j, cur, target)
    ensures Scanned(sets, used[j := true], lo, j + 1, cur + sets[j], target)
    ensures |Unused(sets, used[j := true], lo, |sets|)| + 1 == |Unused(sets, used, lo, |sets|)|
  {
    var n := |sets|;
    var used' := used[j := true];
    var later := Unused(sets, used, j + 1, n);
    assert Unused(sets, used, j, n) == [sets[j]] + later;
    AbsorbCons(cur, sets[j], later);
    MarkUsed(sets, used, lo, j, n);
    UnusedFrame(sets, used, used', lo, j);
    UnusedFrame(sets, used, used', j + 1, n);
    UnusedSplit(sets, used', lo, j, j + 1);
    assert Unused(sets, used', lo, j + 1) == Unused(sets, used, lo, j);
  }

  lemma AbsorbCons(cur: Group, s: Group, rest: seq<Group>)
    ensures Absorb(cur, [s] + rest)
            == if |cur * s| >= 2 then Absorb(cur + s, rest)
               else (Absorb(cur, rest).0, [s] + Absorb(cur, rest).1)
  {
    assert ([s] + rest)[0] == s && ([s] + rest)[1..] == rest;
  }

  lemma MarkUsedHead(sets: seq<Group>, used: seq<bool>, i: nat, n: nat)
    requires |used| == |sets| == n && i < n && !used[i]
    ensures Unused(sets, used, i, n) == [sets[i]] + Unused(sets, used, i + 1, n)
  {
  }

  /** The flag the loop computes says whether the pass shortened the list. */
  lemma PassLength(sets: seq<Group>, newSets: seq<Group>, merged: bool)
    requires newSets == Pass(sets)
    requires merged <==> |newSets| < |sets|
    ensures merged ==> Fixpoint(newSets) == Fixpoint(sets)
    ensures !merged ==> newSets == sets && Pass(newSets) == newSets
  {
    PassShrinks(sets);
    if !merged {
      PassFixed(sets);
    } else {
      FixpointUnfold(sets);
    }
  }

  lemma FixpointUnfold(sets: seq<Group>)
    requires |Pass(sets)| < |sets|
    ensures Fixpoint(sets) == Fixpoint(Pass(sets))
  {
  }

  // ----- properties -----

  function Union(ss: seq<Group>): Group
  {
    if ss == [] then {} else ss[0] + Union(ss[1..])
  }

  lemma {:induction false} UnionMember(ss: seq<Group>, a: Account)
    ensures a in Union(ss) <==> exists s :: s in ss && a in s
  {
    if ss != [] {
      UnionMember(ss[1..], a);
      assert forall s :: s in ss <==> s == ss[0] || s in ss[1..];
    }
  }

  ghost predicate PairwiseLow(sets: seq<Group>)
  {
    forall i, j :: 0 <= i < j < |sets| ==> |sets[i] * sets[j]| < 2
  }

  ghost predicate Covers(sets: seq<Group>, bigger: seq<Group>)
  {
    forall s :: s in sets ==> exists t :: t in bigger && s <= t
  }

  lemma {:induction false} AbsorbSpec(cur: Group, rest: seq<Group>)
    decreases |rest|
    ensures cur <= Absorb(cur, rest).0
    ensures Absorb(cur, rest).0 + Union(Absorb(cur, rest).1) == cur + Union(rest)
    ensures forall s :: s in rest ==> s <= Absorb(cur, rest).0 || s in Absorb(cur, rest).1
    ensures |Absorb(cur, rest).1| == |rest| ==>
              Absorb(cur, rest) == (cur, rest) && forall s :: s in rest ==> |cur * s| < 2
  {
    if rest != [] {
      var s0 := rest[0];
      assert forall s :: s in rest <==> s == s0 || s in rest[1..];
      if |cur * s0| >= 2 {
        AbsorbSpec(cur + s0, rest[1..]);
      } else {
        AbsorbSpec(cur, rest[1..]);
        var (c, kept) := Absorb(cur, rest[1..]);
        assert Absorb(cur, rest) == (c, [s0] + kept);
        if |kept| == |rest[1..]| {
          assert [s0] + rest[1..] == rest;
        }
      }
    }
  }

  lemma {:induction false} PassShrinks(sets: seq<Group>)
    ensures |Pass(sets)| <= |sets|
    ensures sets != [] ==> Pass(sets) != []
    decreases |sets|
  {
    if sets != [] {
      PassShrinks(Absorb(sets[0], sets[1..]).1);
    }
  }

  /** A pass loses no account, splits no set, and leaves the list alone exactly when no two
      sets overlap in two accounts. */
  lemma {:induction false} PassSpec(sets: seq<Group>)
    ensures Union(Pass(sets)) == Union(sets)
    ensures Covers(sets, Pass(sets))
    decreases |sets|
  {
    if sets != [] {
      var (c, kept) := Absorb(sets[0], sets[1..]);
      AbsorbSpec(sets[0], sets[1..]);
      PassSpec(kept);
      forall s | s in sets ensures exists t :: t in Pass(sets) && s <= t {
        if s == sets[0] || s <= c {
          assert c in Pass(sets);
        } else {
          assert s in sets[1..];
          assert s in kept;
          var t :| t in Pass(kept) && s <= t;
          assert t in Pass(sets);
        }
      }
    }
  }

  lemma {:induction false} PassFixed(sets: seq<Group>)
    requires |Pass(sets)| == |sets|
    ensures Pass(sets) == sets && PairwiseLow(sets)
    decreases |sets|
  {
    if sets != [] {
      var (c, kept) := Absorb(sets[0], sets[1..]);
      PassShrinks(kept);
      AbsorbSpec(sets[0], sets[1..]);
      PassFixed(kept);
      assert kept == sets[1..];
      forall i, j | 0 <= i < j < |sets| ensures |sets[i] * sets[j]| < 2 {
        if i == 0 {
          assert sets[j] in sets[1..];
        } else {
          assert sets[i] == kept[i - 1] && sets[j] == kept[j - 1];
        }
      }
    }
  }

  lemma {:induction false} PairwiseLowPassIdentity(sets: seq<Group>)
    requires PairwiseLow(sets)
    ensures Pass(sets) == sets
    decreases |sets|
  {
    if sets != [] {
      var rest := sets[1..];
      PairwiseLowTail(sets);
      AbsorbNothing(sets[0], rest);
      PairwiseLowPassIdentity(rest);
      assert Pass(sets) == [sets[0]] + Pass(rest);
      assert [sets[0]] + rest == sets;
    }
  }

  /** The head of a pairwise-low list meets no later set in two accounts, and the tail is
      pairwise low too. */
  lemma PairwiseLowTail(sets: seq<Group>)
    requires PairwiseLow(sets) && sets != []
    ensures forall s :: s in sets[1..] ==> |sets[0] * s| < 2
    ensures PairwiseLow(sets[1..])
  {
    var rest := sets[1..];
    forall s | s in rest ensures |sets[0] * s| < 2 {
      var k :| 0 <= k < |rest| && rest[k] == s;
      assert s == sets[k + 1];
    }
    forall i, j | 0 <= i < j < |rest| ensures |rest[i] * rest[j]| < 2 {
      assert rest[i] == sets[i + 1] && rest[j] == sets[j + 1];
    }
  }

  lemma {:induction false} AbsorbNothing(cur: Group, rest: seq<Group>)
    requires forall s :: s in rest ==> |cur * s| < 2
    ensures Absorb(cur, rest) == (cur, rest)
    decreases |rest|
  {
    if rest != [] {
      assert rest[0] in rest;
      assert forall s :: s in rest[1..] ==> s in rest;
      AbsorbNothing(cur, rest[1..]);
      assert [rest[0]] + rest[1..] == rest;
    }
  }

  /** The fixpoint: no two sets overlap in two accounts, no account is lost or added, every
      input set sits inside one output set, and one more pass changes nothing. */
  lemma {:induction false} FixpointSpec(sets: seq<Group>)
    ensures PairwiseLow(Fixpoint(sets))
    ensures Pass(Fixpoint(sets)) == Fixpoint(sets)
    ensures Union(Fixpoint(sets)) == Union(sets)
    ensures Covers(sets, Fixpoint(sets))
    ensures sets != [] ==> Fixpoint(sets) != []
    decreases |sets|
  {
    PassShrinks(sets);
    var p := Pass(sets);
    if |p| < |sets| {
      PassSpec(sets);
      FixpointSpec(p);
      forall s | s in sets ensures exists t :: t in Fixpoint(sets) && s <= t {
        var t :| t in p && s <= t;
        var t' :| t' in Fixpoint(p) && t <= t';
      }
    } else {
      PassFixed(sets);
      forall s | s in sets ensures exists t :: t in Fixpoint(sets) && s <= t {
        assert s in Fixpoint(sets);
      }
    }
  }

  /** Every account named in some list. */
  function Members(gs: seq<seq<Account>>): set<Account>
  {
    set g, a | g in gs && a in g :: a
  }

  lemma MembersOfSets(groups: seq<seq<Account>>)
    ensures Members(groups) == Union(ToSets(groups))
  {
    var sets := ToSets(groups);
    forall a ensures a in Members(groups) <==> a in Union(sets) {
      UnionMember(sets, a);
      if a in Members(groups) {
        var g :| g in groups && a in g;
        var m :| 0 <= m < |groups| && groups[m] == g;
        assert a in sets[m] && sets[m] in sets;
      }
      if a in Union(sets) {
        var s :| s in sets && a in s;
        var m :| 0 <= m < |sets| && sets[m] == s;
        assert groups[m] in groups && a in groups[m];
      }
    }
  }

  /** Every merged ring is a sorted, duplicate-free list, and no two rings share two accounts. */
  lemma MergedShape(groups: seq<seq<Account>>)
    ensures forall r :: r in Merged(groups) ==> StrictlySorted(r)
    ensures forall i, j :: 0 <= i < j < |Merged(groups)| ==>
              |Elems(Merged(groups)[i]) * Elems(Merged(groups)[j])| < 2
    ensures |Merged(groups)| > 0 <==> |groups| > 0
  {
    if groups != [] {
      FixpointSpec(ToSets(groups));
    }
  }

  lemma ToSetsSortAll(sets: seq<Group>)
    ensures ToSets(SortAll(sets)) == sets
  {
  }

  /** Merging neither loses nor invents an account. */
  lemma MergedKeepsMembers(groups: seq<seq<Account>>)
    ensures Members(Merged(groups)) == Members(groups)
  {
    if groups != [] {
      var fix := Fixpoint(ToSets(groups));
      FixpointSpec(ToSets(groups));
      ToSetsSortAll(fix);
      MembersOfSets(groups);
      MembersOfSets(SortAll(fix));
    }
  }

  /** Merging never splits an input group: each lies inside one ring. */
  lemma MergedCoversGroups(groups: seq<seq<Account>>)
    ensures forall g :: g in groups ==> exists r :: r in Merged(groups) && Elems(g) <= Elems(r)
  {
    if groups != [] {
      var sets := ToSets(groups);
      FixpointSpec(sets);
      forall g | g in groups ensures exists r :: r in Merged(groups) && Elems(g) <= Elems(r) {
        var m :| 0 <= m < |groups| && groups[m] == g;
        assert sets[m] in sets;
        GroupInRing(sets[m], Fixpoint(sets));
      }
    }
  }

  lemma GroupInRing(s: Group, fix: seq<Group>)
    requires exists t :: t in fix && s <= t
    ensures exists r :: r in SortAll(fix) && s <= Elems(r)
  {
    var t :| t in fix && s <= t;
    var k :| 0 <= k < |fix| && fix[k] == t;
    assert SortAll(fix)[k] in SortAll(fix);
  }

  /** Every set a pass produces contains some set it was given. */
  ghost predicate Grounded(sets: seq<Group>, bigger: seq<Group>)
  {
    forall t :: t in bigger ==> exists s :: s in sets && s <= t
  }

  lemma {:induction false} AbsorbKeptFrom(cur: Group, rest: seq<Group>)
    ensures forall s :: s in Absorb(cur, rest).1 ==> s in rest
    ensures cur <= Absorb(cur, rest).0
    decreases |rest|
  {
    if rest != [] {
      assert forall s :: s in rest[1..] ==> s in rest;
      if |cur * rest[0]| >= 2 {
        AbsorbKeptFrom(cur + rest[0], rest[1..]);
      } else {
        AbsorbKeptFrom(cur, rest[1..]);
      }
    }
  }

  lemma {:induction false} PassGrounded(sets: seq<Group>)
    ensures Grounded(sets, Pass(sets))
    decreases |sets|
  {
    if sets != [] {
      var (c, kept) := Absorb(sets[0], sets[1..]);
      AbsorbKeptFrom(sets[0], sets[1..]);
      PassShrinks(kept);
      PassGrounded(kept);
      forall t | t in Pass(sets) ensures exists s :: s in sets && s <= t {
        if t == c {
          assert sets[0] in sets;
        } else {
          assert t in Pass(kept);
          var s :| s in kept && s <= t;
          assert s in sets[1..];
          assert s in sets;
        }
      }
    }
  }

  lemma {:induction false} FixpointGrounded(sets: seq<Group>)
    ensures Grounded(sets, Fixpoint(sets))
    decreases |sets|
  {
    PassShrinks(sets);
    var p := Pass(sets);
    if |p| < |sets| {
      PassGrounded(sets);
      FixpointGrounded(p);
      forall t | t in Fixpoint(sets) ensures exists s :: s in sets && s <= t {
        var u :| u in p && u <= t;
        var s :| s in sets && s <= u;
      }
    } else {
      forall t | t in Fixpoint(sets) ensures exists s :: s in sets && s <= t {
        assert t in sets;
      }
    }
  }

  /** Every ring contains some whole input group: merging only ever grows groups. */
  lemma MergedGrounded(groups: seq<seq<Account>>)
    ensures forall r :: r in Merged(groups) ==> exists g :: g in groups && Elems(g) <= Elems(r)
  {
    if groups != [] {
      var sets := ToSets(groups);
      FixpointGrounded(sets);
      forall r | r in Merged(groups) ensures exists g :: g in groups && Elems(g) <= Elems(r) {
        var k :| 0 <= k < |Merged(groups)| && Merged(groups)[k] == r;
        var t := Fixpoint(sets)[k];
        assert t in Fixpoint(sets) && Elems(r) == t;
        var s :| s in sets && s <= t;
        var m :| 0 <= m < |sets| && sets[m] == s;
        assert groups[m] in groups;
      }
    }
  }

  /** Merging the merger's own output returns it unchanged. */
  lemma MergedIdempotent(groups: seq<seq<Account>>)
    ensures Merged(Merged(groups)) == Merged(groups)
  {
    if groups != [] {
      var fix := Fixpoint(ToSets(groups));
      FixpointSpec(ToSets(groups));
      var out := SortAll(fix);
      assert ToSets(out) == fix;
      PassShrinks(fix);
      assert Fixpoint(fix) == fix;
    }
  }
}
