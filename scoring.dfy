/** The scoring half of `analyze` in backend/graph_engine.py (lines 358-460): ring ids handed
    out in sequence, per-account scores, patterns and ring ids accumulated ring by ring, the
    false-positive penalty, the cap at 100 and each ring's risk as the mean of its members'
    final scores. Scores stay whole numbers in the source (every step adds, subtracts or
    clamps integers), so they are modelled as `int`. */
module Scoring {
  import opened Accounts
  import opened Ledger
  import opened Temporal
  import Smurfing
  import opened RingIds

  const CycleBase: int := 40
  const SmurfBase: int := 30
  const ShellBase: int := 25
  const Penalty: int := 50
  const ScoreCap: int := 100

  const ShellPattern: string := "layered_shell"
  const HighVelocity: string := "high_velocity"
  const RapidLayering: string := "rapid_layering"
  const Exception: string := "merchant_or_payroll_exception"

  /** One entry of `account_scores`. */
  datatype Info = Info(score: int, patterns: set<string>, ringIds: set<string>)

  /** `account_scores`: a dict, so its keys keep their insertion order. */
  datatype Board = Board(order: seq<Account>, info: map<Account, Info>)

  const EmptyBoard: Board := Board([], map[])

  /** A ring's `pattern_type`. */
  datatype PatternType = Cycle | FanOut | FanIn | LayeredShell

  function TypeName(p: PatternType): string
  {
    match p
    case Cycle => "cycle"
    case FanOut => "fan_out"
    case FanIn => "fan_in"
    case LayeredShell => ShellPattern
  }

  /** One entry of `fraud_rings`. */
  datatype FraudRing = FraudRing(ringId: string, members: seq<Account>, patternType: PatternType,
                                 risk: real, txCount: nat)

  /** The state the three ring loops carry: the scores and the rings so far. The source's
      `ring_counter` always equals the number of rings appended. */
  datatype Tally = Tally(board: Board, rings: seq<FraudRing>)

  function Min(a: int, b: int): int { if a <= b then a else b }

  function Max(a: int, b: int): int { if a >= b then a else b }

  /** A smurfing ring's `type`. */
  function KindType(k: Smurfing.Kind): PatternType
  {
    match k
    case FanOut => FanOut
    case FanIn => FanIn
  }

  function CycleLengthPattern(n: nat): string
  {
    "cycle_length_" + Decimal(n)
  }

  function ScoreOf(info: map<Account, Info>, a: Account): int
  {
    if a in info then info[a].score else 0
  }

  function PatternsOf(info: map<Account, Info>, a: Account): set<string>
  {
    if a in info then info[a].patterns else {}
  }

  function IdsOf(info: map<Account, Info>, a: Account): set<string>
  {
    if a in info then info[a].ringIds else {}
  }

  // ----- crediting accounts -----

  /** One `account_scores[a]` update: the default entry if `a` is new, then the score raised
      by `delta` and the patterns and ring ids added. */
  function Credit(b: Board, a: Account, delta: int, pats: set<string>, ids: set<string>): Board
  {
    var cur := if a in b.info then b.info[a] else Info(0, {}, {});
    Board(if a in b.info then b.order else b.order + [a],
          b.info[a := Info(cur.score + delta, cur.patterns + pats, cur.ringIds + ids)])
  }

  /** The same update for every account of `ms`, in order. */
  function CreditAll(b: Board, ms: seq<Account>, delta: int, pats: set<string>, ids: set<string>): Board
    decreases |ms|
  {
    if ms == [] then b else CreditAll(Credit(b, ms[0], delta, pats, ids), ms[1..], delta, pats, ids)
  }

  // ----- one ring of each kind -----

  /** `3 <= len(members) <= 5`. */
  predicate Accepted(members: seq<Account>)
  {
    3 <= |members| <= 5
  }

  /** What a member of an accepted cycle group gains: 40 plus the cycle velocity bonus of the
      timestamps gathered around the group's (sorted) member list. */
  function CycleGain(g: Graph, members: seq<Account>): int
  {
    CycleBase + CycleBonus(TimeSpan(EdgeTimestamps(g, members, true)))
  }

  /** What a member of a shell ring gains: 25 plus the shell velocity bonus of its path. */
  function ShellGain(g: Graph, members: seq<Account>): int
  {
    ShellBase + ShellBonus(TimeSpan(EdgeTimestamps(g, members, false)))
  }

  function NextId(t: Tally): string
  {
    RingId(|t.rings| + 1)
  }

  /** One iteration of the cycle loop. */
  function ScoreCycle(g: Graph, members: seq<Account>, t: Tally): Tally
  {
    if !Accepted(members) then t
    else
      var ts := EdgeTimestamps(g, members, true);
      CycleRing(members, CycleBonus(TimeSpan(ts)), |ts|, t)
  }

  /** An accepted cycle group, given its velocity bonus and timestamp count. Every member is
      credited; the `high_velocity` tag and the ring id go to the last member only, as the
      source's lines after the inner loop use the loop variable left at the last member. */
  function CycleRing(members: seq<Account>, bonus: int, n: nat, t: Tally): Tally
    requires members != []
  {
    var id := NextId(t);
    var credited := CreditAll(t.board, members, CycleBase + bonus, {CycleLengthPattern(|members|)}, {});
    var last := members[|members| - 1];
    var tagged := Credit(credited, last, 0, if bonus > 0 then {HighVelocity} else {}, {id});
    Tally(tagged, t.rings + [FraudRing(id, members, Cycle, Min(ScoreCap, CycleBase + bonus) as real, n)])
  }

  /** The transactions between a smurfing hub and its other members, in the ring's direction. */
  function HubCount(g: Graph, kind: Smurfing.Kind, hub: Account, ms: seq<Account>): nat
    decreases |ms|
  {
    if ms == [] then 0
    else
      var here := if ms[0] == hub then 0
                  else if kind.FanOut? then HopCount(g, hub, ms[0])
                  else HopCount(g, ms[0], hub);
      here + HubCount(g, kind, hub, ms[1..])
  }

  /** One iteration of the smurfing loop. */
  function ScoreSmurf(g: Graph, r: Smurfing.SmurfRing, t: Tally): Tally
  {
    var id := NextId(t);
    var credited := CreditAll(t.board, r.members, SmurfBase, {TypeName(KindType(r.kind))}, {id});
    Tally(credited, t.rings + [FraudRing(id, r.members, KindType(r.kind), SmurfBase as real,
                                         HubCount(g, r.kind, r.hub, r.members))])
  }

  /** One iteration of the shell loop. */
  function ScoreShell(g: Graph, members: seq<Account>, t: Tally): Tally
  {
    var ts := EdgeTimestamps(g, members, false);
    ShellRing(members, ShellBonus(TimeSpan(ts)), |ts|, t)
  }

  /** A shell ring, given its velocity bonus and timestamp count. */
  function ShellRing(members: seq<Account>, bonus: int, n: nat, t: Tally): Tally
  {
    var id := NextId(t);
    var pats := {ShellPattern} + (if bonus > 0 then {RapidLayering} else {});
    var credited := CreditAll(t.board, members, ShellBase + bonus, pats, {id});
    Tally(credited, t.rings + [FraudRing(id, members, LayeredShell, (ShellBase + bonus) as real, n)])
  }

  // ----- the three loops -----

  function CyclePhase(g: Graph, cs: seq<seq<Account>>, t: Tally): Tally
    decreases |cs|
  {
    if cs == [] then t else CyclePhase(g, cs[1..], ScoreCycle(g, cs[0], t))
  }

  function SmurfPhase(g: Graph, rs: seq<Smurfing.SmurfRing>, t: Tally): Tally
    decreases |rs|
  {
    if rs == [] then t else SmurfPhase(g, rs[1..], ScoreSmurf(g, rs[0], t))
  }

  function ShellPhase(g: Graph, ss: seq<seq<Account>>, t: Tally): Tally
    decreases |ss|
  {
    if ss == [] then t else ShellPhase(g, ss[1..], ScoreShell(g, ss[0], t))
  }

  /** The scores and rings after the three ring loops, before any penalty. */
  function RingTally(g: Graph, cs: seq<seq<Account>>, rs: seq<Smurfing.SmurfRing>, ss: seq<seq<Account>>): Tally
  {
    ShellPhase(g, ss, SmurfPhase(g, rs, CyclePhase(g, cs, Tally(EmptyBoard, []))))
  }

  // ----- penalty, cap and risk -----

  function Penalized(i: Info): Info
  {
    Info(Max(0, i.score - Penalty), i.patterns + {Exception}, i.ringIds)
  }

  /** The penalty loop: every legitimate account that has an entry loses 50, floored at 0,
      and is tagged as an exception. */
  function Penalize(info: map<Account, Info>, legit: set<Account>): map<Account, Info>
  {
    map a | a in info :: if a in legit then Penalized(info[a]) else info[a]
  }

  function Capped(i: Info): Info
  {
    i.(score := Min(ScoreCap, i.score))
  }

  /** The cap loop. */
  function Cap(info: map<Account, Info>): map<Account, Info>
  {
    map a | a in info :: Capped(info[a])
  }

  function SumScores(info: map<Account, Info>, ms: seq<Account>): int
    decreases |ms|
  {
    if ms == [] then 0 else SumScores(info, ms[..|ms| - 1]) + ScoreOf(info, ms[|ms| - 1])
  }

  /** The mean of the members' scores, 0.0 for a ring without members. */
  function MeanScore(info: map<Account, Info>, ms: seq<Account>): real
  {
    if ms == [] then 0.0 else SumScores(info, ms) as real / |ms| as real
  }

  /** The risk loop: each ring's `risk_score` replaced by its members' mean final score. */
  function WithRisk(rings: seq<FraudRing>, info: map<Account, Info>): (r: seq<FraudRing>)
    ensures |r| == |rings|
  {
    seq(|rings|, k requires 0 <= k < |rings| => rings[k].(risk := MeanScore(info, rings[k].members)))
  }

  /** `account_scores` and `fraud_rings` as `analyze` hands them on: the ring loops, then the
      penalty for the accounts in `legit`, the cap, and the ring risks. */
  function Scored(g: Graph, cs: seq<seq<Account>>, rs: seq<Smurfing.SmurfRing>, ss: seq<seq<Account>>,
                  legit: set<Account>): Tally
  {
    var t := RingTally(g, cs, rs, ss);
    var info := Cap(Penalize(t.board.info, legit));
    Tally(Board(t.board.order, info), WithRisk(t.rings, info))
  }

  // ----- what crediting does -----

  /** What `a` collects from crediting every account of `ms` with `d`: `d` per occurrence. */
  function Gained(ms: seq<Account>, a: Account, d: int): int
    decreases |ms|
  {
    if ms == [] then 0 else (if ms[0] == a then d else 0) + Gained(ms[1..], a, d)
  }

  /** The dict's keys are its insertion-order list, without repetition. */
  ghost predicate BoardOk(b: Board)
  {
    NoDup(b.order) && Elems(b.order) == b.info.Keys
  }

  lemma CreditOk(b: Board, a: Account, d: int, pats: set<string>, ids: set<string>)
    requires BoardOk(b)
    ensures BoardOk(Credit(b, a, d, pats, ids))
    ensures Credit(b, a, d, pats, ids).info.Keys == b.info.Keys + {a}
  {
    if a !in b.info {
      assert a !in b.order;
      NoDupSnoc(b.order, a);
    }
  }

  lemma CreditAt(b: Board, a: Account, d: int, pats: set<string>, ids: set<string>, x: Account)
    ensures ScoreOf(Credit(b, a, d, pats, ids).info, x) == ScoreOf(b.info, x) + (if x == a then d else 0)
    ensures PatternsOf(Credit(b, a, d, pats, ids).info, x) == PatternsOf(b.info, x) + (if x == a then pats else {})
    ensures IdsOf(Credit(b, a, d, pats, ids).info, x) == IdsOf(b.info, x) + (if x == a then ids else {})
  {
  }

  /** Crediting a list gives each listed account an entry. */
  lemma {:induction false} CreditAllKeys(b: Board, ms: seq<Account>, d: int, pats: set<string>, ids: set<string>)
    ensures CreditAll(b, ms, d, pats, ids).info.Keys == b.info.Keys + Elems(ms)
    decreases |ms|
  {
    if ms != [] {
      CreditAllKeys(Credit(b, ms[0], d, pats, ids), ms[1..], d, pats, ids);
      assert Elems(ms) == {ms[0]} + Elems(ms[1..]);
    }
  }

  /** Crediting a list adds each new account at the end of the insertion order. */
  lemma {:induction false} CreditAllOk(b: Board, ms: seq<Account>, d: int, pats: set<string>, ids: set<string>)
    requires BoardOk(b)
    ensures BoardOk(CreditAll(b, ms, d, pats, ids))
    ensures CreditAll(b, ms, d, pats, ids).info.Keys == b.info.Keys + Elems(ms)
    decreases |ms|
  {
    CreditAllKeys(b, ms, d, pats, ids);
    if ms != [] {
      CreditOk(b, ms[0], d, pats, ids);
      CreditAllOk(Credit(b, ms[0], d, pats, ids), ms[1..], d, pats, ids);
    }
  }

  /** Crediting a list raises each account's score by what it gains, and adds the patterns
      and ring ids to exactly the listed accounts. */
  lemma {:induction false} CreditAllAt(b: Board, ms: seq<Account>, d: int, pats: set<string>, ids: set<string>, x: Account)
    ensures ScoreOf(CreditAll(b, ms, d, pats, ids).info, x) == ScoreOf(b.info, x) + Gained(ms, x, d)
    ensures PatternsOf(CreditAll(b, ms, d, pats, ids).info, x) == PatternsOf(b.info, x) + (if x in ms then pats else {})
    ensures IdsOf(CreditAll(b, ms, d, pats, ids).info, x) == IdsOf(b.info, x) + (if x in ms then ids else {})
    decreases |ms|
  {
    if ms != [] {
      CreditAt(b, ms[0], d, pats, ids, x);
      CreditAllAt(Credit(b, ms[0], d, pats, ids), ms[1..], d, pats, ids, x);
      assert x in ms <==> x == ms[0] || x in ms[1..];
    }
  }

  /** On a list without repetition, a member gains `d` once and anyone else nothing. */
  lemma {:induction false} GainedOnce(ms: seq<Account>, a: Account, d: int)
    requires NoDup(ms)
    ensures Gained(ms, a, d) == if a in ms then d else 0
    decreases |ms|
  {
    if ms != [] {
      NoDupTail(ms);
      GainedOnce(ms[1..], a, d);
      assert a in ms <==> a == ms[0] || a in ms[1..];
    }
  }

  // ----- which accounts hold which ring ids -----

  /** Whether ring `r` hands its id to account `a`: for a cycle ring, only to its last member;
      for any other ring, to every member. */
  predicate Holds(r: FraudRing, a: Account)
  {
    if r.patternType == Cycle then r.members != [] && a == r.members[|r.members| - 1]
    else a in r.members
  }

  /** The ids of the rings that hand theirs to `a`. */
  function HeldIds(rings: seq<FraudRing>, a: Account): set<string>
    decreases |rings|
  {
    if rings == [] then {}
    else
      var r := rings[|rings| - 1];
      HeldIds(rings[..|rings| - 1], a) + (if Holds(r, a) then {r.ringId} else {})
  }

  /** Every account of every ring. */
  function RingMembers(rings: seq<FraudRing>): set<Account>
    decreases |rings|
  {
    if rings == [] then {} else RingMembers(rings[..|rings| - 1]) + Elems(rings[|rings| - 1].members)
  }

  /** Ring k (from 0) is `RING_` numbered k + 1. */
  ghost predicate Numbered(rings: seq<FraudRing>)
  {
    forall k :: 0 <= k < |rings| ==> rings[k].ringId == RingId(k + 1)
  }

  ghost predicate NoException(info: map<Account, Info>)
  {
    forall a :: a in info ==> Exception !in info[a].patterns
  }

  ghost predicate NonNegative(info: map<Account, Info>)
  {
    forall a :: a in info ==> info[a].score >= 0
  }

  ghost predicate IdsHeld(t: Tally)
  {
    forall a :: IdsOf(t.board.info, a) == HeldIds(t.rings, a)
  }

  /** What the ring loops maintain: the dict has an entry for exactly the ring members, each
      account's ring ids are those of the rings that hand it theirs, no score is negative, the
      exception tag is not yet used, and the rings are numbered in sequence. */
  ghost predicate TallyOk(t: Tally)
  {
    && BoardOk(t.board)
    && t.board.info.Keys == RingMembers(t.rings)
    && IdsHeld(t)
    && NoException(t.board.info)
    && NonNegative(t.board.info)
    && Numbered(t.rings)
  }

  lemma AppendRingMembers(rings: seq<FraudRing>, r: FraudRing)
    ensures RingMembers(rings + [r]) == RingMembers(rings) + Elems(r.members)
  {
    assert (rings + [r])[..|rings|] == rings;
  }

  lemma AppendRingHeld(rings: seq<FraudRing>, r: FraudRing, a: Account)
    ensures HeldIds(rings + [r], a) == HeldIds(rings, a) + (if Holds(r, a) then {r.ringId} else {})
  {
    assert (rings + [r])[..|rings|] == rings;
  }

  lemma PatternNames(n: nat)
    ensures CycleLengthPattern(n) != Exception && HighVelocity != Exception
    ensures ShellPattern != Exception && RapidLayering != Exception
    ensures TypeName(FanOut) != Exception && TypeName(FanIn) != Exception
  {
    assert CycleLengthPattern(n)[0] == 'c' && Exception[0] == 'm';
    assert HighVelocity[0] == 'h' && ShellPattern[0] == 'l' && RapidLayering[0] == 'r';
    assert TypeName(FanOut)[0] == 'f' && TypeName(FanIn)[0] == 'f';
  }

  /** The conditions of `TallyOk` for a tally extended by one ring `r` whose members were
      credited: from `t` to the board `b` the keys grew by the members, the ring ids by `r`'s
      id where `r` hands it, and the patterns and scores by a non-exception set and a
      non-negative amount. */
  lemma ExtendOk(t: Tally, b: Board, r: FraudRing)
    requires TallyOk(t) && BoardOk(b)
    requires b.info.Keys == t.board.info.Keys + Elems(r.members)
    requires forall x :: IdsOf(b.info, x) == IdsOf(t.board.info, x) + (if Holds(r, x) then {r.ringId} else {})
    requires NoException(b.info) && NonNegative(b.info)
    requires r.ringId == RingId(|t.rings| + 1)
    ensures TallyOk(Tally(b, t.rings + [r]))
  {
    var t' := Tally(b, t.rings + [r]);
    AppendRingMembers(t.rings, r);
    HeldAppend(t, b, r);
    NumberedAppend(t.rings, r);
  }

  lemma HeldAppend(t: Tally, b: Board, r: FraudRing)
    requires IdsHeld(t)
    requires forall x :: IdsOf(b.info, x) == IdsOf(t.board.info, x) + (if Holds(r, x) then {r.ringId} else {})
    ensures IdsHeld(Tally(b, t.rings + [r]))
  {
    forall x ensures IdsOf(b.info, x) == HeldIds(t.rings + [r], x) {
      AppendRingHeld(t.rings, r, x);
    }
  }

  lemma NumberedAppend(rings: seq<FraudRing>, r: FraudRing)
    requires Numbered(rings) && r.ringId == RingId(|rings| + 1)
    ensures Numbered(rings + [r])
  {
    forall k | 0 <= k < |rings| + 1 ensures (rings + [r])[k].ringId == RingId(k + 1) {
      if k < |rings| { assert (rings + [r])[k] == rings[k]; }
    }
  }

  lemma ScoreCycleOk(g: Graph, members: seq<Account>, t: Tally)
    requires TallyOk(t)
    ensures TallyOk(ScoreCycle(g, members, t))
  {
    if Accepted(members) {
      var ts := EdgeTimestamps(g, members, true);
      CycleRingOk(members, CycleBonus(TimeSpan(ts)), |ts|, t);
    }
  }

  lemma CycleRingOk(members: seq<Account>, bonus: int, n: nat, t: Tally)
    requires members != [] && bonus >= 0
    requires TallyOk(t)
    ensures TallyOk(CycleRing(members, bonus, n, t))
  {
    PatternNames(|members|);
    var pats := {CycleLengthPattern(|members|)};
    var hv: set<string> := if bonus > 0 then {HighVelocity} else {};
    var r := FraudRing(NextId(t), members, Cycle, Min(ScoreCap, CycleBase + bonus) as real, n);
    var result := CycleRing(members, bonus, n, t);
    assert result == Tally(Credit(CreditAll(t.board, members, CycleBase + bonus, pats, {}),
                                  members[|members| - 1], 0, hv, {NextId(t)}), t.rings + [r]);
    TagLastOk(t, CycleBase + bonus, pats, hv, r, result);
  }

  /** A cycle ring: every member is credited, then the last one tagged with the ring's id. */
  lemma TagLastOk(t: Tally, d: int, pats: set<string>, hv: set<string>, r: FraudRing, result: Tally)
    requires TallyOk(t)
    requires d >= 0 && Exception !in pats && Exception !in hv
    requires r.patternType == Cycle && r.members != [] && r.ringId == NextId(t)
    requires result == Tally(Credit(CreditAll(t.board, r.members, d, pats, {}), r.members[|r.members| - 1], 0, hv, {r.ringId}),
                             t.rings + [r])
    ensures TallyOk(result)
  {
    var credited := CreditAll(t.board, r.members, d, pats, {});
    var last := r.members[|r.members| - 1];
    var tagged := Credit(credited, last, 0, hv, {r.ringId});
    CreditAllOk(t.board, r.members, d, pats, {});
    CreditOk(credited, last, 0, hv, {r.ringId});
    GainedNonNegative(r.members, d);
    forall x
      ensures IdsOf(tagged.info, x) == IdsOf(t.board.info, x) + (if Holds(r, x) then {r.ringId} else {})
      ensures x in tagged.info ==> Exception !in tagged.info[x].patterns
      ensures x in tagged.info ==> tagged.info[x].score >= 0
    {
      CreditAllAt(t.board, r.members, d, pats, {}, x);
      CreditAt(credited, last, 0, hv, {r.ringId}, x);
    }
    ExtendOk(t, tagged, r);
  }

  lemma {:induction false} GainedNonNegative(ms: seq<Account>, d: int)
    requires d >= 0
    ensures forall a :: Gained(ms, a, d) >= 0
    decreases |ms|
  {
    if ms != [] { GainedNonNegative(ms[1..], d); }
  }

  /** A non-cycle ring: every member is credited with the same patterns and the ring's id. */
  lemma CreditRingOk(t: Tally, d: int, pats: set<string>, r: FraudRing)
    requires TallyOk(t)
    requires d >= 0 && Exception !in pats && r.patternType != Cycle && r.ringId == NextId(t)
    ensures TallyOk(Tally(CreditAll(t.board, r.members, d, pats, {r.ringId}), t.rings + [r]))
  {
    var credited := CreditAll(t.board, r.members, d, pats, {r.ringId});
    CreditAllOk(t.board, r.members, d, pats, {r.ringId});
    GainedNonNegative(r.members, d);
    forall x
      ensures IdsOf(credited.info, x) == IdsOf(t.board.info, x) + (if Holds(r, x) then {r.ringId} else {})
      ensures x in credited.info ==> Exception !in credited.info[x].patterns
      ensures x in credited.info ==> credited.info[x].score >= 0
    {
      CreditAllAt(t.board, r.members, d, pats, {r.ringId}, x);
    }
    ExtendOk(t, credited, r);
  }

  lemma ScoreSmurfOk(g: Graph, r: Smurfing.SmurfRing, t: Tally)
    requires TallyOk(t)
    ensures TallyOk(ScoreSmurf(g, r, t))
  {
    PatternNames(0);
    var fr := FraudRing(NextId(t), r.members, KindType(r.kind), SmurfBase as real, HubCount(g, r.kind, r.hub, r.members));
    CreditRingOk(t, SmurfBase, {TypeName(KindType(r.kind))}, fr);
  }

  lemma ScoreShellOk(g: Graph, members: seq<Account>, t: Tally)
    requires TallyOk(t)
    ensures TallyOk(ScoreShell(g, members, t))
  {
    var ts := EdgeTimestamps(g, members, false);
    ShellRingOk(members, ShellBonus(TimeSpan(ts)), |ts|, t);
  }

  lemma ShellRingOk(members: seq<Account>, bonus: int, n: nat, t: Tally)
    requires bonus >= 0
    requires TallyOk(t)
    ensures TallyOk(ShellRing(members, bonus, n, t))
  {
    PatternNames(0);
    var pats := {ShellPattern} + (if bonus > 0 then {RapidLayering} else {});
    CreditRingOk(t, ShellBase + bonus, pats, FraudRing(NextId(t), members, LayeredShell, (ShellBase + bonus) as real, n));
  }

  lemma {:induction false} CyclePhaseOk(g: Graph, cs: seq<seq<Account>>, t: Tally)
    requires TallyOk(t)
    ensures TallyOk(CyclePhase(g, cs, t))
    decreases |cs|
  {
    if cs != [] {
      ScoreCycleOk(g, cs[0], t);
      CyclePhaseOk(g, cs[1..], ScoreCycle(g, cs[0], t));
    }
  }

  lemma {:induction false} SmurfPhaseOk(g: Graph, rs: seq<Smurfing.SmurfRing>, t: Tally)
    requires TallyOk(t)
    ensures TallyOk(SmurfPhase(g, rs, t))
    decreases |rs|
  {
    if rs != [] {
      ScoreSmurfOk(g, rs[0], t);
      SmurfPhaseOk(g, rs[1..], ScoreSmurf(g, rs[0], t));
    }
  }

  lemma {:induction false} ShellPhaseOk(g: Graph, ss: seq<seq<Account>>, t: Tally)
    requires TallyOk(t)
    ensures TallyOk(ShellPhase(g, ss, t))
    decreases |ss|
  {
    if ss != [] {
      ScoreShellOk(g, ss[0], t);
      ShellPhaseOk(g, ss[1..], ScoreShell(g, ss[0], t));
    }
  }

  lemma RingTallyOk(g: Graph, cs: seq<seq<Account>>, rs: seq<Smurfing.SmurfRing>, ss: seq<seq<Account>>)
    ensures TallyOk(RingTally(g, cs, rs, ss))
  {
    var t0 := Tally(EmptyBoard, []);
    assert IdsHeld(t0);
    CyclePhaseOk(g, cs, t0);
    SmurfPhaseOk(g, rs, CyclePhase(g, cs, t0));
    ShellPhaseOk(g, ss, SmurfPhase(g, rs, CyclePhase(g, cs, t0)));
  }

  // ----- what each account gains -----

  /** What `a` gains in the cycle loop: for each accepted group, 40 plus the group's bonus per
      time `a` is listed. */
  function CycleGains(g: Graph, cs: seq<seq<Account>>, a: Account): int
    decreases |cs|
  {
    if cs == [] then 0
    else (if Accepted(cs[0]) then Gained(cs[0], a, CycleGain(g, cs[0])) else 0) + CycleGains(g, cs[1..], a)
  }

  /** What `a` gains in the smurfing loop: 30 per ring listing it. */
  function SmurfGains(rs: seq<Smurfing.SmurfRing>, a: Account): int
    decreases |rs|
  {
    if rs == [] then 0 else Gained(rs[0].members, a, SmurfBase) + SmurfGains(rs[1..], a)
  }

  /** What `a` gains in the shell loop: 25 plus the ring's bonus per ring listing it. */
  function ShellGains(g: Graph, ss: seq<seq<Account>>, a: Account): int
    decreases |ss|
  {
    if ss == [] then 0 else Gained(ss[0], a, ShellGain(g, ss[0])) + ShellGains(g, ss[1..], a)
  }

  /** An account's score before the penalty: the sum of its gains over all rings. */
  function RawScore(g: Graph, cs: seq<seq<Account>>, rs: seq<Smurfing.SmurfRing>, ss: seq<seq<Account>>,
                    a: Account): int
  {
    CycleGains(g, cs, a) + SmurfGains(rs, a) + ShellGains(g, ss, a)
  }

  lemma CycleRingScore(members: seq<Account>, bonus: int, n: nat, t: Tally, a: Account)
    requires members != []
    ensures ScoreOf(CycleRing(members, bonus, n, t).board.info, a)
         == ScoreOf(t.board.info, a) + Gained(members, a, CycleBase + bonus)
  {
    var pats := {CycleLengthPattern(|members|)};
    var credited := CreditAll(t.board, members, CycleBase + bonus, pats, {});
    CreditAllAt(t.board, members, CycleBase + bonus, pats, {}, a);
    CreditAt(credited, members[|members| - 1], 0, if bonus > 0 then {HighVelocity} else {}, {NextId(t)}, a);
  }

  lemma ShellRingScore(members: seq<Account>, bonus: int, n: nat, t: Tally, a: Account)
    ensures ScoreOf(ShellRing(members, bonus, n, t).board.info, a)
         == ScoreOf(t.board.info, a) + Gained(members, a, ShellBase + bonus)
  {
    var pats := {ShellPattern} + (if bonus > 0 then {RapidLayering} else {});
    CreditAllAt(t.board, members, ShellBase + bonus, pats, {NextId(t)}, a);
  }

  lemma {:induction false} CyclePhaseScore(g: Graph, cs: seq<seq<Account>>, t: Tally, a: Account)
    ensures ScoreOf(CyclePhase(g, cs, t).board.info, a) == ScoreOf(t.board.info, a) + CycleGains(g, cs, a)
    decreases |cs|
  {
    if cs != [] {
      var t1 := ScoreCycle(g, cs[0], t);
      if Accepted(cs[0]) {
        var ts := EdgeTimestamps(g, cs[0], true);
        var bonus := CycleBonus(TimeSpan(ts));
        assert t1 == CycleRing(cs[0], bonus, |ts|, t);
        assert CycleGain(g, cs[0]) == CycleBase + bonus;
        CycleRingScore(cs[0], bonus, |ts|, t, a);
      }
      CyclePhaseScore(g, cs[1..], t1, a);
      assert CyclePhase(g, cs, t) == CyclePhase(g, cs[1..], t1);
    }
  }

  lemma {:induction false} SmurfPhaseScore(g: Graph, rs: seq<Smurfing.SmurfRing>, t: Tally, a: Account)
    ensures ScoreOf(SmurfPhase(g, rs, t).board.info, a) == ScoreOf(t.board.info, a) + SmurfGains(rs, a)
    decreases |rs|
  {
    if rs != [] {
      CreditAllAt(t.board, rs[0].members, SmurfBase, {TypeName(KindType(rs[0].kind))}, {NextId(t)}, a);
      SmurfPhaseScore(g, rs[1..], ScoreSmurf(g, rs[0], t), a);
    }
  }

  lemma {:induction false} ShellPhaseScore(g: Graph, ss: seq<seq<Account>>, t: Tally, a: Account)
    ensures ScoreOf(ShellPhase(g, ss, t).board.info, a) == ScoreOf(t.board.info, a) + ShellGains(g, ss, a)
    decreases |ss|
  {
    if ss != [] {
      var ts := EdgeTimestamps(g, ss[0], false);
      var bonus := ShellBonus(TimeSpan(ts));
      var t1 := ScoreShell(g, ss[0], t);
      assert t1 == ShellRing(ss[0], bonus, |ts|, t);
      assert ShellGain(g, ss[0]) == ShellBase + bonus;
      ShellRingScore(ss[0], bonus, |ts|, t, a);
      ShellPhaseScore(g, ss[1..], t1, a);
      assert ShellPhase(g, ss, t) == ShellPhase(g, ss[1..], t1);
      assert ShellGains(g, ss, a) == Gained(ss[0], a, ShellBase + bonus) + ShellGains(g, ss[1..], a);
    }
  }

  /** Before the penalty, an account's score is exactly the sum of what it gains: 40 plus the
      cycle bonus per accepted cycle group, 30 per smurfing ring, 25 plus the shell bonus per
      shell ring. */
  lemma RingTallyScore(g: Graph, cs: seq<seq<Account>>, rs: seq<Smurfing.SmurfRing>, ss: seq<seq<Account>>,
                       a: Account)
    ensures ScoreOf(RingTally(g, cs, rs, ss).board.info, a) == RawScore(g, cs, rs, ss, a)
  {
    var t0 := Tally(EmptyBoard, []);
    CyclePhaseScore(g, cs, t0, a);
    SmurfPhaseScore(g, rs, CyclePhase(g, cs, t0), a);
    ShellPhaseScore(g, ss, SmurfPhase(g, rs, CyclePhase(g, cs, t0)), a);
  }

  // ----- which patterns each account collects -----

  /** The patterns `a` collects from one cycle group: `cycle_length_n` if the group is accepted
      and lists it, and `high_velocity` if the group is accepted, has a velocity bonus and ends
      with it. */
  function GroupPatterns(g: Graph, c: seq<Account>, a: Account): set<string>
  {
    if !Accepted(c) then {}
    else
      (if a in c then {CycleLengthPattern(|c|)} else {}) +
      (if a == c[|c| - 1] && CycleBonus(TimeSpan(EdgeTimestamps(g, c, true))) > 0 then {HighVelocity} else {})
  }

  /** The patterns `a` collects in the cycle loop. */
  function CyclePatterns(g: Graph, cs: seq<seq<Account>>, a: Account): set<string>
    decreases |cs|
  {
    if cs == [] then {} else GroupPatterns(g, cs[0], a) + CyclePatterns(g, cs[1..], a)
  }

  /** The patterns `a` collects in the smurfing loop: the `type` of every ring listing it. */
  function SmurfPatterns(rs: seq<Smurfing.SmurfRing>, a: Account): set<string>
    decreases |rs|
  {
    if rs == [] then {}
    else (if a in rs[0].members then {TypeName(KindType(rs[0].kind))} else {}) + SmurfPatterns(rs[1..], a)
  }

  /** The patterns `a` collects in the shell loop: `layered_shell` from every ring listing it,
      and `rapid_layering` from every such ring with a velocity bonus. */
  function ShellPatterns(g: Graph, ss: seq<seq<Account>>, a: Account): set<string>
    decreases |ss|
  {
    if ss == [] then {}
    else
      (if a in ss[0] then {ShellPattern} + (if ShellBonus(TimeSpan(EdgeTimestamps(g, ss[0], false))) > 0 then {RapidLayering} else {})
       else {}) + ShellPatterns(g, ss[1..], a)
  }

  /** An account's patterns from the three ring loops. */
  function RawPatterns(g: Graph, cs: seq<seq<Account>>, rs: seq<Smurfing.SmurfRing>, ss: seq<seq<Account>>,
                       a: Account): set<string>
  {
    CyclePatterns(g, cs, a) + SmurfPatterns(rs, a) + ShellPatterns(g, ss, a)
  }

  lemma CycleRingPatterns(members: seq<Account>, bonus: int, n: nat, t: Tally, a: Account)
    requires members != []
    ensures PatternsOf(CycleRing(members, bonus, n, t).board.info, a)
         == PatternsOf(t.board.info, a)
            + (if a in members then {CycleLengthPattern(|members|)} else {})
            + (if a == members[|members| - 1] && bonus > 0 then {HighVelocity} else {})
  {
    var pats := {CycleLengthPattern(|members|)};
    var credited := CreditAll(t.board, members, CycleBase + bonus, pats, {});
    CreditAllAt(t.board, members, CycleBase + bonus, pats, {}, a);
    CreditAt(credited, members[|members| - 1], 0, if bonus > 0 then {HighVelocity} else {}, {NextId(t)}, a);
  }

  lemma ScoreCyclePatterns(g: Graph, c: seq<Account>, t: Tally, a: Account)
    ensures PatternsOf(ScoreCycle(g, c, t).board.info, a) == PatternsOf(t.board.info, a) + GroupPatterns(g, c, a)
  {
    if Accepted(c) {
      var ts := EdgeTimestamps(g, c, true);
      var bonus := CycleBonus(TimeSpan(ts));
      assert ScoreCycle(g, c, t) == CycleRing(c, bonus, |ts|, t);
      CycleRingPatterns(c, bonus, |ts|, t, a);
    }
  }

  lemma {:induction false} CyclePhasePatterns(g: Graph, cs: seq<seq<Account>>, t: Tally, a: Account)
    ensures PatternsOf(CyclePhase(g, cs, t).board.info, a) == PatternsOf(t.board.info, a) + CyclePatterns(g, cs, a)
    decreases |cs|
  {
    if cs != [] {
      var t1 := ScoreCycle(g, cs[0], t);
      ScoreCyclePatterns(g, cs[0], t, a);
      CyclePhasePatterns(g, cs[1..], t1, a);
      assert CyclePhase(g, cs, t) == CyclePhase(g, cs[1..], t1);
      assert CyclePatterns(g, cs, a) == GroupPatterns(g, cs[0], a) + CyclePatterns(g, cs[1..], a);
    }
  }

  lemma {:induction false} SmurfPhasePatterns(g: Graph, rs: seq<Smurfing.SmurfRing>, t: Tally, a: Account)
    ensures PatternsOf(SmurfPhase(g, rs, t).board.info, a) == PatternsOf(t.board.info, a) + SmurfPatterns(rs, a)
    decreases |rs|
  {
    if rs != [] {
      CreditAllAt(t.board, rs[0].members, SmurfBase, {TypeName(KindType(rs[0].kind))}, {NextId(t)}, a);
      SmurfPhasePatterns(g, rs[1..], ScoreSmurf(g, rs[0], t), a);
    }
  }

  lemma {:induction false} ShellPhasePatterns(g: Graph, ss: seq<seq<Account>>, t: Tally, a: Account)
    ensures PatternsOf(ShellPhase(g, ss, t).board.info, a) == PatternsOf(t.board.info, a) + ShellPatterns(g, ss, a)
    decreases |ss|
  {
    if ss != [] {
      var ts := EdgeTimestamps(g, ss[0], false);
      var bonus := ShellBonus(TimeSpan(ts));
      var t1 := ScoreShell(g, ss[0], t);
      var pats := {ShellPattern} + (if bonus > 0 then {RapidLayering} else {});
      assert t1 == ShellRing(ss[0], bonus, |ts|, t);
      CreditAllAt(t.board, ss[0], ShellBase + bonus, pats, {NextId(t)}, a);
      ShellPhasePatterns(g, ss[1..], t1, a);
      assert ShellPhase(g, ss, t) == ShellPhase(g, ss[1..], t1);
    }
  }

  /** Before the penalty, an account's patterns are exactly those it collects ring by ring. */
  lemma RingTallyPatterns(g: Graph, cs: seq<seq<Account>>, rs: seq<Smurfing.SmurfRing>, ss: seq<seq<Account>>,
                          a: Account)
    ensures PatternsOf(RingTally(g, cs, rs, ss).board.info, a) == RawPatterns(g, cs, rs, ss, a)
  {
    var t0 := Tally(EmptyBoard, []);
    CyclePhasePatterns(g, cs, t0, a);
    SmurfPhasePatterns(g, rs, CyclePhase(g, cs, t0), a);
    ShellPhasePatterns(g, ss, SmurfPhase(g, rs, CyclePhase(g, cs, t0)), a);
  }

  /** Each scored account's `patterns`: what it collected ring by ring (the `cycle_length_n`
      tags of its accepted cycle groups, `high_velocity` only where it is the last member of a
      fast group, the smurfing types, `layered_shell` and `rapid_layering`), plus the
      exception tag exactly when it is legitimate. */
  lemma ScoredPatterns(g: Graph, cs: seq<seq<Account>>, rs: seq<Smurfing.SmurfRing>, ss: seq<seq<Account>>,
                       legit: set<Account>, a: Account)
    ensures Exception !in RawPatterns(g, cs, rs, ss, a)
    ensures var info := Scored(g, cs, rs, ss, legit).board.info;
            a in info ==>
              && info[a].patterns == RawPatterns(g, cs, rs, ss, a) + (if a in legit then {Exception} else {})
              && info[a].patterns - {Exception} == RawPatterns(g, cs, rs, ss, a)
  {
    var t := RingTally(g, cs, rs, ss);
    RingTallyOk(g, cs, rs, ss);
    RingTallyPatterns(g, cs, rs, ss, a);
    assert a in t.board.info ==> Exception !in t.board.info[a].patterns;
  }

  // ----- which rings are listed -----

  /** What identifies a ring apart from its id and its figures: its members and its type. */
  function Shapes(rings: seq<FraudRing>): (r: seq<(seq<Account>, PatternType)>)
    ensures |r| == |rings|
  {
    seq(|rings|, k requires 0 <= k < |rings| => (rings[k].members, rings[k].patternType))
  }

  /** The accepted cycle groups, in order. */
  function CycleShapes(cs: seq<seq<Account>>): seq<(seq<Account>, PatternType)>
    decreases |cs|
  {
    if cs == [] then [] else (if Accepted(cs[0]) then [(cs[0], Cycle)] else []) + CycleShapes(cs[1..])
  }

  function SmurfShapes(rs: seq<Smurfing.SmurfRing>): seq<(seq<Account>, PatternType)>
    decreases |rs|
  {
    if rs == [] then [] else [(rs[0].members, KindType(rs[0].kind))] + SmurfShapes(rs[1..])
  }

  function ShellShapes(ss: seq<seq<Account>>): seq<(seq<Account>, PatternType)>
    decreases |ss|
  {
    if ss == [] then [] else [(ss[0], LayeredShell)] + ShellShapes(ss[1..])
  }

  lemma ShapesAppend(rings: seq<FraudRing>, r: FraudRing)
    ensures Shapes(rings + [r]) == Shapes(rings) + [(r.members, r.patternType)]
  {
  }

  lemma {:induction false} CyclePhaseShapes(g: Graph, cs: seq<seq<Account>>, t: Tally)
    ensures Shapes(CyclePhase(g, cs, t).rings) == Shapes(t.rings) + CycleShapes(cs)
    decreases |cs|
  {
    if cs != [] {
      var t1 := ScoreCycle(g, cs[0], t);
      CyclePhaseShapes(g, cs[1..], t1);
      if Accepted(cs[0]) {
        ShapesAppend(t.rings, t1.rings[|t.rings|]);
        assert t1.rings == t.rings + [t1.rings[|t.rings|]];
      }
      Assoc(Shapes(t.rings), if Accepted(cs[0]) then [(cs[0], Cycle)] else [], CycleShapes(cs[1..]));
    }
  }

  lemma {:induction false} SmurfPhaseShapes(g: Graph, rs: seq<Smurfing.SmurfRing>, t: Tally)
    ensures Shapes(SmurfPhase(g, rs, t).rings) == Shapes(t.rings) + SmurfShapes(rs)
    decreases |rs|
  {
    if rs != [] {
      var t1 := ScoreSmurf(g, rs[0], t);
      SmurfPhaseShapes(g, rs[1..], t1);
      ShapesAppend(t.rings, t1.rings[|t.rings|]);
      assert t1.rings == t.rings + [t1.rings[|t.rings|]];
      Assoc(Shapes(t.rings), [(rs[0].members, KindType(rs[0].kind))], SmurfShapes(rs[1..]));
    }
  }

  lemma {:induction false} ShellPhaseShapes(g: Graph, ss: seq<seq<Account>>, t: Tally)
    ensures Shapes(ShellPhase(g, ss, t).rings) == Shapes(t.rings) + ShellShapes(ss)
    decreases |ss|
  {
    if ss != [] {
      var t1 := ScoreShell(g, ss[0], t);
      ShellPhaseShapes(g, ss[1..], t1);
      ShapesAppend(t.rings, t1.rings[|t.rings|]);
      assert t1.rings == t.rings + [t1.rings[|t.rings|]];
      Assoc(Shapes(t.rings), [(ss[0], LayeredShell)], ShellShapes(ss[1..]));
    }
  }

  // ----- what analyze hands on -----

  lemma {:induction false} HeldIdsSame(r1: seq<FraudRing>, r2: seq<FraudRing>, a: Account)
    requires |r1| == |r2|
    requires forall k :: 0 <= k < |r1| ==>
               r1[k].ringId == r2[k].ringId && r1[k].members == r2[k].members && r1[k].patternType == r2[k].patternType
    ensures HeldIds(r1, a) == HeldIds(r2, a)
    decreases |r1|
  {
    if r1 != [] {
      HeldIdsSame(r1[..|r1| - 1], r2[..|r2| - 1], a);
    }
  }

  lemma {:induction false} HeldIdsMember(rings: seq<FraudRing>, a: Account, id: string)
    ensures id in HeldIds(rings, a) <==> exists k :: 0 <= k < |rings| && rings[k].ringId == id && Holds(rings[k], a)
    decreases |rings|
  {
    if rings != [] {
      var init := rings[..|rings| - 1];
      HeldIdsMember(init, a, id);
      if exists k :: 0 <= k < |init| && init[k].ringId == id && Holds(init[k], a) {
        var k :| 0 <= k < |init| && init[k].ringId == id && Holds(init[k], a);
        assert rings[k] == init[k];
      }
      if exists k :: 0 <= k < |rings| && rings[k].ringId == id && Holds(rings[k], a) {
        var k :| 0 <= k < |rings| && rings[k].ringId == id && Holds(rings[k], a);
        if k < |init| { assert init[k] == rings[k]; }
      }
    }
  }

  lemma {:induction false} RingMembersMember(rings: seq<FraudRing>, a: Account)
    ensures a in RingMembers(rings) <==> exists k :: 0 <= k < |rings| && a in rings[k].members
    decreases |rings|
  {
    if rings != [] {
      var init := rings[..|rings| - 1];
      RingMembersMember(init, a);
      if exists k :: 0 <= k < |init| && a in init[k].members {
        var k :| 0 <= k < |init| && a in init[k].members;
        assert rings[k] == init[k];
      }
      if exists k :: 0 <= k < |rings| && a in rings[k].members {
        var k :| 0 <= k < |rings| && a in rings[k].members;
        if k < |init| { assert init[k] == rings[k]; }
      }
    }
  }

  /** Setting the risks changes no ring's id, members or type. */
  lemma WithRiskKeeps(rings: seq<FraudRing>, info: map<Account, Info>)
    ensures Shapes(WithRisk(rings, info)) == Shapes(rings)
    ensures forall k :: 0 <= k < |rings| ==> WithRisk(rings, info)[k].ringId == rings[k].ringId
  {
  }

  lemma RingTallyShapes(g: Graph, cs: seq<seq<Account>>, rs: seq<Smurfing.SmurfRing>, ss: seq<seq<Account>>)
    ensures Shapes(RingTally(g, cs, rs, ss).rings) == CycleShapes(cs) + SmurfShapes(rs) + ShellShapes(ss)
  {
    var t0 := Tally(EmptyBoard, []);
    var t1 := CyclePhase(g, cs, t0);
    var t2 := SmurfPhase(g, rs, t1);
    var t3 := ShellPhase(g, ss, t2);
    assert Shapes(t0.rings) == [];
    CyclePhaseShapes(g, cs, t0);
    assert Shapes(t1.rings) == CycleShapes(cs);
    SmurfPhaseShapes(g, rs, t1);
    assert Shapes(t2.rings) == CycleShapes(cs) + SmurfShapes(rs);
    ShellPhaseShapes(g, ss, t2);
    assert t3 == RingTally(g, cs, rs, ss);
  }

  /** The rings are listed as the accepted cycle groups, then the smurfing rings, then the
      shell rings, and numbered `RING_001`, `RING_002`, ... in that order, so no two share an
      id and a skipped cycle group takes none. */
  lemma ScoredRings(g: Graph, cs: seq<seq<Account>>, rs: seq<Smurfing.SmurfRing>, ss: seq<seq<Account>>,
                    legit: set<Account>)
    ensures var rings := Scored(g, cs, rs, ss, legit).rings;
            && Shapes(rings) == CycleShapes(cs) + SmurfShapes(rs) + ShellShapes(ss)
            && (forall k :: 0 <= k < |rings| ==> rings[k].ringId == RingId(k + 1))
            && (forall i, j :: 0 <= i < j < |rings| ==> rings[i].ringId != rings[j].ringId)
  {
    var t := RingTally(g, cs, rs, ss);
    var info := Scored(g, cs, rs, ss, legit).board.info;
    var rings := WithRisk(t.rings, info);
    assert rings == Scored(g, cs, rs, ss, legit).rings;
    RingTallyShapes(g, cs, rs, ss);
    RingTallyOk(g, cs, rs, ss);
    WithRiskKeeps(t.rings, info);
    NumberedDistinct(rings);
  }

  lemma NumberedDistinct(rings: seq<FraudRing>)
    requires Numbered(rings)
    ensures forall i, j :: 0 <= i < j < |rings| ==> rings[i].ringId != rings[j].ringId
  {
    forall i, j | 0 <= i < j < |rings| ensures rings[i].ringId != rings[j].ringId {
      RingIdInjective(i + 1, j + 1);
    }
  }

  /** An account has an entry exactly when some listed ring has it as a member. */
  lemma ScoredKeys(g: Graph, cs: seq<seq<Account>>, rs: seq<Smurfing.SmurfRing>, ss: seq<seq<Account>>,
                   legit: set<Account>, a: Account)
    ensures var s := Scored(g, cs, rs, ss, legit);
            a in s.board.info <==> exists k :: 0 <= k < |s.rings| && a in s.rings[k].members
    ensures BoardOk(Scored(g, cs, rs, ss, legit).board)
  {
    var t := RingTally(g, cs, rs, ss);
    RingTallyOk(g, cs, rs, ss);
    assert BoardOk(t.board) && t.board.info.Keys == RingMembers(t.rings);
    FinalKeys(t, legit, a);
  }

  /** Finishing the scores and the risks keeps the dict's keys: exactly the ring members. */
  lemma FinalKeys(t: Tally, legit: set<Account>, a: Account)
    requires BoardOk(t.board) && t.board.info.Keys == RingMembers(t.rings)
    ensures var info := Cap(Penalize(t.board.info, legit));
            var rings := WithRisk(t.rings, info);
            && BoardOk(Board(t.board.order, info))
            && (a in info <==> exists k :: 0 <= k < |rings| && a in rings[k].members)
  {
    var info := Cap(Penalize(t.board.info, legit));
    var rings := WithRisk(t.rings, info);
    assert info.Keys == t.board.info.Keys;
    RingMembersMember(t.rings, a);
    WithRiskKeeps(t.rings, info);
    if exists k :: 0 <= k < |t.rings| && a in t.rings[k].members {
      var k :| 0 <= k < |t.rings| && a in t.rings[k].members;
      assert a in rings[k].members;
    }
    if exists k :: 0 <= k < |rings| && a in rings[k].members {
      var k :| 0 <= k < |rings| && a in rings[k].members;
      assert a in t.rings[k].members;
    }
  }

  /** Each account's final score: its gains, less 50 (floored at 0) if it is legitimate, capped
      at 100; so every final score lies in [0, 100]. The exception tag marks exactly the
      legitimate accounts that were scored. */
  lemma ScoredScore(g: Graph, cs: seq<seq<Account>>, rs: seq<Smurfing.SmurfRing>, ss: seq<seq<Account>>,
                    legit: set<Account>, a: Account)
    ensures var info := Scored(g, cs, rs, ss, legit).board.info;
            var raw := RawScore(g, cs, rs, ss, a);
            && raw >= 0
            && (a in info ==> info[a].score == Min(ScoreCap, if a in legit then Max(0, raw - Penalty) else raw))
            && 0 <= ScoreOf(info, a) <= ScoreCap
            && (a in info ==> (Exception in info[a].patterns <==> a in legit))
  {
    RingTallyOk(g, cs, rs, ss);
    RingTallyScore(g, cs, rs, ss, a);
  }

  /** Each account holds the ids of exactly the rings that hand it theirs: every member of a
      smurfing or shell ring, but only the last member of a cycle ring. */
  lemma ScoredIds(g: Graph, cs: seq<seq<Account>>, rs: seq<Smurfing.SmurfRing>, ss: seq<seq<Account>>,
                  legit: set<Account>, a: Account)
    ensures var s := Scored(g, cs, rs, ss, legit);
            forall k :: 0 <= k < |s.rings| ==> (s.rings[k].ringId in IdsOf(s.board.info, a) <==> Holds(s.rings[k], a))
    ensures var s := Scored(g, cs, rs, ss, legit);
            IdsOf(s.board.info, a) == HeldIds(s.rings, a)
  {
    var t := RingTally(g, cs, rs, ss);
    RingTallyOk(g, cs, rs, ss);
    assert IdsOf(t.board.info, a) == HeldIds(t.rings, a);
    FinalIds(t, legit, a);
  }

  /** Finishing the scores and the risks keeps which ids an account holds. */
  lemma FinalIds(t: Tally, legit: set<Account>, a: Account)
    requires IdsOf(t.board.info, a) == HeldIds(t.rings, a) && Numbered(t.rings)
    ensures var info := Cap(Penalize(t.board.info, legit));
            var rings := WithRisk(t.rings, info);
            && IdsOf(info, a) == HeldIds(rings, a)
            && forall k :: 0 <= k < |rings| ==> (rings[k].ringId in IdsOf(info, a) <==> Holds(rings[k], a))
  {
    var info := Cap(Penalize(t.board.info, legit));
    var rings := WithRisk(t.rings, info);
    assert IdsOf(info, a) == IdsOf(t.board.info, a);
    WithRiskKeeps(t.rings, info);
    HeldIdsSame(t.rings, rings, a);
    assert Numbered(rings);
    NumberedDistinct(rings);
    HeldIdsAt(rings, a);
  }

  /** With distinct ids, a ring's id is held exactly by the accounts the ring hands it to. */
  lemma HeldIdsAt(rings: seq<FraudRing>, a: Account)
    requires forall i, j :: 0 <= i < j < |rings| ==> rings[i].ringId != rings[j].ringId
    ensures forall k :: 0 <= k < |rings| ==> (rings[k].ringId in HeldIds(rings, a) <==> Holds(rings[k], a))
  {
    forall k | 0 <= k < |rings| ensures rings[k].ringId in HeldIds(rings, a) <==> Holds(rings[k], a) {
      HeldIdsMember(rings, a, rings[k].ringId);
    }
  }

  lemma {:induction false} SumScoresBounds(info: map<Account, Info>, ms: seq<Account>)
    requires forall a :: 0 <= ScoreOf(info, a) <= ScoreCap
    ensures 0 <= SumScores(info, ms) <= ScoreCap * |ms|
    decreases |ms|
  {
    if ms != [] { SumScoresBounds(info, ms[..|ms| - 1]); }
  }

  lemma MeanBounds(info: map<Account, Info>, ms: seq<Account>)
    requires forall a :: 0 <= ScoreOf(info, a) <= ScoreCap
    ensures 0.0 <= MeanScore(info, ms) <= ScoreCap as real
  {
    if ms != [] {
      SumScoresBounds(info, ms);
      var total := SumScores(info, ms);
      assert 0 <= total <= ScoreCap * |ms|;
      assert (ScoreCap * |ms|) as real == ScoreCap as real * |ms| as real;
      QuotientBounds(total as real, |ms| as real, ScoreCap as real);
      assert MeanScore(info, ms) == total as real / |ms| as real;
    }
  }

  /** A total between 0 and `cap` per item, divided by the item count, lies in [0, cap]. */
  lemma QuotientBounds(total: real, n: real, cap: real)
    requires n > 0.0 && 0.0 <= total <= cap * n
    ensures 0.0 <= total / n <= cap
  {
    var m := total / n;
    assert m * n == total;
    assert (m - cap) * n == m * n - cap * n;
    NonPositiveFactor(m - cap, n);
    assert (-m) * n == -(m * n);
    NonPositiveFactor(-m, n);
  }

  lemma NonPositiveFactor(x: real, n: real)
    requires n > 0.0 && x * n <= 0.0
    ensures x <= 0.0
  {
    if x > 0.0 {
      ProductPositive(x, n);
      assert false;
    }
  }

  lemma ProductPositive(x: real, y: real)
    requires x > 0.0 && y > 0.0
    ensures x * y > 0.0
  {
  }

  /** Each ring's risk is the mean of its members' final scores, and so lies in [0, 100]. */
  lemma ScoredRisk(g: Graph, cs: seq<seq<Account>>, rs: seq<Smurfing.SmurfRing>, ss: seq<seq<Account>>,
                   legit: set<Account>)
    ensures var s := Scored(g, cs, rs, ss, legit);
            forall k :: 0 <= k < |s.rings| ==>
              s.rings[k].risk == MeanScore(s.board.info, s.rings[k].members) && 0.0 <= s.rings[k].risk <= 100.0
  {
    var s := Scored(g, cs, rs, ss, legit);
    forall a ensures 0 <= ScoreOf(s.board.info, a) <= ScoreCap {
      ScoredScore(g, cs, rs, ss, legit, a);
    }
    forall k | 0 <= k < |s.rings| ensures 0.0 <= s.rings[k].risk <= 100.0 {
      MeanBounds(s.board.info, s.rings[k].members);
    }
  }

  // ----- the loops of analyze, updating the dict and the ring list in place -----

  /** Lines 358-460 of `analyze`: the three ring loops, the penalty, the cap and the risks.
      `account_scores` is the pair `order`/`info`, `fraud_rings` the list `rings`. */
  method ScoreAccounts(g: Graph, cs: seq<seq<Account>>, rs: seq<Smurfing.SmurfRing>, ss: seq<seq<Account>>,
                       legit: set<Account>)
    returns (order: seq<Account>, info: map<Account, Info>, rings: seq<FraudRing>)
    ensures Tally(Board(order, info), rings) == Scored(g, cs, rs, ss, legit)
  {
    order, info, rings := [], map[], [];
    var counter := 0;
    counter, order, info, rings := ScoreCycles(g, cs, counter, order, info, rings);
    counter, order, info, rings := ScoreSmurfs(g, rs, counter, order, info, rings);
    counter, order, info, rings := ScoreShells(g, ss, counter, order, info, rings);
    var raw := info;
    info := ApplyPenalties(info, legit);
    assert info == Penalize(raw, legit);
    RingTallyOk(g, cs, rs, ss);
    info := CapScores(order, info);
    rings := SetRisks(rings, info);
  }

  /** The inner `for acc in members` loop: credit every member in turn, creating the default
      entry for a new account. */
  method CreditEach(order0: seq<Account>, info0: map<Account, Info>, ms: seq<Account>, d: int,
                    pats: set<string>, ids: set<string>)
    returns (order: seq<Account>, info: map<Account, Info>)
    ensures Board(order, info) == CreditAll(Board(order0, info0), ms, d, pats, ids)
  {
    order, info := order0, info0;
    for k := 0 to |ms|
      invariant CreditAll(Board(order, info), ms[k..], d, pats, ids) == CreditAll(Board(order0, info0), ms, d, pats, ids)
    {
      var acc := ms[k];
      ghost var b := Board(order, info);
      assert ms[k..][0] == acc && ms[k..][1..] == ms[k + 1..];
      assert CreditAll(b, ms[k..], d, pats, ids) == CreditAll(Credit(b, acc, d, pats, ids), ms[k + 1..], d, pats, ids);
      order, info := CreditOne(order, info, acc, d, pats, ids);
    }
    assert ms[|ms|..] == [];
  }

  /** One pass of the inner loop body: the `defaultdict` creates the entry on first access. */
  method CreditOne(order0: seq<Account>, info0: map<Account, Info>, acc: Account, d: int,
                   pats: set<string>, ids: set<string>)
    returns (order: seq<Account>, info: map<Account, Info>)
    ensures Board(order, info) == Credit(Board(order0, info0), acc, d, pats, ids)
  {
    order, info := order0, info0;
    var entry := if acc in info then info[acc] else Info(0, {}, {});
    if acc !in info {
      order := order + [acc];
    }
    info := info[acc := Info(entry.score + d, entry.patterns + pats, entry.ringIds + ids)];
  }

  /** The cycle loop (lines 364-392). */
  method ScoreCycles(g: Graph, cs: seq<seq<Account>>, counter0: nat, order0: seq<Account>,
                     info0: map<Account, Info>, rings0: seq<FraudRing>)
    returns (counter: nat, order: seq<Account>, info: map<Account, Info>, rings: seq<FraudRing>)
    requires counter0 == |rings0|
    ensures counter == |rings|
    ensures Tally(Board(order, info), rings) == CyclePhase(g, cs, Tally(Board(order0, info0), rings0))
  {
    counter, order, info, rings := counter0, order0, info0, rings0;
    for i := 0 to |cs|
      invariant counter == |rings|
      invariant CyclePhase(g, cs[i..], Tally(Board(order, info), rings))
             == CyclePhase(g, cs, Tally(Board(order0, info0), rings0))
    {
      var members := cs[i];
      assert cs[i..][0] == members && cs[i..][1..] == cs[i + 1..];
      if !(3 <= |members| <= 5) {
        continue;
      }
      counter := counter + 1;
      var id := RingId(counter);
      var ts := EdgeTimestamps(g, members, true);
      var bonus := CycleBonus(TimeSpan(ts));
      order, info, rings := AddCycleRing(members, id, bonus, |ts|, order, info, rings);
    }
    assert cs[|cs|..] == [];
  }

  /** The body of the cycle loop once the group is accepted and its bonus known: credit every
      member, then tag the account the loop variable was left at, the last member. */
  method AddCycleRing(members: seq<Account>, id: string, bonus: int, n: nat, order0: seq<Account>,
                      info0: map<Account, Info>, rings0: seq<FraudRing>)
    returns (order: seq<Account>, info: map<Account, Info>, rings: seq<FraudRing>)
    requires members != [] && id == RingId(|rings0| + 1)
    ensures Tally(Board(order, info), rings) == CycleRing(members, bonus, n, Tally(Board(order0, info0), rings0))
  {
    var pats := {CycleLengthPattern(|members|)};
    order, info := CreditEach(order0, info0, members, CycleBase + bonus, pats, {});
    ghost var credited := Board(order, info);
    assert credited == CreditAll(Board(order0, info0), members, CycleBase + bonus, pats, {});
    var last := members[|members| - 1];
    CreditAllKeys(Board(order0, info0), members, CycleBase + bonus, pats, {});
    info := TagLastMember(order, info, last, bonus, id);
    rings := rings0 + [FraudRing(id, members, Cycle, Min(ScoreCap, CycleBase + bonus) as real, n)];
    ghost var hv: set<string> := if bonus > 0 then {HighVelocity} else {};
    assert CycleRing(members, bonus, n, Tally(Board(order0, info0), rings0))
           == Tally(Credit(credited, last, 0, hv, {id}), rings);
  }

  /** The two tagging statements after the inner loop: they amount to crediting `last` with
      nothing but the tags. */
  method TagLastMember(order: seq<Account>, info0: map<Account, Info>, last: Account, bonus: int, id: string)
    returns (info: map<Account, Info>)
    requires last in info0
    ensures Board(order, info) == Credit(Board(order, info0), last, 0, if bonus > 0 then {HighVelocity} else {}, {id})
  {
    info := info0;
    var e := info0[last];
    if bonus > 0 {
      info := info[last := info[last].(patterns := info[last].patterns + {HighVelocity})];
    } else {
      assert e.patterns + {} == e.patterns;
    }
    info := info[last := info[last].(ringIds := info[last].ringIds + {id})];
  }

  /** The transaction count of a smurfing ring (lines 404-413). */
  method HubTxCount(g: Graph, kind: Smurfing.Kind, hub: Account, ms: seq<Account>) returns (count: nat)
    ensures count == HubCount(g, kind, hub, ms)
  {
    count := 0;
    for k := 0 to |ms|
      invariant count + HubCount(g, kind, hub, ms[k..]) == HubCount(g, kind, hub, ms)
    {
      var m := ms[k];
      assert ms[k..][0] == m && ms[k..][1..] == ms[k + 1..];
      if kind.FanOut? {
        if m != hub && (hub, m) in g.edges {
          count := count + g.edges[(hub, m)].count;
        }
      } else {
        if m != hub && (m, hub) in g.edges {
          count := count + g.edges[(m, hub)].count;
        }
      }
    }
    assert ms[|ms|..] == [];
  }

  /** The smurfing loop (lines 395-421). */
  method ScoreSmurfs(g: Graph, rs: seq<Smurfing.SmurfRing>, counter0: nat, order0: seq<Account>,
                     info0: map<Account, Info>, rings0: seq<FraudRing>)
    returns (counter: nat, order: seq<Account>, info: map<Account, Info>, rings: seq<FraudRing>)
    requires counter0 == |rings0|
    ensures counter == |rings|
    ensures Tally(Board(order, info), rings) == SmurfPhase(g, rs, Tally(Board(order0, info0), rings0))
  {
    counter, order, info, rings := counter0, order0, info0, rings0;
    for i := 0 to |rs|
      invariant counter == |rings|
      invariant SmurfPhase(g, rs[i..], Tally(Board(order, info), rings))
             == SmurfPhase(g, rs, Tally(Board(order0, info0), rings0))
    {
      var smurf := rs[i];
      assert rs[i..][0] == smurf && rs[i..][1..] == rs[i + 1..];
      counter := counter + 1;
      var id := RingId(counter);
      order, info := CreditEach(order, info, smurf.members, SmurfBase, {TypeName(KindType(smurf.kind))}, {id});
      var txCount := HubTxCount(g, smurf.kind, smurf.hub, smurf.members);
      rings := rings + [FraudRing(id, smurf.members, KindType(smurf.kind), SmurfBase as real, txCount)];
    }
    assert rs[|rs|..] == [];
  }

  /** The shell loop (lines 424-445). */
  method ScoreShells(g: Graph, ss: seq<seq<Account>>, counter0: nat, order0: seq<Account>,
                     info0: map<Account, Info>, rings0: seq<FraudRing>)
    returns (counter: nat, order: seq<Account>, info: map<Account, Info>, rings: seq<FraudRing>)
    requires counter0 == |rings0|
    ensures counter == |rings|
    ensures Tally(Board(order, info), rings) == ShellPhase(g, ss, Tally(Board(order0, info0), rings0))
  {
    counter, order, info, rings := counter0, order0, info0, rings0;
    for i := 0 to |ss|
      invariant counter == |rings|
      invariant ShellPhase(g, ss[i..], Tally(Board(order, info), rings))
             == ShellPhase(g, ss, Tally(Board(order0, info0), rings0))
    {
      var members := ss[i];
      assert ss[i..][0] == members && ss[i..][1..] == ss[i + 1..];
      ghost var before := Tally(Board(order, info), rings);
      counter := counter + 1;
      var id := RingId(counter);
      var ts := EdgeTimestamps(g, members, false);
      var bonus := ShellBonus(TimeSpan(ts));
      var pats := {ShellPattern} + (if bonus > 0 then {RapidLayering} else {});
      order, info := CreditEach(order, info, members, ShellBase + bonus, pats, {id});
      rings := rings + [FraudRing(id, members, LayeredShell, (ShellBase + bonus) as real, |ts|)];
      assert Tally(Board(order, info), rings) == ShellRing(members, bonus, |ts|, before);
    }
    assert ss[|ss|..] == [];
  }

  /** The penalty loop (lines 448-451), over the legitimate accounts in any order. */
  method ApplyPenalties(info0: map<Account, Info>, legit: set<Account>) returns (info: map<Account, Info>)
    ensures info == Penalize(info0, legit)
  {
    info := info0;
    var todo := legit;
    while todo != {}
      invariant todo <= legit
      invariant info == Penalize(info0, legit - todo)
      decreases |todo|
    {
      var acc :| acc in todo;
      if acc in info {
        info := info[acc := Info(Max(0, info[acc].score - Penalty), info[acc].patterns + {Exception}, info[acc].ringIds)];
      }
      todo := todo - {acc};
    }
  }

  /** The cap loop (lines 454-455), over the dict's keys in order. */
  method CapScores(order: seq<Account>, info0: map<Account, Info>) returns (info: map<Account, Info>)
    requires Elems(order) == info0.Keys
    ensures info == Cap(info0)
  {
    info := info0;
    for k := 0 to |order|
      invariant info.Keys == info0.Keys
      invariant forall a :: a in info0 ==> info[a] == if a in order[..k] then Capped(info0[a]) else info0[a]
    {
      var acc := order[k];
      assert acc in info0;
      assert forall a :: a in order[..k + 1] <==> a in order[..k] || a == acc;
      info := info[acc := info[acc].(score := Min(ScoreCap, info[acc].score))];
    }
    assert order[..|order|] == order;
  }

  /** The risk loop (lines 458-460). */
  method SetRisks(rings0: seq<FraudRing>, info: map<Account, Info>) returns (rings: seq<FraudRing>)
    ensures rings == WithRisk(rings0, info)
  {
    rings := rings0;
    for k := 0 to |rings|
      invariant |rings| == |rings0|
      invariant forall j :: 0 <= j < |rings| ==> rings[j] == if j < k then WithRisk(rings0, info)[j] else rings0[j]
    {
      rings := rings[k := rings[k].(risk := MeanScore(info, rings[k].members))];
    }
  }
}
