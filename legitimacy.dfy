// False-positive guard: `identify_legitimate_accounts` in backend/graph_engine.py.
// An account is taken for a merchant or a payroll account when it is a pure
// high-volume sink or source, or when it deals with many counterparties in
// consistent amounts (coefficient of variation below 0.3).

module Legitimacy {
  import opened Accounts
  import opened Ledger

  const VolumeDegree: nat := 100
  const RegularDegree: nat := 20
  const MinCounterparties: nat := 15
  const MaxVariation: real := 0.3

  /** Which side of an account is looked at: money received (merchant) or sent (payroll). */
  datatype Side = Incoming | Outgoing

  function Neighbours(g: Graph, n: Account, side: Side): seq<Account>
    requires n in g.succ && n in g.pred
  {
    if side == Incoming then g.pred[n] else g.succ[n]
  }

  /** The amounts on the edge between `n` and counterparty `p`, in transaction order. */
  function EdgeAmounts(g: Graph, n: Account, side: Side, p: Account): (r: seq<real>)
    ensures var key := if side == Incoming then (p, n) else (n, p);
            key in g.edges ==> |r| == |g.edges[key].txns|
  {
    var key := if side == Incoming then (p, n) else (n, p);
    if key in g.edges then seq(|g.edges[key].txns|, k requires 0 <= k < |g.edges[key].txns| => g.edges[key].txns[k].amount)
    else []
  }

  /** `amounts`: every transaction amount on that side, counterparty by counterparty. */
  function AmountsFrom(g: Graph, n: Account, side: Side, ps: seq<Account>): seq<real>
  {
    if ps == [] then [] else EdgeAmounts(g, n, side, ps[0]) + AmountsFrom(g, n, side, ps[1..])
  }

  function Amounts(g: Graph, n: Account, side: Side): seq<real>
    requires n in g.succ && n in g.pred
  {
    AmountsFrom(g, n, side, Neighbours(g, n, side))
  }

  function Sum(xs: seq<real>): real
  {
    if xs == [] then 0.0 else xs[0] + Sum(xs[1..])
  }

  function Mean(xs: seq<real>): real
    requires xs != []
  {
    Sum(xs) / |xs| as real
  }

  function SquaredDeviation(xs: seq<real>, m: real): (r: real)
    ensures r >= 0.0
  {
    if xs == [] then 0.0
    else
      SquareNonNegative(xs[0] - m);
      (xs[0] - m) * (xs[0] - m) + SquaredDeviation(xs[1..], m)
  }

  lemma SquareNonNegative(d: real)
    ensures d * d >= 0.0
  {
    if d < 0.0 {
      assert d * d == (-d) * (-d);
    }
  }

  /** The population variance, the square of the source's `std`. */
  function Variance(xs: seq<real>): (r: real)
    requires xs != []
    ensures r >= 0.0
  {
    SquaredDeviation(xs, Mean(xs)) / |xs| as real
  }

  /**
   * `cv < 0.3`, where `cv` is `std / avg` for a positive mean and 0 otherwise.
   * The square root is avoided: for a positive mean, std / avg < 0.3 exactly
   * when variance < (0.3 * avg)^2 (see `ConsistentIsLowVariation`).
   */
  predicate Consistent(xs: seq<real>)
    requires xs != []
  {
    Mean(xs) <= 0.0 || Variance(xs) < Square(MaxVariation * Mean(xs))
  }

  function Square(x: real): real
  {
    x * x
  }

  /** The merchant test (incoming side) or the payroll test (outgoing side). */
  predicate Regular(g: Graph, n: Account, side: Side)
    requires n in g.succ && n in g.pred
  {
    && |Neighbours(g, n, side)| >= RegularDegree
    && |Elems(Neighbours(g, n, side))| >= MinCounterparties
    && Amounts(g, n, side) != []
    && Consistent(Amounts(g, n, side))
  }

  /** The rules of `identify_legitimate_accounts` for one node. */
  predicate IsLegitimate(g: Graph, n: Account)
    requires n in g.succ && n in g.pred
  {
    || (InDegree(g, n) >= VolumeDegree && OutDegree(g, n) == 0)
    || (OutDegree(g, n) >= VolumeDegree && InDegree(g, n) == 0)
    || Regular(g, n, Incoming)
    || Regular(g, n, Outgoing)
  }

  function LegitimateSet(g: Graph): set<Account>
    requires Indexed(g)
  {
    set n | n in g.nodes && IsLegitimate(g, n)
  }

  /** `identify_legitimate_accounts`: one pass over the nodes. */
  method IdentifyLegitimateAccounts(g: Graph) returns (legitimate: set<Account>)
    requires Indexed(g)
    ensures legitimate == LegitimateSet(g)
  {
    legitimate := {};
    for i := 0 to |g.nodes|
      invariant legitimate == set n | n in g.nodes[..i] && IsLegitimate(g, n)
    {
      var node := g.nodes[i];
      assert g.nodes[..i + 1] == g.nodes[..i] + [node];
      var inDeg := |g.pred[node]|;
      var outDeg := |g.succ[node]|;
      if inDeg >= VolumeDegree && outDeg == 0 {
        legitimate := legitimate + {node};
        continue;
      }
      if outDeg >= VolumeDegree && inDeg == 0 {
        legitimate := legitimate + {node};
        continue;
      }
      var merchant := false;
      if inDeg >= RegularDegree {
        merchant := CheckSide(g, node, Incoming);
      }
      var payroll := false;
      if outDeg >= RegularDegree {
        payroll := CheckSide(g, node, Outgoing);
      }
      if merchant || payroll {
        legitimate := legitimate + {node};
      }
    }
    assert g.nodes[..|g.nodes|] == g.nodes;
  }

  /** The counterparty, amount and variation checks on one side of a busy account. */
  method CheckSide(g: Graph, node: Account, side: Side) returns (ok: bool)
    requires node in g.succ && node in g.pred && |Neighbours(g, node, side)| >= RegularDegree
    ensures ok == Regular(g, node, side)
  {
    var ps := Neighbours(g, node, side);
    var counterparties := Elems(ps);
    var amounts := GatherAmounts(g, node, side);
    ok := false;
    if |counterparties| >= MinCounterparties && amounts != [] {
      var avg := Sum(amounts) / |amounts| as real;
      var variance := SquaredDeviation(amounts, avg) / |amounts| as real;
      ok := avg <= 0.0 || variance < Square(MaxVariation * avg);
    }
  }

  /** The loop over the side's edges that extends `amounts`. */
  method GatherAmounts(g: Graph, node: Account, side: Side) returns (amounts: seq<real>)
    requires node in g.succ && node in g.pred
    ensures amounts == Amounts(g, node, side)
  {
    var ps := Neighbours(g, node, side);
    amounts := [];
    for i := 0 to |ps|
      invariant amounts + AmountsFrom(g, node, side, ps[i..]) == Amounts(g, node, side)
    {
      assert ps[i..][1..] == ps[i + 1..];
      Assoc(amounts, EdgeAmounts(g, node, side, ps[i]), AmountsFrom(g, node, side, ps[i + 1..]));
      amounts := amounts + EdgeAmounts(g, node, side, ps[i]);
    }
  }

  // ---------------------------------------------------------------------
  // Properties

  /** A pure sink or source with at least 100 counterparties is always exempt. */
  lemma HighVolumeExempt(g: Graph, n: Account)
    requires Indexed(g) && n in g.nodes
    requires (InDegree(g, n) >= VolumeDegree && OutDegree(g, n) == 0)
          || (OutDegree(g, n) >= VolumeDegree && InDegree(g, n) == 0)
    ensures n in LegitimateSet(g)
  {
  }

  /** An account with fewer than 20 counterparties on each side is never exempt. */
  lemma QuietNotExempt(g: Graph, n: Account)
    requires Indexed(g) && n in g.nodes
    requires InDegree(g, n) < RegularDegree && OutDegree(g, n) < RegularDegree
    ensures n !in LegitimateSet(g)
  {
  }

  /** On a built graph every counterparty edge carries at least one amount. */
  lemma {:induction false} AmountsCount(g: Graph, n: Account, side: Side, ps: seq<Account>)
    requires Valid(g) && n in g.nodes
    requires forall p :: p in ps ==> p in Neighbours(g, n, side)
    ensures |AmountsFrom(g, n, side, ps)| >= |ps|
    decreases |ps|
  {
    if ps != [] {
      var p := ps[0];
      assert p in Neighbours(g, n, side);
      var key := if side == Incoming then (p, n) else (n, p);
      if side == Incoming {
        assert p in g.pred[n];
      } else {
        assert p in g.succ[n];
      }
      assert key in g.edges;
      assert EdgeConsistent(g.edges[key]);
      AmountsCount(g, n, side, ps[1..]);
    }
  }

  /**
   * On a built graph the counterparty and non-empty checks follow from the
   * degree check: degrees count distinct counterparties, and each has an edge
   * with at least one transaction.
   */
  lemma RegularOnValid(g: Graph, n: Account, side: Side)
    requires Valid(g) && n in g.nodes
    ensures Regular(g, n, side) <==>
              |Neighbours(g, n, side)| >= RegularDegree && Consistent(Amounts(g, n, side))
  {
    var ps := Neighbours(g, n, side);
    NoDupCard(ps);
    AmountsCount(g, n, side, ps);
  }

  lemma {:induction false} SumConstant(xs: seq<real>, c: real)
    requires forall k :: 0 <= k < |xs| ==> xs[k] == c
    ensures Sum(xs) == |xs| as real * c
    decreases |xs|
  {
    if xs != [] {
      SumConstant(xs[1..], c);
    }
  }

  lemma {:induction false} NoDeviation(xs: seq<real>, c: real)
    requires forall k :: 0 <= k < |xs| ==> xs[k] == c
    ensures SquaredDeviation(xs, c) == 0.0
    decreases |xs|
  {
    if xs != [] {
      NoDeviation(xs[1..], c);
    }
  }

  /** Identical amounts, as salaries or fixed prices are, always pass the variation test. */
  lemma ConstantAmountsConsistent(xs: seq<real>, c: real)
    requires xs != [] && forall k :: 0 <= k < |xs| ==> xs[k] == c
    ensures Mean(xs) == c && Variance(xs) == 0.0
    ensures Consistent(xs)
  {
    SumConstant(xs, c);
    var n := |xs| as real;
    assert Mean(xs) == c by {
      assert Sum(xs) == n * c;
      CancelFactor(n, c);
    }
    NoDeviation(xs, c);
    assert Variance(xs) == SquaredDeviation(xs, c) / n;
    NoSpreadConsistent(xs);
  }

  lemma CancelFactor(n: real, c: real)
    requires n > 0.0
    ensures (n * c) / n == c
  {
  }

  lemma NoSpreadConsistent(xs: seq<real>)
    requires xs != [] && Variance(xs) == 0.0
    ensures Consistent(xs)
  {
    ZeroBelowBound(Variance(xs), Mean(xs));
  }

  lemma ZeroBelowBound(v: real, m: real)
    requires v == 0.0
    ensures m <= 0.0 || v < Square(MaxVariation * m)
  {
    if m > 0.0 {
      SquareBelow(0.0, MaxVariation * m);
      assert Square(0.0) == 0.0;
    }
  }

  lemma MulPositive(a: real, b: real)
    requires a > 0.0 && b > 0.0
    ensures a * b > 0.0
  {
  }

  lemma MulNonNegative(a: real, b: real)
    requires a >= 0.0 && b >= 0.0
    ensures a * b >= 0.0
  {
  }

  /**
   * The square-root-free test agrees with the source's `std / avg < 0.3`:
   * for a positive mean and any non-negative `std` whose square is the
   * variance.
   */
  lemma ConsistentIsLowVariation(xs: seq<real>, std: real)
    requires xs != [] && Mean(xs) > 0.0 && std >= 0.0 && Square(std) == Variance(xs)
    ensures Consistent(xs) <==> std / Mean(xs) < MaxVariation
  {
    var avg := Mean(xs);
    var bound := MaxVariation * avg;
    assert std / avg < MaxVariation <==> std < bound by {
      DivBelow(std, avg, MaxVariation);
    }
    SquareBelow(std, bound);
  }

  lemma DivBelow(x: real, d: real, b: real)
    requires d > 0.0
    ensures x / d < b <==> x < b * d
  {
    assert x == (x / d) * d;
  }

  lemma SquareBelow(x: real, b: real)
    requires x >= 0.0 && b > 0.0
    ensures x < b <==> Square(x) < Square(b)
  {
    if x < b {
      MulNonNegative(x, b - x);
      MulPositive(b - x, b);
      assert x * b - x * x == x * (b - x);
      assert b * b - x * b == (b - x) * b;
    } else {
      MulNonNegative(x, x - b);
      MulNonNegative(x - b, b);
      assert x * x - x * b == x * (x - b);
      assert x * b - b * b == (x - b) * b;
    }
  }
}
