/** The `suspicious_accounts` list of `analyze` (backend/graph_engine.py:462-479): one row per
    account and ring id, then a stable sort on `(-score, account)`; and the two summary figures
    computed from it (lines 342-345, 489). */
module Ranking {
  import opened Accounts
  import opened Scoring

  /** One entry of `suspicious_accounts`. */
  datatype Row = Row(account: Account, score: int, patterns: seq<string>, ringId: string)

  /** The rows one account contributes: none unless its score is positive, otherwise one per
      ring id in ascending order, each listing the account's patterns but the exception, sorted. */
  function AccountRows(a: Account, i: Info): seq<Row>
  {
    if i.score <= 0 then []
    else
      RowsFor(a, i.score, SortedList(i.patterns - {Exception}), SortedList(i.ringIds))
  }

  /** One row per ring id, in the order given. */
  function RowsFor(a: Account, score: int, pats: seq<string>, ids: seq<string>): seq<Row>
  {
    seq(|ids|, k requires 0 <= k < |ids| => Row(a, score, pats, ids[k]))
  }

  /** The rows in the dict's insertion order, before the sort. */
  function ListedRows(order: seq<Account>, info: map<Account, Info>): seq<Row>
    requires forall a :: a in order ==> a in info
    decreases |order|
  {
    if order == [] then [] else AccountRows(order[0], info[order[0]]) + ListedRows(order[1..], info)
  }

  /** The sort key `(-score, account)`: `Before(x, y)` when `x`'s key is the smaller. */
  predicate Before(x: Row, y: Row)
  {
    x.score > y.score || (x.score == y.score && Less(x.account, y.account))
  }

  /** Insert `x` behind every row whose key is not larger than its own. */
  function Insert(s: seq<Row>, x: Row): seq<Row>
    decreases |s|
  {
    if s == [] then [x] else if Before(x, s[0]) then [x] + s else [s[0]] + Insert(s[1..], x)
  }

  /** `list.sort(key=...)`: a stable sort, written as insertion sort. */
  function SortRows(s: seq<Row>): seq<Row>
    decreases |s|
  {
    if s == [] then [] else Insert(SortRows(s[..|s| - 1]), s[|s| - 1])
  }

  /** The rows `analyze` returns. */
  function Rows(order: seq<Account>, info: map<Account, Info>): seq<Row>
    requires forall a :: a in order ==> a in info
  {
    SortRows(ListedRows(order, info))
  }

  /** No row has a smaller key than one in front of it. */
  predicate Ranked(s: seq<Row>)
  {
    forall i, j :: 0 <= i < j < |s| ==> !Before(s[j], s[i])
  }

  /** The rows of account `a` within `s`, in their order. */
  function OfAccount(s: seq<Row>, a: Account): seq<Row>
    decreases |s|
  {
    if s == [] then [] else (if s[0].account == a then [s[0]] else []) + OfAccount(s[1..], a)
  }

  /** `suspicious_accounts_flagged`: how many distinct accounts the rows name. */
  function Flagged(rows: seq<Row>): nat
  {
    |set r | r in rows :: r.account|
  }

  // ----- the key order -----

  lemma BeforeTransitive(x: Row, y: Row, z: Row)
    requires Before(x, y) && Before(y, z)
    ensures Before(x, z)
  {
    if x.score == y.score && y.score == z.score {
      LessTransitive(x.account, y.account, z.account);
    }
  }

  lemma BeforeIrreflexive(x: Row)
    ensures !Before(x, x)
  {
    LessIrreflexive(x.account);
  }

  // ----- the sort: ordered, a permutation, and stable -----

  lemma {:induction false} InsertPerm(s: seq<Row>, x: Row)
    ensures multiset(Insert(s, x)) == multiset(s) + multiset{x}
    decreases |s|
  {
    if s != [] && !Before(x, s[0]) {
      InsertPerm(s[1..], x);
      assert s == [s[0]] + s[1..];
    }
  }

  lemma {:induction false} InsertRanked(s: seq<Row>, x: Row)
    requires Ranked(s)
    ensures Ranked(Insert(s, x))
    decreases |s|
  {
    if s == [] {
    } else if Before(x, s[0]) {
      forall y | y in s ensures !Before(y, x) {
        NotBeforeFront(s, x, y);
      }
      RankedCons(x, s);
    } else {
      var t := Insert(s[1..], x);
      InsertRanked(s[1..], x);
      InsertPerm(s[1..], x);
      forall y | y in t ensures !Before(y, s[0]) {
        assert y in multiset(t);
        if y != x {
          assert y in multiset(s[1..]);
          RankedHead(s, y);
        }
      }
      RankedCons(s[0], t);
      assert Insert(s, x) == [s[0]] + t;
    }
  }

  /** A row no later row precedes can go in front of a ranked list. */
  lemma RankedCons(x: Row, s: seq<Row>)
    requires Ranked(s) && forall y :: y in s ==> !Before(y, x)
    ensures Ranked([x] + s)
  {
    var r := [x] + s;
    forall i, j | 0 <= i < j < |r| ensures !Before(r[j], r[i]) {
      assert r[j] == s[j - 1] && s[j - 1] in s;
      if i > 0 { assert r[i] == s[i - 1]; }
    }
  }

  /** Nothing in the tail of a ranked list precedes its head. */
  lemma RankedHead(s: seq<Row>, y: Row)
    requires Ranked(s) && s != [] && y in s[1..]
    ensures !Before(y, s[0])
  {
    var j :| 0 <= j < |s[1..]| && s[1..][j] == y;
    assert s[j + 1] == y;
  }

  /** Nothing in a ranked list precedes a row that precedes its head. */
  lemma NotBeforeFront(s: seq<Row>, x: Row, y: Row)
    requires Ranked(s) && s != [] && Before(x, s[0]) && y in s
    ensures !Before(y, x)
  {
    BeforeIrreflexive(s[0]);
    if y != s[0] {
      RankedHead(s, y);
    }
    if Before(y, x) {
      BeforeTransitive(y, x, s[0]);
    }
  }

  /** The sorted rows are ordered by key and are the same rows. */
  lemma SortRowsFacts(s: seq<Row>)
    ensures Ranked(SortRows(s))
    ensures multiset(SortRows(s)) == multiset(s)
  {
    SortRowsRanked(s);
    SortRowsPerm(s);
  }

  lemma {:induction false} SortRowsRanked(s: seq<Row>)
    ensures Ranked(SortRows(s))
    decreases |s|
  {
    if s != [] {
      var init := s[..|s| - 1];
      SortRowsRanked(init);
      InsertRanked(SortRows(init), s[|s| - 1]);
    }
  }

  lemma {:induction false} SortRowsPerm(s: seq<Row>)
    ensures multiset(SortRows(s)) == multiset(s)
    decreases |s|
  {
    if s != [] {
      var init := s[..|s| - 1];
      var x := s[|s| - 1];
      var sorted := SortRows(init);
      SortRowsPerm(init);
      InsertPerm(sorted, x);
      assert s == init + [x];
      calc {
        multiset(SortRows(s));
        multiset(Insert(sorted, x));
        multiset(sorted) + multiset{x};
        multiset(init) + multiset{x};
        multiset(init + [x]);
      }
    }
  }

  lemma {:induction false} OfAccountAppend(s: seq<Row>, t: seq<Row>, a: Account)
    ensures OfAccount(s + t, a) == OfAccount(s, a) + OfAccount(t, a)
    decreases |s|
  {
    if s != [] {
      var h := if s[0].account == a then [s[0]] else [];
      assert (s + t)[0] == s[0] && (s + t)[1..] == s[1..] + t;
      OfAccountAppend(s[1..], t, a);
      assert OfAccount(s + t, a) == h + (OfAccount(s[1..], a) + OfAccount(t, a));
      Assoc(h, OfAccount(s[1..], a), OfAccount(t, a));
    } else {
      assert s + t == t;
    }
  }

  lemma {:induction false} OfAccountNone(s: seq<Row>, a: Account)
    requires forall k :: 0 <= k < |s| ==> s[k].account != a
    ensures OfAccount(s, a) == []
    decreases |s|
  {
    if s != [] { OfAccountNone(s[1..], a); }
  }

  lemma {:induction false} OfAccountAll(s: seq<Row>, a: Account)
    requires forall k :: 0 <= k < |s| ==> s[k].account == a
    ensures OfAccount(s, a) == s
    decreases |s|
  {
    if s != [] {
      assert s[0].account == a;
      OfAccountAll(s[1..], a);
      assert s == [s[0]] + s[1..];
    }
  }

  lemma {:induction false} InsertStable(s: seq<Row>, x: Row, a: Account)
    requires Ranked(s)
    requires forall y :: y in s && y.account == x.account ==> y.score == x.score
    ensures OfAccount(Insert(s, x), a) == OfAccount(s, a) + OfAccount([x], a)
    decreases |s|
  {
    if s == [] {
      assert [x] == [] + [x];
    } else if Before(x, s[0]) {
      if x.account == a {
        FrontAccountAbsent(s, x);
        OfAccountNone(s, a);
      } else {
        assert OfAccount([x], a) == [];
      }
      OfAccountAppend([x], s, a);
    } else {
      InsertStable(s[1..], x, a);
      OfAccountAppend([s[0]], Insert(s[1..], x), a);
      OfAccountAppend([s[0]], s[1..], a);
      assert s == [s[0]] + s[1..];
    }
  }

  /** A row that precedes the head of a ranked list, and shares its score with every row of
      its account there, has no row of its account there. */
  lemma FrontAccountAbsent(s: seq<Row>, x: Row)
    requires Ranked(s) && s != [] && Before(x, s[0])
    requires forall y :: y in s && y.account == x.account ==> y.score == x.score
    ensures forall k :: 0 <= k < |s| ==> s[k].account != x.account
  {
    BeforeIrreflexive(s[0]);
    forall k | 0 <= k < |s| ensures s[k].account != x.account {
      var y := s[k];
      assert y in s;
      if k > 0 {
        assert y in s[1..] by { assert s[1..][k - 1] == y; }
        RankedHead(s, y);
      }
    }
  }

  /** Rows of one account carry one score. */
  predicate OneScoreEach(s: seq<Row>)
  {
    forall x, y :: x in s && y in s && x.account == y.account ==> x.score == y.score
  }

  /** Stability: when an account's rows share a score, sorting keeps them in their order. */
  lemma {:induction false} SortRowsStable(s: seq<Row>, a: Account)
    requires OneScoreEach(s)
    ensures OfAccount(SortRows(s), a) == OfAccount(s, a)
    decreases |s|
  {
    if s != [] {
      var init := s[..|s| - 1];
      var last := s[|s| - 1];
      assert s == init + [last];
      assert OneScoreEach(init);
      SortRowsStable(init, a);
      SortRowsFacts(init);
      forall y | y in SortRows(init) && y.account == last.account ensures y.score == last.score {
        assert y in multiset(SortRows(init));
        assert y in init;
      }
      InsertStable(SortRows(init), last, a);
      OfAccountAppend(init, [last], a);
    }
  }

  // ----- which rows there are -----

  /** An account's rows are one per ring id it holds, and only when its score is positive. */
  lemma AccountRowMember(a: Account, i: Info, r: Row)
    ensures r in AccountRows(a, i) <==>
              && i.score > 0
              && r == Row(a, i.score, SortedList(i.patterns - {Exception}), r.ringId)
              && r.ringId in i.ringIds
  {
    if i.score > 0 {
      var ids := SortedList(i.ringIds);
      var rs := AccountRows(a, i);
      if r in rs {
        var k :| 0 <= k < |rs| && rs[k] == r;
        assert ids[k] in Elems(ids);
      }
      if r == Row(a, i.score, SortedList(i.patterns - {Exception}), r.ringId) && r.ringId in i.ringIds {
        assert r.ringId in Elems(ids);
        var k :| 0 <= k < |ids| && ids[k] == r.ringId;
        assert rs[k] == r;
      }
    }
  }

  lemma AccountRowsOwn(a: Account, i: Info, b: Account)
    ensures OfAccount(AccountRows(a, i), b) == if a == b then AccountRows(a, i) else []
  {
    if a == b { OfAccountAll(AccountRows(a, i), b); } else { OfAccountNone(AccountRows(a, i), b); }
  }

  /** Every row of `AccountRows(a, i)` names `a`. */
  lemma AccountRowsName(a: Account, i: Info)
    ensures forall k :: 0 <= k < |AccountRows(a, i)| ==> AccountRows(a, i)[k].account == a
  {
  }

  lemma {:induction false} ListedRowMember(order: seq<Account>, info: map<Account, Info>, r: Row)
    requires forall a :: a in order ==> a in info
    ensures r in ListedRows(order, info) <==> r.account in order && r in AccountRows(r.account, info[r.account])
    decreases |order|
  {
    if order != [] {
      var head := AccountRows(order[0], info[order[0]]);
      ListedRowMember(order[1..], info, r);
      assert r.account in order <==> r.account == order[0] || r.account in order[1..];
      if r in head {
        AccountRowsName(order[0], info[order[0]]);
        var k :| 0 <= k < |head| && head[k] == r;
      }
    }
  }

  lemma {:induction false} ListedOfAccount(order: seq<Account>, info: map<Account, Info>, a: Account)
    requires forall x :: x in order ==> x in info
    requires NoDup(order)
    ensures OfAccount(ListedRows(order, info), a) == if a in order then AccountRows(a, info[a]) else []
    decreases |order|
  {
    if order != [] {
      NoDupTail(order);
      ListedOfAccount(order[1..], info, a);
      OfAccountAppend(AccountRows(order[0], info[order[0]]), ListedRows(order[1..], info), a);
      AccountRowsOwn(order[0], info[order[0]], a);
      assert a in order <==> a == order[0] || a in order[1..];
      assert order[0] in Elems(order[1..]) <==> order[0] in order[1..];
    }
  }

  lemma ListedOneScore(order: seq<Account>, info: map<Account, Info>)
    requires forall a :: a in order ==> a in info
    ensures OneScoreEach(ListedRows(order, info))
  {
    forall x, y | x in ListedRows(order, info) && y in ListedRows(order, info) && x.account == y.account
      ensures x.score == y.score
    {
      ListedRowMember(order, info, x);
      ListedRowMember(order, info, y);
      AccountRowMember(x.account, info[x.account], x);
      AccountRowMember(y.account, info[y.account], y);
    }
  }

  // ----- what the returned rows are -----

  /** The rows come sorted by descending score, ties by ascending account, and are exactly the
      rows listed before the sort. */
  lemma RowsRanked(order: seq<Account>, info: map<Account, Info>)
    requires forall a :: a in order ==> a in info
    ensures Ranked(Rows(order, info))
    ensures multiset(Rows(order, info)) == multiset(ListedRows(order, info))
  {
    SortRowsFacts(ListedRows(order, info));
  }

  /** A row is present exactly when its account scored above zero and holds its ring id; the row
      carries the account's score and its sorted patterns without the exception tag. */
  lemma RowsMember(order: seq<Account>, info: map<Account, Info>, r: Row)
    requires BoardOk(Board(order, info))
    ensures r in Rows(order, info) <==>
              && r.account in info
              && info[r.account].score > 0
              && r.score == info[r.account].score
              && r.patterns == SortedList(info[r.account].patterns - {Exception})
              && r.ringId in info[r.account].ringIds
    ensures r in Rows(order, info) ==> Exception !in r.patterns && StrictlySorted(r.patterns)
  {
    assert forall a :: a in order <==> a in info by {
      forall a ensures a in order <==> a in info { assert a in order <==> a in Elems(order); }
    }
    SortRowsFacts(ListedRows(order, info));
    assert r in Rows(order, info) <==> r in ListedRows(order, info) by {
      assert r in Rows(order, info) <==> r in multiset(Rows(order, info));
    }
    ListedRowMember(order, info, r);
    if r.account in info { AccountRowMember(r.account, info[r.account], r); }
  }

  /** Each account's rows appear in ascending ring-id order, as listed before the (stable) sort. */
  lemma RowsOfAccount(order: seq<Account>, info: map<Account, Info>, a: Account)
    requires BoardOk(Board(order, info))
    ensures OfAccount(Rows(order, info), a) == if a in info then AccountRows(a, info[a]) else []
  {
    assert a in order <==> a in Elems(order);
    ListedOneScore(order, info);
    SortRowsStable(ListedRows(order, info), a);
    ListedOfAccount(order, info, a);
  }

  /** The flagged count is the number of accounts with a positive score and at least one ring
      id: an account that scored but holds no id (a non-last cycle member) is not counted. */
  lemma FlaggedCount(order: seq<Account>, info: map<Account, Info>)
    requires BoardOk(Board(order, info))
    ensures Flagged(Rows(order, info)) == |set a | a in info && info[a].score > 0 && info[a].ringIds != {}|
  {
    var rows := Rows(order, info);
    var named := set r | r in rows :: r.account;
    var held := set a | a in info && info[a].score > 0 && info[a].ringIds != {};
    forall a | a in named ensures a in held {
      var r :| r in rows && r.account == a;
      RowsMember(order, info, r);
    }
    forall a | a in held ensures a in named {
      var rid :| rid in info[a].ringIds;
      var r := Row(a, info[a].score, SortedList(info[a].patterns - {Exception}), rid);
      RowsMember(order, info, r);
    }
    assert named == held;
  }

  // ----- the loop that builds the rows -----

  /** Lines 462-479: walk `account_scores` in insertion order, skip accounts without a positive
      score, append one row per sorted ring id, then sort. */
  method BuildRows(order: seq<Account>, info: map<Account, Info>) returns (rows: seq<Row>)
    requires forall a :: a in order ==> a in info
    ensures rows == Rows(order, info)
  {
    rows := [];
    for n := 0 to |order|
      invariant rows + ListedRows(order[n..], info) == ListedRows(order, info)
    {
      var acc := order[n];
      var i := info[acc];
      assert order[n..][0] == acc && order[n..][1..] == order[n + 1..];
      ghost var rest := ListedRows(order[n + 1..], info);
      assert ListedRows(order[n..], info) == AccountRows(acc, i) + rest;
      if i.score <= 0 {
        assert AccountRows(acc, i) == [];
        assert ListedRows(order[n..], info) == rest;
        continue;
      }
      ghost var before := rows;
      rows := AppendAccountRows(rows, acc, i);
      Assoc(before, AccountRows(acc, i), rest);
    }
    assert order[|order|..] == [];
    assert ListedRows(order[|order|..], info) == [];
    assert rows == ListedRows(order, info);
    rows := SortRows(rows);
  }

  /** The inner loop: one row per ring id of `acc`, in ascending order. */
  method AppendAccountRows(rows0: seq<Row>, acc: Account, i: Info) returns (rows: seq<Row>)
    requires i.score > 0
    ensures rows == rows0 + AccountRows(acc, i)
  {
    var patterns := SortedList(i.patterns - {Exception});
    var ids := SortedList(i.ringIds);
    rows := AppendRows(rows0, acc, i.score, patterns, ids);
  }

  /** The inner `for rid in ...` loop: one row per ring id. */
  method AppendRows(rows0: seq<Row>, acc: Account, score: int, patterns: seq<string>, ids: seq<string>)
    returns (rows: seq<Row>)
    ensures rows == rows0 + RowsFor(acc, score, patterns, ids)
  {
    ghost var want := RowsFor(acc, score, patterns, ids);
    rows := rows0;
    for k := 0 to |ids|
      invariant rows == rows0 + want[..k]
    {
      assert want[..k + 1] == want[..k] + [Row(acc, score, patterns, ids[k])];
      rows := rows + [Row(acc, score, patterns, ids[k])];
    }
    assert want[..|ids|] == want;
  }
}
