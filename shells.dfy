// Layered shell networks: `detect_shell_networks` in backend/graph_engine.py.
// Money passes from an account through a run of low-activity "shell"
// accounts. The source finds such runs with two depth-first searches over
// an explicit stack, keeps one chain per vertex set and merges chains that
// share accounts.

module Shells {
  import opened Accounts
  import opened Ledger
  import opened RingMerge

  const MaxIntermediateDegree: nat := 3
  const MinHops: nat := 3

  type Path = seq<Account>

  /** The parameters of one search pass; `second` selects the pass that starts at shell nodes. */
  datatype Search = Search(g: Graph, shell: set<Account>, minHops: nat, second: bool)

  /** The chains found so far and `visited_chains`, the vertex sets already reported. */
  datatype Found = Found(chains: seq<Path>, keys: set<set<Account>>)

  /** Every successor is itself a node of the adjacency index. */
  ghost predicate Closed(g: Graph)
  {
    forall u, v :: u in g.succ && v in g.succ[u] ==> v in g.succ
  }

  lemma ValidClosed(g: Graph)
    requires Valid(g)
    ensures Closed(g) && Indexed(g)
  {
    forall u, v | u in g.succ && v in g.succ[u] ensures v in g.succ {
      assert (u, v) in g.edges;
    }
  }

  /** `shell_nodes`: accounts with at most `maxDeg` distinct counterparties, minus `exclude`. */
  function ShellSet(g: Graph, maxDeg: nat, exclude: set<Account>): (r: set<Account>)
    requires Indexed(g)
    ensures forall n :: n in r ==> n in g.nodes && n !in exclude && Degree(g, n) <= maxDeg
    ensures forall n :: n in g.nodes && n !in exclude && Degree(g, n) <= maxDeg ==> n in r
  {
    (set n | n in g.nodes && Degree(g, n) <= maxDeg) - exclude
  }

  /** The nodes, in node order, that are (or are not) shell nodes. */
  function Starts(nodes: seq<Account>, shell: set<Account>, inShell: bool): (r: seq<Account>)
    ensures forall n :: n in r <==> n in nodes && (n in shell) == inShell
  {
    if nodes == [] then []
    else (if (nodes[0] in shell) == inShell then [nodes[0]] else []) + Starts(nodes[1..], shell, inShell)
  }

  predicate AllShell(shell: set<Account>, xs: seq<Account>)
  {
    forall x :: x in xs ==> x in shell
  }

  /** Whether the extended path `np` is reported as a chain, in the given pass. */
  predicate Qualifies(ctx: Search, np: Path)
    requires |np| >= 2
  {
    var inter := np[1..|np| - 1];
    if !ctx.second then |inter| >= ctx.minHops && AllShell(ctx.shell, inter)
    else |np| >= ctx.minHops + 1 && |inter| > 0 && AllShell(ctx.shell, inter)
  }

  /** Whether stepping to `s` puts the extended path on the stack. */
  predicate Pushes(ctx: Search, p: Path, s: Account)
  {
    s !in p && s in ctx.shell && |p| + 1 <= ctx.minHops + 2
  }

  /** A path that may sit on the stack: short enough, and its last node indexed. */
  predicate Fits(ctx: Search, p: Path)
  {
    1 <= |p| <= ctx.minHops + 2 && p[|p| - 1] in ctx.g.succ
  }

  function Succ(ctx: Search, p: Path): seq<Account>
    requires Fits(ctx, p)
  {
    ctx.g.succ[p[|p| - 1]]
  }

  /** Adds a chain unless its vertex set was reported before. */
  function Record(f: Found, np: Path): Found
  {
    if Elems(np) in f.keys then f else Found(f.chains + [np], f.keys + {Elems(np)})
  }

  /** The reporting half of one pop: each successor `s` of `p`, in order. */
  function Examine(ctx: Search, p: Path, ss: seq<Account>, f: Found): Found
    requires |p| >= 1
  {
    if ss == [] then f else Examine(ctx, p, ss[1..], Report(ctx, p, ss[0], f))
  }

  /** Whether `p + [s]` is reported, for one successor `s`. */
  function Report(ctx: Search, p: Path, s: Account, f: Found): Found
    requires |p| >= 1
  {
    if s in p || !Qualifies(ctx, p + [s]) then f else Record(f, p + [s])
  }

  /** The stacking half of one pop: the extended paths pushed, in push order. */
  function Kids(ctx: Search, p: Path, ss: seq<Account>): (r: seq<Path>)
    ensures forall k :: k in r ==> |k| == |p| + 1 && k[..|p|] == p && k[|p|] in ss && Pushes(ctx, p, k[|p|])
  {
    if ss == [] then [] else Push(ctx, p, ss[0]) + Kids(ctx, p, ss[1..])
  }

  function Push(ctx: Search, p: Path, s: Account): seq<Path>
  {
    if Pushes(ctx, p, s) then [p + [s]] else []
  }

  lemma KidsFit(ctx: Search, p: Path)
    requires Closed(ctx.g) && Fits(ctx, p)
    ensures forall k :: k in Kids(ctx, p, Succ(ctx, p)) ==> Fits(ctx, k)
  {
    forall k | k in Kids(ctx, p, Succ(ctx, p)) ensures Fits(ctx, k) {
      assert k[|p|] in ctx.g.succ[p[|p| - 1]];
    }
  }

  /** The number of pops the search spends on `p` and everything pushed below it. */
  function Size(ctx: Search, p: Path): nat
    requires Closed(ctx.g) && Fits(ctx, p)
    decreases ctx.minHops + 3 - |p|, 0
  {
    KidsFit(ctx, p);
    1 + KidsSize(ctx, Kids(ctx, p, Succ(ctx, p)), |p| + 1)
  }

  function KidsSize(ctx: Search, ks: seq<Path>, d: nat): nat
    requires Closed(ctx.g) && d <= ctx.minHops + 3
    requires forall k :: k in ks ==> |k| == d && Fits(ctx, k)
    decreases ctx.minHops + 3 - d, 1, |ks|
  {
    if ks == [] then 0 else Size(ctx, ks[0]) + KidsSize(ctx, ks[1..], d)
  }

  ghost predicate AllFit(ctx: Search, stack: seq<Path>)
  {
    forall c :: c in stack ==> Fits(ctx, c)
  }

  function SizeAll(ctx: Search, stack: seq<Path>): nat
    requires Closed(ctx.g) && AllFit(ctx, stack)
  {
    if stack == [] then 0 else SizeAll(ctx, stack[..|stack| - 1]) + Size(ctx, stack[|stack| - 1])
  }

  lemma {:induction false} SizeAllAppend(ctx: Search, a: seq<Path>, b: seq<Path>)
    requires Closed(ctx.g) && AllFit(ctx, a) && AllFit(ctx, b)
    ensures AllFit(ctx, a + b) && SizeAll(ctx, a + b) == SizeAll(ctx, a) + SizeAll(ctx, b)
    decreases |b|
  {
    if b != [] {
      var b' := b[..|b| - 1];
      assert (a + b)[..|a + b| - 1] == a + b';
      SizeAllAppend(ctx, a, b');
    } else {
      assert a + b == a;
    }
  }

  lemma {:induction false} KidsSizeAll(ctx: Search, ks: seq<Path>, d: nat)
    requires Closed(ctx.g) && d <= ctx.minHops + 3
    requires forall k :: k in ks ==> |k| == d && Fits(ctx, k)
    ensures KidsSize(ctx, ks, d) == SizeAll(ctx, ks)
    decreases |ks|
  {
    if ks != [] {
      KidsSizeAll(ctx, ks[1..], d);
      SizeAllAppend(ctx, [ks[0]], ks[1..]);
      assert [ks[0]] + ks[1..] == ks;
      assert [ks[0]][..0] == [];
    }
  }

  lemma AllFitPrefix(ctx: Search, stack: seq<Path>)
    requires AllFit(ctx, stack) && stack != []
    ensures AllFit(ctx, stack[..|stack| - 1]) && Fits(ctx, stack[|stack| - 1])
  {
    assert stack[|stack| - 1] in stack;
    forall c | c in stack[..|stack| - 1] ensures Fits(ctx, c) { assert c in stack; }
  }

  lemma SizeOfKids(ctx: Search, p: Path)
    requires Closed(ctx.g) && Fits(ctx, p)
    ensures forall k :: k in Kids(ctx, p, Succ(ctx, p)) ==> |k| == |p| + 1 && Fits(ctx, k)
    ensures Size(ctx, p) == 1 + KidsSize(ctx, Kids(ctx, p, Succ(ctx, p)), |p| + 1)
  {
    KidsFit(ctx, p);
  }

  /** Popping `p` and pushing its kids strictly lowers the work left. */
  lemma PopDecreases(ctx: Search, stack: seq<Path>)
    requires Closed(ctx.g) && AllFit(ctx, stack) && stack != []
    ensures Fits(ctx, stack[|stack| - 1])
    ensures AllFit(ctx, stack[..|stack| - 1] + Kids(ctx, stack[|stack| - 1], Succ(ctx, stack[|stack| - 1])))
    ensures SizeAll(ctx, stack[..|stack| - 1] + Kids(ctx, stack[|stack| - 1], Succ(ctx, stack[|stack| - 1])))
            < SizeAll(ctx, stack)
  {
    AllFitPrefix(ctx, stack);
    var p := stack[|stack| - 1];
    var rest := stack[..|stack| - 1];
    var ks := Kids(ctx, p, Succ(ctx, p));
    assert SizeAll(ctx, stack) == SizeAll(ctx, rest) + Size(ctx, p);
    SizeOfKids(ctx, p);
    KidsSizeAll(ctx, ks, |p| + 1);
    assert Size(ctx, p) == 1 + SizeAll(ctx, ks);
    SizeAllAppend(ctx, rest, ks);
  }

  /** What the `while stack:` loop leaves behind, given the stack and what was found so far. */
  function VisitStack(ctx: Search, stack: seq<Path>, f: Found): Found
    requires Closed(ctx.g) && AllFit(ctx, stack)
    decreases SizeAll(ctx, stack)
  {
    if stack == [] then f
    else
      PopDecreases(ctx, stack);
      var p := stack[|stack| - 1];
      VisitStack(ctx, stack[..|stack| - 1] + Kids(ctx, p, Succ(ctx, p)), Examine(ctx, p, Succ(ctx, p), f))
  }

  /** One search pass: a depth-first search from each start in turn, sharing what was found. */
  function SearchFrom(ctx: Search, starts: seq<Account>, f: Found): Found
    requires Closed(ctx.g) && 2 <= ctx.minHops + 2
    requires forall s :: s in starts ==> s in ctx.g.succ
  {
    if starts == [] then f
    else
      assert Fits(ctx, [starts[0]]);
      SearchFrom(ctx, starts[1..], VisitStack(ctx, [[starts[0]]], f))
  }

  /** The chains before merging: the endpoint pass, then the shell-start pass. */
  function ShellChains(g: Graph, maxDeg: nat, minHops: nat, exclude: set<Account>): seq<Path>
    requires Indexed(g) && Closed(g)
  {
    Passes(g, maxDeg, minHops, exclude).chains
  }

  function Passes(g: Graph, maxDeg: nat, minHops: nat, exclude: set<Account>): Found
    requires Indexed(g) && Closed(g)
  {
    var shell := ShellSet(g, maxDeg, exclude);
    var f1 := SearchFrom(Search(g, shell, minHops, false), Starts(g.nodes, shell, false), Found([], {}));
    SearchFrom(Search(g, shell, minHops, true), Starts(g.nodes, shell, true), f1)
  }

  /** `detect_shell_networks`: both search passes, then `_merge_overlapping`. */
  method DetectShellNetworks(g: Graph, maxDeg: nat, minHops: nat, exclude: set<Account>)
    returns (rings: seq<seq<Account>>)
    requires Indexed(g) && Closed(g)
    ensures rings == Merged(ShellChains(g, maxDeg, minHops, exclude))
  {
    var shell := ShellSet(g, maxDeg, exclude);
    var first := Search(g, shell, minHops, false);
    var chains, keys := SearchPass(first, Starts(g.nodes, shell, false), [], {});
    var second := Search(g, shell, minHops, true);
    chains, keys := SearchPass(second, Starts(g.nodes, shell, true), chains, keys);
    assert Found(chains, keys) == Passes(g, maxDeg, minHops, exclude);
    rings := MergeOverlapping(chains);
  }

  /** One `for start in ...` loop: a search from each start in turn, sharing the chains found. */
  method SearchPass(ctx: Search, starts: seq<Account>, chains0: seq<Path>, keys0: set<set<Account>>)
    returns (chains: seq<Path>, keys: set<set<Account>>)
    requires Closed(ctx.g) && 2 <= ctx.minHops + 2
    requires forall s :: s in starts ==> s in ctx.g.succ
    ensures Found(chains, keys) == SearchFrom(ctx, starts, Found(chains0, keys0))
  {
    chains, keys := chains0, keys0;
    for k := 0 to |starts|
      invariant SearchFrom(ctx, starts[k..], Found(chains, keys)) == SearchFrom(ctx, starts, Found(chains0, keys0))
    {
      assert starts[k..][0] == starts[k] && starts[k..][1..] == starts[k + 1..];
      chains, keys := Dfs(ctx, starts[k], chains, keys);
    }
    assert starts[|starts|..] == [];
  }

  /** The body of one `for start in ...` iteration: the explicit-stack search from `start`. */
  method Dfs(ctx: Search, start: Account, chains0: seq<Path>, keys0: set<set<Account>>)
    returns (chains: seq<Path>, keys: set<set<Account>>)
    requires Closed(ctx.g) && start in ctx.g.succ
    ensures Fits(ctx, [start])
    ensures Found(chains, keys) == VisitStack(ctx, [[start]], Found(chains0, keys0))
  {
    var stack: seq<Path> := [[start]];
    chains, keys := chains0, keys0;
    while stack != []
      invariant AllFit(ctx, stack)
      invariant VisitStack(ctx, stack, Found(chains, keys)) == VisitStack(ctx, [[start]], Found(chains0, keys0))
      decreases SizeAll(ctx, stack)
    {
      PopDecreases(ctx, stack);
      var path := stack[|stack| - 1];
      stack := stack[..|stack| - 1];
      stack, chains, keys := Expand(ctx, path, stack, chains, keys);
    }
  }

  /** One pop: every successor of the popped path, in order. */
  method Expand(ctx: Search, path: Path, stack0: seq<Path>, chains0: seq<Path>, keys0: set<set<Account>>)
    returns (stack: seq<Path>, chains: seq<Path>, keys: set<set<Account>>)
    requires Fits(ctx, path)
    ensures stack == stack0 + Kids(ctx, path, Succ(ctx, path))
    ensures Found(chains, keys) == Examine(ctx, path, Succ(ctx, path), Found(chains0, keys0))
  {
    stack, chains, keys := stack0, chains0, keys0;
    var succs := ctx.g.succ[path[|path| - 1]];
    for i := 0 to |succs|
      invariant stack + Kids(ctx, path, succs[i..]) == stack0 + Kids(ctx, path, succs)
      invariant Examine(ctx, path, succs[i..], Found(chains, keys))
                == Examine(ctx, path, succs, Found(chains0, keys0))
    {
      assert succs[i..][1..] == succs[i + 1..];
      ghost var before := stack;
      stack, chains, keys := Step(ctx, path, succs[i], stack, chains, keys);
      Assoc(before, Push(ctx, path, succs[i]), Kids(ctx, path, succs[i + 1..]));
    }
  }

  /** The loop body for one successor `s` of the popped path, pass by pass. */
  method Step(ctx: Search, path: Path, s: Account, stack0: seq<Path>, chains0: seq<Path>, keys0: set<set<Account>>)
    returns (stack: seq<Path>, chains: seq<Path>, keys: set<set<Account>>)
    requires |path| >= 1
    ensures stack == stack0 + Push(ctx, path, s)
    ensures Found(chains, keys) == Report(ctx, path, s, Found(chains0, keys0))
  {
    stack, chains, keys := stack0, chains0, keys0;
    if s in path {
      return;
    }
    var newPath := path + [s];
    var inter := newPath[1..|newPath| - 1];
    var key := Elems(newPath);
    if !ctx.second {
      if s !in ctx.shell || |newPath| > ctx.minHops + 2 {
        if |inter| >= ctx.minHops && AllShell(ctx.shell, inter) {
          if key !in keys {
            keys := keys + {key};
            chains := chains + [newPath];
          }
        }
      } else if s in ctx.shell && |newPath| <= ctx.minHops + 2 {
        stack := stack + [newPath];
        if |inter| >= ctx.minHops && AllShell(ctx.shell, inter) {
          if key !in keys {
            keys := keys + {key};
            chains := chains + [newPath];
          }
        }
      }
    } else {
      if |newPath| >= ctx.minHops + 1 {
        if |inter| > 0 && AllShell(ctx.shell, inter) {
          if key !in keys {
            keys := keys + {key};
            chains := chains + [newPath];
          }
        }
      }
      if s in ctx.shell && |newPath| <= ctx.minHops + 2 {
        stack := stack + [newPath];
      }
    }
  }

  // ---------------------------------------------------------------------
  // What the chains are

  /** Consecutive accounts of `c` are joined by an edge. */
  ghost predicate Linked(g: Graph, c: Path)
  {
    forall k :: 0 <= k < |c| - 1 ==> c[k] in g.succ && c[k + 1] in g.succ[c[k]]
  }

  /**
   * A shell chain: a simple path of at most minHops + 3 accounts whose inner
   * accounts are all shell accounts. A chain from a non-shell account has at
   * least minHops inner accounts; one from a shell account has at least
   * minHops + 1 accounts and at least one inner account.
   */
  ghost predicate ShellChain(g: Graph, shell: set<Account>, h: nat, c: Path)
  {
    && 2 <= |c| <= h + 3
    && NoDup(c)
    && Linked(g, c)
    && AllShell(shell, c[1..|c| - 1])
    && (if c[0] in shell then |c| >= h + 1 && |c| >= 3 else |c| >= h + 2)
  }

  function KeySet(cs: seq<Path>): set<set<Account>>
  {
    set c | c in cs :: Elems(c)
  }

  /** `visited_chains` holds exactly the vertex sets of the chains, and no two chains share one. */
  ghost predicate Keyed(f: Found)
  {
    && f.keys == KeySet(f.chains)
    && forall i, j :: 0 <= i < j < |f.chains| ==> Elems(f.chains[i]) != Elems(f.chains[j])
  }

  ghost predicate Sound(g: Graph, shell: set<Account>, h: nat, f: Found)
  {
    forall c :: c in f.chains ==> ShellChain(g, shell, h, c)
  }

  /** A path on the stack: simple, linked, shell after its start, started in the pass's kind of node. */
  ghost predicate OnStack(ctx: Search, p: Path)
  {
    && Fits(ctx, p)
    && NoDup(p)
    && Linked(ctx.g, p)
    && AllShell(ctx.shell, p[1..])
    && (p[0] in ctx.shell) == ctx.second
  }

  ghost predicate AllOnStack(ctx: Search, stack: seq<Path>)
  {
    forall c :: c in stack ==> OnStack(ctx, c)
  }

  lemma RecordKeyed(f: Found, np: Path)
    requires Keyed(f)
    ensures Keyed(Record(f, np))
    ensures Record(f, np).keys == f.keys + {Elems(np)}
    ensures Record(f, np).chains == f.chains || Record(f, np).chains == f.chains + [np]
  {
    if Elems(np) !in f.keys {
      var cs := f.chains + [np];
      assert KeySet(cs) == KeySet(f.chains) + {Elems(np)} by {
        assert forall c :: c in cs <==> c in f.chains || c == np;
      }
      forall i, j | 0 <= i < j < |cs| ensures Elems(cs[i]) != Elems(cs[j]) {
        if j == |f.chains| {
          assert cs[i] in f.chains;
        }
      }
    }
  }

  /** One reported extension is a shell chain of the pass's kind. */
  lemma ReportSound(ctx: Search, p: Path, s: Account, f: Found)
    requires OnStack(ctx, p) && s in Succ(ctx, p)
    requires Sound(ctx.g, ctx.shell, ctx.minHops, f)
    ensures Sound(ctx.g, ctx.shell, ctx.minHops, Report(ctx, p, s, f))
    ensures Report(ctx, p, s, f).chains == f.chains || Report(ctx, p, s, f).chains == f.chains + [p + [s]]
  {
    var np := p + [s];
    if s !in p && Qualifies(ctx, np) {
      assert NoDup(np) by { NoDupSnoc(p, s); }
      assert Linked(ctx.g, np) by {
        forall k | 0 <= k < |np| - 1 ensures np[k] in ctx.g.succ && np[k + 1] in ctx.g.succ[np[k]] {
          if k < |p| - 1 {
            assert np[k] == p[k] && np[k + 1] == p[k + 1];
          }
        }
      }
      assert np[1..|np| - 1] == p[1..];
      assert ShellChain(ctx.g, ctx.shell, ctx.minHops, np);
    }
  }

  lemma {:induction false} ExamineSound(ctx: Search, p: Path, ss: seq<Account>, f: Found)
    requires OnStack(ctx, p) && forall s :: s in ss ==> s in Succ(ctx, p)
    requires Sound(ctx.g, ctx.shell, ctx.minHops, f) && Keyed(f)
    ensures Sound(ctx.g, ctx.shell, ctx.minHops, Examine(ctx, p, ss, f)) && Keyed(Examine(ctx, p, ss, f))
    decreases |ss|
  {
    if ss != [] {
      ReportSound(ctx, p, ss[0], f);
      if ss[0] !in p && Qualifies(ctx, p + [ss[0]]) {
        RecordKeyed(f, p + [ss[0]]);
      }
      ExamineSound(ctx, p, ss[1..], Report(ctx, p, ss[0], f));
    }
  }

  lemma KidsOnStack(ctx: Search, p: Path)
    requires Closed(ctx.g) && OnStack(ctx, p)
    ensures forall k :: k in Kids(ctx, p, Succ(ctx, p)) ==> OnStack(ctx, k)
  {
    forall k | k in Kids(ctx, p, Succ(ctx, p)) ensures OnStack(ctx, k) {
      var s := k[|p|];
      assert k == p + [s];
      KidOnStack(ctx, p, s);
    }
  }

  /** A pushed successor extends a stack path to another stack path. */
  lemma KidOnStack(ctx: Search, p: Path, s: Account)
    requires Closed(ctx.g) && OnStack(ctx, p)
    requires s in Succ(ctx, p) && Pushes(ctx, p, s)
    ensures OnStack(ctx, p + [s])
  {
    var k := p + [s];
    assert Fits(ctx, k);
    NoDupSnoc(p, s);
    assert k[1..] == p[1..] + [s];
    assert AllShell(ctx.shell, k[1..]);
    assert k[0] == p[0];
    forall m | 0 <= m < |k| - 1 ensures k[m] in ctx.g.succ && k[m + 1] in ctx.g.succ[k[m]] {
      if m < |p| - 1 {
        assert k[m] == p[m] && k[m + 1] == p[m + 1];
      } else {
        assert k[m] == p[|p| - 1] && k[m + 1] == s;
      }
    }
  }

  lemma AllOnStackPop(ctx: Search, stack: seq<Path>)
    requires Closed(ctx.g) && AllOnStack(ctx, stack) && stack != []
    ensures OnStack(ctx, stack[|stack| - 1])
    ensures AllOnStack(ctx, stack[..|stack| - 1] + Kids(ctx, stack[|stack| - 1], Succ(ctx, stack[|stack| - 1])))
  {
    var p := stack[|stack| - 1];
    assert p in stack;
    KidsOnStack(ctx, p);
    var next := stack[..|stack| - 1] + Kids(ctx, p, Succ(ctx, p));
    forall c | c in next ensures OnStack(ctx, c) {
      if c in stack[..|stack| - 1] {
        assert c in stack;
      }
    }
  }

  lemma AllOnStackFit(ctx: Search, stack: seq<Path>)
    requires AllOnStack(ctx, stack)
    ensures AllFit(ctx, stack)
  {
  }

  /** Everything the search from a stack reports is a shell chain, once per vertex set. */
  lemma {:induction false} VisitStackSound(ctx: Search, stack: seq<Path>, f: Found)
    requires Closed(ctx.g) && AllOnStack(ctx, stack)
    requires Sound(ctx.g, ctx.shell, ctx.minHops, f) && Keyed(f)
    ensures AllFit(ctx, stack)
    ensures Sound(ctx.g, ctx.shell, ctx.minHops, VisitStack(ctx, stack, f))
    ensures Keyed(VisitStack(ctx, stack, f))
    decreases SizeAll(ctx, stack)
  {
    AllOnStackFit(ctx, stack);
    if stack != [] {
      PopDecreases(ctx, stack);
      AllOnStackPop(ctx, stack);
      var p := stack[|stack| - 1];
      ExamineSound(ctx, p, Succ(ctx, p), f);
      VisitStackSound(ctx, stack[..|stack| - 1] + Kids(ctx, p, Succ(ctx, p)), Examine(ctx, p, Succ(ctx, p), f));
    }
  }

  lemma {:induction false} SearchFromSound(ctx: Search, starts: seq<Account>, f: Found)
    requires Closed(ctx.g) && forall s :: s in starts ==> s in ctx.g.succ && (s in ctx.shell) == ctx.second
    requires Sound(ctx.g, ctx.shell, ctx.minHops, f) && Keyed(f)
    ensures Sound(ctx.g, ctx.shell, ctx.minHops, SearchFrom(ctx, starts, f))
    ensures Keyed(SearchFrom(ctx, starts, f))
    decreases |starts|
  {
    if starts != [] {
      var st := [starts[0]];
      assert OnStack(ctx, st) by {
        assert st[1..] == [];
      }
      assert AllOnStack(ctx, [st]);
      VisitStackSound(ctx, [st], f);
      SearchFromSound(ctx, starts[1..], VisitStack(ctx, [st], f));
    }
  }

  lemma PassesSound(g: Graph, maxDeg: nat, h: nat, exclude: set<Account>)
    requires Indexed(g) && Closed(g)
    ensures Sound(g, ShellSet(g, maxDeg, exclude), h, Passes(g, maxDeg, h, exclude))
    ensures Keyed(Passes(g, maxDeg, h, exclude))
  {
    var shell := ShellSet(g, maxDeg, exclude);
    var f0 := Found([], {});
    assert Keyed(f0) by { assert KeySet([]) == {}; }
    var ctx1 := Search(g, shell, h, false);
    SearchFromSound(ctx1, Starts(g.nodes, shell, false), f0);
    var f1 := SearchFrom(ctx1, Starts(g.nodes, shell, false), f0);
    SearchFromSound(Search(g, shell, h, true), Starts(g.nodes, shell, true), f1);
  }

  /** Every chain `detect_shell_networks` reports is a shell chain, and no two share a vertex set. */
  lemma ShellChainsSound(g: Graph, maxDeg: nat, h: nat, exclude: set<Account>)
    requires Indexed(g) && Closed(g)
    ensures forall c :: c in ShellChains(g, maxDeg, h, exclude) ==> ShellChain(g, ShellSet(g, maxDeg, exclude), h, c)
    ensures forall i, j :: 0 <= i < j < |ShellChains(g, maxDeg, h, exclude)| ==>
              Elems(ShellChains(g, maxDeg, h, exclude)[i]) != Elems(ShellChains(g, maxDeg, h, exclude)[j])
  {
    PassesSound(g, maxDeg, h, exclude);
  }

  // ---------------------------------------------------------------------
  // Nothing is missed

  /**
   * `c` is a chain the search from stack entry `p` must report: it extends
   * `p` through pushable shell accounts and its last step qualifies.
   */
  ghost predicate Target(ctx: Search, p: Path, c: Path)
  {
    && 1 <= |p| < |c| <= ctx.minHops + 3
    && c[..|p|] == p
    && NoDup(c)
    && Linked(ctx.g, c)
    && AllShell(ctx.shell, c[|p|..|c| - 1])
    && Qualifies(ctx, c)
  }

  lemma {:induction false} ExamineFinds(ctx: Search, p: Path, ss: seq<Account>, f: Found)
    requires |p| >= 1
    ensures f.keys <= Examine(ctx, p, ss, f).keys
    ensures forall s :: s in ss && s !in p && Qualifies(ctx, p + [s]) ==> Elems(p + [s]) in Examine(ctx, p, ss, f).keys
    decreases |ss|
  {
    if ss != [] {
      var f' := Report(ctx, p, ss[0], f);
      assert f'.keys == f.keys || f'.keys == f.keys + {Elems(p + [ss[0]])};
      ExamineFinds(ctx, p, ss[1..], f');
    }
  }

  lemma KidsHas(ctx: Search, p: Path, ss: seq<Account>, s: Account)
    requires s in ss && Pushes(ctx, p, s)
    ensures p + [s] in Kids(ctx, p, ss)
  {
    if ss[0] != s {
      KidsHas(ctx, p, ss[1..], s);
    }
  }

  /** A target of `p` that is longer by more than one account is a target of one of `p`'s kids. */
  lemma TargetThroughKid(ctx: Search, p: Path, c: Path)
    requires Fits(ctx, p) && Target(ctx, p, c) && |c| > |p| + 1
    ensures c[..|p| + 1] in Kids(ctx, p, Succ(ctx, p)) && Target(ctx, c[..|p| + 1], c)
  {
    var s := c[|p|];
    var k := c[..|p| + 1];
    assert k == p + [s];
    assert s in c[|p|..|c| - 1];
    assert s in Succ(ctx, p) by {
      assert c[|p| - 1] == p[|p| - 1];
    }
    assert s !in p by {
      forall m | 0 <= m < |p| ensures p[m] != s { assert p[m] == c[m]; }
    }
    KidsHas(ctx, p, Succ(ctx, p), s);
    assert c[|k|..|c| - 1] == c[|p|..|c| - 1][1..];
  }

  /** The target one account longer than `p`: `p` plus one qualifying successor. */
  lemma TargetStep(ctx: Search, p: Path, c: Path)
    requires Fits(ctx, p) && Target(ctx, p, c) && |c| == |p| + 1
    ensures c == p + [c[|p|]] && c[|p|] in Succ(ctx, p) && c[|p|] !in p
  {
    var s := c[|p|];
    assert c == p + [s];
    assert c[|p| - 1] == p[|p| - 1];
    forall m | 0 <= m < |p| ensures p[m] != s { assert p[m] == c[m]; }
  }

  /** The search from a stack reports the vertex set of every target of every entry. */
  lemma {:induction false} VisitStackComplete(ctx: Search, stack: seq<Path>, f: Found)
    requires Closed(ctx.g) && AllFit(ctx, stack)
    ensures f.keys <= VisitStack(ctx, stack, f).keys
    ensures forall p, c :: p in stack && Target(ctx, p, c) ==> Elems(c) in VisitStack(ctx, stack, f).keys
    decreases SizeAll(ctx, stack)
  {
    if stack != [] {
      PopDecreases(ctx, stack);
      var p := stack[|stack| - 1];
      var rest := stack[..|stack| - 1];
      var ks := Kids(ctx, p, Succ(ctx, p));
      var f' := Examine(ctx, p, Succ(ctx, p), f);
      var r := VisitStack(ctx, rest + ks, f');
      assert r == VisitStack(ctx, stack, f);
      ExamineFinds(ctx, p, Succ(ctx, p), f);
      VisitStackComplete(ctx, rest + ks, f');
      forall q, c | q in stack && Target(ctx, q, c) ensures Elems(c) in r.keys {
        if q in rest {
          assert q in rest + ks;
        } else {
          assert q == p;
          if |c| == |p| + 1 {
            TargetStep(ctx, p, c);
          } else {
            TargetThroughKid(ctx, p, c);
            assert c[..|p| + 1] in rest + ks;
          }
        }
      }
    }
  }

  lemma {:induction false} SearchFromComplete(ctx: Search, starts: seq<Account>, f: Found)
    requires Closed(ctx.g) && forall s :: s in starts ==> s in ctx.g.succ
    ensures f.keys <= SearchFrom(ctx, starts, f).keys
    ensures forall s, c :: s in starts && Target(ctx, [s], c) ==> Elems(c) in SearchFrom(ctx, starts, f).keys
    decreases |starts|
  {
    if starts != [] {
      var st := [starts[0]];
      assert Fits(ctx, st);
      VisitStackComplete(ctx, [st], f);
      var f' := VisitStack(ctx, [st], f);
      SearchFromComplete(ctx, starts[1..], f');
      forall s, c | s in starts && Target(ctx, [s], c) ensures Elems(c) in SearchFrom(ctx, starts, f).keys {
        if s != starts[0] {
          assert s in starts[1..];
        }
      }
    }
  }

  /** The graph as `build_graph` leaves it: indexed, closed under successors, no stray keys. */
  ghost predicate Searchable(g: Graph)
  {
    Indexed(g) && Closed(g) && forall n :: n in g.succ ==> n in g.nodes
  }

  lemma ValidSearchable(g: Graph)
    requires Valid(g)
    ensures Searchable(g)
  {
    ValidClosed(g);
  }

  /** Every shell chain of the graph has its vertex set reported by one of the chains. */
  lemma ShellChainsComplete(g: Graph, maxDeg: nat, h: nat, exclude: set<Account>, c: Path)
    requires Searchable(g)
    requires ShellChain(g, ShellSet(g, maxDeg, exclude), h, c)
    ensures exists d :: d in ShellChains(g, maxDeg, h, exclude) && Elems(d) == Elems(c)
  {
    var shell := ShellSet(g, maxDeg, exclude);
    var f0 := Found([], {});
    var ctx1 := Search(g, shell, h, false);
    var ctx2 := Search(g, shell, h, true);
    var s1 := Starts(g.nodes, shell, false);
    var s2 := Starts(g.nodes, shell, true);
    var f1 := SearchFrom(ctx1, s1, f0);
    var f2 := SearchFrom(ctx2, s2, f1);
    ChainStartTarget(g, shell, h, c);
    assert c[0] in g.nodes;
    SearchFromComplete(ctx2, s2, f1);
    if c[0] in shell {
      assert c[0] in s2;
    } else {
      assert c[0] in s1;
      SearchFromComplete(ctx1, s1, f0);
    }
    assert Elems(c) in f2.keys;
    assert f2 == Passes(g, maxDeg, h, exclude);
    PassesSound(g, maxDeg, h, exclude);
    KeyedWitness(f2, Elems(c));
  }

  /** Each key of a keyed record is the vertex set of one of its chains. */
  lemma KeyedWitness(f: Found, k: set<Account>)
    requires Keyed(f) && k in f.keys
    ensures exists d :: d in f.chains && Elems(d) == k
  {
  }

  /** A shell chain is a target of the one-account path at its start, in the pass its start belongs to. */
  lemma ChainStartTarget(g: Graph, shell: set<Account>, h: nat, c: Path)
    requires ShellChain(g, shell, h, c)
    ensures c[0] in g.succ
    ensures Target(Search(g, shell, h, c[0] in shell), [c[0]], c)
  {
    assert c[..1] == [c[0]];
  }

  /** Accounts inside a reported chain are low-degree accounts outside `exclude`. */
  lemma ShellInnerAccounts(g: Graph, maxDeg: nat, h: nat, exclude: set<Account>)
    requires Indexed(g) && Closed(g)
    ensures forall c, k :: c in ShellChains(g, maxDeg, h, exclude) && 0 < k < |c| - 1 ==>
              c[k] in g.nodes && c[k] !in exclude && Degree(g, c[k]) <= maxDeg
  {
    ShellChainsSound(g, maxDeg, h, exclude);
    var shell := ShellSet(g, maxDeg, exclude);
    forall c, k | c in ShellChains(g, maxDeg, h, exclude) && 0 < k < |c| - 1
      ensures c[k] in shell
    {
      InnerIsShell(g, shell, h, c, k);
    }
  }

  lemma InnerIsShell(g: Graph, shell: set<Account>, h: nat, c: Path, k: nat)
    requires ShellChain(g, shell, h, c) && 0 < k < |c| - 1
    ensures c[k] in shell
  {
    assert c[k] in c[1..|c| - 1];
  }

  /** The shell rings hold exactly the chains' accounts, and each ring contains a whole shell chain. */
  lemma ShellRingsSpec(g: Graph, maxDeg: nat, h: nat, exclude: set<Account>)
    requires Indexed(g) && Closed(g)
    ensures Members(Merged(ShellChains(g, maxDeg, h, exclude))) == Members(ShellChains(g, maxDeg, h, exclude))
    ensures forall r :: r in Merged(ShellChains(g, maxDeg, h, exclude)) ==>
              exists c :: c in ShellChains(g, maxDeg, h, exclude) && ShellChain(g, ShellSet(g, maxDeg, exclude), h, c)
                          && Elems(c) <= Elems(r)
  {
    var chains := ShellChains(g, maxDeg, h, exclude);
    MergedKeepsMembers(chains);
    MergedGrounded(chains);
    ShellChainsSound(g, maxDeg, h, exclude);
  }
}
