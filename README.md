# Money-mule detection core, modelled in Dafny

This project models the analysis engine of the money-mule detector in `backend/graph_engine.py`. The engine works on a list of parsed transactions (sender, receiver, amount, timestamp).

- **Graph.** It folds the transactions into a directed graph with one edge per ordered account pair. Each edge carries its transaction list, total amount and count.
- **Detectors.** It runs three detectors:
  - circular fund routing: cycles of 3 to 5 accounts;
  - smurfing: a fan-out or fan-in hub with at least 10 distinct counterparties inside a 72-hour window;
  - layered shell chains: paths whose intermediate accounts have total degree at most 3.
- **Legitimacy filter.** It sets aside likely merchants and payroll accounts.
- **Scoring.** It scores every account that belongs to a ring and numbers the rings `RING_001`, `RING_002`, …. It applies the merchant/payroll penalty and the cap of 100, and computes each ring's risk as the mean of its members' scores.
- **Output.** It lists one suspicious-account row per (account, ring id) pair, sorted by score descending and then by account id. It also produces the summary and the node/edge payload of the graph view.

## Modules

| Module | Models |
|---|---|
| `Accounts` (accounts.dfy) | Python's optional values (`Option`). Account ids as strings, the lexicographic order Python's `sorted` uses on them, and `SortedList`, the sorted list of a set. |
| `Ledger` (ledger.dfy) | `str.strip`. The graph as a node sequence in first-appearance order, successor and predecessor maps, and edge records. `build_graph`, as a function `GraphOf` and as a loop (`BuildGraph`, and the class `GraphBuilder` whose `AddRow` updates the graph in place). |
| `RingMerge` (merge.dfy) | `_merge_overlapping`: the `while merged` loop with its `used` flags, proved against a pass function `Pass` and its fixpoint. |
| `Cycles` (cycles.dfy) | The part of `detect_cycles` after enumeration: the length filter, deduplication by vertex set, and the merge. |
| `Temporal` (temporal.dfy) | `_get_edge_timestamps`, `_time_span_hours`, and the cycle and shell velocity bonuses. |
| `Smurfing` (smurfing.dfy) | `detect_smurfing` and `_find_best_window`. |
| `Shells` (shells.dfy) | `detect_shell_networks`: both explicit-stack DFS passes and the merge. |
| `Legitimacy` (legitimacy.dfy) | `identify_legitimate_accounts`. |
| `RingIds` (ringid.dfy) | The `RING_%03d` ring-id format. |
| `Scoring` (scoring.dfy) | The scoring body of `analyze`: the cycle, smurfing and shell loops over `account_scores`, the penalty, the cap, and the ring risk scores. |
| `Ranking` (ranking.dfy) | The `suspicious_accounts` rows and their sort. |
| `Viz` (viz.dfy) | `_build_graph_viz`. |
| `Analysis` (analysis.dfy) | `analyze` as a whole, once the CSV has been parsed. |

**How loops are modelled.** Each loop of the source is a Dafny `method` with a `while` or `for` loop. Its `ensures` ties the result to a specification function. For example, `MergeOverlapping` returns `Merged(groups)`, `FindBestWindow` returns `BestWindow(...)` and `ScoreAccounts` returns `Scored(...)`. The lemmas next to each function prove what the source promises about that function.

**Number types.** Timestamps are integer seconds, amounts are reals, and scores are integers. Every score update in the source adds an integer to a float that starts at 0.0, so integer scores are exact.

## Model

| member | source | states |
|---|---|---|
| Ledger.StripSpec | backend/graph_engine.py:52-53 | A stripped id is a contiguous slice of the raw id, and only whitespace lies outside that slice. |
| Ledger.StripEnds | backend/graph_engine.py:52-53 | A non-empty stripped id neither starts nor ends with whitespace. |
| Ledger.GraphOf | backend/graph_engine.py:48-71 | Folding any row sequence into the graph yields a well-formed graph. In a well-formed graph, node, adjacency and edge keys agree, and every edge's `count` equals the length of its transaction list and `total_amount` equals the sum of their amounts. |
| Ledger.AddTxnValid | backend/graph_engine.py:51-70 | One row of the loop, whether it appends to an existing edge or creates a new one, keeps the graph well formed. |
| Ledger.BuildGraph | backend/graph_engine.py:48-71 | The row loop builds exactly the fold of all rows, and the result is well formed. |
| Ledger.GraphBuilder.constructor | backend/graph_engine.py:50 | A new builder holds the empty DiGraph. |
| Ledger.GraphBuilder.AddRow | backend/graph_engine.py:52-70 | Updating the builder's fields in place for one row leaves it holding the fold of the old graph with that row. |
| Ledger.AddTxnEdgeAt | backend/graph_engine.py:54-70 | A row touches only the edge of its own stripped (sender, receiver) pair: it appends one record to that edge's list, or creates the edge with one record. Every other edge is unchanged. |
| Ledger.EdgeHoldsPairRows | backend/graph_engine.py:48-71 | An edge (u, v) exists iff some row strips to (u, v). Its transaction list is exactly those rows' records, in row order, so a repeated pair never makes a second edge. |
| Ledger.CountsSumToRows | backend/graph_engine.py:48-71 | The edges' counts add up to the number of rows. |
| Ledger.AddTxnCountTotal | backend/graph_engine.py:60-70 | Each row adds exactly one to the sum of the edge counts. |
| Ledger.NodesInFirstAppearanceOrder | backend/graph_engine.py:51-70 | The graph's nodes are the stripped endpoints, each listed once, in order of first appearance. |
| Ledger.FirstSeen | backend/graph_engine.py:51-70 | First-appearance order lists every element once and nothing else. |
| Ledger.DegreesCountCounterparties | backend/graph_engine.py:264-265 | In-degree and out-degree count distinct counterparties (edges), not transactions. |
| Ledger.EdgeListSpec | backend/graph_engine.py:522 | The edge enumeration lists each edge of the graph exactly once. |
| RingMerge.MergeOverlapping | backend/graph_engine.py:100-123 | The `while merged` loop with its `used` flags returns exactly `Merged(groups)`. It terminates because every merging pass shortens the list. |
| RingMerge.MergePass | backend/graph_engine.py:107-122 | One pass of the outer loop computes `Pass(sets)`. Its `merged` flag is set iff the pass shortened the list. |
| RingMerge.AbsorbLater | backend/graph_engine.py:113-120 | The inner `for j` loop absorbs into group i exactly the later unused groups that `Absorb` takes. It leaves flags up to i unchanged and reports whether any group was absorbed. |
| RingMerge.AbsorbSpec | backend/graph_engine.py:114-120 | Absorbing only grows the current group and loses no account. Each later group is either inside the result or left over. If nothing is absorbed, the current group meets every remaining group in fewer than 2 accounts. |
| RingMerge.PassSpec | backend/graph_engine.py:107-122 | A pass keeps the union of all groups, and every input group lies inside some output group. |
| RingMerge.PassFixed | backend/graph_engine.py:106-122 | A pass that merges nothing returns its input unchanged, and then no two groups share 2 or more accounts. |
| RingMerge.FixpointSpec | backend/graph_engine.py:106-122 | At the fixpoint, no two groups share 2 or more accounts, and another pass changes nothing. The union is kept, every input group is covered, and a non-empty input gives non-empty output. |
| RingMerge.MergedShape | backend/graph_engine.py:102-123 | Every output ring is a strictly sorted list, and no two rings share 2 or more accounts. The output is empty iff the input is. |
| RingMerge.MergedKeepsMembers | backend/graph_engine.py:100-123 | The accounts of the output are exactly the accounts of the input. |
| RingMerge.MergedCoversGroups | backend/graph_engine.py:100-123 | Every input group lies inside some output ring. |
| RingMerge.MergedGrounded | backend/graph_engine.py:100-123 | Every output ring contains at least one input group. |
| RingMerge.MergedIdempotent | backend/graph_engine.py:100-123 | Merging the merger's own output returns it unchanged. |
| Cycles.DetectCycles | backend/graph_engine.py:78-97 | Filtering by length, deduplicating by vertex set and then merging returns `Merged(Candidates(raw, min_len))`. |
| Cycles.DedupSound | backend/graph_engine.py:84-91 | Every kept cycle comes from the enumerator, has at least `min_len` accounts, and its vertex set was not seen before. |
| Cycles.DedupDistinct | backend/graph_engine.py:87-90 | No two kept cycles have the same vertex set. |
| Cycles.DedupComplete | backend/graph_engine.py:84-91 | Every long-enough enumerated cycle whose set was not seen before has a kept cycle with the same vertex set. |
| Cycles.CandidatesSpec | backend/graph_engine.py:84-91 | The candidates are exactly one representative per vertex set among the enumerated cycles of length at least `min_len`. |
| Cycles.CycleRingMembers | backend/graph_engine.py:78-97 | If the enumerator yields simple cycles of at most 5 accounts, then every member of a cycle ring lies on such a cycle of length at least `min_len`. Every candidate lies inside some ring. |
| Cycles.CycleRingSize | backend/graph_engine.py:78-97 | Every merged cycle ring has at least `min_len` accounts. |
| Temporal.EdgeTimestampsCount | backend/graph_engine.py:312-323 | The gathered timestamps number one per transaction on each consecutive hop of the path, plus the closing hop's transactions for a cycle of 2 or more accounts. |
| Temporal.PathStampsMember | backend/graph_engine.py:315-318 | A timestamp is gathered iff it belongs to a transaction on one of the path's consecutive hops. |
| Temporal.TimeSpan | backend/graph_engine.py:326-331 | The span is infinite iff fewer than 2 timestamps are given, and is otherwise non-negative. |
| Temporal.TimeSpanSpec | backend/graph_engine.py:330-331 | A finite span bounds every pairwise difference of the timestamps and is reached by some pair. |
| Temporal.BelowIsHours | backend/graph_engine.py:331-430 | "span below h hours" holds iff the span is finite and seconds / 3600 < h. |
| Temporal.CycleBonus | backend/graph_engine.py:376 | The cycle bonus is 15 below 24 hours, 5 from 24 up to below 72 hours, and 0 otherwise. |
| Temporal.ShellBonus | backend/graph_engine.py:430 | The shell bonus is 10 below 24 hours, and 0 otherwise. |
| Temporal.CycleBonusWithinDay | backend/graph_engine.py:326-430 | The cycle bonus is 15 iff there are at least 2 timestamps and all of them lie within less than 86400 seconds of each other. With fewer than 2 timestamps, neither bonus applies. |
| Temporal.Earliest | backend/graph_engine.py:330-331 | Returns the least timestamp, which is the value `ts_sorted[0]` reads. |
| Temporal.Latest | backend/graph_engine.py:330-331 | Returns the greatest timestamp, which is the value `ts_sorted[-1]` reads. |
| Smurfing.GatherPeers | backend/graph_engine.py:140-160 | The gathering loop lists one (peer, timestamp) entry per transaction on the hub's out-edges (fan-out) or in-edges (fan-in). |
| Smurfing.GatherNonEmpty | backend/graph_engine.py:144-162 | In a well-formed graph, a hub with a counterparty has at least one transaction entry, so the `if not txns` guard never fires. |
| Smurfing.SortByTsSpec | backend/graph_engine.py:146-163 | The timestamp sort yields a sequence ordered by timestamp that is a permutation of its input. It is stable: entries with equal timestamps keep their order. |
| Smurfing.Left | backend/graph_engine.py:176-177 | The left pointer never passes the right pointer. It stops at the first position whose timestamp is within `window` of position j, and every position it skips is more than `window` earlier. |
| Smurfing.FindBestWindow | backend/graph_engine.py:172-181 | The two-pointer loop returns `BestWindow(txns, window, threshold)`. |
| Smurfing.BestWindowSpec | backend/graph_engine.py:172-181 | On timestamp-sorted entries there are two outcomes. `None` means that no right end j has a window, with at least `threshold` distinct peers, ending at j. Otherwise the result is the peer set of the first such window (earliest j, leftmost start). That window is a contiguous run whose pairwise timestamp differences are all at most `window`. |
| Smurfing.ScanNonEmpty | backend/graph_engine.py:178-180 | A returned peer set is non-empty, comes from one contiguous run, and holds at least `threshold` distinct peers. |
| Smurfing.WindowPeers | backend/graph_engine.py:140-165 | A hub's window holds at least `threshold` peers, and all of them are counterparties of the hub on that side. |
| Smurfing.HubRingSpec | backend/graph_engine.py:136-167 | A ring emitted for a hub has the right kind and hub. The hub has at least `fan_threshold` distinct counterparties. The members are strictly sorted, contain the hub, number at least `fan_threshold`, and are otherwise counterparties. |
| Smurfing.KindRingsSpec | backend/graph_engine.py:136-167 | Every ring from one node loop has that loop's kind and a hub from the loop, and is well formed as above. |
| Smurfing.ScanHubs | backend/graph_engine.py:136-167 | Each node loop emits exactly `KindRings` over the graph's nodes in order. |
| Smurfing.DetectSmurfing | backend/graph_engine.py:130-169 | The detector returns the fan-out rings followed by the fan-in rings, `SmurfRings(g, 10, 72)`. |
| Smurfing.SmurfRingsSpec | backend/graph_engine.py:130-169 | Every smurfing ring is well formed. |
| Smurfing.SmurfRingsOnePerHub | backend/graph_engine.py:130-169 | No two rings of the same kind share a hub: each node yields at most one fan-out ring and at most one fan-in ring. |
| Shells.ShellSet | backend/graph_engine.py:193-195 | A node is a shell node iff it is in the graph, is not excluded, and has total degree at most `max_intermediate_degree`. |
| Shells.Starts | backend/graph_engine.py:198-233 | The starts of the first pass are exactly the non-shell nodes, and those of the second pass exactly the shell nodes. |
| Shells.DetectShellNetworks | backend/graph_engine.py:188-253 | The two explicit-stack passes and the merge return `Merged(ShellChains(...))`. |
| Shells.SearchPass | backend/graph_engine.py:203-249 | Running the DFS from each start in turn computes `SearchFrom` over the starts, threading the recorded chains and keys. |
| Shells.Dfs | backend/graph_engine.py:205-249 | One `while stack` loop computes `VisitStack` of the single-path stack `[[start]]`. |
| Shells.Expand | backend/graph_engine.py:207-249 | Popping a path examines its successors in order, pushes the extensions `Kids`, and records the qualifying paths. |
| Shells.Step | backend/graph_engine.py:208-249 | One successor does three things: it is skipped if it is already on the path, it is recorded if the new path qualifies and its vertex set is new, and it is pushed if it can still be extended. |
| Shells.ShellChainsSound | backend/graph_engine.py:188-249 | Every recorded chain is a shell chain: a duplicate-free directed path of at most `min_hops + 3` accounts whose interior accounts are shell nodes. A first-pass chain has at least `min_hops` interior accounts, and a second-pass chain has at least `min_hops + 1` accounts and a non-empty interior. No two chains share a vertex set. |
| Shells.ShellChainsComplete | backend/graph_engine.py:188-249 | Every shell chain of the graph has a recorded chain with the same vertex set. |
| Shells.ShellInnerAccounts | backend/graph_engine.py:194-243 | Every interior account of a recorded chain is a graph node that is not excluded and has total degree at most `max_intermediate_degree`. |
| Shells.ShellRingsSpec | backend/graph_engine.py:252 | The shell rings have exactly the accounts of the chains, and each ring contains a whole shell chain. |
| Legitimacy.IdentifyLegitimateAccounts | backend/graph_engine.py:260-305 | The node loop returns exactly the nodes that pass one of four rules: the volume sink, the volume source, the regular merchant or the regular payroll rule. |
| Legitimacy.GatherAmounts | backend/graph_engine.py:282-297 | The amount loop lists the amounts of every transaction on the node's in-edges or out-edges. |
| Legitimacy.CheckSide | backend/graph_engine.py:280-303 | The merchant or payroll test holds iff there are at least 15 counterparties, at least one amount, and the amounts are consistent. |
| Legitimacy.HighVolumeExempt | backend/graph_engine.py:269-277 | A node with in-degree at least 100 and out-degree 0, or the reverse, is always legitimate. |
| Legitimacy.QuietNotExempt | backend/graph_engine.py:263-303 | A node with in-degree and out-degree both below 20 is never legitimate. |
| Legitimacy.RegularOnValid | backend/graph_engine.py:280-303 | In a well-formed graph, a side is regular iff its degree is at least 20 and its amounts are consistent. The counterparty and non-empty checks follow from the degree. |
| Legitimacy.ConsistentIsLowVariation | backend/graph_engine.py:286-302 | For a positive mean, "consistent" holds iff std / mean < 0.3, for the standard deviation std (any std >= 0 whose square is the variance). |
| Legitimacy.ConstantAmountsConsistent | backend/graph_engine.py:286-289 | Identical amounts have that amount as their mean, zero variance, and are consistent. |
| Legitimacy.Variance | backend/graph_engine.py:287-300 | The population variance is never negative. |
| RingIds.RingId | backend/graph_engine.py:371-426 | A ring id is `RING_` followed by at least 3 digits. |
| RingIds.Pad3Value | backend/graph_engine.py:371 | The zero-padded digits read back as the counter's value. |
| RingIds.RingIdInjective | backend/graph_engine.py:371-426 | Two counters give the same ring id iff they are equal. |
| RingIds.FirstRingId | backend/graph_engine.py:370-371 | The first ring is `RING_001`. |
| Scoring.ScoreAccounts | backend/graph_engine.py:358-460 | The scoring loops, the penalty, the cap and the risk update produce exactly `Scored(...)`. |
| Scoring.ScoreCycles | backend/graph_engine.py:364-392 | The cycle loop computes `CyclePhase`, and the ring counter ends equal to the number of rings. |
| Scoring.AddCycleRing | backend/graph_engine.py:370-392 | One accepted cycle group credits every member with 40 plus the bonus and the `cycle_length_n` tag. It tags only the last member with `high_velocity` (when the bonus is positive) and the ring id, then appends the ring. |
| Scoring.TagLastMember | backend/graph_engine.py:381-383 | The statements after the member loop update only the last member's entry. |
| Scoring.CreditEach | backend/graph_engine.py:378-437 | A member loop credits each listed member once, creating missing entries at the end of the insertion order. |
| Scoring.CreditOne | backend/graph_engine.py:379-437 | One `account_scores[acc]` update adds the score, patterns and ids, and creates the entry if it is missing. |
| Scoring.ScoreSmurfs | backend/graph_engine.py:394-421 | The smurfing loop computes `SmurfPhase`, and the ring counter ends equal to the number of rings. |
| Scoring.HubTxCount | backend/graph_engine.py:403-413 | A smurfing ring's transaction count sums the counts of the hub's edges to (fan-out) or from (fan-in) its other members. |
| Scoring.ScoreShells | backend/graph_engine.py:423-445 | The shell loop computes `ShellPhase`, and the ring counter ends equal to the number of rings. |
| Scoring.ApplyPenalties | backend/graph_engine.py:447-451 | A legitimate account that already has an entry gets `max(0, score - 50)` and the exception tag. No entry is created. |
| Scoring.CapScores | backend/graph_engine.py:453-455 | Every score is capped at 100. |
| Scoring.SetRisks | backend/graph_engine.py:457-460 | Each ring's risk is replaced by the mean of its members' final scores. |
| Scoring.RingTallyOk | backend/graph_engine.py:363-445 | The three loops keep the tally consistent. The insertion order lists each account once and exactly the accounts with entries, and these are exactly the ring members. Ring k's id is `RING_(k+1)`. An account holds a ring's id iff it "holds" that ring: every member of a smurfing or shell ring, and only the last member of a cycle ring. Scores are non-negative and no entry has the exception tag. |
| Scoring.CycleRingScore | backend/graph_engine.py:378-379 | An accepted cycle group raises each account's score by 40 plus the bonus per time it is listed, and leaves other accounts unchanged. |
| Scoring.ShellRingScore | backend/graph_engine.py:432-433 | A shell ring raises each account's score by 25 plus the bonus per time it is listed. |
| Scoring.RingTallyScore | backend/graph_engine.py:363-445 | After the three loops, an account's score is its raw score: the sum over accepted cycle groups, smurfing rings and shell rings listing it of 40 + cycle bonus, 30, and 25 + shell bonus respectively. |
| Scoring.GainedOnce | backend/graph_engine.py:378-433 | For a duplicate-free member list, an account gains the ring's amount iff it is a member. |
| Scoring.ScoredRings | backend/graph_engine.py:363-445 | The rings are the accepted cycle groups (3 to 5 accounts, in order), then the smurfing rings, then the shell rings. Ring k has id `RING_(k+1)`, so skipped cycle groups use no id, and all ids are distinct. |
| Scoring.ScoredKeys | backend/graph_engine.py:358-455 | An account has a score entry iff it is a member of some ring. The insertion order lists exactly those accounts, once each. |
| Scoring.ScoredScore | backend/graph_engine.py:447-455 | A final score is `min(100, raw)`, or `min(100, max(0, raw - 50))` for a legitimate account. It always lies in [0, 100]. An entry carries the exception tag iff its account is legitimate. |
| Scoring.ScoredIds | backend/graph_engine.py:363-445 | An account's ring ids are exactly the ids of the rings it holds. The last-member quirk of lines 381-383 is kept. |
| Scoring.RingTallyPatterns | backend/graph_engine.py:363-445 | After the three ring loops, an account's patterns are exactly `RawPatterns`. That is a `cycle_length_n` tag per accepted cycle group listing it, and `high_velocity` only from an accepted group with a positive bonus whose last member it is. It also gets the `type` of each smurfing ring listing it, and `layered_shell` from each shell ring listing it, with `rapid_layering` when that ring's bonus is positive. |
| Scoring.CycleRingPatterns | backend/graph_engine.py:378-382 | An accepted cycle group gives `cycle_length_n` to every member and `high_velocity` only to the last member, when the bonus is positive. |
| Scoring.ScoredPatterns | backend/graph_engine.py:363-455 | A scored account's final patterns are `RawPatterns` plus the exception tag exactly when it is legitimate. `RawPatterns` never holds the exception tag, so the patterns without it are exactly `RawPatterns`. |
| Scoring.ScoredRisk | backend/graph_engine.py:457-460 | Each ring's risk is the mean of its members' final scores and lies in [0, 100]. |
| Scoring.MeanBounds | backend/graph_engine.py:459-460 | The mean of scores in [0, 100] lies in [0, 100]. |
| Scoring.WithRisk | backend/graph_engine.py:458-460 | Setting the risks keeps the number of rings. |
| Scoring.WithRiskKeeps | backend/graph_engine.py:458-460 | Setting the risks changes neither a ring's members, nor its pattern type, nor its id. |
| Scoring.HeldIdsMember | backend/graph_engine.py:383-437 | An id is held by an account iff some ring with that id is held by it. |
| Ranking.SortRowsFacts | backend/graph_engine.py:479 | The row sort yields rows ordered by descending score and then ascending account id, and it is a permutation of its input. |
| Ranking.SortRowsStable | backend/graph_engine.py:479 | When each account's rows share one score, the sort keeps the order of each account's rows. |
| Ranking.RowsRanked | backend/graph_engine.py:462-479 | The output rows are ranked, and they are a permutation of the rows built in dict order. |
| Ranking.RowsMember | backend/graph_engine.py:462-479 | A row is listed iff four things hold: its account has a positive score, the row's score is that score, its patterns are the sorted patterns without the exception tag, and its ring id is one the account holds. Listed patterns are strictly sorted. |
| Ranking.RowsOfAccount | backend/graph_engine.py:464-479 | An account's rows appear in ascending ring-id order, one per id, even after the sort. |
| Ranking.FlaggedCount | backend/graph_engine.py:489 | `suspicious_accounts_flagged` counts the accounts with a positive score that hold at least one ring id. |
| Ranking.BuildRows | backend/graph_engine.py:462-479 | The row-building loop and the sort produce exactly `Rows(order, info)`. |
| Ranking.AppendAccountRows | backend/graph_engine.py:467-476 | One account appends one row per held ring id, in sorted id order. |
| Ranking.AppendRows | backend/graph_engine.py:470-476 | The inner loop appends `RowsFor` the sorted ids. |
| Viz.VizNodesSpec | backend/graph_engine.py:509-519 | There is one node entry per graph node, in node order. Each entry is suspicious iff its score is positive, and its score is the account's score (0 without an entry). Its ring ids are, in sorted order, the ids of every ring listing the account. Its degrees are distinct-counterparty counts. |
| Viz.VizEdgesSpec | backend/graph_engine.py:521-528 | There is one edge entry per graph edge, and no pair repeats. Each entry carries its edge's transaction count and total amount. |
| Viz.ShownIds | backend/graph_engine.py:503-507 | The ids shown on a node contain the ids the account holds. A ring's id is shown iff the account is a member of that ring. |
| Viz.CycleIdShownNotHeld | backend/graph_engine.py:381-507 | A cycle member other than the last shows the cycle's ring id in the graph view but holds no row for it. |
| Viz.BuildGraphViz | backend/graph_engine.py:501-530 | The projection loops produce exactly `VizNodes` and `VizEdges`. |
| Viz.RingMap | backend/graph_engine.py:504-507 | `account_ring_map` maps each account to the ids of the rings listing it. |
| Viz.EdgePayload | backend/graph_engine.py:521-528 | The edge loop produces `VizEdges`. |
| Analysis.Analyze | backend/graph_engine.py:334-498 | The pipeline returns `AnalysisOf(df, raw, limit)`. `is_partial` holds iff the limit is given and non-zero and the row count reaches it. |
| Analysis.DetectAndScore | backend/graph_engine.py:347-460 | The detector calls feed the scorer. The shell detector excludes the members of the merged cycle rings. |
| Analysis.ScoredRunBoard | backend/graph_engine.py:358-455 | The score dict's insertion order lists exactly its keys, once each. |
| Analysis.RowsExplained | backend/graph_engine.py:462-498 | The report's rows are ranked. Every row has a score in (0, 100] and no exception tag, and names a ring of the report that its account holds. |
| Analysis.RowPatterns | backend/graph_engine.py:462-476 | A row's `detected_patterns` are the sorted patterns its account collected ring by ring, without the exception tag. |
| Analysis.TotalCoversNodes | backend/graph_engine.py:348-488 | `total_accounts_analyzed` counts raw ids and is at least the number of graph nodes. |
| Analysis.EndpointsMember | backend/graph_engine.py:52-53 | A node id is the stripped form of some row's sender or receiver. |

## Left out

- `parse_csv` (CSV reading, `pd.to_datetime`, column renaming) is not part of this model. The model starts from a sequence of parsed rows.
- The cycle enumeration of `nx.simple_cycles` is a parameter `raw`. `Cycles.CycleRingMembers` assumes the enumerator yields simple cycles of at most 5 accounts. An enumerator exception (the `except Exception: pass`) is the same as a shorter `raw`.
- The square root in the coefficient-of-variation test is not modelled. Instead, `Consistent` compares the variance with `(0.3 * mean)^2`, and `Legitimacy.ConsistentIsLowVariation` proves this equals `std / mean < 0.3` for a positive mean. A mean of 0 or less counts as consistent, as `cv = 0` does in the source.
- Floating point: amounts are exact reals, scores exact integers, and `round(..., 1)` / `round(..., 2)` on scores, risks and totals is not modelled.
- The initial `risk_score` of a ring is written as in the source, without `round`. `WithRisk` overwrites it before any read.
- `time.time()` and `processing_time_seconds` (clock reads) are not modelled.
- The iteration order of Python sets (`endpoints`, `shell_nodes`) depends on hashing. The model iterates them in node first-appearance order. Which vertex sets the shell search reports does not depend on that order: `Shells.ShellChainsSound` and `Shells.ShellChainsComplete` fix them as the vertex sets of the shell chains. Another order can pick another path per vertex set and change the order of the chains. Merging, which works on sets, then gives the same rings as sets of accounts. That last step is argued, not proved here. Only the order of the shell rings, and so their `RING_` ids, can change.
- The peer list returned by `_find_best_window` is `list(set)`, whose order is irrelevant once `sorted(set(...))` builds the members. The model returns the set.
- `list.sort` is modelled as a stable insertion sort, which gives the same result as Python's stable sort for the same key.
- The `defaultdict` in `_build_graph_viz` and the `.get` default are modelled by lookups with an empty default, since the reads never insert.
- backend/app.py and api/index.py (Flask routes, file writes, uuids, background threads, the task table and its lock) are not part of this model.
- A negative time window cannot occur: the source always passes 72 hours. `Smurfing.FindBestWindow` requires `window >= 0`.
