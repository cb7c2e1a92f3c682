# A verified model of the session manager's core

The program runs coding sessions in local or remote terminals, shows them in a desktop window, and keeps a
symbol index and a call graph of every session's working tree.  This project models the parts of it where the
answers are easy to get wrong and proves what they promise.  Code that works by changing things step by step is
modelled as methods with loops and as classes whose methods change their fields; each method is tied to a
function, a relation or a property stated without the code's own steps, and the main results are theorems about
those, for all inputs and for all runs.

## What is modelled

- **Call graph** (`CallGraph.dfy`): one list of references indexed twice.  The log of everything added is the
  reference point; both indexes are arrangements of it.
- **Blast radius** (`BlastRadius.dfy`, `RiskSeries.dfy`, `RiskAccuracy.dfy`): the bounded breadth-first search lists
  exactly the named symbols that reach the changed one, with their distances; the hand-written `ln`, `exp` and `pow`
  keep the order the risk score needs, and stay close to the true functions.
- **PageRank** (`PageRank.dfy`, `PageRankTotals.dfy`, `PageRankLimit.dfy`, `PageRankResults.dfy`, `FiniteSums.dfy`,
  `ScoreRanking.dfy`): every total as a sum over chains of calls, floor, contraction, existence and uniqueness of the
  limit and how fast the rounds approach it, the scores returned for three small graphs, and the exchange sort that
  ranks the scores.
- **Symbol index** (`Indexer.dfy`, `IndexerTheorems.dfy`): the incremental build equals a full one, and loading
  and releasing never show in an answer.
- **Search within a token budget** (`ContextSearch.dfy`).
- **Terminal output** (`Monitor.dfy`, `Streaming.dfy`, `StreamingSession.dfy`): the ring buffer, the protocol
  between one reader, any number of clients and two closers as interleaved steps over numbered chunks, and the
  session object, each of whose methods is a step of that protocol.
- **Sessions** (`Sessions.dfy`, `SessionRuns.dfy`, `IdleHistory.dfy`, `AutoPauseFlags.dfy`, `SessionObjects.dfy`):
  what every API call does to sessions, indexers and the stored list, which idle sessions are paused, and when the
  flag that shows it is true.
- **Hosts** (`HostManager.dfy`, `Reconnect.dfy`): shared connections with counted references and timers that
  may fire too late, and the reconnect loop.  `Runs.dfy` holds what runs of both protocols share.
- **Text** (`FuzzyMatch.dfy`, `ShellQuoting.dfy`, `ShellArguments.dfy`, `DiffParser.dfy`, `ChangedSymbols.dfy`,
  `SymbolPositions.dfy`): fuzzy file search, quoting for the shell and the shell's own unquoting (POSIX.1-2017, Shell
  Command Language, sections 2.2.1 to 2.2.3 and 2.3), the reading of `git diff --unified=0`, and which symbols a diff
  touches.

Everything outside the process is an input: what git, the file system, the network and the process managers
answer.  `float64` is `real`.  Run `dafny verify dfyconfig.toml` to check everything.

## Where the code falls short of what one would expect

Each of these is a theorem: a condition under which the property holds, or a run in which it fails.

- PageRank rounds shrink the distance of any two score tables, and keep the total of any table within 1, exactly
  when no named caller references the same symbol twice: the out-degree counts distinct callees, the contributions
  count calls (`ContractsIffNoRepeatedCalls`, `MassWithinOneIffNoRepeatedCalls`).  With repeated calls the totals
  actually computed can exceed 1 in the first round or only later, and can grow without bound.  `TotalWithinOneIff`
  says for each round exactly when its total exceeds 1, from the weights of the chains of calls; for the first round
  that is when calls per distinct callee average more than 1 over all symbols (`FirstTotalWithinOneIff`).  A cycle of
  calls whose gains multiply to more than 1 makes the totals pass every bound (`GainingCycleIsUnbounded`).  A symbol
  that calls itself twice scores 1.85 after one round (`SelfCalledTwice`); beside one call between two others, the
  totals are 1 and then more than 1.24, and grow on (`LaterTotalsExceedOne`); a symbol that calls another twice
  stays within 1 (`OtherCalledTwice`).  Without repeated calls every total stays within 1 (`IterateMass`).
- An incremental build drops the references made by unchanged files that define no symbol; the saved graph is
  complete exactly when no such file makes a reference (`GraphIsFullIff`, and `UnchangedReferenceGetsLost` for two
  builds of one indexer).
- A file listed twice has its references stored twice (`DuplicateListingRepeatsReferences`).
- A saved index is accepted for its commit alone.  It is exact exactly when no file has gained or lost a symbol
  since it was saved (`AcceptedCacheIsExactIff`), which an uncommitted edit can break (`StaleCacheAccepted`).
- A failing save keeps the new modification times with the old index, so later builds see nothing to do
  (`FailedSaveIsNeverRepaired`).  `BuildKeepsExactIff` says exactly which builds keep an index exact, and
  `RebuildIsRightIff`, file by file, what a rebuild makes of an index that need not be right.
- A chunk broadcast between a client's snapshot and its subscription is lost, one between write and broadcast is
  shown twice, and a client that subscribes after both closers are through waits for ever; as long as one of them
  is not, every subscriber can still be closed (`LostExactlyBetween`, `RepeatedIffJoinedBefore`, `CanBeClosedIff`,
  each with a run that gets there).
- The comparison behind `HasUpdated` looks at the ring as it lies in memory, so in a full ring a changed text can
  go unnoticed, however much was written between two looks (`WriteGoesUnnoticedIff`).
- Host counts break exactly at a step that forgets a client while somebody holds it; then a late timer can close
  a connection in use (`AccountKeptIff`, `DiscardedClientBreaksTheCount`).
- Creating or opening a remote session acquires the client of its host, and nothing ever gives that back, so from
  then on the host is never idle, whatever becomes of the sessions (`SessionsKeepHostsBusy`).
- A remote session created under the title of an indexed local one leaves that indexer behind; no other call does
  (`CallKeepsGoodIff`, `TakeoverLeavesIndexer`).
- The comment in the status poll says that a set idle mark means the session is idle at a prompt.  It means that
  it was: the poll decides before it looks, and can pause a session that is busy, which the background check
  never does (`PollChoosesBusyToo`, `BusySessionIsPaused`).
- Resuming clears the auto-pause flag so that no stale indicator is shown; opening resumes too, and leaves it
  (`ReopenedStaysFlagged`).  A flag becomes false exactly by that, and when a pass chooses a session that it cannot
  pause (`CallKeepsFlagsIff`, `UnkillableStaysFlagged`).
- The comment on touching a session says that nothing happens to a paused one; the code marks it as viewed, and
  so does the model (`TouchSession`).
- A match in the basename outranks every match outside it exactly for queries with a slash, which no basename
  matches, and for those whose length, twice, and inner separators add up to less than 19; so always up to six
  characters and never from ten on (`BasenamesRankFirstIff`, `AllRankFirstIff`).
- In a diff of several files the name lines of the next file are counted into the hunk before, and a path that
  contains ` b/` is cut (`ReadingUndoesPrintingIff`, `NextFileIsCountedIn`).
- Program arguments are joined without quoting.  They are read back as given, whatever files there are, exactly when
  each is harmless: not empty, not a comment, not starting with a tilde, and without quotes, blanks, expansions,
  patterns for file names (`*`, `?`, `[`) and operators (`ArgumentsArriveIff`).  The configuration that is passed in
  JSON is not (`ConfigurationArrivesStripped`), nor are paths with brackets (`PatternInPathIsExpanded`), a program
  under `~`, and most commit messages.
- Removed lines carry the numbers of the old file and are compared with where a symbol stands now, so a symbol that
  has moved can be listed although the diff does not touch it, or be missing although it has lost a line
  (`HitsAreTrueIffUnmoved`, `TouchedSymbolIsMissed`).
- The poll reports a session as paused before it is (`ReportIsTrueIff`).

## Model

| member | source | states |
|---|---|---|
| CallGraphs.AddKeepsIndexes | app/indexer_callgraph.go:25-34 | adding one reference keeps both indexes holding exactly the references added so far, in order |
| CallGraphs.BothIndexesHoldTheLog | app/indexer_callgraph.go:10-13 | each reference is listed under its symbol, and under its caller, exactly as often as it was added, and under no other key |
| CallGraphs.IndexedReferenceIsLogged | app/indexer_callgraph.go:25-34 | a reference is found under a key of either index if and only if it was added with that symbol or caller |
| CallGraphs.SymbolsAreLogged | app/indexer_callgraph.go:473-480 | the symbols of the graph are exactly the names mentioned by some reference |
| CallGraphs.CallGraph.AddReference | app/indexer_callgraph.go:25-34 | the log grows by the reference and both indexes still hold it |
| CallGraphs.CallGraph.Clear | app/indexer_callgraph.go:59-64 | the graph is empty afterwards |
| CallGraphs.CallGraph.FindCallers | app/indexer_callgraph.go:37-45 | exactly the added references to the symbol, in the order added, none lost and none twice |
| CallGraphs.CallGraph.FindCallees | app/indexer_callgraph.go:48-56 | exactly the added references made by the caller, in the order added |
| BlastRadii.GetBlastRadius | app/indexer_callgraph.go:270-354 | terminates on every graph; the list is exact for the given depth, or for 5 if none is given, its counts and deepest level agree with it, and the risk is the normalised sum of its weights |
| BlastRadii.ExpandItem | app/indexer_callgraph.go:295-336 | the inner loop looks at every caller of the item and keeps the search invariant; the measure that bounds the search does not grow |
| BlastRadii.ReachesIffChain | app/indexer_callgraph.go:282-298 | reaching a symbol in k calls is the same as a chain of k references through named callers |
| BlastRadii.NothingMissed | app/indexer_callgraph.go:291-337 | once every queued item is expanded, every chain within the bound ends in a visited symbol at no greater depth |
| BlastRadii.VisitCaller | app/indexer_callgraph.go:308-336 | a visited caller is never found again at a smaller depth, so each is listed once, and visiting one keeps the invariant |
| BlastRadii.ListedIffReachable | app/indexer_callgraph.go:282-337 | a symbol is listed if and only if a chain of 1 to maxDepth named callers leads to it |
| BlastRadii.StartListedIffOnCycle | app/indexer_callgraph.go:284-337 | the changed symbol is its own dependent if and only if it lies on a cycle of calls within the bound |
| BlastRadii.ExactDependentsAgree | app/indexer_callgraph.go:284-337 | exact lists have the same symbols, each once, at the same depths |
| BlastRadii.SummaryAgreesWithList | app/indexer_callgraph.go:339-345 | the direct count is the number of distinct named callers, and the deepest level is attained and within the bound |
| BlastRadii.LargerBoundExtends | app/indexer_callgraph.go:303-306 | a larger bound only adds dependents, all deeper than the smaller bound |
| BlastRadii.RiskWithinBounds | app/indexer_callgraph.go:347-351 | the risk is 0 without dependents and in (0, n/(n+5)] with n |
| RiskSeries.Ln | app/indexer_callgraph.go:373-389 | the loop sums ten terms of the odd series |
| RiskSeries.Exp | app/indexer_callgraph.go:392-400 | the loop sums nineteen terms of the exponential series after the first |
| RiskSeries.Pow | app/indexer_callgraph.go:357-370 | the power is the truncated exponential of the scaled truncated logarithm, with the special cases 0 and 1 |
| RiskSeries.LnOrder | app/indexer_callgraph.go:373-389 | from 1 on the truncated logarithm is non-negative and strictly increasing |
| RiskSeries.PowOrder | app/indexer_callgraph.go:357-370 | from 1 on the truncated power is at least 1 and strictly increasing in its base |
| RiskSeries.DeeperWeighsLess | app/indexer_callgraph.go:327-329 | a deeper dependent always weighs strictly less, but never nothing; a direct one weighs 1 |
| RiskSeries.NormalizeOrder | app/indexer_callgraph.go:347-351 | more raw score means more risk, always below 1 |
| RiskSeries.RiskBounds | app/indexer_callgraph.go:327-351 | no dependents, no risk; n dependents, a risk in (0, n/(n+5)], the bound reached exactly when all are direct |
| RiskSeries.MoreDependentsMoreRisk | app/indexer_callgraph.go:327-351 | one more dependent strictly raises the risk |
| RiskAccuracy.LnBetween | app/indexer_callgraph.go:373-389 | from 1 on the truncated logarithm lies between 2(x-1)/(x+1) and (x*x-1)/(2x), as the true one does |
| RiskAccuracy.ExpBetween | app/indexer_callgraph.go:392-400 | from 0 to 1 the truncated exponential lies between 1+x and 1/(1-x) |
| RiskAccuracy.ExpAtOne | app/indexer_callgraph.go:392-400 | at 1 it is the sum of the reciprocals of the factorials up to 19! |
| RiskAccuracy.DefaultDepthsWeighRight | app/indexer_callgraph.go:327-329 | for depths 1 to 5 the tenth power of the truncated power is within 0.03 percent of the seventh power of the depth |
| RiskAccuracy.RiskOfTwo | app/indexer_callgraph.go:327-351 | one direct dependent and one behind it make a risk between 0.2442 and 0.2443 |
| PageRanks.ComputePageRank | app/indexer_callgraph.go:466-546 | nothing for an empty graph; otherwise the iterate of the round at which the loop stops, by convergence or after twenty rounds; without repeated calls the result is within 0.85 to the 20th of the first distance to the stationary ranking, or within 0.85/0.15 times n times 0.0001 of it |
| PageRanks.OneRound | app/indexer_callgraph.go:507-537 | one pass computes the next iterate, and its largest change is below epsilon if and only if no score moved by epsilon or more |
| PageRanks.OutDegrees | app/indexer_callgraph.go:496-503 | every caller's out-degree is its number of distinct callees |
| PageRanks.SumSwap | app/indexer_callgraph.go:510-524 | summing over receivers by one index is summing over contributors by the other, each reference once, whatever it counts |
| PageRanks.MassAfterStep | app/indexer_callgraph.go:506-537 | the total after a round is 0.15 plus what the callers pass on |
| PageRanks.PassedOnBound | app/indexer_callgraph.go:515-524 | a caller passes on at most 0.85 of its score if it repeats no callee, and more than that if it does |
| PageRanks.StepFloor | app/indexer_callgraph.go:511-512 | every updated score is at least 0.15/n |
| PageRanks.IterateMass | app/indexer_callgraph.go:489-543 | every iterate is non-negative and, without repeated calls, sums to between 0.15 and 1 |
| PageRanks.Contraction | app/indexer_callgraph.go:506-537 | without repeated calls a round shrinks the L1 distance of any two score tables to at most 0.85 of it |
| PageRanks.ContractsIffNoRepeatedCalls | app/indexer_callgraph.go:495-524 | rounds contract if and only if no named caller references the same symbol twice |
| PageRanks.MassWithinOneIffNoRepeatedCalls | app/indexer_callgraph.go:495-524 | a round keeps the total of every table within 1 under exactly the same condition |
| PageRanks.GeometricDecay | app/indexer_callgraph.go:506-543 | successive iterates, and the distance to a stationary ranking, shrink geometrically |
| PageRanks.StationaryIsUnique | app/indexer_callgraph.go:506-543 | there is at most one stationary ranking |
| PageRanks.SettlesAboveHeight | app/indexer_callgraph.go:506-537 | without recursion a symbol's score no longer changes from the round above its height in the call graph on |
| PageRanks.AcyclicGraphsSettle | app/indexer_callgraph.go:506-543 | without recursion the iteration reaches a stationary ranking after as many rounds as calls are deep |
| PageRanks.EarlyStopLosesLittle | app/indexer_callgraph.go:528-542 | stopping when a round settles costs at most 0.85/0.15 times n times epsilon against any number of further rounds |
| PageRanks.EarlyStopIsClose | app/indexer_callgraph.go:528-542 | the same against the stationary ranking |
| PageRankTotals.TotalByChains | app/indexer_callgraph.go:489-543 | every computed total, times the number of symbols, is 0.15 of all shorter chains of calls and all of the chains as long as there were rounds, each weighed by what its calls send on |
| PageRankTotals.TotalWithinOneIff | app/indexer_callgraph.go:489-543 | in every round, the total is at most 1 if and only if those chains weigh no more than there are symbols |
| PageRankTotals.FirstTotalWithinOneIff | app/indexer_callgraph.go:486-526 | the first total is at most 1 if and only if calls per distinct callee of the named callers add up to at most the number of symbols |
| PageRankTotals.AlongPath | app/indexer_callgraph.go:510-526 | along a path of calls a score arrives, multiplied by the gains, after as many rounds as there are calls |
| PageRankTotals.AroundCycle | app/indexer_callgraph.go:506-543 | every time around a cycle of calls multiplies a score on it by at least its gains |
| PageRankTotals.SelfCallsGrow | app/indexer_callgraph.go:506-543 | a symbol's score in round k is at least the k-th power of what its calls of itself send on, divided by the number of symbols |
| PageRankTotals.GainingCycleIsUnbounded | app/indexer_callgraph.go:506-543 | with a cycle of calls that gains, the totals exceed every bound |
| PageRankTotals.SelfCalledTwice | app/indexer_callgraph.go:495-526 | a symbol that calls itself twice scores 1.85 after the first round |
| PageRankTotals.OtherCalledTwice | app/indexer_callgraph.go:495-526 | a symbol that calls another twice: the totals are 1, 1 and 0.2775 for ever |
| PageRankTotals.LaterTotalsExceedOne | app/indexer_callgraph.go:495-543 | three symbols, the first total 1, the second above 1.24 in a round that is computed, and a score that grows like the powers of 1.7 |
| PageRankLimits.StepIsLinear | app/indexer_callgraph.go:510-526 | a round is one linear equation for every symbol, with the gains of its callers as coefficients |
| PageRankLimits.StationaryExists | app/indexer_callgraph.go:506-543 | without repeated calls those equations have a solution: a stationary ranking exists |
| PageRankLimits.RankingConverges | app/indexer_callgraph.go:489-543 | it is the only one, the rounds approach it geometrically, and an early stop is within 0.85/0.15 times n times epsilon of it |
| PageRankResults.RankedChain | app/indexer_callgraph.go:466-546 | the scores returned for a chain of three calls, in numbers |
| PageRankResults.RankedLoop | app/indexer_callgraph.go:528-542 | a symbol that calls itself and another: the scores returned are those of the tenth round, the first in which none moves by 0.0001 |
| PageRankResults.RankedSelfCaller | app/indexer_callgraph.go:506-543 | a symbol that calls itself twice never settles; the score returned is that of the twentieth round, in closed form |
| ScoreRankings.SortDescending | app/indexer_callgraph.go:453-460 | the exchange sort leaves a descending permutation of the array |
| ScoreRankings.RankedScores | app/indexer_callgraph.go:441-463 | every symbol once with its score, in descending order |
| ScoreRankings.TopDominates | app/indexer_treesitter.go:589-593 | cutting a ranked list never drops an entry that outranks a kept one |
| Indexers.Regroup | app/indexer_treesitter.go:113-118 | regrouping a table under another key keeps every symbol exactly as often, and makes no empty entry |
| Indexers.StatFiles | app/indexer_treesitter.go:292-319 | unless interrupted: the existing files in order, their modification times, and exactly the changed ones |
| Indexers.FindDeleted | app/indexer_treesitter.go:321-326 | exactly the recorded files that are gone |
| Indexers.ParseChanged | app/indexer_treesitter.go:347-371 | unless interrupted: every changed readable, parsable, non-binary file contributes its symbols and references |
| Indexers.ReextractUnchanged | app/indexer_treesitter.go:387-406 | unless interrupted: every unchanged file with an entry contributes its references, no other file does |
| Indexers.ComputeIndex | app/indexer_treesitter.go:336-421 | unless interrupted: the table and graph of an incremental build, reference by reference |
| Indexers.ChangesOrNot | app/indexer_treesitter.go:328-334 | nothing changed and nothing deleted if and only if the recorded times are the current ones |
| Indexers.TreeSitterIndexer.constructor | app/indexer_treesitter.go:99-105 | a new indexer has nothing in memory and is not indexed, whatever the store holds |
| Indexers.TreeSitterIndexer.EnsureLoaded | app/indexer_treesitter.go:99-120 | only memory changes; afterwards whatever was saved is loaded, tables and graph together |
| Indexers.TreeSitterIndexer.ReleaseHeavyData | app/indexer_treesitter.go:124-132 | only memory changes; afterwards all three parts are gone |
| Indexers.TreeSitterIndexer.LookupSymbol | app/indexer_treesitter.go:200-210 | the answer is that of the last saved index, loaded or not |
| Indexers.TreeSitterIndexer.FindCallers | app/indexer_treesitter.go:541-551 | the answer is that of the last saved graph, loaded or not |
| Indexers.TreeSitterIndexer.FindCallees | app/indexer_treesitter.go:554-564 | the answer is that of the last saved graph, loaded or not |
| Indexers.TreeSitterIndexer.Build | app/indexer_treesitter.go:224-458 | which way the build ends and the whole state after it, for each way |
| Indexers.TreeSitterIndexer.Publish | app/indexer_treesitter.go:436-454 | the new index is stored, or what a failed save leaves, and memory keeps only file list and times |
| IndexerTheorems.BuildDoesOneThing | app/indexer_treesitter.go:224-458 | unless interrupted a build ends in one determined way; interrupted it may also change nothing but memory |
| IndexerTheorems.OtherCommitRebuilds | app/indexer_treesitter.go:230-260 | a new process whose stored index is of another commit, or that has none, builds anew, and with everything readable saves exactly the present symbols under the present commit |
| IndexerTheorems.SameCommitIsTakenOver | app/indexer_treesitter.go:230-260 | a new process whose stored index is of the present commit leaves it as it is and records the present times |
| IndexerTheorems.RebuildRecordsFiles | app/indexer_treesitter.go:292-319 | a rebuild records the listed files that exist, as often and in the order they are listed, with their times |
| IndexerTheorems.ExactTablesAgree | app/indexer_treesitter.go:377-385 | two exact tables hold the same symbols under every name |
| IndexerTheorems.IncrementalTableIsExact | app/indexer_treesitter.go:336-385 | from an exact index, the symbols of an incremental build are those of a full one |
| IndexerTheorems.IncrementalTableIsExactIff | app/indexer_treesitter.go:336-385 | from an exact index, the new symbols are exact if and only if no changed file with symbols was unreadable |
| IndexerTheorems.OldTableExactIff | app/indexer_treesitter.go:230-260 | a table that was exact is exact now if and only if no file has gained or lost a symbol |
| IndexerTheorems.AcceptedCacheIsExactIff | app/indexer_treesitter.go:230-260 | an accepted saved index is exact if and only if no file has gained or lost a symbol since it was saved, and so whenever no file has a new time |
| IndexerTheorems.RebuildIsRightIff | app/indexer_treesitter.go:336-385 | from any index, a rebuild is right about a file if and only if the file is gone, or changed and readable or without symbols, or unchanged and the old index was right |
| IndexerTheorems.RebuildIsExactIff | app/indexer_treesitter.go:336-385 | from any index, a rebuild is exact if and only if it misses no symbol in an unreadable file and the old index was right about all unchanged files |
| IndexerTheorems.RebuiltFileIs | app/indexer_treesitter.go:336-385 | a rebuild keeps all symbols of a changed file, none if it is unreadable, unparsable or binary, and of an unchanged file what the old index had |
| IndexerTheorems.RebuiltReferenceIs | app/indexer_treesitter.go:347-421 | the same for references, which an unchanged file gives again only if the old index has a symbol of it, binary or not |
| IndexerTheorems.BuildKeepsExactIff | app/indexer_treesitter.go:224-458 | every way a build can end keeps the saved symbols exact for the recorded times, exactly under the stated conditions on cache, unreadable files and failing saves |
| IndexerTheorems.FaultlessKeepsUp | app/indexer_treesitter.go:224-458 | the conditions hold when everything is read and saved and a cache is accepted only at its own times |
| IndexerTheorems.FailedSaveIsNeverRepaired | app/indexer_treesitter.go:442-454 | after a failing save, builds in the same tree leave what it left |
| IndexerTheorems.GraphButOverlooked | app/indexer_treesitter.go:387-421 | the saved graph holds every file's references but those of unchanged files without symbols |
| IndexerTheorems.GraphIsFullIff | app/indexer_treesitter.go:387-421 | the saved graph is complete if and only if no such file makes a reference |
| IndexerTheorems.SavedReferenceIff | app/indexer_treesitter.go:387-421 | a completed build finds exactly the references of the files it did not overlook |
| IndexerTheorems.UnchangedReferenceGetsLost | app/indexer_treesitter.go:387-421 | two builds by one indexer: a reference in an unchanged file without symbols is found after the first and not after the second |
| IndexerTheorems.LostReference | app/indexer_treesitter.go:387-421 | such a loss in a tree of two files |
| IndexerTheorems.DuplicateListingRepeatsReferences | app/indexer_treesitter.go:348-370 | a changed file listed k times has each of its references stored k times |
| IndexerTheorems.FirstBuildIsFull | app/indexer_treesitter.go:264-458 | the first build saves exactly the symbols and references of all files |
| IndexerTheorems.RunsStayExact | app/indexer_treesitter.go:224-458 | over any run of builds that keep up, queries and releases the saved symbols are exact for the recorded times |
| IndexerTheorems.RunsBreakWhereLeftBehind | app/indexer_treesitter.go:224-458 | the first build that does not keep up is where the index stops being exact, and only there |
| IndexerTheorems.RunGraphsButOverlooked | app/indexer_treesitter.go:387-421 | after every completed build of a run the graph is the full one but for the overlooked files |
| IndexerTheorems.IncrementalEqualsFull | app/indexer_treesitter.go:277-385 | whatever the history, under every name the saved symbols are those a first build would save |
| IndexerTheorems.AnswersOutliveMemory | app/indexer_treesitter.go:99-210 | queries, releases and builds that are cancelled, fail to list or find nothing to do change no answer |
| IndexerTheorems.RunsStayCoherent | app/indexer_treesitter.go:99-132 | in every run memory holds nothing or exactly the last saved index, all parts together |
| IndexerTheorems.StaleCacheAccepted | app/indexer_treesitter.go:230-260 | a saved index of the same commit is accepted although the contents have changed |
| ContextSearches.SearchWithBudget | app/indexer_treesitter.go:485-538 | the results are the longest prefix of the readable hits within the budget, but at least the first |
| ContextSearches.TokensCounted | app/indexer_treesitter.go:503-513 | a hit counts its content, signature or name at four characters to a token, rounded up, a bare name five more |
| ContextSearches.ReadableHolds | app/indexer_treesitter.go:496-514 | every hit is a result as often as it was found, unless its content is wanted and cannot be read |
| ContextSearches.ReadableCarriesContent | app/indexer_treesitter.go:496-534 | a result carries the content of its symbol if and only if content is wanted |
| ContextSearches.BudgetKept | app/indexer_treesitter.go:516-527 | the total is within the budget, or is that of a single oversized result |
| ContextSearches.LongestFitIsUnique | app/indexer_treesitter.go:485-538 | no other prefix qualifies |
| ContextSearches.SearchWithContext | app/indexer_treesitter.go:666-746 | bundles for the first readable hits, each with exactly the callees that fit; the sum is at most the budget or the first primary; it stops only when the budget is spent or the next primary does not fit |
| ContextSearches.BundlesAreUnique | app/indexer_treesitter.go:666-746 | that determines the answer |
| ContextSearches.CollectRelated | app/indexer_treesitter.go:698-735 | distinct names that the primary calls, by their first definition, every one that fits beside the earlier ones |
| ContextSearches.CandidateIff | app/indexer_treesitter.go:704-723 | the candidates are exactly the readable first definitions of what the primary calls, with their content and tokens |
| ContextSearches.NothingElseFits | app/indexer_treesitter.go:724-726 | no callee left out would fit beside those taken |
| ContextSearches.RelatedTakeAtMostHalf | app/indexer_treesitter.go:700 | related symbols take at most half of what the primary leaves |
| ContextSearches.LeftOutExceedsHalf | app/indexer_treesitter.go:700-726 | a callee left out would take the related symbols over half of what the primary leaves |
| ContextSearches.TableLookupIsByName | app/indexer_treesitter.go:712 | definitions looked up in a saved table carry the name looked up |
| Monitors.PutPushes | pty/monitor.go:54-60 | one byte moves the text along and drops the oldest byte of a full ring |
| Monitors.Monitor.Write | pty/monitor.go:50-61 | after any writes of any lengths the ring stands for the stream of everything written |
| Monitors.PutAllPushes | pty/monitor.go:54-60 | any number of bytes moves the text along and drops the oldest |
| Monitors.Monitor.Content | pty/monitor.go:63-81 | exactly the last min(size, total) bytes of the stream |
| Monitors.Monitor.CheckPatterns | pty/monitor.go:113-132 | true if and only if some pattern occurs in the last min(size, 500) bytes of the stream |
| Monitors.FindSubstring | pty/monitor.go:121 | true if and only if the pattern occurs |
| Monitors.TailIsStreamTail | pty/monitor.go:114-118 | for sizes of at least 500 the check sees exactly the last 500 bytes written |
| Monitors.UnwrappedComparisonIsExact | pty/monitor.go:91-95 | until the ring is full a change is noticed if and only if the text changed |
| Monitors.Monitor.HasUpdated | pty/monitor.go:83-98 | updated if and only if the compared bytes differ from those of the last look; then whether a pattern shows |
| Monitors.SurvivorsAreThere | pty/monitor.go:54-60 | of a write into a full ring, the last bytes stand where they landed |
| Monitors.OnlySurvivorsDiffer | pty/monitor.go:54-60 | nothing else in the ring has changed |
| Monitors.WriteGoesUnnoticedIff | pty/monitor.go:91-95 | whatever is written between two looks, a changed text goes unnoticed if and only if the ring was full, every surviving byte equals the one it replaces, and the ring read from the new position differs |
| Monitors.ComparisonMissesARotation | pty/monitor.go:91-95 | a concrete change that goes unnoticed |
| StreamingSessions.Subscriber.TrySend | pty/manager.go:69-73 | the chunk is queued if there is room and dropped otherwise; never on a closed channel |
| StreamingSessions.Session.Subscribe | pty/manager.go:44-50 | a step of the protocol: a fresh open empty channel is registered for the client |
| StreamingSessions.Session.Unsubscribe | pty/manager.go:52-56 | a step of the protocol: exactly that channel is no longer registered |
| StreamingSessions.Session.WriteToMonitor | pty/manager.go:163 | a step of the protocol: the next chunk is remembered |
| StreamingSessions.Session.OfferAll | pty/manager.go:62-75 | every registered channel is offered the chunk exactly once |
| StreamingSessions.Session.Broadcast | pty/manager.go:62-75 | a step of the protocol: the chunk just written goes to everybody registered |
| StreamingSessions.Session.FeedOutput | ssh/session.go:81-93 | the two steps of the reader for one chunk |
| StreamingSessions.Session.Sweep | pty/manager.go:166-175 | every registered channel is closed once, keeps its queue, and is forgotten |
| StreamingSessions.Session.EndInput | pty/manager.go:166-175 | a step of the protocol: the reader meets the end of input |
| StreamingSessions.Session.Exited | pty/manager.go:179-185 | a step of the protocol: the session counts as closed and no channel is |
| StreamingSessions.Session.Close | pty/manager.go:83-101 | a step of the protocol; closing twice does nothing more than closing once |
| StreamingSessions.Session.GetSnapshot | pty/manager.go:58-60 | a step of the protocol: the end of everything read so far |
| StreamingSessions.Session.Receive | pty/websocket.go:96-103 | a step of the protocol: the client is given the data of the chunk whose number heads its queue |
| Streaming.StepKeepsInvariant | pty/manager.go:44-101 | every enabled step of reader, client or closer keeps the invariant and panics nowhere |
| Streaming.StreamingIsSafe | pty/websocket.go:81-103 | in every interleaving: no send or close on a closed channel, queues of at most 256, strictly increasing chunks per client, at most the last snapshot chunk repeated |
| Streaming.LostExactlyBetween | pty/websocket.go:81-91 | with nothing dropped, a later chunk is missing if and only if it was broadcast between snapshot and subscription |
| Streaming.NothingElseIsLost | pty/manager.go:69-73 | received, queued and dropped chunks add up to those broadcast since the subscription |
| Streaming.MissedIffFull | pty/manager.go:45-73 | in every run a client misses a chunk broadcast while it was registered if and only if exactly 256 chunks were waiting for it at that broadcast |
| Streaming.ReadersMissNothing | pty/manager.go:69-73 | a client that never has 256 chunks waiting is given every chunk broadcast while it is registered |
| Streaming.SnapshotGapHappens | pty/websocket.go:81-91 | a run in which a chunk is lost in that gap |
| Streaming.RepetitionHappens | pty/manager.go:162-165 | a run in which the last snapshot chunk is repeated |
| Streaming.RepeatedIffJoinedBefore | pty/manager.go:162-165 | the last snapshot chunk comes again if and only if its client subscribed between that chunk's write and its broadcast and that broadcast has been; then it comes first |
| Streaming.LateSubscriberIsNeverClosed | pty/manager.go:83-101 | after both closers are through, a subscriber that stays is never closed and never offered anything new, in every continuation |
| Streaming.CanBeClosedIff | pty/manager.go:83-101 | a subscriber that stays can still be closed if and only if the reader has not ended or the session does not yet count as closed |
| Streaming.ExitLeavesOpen | pty/manager.go:179-185 | after a process exit the session counts as closed, and a close then closes no channel |
| Streaming.GoneIsOfferedNothing | pty/manager.go:52-75 | a client that has left or was closed is offered nothing more, in every continuation |
| Streaming.LeavingUnregisters | pty/manager.go:52-56 | leaving makes a client one of those, with what it was given |
| Streaming.LateSubscriberIsReached | pty/manager.go:83-101 | a run that leads to such a subscriber |
| StreamingSessions.FeedAll | pty/manager.go:158-165 | a snapshot after n chunks is the end of their concatenation |
| Sessions.StartedIsSound | session/instance.go:409-507 | a successful start leaves a running session with a process |
| Sessions.PausedIsSound | session/instance.go:680-724 | a successful pause leaves no process, a failing one changes nothing |
| Sessions.ResumedIsSound | session/instance.go:727-785 | only a paused session is resumed, and a failing resume leaves it paused |
| Sessions.CreateKeepsIff | app/bindings.go:359-417 | creating a session keeps the invariant if and only if it does not put a remote one under an indexed title |
| Sessions.OpenKeeps | app/bindings.go:421-497 | opening keeps the invariant, whatever host, process and branch answer |
| Sessions.PassKeeps | app/bindings.go:727-796 | a pass that marks and pauses keeps the invariant |
| Sessions.CallKeepsGoodIff | app/bindings.go:359-682 | every call keeps the invariant, exactly unless it takes over an indexed title |
| SessionRuns.RunsStayGood | app/bindings.go:359-682 | over every run of calls the invariant holds |
| SessionRuns.ReachableSessions | app/bindings.go:359-682 | every indexer belongs to an existing local session that is not paused, every running session has a process, every paused one has been started |
| SessionRuns.TakeoverLeavesIndexer | app/bindings.go:411 | a run in which a remote session takes the title of an indexed local one and is left with its indexer |
| SessionRuns.OpenSucceedsIff | app/bindings.go:421-497 | opening succeeds if and only if the host answers and the session runs, or is paused or remote with an exited process, its branch is free, its worktree is there or can be set up, and a process comes up; the answer is the process that was there, or the one spawned, the second one after a fallback |
| SessionRuns.DeadIsLeftPaused | app/bindings.go:450-474 | a remote session whose process has exited and that cannot be resumed is left paused without a process |
| SessionRuns.UnknownIsRefused | app/bindings.go:421-682 | calls about a session that is not there are refused and change nothing |
| SessionRuns.IndexedIff | app/bindings.go:1509-1548 | after indexing, an indexer runs for the session if and only if it is a known local one that is not paused |
| SessionRuns.OthersUntouched | app/bindings.go:359-682 | a call about one session leaves every other session, its indexer and its stored data alone |
| SessionRuns.CreateThenKill | app/bindings.go:655-682 | killing a session just created under an unused title gives back the state before |
| SessionRuns.CreateMakes | app/bindings.go:359-417 | creation adds a new session that waits to be started, not stored and with no indexer of its own, unless the host cannot be reached; then nothing changes |
| SessionRuns.KillRemoves | app/bindings.go:655-682 | killing a session, running, paused or new, removes it, its indexer and what is stored of it, and leaves every other session alone |
| SessionRuns.KilledStaysAway | app/bindings.go:655-682 | in every run a killed session stays away until one is created under its title, over restarts too |
| SessionRuns.StartAllOrNothing | app/bindings.go:514-581 | exactly when a first start succeeds; then the session runs the process just spawned, stored, and is indexed if and only if local; otherwise nothing of it is left |
| SessionRuns.StartAgain | app/bindings.go:522-525 | starting a session again succeeds and changes nothing |
| SessionRuns.PauseSucceedsIff | app/bindings.go:607-631 | pausing succeeds if and only if the session runs, and is not in-place with a process that cannot be killed; the indexer stops in any case |
| SessionRuns.ResumeSucceedsIff | app/bindings.go:633-653 | resuming succeeds if and only if the session is paused, its branch is free, its worktree is there or can be set up, and a process comes up; the whole session after success and after failure |
| SessionRuns.PauseThenResume | app/bindings.go:607-653 | pausing and resuming gives back the same session with another process, unflagged and not indexed |
| SessionRuns.CallKeepsStore | app/bindings.go:1921-1932 | after every call the store holds exactly the sessions that have been started |
| SessionRuns.RestartRestoresStarted | app/bindings.go:149-171 | after a restart at any time exactly the started sessions are back, paused, and nothing is indexed |
| IdleHistories.IdleSinceIsFirstPrompt | session/instance.go:272-281 | in every run the idle mark is the time of the first pass of the present unbroken series of visible prompts, seen while not paused, and unset otherwise |
| IdleHistories.LastViewedIsLastView | session/instance.go:284-286 | in every run the view mark is the time of the last opening or touch |
| IdleHistories.PollChoosesByHistory | app/bindings.go:736-745 | in every run the poll chooses a session if and only if it is not paused, its present series of prompts began longer ago than the timeout, and its last view, if any, is longer ago than the timeout |
| IdleHistories.ViewedIsNeverChosen | app/bindings.go:739-745 | no session viewed within the timeout is ever chosen, by either pass |
| IdleHistories.CheckChoosesPrompts | app/bindings.go:943-957 | the background check chooses only sessions whose prompt is visible at that pass |
| IdleHistories.PollChoosesBusyToo | app/bindings.go:736-754 | the check's choice is the poll's choice without the sessions that show no prompt |
| IdleHistories.PassesAgreeIff | app/bindings.go:736-754 | the two choose alike if and only if no session the poll chooses is busy |
| IdleHistories.BusySessionIsPaused | app/bindings.go:736-754 | for every timeout, a run in which the poll pauses a running session that shows no prompt |
| IdleHistories.ChosenIsPausedIff | app/bindings.go:783-808 | a session reported as auto-paused is paused, exactly unless it is in-place and its process cannot be killed; either way it is flagged and not indexed |
| IdleHistories.ReportedPrompts | app/bindings.go:757-782 | the poll reports every session and nothing else, with a prompt if and only if it has been started, has a process and its prompt is visible |
| IdleHistories.ReportIsTrueIff | app/bindings.go:783-808 | what the poll reports of all sessions is what it leaves them in, if and only if it could pause all it chose |
| AutoPauseFlags.CallKeepsFlagsIff | app/bindings.go:421-808 | a call leaves a session flagged as auto-paused that is not paused if and only if it opens a flagged session so that it runs, or a pass chooses a session it cannot pause |
| AutoPauseFlags.RunsKeepFlags | app/bindings.go:359-808 | in every run without such calls a flagged session is paused |
| AutoPauseFlags.ReopenedStaysFlagged | app/bindings.go:464-474 | for every timeout, a run that ends with a session running and flagged, paused for being idle and opened again |
| AutoPauseFlags.UnkillableStaysFlagged | app/bindings.go:783-808 | for every timeout, a run in which a poll flags a session and leaves it running |
| SessionObjects.Instance.Spawn | session/instance.go:314-406 | the process id after a spawn, including a resumed conversation that has to be started afresh |
| SessionObjects.Instance.Start | session/instance.go:409-507 | the instance after a first start, successful or not |
| SessionObjects.Instance.Pause | session/instance.go:680-724 | the instance after a pause, in place or with a worktree |
| SessionObjects.Instance.ForcePause | session/instance.go:671-674 | paused and without a process, nothing else changed |
| SessionObjects.Instance.Resume | session/instance.go:727-785 | the instance after a resume, successful or not |
| SessionObjects.Instance.Kill | session/instance.go:510-541 | a started instance has no process afterwards |
| SessionObjects.Instance.Mark | app/bindings.go:747-754 | the idle mark after one look at the prompt; a paused instance keeps its mark |
| SessionObjects.SessionAPI.constructor | app/bindings.go:149-171 | all stored sessions, paused |
| SessionObjects.SessionAPI.SaveInstances | session/storage.go:60-76 | exactly the started sessions are written |
| SessionObjects.SessionAPI.CreateSession | app/bindings.go:359-417 | the whole state after the call |
| SessionObjects.SessionAPI.OpenSession | app/bindings.go:421-497 | the whole state and the answer, over all outcomes of connecting, resuming and spawning |
| SessionObjects.SessionAPI.StartSession | app/bindings.go:514-581 | the whole state; a failing start removes session and indexer |
| SessionObjects.SessionAPI.PauseSession | app/bindings.go:607-631 | the whole state; the indexer stops even if pausing fails |
| SessionObjects.SessionAPI.ResumeSession | app/bindings.go:633-653 | the whole state; a failing resume keeps the auto-pause flag |
| SessionObjects.SessionAPI.KillSession | app/bindings.go:655-682 | session and indexer are gone and the store says so |
| SessionObjects.SessionAPI.TouchSession | app/bindings.go:503-512 | only the view mark of that session changes |
| SessionObjects.SessionAPI.IndexSession | app/bindings.go:1509-1548 | an old indexer always stops; a new one starts only for a local session that is not paused |
| SessionObjects.SessionAPI.StopIndexer | app/bindings.go:1551-1558 | exactly that indexer is gone |
| SessionObjects.SessionAPI.PollAllStatuses | app/bindings.go:727-818 | marks and pauses as specified, in whatever order the sessions come, and reports status, prompt and auto-pause of each |
| SessionObjects.SessionAPI.CheckIdleSessions | app/bindings.go:939-972 | marks and pauses as specified, in whatever order the sessions come |
| HostManagers.AccountKeptIff | ssh/host_manager.go:36-118 | a step keeps every count equal to the unreleased acquisitions, exactly unless it forgets a held client |
| HostManagers.IdleStaysTimed | ssh/host_manager.go:107-117 | a client nobody holds always has a timer that is set and not stopped |
| HostManagers.TimersSpareHeldClients | ssh/host_manager.go:109-116 | a timer, however late, never closes a held client while the counts are right |
| HostManagers.RunsStayAccounted | ssh/host_manager.go:36-183 | in every interleaving that forgets no held client: exact counts, timed idle clients, no held client closed |
| HostManagers.AccountBreaksWhereForgotten | ssh/host_manager.go:50-52 | the counts go wrong exactly at the first step that forgets a held client |
| HostManagers.DiscardedClientBreaksTheCount | ssh/host_manager.go:50-52 | a reachable state in which a timer closes a held client |
| HostManagers.AcquireGives | ssh/host_manager.go:36-86 | an acquisition gives a connected client with its timer stopped, the live one with one more reference or a new one with one, exactly where there is a live one or a connection comes up; otherwise none is left |
| HostManagers.ReconnectGivesBack | ssh/host_manager.go:169-178 | losing a connection and getting it back changes nothing else |
| HostManagers.OtherHostsUntouched | ssh/host_manager.go:36-183 | what happens to one host leaves the clients, counts and timers of all others alone |
| HostManagers.HeldIsAcquired | ssh/host_manager.go:36-118 | in every run, what is held of a host is what was acquired of it less what was given back |
| HostManagers.SessionsKeepHostsBusy | app/bindings.go:373-437 | while everybody else gives back at most what they acquired, a host that a session was created or opened on always has a client with a positive count |
| HostManagers.HostManager.GetClient | ssh/host_manager.go:36-86 | a live client is shared and its timer stopped; otherwise a new one replaces it or, if connecting fails, none is left |
| HostManagers.HostManager.Share | ssh/host_manager.go:41-49 | a live client gets one more reference and its timer is stopped |
| HostManagers.HostManager.Adopt | ssh/host_manager.go:54-85 | a new client with one reference replaces a dead one, if there was one |
| HostManagers.HostManager.ReleaseClient | ssh/host_manager.go:100-118 | one reference less, and a timer when none is left |
| HostManagers.HostManager.IdleCallback | ssh/host_manager.go:109-116 | closes only the very client it was set for, and only while nobody holds it |
| HostManagers.HostManager.Reconnected | ssh/host_manager.go:169-178 | a reconnect keeps the entry and its count |
| Reconnects.ReconnectLoop | ssh/host_manager.go:125-183 | at most twelve attempts, the delays before them, when it succeeds, and twelve attempts when every one fails at once; it gives up if and only if a sleep ends later than 300 seconds after the start, counting sleeps, overruns and attempts |
| Reconnects.DelaysGrowWithinBounds | ssh/host_manager.go:127-128 | delays lie between 3 and 30 seconds and do not decrease |
| Reconnects.TwelveFit | ssh/host_manager.go:126-137 | an attempt can begin before the deadline if and only if it is one of the first twelve |
| Reconnects.DelaysOfAnyRun | ssh/host_manager.go:131-162 | whatever the attempts take, the delays of a run stay within bounds and never decrease |
| FuzzyMatches.MatchString | frontend/src/lib/fuzzyMatch.ts:59-89 | the greedy positions and their score, or nothing if there are none |
| FuzzyMatches.GreedyIsLeftmost | frontend/src/lib/fuzzyMatch.ts:68-85 | the greedy positions embed the query and are pointwise the leftmost embedding |
| FuzzyMatches.GreedySucceedsIff | frontend/src/lib/fuzzyMatch.ts:68-88 | a target matches if and only if the query is a subsequence of it |
| FuzzyMatches.ScoreBounds | frontend/src/lib/fuzzyMatch.ts:71-81 | every matched character earns between 5 and 20 points |
| FuzzyMatches.ScoreIsSum | frontend/src/lib/fuzzyMatch.ts:71-81 | a match scores 5 for every character, 5 more for each that follows the one before at once, 10 more for each after a separator, 15 more at the start |
| FuzzyMatches.FuzzyMatch | frontend/src/lib/fuzzyMatch.ts:11-57 | the sorted matches cut at the limit, or the first paths unranked for an empty query |
| FuzzyMatches.MatchesIffSubsequence | frontend/src/lib/fuzzyMatch.ts:24-53 | before the limit a path is found if and only if the query is a case-insensitive subsequence of it |
| FuzzyMatches.SameLoweredIff | frontend/src/lib/fuzzyMatch.ts:20-26 | two characters count as the same if and only if they are, or are the two cases of one letter |
| FuzzyMatches.HighlightsInBasename | frontend/src/lib/fuzzyMatch.ts:43-51 | highlights lie inside the basename and mark characters of the query |
| FuzzyMatches.AllMatchesListed | frontend/src/lib/fuzzyMatch.ts:24-53 | before the limit the results are exactly those of the matching paths |
| FuzzyMatches.MatchedInOrder | frontend/src/lib/fuzzyMatch.ts:23-53 | before the sort the results stand in the order of their paths, one for each time a matching path is listed |
| FuzzyMatches.Slice | frontend/src/lib/fuzzyMatch.ts:17-19 | the first elements up to the limit; a negative limit leaves out that many at the end |
| FuzzyMatches.Unranked | frontend/src/lib/fuzzyMatch.ts:16-19 | for an empty query every path in its order, without score or highlights |
| FuzzyMatches.SortFacts | frontend/src/lib/fuzzyMatch.ts:55 | the sort keeps every result, orders by score, and keeps equal scores in their order |
| FuzzyMatches.DroppedNeverOutscoresKept | frontend/src/lib/fuzzyMatch.ts:55-56 | no dropped match outscores a kept one |
| FuzzyMatches.ResultBounds | frontend/src/lib/fuzzyMatch.ts:28-51 | basename matches score 100 to 100 more than the bounds of a path match |
| FuzzyMatches.ShortQueriesRankBasenamesFirst | frontend/src/lib/fuzzyMatch.ts:28-57 | up to six characters every basename match outranks every path-only match |
| FuzzyMatches.ScoreCeiling | frontend/src/lib/fuzzyMatch.ts:71-81 | 20 points at the start and after each separator of the query, 15 for any other character, is the most a match can score |
| FuzzyMatches.RankFirstIffCeiling | frontend/src/lib/fuzzyMatch.ts:28-57 | for each query, basename matches outrank all others if and only if the query has a slash or that most is below the least basename score; both are attained |
| FuzzyMatches.BasenamesRankFirstIff | frontend/src/lib/fuzzyMatch.ts:28-57 | for each query: if and only if it has a slash, or twice its length and its inner separators are below 19 |
| FuzzyMatches.AllRankFirstIff | frontend/src/lib/fuzzyMatch.ts:28-57 | six characters are exactly how far that reaches for all queries of a length |
| ShellQuoting.EscapeRoundTrip | ssh/client.go:383-385 | for every string, the shell reads its quoted form as exactly the one word it is |
| ShellQuoting.EscapeIsInjective | session/git/executor.go:47-49 | different strings have different quoted forms |
| ShellQuoting.LexEscaped | ssh/client.go:383-385 | wherever it stands, a quoted string adds exactly its text to the current word |
| ShellQuoting.LexEscapedPath | frontend/src/components/Terminal/TerminalPane.tsx:25-28 | the same for dropped paths, quoted or left bare |
| ShellQuoting.BarePathsStay | frontend/src/components/Terminal/TerminalPane.tsx:25-28 | a path is left unquoted if and only if it is made of letters, digits and the marks _ . / @ : - |
| ShellQuoting.PathListRoundTrip | frontend/src/components/Terminal/TerminalPane.tsx:142 | the space-joined list of quoted paths reads back as the list |
| ShellQuoting.RemoteCommandParses | session/git/executor.go:36-45 | the remote command is a change to exactly the given directory and then the given command line |
| ShellQuoting.LoginShellUnquotesTwice | ssh/process_manager.go:79-87 | the login shell gets the whole command as one word, which read again changes to the original directory |
| ShellArguments.ArgumentsArriveIff | ssh/process_manager.go:80-83 | program and arguments are read back as given if and only if each is not empty, starts neither a comment nor with a tilde, and holds no quote, blank, expansion, file-name pattern or operator character |
| ShellArguments.WithinCapacity | session/git/executor.go:36-40 | no reading of a line amounts to more than the line holds |
| ShellArguments.UnquotedArgumentSplits | session/git/worktree_git.go:122-124 | an argument with a blank arrives as two |
| ShellArguments.PatternInPathIsExpanded | session/git/diff_files.go:75 | a path with a pattern character in an argument is not read back: files that match take its place |
| ShellArguments.QuotedKeyLosesQuotes | app/mcp_server.go:924-941 | a quoted key inside an argument arrives without its quotes |
| ShellArguments.ConfigurationArrivesStripped | app/mcp_server.go:924-941 | a configuration in JSON as an argument, with quotes and no blank, does not arrive as given |
| DiffParsers.ParseDiffOutput | app/indexer_git.go:165-237 | one hunk for every hunk header, in the file named last, with the numbers of its added and removed lines |
| DiffParsers.ReadSmallDiff | app/indexer_git.go:165-237 | one small diff, from its text to its hunk |
| DiffParsers.HeaderReadIff | app/indexer_git.go:161 | a hunk header is read as given ranges if and only if it begins with their text |
| DiffParsers.FileReadIff | app/indexer_git.go:160 | a file line is read as a name if and only if the name follows a separator and contains none that leaves something after it |
| DiffParsers.PrintedReadsBack | app/indexer_git.go:165-237 | what is read from a printed diff of any number of files: every hunk once and in order, the last of a file with the lines up to the next hunk counted in |
| DiffParsers.ReadingUndoesPrintingIff | app/indexer_git.go:165-237 | reading undoes printing if and only if the names survive and no countable line follows a hunk |
| DiffParsers.OneFileReadsBackIff | app/indexer_git.go:165-237 | for one file any hunk list comes back, exactly unless its path contains the separator |
| DiffParsers.CountingIsConsecutive | app/indexer_git.go:217-226 | the lines of a change are start to start + count - 1 |
| DiffParsers.NumberIs | app/indexer_git.go:186-207 | a count left out is 1, any other number its value, at most 2^63 - 1 |
| DiffParsers.BumpIs | app/indexer_git.go:217-226 | a line counter wraps around after 2^63 - 1 |
| DiffParsers.NextFileIsCountedIn | app/indexer_git.go:214-228 | a following file always adds one added and one removed line to the hunk before it |
| ChangedSymbols.GetChangeType | app/indexer_git.go:90-127 | modified if and only if a changed line falls within the symbol; never added or deleted |
| ChangedSymbols.TouchesIff | app/indexer_git.go:90-127 | a changed line counts if and only if it lies from the first to the last line of the symbol, or on its first if no last is known |
| ChangedSymbols.ScanSymbols | app/indexer_git.go:60-82 | for one hunk, the keys of the symbols it hits that were not seen, each once |
| ChangedSymbols.GetChangedSymbols | app/indexer_git.go:56-86 | exactly the keys of symbols that some hunk hits, each once, with the first hunk that hits the key |
| ChangedSymbols.LeftOutIffStoodFor | app/indexer_git.go:67-70 | a hit symbol is missing if and only if another with its key is listed |
| ChangedSymbols.KeyTellsApart | app/indexer_git.go:67 | for file names without a colon, keys are equal if and only if file and name are |
| SymbolPositions.LostLineIffShiftedInside | app/indexer_git.go:109-116 | a symbol without added lines has lost one if and only if a removed line, shifted by how far the symbol has moved, falls inside it |
| SymbolPositions.HitIffTouched | app/indexer_git.go:90-127 | a symbol that stands where it stood is hit if and only if the diff adds a line inside it or removes one from it |
| SymbolPositions.HitsAreTrueIffUnmoved | app/indexer_git.go:109-116 | hits are right for all symbols moved by a distance if and only if that distance is 0 |
| SymbolPositions.TouchedSymbolIsMissed | app/indexer_git.go:109-116 | a symbol that has lost a line and is hit by no hunk |

## Left out

- Concurrency inside an index query: the moment between giving up the write lock and taking the read lock; every
  query and every build is one step.
- Build: that the search index is cleared before the last checks of the context, and the order in which Go walks
  its maps; interruption may strike at any check instead of every hundredth file.
- EnsureLoaded: a store that exists but cannot be read back; saving and loading hand over a value.
- SearchWithContext: which hits the search library ranks first; hits are a given list.
- ComputePageRank: rounding of `float64`; scores are real numbers, as are the series of the risk score.
- Centrality scores and dead-code confidence: each is settled by reading one function.
- Parsing of source files: what a file contributes is a function of its name and modification time.
- WriteGoesUnnoticedIff: collisions of SHA-256; equal hashes mean equal bytes here.
- Session.Close: killing and waiting for the process; the session of the remote side differs only in what it
  closes besides the channels.
- StreamingIsSafe: the bytes of a chunk; chunks are numbered there, and the session object ties each number to its
  bytes.
- StartSession: the stretch without the lock while a session is being set up; the call is one step.
- PollAllStatuses: of what it returns, the branch, the diff counts and the state of the connection; and the check
  for a changed conversation.  All looks of one pass share one time.
- SaveInstances: a failing write, and the fields of a session that no property here depends on.
- Instance.Start: instances without a process manager or worktree object, and the choice of branch and reference.
- GetClient: the contents of host configuration and secrets; `CloseAll` stands for the shutdown of the manager.
- ReconnectLoop: which secret is read and that a failing read is ignored.
- MatchString: case folding outside ASCII, which can change the length of a string.
- EscapeRoundTrip: expansions, aliases, reserved words and here-documents of the shell; the reading fails on `$`
  and backquotes outside single quotes, and on `*`, `?`, `[` and a leading `~` outside quotation marks.
- ArgumentsArriveIff: the brace expansion of bash, and assignments before a command; neither is part of splitting a
  line into words in POSIX.
- ParseDiffOutput: the splitting of text into lines, its limit of 64 KB a line, and paths that git itself quotes,
  which no file line matches.
- GetChangedSymbols: running git; the symbol table is a given value.
- SessionsKeepHostsBusy: which of the acquisitions sessions make is an input; the session calls and the host manager
  are not one model.
- User interface, configuration profiles, memory limits, benchmark and MCP handlers: nothing here depends on them.
