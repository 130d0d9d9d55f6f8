# Call-graph profiles, and three list algorithms

The core of this project is the call-graph analysis of `py/gprof2dot.py`: how a profile of functions
and calls is turned into shares of the total time. It is modelled on the program's own objects
(`Profile`, `Function`, `Call` and `Cycle` in module `Profiles`), which the methods update in place,
and proved from the sampled call stacks to the final numbers:

* `_tarjan` and `find_cycles` find the strongly connected components, although every new root explores
  old functions again and replaces the cycle objects of an earlier run (`TarjanInvariant`, `Profiles`).
* `call_ratios` divides the time of every callee among its callers (`Ratios`, `Normalising`).
* `integrate` and the mutually recursive `_integrate_*` methods compute the unique solution of a plain
  recursive equation over the graph of components, for every order in which dictionaries and sets are
  visited (`Inclusive`, `Settlement`). Time is conserved (`Totals`), and which components get any time
  is a question about self times and ratios only (`Charging`).
* The times that are left in the calls add up to the time of the callee, and with the self time to the
  time of the caller (`CallTimes`).
* Inside a cycle, time flows to each entry along calls that lead away from it, ranked by a depth-first
  relaxation (`CycleFlow`, `Ranking`, `Tallies`, `Passes`). The three assertions of the code (lines 368,
  411 and 412) are assertions of the methods here. `Assertions` says when the last two hold: with
  positive ratios always, and otherwise depending on where the zeros are.
* `parse_callstacks`, `ratio`, the whole of `SleepyParser.parse`, and `prune` (`Callstacks`, `Scaling`,
  `Deriving`, `Pruning`). `Profile.Parse` composes everything: for every symbol table and every list of
  call stacks that meets the assertions, the call flow that is integrated is the one that follows from
  the stacks. If there are stacks and all of them have positive samples, all functions, calls and
  cycles end up with a share of the total time between zero and one, and the shares of the root
  components add up to exactly one.

What goes into the graph description is covered by `Stripping` (C++ names) and `DotWriter` (identifiers).
Three further modules stand alone: `Changelog` (the order of issues in MantisBT's change log), `Columns`
(listing in columns in `py/dropbox.py`) and `EmailSettings` (MantisBT's notification settings).

How the program's notions are represented:

* Functions are identified by their ids; where the program uses function objects as dictionary keys or
  set members, the model uses the ids. Floats are real numbers.
* Iteration over dictionaries and sets is an arbitrary pick. The contracts fix the final state all the
  same, so the results do not depend on the order.
* Dictionaries, lists and sets that a recursive method receives and fills (`stack`, `orders`, `ranks`,
  `partials` and so on) are passed in and returned.
* `Snapshot` is the value of all events of a profile; `Settled`, `Passed`, `PassBooks`, `RatedBooks` and
  `Scaled` say what has been written to them. `Flow` is a call graph with self times and call ratios.
* A call is owned by the function that makes it, which is recorded in ghost state.
* An assertion or a failing lookup of the program is a precondition here, except where the program is
  expected to run into it (`Parse` reports the line that aborts it).

Where the code does not do what its comments suggest, the code is followed: `Cycle.add_function` asks for
the function that it has just added (line 213), so it never absorbs anything; the loop in lines 341-346
stores the total of the whole profile once per cycle, not a total per cycle; and the members of a cycle
that nobody calls from outside are left with a time of zero (`Bounds.MemberBound`).

Some properties that one would expect do not always hold. For each of them there is an example and the
exact condition:

* Time is passed on repeatedly when several calls enter a component and all of them have a count of
  zero, because a quotient by zero counts as one (`Totals.ConservationFails`,
  `Totals.RootConservationIff`). For the same reason the time ratios of a profile without samples add up
  to the number of its functions (`Deriving.SharesFail`, `Deriving.SampledTotalIff`).
* The assertion in line 412 divides by zero for an entry that is only called with a count of zero
  (`Assertions.DivisionFails`, `Assertions.DividesByZeroIff`). Its quotient is larger than one if several
  calls lead uphill to a member that carries time and all have a ratio of zero: each of them takes over all
  of that time (`Assertions.QuotientFails`, `Assertions.QuotientExactIff`, `Assertions.AssertedIff`).
* The members of a cycle that nobody enters are left with a time of zero, whatever they and their calls
  take (`CallTimes.BalanceFails`, `CallTimes.NodeBalanceIff`).
* A change log with repeated issues can list an issue at level 0 although its parent is still to come
  and there is no cycle of parents (`Changelog.RepeatedIssue`). Whether it does depends on the order of
  the rows (`Changelog.SortedIssue`); for which rows there is such an order is known exactly
  (`Changelog.SomeOrderForced`).
* Notification settings are not read back as submitted where a default is neither on nor off, and
  recomputing the defaults turns other flags off (`EmailSettings.SaveOverOddDefault`,
  `EmailSettings.SaveForgetsFlag`, `EmailSettings.Save`).

## Model

| member | source | states |
|---|---|---|
| `Profiles.Cycle.AddFunction` | py/gprof2dot.py:207-215 | adds exactly the function, which then points to this cycle; nothing of the old cycle is absorbed |
| `Profiles.Profile.Validate` | py/gprof2dot.py:234-242 | keeps exactly the calls to defined functions, after which every callee lookup succeeds |
| `Profiles.Profile.Tarjan` | py/gprof2dot.py:263-285 | everything discovered below the function is numbered; completed components are closed and labelled, the rest is stacked and waits for an open call |
| `Profiles.Profile.CompleteComponent` | py/gprof2dot.py:284-291 | what is popped is one whole strongly connected component, which gets a cycle object if it has several members |
| `TarjanInvariant.SegmentIsComponent` | py/gprof2dot.py:284-287 | under the search invariant, the stack above a function whose low link is its own number is exactly its component |
| `TarjanInvariant.RunComplete` | py/gprof2dot.py:248-251 | a run from a root leaves nothing on its stack, and what it discovered is not left by any call |
| `Profiles.Profile.FindCycles` | py/gprof2dot.py:244-262 | every function that recurses with others carries a cycle object holding exactly its component; all other functions keep what they carried |
| `Profiles.Profile.CyclesAreComponents` | py/gprof2dot.py:244-292 | two functions share a cycle exactly when each reaches the other by calls |
| `Profiles.Profile.LoneFunctions` | py/gprof2dot.py:284-291 | a function has no cycle exactly when it is alone in its component, whether or not it calls itself |
| `Profiles.Profile.ListCycles` | py/gprof2dot.py:252-256 | the list holds every cycle object in use exactly once |
| `Profiles.Profile.CyclesAreListed` | py/gprof2dot.py:252-256 | every component of several functions is listed, and listed once |
| `Ratios.RatioClosest` | py/gprof2dot.py:60-74 | the number of the unit interval that is closest to the quotient; one if the denominator is zero |
| `Profiles.Profile.TotalCalls` | py/gprof2dot.py:295-307 | the totals per function and per cycle are the sums of the counts of non-self calls and of calls from outside |
| `Profiles.Profile.CallRatios` | py/gprof2dot.py:294-320 | afterwards every non-self call carries its normalised count and nothing else has changed |
| `Ratios.InflowExact` | py/gprof2dot.py:309-320 | the ratios of all calls into a component from outside add up to one if one of their counts is positive, and to the number of these calls if all are zero |
| `Bounds.InnerInflowAtMostOne` | py/gprof2dot.py:309-320 | the ratios of the calls to a member from within its own component add up to at most one |
| `Bounds.InnerProportion` | py/gprof2dot.py:309-320 | the ratios of the calls of a function from within its cycle are in proportion to their counts |
| `Bounds.CrossProportion` | py/gprof2dot.py:309-320 | so are the ratios of all calls that enter a cycle, whichever of its members they call |
| `Bounds.InnerInflowExact` | py/gprof2dot.py:294-320 | what the callers within a cycle do not take over of a member is the part of its calls that come from outside |
| `Bounds.NormalisedPositive` | py/gprof2dot.py:60-74 | positive counts give positive ratios |
| `Normalising.RatedFlow` | py/gprof2dot.py:309-320 | the ratios that are written are those of the normalised counts |
| `Profiles.Profile.Integrate` | py/gprof2dot.py:322-353 | the final events of all functions, calls, cycles and of the profile, as functions of the events before |
| `Profiles.Profile.IntegrateFunction` | py/gprof2dot.py:355-365 | returns the solution of the recursive equation, whether it was memoised or not; settles the function's component and only functions below it |
| `Profiles.Profile.IntegrateCall` | py/gprof2dot.py:367-373 | a call is integrated once, with its ratio of the callee's time; the assertion against a second time holds |
| `Profiles.Profile.IntegrateCycle` | py/gprof2dot.py:375-414 | as `IntegrateFunction`, for a whole cycle |
| `Profiles.Profile.IntegrateMembers` | py/gprof2dot.py:378-387 | the total of a cycle is the sum of its members' own times and of what their calls out of the cycle take over |
| `Profiles.Profile.EntryRatios` | py/gprof2dot.py:389-399 | the dictionary has exactly the members that are called from outside, each with the sum of the ratios of these calls |
| `Profiles.Profile.IntegratePass` | py/gprof2dot.py:404-412 | adds the pass for one entry to the members and inner calls; the entry's partial is the maximum of all, and exactly its share of the total |
| `Profiles.Profile.RankCycleFunction` | py/gprof2dot.py:416-423 | terminates; every changed rank is the length of a walk and no call of a changed member offers a shorter one |
| `Ranking.RankingCorrect` | py/gprof2dot.py:416-423 | ranking from the entry leaves every member its shortest distance |
| `Profiles.Profile.CallRatiosCycle` | py/gprof2dot.py:425-434 | visits the members uphill and sums the ratios of exactly their uphill calls under the callees |
| `Profiles.Profile.IntegrateCycleFunction` | py/gprof2dot.py:436-460 | returns the member's partial time, records it for every member finished on the way, and goes along every uphill call once |
| `Profiles.Profile.IntegrateUphill` | py/gprof2dot.py:446-453 | adds to the call its normalised part of the callee's partial time |
| `Inclusive.UniqueSolution` | py/gprof2dot.py:355-387 | the recursive equation for the times of components has exactly one solution |
| `Inclusive.Conservation` | py/gprof2dot.py:355-399 | in any part that no call leaves, what the components keep for themselves adds up to the self time, for arbitrary ratios |
| `Totals.PositiveBalanced` | py/gprof2dot.py:294-320 | positive counts give ratios that pass on the time of every component exactly once |
| `Totals.RootConservation` | py/gprof2dot.py:348-353 | the times of the components that nobody calls add up to the self time of the whole profile |
| `Charging.ChargedIff` | py/gprof2dot.py:355-387 | a component gets a positive time exactly if a member has self time, or calls another such component with a positive ratio |
| `Totals.RootConservationIff` | py/gprof2dot.py:60-65 | with counts that may be zero this fails exactly if a component that is charged with time is entered by several calls, all with a count of zero |
| `Totals.BalancedIff` | py/gprof2dot.py:294-320 | the ratios pass on the time of every component exactly once if and only if no component is entered by several calls, all with a count of zero |
| `Totals.ConservationFails` | py/gprof2dot.py:60-65 | a profile of three functions for which it fails |
| `Totals.InclusiveBound` | py/gprof2dot.py:355-387 | no time is negative or exceeds the self time of what the function reaches |
| `CallTimes.EdgeConservation` | py/gprof2dot.py:367-373 | with positive ratios the times of the calls to a function add up to its own time, whether the calls come from outside or from within its cycle; to zero if nobody else calls it |
| `CallTimes.IncomingExact` | py/gprof2dot.py:367-460 | for arbitrary ratios: these times add up to what the function's callers from outside take of its component, and what the passes move along the uphill calls to it |
| `CallTimes.EdgeBalance` | py/gprof2dot.py:367-460 | without negative times and ratios, the times of the calls to a member of a cycle are its own time, plus what the passes for other entries repeat, minus what repetitions in its own pass leave in it; outside of cycles they are its time times the ratios of its callers |
| `CallTimes.NodeBalance` | py/gprof2dot.py:355-365 | the time of a function is its self time and the times of its calls, for arbitrary ratios, if its cycle passes on all of its time |
| `CallTimes.NodeBalanceIff` | py/gprof2dot.py:401-414 | without negative times and ratios this fails exactly for the members that contribute to a cycle whose entries do not take all of its time; with balanced ratios that is a cycle that nobody enters, and its members get zero |
| `CallTimes.BalanceFails` | py/gprof2dot.py:401-414 | two functions that call each other, all the time in one of them: it is left with zero |
| `CallTimes.CallBound` | py/gprof2dot.py:436-460 | no call takes over a negative time, or more than the time of its callee |
| `CycleFlow.UphillInflowOf` | py/gprof2dot.py:425-454 | the normalised ratios of the uphill calls to a member add up to one, and to the number of these calls if all their ratios are zero; nothing flows on from the entry |
| `CycleFlow.UphillInflowExact` | py/gprof2dot.py:425-454 | with positive ratios every member but the entry passes its time on exactly once |
| `CycleFlow.UphillProportion` | py/gprof2dot.py:446-453 | the uphill calls of a member take over its partial time in proportion to their ratios |
| `CycleFlow.PartialsBalance` | py/gprof2dot.py:436-460 | in a part of a cycle that is not left uphill, partial times are the part's own time plus what its members take over from each other |
| `CycleFlow.EntryTakesShare` | py/gprof2dot.py:404-412 | the partial time of the entry is exactly its callers' share of the cycle's time |
| `CycleFlow.LayerBalance` | py/gprof2dot.py:436-460 | the partial times at one rank add up to the own times at this rank and what is passed on by the next rank |
| `CycleFlow.EntryIsMaximal` | py/gprof2dot.py:411 | no member's partial time exceeds that of the entry, even with ratios of zero |
| `Assertions.PositiveAsserted` | py/gprof2dot.py:410-412 | with positive ratios both assertions hold in every pass |
| `Assertions.SurplusExact` | py/gprof2dot.py:436-460 | the partial time of the entry is its callers' part of the cycle's time, and once more the partial time of every member for each uphill call but one, if several lead to it and all have a ratio of zero |
| `Assertions.QuotientExactIff` | py/gprof2dot.py:412 | the quotient is exactly one unless several calls lead uphill to a member that carries time, all with a ratio of zero; then it is larger |
| `Assertions.AssertedIff` | py/gprof2dot.py:410-412 | without negative times and ratios, both assertions hold exactly if the cycle takes no time, or the entry has a share and the times that are gone along repeatedly add at most a thousandth to its callers' part of the cycle's time |
| `Assertions.DividesByZeroIff` | py/gprof2dot.py:412 | the assertion divides by zero exactly if all calls of the entry from outside have a count of zero, other calls into the cycle do not, and the cycle is charged with time |
| `Assertions.DivisionFails` | py/gprof2dot.py:412 | a profile of four functions for which it does |
| `Assertions.QuotientFails` | py/gprof2dot.py:412 | a cycle of four functions, each sampled once, in which the quotient is 1.25 |
| `Assertions.AssertedBound` | py/gprof2dot.py:401-412 | if the assertions hold, no member of a cycle gets a negative time, or more than 1.001 times the part of the cycle's time that is passed on, whatever the ratios are |
| `Bounds.MemberBound` | py/gprof2dot.py:401-412 | the final time of a member is between zero and the time of its cycle: zero in a cycle that nobody enters, all of it for a single entry |
| `Bounds.EntriesInflow` | py/gprof2dot.py:389-399 | only the entries contribute to the ratios with which a cycle is called |
| `Profiles.Profile.RatioEvents` | py/gprof2dot.py:473-484 | every function, and every call that has the event, gets its clamped ratio of the profile's; nothing else changes |
| `Scaling.RatiosTotal` | py/gprof2dot.py:473-484 | the ratios of all parts of a total add up to one, or to the number of parts if the total is zero |
| `Deriving.SampledTotalIff` | py/gprof2dot.py:1498-1502 | the time ratios of a sampled profile add up to one exactly if there are samples, or only one function |
| `Deriving.NoSamples` | py/gprof2dot.py:1498-1502 | without call stacks they add up to the number of functions |
| `Deriving.SharesFail` | py/gprof2dot.py:1498-1502 | for two functions they add up to two |
| `Deriving.TimedFlow` | py/gprof2dot.py:1500-1502 | after the call ratios, everything that the integration relies on holds; with positive counts time is passed on exactly once |
| `Deriving.FlowBounds` | py/gprof2dot.py:322-460 | all integrated times of functions, calls and cycles lie between zero and the total, and the roots add up to it |
| `Deriving.StacksTolerable` | py/gprof2dot.py:1464-1504 | with samples that may be zero, if the assertions hold: no time of a function, call or cycle is negative, the roots add up to the total exactly if no time is passed on repeatedly, and if no component is entered only by several calls without samples, no cycle exceeds the total and no function 1.001 times the time of its cycle |
| `Profiles.Profile.DeriveEvents` | py/gprof2dot.py:1498-1502 | the five steps that follow the parsing: the flow that is integrated, and with positive counts and samples all shares between zero and one, no call above its callee, and root shares adding up to one |
| `Deriving.SettledAgree` | py/gprof2dot.py:322-460 | the integration changes no event that was measured |
| `Callstacks.FlowBalance` | py/gprof2dot.py:1475-1488 | a function's own samples and those on its calls add up to those on the calls to it and of the stacks it is outermost on, recursive stacks included |
| `Callstacks.AmountsTotal` | py/gprof2dot.py:1475-1476 | the samples of all functions add up to the profile's |
| `Callstacks.LeavesAreSamples` | py/gprof2dot.py:1471-1476 | what is counted for a function, and in total, is a sum over the lines themselves |
| `Callstacks.LinksAreCalls` | py/gprof2dot.py:1478-1488 | so is what is counted for a call, and which calls there are: caller and callee are neighbours on the stack, the callee first |
| `Callstacks.SymbolsMean` | py/gprof2dot.py:1446-1462 | the last line for a symbol decides which function it means |
| `Profiles.Profile.AddLinks` | py/gprof2dot.py:1478-1488 | every call on the stack gets the samples, whether it existed before or not |
| `Profiles.Profile.ParseSymbols` | py/gprof2dot.py:1446-1462 | every symbol means the function of the last line for it, and exactly the functions of the lines are defined, once and without samples |
| `Profiles.Profile.ParseCallstacks` | py/gprof2dot.py:1464-1488 | stops at the first line with an empty stack or an unknown symbol; until then a function gets the samples of the lines whose first symbol it is, a call those of every position at which its callee is followed by its caller, the profile all of them |
| `Profiles.Profile.Parse` | py/gprof2dot.py:1490-1504 | from call stacks to shares of the total time: the flow that follows from the lines, whose counts are left in the profile; without negative samples, a total of one exactly if there are samples or only one function, and the bounds and the exact condition for the root shares of `Deriving.StacksTolerable`; with positive samples exact self shares, all shares between zero and one, root shares adding up to one |
| `Deriving.LineFlowIs` | py/gprof2dot.py:1490-1504 | the resolved stacks lead to the call graph, the counts and the self shares that the lines describe |
| `Deriving.ParsedSampled` | py/gprof2dot.py:1494-1501 | what the call stacks leave behind is what the analysis relies on |
| `Deriving.PositiveLinesAssertable` | py/gprof2dot.py:1490-1504 | lines with positive samples meet the assertions of the analysis |
| `Deriving.LateStacksFail` | py/gprof2dot.py:1464-1488 | two stacks, one of them without samples, that do not |
| `Deriving.JointStacksFail` | py/gprof2dot.py:1464-1488 | seven stacks that lead to the quotient of 1.25 |
| `Profiles.Profile.Prune` | py/gprof2dot.py:486-526 | the remaining functions and calls with their events, and every call leads to a remaining function |
| `Pruning.PrunedFunction` | py/gprof2dot.py:510-516 | a function stays exactly unless its share is known and below the threshold |
| `Pruning.PrunedCall` | py/gprof2dot.py:496-526 | a call stays exactly unless an end of it goes or its share, or failing that the smaller share of its ends, is known and below the threshold |
| `Pruning.PrunedTwice` | py/gprof2dot.py:486-526 | pruning twice is pruning once with the larger thresholds; in particular it is idempotent |
| `Pruning.PrunedEvents` | py/gprof2dot.py:489-505 | of the events of what remains, only the prune ratio is new, the own share or the smaller share of the ends |
| `Stripping.Subn` | py/gprof2dot.py:2170 | one replacement round drops exactly the characters that lie in an innermost group, counts these groups, and keeps what lies outside all pairs |
| `Stripping.DeleteGroups` | py/gprof2dot.py:2168-2172 | the loop terminates with the result of a single pass with a stack, in which every closing bracket precedes every open one |
| `Stripping.ResidueIsOutside` | py/gprof2dot.py:2168-2181 | that pass drops exactly the characters that lie in some matching pair |
| `Stripping.StripFunctionName` | py/gprof2dot.py:2165-2183 | what lies in matching parentheses goes, then a const qualifier at the end with the white space before it, then what lies in matching angles |
| `Stripping.QualifierRemoved` | py/gprof2dot.py:2163-2175 | the qualifier is removed together with all white space before it, a final line break stays, and a name without the qualifier is not changed |
| `DotWriter.OnePass` | py/gprof2dot.py:2034-2037 | the four replacements in turn equal escaping every character by itself |
| `DotWriter.Escape` | py/gprof2dot.py:2032-2038 | the quoted text is the escaped one |
| `DotWriter.RoundTrip` | py/gprof2dot.py:2032-2038 | a reader finds the closing quote where it was written, whatever follows, and recovers the text |
| `DotWriter.NoControls` | py/gprof2dot.py:2035-2036 | the quoted text has no line break and no tab |
| `DotWriter.Id` | py/gprof2dot.py:2009-2019 | a text that is not empty and alphanumeric stays bare, any other is quoted |
| `DotWriter.BareIff` | py/gprof2dot.py:2012-2015 | an identifier is its own text exactly in that case |
| `DotWriter.IdReadBack` | py/gprof2dot.py:2009-2019 | an identifier reads back as the text that it was written for, in both forms |
| `DotWriter.IdInjective` | py/gprof2dot.py:2009-2019 | different texts get different identifiers |
| `Changelog.Place` | sites/mantisbt-1.2.19/changelog_page.php:268-282 | an issue is inserted one level below the first entry for its parent, at the end of the entries below that, or appended at level 0 if its parent is not listed; every entry stays directly below its parent |
| `Changelog.Order` | sites/mantisbt-1.2.19/changelog_page.php:249-293 | terminates; lists every issue once with well-formed levels, siblings in the order in which they were placed and behind the entry above them; an entry is at level 0 exactly if its parent had not been placed before it; the placements are those of the rounds, and the input itself if parents come first; the cycle branch is taken exactly if in some round an issue comes up again, and so has its parent, before any issue that is ready; always if some issues have all their parents among themselves, and otherwise only if an issue is listed twice with listed parents; if it is not taken, exactly the issues whose parent is not in the input are at level 0 |
| `Changelog.PlacementsReady` | sites/mantisbt-1.2.19/changelog_page.php:256-267 | unless the branch is taken, no issue is placed while its parent is still to come |
| `Changelog.InputOrder` | sites/mantisbt-1.2.19/changelog_page.php:256-291 | if every issue is listed behind its parent, the issues are placed in the order of the input |
| `Changelog.SomeOrderForced` | sites/mantisbt-1.2.19/changelog_page.php:256-291 | the branch can be taken for the given issues, in some order, exactly if there is a cycle of parents, or an issue is listed twice, with listed parents one of which has a listed parent, too |
| `Changelog.ForcedBetween` | sites/mantisbt-1.2.19/changelog_page.php:256-291 | in the given order: taken if there is a cycle of parents, and only then unless an issue is listed twice in this way; without repeated issues exactly then |
| `Changelog.ParentsFirst` | sites/mantisbt-1.2.19/changelog_page.php:256-291 | never taken if every issue is listed behind its parents |
| `Changelog.RepeatedIssue` | sites/mantisbt-1.2.19/changelog_page.php:260-267 | an issue with two parents for which the branch is taken without any cycle |
| `Changelog.SortedIssue` | sites/mantisbt-1.2.19/changelog_page.php:260-267 | the same rows in another order, for which it is not taken |
| `Changelog.InsertNested` | sites/mantisbt-1.2.19/changelog_page.php:268-278 | an insertion at the end of a branch leaves all entries below their parents |
| `Changelog.StillInOrder` | sites/mantisbt-1.2.19/changelog_page.php:268-282 | such an insertion, or one at the end, keeps all siblings in the order of their placement |
| `Changelog.RoundIsCircular` | sites/mantisbt-1.2.19/changelog_page.php:260-267 | if all issues that are left wait for a parent that is left, they have all their parents among them: a cycle |
| `Columns.TryRows` | py/dropbox.py:776-792 | giving up early does not change whether all columns with items end within the display |
| `Columns.Layout` | py/dropbox.py:775-796 | the smallest number of rows for which every column that holds an item ends within the display, or one row per item |
| `Columns.NumColumnsIs` | py/dropbox.py:777 | the columns of a layout are exactly those that hold an item |
| `Columns.PositionsDistinct` | py/dropbox.py:782-802 | no two items share a row and a column |
| `Columns.Position` | py/dropbox.py:776-802 | every item has a row and a column of the layout |
| `Columns.LineColumns` | py/dropbox.py:811-817 | every cell of a row starts at the offset of its column |
| `Columns.Columnize` | py/dropbox.py:748-818 | every item is shown at its place, with blanks everywhere else up to the end of the column of the last text in its row, and if a layout was found no line is wider than the display; a width of zero is taken from the terminal, and without any width there is one item per line |
| `Columns.ListingUnique` | py/dropbox.py:797-818 | these conditions determine every line |
| `Columns.ListNames` | py/dropbox.py:775-818 | four names of three letters are listed in two rows of eight characters |
| `EmailSettings.ParseThresholds` | sites/mantisbt-1.2.19/manage_config_email_set.php:67-87 | the lowest and the highest submitted level of every action, which are submitted ones if all are between 0 and 100; 100 and 0 if there are none |
| `EmailSettings.ThresholdsUnique` | sites/mantisbt-1.2.19/manage_config_email_set.php:67-87 | these levels are determined by the submission |
| `EmailSettings.CommonFlags` | sites/mantisbt-1.2.19/manage_config_email_set.php:93-101 | a flag becomes a default exactly if all actions have it on |
| `EmailSettings.CommonThresholds` | sites/mantisbt-1.2.19/manage_config_email_set.php:102-112 | the default interval goes from the largest minimum to the smallest maximum; it is the intersection of all actions' intervals |
| `EmailSettings.AllOverrides` | sites/mantisbt-1.2.19/manage_config_email_set.php:126-144 | the overrides are exactly the differences from the defaults |
| `EmailSettings.Save` | sites/mantisbt-1.2.19/manage_config_email_set.php:67-144 | reading the settings yields what was submitted, as 1 or 0 for flags and as the lowest and highest submitted level, for recomputed and for existing defaults, except that a default flag other than on or off is read as it is; the recomputed defaults are the common flags and the meeting of all intervals, and turn all other flags off |
| `EmailSettings.OtherFlagsDefault` | sites/mantisbt-1.2.19/core/email_api.php:186-197 | flags that are not part of the form are read from the defaults |
| `EmailSettings.SaveOverOddDefault` | sites/mantisbt-1.2.19/manage_config_email_set.php:50-144 | for every action and flag of the form: a flag submitted as on is read as 2 if that is its default |
| `EmailSettings.SaveForgetsFlag` | sites/mantisbt-1.2.19/manage_config_email_set.php:50-121 | the flag for explicitly named users, on in the shipped defaults, is off for every action after the defaults have been recomputed, whatever is submitted |

## Left out

- Floating-point rounding: the assertion in py/gprof2dot.py:412 allows an error of 0.001; the model has none.
- Warnings on the error stream (negative ratios, ratios above one, overwritten or undefined functions).
- The event objects with their formatters and aggregators; `Profile.aggregate`, `dump`, and sample counts as integers (they are reals once parsed).
- `Profiles.Profile.Integrate`: requires the two assertions about the passes (`PassesAsserted`), as the program demands them; what the events are after a failed assertion is not modelled.
- `Profiles.Profile.Integrate`: also requires that no cycle carries the event yet, which the program does not look at, and that the cycles are those of `find_cycles` on a profile without cycles, as its comment demands.
- `Profiles.Profile.Parse`: requires that the assertions hold for the lines (`Assertable`); lines whose first field is not a number, and blank lines, are not part of the input type.
- `CallTimes.EdgeConservation`: requires positive ratios; `CallTimes.EdgeBalance` says what is repeated otherwise.
- `Changelog.ForcedBetween`: for issues that are listed twice, the exact condition for one given order is only the replay of the rounds in `Changelog.Order`.
- `Callstacks.FlowBalance`: is about the sums that the parsed events are proved to be, for stacks with at least one frame.
- The other parsers of gprof2dot. Cycles that the GNU gprof parser reads from its file, and the edge sums of the Shark parser, are not claimed to be right.
- `Stripping.StripFunctionName`: regular expressions are written out as loops over the characters; `wrap_function_name` is left out.
- `DotWriter.IdReadBack`: takes the test for alphanumeric characters as a parameter that refuses the quote; numbers as identifiers, the encoding to bytes, and themes, colours and node attributes are left out.
- `Changelog.Order`: how the issues are collected, access checks and printing are left out, and an issue of a cycle of parents may be listed at level 0 before its parent.
- `Columns.Columnize`: colours that are substituted into the padded texts (the list to display is the plain one); the width of the terminal is a parameter.
- `EmailSettings.Save`: parsing of the submitted strings, access levels, and the test that skips storing settings that have not changed; thresholds submitted for unknown actions have no influence.
- All other pages and scripts of the repository.
