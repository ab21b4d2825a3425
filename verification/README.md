# PEBBL in Dafny

PEBBL is a branch-and-bound engine that runs serially or on a message-passing machine.  This project models the parts
of it whose correctness is decided by code rather than by measurement, and proves what those parts are for.
Arithmetic is exact (`real` and `int`); `maxDouble` stands for the value that means "none yet".

**Termination.** `TerminationNet` describes the traffic of a parallel search: every processor with the load record it
keeps, and messages of the four counted kinds and load-balancing transfers on their way.  `TerminationCheck` runs the
load balancer's survey, poll and two-wave count over it.  If any run declares termination, the search was over when
the root combined the survey, and nothing happens afterwards; `TerminationSurvey` says exactly when a check begins and
goes on, `TerminationVerdict` exactly when it confirms, and `TerminationProgress` that once the search is over the
workers' due reports, a survey and the check can always go on to confirm.  `TerminationInTurn` and `TerminationOrder`
say what order a worker's messages need.  `TreeTopology` and `TreeWave` show that the tree waves the check relies on
form one spanning tree, add up every input, and finish nowhere before every processor has taken part.

**Load balancing.** `DonorNumbering`, `DonorWave`, `Rendezvous` and `LoadBalRound` follow a round from the counting
wave, which numbers donors and receivers, through the rendezvous, which under every schedule ends without deadlock
with min(donors, receivers) disjoint transfers.  `Clustering` and `Crossover` cover how processors are grouped and how
the pool built during ramp-up is divided: each subproblem goes to one worker, and evenly.  `LoadMeasure` shows that
the power sums kept for a set of subproblems give its load, by the binomial theorem.  `SegmentBuffer` covers the
combining of short messages, with its linked list inside arrays.

**Serial search.** `Fathoming` settles for which parameters the fathoming test is monotone.  `BinaryHeap`,
`PoolPruning` and `PoolInSearch` show that pruning the leaves of the heap is enough.  `Application` states the
contract of an application, `SearchEngine` runs the main loop with its three handlers over any application that keeps
it, and `SearchResults` says what a finished search has found.  `Repository` is what enumeration keeps;
`SolutionStore` is its heap and hash lists.

**Applications.** The `Knapsack` modules take the binary knapsack application from its bound and its splitting,
through what the bound is (`KnapsackRelaxed`), the code with its cursors, partial sums and compact solutions, and
through the subproblems that an enumeration reaches (`KnapsackReach`), to the contract, and so to
`KnapsackSolve.Solve`.  `Monomial`, `MonomialBound` and `MonomialNode` do the bound of the maximum monomial
application.

**Enumeration in parallel.** `Hypercube`, `SolutionRouting` and `SolutionDelivery` route solutions to their owners
with one solution in flight per link, on any number of processors, and deliver them all.  `ReposMerge` and `ReposTree`
merge the repositories' lists up a tree, in step.  In `ReposAsync` they are merged while the search goes on, by whom
and whenever, and `lastSolId` comes down the tree; under every schedule it is never better than the solutions it stands
for.  `ReposFlow` and `ReposQuiet` show that it is exact when all has come to rest, and `ReposSettles` that every run
can come to rest.  `ReposOffers` says what offers do to the best solutions, and `ReposLoss` is a run that loses one;
`ReposShape` connects all this with the trees of `TreeTopology`.

**Incumbents.** `RampUpSync` is the exchange that ends ramp-up: all processors start the search with the best incumbent
found by then.  `IncumbentBroadcast` shows that from whatever pair they start with they agree on the best incumbent
whenever no broadcast is in transit, although those that discard a message do not relay it; `BroadcastsEnd` that
broadcasts end, so that every run can go on to agreement.

Code that works by changing objects is modelled by classes and methods; each is proved against a function or relation
on its abstract state, and the lemmas are about those.  A protocol is a step relation, and its theorems speak of every
state of every run.

Where the code and its stated purpose part, the code is kept, an input is given, and the exact condition is proved:

- Better bounds thrown away while worse ones are kept: `Fathoming.FathomUpwardExactly` and
  `Fathoming.FathomStableExactly`, with `UpwardClosedExactly`, `StableExactly` and `BeyondExactly` for the single
  tests. A relative tolerance strictly between 1 and 2 does it, unless the other criteria cover for it.
- `fathomValue` against `canFathom`: `Fathoming.FathomValueExactly` and `Fathoming.EnumRelFathomValueExactly`.
- A repository of one: `Repository.OfferKeepsWantedExactly`. With `enumCount` 1 and another criterion the solution
  admitted last always replaces the one held, even the incumbent; `SearchResults.OneSolutionHeld` says what remains.
- A full repository of a parallel search: `ReposOffers.CarelessExactly`. An offer to it pushes out the worst solution
  held even if that is better than the new one, since only the serial code lowers `lastSolId` when its repository
  fills up; `ReposOffers.OfferLosesExactly` says when one of the best of all repositories is lost, and
  `ReposLoss.SecondIsLost` is such a run. `ReposQuiet.QuietIsExactly` shows that the exchange of lists itself loses
  nothing.
- Knapsack items without weight: `Knapsack.BoundIsValidExactly` for a subproblem, `Knapsack.MissesExactly` for all
  subproblems of an instance, `KnapsackReach.LosesExactly` for those that splits from the root lead to, and with it
  `KnapsackSearch.KeepsContractExactly`; `KnapsackSearch.EnumerationLosesSolution` is such a path.
- The sign of the load at a zero fathom value: `LoadMeasure.AtZeroExactly`.

While diving the order of the pool does not fit the fathoming test; `PoolPruning.DivingOrderDoesNotFit` is a pair that
shows why the first prune reorders the heap.

## Model

| member | source | states |
|---|---|---|
| TreeTopology.ChildOfParent | src/pebbl/misc/treeTopology.h:95-146 | For every radix, root and size: the i-th child a processor visits is a valid child of it, has it as parent, and has child number i |
| TreeTopology.ParentOfChild | src/pebbl/misc/treeTopology.h:106-131 | Every processor but the root is the child, under exactly the number it computes, of the parent it computes |
| TreeTopology.ValidChildIffParent | src/pebbl/misc/treeTopology.h:125-129 | The receiver's validity test accepts exactly the processors whose parent it is |
| TreeTopology.RootAboveAll | src/pebbl/misc/treeTopology.h:106 | Following parents always ends at the root: the maps form one spanning tree |
| TreeTopology.OneChildAbove | src/pebbl/misc/treeTopology.h:95-146 | A processor lies below at most one child of any other, so subtrees never overlap |
| TreeTopology.NAryTree.AdvanceChild | src/pebbl/misc/treeTopology.h:116-123 | The child cursor, with its wrap-around, steps through the children in their numbered order |
| TreeWave.SumNode.Run | src/pebbl/comm/coTree.cpp:67-199 | The coroutine, with its fall-through states, does exactly what one activation of a wave does: it sends what the summary says and leaves its state between receives |
| TreeWave.WaveSumsAndBars | src/pebbl/pbb/loadBal.h:128-156 | In every run over every tree a finished processor holds the sum of all inputs, and no processor finishes before every processor has started and handed in its share |
| TreeWave.WaveNeverStuck | src/pebbl/comm/coTree.cpp:67-199 | Until every processor has finished some processor can run |
| TreeWave.WaveIsFinite | src/pebbl/comm/coTree.cpp:67-199 | Every run of a wave is finite |
| IncumbentBroadcast.IncumbentCaster.UnloadBuffer | src/pebbl/pbb/incumbCast.cpp:52-90 | An arriving incumbent replaces the present one exactly if its value is better, or equal with a lower source rank; the originator is taken over in any case |
| IncumbentBroadcast.IncumbentCaster.Relay | src/pebbl/pbb/parBranchThreads.cpp:219-252 | Sends the present incumbent once to every child in the tree rooted at the originator, and to nobody else |
| IncumbentBroadcast.IncumbentCaster.HandleMessage | src/pebbl/pbb/parBranchThreads.cpp:207-216 | Relays what was accepted, silently drops what was not |
| IncumbentBroadcast.IncumbentCaster.FoundSolution | src/pebbl/pbb/pbWorker.cpp:44-72 | A strict improvement becomes the incumbent with the own rank as source and starts a broadcast; anything else changes and sends nothing |
| IncumbentBroadcast.FanoutCovers | src/pebbl/pbb/parBranchThreads.cpp:219-252 | One message for each child of the sender in the originator's tree, none for others |
| IncumbentBroadcast.IncumbentAgreement | src/pebbl/pbb/incumbCast.cpp:52-98 | From whatever pair all processors start with, under every interleaving of announcements and deliveries: whenever no broadcast message is in transit all processors hold the same pair, which is the best of the start's and all ever announced, although discarding processors do not relay |
| IncumbentBroadcast.KnownIsAnnounced | src/pebbl/pbb/pbWorker.cpp:44-72 | The pairs that agreement speaks of are the one that all start with, whatever it is, and exactly those announced in the run |
| BroadcastsEnd.DeliveriesAreBounded | src/pebbl/pbb/parBranchThreads.cpp:207-252 | In every run, whatever pair all processors start with and whatever the order, at most one message is delivered for each announcement and each processor other than the announcing one |
| BroadcastsEnd.AgreementIsReached | src/pebbl/pbb/parBranchThreads.cpp:207-252 | Whatever pair all processors start with, every run can go on, by deliveries alone, to where they hold the same pair, no worse than that or any announced |
| RampUpSync.SyncedIsBest | src/pebbl/pbb/parBranching.cpp:1255-1291 | After the ramp-up exchange all processors hold the best value that any of them had, and as its source the lowest that those who had it name |
| RampUpSync.AgreementSinceRampUp | src/pebbl/pbb/parBranching.cpp:1255-1291 | Every run of broadcasts that follows the exchange agrees, with nothing in transit, on the best of what ramp-up had found and what has been announced since |
| TerminationNet.ActivityKeepsGlobal | src/pebbl/pbb/parLoadObject.cpp:106-124 | Whatever a processor does, what was sent machine-wide stays what was received plus what is in transit, for general and non-local messages |
| TerminationLoads.HubCalculateLoads | src/pebbl/pbb/pbHub.cpp:490-530 | Every count of the cluster load is the sum over the hub and its workers of their latest records, and a merge is pending exactly if it is at one of them |
| TerminationLoads.Partition | src/pebbl/pbb/pbHub.cpp:490-530 | Adding up cluster by cluster counts every processor exactly once |
| TerminationLoads.PassedMeansStill | src/pebbl/pbb/parLoadObject.cpp:169-176 | If the combined load seems really done then every single cluster is idle and has received all its dispatches, because no cluster can show a negative imbalance of those |
| TerminationLoads.PassedMeansQuiet | src/pebbl/pbb/parLoadObject.cpp:169-176 | And where no cluster shows a negative imbalance of its tokens either, every single one is idle and balanced |
| TerminationCheck.LateCount | src/pebbl/pbb/loadBal.cpp:829-846 | What a hub counts as sent in wave two is at least what its cluster had sent when wave one was combined |
| TerminationSurvey.ReadyExactly | src/pebbl/pbb/parLoadObject.cpp:157-166 | A survey is ready to poll if and only if no surveyed record has a subproblem and over all processors as many dispatches, local and non-local tokens were received as sent |
| TerminationSurvey.CheckBeginsExactly | src/pebbl/pbb/loadBal.cpp:528-531 | When all hubs have joined the survey a check can begin if and only if that is so, and otherwise, and only then, the survey is declined |
| TerminationSurvey.WorkIsNotChecked | src/pebbl/pbb/loadBal.cpp:528-533 | No check begins on a survey in which some processor has a subproblem |
| TerminationSurvey.CombineExactly | src/pebbl/pbb/loadBal.cpp:813-818 | The root goes on to wave two if and only if, besides, general messages balance and no processor has a merge pending in what wave one sampled; otherwise the check is over |
| TerminationCheck.SentCoversReceived | src/pebbl/pbb/loadBal.cpp:818-825 | At any moment the machine has sent at least what it received, the difference being in transit |
| TerminationCheck.ReceiptsAgree | src/pebbl/pbb/loadBal.cpp:818-861 | If wave one missed no receipt in total then it missed none at any processor |
| TerminationCheck.ConfirmedMeansDead | src/pebbl/pbb/loadBal.cpp:854-871 | If the wave-two count of sends equals the wave-one count of receipts the machine was dead when wave one was combined |
| TerminationCheck.CombinedAt | src/pebbl/pbb/loadBal.cpp:800-827 | The moment recorded as the end of wave one is the step of the run at which the root combined the survey that seemed done |
| TerminationCheck.TerminationIsSound | src/pebbl/pbb/loadBal.cpp:787-871 | In every run that declares termination, at the step at which the survey was combined no processor held a subproblem or a pending merge and no general, scatter, dispatch or load-balancing message was in transit; the same holds when termination is declared |
| TerminationCheck.NothingHappensAfterwards | src/pebbl/pbb/loadBal.cpp:861-871 | After that no load record ever changes again |
| TerminationInTurn.InTurnIsAllowed | src/pebbl/pbb/loadBal.cpp:787-871 | The theorems above let a hub handle a worker's reports and poll replies in any order, but nothing sent before wave one was combined between the reply of wave two and the hub's own report; handling them in the order sent always meets that |
| TerminationOrder.OrderIsNeeded | src/pebbl/pbb/loadBal.cpp:787-871 | Without it the verdict can be wrong: with reports and replies in order only among themselves, each report due when it is sent, a run declares termination while a worker has a subproblem |
| TerminationVerdict.VerdictIsExact | src/pebbl/pbb/loadBal.cpp:818-879 | In every run, when wave two is in, termination is declared if and only if the machine was dead when wave one was combined and no processor had received a counted message since its wave-one report |
| TerminationProgress.DeadSeemsDone | src/pebbl/pbb/parLoadObject.cpp:169-176 | The survey of a dead machine passes the test: its ledgers leave nothing owed in any cluster |
| TerminationProgress.DeadIsReady | src/pebbl/pbb/parLoadObject.cpp:157-166 | A survey made of records that are not reportably different from the loads of a dead machine is ready to poll; what ready means for other machines is TerminationSurvey.ReadyExactly |
| TerminationProgress.DueExactly | src/pebbl/pbb/parLoadObject.cpp:179-210 | A worker has a report due exactly if its count of subproblems or one of its counters of local, dispatched and non-local messages differs from its last report; general messages and pending merges alone are not reported |
| TerminationProgress.DeadRunTerminates | src/pebbl/pbb/loadBal.cpp:515-871 | On every machine, every run, with each worker's messages handled in the order sent, that has reached a dead state, wherever the survey or the check stood at that moment, can go on to declare termination, by steps of the check, which starts only after a survey that is ready to poll, and load reports that reportablyDifferent asks for |
| DonorNumbering.NumberChildren | src/pebbl/pbb/loadBal.cpp:188-202 | The number kept and the numbers passed down, from the counts that the children reported |
| DonorNumbering.ReportedTotal | src/pebbl/pbb/loadBal.cpp:150-202 | With the counts of the upward wave these are the stretches of numbers of the children's subtrees |
| DonorNumbering.ChildrenMakeSubtree | src/pebbl/pbb/loadBal.cpp:150-168 | What a processor sends up is the count of its whole subtree |
| DonorNumbering.NumbersAreOneToTotal | src/pebbl/pbb/loadBal.cpp:188-202 | Every eligible cluster gets a number from 1 to the total |
| DonorNumbering.NumbersAreUnique | src/pebbl/pbb/loadBal.cpp:188-202 | No two eligible clusters get the same number |
| DonorNumbering.RotatedStaysUnique | src/pebbl/pbb/loadBal.cpp:556-564 | Adding the common random offset modulo the total keeps the numbers distinct and puts them below the total |
| DonorNumbering.EveryNumberTaken | src/pebbl/pbb/loadBal.cpp:556-568 | After that every number below the total, and so every rendezvous point, is taken by an eligible cluster |
| DonorWave.FinishedHubIsNumbered | src/pebbl/pbb/loadBal.cpp:120-202 | In every run of the counting wave, over every tree and schedule, a hub that has finished knows the total and keeps the number that the stretches give it |
| DonorWave.FinishedHubsDiffer | src/pebbl/pbb/loadBal.cpp:120-202 | So eligible hubs that have finished hold different numbers from one to the total |
| LoadBalRound.NumbersMakeRound | src/pebbl/pbb/loadBal.cpp:538-568 | Whatever the eligibilities, the tree and the offsets, the numbers pair min(donors, receivers) donors disjointly with as many receivers, and each hub's own view of its part is its part in that pairing |
| LoadBalRound.DecisionsMakeRound | src/pebbl/pbb/pbHub.cpp:566-590 | Whatever the loads: exactly the hubs whose load is at least idealLoad * donorFac and whose pool holds minSourceCount give, exactly those whose load is below that and at most idealLoad * receiverFac receive, whatever is in their pools, and the round pairs as many as there are of the fewer, each once |
| LoadBalRound.IdealLoadsAddUp | src/pebbl/pbb/pbHub.cpp:568-569 | The ideal loads of the clusters, by size less what their hubs take up, add up to the load of the machine |
| Rendezvous.LoadBalObj.Step | src/pebbl/pbb/loadBal.cpp:585-767 | One pass through the switch either falls through to a later state or gives up control having done exactly what the activation calls for |
| Rendezvous.LoadBalObj.Run | src/pebbl/pbb/loadBal.cpp:585-767 | An activation runs up to the next receive, with exactly the messages and the knowledge of the abstract step |
| Rendezvous.OnlyPairsExchange | src/pebbl/pbb/loadBal.cpp:585-767 | In every run work moves only from a donor to the receiver of the same number, and a donor that knows a receiver knows its own |
| Rendezvous.RoundCompletes | src/pebbl/pbb/loadBal.cpp:585-767 | When all hubs are through, work has moved in every pair and no message is left |
| Rendezvous.RoundNeverStuck | src/pebbl/pbb/loadBal.cpp:641-732 | Until then some hub can go on: no schedule deadlocks |
| Rendezvous.RoundIsFinite | src/pebbl/pbb/loadBal.cpp:585-767 | Every schedule ends, after at most four activations a hub |
| Clustering.ClusterObj.Reset | src/pebbl/misc/clustering.cpp:29-66 | For any sizes asked for: the typical size is the least one of at least 1 for which the clusters wanted hold all processors, or the size wanted if that is less; just as many clusters as then hold all are made; and what a processor computes about itself agrees with the index maps all processors use |
| Clustering.FollowerRoundTrip | src/pebbl/misc/clustering.h:99-134 | Every follower index names a processor that is a follower, and followerRank leads back |
| Clustering.RankRoundTrip | src/pebbl/misc/clustering.h:99-134 | Every follower's rank is a follower index, and globalFollower leads back |
| Clustering.MapsAreTotal | src/pebbl/misc/clustering.h:99-134 | The maps are defined exactly unless clusters have one member and even those are separated, and then there are no followers at all |
| Crossover.Gcd | src/pebbl/utilib/math_basic.cpp:40-49 | The loop computes Euclid's recursion |
| Crossover.GcdIsGreatest | src/pebbl/utilib/math_basic.cpp:40-49 | It divides both numbers and is divided by every common divisor |
| Crossover.TrialSkip | src/pebbl/pbb/parBranching.cpp:1377-1379 | Each processor's trial value has no factor in common with the number of workers; it is the processor's own value if that has none, and otherwise one more than the number of workers |
| Crossover.SkipFactorIsCoprime | src/pebbl/pbb/parBranching.cpp:1368-1383 | The reduced skip factor has no factor in common with the number of workers, and no trial value is smaller |
| Crossover.CycleHasNoRepeats | src/pebbl/pbb/parBranching.cpp:1385-1440 | Stepping by the skip factor meets no worker twice in one cycle |
| Crossover.ShareIsEven | src/pebbl/pbb/parBranching.cpp:1390-1440 | Of any number of subproblems every worker gets its even share, rounded down or up |
| Crossover.PureHubsKeepNothing | src/pebbl/pbb/parBranching.cpp:1403-1440 | A hub that does not work keeps no subproblem |
| Crossover.WorkIsEven | src/pebbl/pbb/parBranching.cpp:1390-1440 | The numbers of subproblems kept by any two workers differ by at most one |
| Crossover.NothingIsLost | src/pebbl/pbb/parBranching.cpp:1390-1440 | All processors together keep exactly the subproblems of the pool, each once |
| Crossover.SkipFactorMakesTeam | src/pebbl/pbb/parBranching.cpp:1377-1388 | As soon as there is a worker the computed skip factor is one for which all this holds |
| Crossover.PickMine | src/pebbl/pbb/parBranching.cpp:1388-1440 | The loop keeps exactly the subproblems this processor owns, and a hub's report for each of its workers counts exactly what that worker keeps |
| Fathoming.UpwardClosedExactly | src/pebbl/bb/branching.cpp:591-628 | The test against one reference value is upward closed in the bound exactly if relTolerance is not strictly between 1 and 2 (or absTolerance fathoms everything) |
| Fathoming.StableExactly | src/pebbl/bb/branching.cpp:591-628 | Under exactly the same condition nothing fathomed comes back when the reference value improves |
| Fathoming.BeyondExactly | src/pebbl/bb/branching.cpp:573-582 | The enumRelTol test is upward closed, and stable as the incumbent improves, exactly if the tolerance is not strictly between 1 and 2 |
| Fathoming.FathomUpwardExactly | src/pebbl/bb/branching.cpp:544-632 | For canFathom as a whole, in every mode, with any mix of criteria and all incumbent and lastSolId values up to MAXDOUBLE: a bound worse than a fathomable one is always fathomable if and only if the settings are Monotone, or there is a count with an absTolerance of MAXDOUBLE, a condition on the parameters |
| Fathoming.WorseBoundKept | src/pebbl/bb/branching.cpp:591-628 | A bound that is thrown away and a worse one that is kept, for relTolerance 1.5 |
| Fathoming.FathomStableExactly | src/pebbl/bb/branching.cpp:544-632 | Likewise what can be fathomed always stays so as the incumbent and lastSolId improve if and only if the settings are Lasting, or there is such a count |
| Fathoming.MonotoneIsLasting | src/pebbl/bb/branching.cpp:544-632 | The first condition implies the second |
| Fathoming.FathomUpward | src/pebbl/bb/branching.cpp:544-632 | Under Monotone settings, in every mode, a worse bound than a fathomable one is fathomable |
| Fathoming.FathomStable | src/pebbl/bb/branching.cpp:544-632 | Under Lasting settings, in every mode, what could be fathomed stays fathomable as the incumbent and lastSolId improve |
| Fathoming.IncumbentFathomsItself | src/pebbl/bb/branching.cpp:544-632 | Without enumeration the incumbent makes its own value, and anything worse, fathomable |
| Fathoming.ZeroToleranceMeansOptimal | src/pebbl/bb/branching.cpp:544-632 | With zero tolerances only values no better than the incumbent can be fathomed |
| Fathoming.FathomValueExactly | src/pebbl/bb/branching.cpp:673-713 | Exactly where fathomValue and canFathom differ without enumeration: on a gap equal to absTolerance, and on bounds that outweigh the incumbent |
| Fathoming.FathomValueTooEager | src/pebbl/bb/branching.cpp:673-713 | A bound fathomValue gives up and canFathom keeps |
| Fathoming.EnumRelFathomValueExactly | src/pebbl/bb/branching.cpp:573-582 | Exactly where the two differ under enumRelTol |
| BinaryHeap.Heap.FloatUp | src/pebbl/utilib/AbstractHeap.h:400-411 | An item that may beat its ancestors rises until heap order holds; nothing is lost |
| BinaryHeap.Heap.SinkDown | src/pebbl/utilib/AbstractHeap.h:414-429 | An item that may be beaten sinks until heap order holds; nothing is lost |
| BinaryHeap.Heap.Reheapify | src/pebbl/utilib/AbstractHeap.h:244-245 | Any array becomes a heap of the same items |
| BinaryHeap.Heap.Insert | src/pebbl/utilib/AbstractHeap.h:443-467 | A heap again, with just the new item added |
| BinaryHeap.Heap.Extract | src/pebbl/utilib/AbstractHeap.h:470-496 | A heap again, with just the item of that position gone |
| BinaryHeap.Heap.RefloatElement | src/pebbl/utilib/AbstractHeap.h:432-440 | One misplaced item finds its place, up or down |
| BinaryHeap.Heap.SwapTop | src/pebbl/utilib/AbstractHeap.h:161-170 | The top is replaced and handed out; a heap again |
| BinaryHeap.TopIsBest | src/pebbl/utilib/AbstractHeap.h:400-429 | In a heap no item beats the top |
| BinaryHeap.LeafBelow | src/pebbl/bb/branching.h:331-357 | For an upward-closed test a fathomable item has a fathomable leaf below it |
| BinaryHeap.NoneLeft | src/pebbl/bb/branching.h:343-356 | When no leaf can be fathomed nothing in the heap can |
| BinaryHeap.Heap.Prune | src/pebbl/bb/branching.h:331-357 | For any heap, any upward-closed test and (at the first prune after a dive) any array: the shrinking backward scan over the leaves removes every fathomable item and no other |
| PoolPruning.FathomTestFitsOrder | src/pebbl/bb/branching.cpp:140-158 | Outside the initial dive the pool's order makes the fathoming test upward closed |
| PoolPruning.FathomTestFitsExactly | src/pebbl/bb/branching.cpp:140-158 | It does for all values an incumbent and lastSolId can have exactly under the same condition on the parameters |
| PoolPruning.FirstOut | src/pebbl/bb/branching.cpp:89-187 | What the heap releases first: while diving for an incumbent the smallest integrality measure, if asked for, then the deepest, and otherwise the best bound, then the smallest measure, the lowest serial number and creator |
| PoolPruning.DivingOrderDoesNotFit | src/pebbl/bb/branching.cpp:89-138 | During the dive it does not, which is why the first prune reorders the heap |
| PoolPruning.PrunePool | src/pebbl/bb/branching.h:331-357 | Under settings that fit the order (Monotone, or where the count covers), what is left of the pool is exactly what cannot be fathomed |
| PoolInSearch.PruneSearchPool | src/pebbl/bb/branching.h:331-357 | Kept as this heap, the search engine's pool is left by prune with exactly the subproblems the engine keeps |
| Repository.EvictedIsFathomable | src/pebbl/bb/branching.cpp:2313-2357 | The solution pushed out of a full repository can be fathomed from then on |
| Repository.OfferImproves | src/pebbl/bb/branching.cpp:2446-2457 | lastSolId never gets worse |
| Repository.LatestOfWorstGoes | src/pebbl/bb/branching.cpp:2313-2325 | A full repository gives up one solution, of the worst value held, and of those of that value the one numbered last |
| Repository.LastAfterOffer | src/pebbl/bb/branching.cpp:2347-2357 | When an admitted solution leaves the repository full, lastSolId becomes the worst solution held, the last of its value, unless it was better already |
| Repository.OfferKeepsWanted | src/pebbl/bb/branching.cpp:2239-2360 | No offer, under any mix of criteria, loses a solution that is still wanted, unless enumCount is 1 |
| Repository.OfferKeepsWantedExactly | src/pebbl/bb/branching.cpp:2313-2357 | When enumerating with Lasting settings every offer keeps every wanted solution if and only if enumCount is not 1 (or the cutoff rejects everything) |
| Repository.NewestReplaces | src/pebbl/bb/branching.cpp:2313-2332 | With enumCount 1 a solution that is admitted replaces the one held, whatever their values |
| Repository.OneIsNotEnough | src/pebbl/bb/branching.cpp:2239-2360 | For all such settings, two offers to an empty repository that lose the incumbent to a second solution of the same value |
| Repository.PruneKeepsWanted | src/pebbl/bb/branching.cpp:2367-2422 | Neither does pruning |
| Repository.RepositoryHoldsBest | src/pebbl/bb/branching.cpp:2239-2360 | After any sequence of offers with a count as the only criterion, whatever the tolerances: only offered solutions are held, none twice, and one that was offered and is not held gains no more than the tolerances on any that is, with the repository full or an absTolerance that reaches up to MAXDOUBLE; lastSolId has only improved |
| Repository.DispensableExactly | src/pebbl/bb/branching.cpp:2446-2457 | With zero tolerances that says: the repository is full, and nothing that is missing beats anything held |
| SolutionStore.FindPlace | src/pebbl/bb/branching.cpp:2261-2306 | The scan of one hash list finds a duplicate if there is one, and otherwise the place that keeps the list in hash order |
| SolutionStore.Store.LocalReposOffer | src/pebbl/bb/branching.cpp:2239-2331 | Heap and hash lists stay in step and change as the abstract offer says |
| SolutionStore.Store.OfferToRepository | src/pebbl/bb/branching.cpp:2342-2360 | The whole offer, with lastSolId and the call for pruning |
| SolutionStore.Store.RemoveWorstInRepos | src/pebbl/bb/branching.cpp:2427-2441 | Takes a worst solution out of the heap and out of its list |
| SolutionStore.Store.PruneRepository | src/pebbl/bb/branching.cpp:2367-2372 | Removes exactly the solutions that the repository test fathoms, by looking only at the worst |
| Application.FoundIsRecorded | src/pebbl/bb/branching.cpp:720-744 | A solution reported by the application is put on record, as incumbent or in the repository as wanted, and no other is lost (with enumCount 1, one wanted solution stays held) |
| SearchEngine.BoundTakesOver | src/pebbl/bb/branching.cpp:788-825 | A bounded subproblem with its extracted candidate accounts for all the solutions it had before |
| SearchEngine.SplitTakesOver | src/pebbl/bb/branching.cpp:831-883 | So does a split one with its children |
| SearchEngine.ChildTakesOver | src/pebbl/bb/branching.cpp:888-907 | A child and what is left of its parent account for what the parent had |
| SearchEngine.Branching.FoundSolution | src/pebbl/bb/branching.cpp:720-744 | Adds the solution to those on record; it becomes the incumbent exactly if it is strictly better; lastSolId only improves; pruning becomes due exactly if one of the two values changes |
| SearchEngine.Branching.ComputeBound | src/pebbl/bb/branching.cpp:788-825 | Loses no solution that still matters, offers the candidate of a bounded subproblem, and makes progress; progress changes only if pruning becomes due |
| SearchEngine.Branching.SplitProblem | src/pebbl/bb/branching.cpp:831-883 | Loses no solution that still matters; what is left can be fathomed, needs more splitting, or has children |
| SearchEngine.Branching.PlaceChild | src/pebbl/bb/branching.cpp:1157-1169 | A child goes into the pool exactly if it cannot be fathomed, and nothing else changes there |
| SearchEngine.Branching.SpinOffChild | src/pebbl/bb/branching.cpp:1157-1169 | A child enters the pool unless it can be fathomed, and its parent has one fewer left |
| SearchEngine.Branching.LazyExecute | src/pebbl/bb/branching.cpp:1176-1235 | The lazy handler, with its fall-through, loses nothing and leaves strictly less work; what it keeps as current is in the middle of bounding or separating, and unless pruning is due neither that nor anything in the pool can be fathomed |
| SearchEngine.Branching.HybridExecute | src/pebbl/bb/branching.cpp:1243-1305 | So does the hybrid handler; what it keeps is one state further, or still separated with a changed bound, and only children of a separated subproblem enter the pool |
| SearchEngine.Branching.EagerExecute | src/pebbl/bb/branching.cpp:1311-1371 | So does the eager handler, unless it fails; everything it puts in the pool has been bounded; it cannot fail if bounding is done in one call |
| SearchEngine.Branching.Prune | src/pebbl/bb/branching.cpp:1017-1024 | Pruning pool and repository loses nothing that matters, and afterwards nothing in the pool can be fathomed |
| SearchEngine.Branching.Round | src/pebbl/bb/branching.cpp:943-1053 | One round of the main loop loses nothing and makes progress, and after it nothing in the pool can be fathomed unless pruning is due |
| SearchEngine.Branching.Search | src/pebbl/bb/branching.cpp:943-1053 | For every application that keeps its contract, all settings under which canFathom is upward closed, every handler and every order of selection: the loop ends, and nothing is left open |
| SearchResults.NothingBeatsIncumbent | src/pebbl/bb/branching.cpp:943-1053 | Then every feasible solution's value can be fathomed against the final incumbent, which is itself feasible |
| SearchResults.NothingWantedIsMissing | src/pebbl/bb/branching.cpp:2239-2422 | When enumerating by any mix of criteria, with any tolerances and any count but one, a feasible solution that is not held is no better than the cutoff, further from the incumbent than a tolerance in use, or gains no more than the tolerances on lastSolId; what is held is feasible, nothing twice, and within the count |
| SearchResults.FathomedExactly | src/pebbl/bb/branching.cpp:544-632 | In every mode, exactly which values can be fathomed, by cutoff, loss on the incumbent and gain on lastSolId or the incumbent |
| SearchResults.AdmittedExactly | src/pebbl/bb/branching.cpp:2239-2332 | An offer changes the repository if and only if the solution is not held yet, is strictly better than the cutoff and within the tolerances of the incumbent, and with a count above 1 gains more than the tolerances on lastSolId |
| SearchResults.BestIsFound | src/pebbl/bb/branching.cpp:943-1053 | When enumerating without a count above 1 the incumbent is an optimum as soon as anything strictly better than the cutoff is feasible |
| SearchResults.IncumbentIsOptimal | src/pebbl/bb/branching.cpp:943-1053 | With zero tolerances the incumbent exists if anything is feasible, and is optimal |
| SearchResults.RepositoryIsComplete | src/pebbl/bb/branching.cpp:2239-2422 | Enumerating without a count, by any mix of the other criteria, leaves exactly the feasible solutions that are strictly better than the cutoff and within the tolerances of the incumbent, each once |
| SearchResults.CutoffEnumeration | src/pebbl/bb/branching.cpp:555-562 | With the cutoff alone it holds exactly the feasible solutions with values strictly better than enumCutoff, each once |
| SearchResults.RelativeEnumeration | src/pebbl/bb/branching.cpp:573-581 | With enumRelTol alone it holds exactly the feasible solutions whose loss on the optimum is at most enumRelTol times the greater of the two absolute values, each once |
| SearchResults.CutoffAndTolerance | src/pebbl/bb/branching.cpp:555-571 | With cutoff and enumAbsTol it holds exactly the feasible solutions that are strictly better than the one and within the other of the optimum, each once |
| SearchResults.EnumerationIsComplete | src/pebbl/bb/branching.cpp:564-571 | With enumAbsTol as the only criterion the repository holds exactly the feasible solutions within it of the optimum |
| SearchResults.BestSolutionsHeld | src/pebbl/bb/branching.cpp:2239-2360 | With a count as the only criterion, whatever the tolerances, the repository holds feasible solutions only, each once, and what is missing gains no more than the tolerances on any of them; with zero tolerances it beats none of them and the repository is full |
| SearchResults.OneSolutionHeld | src/pebbl/bb/branching.cpp:2239-2422 | With enumCount 1 and another criterion the repository ends with one feasible solution that meets cutoff and tolerances if there is any, and otherwise empty, and nothing feasible that is better than the cutoff beats the incumbent |
| Knapsack.BoundIsValid | src/pebbl/example/serialKnapsack.cpp:411-499 | The bound is at least the value of every solution of the subproblem, for items of any weight from zero, unless the subproblem Misses an item |
| Knapsack.BoundIsValidExactly | src/pebbl/example/serialKnapsack.cpp:424-496 | For every subproblem: the bound is valid if and only if there is space left or no weightless free item comes after a decided one |
| KnapsackRelaxed.BoundIsRelaxedOptimum | src/pebbl/example/serialKnapsack.cpp:411-499 | The bound is the optimum of the fractional relaxation: a relaxed solution that packs all or nothing of every item but the split item has just this value, and none has more, if and only if the subproblem Misses no item |
| Knapsack.MissesExactly | src/pebbl/example/serialKnapsack.cpp:102-115 | An instance has such a subproblem if and only if it has two weightless items, which setup lets through, and a selection that fills the knapsack |
| KnapsackReach.LosesExactly | src/pebbl/example/serialKnapsack.cpp:299-499 | Some path of splits from the root leads to a subproblem with a solution that beats its bound, is not its candidate and is in none of its children if and only if the first two items are weightless and splits on fractional items alone can use up the capacity |
| KnapsackReach.ChildIsSafe | src/pebbl/example/serialKnapsack.cpp:299-355 | What rules that out is kept by every split, on a fractional item or on a terminal solution |
| KnapsackReach.EverythingFits | src/pebbl/example/serialKnapsack.cpp:299-499 | An instance for which some subproblem has a wrong bound and the search loses nothing |
| KnapsackTree.TerminalAttainsBound | src/pebbl/example/serialKnapsack.cpp:483-494 | Without a split item the packed solution is a solution of the subproblem and attains the bound |
| KnapsackTree.TerminalPartition | src/pebbl/example/serialKnapsack.cpp:299-325 | Every solution of a terminal subproblem but the terminal one belongs to exactly one of its children, unless it Misses an item |
| KnapsackTree.TerminalPartitionExactly | src/pebbl/example/serialKnapsack.cpp:299-325 | None is lost if and only if it misses none |
| KnapsackTree.FractionalChild | src/pebbl/example/serialKnapsack.cpp:329-355 | The two children of a fractional split keep sorted disjoint lists and the right remaining capacity, and have exactly the solutions that decide the item their way |
| KnapsackTree.TerminalChild | src/pebbl/example/serialKnapsack.cpp:299-325 | Child i of a terminal split likewise, with the solutions that pack the first i items and not the next |
| KnapsackCode.Preprocess | src/pebbl/example/serialKnapsack.cpp:145-183 | Fills the tables of partial sums; fitSize is the longest prefix that fits |
| KnapsackCode.FitSequence | src/pebbl/example/serialKnapsack.cpp:709-724 | The binary search ends and returns the longest sequence within the limit |
| KnapsackCode.GrowList | src/pebbl/example/serialKnapsack.cpp:252-268 | The copied list is the sorted list with the new element inserted |
| KnapsackCode.MergeIn | src/pebbl/example/serialKnapsack.cpp:306-323 | The merge builds the forced-in list and the capacity of a terminal child |
| KnapsackCode.BinKnapSolution.Reset | src/pebbl/example/serialKnapsack.cpp:219-233 | The solution consists of just the first k items, with their value and the capacity left |
| KnapsackCode.BinKnapSolution.AddItem | src/pebbl/example/serialKnapsack.cpp:505-532 | Adds one item and keeps the compact form |
| KnapsackCode.CompactFormIsUnique | src/pebbl/example/serialKnapsack.cpp:511-522 | Equal stored sequences mean equal solutions, and conversely |
| KnapsackCode.PrefixIsInitial | src/pebbl/example/serialKnapsack.cpp:424-438 | What fitSequence finds is the longest sequence of free first items that fits, from which the packing goes on |
| KnapsackCode.PackingIsGreedy | src/pebbl/example/serialKnapsack.cpp:424-475 | With space at the start, packing with an initial sequence gives exactly the plain greedy packing |
| KnapsackCode.BoundComputation | src/pebbl/example/serialKnapsack.cpp:411-499 | With cursors, prefix sums and binary search it packs the items, and leaves the bound and the split, that the plain definitions give; the bound is the value of a relaxed solution that packs integralityMeasure of the split item and otherwise whole items, and the relaxed optimum; the list for a terminal split is stored only when enumerating |
| KnapsackSearch.KnapsackKeepsContract | src/pebbl/example/serialKnapsack.cpp:283-499 | The application keeps the contract of the search engine: valid bounds, children that cover the parent but for the extracted candidate, dead means empty, bounding finishes |
| KnapsackSearch.TerminalIsFathomed | src/pebbl/example/serialKnapsack.cpp:299-305 | Without enumeration a terminal subproblem whose candidate was extracted can be fathomed, so it is never split |
| KnapsackSearch.KeepsContractExactly | src/pebbl/example/serialKnapsack.cpp:283-499 | For every instance and settings: the contract is kept if and only if the search does not enumerate or no path of splits from the root leads to a subproblem that loses a solution |
| KnapsackSearch.EnumerationLosesSolution | src/pebbl/example/serialKnapsack.cpp:299-499 | On a small instance two splits lead from the root to a subproblem with a solution that beats the bound, is not the candidate and is in no child |
| KnapsackSolve.Solve | src/pebbl/bb/branching.cpp:943-1053 | Any handler solves any instance on which enumeration loses nothing: with exact tolerances a best packing; enumerating without a count exactly the packings that meet the cutoff and the tolerances, each once; with a count alone, for any tolerances, packings such that a missing one gains no more than the tolerances on any, and with no tolerances, or integral values and the absTolerance of 1 that setup then sets, a best selection of that many |
| KnapsackSolve.CountedBest | src/pebbl/example/serialKnapsack.cpp:116-117 | The last part of this for any end of a search: gaining less than 1 means not being better when all values are integers |
| Monomial.CalculateInsepWeight | src/pebbl/example/serialMonomial.cpp:1668-1805 | The two-pointer merge returns the sum over classes of the smaller of the two weights |
| MonomialBound.SameFiltered | src/pebbl/example/serialMonomial.cpp:652-730 | Filtered observations are equal exactly if the rows agree on every attribute that is not ignored |
| MonomialBound.GetFilteredObsSorted | src/pebbl/example/serialMonomial.cpp:652-730 | The filtered rows, all of them, in lexicographic order |
| MonomialBound.BoundHoldsBelow | src/pebbl/example/serialMonomial.cpp:1557-1586 | For every monomial below the node that avoids the excluded variables the covered weights differ by at most the larger weight less the inseparable weight |
| MonomialBound.BoundIsGreatest | src/pebbl/example/serialMonomial.cpp:1668-1805 | Of all selections of whole classes none has a greater difference of covered weights than the bound, and one has just this difference |
| MonomialNode.NodeBound | src/pebbl/example/serialMonomial.cpp:1557-1586 | The computed bound is the heavier covered weight less the inseparable weight, and no monomial below the node that avoids the excluded variables achieves more on the rows of the data |
| Hypercube.UsableLink | src/pebbl/pbb/pbEnumerate.cpp:209-231 | For any number of processors, power of two or not, some link leads to a valid rank one bit closer to the owner |
| Hypercube.FlipDistance | src/pebbl/pbb/pbEnumerate.cpp:209-227 | Crossing such a link brings a solution one step closer |
| Hypercube.AckLink | src/pebbl/pbb/pbEnumerate.cpp:313-322 | The link an acknowledgement belongs to is the one it is worked out to be |
| SolutionRouting.Router.RoutePackedSolution | src/pebbl/pbb/pbEnumerate.cpp:186-249 | Picks a least congested usable link, sends if it is idle and queues otherwise |
| SolutionRouting.Router.SolAckAction | src/pebbl/pbb/pbEnumerate.cpp:309-370 | Frees the link and sends the best queued solution, unless it can be fathomed, in which case it is dropped and the next best considered; the queue count follows |
| SolutionRouting.WaitingBehindOne | src/pebbl/pbb/pbEnumerate.cpp:186-370 | In every run a solution waits on a link only while another one is unacknowledged, at most one message is in transit there, and queuedSolutions is the total queue length |
| SolutionRouting.QuietMeansDelivered | src/pebbl/pbb/pbEnumerate.cpp:186-408 | Whenever nothing is in transit every solution ever offered has reached its owner or was fathomed |
| SolutionRouting.GoneWasFathomed | src/pebbl/pbb/pbEnumerate.cpp:308-409 | In every run a solution that is lost on the way was thrown away in a step in which it could be fathomed |
| SolutionRouting.DeliveredStays | src/pebbl/pbb/pbEnumerate.cpp:278-304 | A solution that has reached its owner is never touched again |
| SolutionRouting.AlwaysCloser | src/pebbl/pbb/pbEnumerate.cpp:186-300 | A solution under way is at its next stop always one link closer to its owner |
| SolutionRouting.NeverStranded | src/pebbl/pbb/pbEnumerate.cpp:267-300 | Whatever is in transit can be received and, if need be, routed on |
| SolutionDelivery.DeliveryIsFinite | src/pebbl/pbb/pbEnumerate.cpp:186-408 | Without new offers, under every schedule and any pruning, no more messages are handled than the links left to cross and the acknowledgements due allow |
| SolutionDelivery.AllDelivered | src/pebbl/pbb/pbEnumerate.cpp:186-408 | Every run can go on, without new offers, until every solution has reached its owner or was fathomed |
| ReposMerge.ReposArrayMerge | src/pebbl/pbb/pbEnumerate.cpp:493-539 | The k-way merge yields, in order, the best enumCount elements of its sorted inputs |
| ReposMerge.BestExactly | src/pebbl/bb/branching.cpp:2120-2138 | What the best in order means: by value, then serial number, then owner, and nothing left out comes before anything listed |
| ReposMerge.TopHeadIsBest | src/pebbl/pbb/reposArrayInHeap.h:50-67 | The list on top of the merge heap has the best element that is left, and is used up only if all are |
| ReposTree.BestIsUnique | src/pebbl/pbb/pbEnumerate.cpp:493-539 | There is only one such list |
| ReposTree.CutLosesNothing | src/pebbl/pbb/pbEnumerate.cpp:514-518 | Truncating before merging on gives the same result as not truncating |
| ReposTree.SyncReposArrays | src/pebbl/pbb/pbEnumerate.cpp:724-771 | Merging up the tree leaves every processor with the best of its subtree and the root with the best of all repositories |
| ReposTree.RootHoldsBest | src/pebbl/pbb/pbEnumerate.cpp:716-771 | In whatever order the processors merge |
| ReposTree.TreeDoesNotMatter | src/pebbl/pbb/pbEnumerate.cpp:716-771 | Any shape and root of the tree give the same list |
| ReposAsync.LastIsNeverTooGood | src/pebbl/pbb/pbEnumerate.cpp:432-654 | Asynchronously, under every interleaving of offers, prunings, merges and messages: no processor's lastSolId is ever strictly better than a solution among the best enumCount admitted anywhere |
| ReposOffers.CarelessExactly | src/pebbl/bb/branching.cpp:2313-2325 | What is held after an offer are the best of what was held and the new solution exactly if the repository was not full or held something no better than it |
| ReposOffers.OfferLosesExactly | src/pebbl/pbb/pbEnumerate.cpp:167-178 | An offer leaves one of the best enumCount admitted anywhere in no repository exactly if it is let into a full one that holds only better solutions, and the one it pushes out is among them |
| ReposOffers.RefusedIsNoGain | src/pebbl/bb/branching.cpp:2246-2251 | With zero tolerances, if an offer is refused for the sake of lastSolId, enumCount different solutions are known whose values are no worse |
| ReposQuiet.QuietIsExactly | src/pebbl/pbb/pbEnumerate.cpp:432-654 | Once no message is on its way and no merge is due: the root's list is the best enumCount ever admitted, in order, lastSolId is the last of it everywhere and their owners hold them all, if and only if none of the best has left its owner's repository |
| ReposQuiet.QuietIsExact | src/pebbl/pbb/pbEnumerate.cpp:432-654 | So it is with the count as the only criterion unless some offer has lost one of the best, and then a repository's solution can be pruned exactly if it is not among the best |
| ReposSettles.MovesAreBounded | src/pebbl/pbb/pbEnumerate.cpp:432-654 | Without offers and prunings, any sequence of merges and receipts, however chosen, is bounded by the work left at its start |
| ReposSettles.EveryRunSettles | src/pebbl/pbb/pbEnumerate.cpp:432-654 | Every run can go on, by merges and receipts alone, to where no message is on its way and no merge is due |
| ReposLoss.SecondIsLost | src/pebbl/bb/branching.cpp:2313-2325 | A run at two processors in which three solutions are offered, best first, and enumCount 2 ends with the second in no repository and the third, a worse one, in the final list |
| ReposShape.TreesAreRepositoryTrees | src/pebbl/pbb/parBranching.cpp:477-481 | For every radix, root and number of processors the tree the repositories use is one the asynchronous merge works on: below a processor is what is below its children, each once, and below the root are all |
| SegmentBuffer.MultiOutBufferQueue.StartSegmentBuffer | src/pebbl/comm/outBufferQ.cpp:175-210 | The destination's buffer has one more, empty segment; a new destination joins the front of the list; nothing is sent |
| SegmentBuffer.MultiOutBufferQueue.SegmentDone | src/pebbl/comm/outBufferQ.cpp:213-223 | A full buffer is sent, others wait; what was written for each destination is unchanged |
| SegmentBuffer.MultiOutBufferQueue.SendOnly | src/pebbl/comm/outBufferQ.cpp:226-260 | Sends the destination's segments once and unlinks it; the arrays remain one doubly linked list of exactly the destinations with pending segments |
| SegmentBuffer.MultiOutBufferQueue.Flush | src/pebbl/comm/outBufferQ.cpp:283-302 | Afterwards everything ever written for a destination has been sent to it, once and in order |
| SegmentBuffer.Unlink | src/pebbl/comm/outBufferQ.cpp:242-253 | Unlinking any member leaves the doubly linked list of the others |
| SegmentBuffer.MessageFront | src/pebbl/comm/outBufferQ.cpp:191-198 | Separators and the last marker lie between segments as the reader meets them |
| SegmentBuffer.ReadMessage | src/pebbl/comm/outBufferQ.cpp:305-315 | A loop that unpacks and asks segmentsLeft reads exactly the segments written |
| SegmentBuffer.ReceiveAll | src/pebbl/comm/outBufferQ.cpp:305-315 | Over all messages to a processor it reads everything sent there, in order |
| LoadMeasure.LoadObject.AddLoad | src/pebbl/bb/loadObject.cpp:166-176 | The power sums are those of the bag of bounds with the new ones added, and a known aggregate bound is the best of all bounds added since the load was last empty |
| LoadMeasure.LoadObject.SubtractLoad | src/pebbl/bb/loadObject.cpp:244-262 | The power sums go down by the powers of the bound, added before or not; they are those of the bag without the bounds taken out if these were in it, and of nothing when nothing is left, when the aggregate bound starts over too; until then it stays; taking out more than there is fails |
| LoadMeasure.LoadObject.Combine | src/pebbl/bb/loadObject.cpp:179-203 | The power sums are those of the joint bag, and a known aggregate bound is the best of all bounds added to either part since it was last empty; the bound becomes unknown exactly if a part that counts does not know it |
| LoadMeasure.LoadObject.BestBoundThere | src/pebbl/bb/loadObject.cpp:235-241 | If nothing has been taken out without a double since the load was last empty, a known aggregate bound is the best bound in the bag |
| LoadMeasure.LoadObject.LoadMeasure | src/pebbl/bb/loadObject.cpp:123-156 | For every degree from 1 and every finite non-zero fathom value the load is the sum over the bag of (sense * (fathomValue - bound)) to that degree |
| LoadMeasure.PolyIsSurplus | src/pebbl/bb/loadObject.cpp:143-155 | The polynomial whose coefficients the loop produces is that power |
| LoadMeasure.AtZeroExactly | src/pebbl/bb/loadObject.cpp:138-142 | With a zero fathom value the same holds exactly unless maximizing with an even degree and some non-zero bound |
| LoadMeasure.AtZeroWrongSign | src/pebbl/bb/loadObject.cpp:138-142 | An instance where it does not |

## Left out

Assumptions of the models:

- In every protocol messages are delivered in any order and at any time, except where a line below says otherwise.
- TerminationCheck.TerminationIsSound: the reports and poll replies of a worker come with different tags and are handled in any order, except that a hub that has the worker's reply of wave two handles nothing that was sent before wave one was combined until it has reported.  The order of sending is one way to meet this, as `TerminationInTurn.InTurnIsAllowed` shows; `TerminationOrder.OrderIsNeeded` is a run that breaks it.
- TerminationCheck.TerminationIsSound: the waves of the check appear as "every hub has reported", which `TreeWave.WaveSumsAndBars` justifies; the wave object of `TreeWave` is not composed with the check step by step.
- TerminationCheck.TerminationIsSound: load-balancing transfers are not counted by the check; they are sent only outside it, and a survey separates a round from the next check, so that none is on its way when a check begins (an assumption of the step `Begin`).  Checkpoints and aborts, which suspend workers, are not modelled.
- TerminationProgress.DeadRunTerminates: messages of a worker are handled in the order of sending; otherwise a hub could keep an old record while the worker, whose last report agrees with its load, has no reason to report.  Each hub takes part in the survey at a time of its own, as one step; a survey restarted because the hubs' incumbents differ is not modelled.  A worker's last report is the newest that its hub has handled or that is on its way, at the start its share of the crossover, where the code's record of it starts empty.
- TreeWave.WaveSumsAndBars: one wave at a time; the reuse of a wave object relies on the rounds being separated.
- Rendezvous.RoundCompletes: the hubs of a round have finished counting and messages of the next round are kept apart by its survey; a receive accepts any message of its kind, as with an unspecified sender.  The choice of what work to send, and its contents, are not modelled.
- DonorWave.FinishedHubIsNumbered: the coroutine code is that of `TreeWave.SumNode`, and `DonorNumbering.NumberChildren` its loop; donors and receivers are numbered alike, so one of the two is followed.  The own count is added before the children's, where the code adds it last.
- LoadBalRound.DecisionsMakeRound: the loads are given; the measure they come from is `LoadMeasure`, and how busy the hubs are is taken as measured.
- DonorNumbering.RotatedStaysUnique: the random offsets are drawn equal on all hubs, as equally seeded generators do.
- IncumbentBroadcast.IncumbentAgreement: processors announce only strict improvements on what they hold, as `foundSolution` does; the pruning that follows is not part of it.
- Application.FoundIsRecorded: subproblems and solutions are values, so reference counts and aliasing are not captured; the application's answers may differ from call to call.
- SearchEngine.Branching.Search: which subproblem a pool releases is arbitrary, so the results hold for heaps, stacks and queues alike; the order itself is the subject of `BinaryHeap` and `PoolPruning`.
- SearchEngine.Branching.Search: aborting, early output, bluffed start incumbents, logs and releasing children to other processors are not modelled.
- SearchEngine.Branching.EagerExecute: the code throws an exception when a child needs a second call to be bounded; the model returns failure there, and `BoundsAtOnce` excludes it.
- KnapsackSearch.KnapsackKeepsContract: the randomized heuristics and the squeezing-in of items stand for any heuristic that reports feasible packings; `makeCurrentEffect` and reading the instance from a file are not modelled.
- KnapsackReach.LosesExactly: paths follow all splits; that one is cut short because its subproblem can be fathomed is not taken into account.
- KnapsackSolve.Solve: with tolerances other than those of `ExactHere`, and no enumeration, the result is as good as `SearchResults.NothingBeatsIncumbent` says, which `Solve` does not repeat.
- MonomialNode.NodeBound: weights are not negative.  Coverage by bit operations (getPosCovgFast, getNegCovgFast), three-way and k-way branching and the choice of the branching variable are not modelled.
- SolutionRouting.QuietMeansDelivered: flow control is on.  The heap of a link's queue is replaced by taking a best member, and pruning it by dropping any fathomable members.
- ReposTree.SyncReposArrays: the local lists are taken as sorted by `sortReposIds`.  The asynchronous merge is that of `ReposAsync`.
- ReposAsync.LastIsNeverTooGood: the lists of a processor reach its parent in the order of sending, as messages of one tag do; `lastSolId` values are delivered in any order.  Runs begin at the end of ramp-up as `syncLastSol` leaves it, and count solutions from what is held then; a solution enters the model when its owner processes it (its way there is `SolutionRouting`).  When a processor merges is arbitrary, so the timers of `mergeNow` are covered; a pruning may drop any part of what the code's loop drops, against any incumbent.
- ReposQuiet.QuietIsExact: with `enumAbsTol` or `enumRelTol` as well, pruning drops by incumbent, and `ReposQuiet.QuietIsExactly` is what remains.
- RampUpSync.SyncedIsBest: the reductions are functions of all processors' values; sending the solution itself to those without it is not modelled.
- Crossover.PickMine: the pools of all processors release the same subproblems in the same order, as the code expects after ramp-up.  The load sums other than counts, and the order in which the kept subproblems go back into the pool, are not modelled.
- SegmentBuffer.ReadMessage: words are integers and the receiver's unpacking takes exactly what was packed; the byte layout of buffers is not modelled.  `SendOnly` on a destination with nothing pending, which dereferences a null pointer, is excluded.
- LoadMeasure.LoadObject.LoadMeasure: degree zero is excluded (the zero fathom value branch would read before the array).  Of the flags only the unknown bound is modelled, and the other merged fields are not.

Not modelled at all:

- Floating-point rounding and `nextafter`.
- MPI, pack buffers, files, parameters, timers, status printing, load logs, validation logs and the chunk allocator.
- The scheduler, the worker thread's time control, server threads and the load-log token ring.
- The stack and queue pools (doubly linked lists).
- Hub work distribution: choosing a worker, token splitting and the pool load of a hub.
- Checkpointing and restart.
