# Phaze tooling: a verified model

Phaze's repository carries tooling whose logic is harder than it looks: a diagram renderer that routes
edges around cards with a weighted A* search, a coverage-stamp protocol that many runs play over one
marker file, a supervisor that runs two pytest lanes under signals and failures, a selector that decides
which tests a change needs, and data migrations that must leave constraints true of any table. This
project models that logic in Dafny and proves what it is for.

How the parts fit together:

* **Diagram router** (`Routes`, `Search`, `Layout`, `Polyline`, `Diamonds`, `SegmentUse`, `Detour`,
  `Router`, `Clearance`). `Layout` places cards in pixels; `Search` is the A* loop with its heap, cost map, parent map
  and stale entries; `SegmentUse` is the table of weights that each routed edge changes for the next;
  `Router` runs it for every edge; `Clearance` says what a reader sees: strokes leave a card's right side,
  reach a card's left side and enter no card, except to reach the diamond of a decision (`Diamonds`). `Routes` defines cost on bare paths, without the search, and is
  what optimality is measured against. `Detour` builds a route by hand, which is why the search never fails on
  a diagram of ordinary size.
* **Coverage stamps** (`StampProtocol`, `CoverageStamp`, `StampOverlaps`). The protocol is a transition system whose steps are
  the single reads and writes of `record-start`, `stamp` and the reuse query, interleaved at will with commits,
  edits, coverage runs and rewrites of the report. Theorems speak of the log of every finite execution.
  `CoverageStamp` is the script itself as methods on a checkout, shown to be the uninterrupted case;
  `StampOverlaps` holds full schedules that show what the protocol does not promise.
* **Test supervisor** (`SupervisorTrace`, `Supervisor`, `Manifests`). `Supervisor` is the class; each call
  across the operating-system boundary may return anything, raise, or be preceded by signals. A ghost log
  records what happened, every event is checked against the order `SupervisorTrace` allows, and `Run` relates
  the exit status to the log. `Manifests` is the lane planner.
* **Impacted-test selector** (`Texts`, `DocsGate`, `Selector`). The fail-closed parser of
  `git diff --raw -z`, and the verdict pipeline around it.
* **Migrations** (`VersionDedupe`, `TracklistPurge`). Revisions 041, 046 and 051 on arbitrary tables.
* **Smaller loops** (`QuestionMatching`, `CoverageSweep`, `CounterIncrease`).

Where the code and the prose around it differ, the model follows the code:

* A stamp's token proves that the stamping run recorded HEAD and a clean tree itself. It does not prove that
  the report it stamps holds that run's own measurements. `StampOverlaps` gives two executions: in one another
  run measures last, in the other a slow stamp puts older measurements back over the run's own.
  `StampProtocol.StampedMeasurementsIff` is the exact condition, in terms of who wrote and who opened the report
  when.
* A reuse does not always rest on a clean tree: the query's git wrapper returns nothing when `git status` fails,
  and nothing reads as clean, while the stamp script reads the same failure as dirty.
  `StampOverlaps.FailedStatusReusesOverDirtyTree` is an execution that ends in such a reuse, and
  `StampProtocol.CleanReuseIff` says that a reuse rests on a true clean answer if and only if the call was answered.
* The router raises "No clear route" only when no route costs less than 10**9, and that can happen:
  `Clearance.LayOutTallDiagram` lays out a four-card diagram on which it does. `Router.NeverBlocked` rules it out
  for any edge whose detour over the top of the diagram stays below 10**9, which (2 * rows + 77) * (1 + 60 *
  edges) + 12 < 10**9 guarantees for every edge, whatever the nodes and edges.
* Not every provisioned seat is tried on every path: a call made while releasing one seat can raise, and the
  later seats are then never tried (`SupervisorTrace.RaisedReleaseHappens`). `Supervisor.ParallelTestSupervisor.Run`
  states what holds then, and that all seats are tried 1 to 5 times if and only if no such call raised.
* A seat can be released while its lane still runs (`SupervisorTrace.EarlyReleaseHappens`): the `finally` clause
  releases seats without the stop path when an exception outside the three caught classes escapes, or when the
  stop path itself raises. `SupervisorTrace.EarlyReleaseIff` says exactly when.
* Migration 041 aborts when a new number does not fit its column, and the foreign key does not prevent that
  (`VersionDedupe.FullTracklistAborts`); `VersionDedupe.AbortsIff` says exactly when. It joins `tracklists`, so a
  version whose tracklist is missing is never renumbered; `VersionDedupe.UniqueAfterwards` carries both.
* The selector's message for a map commit that the repository cannot resolve announces an escalation, but `git`
  exits nonzero on such a commit and its wrapper refuses with `fail`; `Selector.Select` follows the wrapper. A coverage tool that is not installed is a
  `fail` too, where one that errs escalates.
* The docstring of `find_reusable_report` says `coverage-combine` stamps the full report; which recipe does the
  stamping does not matter to the model, where any run may.

Lemmas switch Dafny's automatic induction off: every proof stands on its own body and the lemmas it calls.

Integers are unbounded, as in Python; the one place where width matters is the `integer` column of migration
041. Python's `//` with a positive divisor and Dafny's `/` agree. Seconds
and counter samples are `real`.

## Model

| member | source | states |
|---|---|---|
| Search.FindRoute | scripts/render_documentation_diagrams.py:142-175 | for any grid, weights and terminals: a returned route is a real route from start to finish, cheaper than 10**9, no dearer than any other route, and repeats no directed move; none returned means every route costs at least 10**9. The loop terminates |
| Search.HeapPop | scripts/render_documentation_diagrams.py:149 | the popped entry is least in Python's tuple order and exactly one copy of it leaves the heap |
| Search.FirstDifferenceDecides | scripts/render_documentation_diagrams.py:149-169 | entries compare as the tuples they are: by the first number in which they differ |
| Search.LeastExists | scripts/render_documentation_diagrams.py:149 | a non-empty heap has a least entry |
| Search.Relax | scripts/render_documentation_diagrams.py:156-169 | trying one of the four moves keeps the tree, queue and frontier invariants, settles that move, and either changes nothing or lowers the total of the cost map |
| Search.Expand | scripts/render_documentation_diagrams.py:150-169 | after all four moves the popped state is settled: every recorded state is open in the heap or fully relaxed, and the termination measure has not risen |
| Search.TotalFalls | scripts/render_documentation_diagrams.py:163-166 | each push lowers a natural number summed over the finite state space, which bounds the pushes |
| Search.PopKeepsFrontier | scripts/render_documentation_diagrams.py:148-155 | popping an entry, stale or current, loses no open state other than the one popped at its recorded cost |
| Search.PushKeepsRecords | scripts/render_documentation_diagrams.py:161-169 | a push keeps parents a tree of affordable steps and keeps every heap entry consistent with the cost map |
| Search.PushKeepsProgress | scripts/render_documentation_diagrams.py:161-169 | a push unsettles no state without reopening it |
| Search.WalkStep | scripts/render_documentation_diagrams.py:160-162 | the cost of a path grows by exactly the weight the search charges for the step between its (cell, direction) states |
| Search.OpenOnRoute | scripts/render_documentation_diagrams.py:148-169 | every affordable route has a state that is open in the heap at a cost no higher than the route's prefix |
| Search.LeastBelowOpen | scripts/render_documentation_diagrams.py:149-155 | a least heap entry at the finish costs no more than any open state promises |
| Search.GoalIsOptimal | scripts/render_documentation_diagrams.py:153-155 | the first pop at the finish is no dearer than any affordable route, despite stale entries |
| Search.ExhaustedMeansNone | scripts/render_documentation_diagrams.py:170-171 | an empty heap means no route is cheaper than the sentinel |
| Search.ParentChainIsRoute | scripts/render_documentation_diagrams.py:172-175 | the reversed parent chain is a route, costs no more than the recorded cost and repeats no directed move |
| Search.FollowParents | scripts/render_documentation_diagrams.py:172-174 | following parents ends at the first state, one link at a time |
| Search.Rebuild | scripts/render_documentation_diagrams.py:172-175 | following parents from a recorded state ends, and gives such a route |
| Search.RouteToGoal | scripts/render_documentation_diagrams.py:153-175 | stopping at a finish entry and rebuilding gives a cheapest route |
| Routes.RemainingCost | scripts/render_documentation_diagrams.py:168-169 | the Manhattan heuristic never overestimates what the rest of a path costs |
| Routes.PrefixCost | scripts/render_documentation_diagrams.py:160-161 | a prefix of a path never costs more than the path |
| Layout.PlaceNodes | scripts/render_documentation_diagrams.py:112-125 | the row-and-column loops leave each id at the card of its last node, and the returned y is the bottom of the last row |
| Layout.PlaceRows | scripts/render_documentation_diagrams.py:113-125 | the row loop places every card, each row below the last |
| Layout.HeightIsLeast | scripts/render_documentation_diagrams.py:117-119 | a card's height is the least multiple of 12 that makes room for its label, its ports and, for a decision, its diamond |
| Layout.HeightFacts | scripts/render_documentation_diagrams.py:117-119 | heights are multiples of 12, at least 108, with room for one port per edge end |
| Layout.CardsApart | scripts/render_documentation_diagrams.py:114-125 | any two cards are at least 144 apart vertically or 156 horizontally |
| Layout.WhereCardsStand | scripts/render_documentation_diagrams.py:113-125 | cards stand three to a row, 456 apart from 72 on; the first row starts at 180, every other row exactly 144 below some card of the row above and at least that far below all of them |
| Layout.WhereRowsEnd | scripts/render_documentation_diagrams.py:125-125 | the bottom is exactly 144 below some card of the last row and at least that far below all of them |
| Layout.RowGap | scripts/render_documentation_diagrams.py:125 | every later row starts at least 144 below every earlier card |
| Layout.PlacedCards | scripts/render_documentation_diagrams.py:112-126 | every placed card is on the 12-pixel grid, in one of three columns, between y 180 and the bottom, with room for its ports |
| Layout.Block | scripts/render_documentation_diagrams.py:127-131 | a cell is blocked if and only if it is in the clearance of some card |
| Layout.FreeInPixels | scripts/render_documentation_diagrams.py:126-158 | in pixels: a cell may be searched if and only if it lies from 12 to 1488 across, from 132 down to 72 below the last row, and neither on a placed card nor within 12 to its left or above it |
| Layout.DegreeGrows | scripts/render_documentation_diagrams.py:111 | the ports used so far never exceed the degree the height was computed from |
| Polyline.Simplify | scripts/render_documentation_diagrams.py:177-183 | the loop computes the simplified polyline, whose corners and course the next rows describe |
| Polyline.SimplifiedInside | scripts/render_documentation_diagrams.py:177-183 | of an axis-parallel polyline the result is axis-parallel, keeps both ends, and every spot on it lies on the original |
| Polyline.SimplifiedCorners | scripts/render_documentation_diagrams.py:177-183 | of any polyline the result keeps both ends and every corner, in order, and nothing else |
| Polyline.PiecesAlternate | scripts/render_documentation_diagrams.py:177-183 | the pieces of a simplified axis-parallel stroke alternate: where one is level the next is upright |
| Polyline.RunStraight | scripts/render_documentation_diagrams.py:179-182 | a run of dropped points lies on one horizontal or one vertical line |
| Polyline.RunCovers | scripts/render_documentation_diagrams.py:179-182 | every spot between the ends of a straight run lies on one of its original pieces, even where the run doubles back |
| Polyline.FirstPieceLevel | scripts/render_documentation_diagrams.py:176-183 | a stroke that starts out level still does when simplified, however many points are dropped |
| Polyline.LastPieceLevel | scripts/render_documentation_diagrams.py:176-183 | and one that ends level |
| Diamonds.FirstNamed | scripts/render_documentation_diagrams.py:185 | the first node of a name, or none has it |
| Diamonds.MeetsDecisionIff | scripts/render_documentation_diagrams.py:122-186 | an end meets a diamond if and only if the diagram is a flowchart and the first node of that name asks a question |
| Diamonds.Round | scripts/render_documentation_diagrams.py:189 | the nearest integer, and the even one of two |
| Diamonds.OutlineAt | scripts/render_documentation_diagrams.py:188-189 | going in by the inset from either side of a card, at any height, ends exactly on the diamond whose corners are the middles of the sides, and not beyond the middle |
| Diamonds.AdjustEnds | scripts/render_documentation_diagrams.py:184-189 | the two updates give the stroke whose ends the next rows describe, everything between unchanged |
| Diamonds.RightEndOnOutline | scripts/render_documentation_diagrams.py:188-189 | a moved start is within half a pixel of the right half of the diamond's outline, at its own height |
| Diamonds.LeftEndOnOutline | scripts/render_documentation_diagrams.py:188-189 | a moved end likewise on the left |
| Diamonds.MovedEnds | scripts/render_documentation_diagrams.py:184-190 | moving the ends of a stroke that is level there adds nothing to it but the way they moved |
| Diamonds.MovedAxisParallel | scripts/render_documentation_diagrams.py:184-190 | and keeps it axis-parallel |
| Diamonds.RightEntry | scripts/render_documentation_diagrams.py:188-189 | the way a start moved stays inside its card and goes at most half a pixel past the outline |
| Diamonds.LeftEntry | scripts/render_documentation_diagrams.py:188-189 | so does the way an end moved |
| SegmentUse.Occupy | scripts/render_documentation_diagrams.py:191-192 | the loop adds one route to the weight table |
| SegmentUse.OccupiedCounts | scripts/render_documentation_diagrams.py:132-192 | after any list of routes an entry of the table is the number of steps recorded under it |
| SegmentUse.MoveOnce | scripts/render_documentation_diagrams.py:172-192 | a rebuilt route makes each directed move at most once |
| SegmentUse.UseBound | scripts/render_documentation_diagrams.py:191-192 | after n routes no segment weighs more than 2n |
| SegmentUse.WeightIsCrossings | scripts/render_documentation_diagrams.py:160-192 | the weight the table holds for two neighbouring cells is the number of steps of the recorded routes that join them, whichever way they ran |
| SegmentUse.SameSegment | scripts/render_documentation_diagrams.py:160-160 | two steps share a table entry if and only if they join the same two cells, in either order |
| SegmentUse.PriceOfWalk | scripts/render_documentation_diagrams.py:160-161 | the price of any walk is its steps, plus 6 for each change of direction, plus 30 for each time a recorded route joined the two cells of one of its steps |
| Detour.LaneFree | scripts/render_documentation_diagrams.py:127-131 | the vertical lanes beside the card columns are unblocked at every row the search may use |
| Detour.BandFree | scripts/render_documentation_diagrams.py:127-131 | the band above the first row of cards is unblocked across the whole grid |
| Detour.LegWalk | scripts/render_documentation_diagrams.py:156-159 | a straight leg over free cells is a legal walk |
| Detour.LegCost | scripts/render_documentation_diagrams.py:160-161 | a straight leg costs at most its length times the dearest step, plus one bend |
| Detour.DetourExists | scripts/render_documentation_diagrams.py:112-141 | between any two lane cells there is a route up the lane, along the band and down the lane, with this cost bound |
| Router.PortOnSide | scripts/render_documentation_diagrams.py:137-140 | every port lies on the grid, at least 36 below its card's top and above its bottom |
| Router.PortsSeparate | scripts/render_documentation_diagrams.py:137-140 | a later edge at a card gets a port strictly below every earlier one |
| Router.TerminalsFree | scripts/render_documentation_diagrams.py:139-141 | for any edge at any card the start and finish cells are in bounds, unblocked, in a lane, and exactly 24 pixels off the card at the port's height |
| Router.CountEnds | scripts/render_documentation_diagrams.py:133-138 | the usage counter holds, for every id, the edge ends among the edges seen, self-loops counted twice |
| Router.RouteEdge | scripts/render_documentation_diagrams.py:139-190 | the edge's stroke is the simplified cheapest route between its terminals under the weights of the earlier routes, its ends drawn on to the diamonds they meet; or no affordable route exists |
| Router.RouteNext | scripts/render_documentation_diagrams.py:134-192 | routing one edge extends the record and the weight table together; it fails only where no affordable route exists and the detour does not fit |
| Router.RouteEdges | scripts/render_documentation_diagrams.py:132-192 | all edges are routed cheapest-first in order, or the first blocked or unknown edge is named and all before it were routed |
| Router.LoadBound | scripts/render_documentation_diagrams.py:191-192 | the weights an edge meets are at most twice the number of edges before it |
| Router.NeverBlocked | scripts/render_documentation_diagrams.py:112-171 | for any nodes and edges, and at any point of the run: an edge without a route cheaper than the sentinel is one whose own path up the start lane, along the band and down the finish lane costs at least the sentinel at the present weights; its length and its place among the edges bound that cost in advance |
| Router.DetourServes | scripts/render_documentation_diagrams.py:112-141 | that path is a legal route for every edge, and cheaper than the sentinel when it fits |
| Router.RoomForDetours | scripts/render_documentation_diagrams.py:112-171 | a bound on rows and edges alone makes the path fit for every edge |
| Router.GridLayout | scripts/render_documentation_diagrams.py:108-192 | success means every edge names nodes and the whole layout is as above; "No clear route" names an edge with no affordable route in such a layout, whose detour does not fit, and never occurs within the size bound; an unknown id is reported for the first edge that has one |
| Router.KnownNodes | scripts/render_documentation_diagrams.py:135-136 | the position lookup succeeds if and only if both ends name nodes of the diagram |
| Clearance.RouteWellClear | scripts/render_documentation_diagrams.py:127-131 | every spot of a searched route, between cells too, keeps 12 pixels or more from every placed card |
| Clearance.StrokeShape | scripts/render_documentation_diagrams.py:176 | route plus stubs is an axis-parallel polyline whose consecutive points differ |
| Clearance.StrokeOutside | scripts/render_documentation_diagrams.py:172-176 | no spot of the route or its two stubs is inside any placed card |
| Clearance.SimplifiedStroke | scripts/render_documentation_diagrams.py:172-183 | every simplified stroke is axis-parallel, level at both ends, runs from port to port and has no spot inside any placed card |
| Clearance.CardsDisjoint | scripts/render_documentation_diagrams.py:112-125 | different placed cards never overlap |
| Clearance.DrawnEdge | scripts/render_documentation_diagrams.py:134-190 | every drawn edge is an axis-parallel polyline that starts strictly inside the source's right side, or within half a pixel of the right half of its diamond, and ends likewise on the target's left; each of its spots is outside every placed card, or on the way between side and diamond of a decision at one of its ends and outside every other placed card |
| Clearance.LastOfNamePlaced | scripts/render_documentation_diagrams.py:121 | a node that is the last of its name has its own card as the placed card |
| Clearance.TooFar | scripts/render_documentation_diagrams.py:163-171 | terminals a sentinel apart have no affordable route |
| Clearance.FarPortsBlocked | scripts/render_documentation_diagrams.py:163-171 | an edge whose ports are that far apart is blocked whatever was routed before |
| Clearance.TallDiagramBlocked | scripts/render_documentation_diagrams.py:163-171 | in every layout of a concrete diagram its first edge is blocked |
| Clearance.LayOutTallDiagram | scripts/render_documentation_diagrams.py:108-171 | laying that diagram out ends in "No clear route" at its first edge |
| StampProtocol.StepKeeps | scripts/stamp_coverage_scope.py:167-260 | every single read or write of any run, and every change of the environment, keeps the protocol invariant |
| StampProtocol.ExecutionsKeep | scripts/stamp_coverage_scope.py:167-260 | the invariant holds after every finite interleaving |
| StampProtocol.RecordKeeps | scripts/stamp_coverage_scope.py:167-180 | dropping the old marker, reading HEAD, reading the tree, where a failed call counts as dirty, and writing a fresh token each keep it |
| StampProtocol.StampKeeps | scripts/stamp_coverage_scope.py:183-260 | each read, delete and write of a stamp call keeps it |
| StampProtocol.QueryKeeps | scripts/branch_coverage_check.py:368-397 | each read of a reuse query keeps it, a failed status call, which counts as clean, included |
| StampProtocol.EnvironmentKeeps | scripts/stamp_coverage_scope.py:134-164 | commits, edits, stashes, coverage runs and unstamped rewrites keep it |
| StampProtocol.AcceptedIsOwn | scripts/stamp_coverage_scope.py:237-247 | a marker that passes the token check was minted by the stamping run itself, for that HEAD and a clean tree, so one overwritten by another run is never trusted |
| StampProtocol.StampsAreTrue | scripts/stamp_coverage_scope.py:221-260 | in every execution, a stamp with head h was preceded, in this order and by the same run, by a true read of HEAD = h, a true read of a clean tree, the read of the report's present contents, after which the run did not open it again, and a second true read of HEAD = h |
| StampProtocol.ReuseIsSound | scripts/branch_coverage_check.py:368-397 | in every execution, a reused report's last write before the reuse was a stamp with the head the query truly read, that stamp was justified, and the tree was clean when the query asked if git answered |
| StampProtocol.CleanReuseIff | scripts/branch_coverage_check.py:129-146 | in every execution, a reusing query asked for the tree once, and git told it truly that the tree was clean if and only if that call was answered |
| StampProtocol.ExecutionsAskOnce | scripts/branch_coverage_check.py:368-369 | in every execution no query asks for the tree twice |
| StampProtocol.StampedMeasurementsIff | scripts/stamp_coverage_scope.py:221-258 | in every execution and for any run r, a stamp covers what r measured, the stamping run included, if and only if the events say so: the last write before the stamp call opened the report was a coverage run of r, or a stamp by a run that had opened the report while, in turn, it held what r measured |
| StampProtocol.ReusedMeasurementsIff | scripts/branch_coverage_check.py:368-397 | the same of the report a query reuses |
| StampProtocol.OriginIff | scripts/stamp_coverage_scope.py:221-258 | following stamps back to where their runs opened the report ends at the measurement inside |
| StampProtocol.LastMeasurementDecides | scripts/stamp_coverage_scope.py:221-258 | where nothing was written since a measurement, the report holds a run's measurements if and only if that one was its own |
| StampProtocol.LastWrite | scripts/stamp_coverage_scope.py:257-258 | the position found is a write of the report and no later event is |
| CoverageStamp.Checkout.constructor | scripts/stamp_coverage_scope.py:134-164 | a checkout with any HEAD, tree, marker and report |
| CoverageStamp.Checkout.RecordStart | scripts/stamp_coverage_scope.py:167-180 | an unresolvable HEAD leaves no marker at all; otherwise the marker holds HEAD, dirtiness and the fresh token |
| CoverageStamp.Checkout.LoadAndConsumeStart | scripts/stamp_coverage_scope.py:183-195 | the marker is gone afterwards, readable or not, and is returned only when readable |
| CoverageStamp.Checkout.StampReport | scripts/stamp_coverage_scope.py:221-260 | every refusal leaves the report as it was; otherwise only its stamp changes; the marker is always consumed |
| CoverageStamp.StampCallInProtocol | scripts/stamp_coverage_scope.py:221-260 | a stamp call that nobody interrupts ends in the protocol exactly where the method does |
| CoverageStamp.QueryInProtocol | scripts/branch_coverage_check.py:368-397 | a query that nobody interrupts reuses the full report in the protocol exactly where the method chooses it, and changes no file |
| CoverageStamp.FindReusable | scripts/branch_coverage_check.py:343-397 | the full report is chosen if and only if it is stamped "full" with the HEAD there is and git did not call the tree dirty, a failed call being no objection; the selected-tests report if and only if the full one is not and it is stamped so; a refusal names for each the first check it fails |
| StampOverlaps.OverlapCoversForeignMeasurements | scripts/stamp_coverage_scope.py:221-258 | an execution in which a run with a clean tree stamps what another measured in a dirty one |
| StampOverlaps.StaleStampRestoresOlderMeasurements | scripts/stamp_coverage_scope.py:221-258 | an execution in which a run measures last, a slower run's stamp puts its older measurements back, and the first run stamps those |
| StampOverlaps.FailedStatusReusesOverDirtyTree | scripts/branch_coverage_check.py:368-397 | an execution in which a query whose status call fails reuses a report over a dirty tree |
| SupervisorTrace.Appended | scripts/parallel_test_runner.py:506-554 | an event allowed by what happened before keeps the log in order |
| SupervisorTrace.SpawnBeforeRelease | scripts/parallel_test_runner.py:523-540 | in an ordered log no lane starts once the release of a seat has begun |
| SupervisorTrace.SpawnBeforeReap | scripts/parallel_test_runner.py:379-401 | a leader is reaped only after it was started |
| SupervisorTrace.ReleaseAfterReap | scripts/parallel_test_runner.py:523-540 | unless an uncaught exception struck while a started lane was unreaped, every lane started at all was reaped between its start and any release call |
| SupervisorTrace.EarlyReleaseIff | scripts/parallel_test_runner.py:523-545 | a release call is made while a started lane is unreaped if and only if an uncaught exception struck while a started lane was unreaped |
| SupervisorTrace.EarlyReleaseHappens | scripts/parallel_test_runner.py:523-545 | an ordered two-lane log in which both seats are released while both lanes still run |
| SupervisorTrace.EscapeFreezes | scripts/parallel_test_runner.py:523-545 | once an exception escapes no lane is started or reaped any more |
| SupervisorTrace.EndedIff | scripts/parallel_test_runner.py:403-414 | when releasing has ended, all seats were properly tried if and only if it did not get stuck at one |
| SupervisorTrace.StuckIff | scripts/parallel_test_runner.py:403-414 | it got stuck if and only if some call made for releasing raised |
| SupervisorTrace.RaisedReleaseHappens | scripts/parallel_test_runner.py:403-414 | an ordered two-lane log in which the first release raises and the second seat is never tried |
| SupervisorTrace.PostAfterEverything | scripts/parallel_test_runner.py:471-554 | before any post-processing command: no signal, no failure, no raising release, every lane reaped with 0, every seat released with 0, every earlier command 0 |
| SupervisorTrace.OneLateStart | scripts/parallel_test_runner.py:528-531 | at most one more lane is started once a signal has arrived |
| SupervisorTrace.TimeoutKills | scripts/parallel_test_runner.py:393-399 | when the wait for a leader times out, the very next thing is that its group is killed with 9, or cannot be found |
| SupervisorTrace.HowSeatsWereTried | scripts/parallel_test_runner.py:403-414 | in numbers: 1 to 5 tries, all but the last failing, a failing last one only as the fifth; at most 4, all failing, at a seat where a call raised; none after it |
| SupervisorTrace.SumGrows | scripts/parallel_test_runner.py:506-554 | what has happened is never taken back: seats, lanes, reaps, attempts, signals and failures only grow along a log |
| SupervisorTrace.TriedOneMore | scripts/parallel_test_runner.py:403-414 | one properly tried seat more keeps the account of releases |
| Supervisor.ParallelTestSupervisor.constructor | scripts/parallel_test_runner.py:352-356 | no processes, no signal, an empty log, and a valid account of it |
| Supervisor.ParallelTestSupervisor.ForwardSignal | scripts/parallel_test_runner.py:358-360 | the signal is recorded; every lane in order is then dealt with as below, or a call raised and the lanes before it were |
| Supervisor.ParallelTestSupervisor.SignalActiveGroups | scripts/parallel_test_runner.py:362-369 | every lane in order is looked at and skipped if and only if its leader has exited and its group is gone; any other is sent the signal, or its group cannot be found; a call that raises ends that, the lanes before it done |
| Supervisor.ParallelTestSupervisor.WaitForGroup | scripts/parallel_test_runner.py:371-377 | the answer is what the last poll said; otherwise only signals arrived, or a call raised |
| Supervisor.ParallelTestSupervisor.QuiesceGroup | scripts/parallel_test_runner.py:382-388 | the group was found gone, or it was sent 15 and later 9, or a call raised |
| Supervisor.ParallelTestSupervisor.WaitProcesses | scripts/parallel_test_runner.py:379-389 | on return every leader was reaped with the status returned in its place, and every group was found gone, or sent 15 and then 9; otherwise the failure is on record |
| Supervisor.ParallelTestSupervisor.StopLeader | scripts/parallel_test_runner.py:393-399 | the leader is reaped whether or not the first wait times out, unless a call raised |
| Supervisor.ParallelTestSupervisor.StopProcesses | scripts/parallel_test_runner.py:391-401 | first of all every lane is dealt with for signal 15; every started leader is reaped afterwards and every group asked after, unless a call raised; inside the handler that exception escapes whatever its class |
| Supervisor.ParallelTestSupervisor.ReleaseSeat | scripts/parallel_test_runner.py:406-412 | between 1 and 5 attempts, all but the last failing, stopping at the first success; or a call raised after fewer than 5, all failing |
| Supervisor.ParallelTestSupervisor.ReleaseSeats | scripts/parallel_test_runner.py:403-414 | every provisioned seat is so tried and the answer is true if and only if every last attempt succeeded; or a call raised, the seats before that one are so tried and those after it not at all |
| Supervisor.ParallelTestSupervisor.ProvisionSeats | scripts/parallel_test_runner.py:525-527 | seats that were provisioned before a failure stay on record |
| Supervisor.ParallelTestSupervisor.SpawnLanes | scripts/parallel_test_runner.py:528-531 | all lanes start, or a signal stopped the loop, or the failure is on record |
| Supervisor.ParallelTestSupervisor.RunLanes | scripts/parallel_test_runner.py:524-536 | without an exception every leader is reaped, and without an interruption all lanes ran |
| Supervisor.ParallelTestSupervisor.RunAndRelease | scripts/parallel_test_runner.py:523-545 | on every path releasing ends in one of those two ways, signals count to the very end, and all leaders are reaped unless an exception escapes |
| Supervisor.ParallelTestSupervisor.ChildFailure | scripts/parallel_test_runner.py:551-553 | the first status that is not 0, unchanged if positive and as 128 + n if -n; 0 if and only if every lane passed |
| Supervisor.ParallelTestSupervisor.Postprocess | scripts/parallel_test_runner.py:471-504 | 0 if and only if every command ran and returned 0; otherwise the status of the first that failed, or the exception |
| Supervisor.ParallelTestSupervisor.Run | scripts/parallel_test_runner.py:506-554 | for every signal timing and failure point: 0 if and only if every lane exited 0, every seat was provisioned and released, no signal, no failure, and the post-processing commands, six with a token and five without, all returned 0; an exception leaves it if and only if one escaped; else a signal, which is 1, 2 or 15, gives 128 plus its number, a caught failure or unreleased seat 1, a failed lane the first such status, unchanged if positive and as 128 + n if -n, a failed command its status; all provisioned seats were tried 1 to 5 times if and only if no call for releasing raised, and the exact remainder otherwise; the log is in order |
| Manifests.ValidateLanePartition | scripts/parallel_test_manifests.py:168-190 | accepts if and only if the lanes are a duplicate-free, order-preserving, exact partition; reports duplicates if and only if the canonical list has them; a drift verdict names a lane that is no subsequence |
| Manifests.SelectIffSubsequence | scripts/parallel_test_manifests.py:185-190 | of a duplicate-free list, filtering by a lane's members gives the lane back if and only if the lane is a subsequence |
| Manifests.SubsequenceIsSelect | scripts/parallel_test_manifests.py:185-190 | the hard half: any order-preserving embedding is that filter |
| Manifests.SameMultiset | scripts/parallel_test_manifests.py:177-183 | against a duplicate-free list, equal counts mean no duplicates and equal members |
| Manifests.AssignNodes | scripts/parallel_test_manifests.py:197-207 | each lane gets exactly its owned ids in canonical order and no id is lost or doubled; otherwise the first id without a unique owner is refused |
| Manifests.LaneIff | scripts/parallel_test_manifests.py:200-205 | an id has a lane if and only if its file is a test path that exactly one shard claims, some included path a beginning of it and no ignored one, and that shard is in the lane |
| Manifests.TestPathReadsBack | scripts/parallel_test_manifests.py:77-81 | of any parts joined by slashes: read back without empty ones and ".", if the first of these is tests and none is ".."; refused otherwise and when it starts with a slash |
| Manifests.MakeLanes | scripts/parallel_test_manifests.py:210-214 | each lane deselects, in canonical order, exactly the ids outside it |
| Manifests.BuildManifestPlan | scripts/parallel_test_manifests.py:193-215 | a plan is built if and only if every id has a unique owner and the ids are duplicate-free, and it is then an exact partition; validation can fail for duplicates only |
| Manifests.PrefixSameFile | scripts/parallel_test_manifests.py:201-201 | an id with a "::" that is a prefix of another names the same file |
| Manifests.DeselectionIsExact | scripts/parallel_test_manifests.py:200-214 | prefix matching drops from a lane exactly the ids outside it |
| Manifests.LaneRunsItsNodes | scripts/parallel_test_manifests.py:200-214 | what pytest keeps in a lane after deselection is that lane's list, in order |
| Manifests.Separator | scripts/parallel_test_manifests.py:201-201 | the position of the first "::", or the end when there is none |
| Texts.WordSplit | scripts/select_impacted_tests.py:440-451 | splitting reads a word up to its separator and goes on |
| Texts.SeparatorSkipped | scripts/select_impacted_tests.py:440-451 | a separator where a word could start is passed over, so no token is empty |
| Texts.SpaceIff | scripts/select_impacted_tests.py:451-451 | the twenty-nine characters that count as white space |
| Texts.PieceIff | scripts/select_impacted_tests.py:415-415 | splitting at slashes gives exactly the maximal parts without one |
| Texts.LessIff | scripts/select_impacted_tests.py:470-470 | texts sort by the first character in which they differ, a beginning before the whole |
| Texts.SortedSetIs | scripts/select_impacted_tests.py:470-470 | the sorted set is strictly increasing with the same members |
| DocsGate.DocsOnly | scripts/select_impacted_tests.py:422-470 | for any text at all, an answer is given if and only if its tokens are a non-empty stream of prose records, and it is then the sorted distinct paths of that stream |
| DocsGate.DocsPathIff | scripts/select_impacted_tests.py:398-419 | a path is prose if and only if it is a name and ".md", has no ".." part, and either has no slash or starts with docs/, .planning/ or design/ |
| DocsGate.StreamStarts | scripts/select_impacted_tests.py:446-461 | a prose stream begins with a header of one colon and five fields, and a path |
| DocsGate.OneEdit | scripts/select_impacted_tests.py:398-470 | an edit of any name.md at the root is accepted, and of the same file in any directory other than those three refused |
| DocsGate.ParseIsUnique | scripts/select_impacted_tests.py:444-468 | a token stream has at most one reading as prose records, and any reading of a prefix extends |
| DocsGate.RejectionIsRight | scripts/select_impacted_tests.py:446-468 | when the loop refuses a record, no reading of the whole stream exists |
| DocsGate.HeaderFields | scripts/select_impacted_tests.py:447-455 | the five fields of a rendered header are read back |
| DocsGate.ProseByFields | scripts/select_impacted_tests.py:447-468 | a rendered record is accepted if and only if its status, both modes and every path are allowed |
| DocsGate.TerminatedTokens | scripts/select_impacted_tests.py:440-440 | NUL-terminated tokens are read back |
| DocsGate.RenderedTokens | scripts/select_impacted_tests.py:440-459 | a rendered diff is read back as its records' tokens |
| DocsGate.RenderedDiff | scripts/select_impacted_tests.py:422-470 | a rendered non-empty diff is a prose stream if and only if every record has a status A, C, D, M or R, both modes 100644 or 000000, and only prose paths, two for C and R and one otherwise |
| Selector.SuffixComesOff | scripts/select_impacted_tests.py:356-366 | any of the three context suffixes, appended to any id, is taken off again |
| Selector.OtherSuffixStays | scripts/select_impacted_tests.py:356-366 | an id that ends in none of them is left alone |
| Selector.BaseNameIs | scripts/select_impacted_tests.py:369-395 | the name is what follows the last slash |
| Selector.BaseNameUnique | scripts/select_impacted_tests.py:394-394 | and there is only one way to cut a path so |
| Selector.CollectableIff | scripts/select_impacted_tests.py:369-395 | a path is collectable if and only if what is before its first "::" lies under tests/ and its name is test_, anything, .py, or anything, _test.py |
| Selector.NodeIdsAreBacked | scripts/select_impacted_tests.py:578-584 | an id is collected if and only if coverage measured it or a changed collectable test file names it |
| Selector.NodeIdsInOrder | scripts/select_impacted_tests.py:583-584 | measured ids come first, in the report's order, then the edited files in theirs |
| Selector.Deduplicate | scripts/select_impacted_tests.py:589-594 | the same ids, each once, in the order of their first occurrence |
| Selector.CoveredSources | scripts/select_impacted_tests.py:578-581 | exactly the sources some impacted test covers |
| Selector.Classify | scripts/select_impacted_tests.py:525-603 | a selection is made if and only if there is an index, the map is not empty, no file is unknown, every inferred test is labelled changed-test and collectable, and a change has some test; it holds exactly the backed ids in first-seen order; failing is exactly the case of a change without any test |
| Selector.Select | scripts/select_impacted_tests.py:483-671 | a selection is made if and only if the tree is clean, git answers, and the map speaks: trustworthy, no stale source, every file exists; it fails, rather than escalates, if and only if the tree is dirty, git does not answer, there is an index but no tool to read it, or a trusted map names no test or cannot be dated |
| Selector.StripIs | scripts/select_impacted_tests.py:678-678 | stripping takes off white space only, and leaves none at either end |
| Selector.FloorMembers | scripts/select_impacted_tests.py:678-679 | an entry is in the floor if and only if it is some stripped line, not blank and not a comment |
| Selector.FloorInOrder | scripts/select_impacted_tests.py:678-679 | entries come in the order of their lines, one each at most |
| Selector.BeyondMembers | scripts/select_impacted_tests.py:685-720 | what is added after the floor is exactly what the floor lacks |
| Selector.BeyondFilters | scripts/select_impacted_tests.py:717-717 | in order and each once |
| Selector.Decide | scripts/select_impacted_tests.py:606-720 | `docs` if and only if both floors are there, the tree is clean, git answers and the whole diff is prose; `run` if and only if those hold, the diff is not prose and the map speaks; a run list is non-empty, starts with the whole floor, goes on with every backed id the floor lacks in first-seen order, and anything else in it is backed and its file exists; `fail` if and only if a floor is missing or empty, the tree is dirty, git does not answer, or the diff is not prose and asking the map goes wrong as above; all else escalates |
| VersionDedupe.LoserIff | alembic/versions/041_tracklist_version_unique.py:50-68 | a row is renumbered if and only if another row of its group comes before it in the window's order |
| VersionDedupe.OneWinner | alembic/versions/041_tracklist_version_unique.py:50-68 | of two rows in one group at most one is kept |
| VersionDedupe.LoserRanksDiffer | alembic/versions/041_tracklist_version_unique.py:61-68 | two losers of one tracklist get ranks in id order |
| VersionDedupe.NewNumberIsFresh | alembic/versions/041_tracklist_version_unique.py:69-78 | a new number exceeds every number its tracklist had |
| VersionDedupe.MaxNumber | alembic/versions/041_tracklist_version_unique.py:69-73 | the greatest number of the tracklist: no version exceeds it and one has it |
| VersionDedupe.UniqueAfterwards | alembic/versions/041_tracklist_version_unique.py:49-79 | the statement succeeds and leaves (tracklist, number) unique if and only if no tracklist runs out of numbers and versions without a tracklist were unique before; under the foreign key, if and only if no tracklist runs out of numbers |
| VersionDedupe.AbortsIff | alembic/versions/041_tracklist_version_unique.py:69-78 | the statement aborts if and only if some tracklist's greatest number plus its count of rows to renumber exceeds the column |
| VersionDedupe.FullTracklistAborts | alembic/versions/041_tracklist_version_unique.py:69-78 | a table that satisfies the foreign key, on which it aborts and leaves the duplicates |
| VersionDedupe.WinnersKept | alembic/versions/041_tracklist_version_unique.py:49-79 | of any row of any table: id and owner are kept; a row changes if and only if the statement succeeds, its tracklist exists, and another row with the same tracklist and number is that tracklist's latest, or has a smaller id while this row is not the latest |
| VersionDedupe.RenumberingTwice | alembic/versions/041_tracklist_version_unique.py:49-79 | of any table, aborted or not, applying it again changes nothing |
| TracklistPurge.Database.constructor | alembic/versions/039_baseline_schema.py:420-446 | a database with any rows |
| TracklistPurge.Database.Execute | alembic/versions/046_drop_fingerprint_schema.py:123-144 | a statement that would break a foreign key is refused and changes nothing |
| TracklistPurge.Database.Purge | alembic/versions/046_drop_fingerprint_schema.py:119-144 | from any valid tables every statement succeeds, and exactly the selected tracklists and what hangs off them are gone |
| TracklistPurge.LeafToRoot | alembic/versions/051_tracklists_propagation.py:116-134 | the foreign keys hold after each of the four deletes, and the four together remove what the starting tables select |
| TracklistPurge.OutOfOrderAborts | alembic/versions/046_drop_fingerprint_schema.py:119-144 | a delete run on its own succeeds if and only if nothing hangs off what it removes: the order matters |
| TracklistPurge.PurgedTwice | alembic/versions/046_drop_fingerprint_schema.py:123-144 | a second purge removes nothing |
| TracklistPurge.WhatGoes | alembic/versions/046_drop_fingerprint_schema.py:119-144 | exactly the tracklists of source "fingerprint", or for revision 051 those propagated, and the versions, tracks and links that lead to one of them; every other row is unchanged |
| TracklistPurge.UniquenessRestored | alembic/versions/051_tracklists_propagation.py:97-139 | after the downgrade's deletes `external_id` is globally unique if and only if it was unique among canonical tracklists, all of which are kept unchanged |
| QuestionMatching.Collect | scripts/recover_operator_decisions.py:291-350 | the loop over records and blocks emits exactly the events of the stream's specification, in order |
| QuestionMatching.Take | scripts/recover_operator_decisions.py:304-348 | one block keeps the pending dictionary equal to the open questions of the stream so far |
| QuestionMatching.TakeRecord | scripts/recover_operator_decisions.py:299-348 | so does one record |
| QuestionMatching.QuestionFound | scripts/recover_operator_decisions.py:318-330 | an open question is the latest ask with its id, with no ask or result for the id since |
| QuestionMatching.QuestionMissing | scripts/recover_operator_decisions.py:318-330 | with none open, every earlier ask with the id has been answered since |
| QuestionMatching.AnsweredIff | scripts/recover_operator_decisions.py:318-348 | a result emits an event if and only if some earlier ask has its id with no result for it between |
| QuestionMatching.AnsweredOnce | scripts/recover_operator_decisions.py:318-348 | no ask is answered by two results |
| QuestionMatching.AskAndAnswer | scripts/recover_operator_decisions.py:299-348 | two records of one block each give an event if and only if the first is an assistant's ask with an id and questions, the second a user's result for that id, and neither is a sidechain; it carries the ask's place, stamp and questions and the result's stamp and answers |
| QuestionMatching.SidechainsIgnored | scripts/recover_operator_decisions.py:300-320 | sidechain records contribute nothing |
| CoverageSweep.Coverage | scripts/analysis_eval.py:88-105 | the sweep reports exactly the problems of the specification over the sorted windows |
| CoverageSweep.SortSorts | scripts/analysis_eval.py:90-90 | the order is a sorted permutation |
| CoverageSweep.SortedUnique | scripts/analysis_eval.py:90-90 | two sorted lists of the same windows are equal |
| CoverageSweep.OrderIrrelevant | scripts/analysis_eval.py:88-105 | the report does not depend on the order of the input |
| CoverageSweep.StretchTouched | scripts/analysis_eval.py:94-101 | with no problem reported, any stretch longer than a second that ends by the required end, or by the start of some window, meets a window |
| CoverageSweep.SpanFine | scripts/analysis_eval.py:99-100 | with no problem reported, each window is of positive length, at most the maximum plus a second |
| CoverageSweep.MissedStretch | scripts/analysis_eval.py:97-104 | a reported gap, or an early end, is such a stretch that no window meets |
| CoverageSweep.CleanSweepIff | scripts/analysis_eval.py:88-105 | no problem is reported if and only if there are windows, as many as expected, all of good length, and every such stretch meets one |
| CoverageSweep.ReportedIff | scripts/analysis_eval.py:88-105 | which problems are reported: too few windows if and only if there are; a gap before x if and only if some window starts at x, later than a second after zero and after every window that starts earlier has stopped; a bad span if and only if some window has one; incomplete if and only if no window starts within the first second or all stop a second too early |
| CounterIncrease.PrometheusIncrease | scripts/measure_concurrent_identity.py:151-169 | last minus first, plus the values just before each drop; 0 for no samples |
| CounterIncrease.LossIff | scripts/measure_concurrent_identity.py:151-169 | for non-negative samples the loss at drops is never negative and is 0 if and only if the series never drops |
| CounterIncrease.LossJoins | scripts/measure_concurrent_identity.py:151-169 | joining two series adds their losses, and the last value of the first if the second starts lower |
| CounterIncrease.OneReset | scripts/measure_concurrent_identity.py:151-169 | with one reset between two climbing series the increase is the first one's net change plus what the second one reached |

## Left out

Stated weaker than they could be:

- Router.NeverBlocked: sufficient, not exact; the exact condition for one edge is that a route cheaper than the sentinel exists, which is what Search.FindRoute decides, and Clearance.LayOutTallDiagram shows that some bound is needed.
- Router.GridLayout: returns the positions and points that the source writes into the diagram's own dictionaries, so aliasing between diagram, nodes and edges is not captured.
- Polyline.SimplifiedInside: inclusion, not equality; a spur that doubles back in a straight line is trimmed by the source.
- Supervisor.ParallelTestSupervisor.StopLeader: nothing is said about how long a child takes.
- SupervisorTrace.EarlyReleaseHappens: a log that the order admits; that the class can produce it is read off its methods, whose boundary answers are free.
- SupervisorTrace.RaisedReleaseHappens: likewise.

Not modelled:

- Diamond insets are computed over the reals before rounding; floats could only differ on cards so tall that a fraction with that denominator is below their precision. A node counts as a decision by its label and diagram type only.
- `heapq`'s array layout: the heap is a multiset with extraction of the least entry. `wrap` is any line count of at least one.
- SVG, HTML and CSS output, fonts, sequence diagrams, `key_position` and `rounded_path`.
- Argument parsing, JSON decoding and messages of the stamp script; each file write is one step, and tokens are taken to be fresh.
- The baseline comparison and the freshness re-check in the main function of the branch-coverage check, and the stamping of scoped reports.
- A child lost between spawn and append, wall-clock deadlines (a poll loop may end after any number of polls), the environment and command lines of the lanes, and `classify_caller_seat`.
- Loading and writing of shard definitions and manifests (`shlex`, JSON, files).
- Git, the coverage tool and the disk in the selector: their answers are inputs. Messages and notes are not kept.
- Migrations 040, 042 to 045, 047 to 050, 052 and 061; table, index and stage-control changes of 046 and 051; columns no delete or update reads.
- `_parse_answers_from_summary`, human turns, bead mentions and reports in the decision-recovery script.
- `_iter_windows`: the expected number of windows is any number. Tiers are filtered by the caller.
- Float rounding in window bounds and counter samples.
