# Crazy Robotaxi and its sibling rollouts, modelled and proved

This project models the logic of the Crazy Robotaxi game (road routing, taxi and race rules, leaderboards, device
controls, settings, vehicle response, and the protocol between its UI thread and its model thread) and of two sibling
applications (sessions of `action2v` sharing one pipeline, and the replay-to-live camera of `cam2v`), and proves what
they promise. `dafny verify dfyconfig.toml` checks everything.

Loops and objects of the original are methods and classes proved against specification functions; expressions are
functions. Floating-point numbers are reals, with the program's own tolerances (1e-9, 1e-6, 1e-4, 1e-12) as named
constants.

Where to read first:

| file | subject |
|---|---|
| LaneGraphs, ShortestTree, Shortcuts, Routes, RoutingSlack | the road search from a position part-way along a lane: termination, optimality up to its slack, path reconstruction, agreement of its two queries |
| EndpointIndex | the spatial hash that builds the lane graph |
| EarClipping, SimplePolygons, PolygonParity, PolygonChords, TwoEars | the triangulation of parking areas: area, failure, and by the two ears theorem its exact domain |
| HudState, HudProtocol, HudLoading, HudEscape, HudRollout | the two threads and their mailboxes: which game's frames can be shown, when a loading screen can hang, where Escape leads, how a rollout is numbered |
| TaxiRules, TaxiChoices, TaxiController, Race, Passengers | the rules as state machines over pose streams, their ledgers, choices, gates and visibility intervals |
| Text, Ranking, Leaderboards | names as they are accepted, and truncated boards that stand for the whole history |
| Bindings, Controls, ControlsDocument | rebinding by swap, and sparse control files |
| SettingsTree, SettingsDocument, SettingsLoading | the typed settings tree, its sparse document, its normalisation, and what loading accepts |
| Dynamics, Response, SegmentClipping | frame-rate independence of braking, steering and speed, and the rates of each command; clipping of marker lines |
| ActionInput, SharedPipeline, CameraReplay | isolation of sessions, and the camera's hand-off from recorded to live poses |

Where the program departs from its own description, the model follows the program:

- Routes are documented as shortest. Relaxation ignores improvements below 1e-9 m, so a route can be longer than the
  shortest one by less than 1e-9 m per lane (`RoutingSlack.ShorterWayIgnored`, `Routes.RouteIsNearOptimal`). All maps
  measured in whole multiples of a length are searched exactly if and only if that length is above 1e-9 m, however many
  lanes they have (`RoutingSlack.ExactAboveSlack`); then routes are shortest (`RoutingSlack.WholeRouteIsShortest`).
- A race looks its recorded entry up by equality, so the same result recorded twice with one time stamp reports the
  first copy's rank (`Leaderboards.RecordedRankAgrees`, `Leaderboards.RepeatedTimeMisranked`). The taxi board looks it
  up by identity and is right.
- While a second game is loading, a late frame of the first can reopen the game screen; pressing Escape there strands
  the user on a loading screen (`HudLoading.StrandedReachable`, `HudLoading.StrandedForever`). Runs that leave a game
  only when no selection is pending never get there (`HudLoading.CarefulRunsLoad`); where such a run first leaves one
  with a selection pending, `HudLoading.CarelessEscapeStrands` says exactly when the delivery of what has been sent
  strands the user.
- The newest-frame record is not cleared by an activation, so it can belong to a game other than the activated one
  (`HudLoading.NewestOutlivesItsGame`), though never under the same epoch (`HudProtocol.SameEpochSameGame`).
- Triangulating a simple clockwise polygon is documented to preserve its full area. The containment test leaves out
  vertices whose cross product with a side is within 1e-4, so such a polygon can get an inverted triangle and three
  times its area as sampling weight, or be rejected (`EarClipping.ShallowVertexInverts`,
  `EarClipping.ShallowVerticesFail`). Of the simple polygons all of whose vertex triples are clear of that tolerance,
  exactly the clockwise ones are right (`TwoEars.RightIffClockwise`), and no smaller clearance would do
  (`TwoEars.LeastClearance`). Clear of it or not, convex polygons are right (`EarClipping.ConvexSucceeds`), and a
  simple clockwise quadrilateral is wrong exactly when its third vertex is reflex and some corner is inside the
  tolerance (`EarClipping.SimpleOneReflex`, `EarClipping.QuadrilateralWeights`).
- Throttle against the direction of travel, and the tapered manual throttle, depend on the frame rate, under exactly
  the conditions of `Dynamics.DrivingComposes` and, over all cuts of a time, `Dynamics.SubdivisionIsIrrelevant`
  (`Dynamics.TaperDependsOnFrames` is an instance).
- Saving settings fails when an optional object that the defaults leave out has been filled in
  (`SettingsTree.FailsWhenObjectAppears`, `SettingsDocument.FittedPartIsNotSaved`). If that object has no settings it
  is dropped silently, and one that disappears makes a file that cannot be loaded
  (`SettingsTree.UnseenObjectIsDropped`, `SettingsTree.UnseenObjectIsUnreadable`).
- The pose integrator accepts a last frame up to 1e-9 s beyond its segments and yields no pose for it; a chunk all of
  whose frames lie there ends in an error with the camera already moved (`CameraReplay.AcceptedChunkPoses`,
  `CameraReplay.LateFrameWithoutPose`).

## Model

| member | source | states |
|---|---|---|
| ShortestTree.ComputeTree | apps/crazy_robotaxi/crazy_robotaxi/navigation.py:687-717 | the heap loop over distance and predecessor arrays ends, with exactly the tree of the specification |
| ShortestTree.HeapPop | apps/crazy_robotaxi/crazy_robotaxi/navigation.py:702-705 | the popped entry is a least one and the rest of the heap is kept |
| ShortestTree.RelaxLane | apps/crazy_robotaxi/crazy_robotaxi/navigation.py:707-716 | one lane's continuations update both arrays as relaxation prescribes, leaving every other lane alone |
| ShortestTree.TakeTurn | apps/crazy_robotaxi/crazy_robotaxi/navigation.py:702-716 | one turn of the loop is one turn of the specification, stale entries included |
| ShortestTree.TurnKeeps | apps/crazy_robotaxi/crazy_robotaxi/navigation.py:702-716 | every turn keeps the search invariant and shrinks a variant, so a lane once expanded is never improved again |
| ShortestTree.FirstPopExact | apps/crazy_robotaxi/crazy_robotaxi/navigation.py:703-706 | a lane's first unstale pop carries exactly its current distance |
| ShortestTree.TreeFinishes | apps/crazy_robotaxi/crazy_robotaxi/navigation.py:687-717 | from any start on any graph the queue empties, and then every edge is relaxed up to the slack |
| ShortestTree.NoCheaperWalk | apps/crazy_robotaxi/crazy_robotaxi/navigation.py:710-713 | no walk of k edges is cheaper than the distance found by more than (k-1) times 1e-9, and a walked-to lane is finite |
| Shortcuts.ShortWalk | apps/crazy_robotaxi/crazy_robotaxi/navigation.py:687-717 | some walk of at most as many edges as there are lanes is no dearer than a given walk |
| Shortcuts.NearOptimal | apps/crazy_robotaxi/crazy_robotaxi/navigation.py:687-717 | whatever the length of a walk, the distance found exceeds its cost by less than 1e-9 per lane of the map |
| RoutingSlack.ShorterWayIgnored | apps/crazy_robotaxi/crazy_robotaxi/navigation.py:710-713 | the routing documentation's "shortest" fails on a concrete map: a way shorter by half a nanometre is not taken |
| RoutingSlack.ForkKeepsLonger | apps/crazy_robotaxi/crazy_robotaxi/navigation.py:710-713 | and so on every such fork in which the longer of two ways is met first and is longer by at most 1e-9 |
| RoutingSlack.WholeGraphIsExact | apps/crazy_robotaxi/crazy_robotaxi/navigation.py:687-717 | on maps measured in whole quanta above 1e-9 no walk of any length is cheaper than the distance found: no slack accumulates |
| RoutingSlack.ExactAboveSlack | apps/crazy_robotaxi/crazy_robotaxi/navigation.py:687-717 | every map and walk in whole multiples of a quantum is searched exactly iff the quantum is above 1e-9 |
| RoutingSlack.WholeRouteIsShortest | apps/crazy_robotaxi/crazy_robotaxi/navigation.py:538-573 | on such maps the planned route is no longer than any walk to any anchor and any direct drive |
| Routes.PathIsWalk | apps/crazy_robotaxi/crazy_robotaxi/navigation.py:687-717 | the recorded predecessors of a reached lane spell a legal walk from the start whose cost is the distance, the start lane re-entered through a cycle included |
| Routes.ReachedIffWalk | apps/crazy_robotaxi/crazy_robotaxi/navigation.py:687-717 | a lane has a finite distance if and only if some walk reaches it |
| Routes.ReconstructPath | apps/crazy_robotaxi/crazy_robotaxi/navigation.py:719-737 | following predecessors ends at the start within its fuel for every reached lane, and yields the recorded path |
| Routes.Route | apps/crazy_robotaxi/crazy_robotaxi/navigation.py:538-573 | the route query returns the specified plan, or none |
| Routes.RouteDistances | apps/crazy_robotaxi/crazy_robotaxi/navigation.py:575-608 | the distance query returns for every destination the specified distance, or infinity |
| Routes.QueriesAgree | apps/crazy_robotaxi/crazy_robotaxi/navigation.py:538-608 | the two queries agree: no plan exactly at infinite distance, otherwise the plan's length is the distance |
| Routes.RouteIsLegal | apps/crazy_robotaxi/crazy_robotaxi/navigation.py:538-573 | a returned plan is an adjacency walk to an anchor, and its pieces add up to its stated length |
| Routes.RouteIsComplete | apps/crazy_robotaxi/crazy_robotaxi/navigation.py:538-573 | no route is returned iff every anchor is on another lane than the car or behind it, and no walk reaches any |
| Routes.RouteBeatsStraight | apps/crazy_robotaxi/crazy_robotaxi/navigation.py:552-561 | a route is no longer than the rest of the lane to any anchor ahead of the car on it |
| Routes.OneLaneRoute | apps/crazy_robotaxi/crazy_robotaxi/navigation.py:552-568 | a route of one lane leads forward to an anchor ahead on it and is as long as the way between the two |
| Routes.StraightOnTies | apps/crazy_robotaxi/crazy_robotaxi/navigation.py:566-567 | between the way straight ahead and a walk of the same length to one anchor, the first is taken |
| Routes.FirstNearestAnchor | apps/crazy_robotaxi/crazy_robotaxi/navigation.py:573-573 | the route to several anchors is the one to the first of those nearest |
| Routes.RouteIsNearOptimal | apps/crazy_robotaxi/crazy_robotaxi/navigation.py:538-573 | a returned plan is no longer than any alternative to any anchor, but for less than 1e-9 per lane |
| EndpointIndex.FileStarts | apps/crazy_robotaxi/crazy_robotaxi/navigation.py:630-639 | every lane is filed in exactly the bucket of its start cell |
| EndpointIndex.ScanBucket | apps/crazy_robotaxi/crazy_robotaxi/navigation.py:640-663 | the scan of a bucket collects exactly that bucket's lanes within the tolerance |
| EndpointIndex.Connect | apps/crazy_robotaxi/crazy_robotaxi/navigation.py:640-663 | scanning the 3x3 block of cells gives exactly the all-pairs continuations, sorted and without repeats |
| EndpointIndex.BlockSuffices | apps/crazy_robotaxi/crazy_robotaxi/navigation.py:640-663 | every lane within the tolerance starts in the 3x3 block around the end, for any distance that dominates both coordinates |
| EndpointIndex.AscendingUnique | apps/crazy_robotaxi/crazy_robotaxi/navigation.py:661-663 | strictly ascending continuation lists with the same elements are equal, so the sorted set is determined |
| EndpointIndex.BruteForceMeaning | apps/crazy_robotaxi/crazy_robotaxi/navigation.py:630-663 | the all-pairs reference: an edge is listed iff the lanes differ and the gap is within the tolerance |
| EndpointIndex.BuildAdjacency | apps/crazy_robotaxi/crazy_robotaxi/navigation.py:610-663 | authored successors are taken as they are, otherwise the hash gives what testing all pairs gives |
| EndpointIndex.LinksWithinTolerance | apps/crazy_robotaxi/crazy_robotaxi/navigation.py:624-662 | unless every lane names its successors, a lane is linked to exactly the others whose start lies within tolerance of its end, at that distance |
| EndpointIndex.NamedSuccessors | apps/crazy_robotaxi/crazy_robotaxi/navigation.py:610-623 | otherwise to the lanes its successors' names stand for (the last of a name), in order and without a gap; unknown names are passed over |
| EndpointIndex.AdjacencyIsValid | apps/crazy_robotaxi/crazy_robotaxi/navigation.py:610-663 | the graph built satisfies what the search requires |
| EarClipping.Triangulate | apps/crazy_robotaxi/crazy_robotaxi/navigation.py:27-67 | the vertex-popping loop computes the specified triangulation, or fails with it |
| EarClipping.FindRemovable | apps/crazy_robotaxi/crazy_robotaxi/navigation.py:42-61 | the scan finds the first vertex that is flat or an empty ear |
| EarClipping.ContainsVertex | apps/crazy_robotaxi/crazy_robotaxi/navigation.py:50-56 | the ear test is exact: some other vertex lies inside the candidate triangle or none does |
| EarClipping.AreaConserved | apps/crazy_robotaxi/crazy_robotaxi/navigation.py:27-67 | twice the signed area is the sum of the triangles' crosses plus the crosses of the dropped vertices |
| EarClipping.MeshShape | apps/crazy_robotaxi/crazy_robotaxi/navigation.py:27-67 | triangles and drops number n-2, drops are near-flat, all triangles but the last are properly clockwise, corners come from the polygon |
| EarClipping.AreaError | apps/crazy_robotaxi/crazy_robotaxi/navigation.py:27-67 | the area of the triangles is off by at most 1e-4 per dropped vertex, at most n-3 of them |
| EarClipping.SamplingWeights | apps/crazy_robotaxi/crazy_robotaxi/navigation.py:380-392 | the absolute weights used for sampling add up to the area (but for drops) iff the last triangle is not counter-clockwise; the rows below say for which polygons |
| EarClipping.ConvexSucceeds | apps/crazy_robotaxi/crazy_robotaxi/navigation.py:27-67 | a polygon none of whose vertex triples turns counter-clockwise is triangulated as a fan of clockwise triangles about its last vertex, and its sampling weights are its area but for drops |
| EarClipping.BackwardsFails | apps/crazy_robotaxi/crazy_robotaxi/navigation.py:42-64 | a convex polygon given counter-clockwise is rejected |
| EarClipping.RightWeightsAreClockwise | apps/crazy_robotaxi/crazy_robotaxi/navigation.py:380-392 | right weights imply a clockwise polygon, but for 1e-4 per possible drop |
| EarClipping.SimpleOneReflex | apps/crazy_robotaxi/crazy_robotaxi/navigation.py:27-28 | a simple clockwise quadrilateral has at most one reflex corner |
| EarClipping.QuadrilateralWeights | apps/crazy_robotaxi/crazy_robotaxi/navigation.py:27-67 | a quadrilateral with at most one reflex corner is never rejected, and its weights are wrong iff the third vertex is reflex and some corner within the tolerance lets the first be popped |
| EarClipping.ShallowVertexInverts | apps/crazy_robotaxi/crazy_robotaxi/navigation.py:50-61 | "preserving its full area" fails: a simple clockwise quadrilateral of area 25 gets triangles weighing 75, the last of them counter-clockwise |
| EarClipping.ShallowVerticesFail | apps/crazy_robotaxi/crazy_robotaxi/navigation.py:50-64 | a simple clockwise pentagon that the triangulation rejects |
| SimplePolygons.PoppedIffBlank | apps/crazy_robotaxi/crazy_robotaxi/navigation.py:42-61 | of a polygon all of whose vertex triples are clear of the tolerance, exactly the clockwise corners with no vertex within are popped |
| SimplePolygons.RestSimple | apps/crazy_robotaxi/crazy_robotaxi/navigation.py:42-61 | popping such a corner leaves a simple polygon |
| SimplePolygons.RestTurns | apps/crazy_robotaxi/crazy_robotaxi/navigation.py:42-61 | and one that turns as often round |
| TwoEars.AreaTells | apps/crazy_robotaxi/crazy_robotaxi/navigation.py:27-28 | what "simple clockwise" means: every simple polygon without three vertices on one line turns exactly once round, clockwise iff its signed area is negative |
| TwoEars.ClockwiseSucceeds | apps/crazy_robotaxi/crazy_robotaxi/navigation.py:27-67 | the two ears theorem at work: a simple clockwise polygon clear of the tolerance, of any number of vertices, is never rejected |
| TwoEars.RightIffClockwise | apps/crazy_robotaxi/crazy_robotaxi/navigation.py:27-67 | for every simple polygon clear of the tolerance, triangulation succeeds with sampling weights adding up exactly to the area iff the polygon is clockwise |
| TwoEars.LeastClearance | apps/crazy_robotaxi/crazy_robotaxi/navigation.py:50-56 | and the tolerance of the containment test is the least clearance of which that is so |
| HudState.TaxiHudState.Publish | apps/crazy_robotaxi/crazy_robotaxi/ui.py:491-499 | a batch of frames enters the lookup newest last, at most 64 stay, keys stay unique |
| HudState.PublishedIsFound | apps/crazy_robotaxi/crazy_robotaxi/ui.py:491-512 | each of the last 64 frames of a batch is found under its tensor's address |
| HudState.TaxiHudState.SelectPresentedFrame | apps/crazy_robotaxi/crazy_robotaxi/ui.py:501-536 | menus ignore frames; a known frame becomes current and opens the game screen |
| HudState.TaxiHudState.ActivateScene | apps/crazy_robotaxi/crazy_robotaxi/ui.py:715-719 | activation drops all frames and shows loading, keeping the newest-frame record |
| HudState.TaxiHudState.Reset | apps/crazy_robotaxi/crazy_robotaxi/ui.py:1914-1928 | a reset drops frames, the newest-frame record and the exit request |
| HudState.TaxiHudState.HandleEscape | apps/crazy_robotaxi/crazy_robotaxi/ui.py:745-781 | what Escape does on every screen and which message it queues |
| HudEscape.EscapesReachRoot | apps/crazy_robotaxi/crazy_robotaxi/ui.py:745-781 | from every screen but the loading one a number of Escapes given by the screen leads to the root menu and no fewer do; menus send nothing to the model |
| HudEscape.EscapeWaits | apps/crazy_robotaxi/crazy_robotaxi/ui.py:745-781 | on the loading screen Escape changes nothing |
| HudEscape.MenusAndBack | apps/crazy_robotaxi/crazy_robotaxi/ui.py:745-813 | every menu can be opened from the root, and as many Escapes as there were moves undo the way completely |
| HudEscape.ExitEnds | apps/crazy_robotaxi/crazy_robotaxi/session.py:225-227 | after Escape on the root menu of any state, however deliveries, frames and steps interleave, the model obeys the exit last: it is finished and takes no step any more |
| HudEscape.LeavingDeselects | apps/crazy_robotaxi/crazy_robotaxi/session.py:216-223 | after Escape from a game likewise no game is left selected |
| HudEscape.ChoiceStands | apps/crazy_robotaxi/crazy_robotaxi/session.py:151-191 | after a choice of game likewise that game is selected |
| HudEscape.RestartRenews | apps/crazy_robotaxi/crazy_robotaxi/session.py:293-296 | a restart is never lost: whatever else happens, once the model has obeyed it a later epoch has begun |
| HudState.ModelState.Select | apps/crazy_robotaxi/crazy_robotaxi/session.py:151-191 | a wrong course is an error that posts nothing, a map that does not load one after the first status; otherwise the game is selected, the epoch opened, and status, activation and the preparation's statuses posted in that order |
| HudState.ModelState.ReturnToMapMenu | apps/crazy_robotaxi/crazy_robotaxi/session.py:216-223 | returning deselects the game and resets |
| HudState.ModelState.Restart | apps/crazy_robotaxi/crazy_robotaxi/session.py:293-296 | a restart resets the rollout and posts a HUD reset |
| HudState.ModelState.Reset | apps/crazy_robotaxi/crazy_robotaxi/session.py:272-291 | a reset opens a new epoch and clears the block count |
| HudState.ModelState.Step | apps/crazy_robotaxi/crazy_robotaxi/session.py:332-512 | a step posts nothing without a game; otherwise an optional restart and one batch of frames labelled with the current epoch |
| HudRollout.ChoiceInOrder | apps/crazy_robotaxi/crazy_robotaxi/session.py:151-168 | a selection succeeds iff a race names a course of its map, another game none, and the map loads; which error comes otherwise |
| HudRollout.BlocksAreNumbered | apps/crazy_robotaxi/crazy_robotaxi/session.py:440-520 | in every rollout blocks are numbered from 0 and published under its epoch, frames in order, steps without a block under -1; it finishes with its last block |
| HudRollout.RestartBegins | apps/crazy_robotaxi/crazy_robotaxi/session.py:440-520 | a restart opens a new rollout and announces it before the block |
| HudRollout.NewestFrame | apps/crazy_robotaxi/crazy_robotaxi/ui.py:491-536 | the newest-frame record holds the last frame of the last block handled since the last reset |
| HudProtocol.FramesFollowActivation | apps/crazy_robotaxi/crazy_robotaxi/session.py:272-296 | under every interleaving of UI steps, model steps and FIFO deliveries, all frames held or shown belong to the last activated selection and to no epoch before the last reset or activation handled |
| HudProtocol.FramesInvStep | flashdreams/flashdreams/api_v2/loop.py:276-296 | each single step of either thread keeps the invariant on held frames and messages in flight |
| HudProtocol.ShownIsRequested | apps/crazy_robotaxi/crazy_robotaxi/ui.py:501-536 | what is shown is the game last asked for iff that request has been activated |
| HudProtocol.SameEpochSameGame | apps/crazy_robotaxi/crazy_robotaxi/ui.py:491-536 | in every reachable state, if the newest-frame record and the last activation carry one epoch they belong to one game |
| HudLoading.NewestOutlivesItsGame | apps/crazy_robotaxi/crazy_robotaxi/ui.py:491-536 | that epochs must agree: a reachable state has a newest-frame record of a game other than the activated one |
| HudLoading.OldGameReappears | apps/crazy_robotaxi/crazy_robotaxi/ui.py:501-536 | a reachable state shows a frame of the game just left while the next is loading |
| HudLoading.StrandedReachable | apps/crazy_robotaxi/crazy_robotaxi/ui.py:745-781 | leaving that screen reaches a loading screen that no selected game stands behind |
| HudLoading.StrandedForever | apps/crazy_robotaxi/crazy_robotaxi/ui.py:745-781 | no further step of user or threads leads out of such a loading screen |
| HudLoading.LoadingInvStep | apps/crazy_robotaxi/crazy_robotaxi/session.py:151-191 | every careful step keeps at most one selection under way and every loading screen backed by a game |
| HudLoading.CarefulRunsLoad | apps/crazy_robotaxi/crazy_robotaxi/ui.py:745-781 | if Escape leaves a game only when no selection is pending, a loading screen always has a game behind it |
| HudLoading.CarelessEscapeStrands | apps/crazy_robotaxi/crazy_robotaxi/ui.py:745-781 | conversely, leaving a game can strand the user by message deliveries alone iff a selection is pending and no frame of it will be left when all is delivered |
| HudLoading.UnhandledChoiceStrands | apps/crazy_robotaxi/crazy_robotaxi/session.py:151-191 | in particular it does whenever the model has not yet come to the pending selection |
| Ranking.SortedAscends | apps/crazy_robotaxi/crazy_robotaxi/high_scores.py:201-206 | the sort orders by result, then by time stamp |
| Ranking.SortedPermutes | apps/crazy_robotaxi/crazy_robotaxi/high_scores.py:201-206 | the sort loses and invents nothing |
| Ranking.SortedIsStable | apps/crazy_robotaxi/crazy_robotaxi/high_scores.py:201-206 | entries with equal keys keep their order |
| Ranking.TopPlace | apps/crazy_robotaxi/crazy_robotaxi/high_scores.py:156-171 | truncating before adding one more entry does not change the truncated result |
| Leaderboards.SubmittedIsTop | apps/crazy_robotaxi/crazy_robotaxi/high_scores.py:127-171 | a submission equals sorting and truncating iff it is not the one tie with an earlier stamp on a full board |
| Leaderboards.ProspectiveIsRecorded | apps/crazy_robotaxi/crazy_robotaxi/high_scores.py:127-171 | the prospective rank is the position the entry takes, all others keeping their order; no rank means no change |
| Leaderboards.KeptIsTopOfHistory | apps/crazy_robotaxi/crazy_robotaxi/high_scores.py:136-171 | for every history in time order the truncated board equals the truncated sort of the whole history |
| Leaderboards.HighScoreStore.Read | apps/crazy_robotaxi/crazy_robotaxi/high_scores.py:173-206 | reading ignores non-positive scores, sorts and truncates |
| Leaderboards.HighScoreStore.QualifyingRank | apps/crazy_robotaxi/crazy_robotaxi/high_scores.py:127-134 | the rank a score would take, none for non-positive or turned-away scores |
| Leaderboards.HighScoreStore.Record | apps/crazy_robotaxi/crazy_robotaxi/high_scores.py:136-171 | an invalid name is an error that changes nothing; otherwise recording rewrites the file to the submitted board and reports the inserted entry |
| Leaderboards.TaxiBoardIsTopOfHistory | apps/crazy_robotaxi/crazy_robotaxi/high_scores.py:136-171 | from an empty file the recorded board is the best of everything recorded |
| Leaderboards.ScoreBoardIs | apps/crazy_robotaxi/crazy_robotaxi/high_scores.py:201-206 | the taxi board lists positive scores of the file, higher first and of equals the earlier, and leaves out none that is better |
| Leaderboards.ReadBack | apps/crazy_robotaxi/crazy_robotaxi/high_scores.py:173-206 | a written board reads back unchanged |
| Leaderboards.PreviewIsRecorded | apps/crazy_robotaxi/crazy_robotaxi/ui.py:4387-4409 | the previewed terminal board is the board that will be recorded, but for the blank row itself |
| Leaderboards.RaceTimeStore.Read | apps/crazy_robotaxi/crazy_robotaxi/high_scores.py:278-281 | reading gives the course's own board |
| Leaderboards.RaceTimeStore.QualifyingRank | apps/crazy_robotaxi/crazy_robotaxi/high_scores.py:283-292 | the rank a time would take on its course |
| Leaderboards.RaceTimeStore.Record | apps/crazy_robotaxi/crazy_robotaxi/high_scores.py:294-329 | invalid identifiers, then an invalid name, are errors that change nothing; otherwise the time is recorded on its own course's board as submitted and every other board is as it was |
| Leaderboards.RaceBoardsAreTopOfHistory | apps/crazy_robotaxi/crazy_robotaxi/high_scores.py:294-398 | for every history of times in time order, its courses interleaved in any way, each course's board is the best of all that course's positive times |
| Leaderboards.RaceBoardIs | apps/crazy_robotaxi/crazy_robotaxi/high_scores.py:375-390 | a course board lists times of that map and course, faster first and of equals the earlier, and leaves out none that is faster |
| Leaderboards.FileIsOrdered | apps/crazy_robotaxi/crazy_robotaxi/high_scores.py:392-398 | the trimmed race file is grouped by map and course in ascending order |
| Leaderboards.RaceRecordedBoard | apps/crazy_robotaxi/crazy_robotaxi/high_scores.py:294-329 | one recorded time changes its own course's board to the submitted one and no other |
| Leaderboards.ReportedIfChanged | apps/crazy_robotaxi/crazy_robotaxi/high_scores.py:294-329 | recording reports the entry exactly when it changes the board of its course |
| Leaderboards.TrimKeepsBoards | apps/crazy_robotaxi/crazy_robotaxi/high_scores.py:375-398 | trimming the whole file changes no course's board |
| Leaderboards.RecordedRankAgrees | apps/crazy_robotaxi/crazy_robotaxi/race.py:301-318 | the rank found by equality is the promised rank iff no identical entry was already there |
| Leaderboards.RepeatedTimeMisranked | apps/crazy_robotaxi/crazy_robotaxi/race.py:301-318 | with an identical entry present the reported rank is another one |
| Text.AcceptedReadsBack | apps/crazy_robotaxi/crazy_robotaxi/high_scores.py:59-79 | an accepted name or identifier is accepted, unchanged, when it is read back |
| Text.NameAccepted | apps/crazy_robotaxi/crazy_robotaxi/high_scores.py:59-78 | a text is accepted as a name iff what its outer white space leaves is 1 to 12 letters, digits, blanks, underscores or hyphens, and that is the name |
| Text.IdAccepted | apps/crazy_robotaxi/crazy_robotaxi/high_scores.py:400-404 | an identifier is accepted iff it is not all white space, and is what the outer white space leaves |
| Bindings.CanonicalIdempotent | apps/crazy_robotaxi/crazy_robotaxi/controls.py:505-518 | canonical key names are fixed points |
| Bindings.FitsMeaning | apps/crazy_robotaxi/crazy_robotaxi/controls.py:938-972 | a binding survives its document form iff it has the listed canonical shape for its device and kind |
| Bindings.ParsedFits | apps/crazy_robotaxi/crazy_robotaxi/controls.py:882-923 | whatever parses is a binding validation accepts |
| Bindings.ParsedIffSpelt | apps/crazy_robotaxi/crazy_robotaxi/controls.py:882-923 | a document entry parses to a binding exactly when the binding fits the action and the entry is a form of it: a key in any spelling, a button, an axis with its defaults written or left out, and no other key |
| Bindings.KindsDisjoint | apps/crazy_robotaxi/crazy_robotaxi/controls.py:938-972 | off the keyboard no binding fits both a scalar and a steering action |
| Bindings.CapturedFits | apps/crazy_robotaxi/crazy_robotaxi/controls.py:750-819 | every captured input fits the action it was captured for |
| Bindings.CapturedIsPressed | apps/crazy_robotaxi/crazy_robotaxi/controls.py:750-819 | what is captured is a binding whose value in the captured input is at least half and was less before: the right button or axis in the right direction, steering inverted when pushed the other way |
| Bindings.NothingPressedUncaptured | apps/crazy_robotaxi/crazy_robotaxi/controls.py:764-784 | on a gamepad nothing is captured only if no fitting binding has just been pressed |
| Bindings.KeyAliases | apps/crazy_robotaxi/crazy_robotaxi/controls.py:505-518 | the second names of keys, in any capitals and blanks |
| Bindings.CaseIsIgnored | apps/crazy_robotaxi/crazy_robotaxi/controls.py:505-518 | spellings that differ only in capitals name the same key |
| Bindings.KeyKeepsName | apps/crazy_robotaxi/crazy_robotaxi/controls.py:505-518 | every other plain name is its own |
| Controls.UpdateBinding | apps/crazy_robotaxi/crazy_robotaxi/controls.py:675-707 | bad slots and unknown actions are errors; otherwise the specified rebinding |
| Controls.ReboundIsSwap | apps/crazy_robotaxi/crazy_robotaxi/controls.py:675-707 | rebinding changes the chosen place and, on a conflict, exactly the other place, which gets the old binding |
| Controls.ReboundKeepsValid | apps/crazy_robotaxi/crazy_robotaxi/controls.py:675-707 | rebinding with a fitting input keeps uniqueness and kinds |
| Controls.ReboundConserves | apps/crazy_robotaxi/crazy_robotaxi/controls.py:675-707 | on a conflict the multiset of all bindings is conserved; otherwise the new one replaces the old |
| Controls.DraftsStayValid | apps/crazy_robotaxi/crazy_robotaxi/controls.py:750-819 | no sequence of captures and clears leaves valid settings |
| Controls.EditTakesEffect | apps/crazy_robotaxi/crazy_robotaxi/controls.py:750-819 | an edit leaves exactly what was captured, or nothing, in its place, and takes away no other binding |
| ControlsDocument.FindRepeat | apps/crazy_robotaxi/crazy_robotaxi/controls.py:838-868 | the scan for a repeated binding is exact and collects the bindings seen |
| ControlsDocument.ValidateControls | apps/crazy_robotaxi/crazy_robotaxi/controls.py:938-972 | validation accepts exactly two fitting slots per action with no binding used twice |
| ControlsDocument.ParseAll | apps/crazy_robotaxi/crazy_robotaxi/controls.py:822-850 | a document parses iff every key is an action and every value parses |
| ControlsDocument.OverlayControls | apps/crazy_robotaxi/crazy_robotaxi/controls.py:822-879 | loading a document gives the specified overlay, or an error with it |
| ControlsDocument.LoadsExactly | apps/crazy_robotaxi/crazy_robotaxi/controls.py:822-879 | a document loads iff it parses without repeats; the result is valid, keeps everything authored and drops a default only where it was claimed elsewhere |
| ControlsDocument.VersionDecides | apps/crazy_robotaxi/crazy_robotaxi/controls.py:436-443 | a file of version 1 or without a version is loaded alike, any other is refused |
| ControlsDocument.SaveLoadRoundTrip | apps/crazy_robotaxi/crazy_robotaxi/controls.py:447-459 | the sparse file of any valid settings loads back to them |
| ControlsDocument.SyncMapping | apps/crazy_robotaxi/crazy_robotaxi/controls.py:1094-1102 | the in-place sync makes any old mapping equal the desired one |
| ControlsDocument.ControlsFile.Save | apps/crazy_robotaxi/crazy_robotaxi/controls.py:447-479 | an invalid draft changes nothing; a saved one loads back |
| SettingsTree.ReadsBack | apps/crazy_robotaxi/crazy_robotaxi/settings.py:621-801 | any well-typed value without hidden parts is read back from its document form, whatever was there before |
| SettingsLoading.LoadedConforms | apps/crazy_robotaxi/crazy_robotaxi/settings.py:621-801 | whatever a document node is read as has the declared type, all the way down |
| SettingsLoading.ObjectIsOverlaid | apps/crazy_robotaxi/crazy_robotaxi/settings.py:581-618 | an object is read only from a document that names settings of it alone, and every field not named stays as it was |
| SettingsLoading.ListIsOverlaid | apps/crazy_robotaxi/crazy_robotaxi/settings.py:722-745 | a list of objects is read place by place: what an object leaves out keeps the value of the present object in that place, and has the class default beyond them |
| SettingsLoading.MapIsOverlaid | apps/crazy_robotaxi/crazy_robotaxi/settings.py:754-774 | a map of objects likewise, key by key |
| SettingsLoading.PathIsLocated | apps/crazy_robotaxi/crazy_robotaxi/settings.py:708-714 | a relative path is taken from the document's directory, an absolute one as it stands; once written it is the same from anywhere |
| SettingsLoading.TypeNames | apps/crazy_robotaxi/crazy_robotaxi/settings.py:715-721 | a data type is read alike under its short and its full name, and written under the short one |
| SettingsLoading.FileGivesValidTree | apps/crazy_robotaxi/crazy_robotaxi/settings.py:429-478 | a settings file that is loaded gives a tree of the declared types that passes validation |
| SettingsTree.SettingRestored | apps/crazy_robotaxi/crazy_robotaxi/settings.py:877-898 | what is written of a setting reads back to it over its default iff nothing but settings has changed in it; an unchanged one is not written |
| SettingsTree.DifferencesRestore | apps/crazy_robotaxi/crazy_robotaxi/settings.py:581-618 | overlaying the recursive differences on the defaults restores the tree iff every field that is not a setting on both sides is the same on both |
| SettingsTree.FailsWhenObjectAppears | apps/crazy_robotaxi/crazy_robotaxi/settings.py:877-898 | writing the differences fails iff an object with settings appears where the defaults have none |
| SettingsTree.AppearingObjectFails | apps/crazy_robotaxi/crazy_robotaxi/settings.py:877-898 | a concrete tree in which it does |
| SettingsTree.UnseenObjectIsDropped | apps/crazy_robotaxi/crazy_robotaxi/settings.py:877-898 | an object without settings that appears is not written, and no error is raised |
| SettingsTree.UnseenObjectIsUnreadable | apps/crazy_robotaxi/crazy_robotaxi/settings.py:590-600 | one that disappears is written in a document that cannot be loaded |
| SettingsDocument.PutGet | apps/crazy_robotaxi/crazy_robotaxi/settings.py:804-819 | reading a replaced path gives the value put there |
| SettingsDocument.GetPut | apps/crazy_robotaxi/crazy_robotaxi/settings.py:804-819 | putting back what was read changes nothing |
| SettingsDocument.PutPut | apps/crazy_robotaxi/crazy_robotaxi/settings.py:804-811 | of two replacements at one path the last counts |
| SettingsDocument.PutElsewhere | apps/crazy_robotaxi/crazy_robotaxi/settings.py:804-819 | a replacement leaves every path apart from it unchanged |
| SettingsDocument.NormalizedReads | apps/crazy_robotaxi/crazy_robotaxi/settings.py:534-551 | normalising sets the two dependent flags and changes nothing else |
| SettingsDocument.FeaturesFollowItems | apps/crazy_robotaxi/crazy_robotaxi/settings.py:534-556 | after normalising, style is on iff it was or mystery items are spawned, weather iff it was or rain or snow items are, and every other setting is as before |
| SettingsDocument.NormalizedIsFixed | apps/crazy_robotaxi/crazy_robotaxi/settings.py:534-551 | normalising is idempotent |
| SettingsDocument.NothingRetiredIsWritten | apps/crazy_robotaxi/crazy_robotaxi/settings.py:526-531 | a written document has no retired key for loading to drop |
| SettingsDocument.RetiredIsIgnored | apps/crazy_robotaxi/crazy_robotaxi/settings.py:526-531 | a file with the retired key is read like the one without it |
| SettingsDocument.VersionDecides | apps/crazy_robotaxi/crazy_robotaxi/settings.py:455-467 | a file of version 1 or without a version is loaded alike, any other is refused |
| SettingsDocument.SaveLoadRoundTrip | apps/crazy_robotaxi/crazy_robotaxi/settings.py:429-504 | loading a saved file gives the normalised settings, when only settings have changed |
| SettingsDocument.SyncMapping | apps/crazy_robotaxi/crazy_robotaxi/settings.py:940-952 | the recursive sync makes any old document equal the desired one |
| SettingsDocument.SettingsFile.Save | apps/crazy_robotaxi/crazy_robotaxi/settings.py:497-523 | saving succeeds iff the normalised draft is valid and no object with settings has appeared; then the document holds the differences and loads back to what is held if only settings have changed; otherwise nothing changes |
| SettingsDocument.AppearingObjectIsNotSaved | apps/crazy_robotaxi/crazy_robotaxi/settings.py:497-523 | in any program, filling in an optional object the defaults leave out makes saving fail |
| SettingsDocument.FittedPartIsNotSaved | apps/crazy_robotaxi/crazy_robotaxi/settings.py:497-523 | a concrete program and draft whose save fails |
| TaxiRules.FramedKeeps | apps/crazy_robotaxi/crazy_robotaxi/rules.py:710-759 | every frame keeps: seeking iff no fare timer, and when seeking the target is among the distinct available pickups |
| TaxiRules.RunsKeep | apps/crazy_robotaxi/crazy_robotaxi/rules.py:710-759 | every state of every run satisfies that invariant |
| TaxiRules.ScoreLedger | apps/crazy_robotaxi/crazy_robotaxi/rules.py:695-699 | the score is 100 per coin plus, for each delivery, the award for the time its fare had left |
| TaxiRules.DeliveryScores | apps/crazy_robotaxi/crazy_robotaxi/rules.py:1155-1167 | every frame on the way to a dropoff within its radius delivers: 100 points a coin, the base and the bonus for each whole second left are scored, and the game is prolonged |
| TaxiRules.SecondSooner | apps/crazy_robotaxi/crazy_robotaxi/rules.py:1157-1159 | the same delivery with one second more left scores exactly one bonus more |
| TaxiRules.FarePays | apps/crazy_robotaxi/crazy_robotaxi/rules.py:1139-1160 | a delivered fare pays its base and the bonus times the whole seconds its frames have left of its deadline |
| TaxiRules.DeadlineIs | apps/crazy_robotaxi/crazy_robotaxi/rules.py:1147-1152 | a ride has just the time it takes at the target speed with the grace, between the least and the longest, times the multiplier |
| TaxiRules.AwardsBounded | apps/crazy_robotaxi/crazy_robotaxi/rules.py:1155-1160 | all awards lie between the base and the longest deadline's bonus, per fare |
| TaxiRules.ClockLedger | apps/crazy_robotaxi/crazy_robotaxi/rules.py:752-756 | a game is on iff start time plus bonuses minus frames has stayed positive, and then that is what the clock shows |
| TaxiRules.EndIsFrozen | apps/crazy_robotaxi/crazy_robotaxi/rules.py:729-731 | after the end no pose changes anything |
| TaxiRules.FareFrame | apps/crazy_robotaxi/crazy_robotaxi/rules.py:738-750 | a fare ends in a frame iff the dropoff is within its radius or its clock runs out, and is paid iff the former |
| TaxiRules.FareClock | apps/crazy_robotaxi/crazy_robotaxi/rules.py:745-750 | during a fare the target stays and its clock falls by exactly one interval per frame |
| TaxiRules.FareIsBounded | apps/crazy_robotaxi/crazy_robotaxi/rules.py:1147-1152 | no fare lasts longer than the longest deadline |
| TaxiRules.PickupIsElsewhere | apps/crazy_robotaxi/crazy_robotaxi/rules.py:924-974 | the next pickup avoids the fare just ended iff the town has another one more than a metre away |
| TaxiRules.RideFollowsRoute | apps/crazy_robotaxi/crazy_robotaxi/rules.py:1070-1125 | a fare's dropoff is another waypoint on a route of some source; none is found iff no source reaches one |
| TaxiRules.DropoffPrefersBand | apps/crazy_robotaxi/crazy_robotaxi/rules.py:1107-1120 | the dropoff lies in the preferred distance band whenever the first source reaches one there |
| TaxiRules.CollectsWhatIsShown | apps/crazy_robotaxi/crazy_robotaxi/rules.py:767-809 | a pickup is collected iff the one the HUD points at is within the radius it shows |
| TaxiChoices.DropoffsDrawn | apps/crazy_robotaxi/crazy_robotaxi/rules.py:1070-1125 | the first source with a route anywhere decides, and its draws reach exactly the waypoints within the preferred distances, or failing any those at least as far, or failing any all it has a route to |
| TaxiChoices.PickupsOffered | apps/crazy_robotaxi/crazy_robotaxi/rules.py:854-870 | offered are the pickups far enough away, or if there is none all, except those excluded |
| TaxiChoices.NextPickup | apps/crazy_robotaxi/crazy_robotaxi/rules.py:924-974 | the first source with a route to a pickup decides: one far enough away, else the farthest; without a source the nearest one that is more than a metre away |
| TaxiChoices.PickupFrame | apps/crazy_robotaxi/crazy_robotaxi/rules.py:909-922 | a frame without a fare begins one from the nearest pickup offered if that is within its radius, and fails iff no source reaches a dropoff |
| TaxiChoices.FareEnds | apps/crazy_robotaxi/crazy_robotaxi/rules.py:1155-1202 | a frame that ends a fare announces it with its points and time, and sends the taxi to a pickup chosen apart from both ends of that fare |
| TaxiChoices.FareGoesOn | apps/crazy_robotaxi/crazy_robotaxi/rules.py:732-752 | any other frame of a fare only counts its time and the banner down |
| TaxiChoices.BestIsShown | apps/crazy_robotaxi/crazy_robotaxi/rules.py:1207-1219 | the high score shown at the end is the best on the board |
| TaxiChoices.NameIsAsked | apps/crazy_robotaxi/crazy_robotaxi/rules.py:1207-1219 | a name is asked for iff the score is positive and has a place on the board |
| TaxiController.ChunkIsRun | apps/crazy_robotaxi/crazy_robotaxi/rules.py:710-759 | a chunk without error is a run of completed frames |
| TaxiController.AnnouncedRankIsRecorded | apps/crazy_robotaxi/crazy_robotaxi/rules.py:668-693 | the rank announced at the end is the recorded rank if the board has not changed |
| TaxiController.RecordedIsLastEqual | apps/crazy_robotaxi/crazy_robotaxi/rules.py:682-689 | the inserted entry is the last among equal ones on the board |
| TaxiController.TaxiGameController.constructor | apps/crazy_robotaxi/crazy_robotaxi/rules.py:592-656 | a new game starts with nothing scored, the full clock, and a valid set of pickups |
| TaxiController.TaxiGameController.CollectCoins | apps/crazy_robotaxi/crazy_robotaxi/rules.py:695-699 | a negative count is an error that changes nothing |
| TaxiController.TaxiGameController.StartFare | apps/crazy_robotaxi/crazy_robotaxi/rules.py:1139-1153 | a fare starts as specified, or fails having only noted the pickup |
| TaxiController.TaxiGameController.CompleteFare | apps/crazy_robotaxi/crazy_robotaxi/rules.py:1155-1167 | a delivery pays, extends the clock and moves on to the next pickup |
| TaxiController.TaxiGameController.ExpireFare | apps/crazy_robotaxi/crazy_robotaxi/rules.py:1169-1171 | an expired fare pays nothing and moves on |
| TaxiController.TaxiGameController.ActivateNextPickup | apps/crazy_robotaxi/crazy_robotaxi/rules.py:1173-1190 | the next target and the available pickups are the specified ones |
| TaxiController.TaxiGameController.EndGame | apps/crazy_robotaxi/crazy_robotaxi/rules.py:1207-1216 | the clock stops at zero and the score qualifies or not against the stored board |
| TaxiController.TaxiGameController.AdvanceFrame | apps/crazy_robotaxi/crazy_robotaxi/rules.py:722-758 | one pose carries out exactly the specified frame on the fields |
| TaxiController.TaxiGameController.AdvanceFrames | apps/crazy_robotaxi/crazy_robotaxi/rules.py:710-759 | a negative interval and a fare without a dropoff are errors; otherwise the poses are carried out in order |
| TaxiController.TaxiGameController.SubmitHighScoreName | apps/crazy_robotaxi/crazy_robotaxi/rules.py:668-693 | a name not awaited or not valid is an error that changes nothing; otherwise the score is recorded and its entry's place reported |
| Race.TotalGatesIs | apps/crazy_robotaxi/crazy_robotaxi/race.py:343-369 | a full race has 1+n gates without laps and 1+laps(n+1) with them |
| Race.TargetIsNext | apps/crazy_robotaxi/crazy_robotaxi/race.py:320-323 | the active gate exists and is the next one of the course |
| Race.CrossedCredits | apps/crazy_robotaxi/crazy_robotaxi/race.py:343-369 | a crossing credits exactly one gate and ends the race iff it was the last |
| Race.SweepFollowsCourse | apps/crazy_robotaxi/crazy_robotaxi/race.py:325-341 | the gates credited in one pose follow the course from where the race stood |
| Race.SweepAdvances | apps/crazy_robotaxi/crazy_robotaxi/race.py:325-341 | credits of one pose lie on the move, each at least 1e-6 beyond the one before |
| Race.PoseCredits | apps/crazy_robotaxi/crazy_robotaxi/race.py:325-341 | a pose is credited with exactly the gates of the course its move meets going forward, each where it is first met beyond the one before; the gate after the last credit is not met |
| Race.CreditIffMeeting | apps/crazy_robotaxi/crazy_robotaxi/race.py:555-582 | a pose earns a credit iff its move goes forward through the active gate and meets it or ends on it |
| Race.CrossedAnnounces | apps/crazy_robotaxi/crazy_robotaxi/race.py:343-369 | the first crossing announces the start, the last the finish, one that completes a lap the lap, any other a checkpoint |
| Race.PoseWithoutCredit | apps/crazy_robotaxi/crazy_robotaxi/race.py:325-341 | a pose without a credit only moves the clock on, never below zero |
| Race.RaceFollowsCourse | apps/crazy_robotaxi/crazy_robotaxi/race.py:230-247 | for every stream of poses the credits are a prefix of the course; the race is over iff all its gates are credited, and the final time is the time from first to last credit, at least 1 |
| Race.FinishedIsFinal | apps/crazy_robotaxi/crazy_robotaxi/race.py:230-247 | once finished no pose changes anything |
| Race.RaceIsJudged | apps/crazy_robotaxi/crazy_robotaxi/race.py:395-406 | for every stream of poses the race has no rank until it ends; then it asks for a name and has a rank exactly when the board has room for the final time or the time beats its last entry, the rank being the place behind all times no later |
| Race.RaceController.AdvanceTarget | apps/crazy_robotaxi/crazy_robotaxi/race.py:343-369 | crossing the active gate updates the fields as specified |
| Race.RaceController.SweepGates | apps/crazy_robotaxi/crazy_robotaxi/race.py:330-341 | the sweep loop ends and credits exactly the specified gates |
| Race.RaceController.AdvancePose | apps/crazy_robotaxi/crazy_robotaxi/race.py:325-341 | one pose is one specified advance |
| Race.RaceController.Finish | apps/crazy_robotaxi/crazy_robotaxi/race.py:395-406 | finishing fixes a time of at least 1 and the prospective rank |
| Race.RaceController.SubmitHighScoreName | apps/crazy_robotaxi/crazy_robotaxi/race.py:301-318 | a name not awaited or not valid is an error that changes nothing; otherwise the time is recorded on its own course only and looked up there |
| Race.FinishedRankIsRecorded | apps/crazy_robotaxi/crazy_robotaxi/race.py:395-406 | the announced rank is the recorded one if the board is unchanged and holds no identical entry |
| Passengers.BuildPassengerTracks | apps/crazy_robotaxi/crazy_robotaxi/passengers.py:52-110 | a passenger is visible at a frame iff exactly one emitted track covers it; one visible throughout has a track over all frames, and no other track has more than one; tracks are in order |
| Passengers.TrackFrame | apps/crazy_robotaxi/crazy_robotaxi/passengers.py:75-96 | one frame closes the tracks of keys gone out of sight and opens those of keys come into sight |
| Passengers.CloseTracks | apps/crazy_robotaxi/crazy_robotaxi/passengers.py:75-96 | closing emits each vanished key's track once, in any order of keys |
| SegmentClipping.ClipSegment | apps/crazy_robotaxi/crazy_robotaxi/rules.py:380-402 | the loop over the four sides computes the specified clipping |
| SegmentClipping.ClippingIsExact | apps/crazy_robotaxi/crazy_robotaxi/race.py:645-666 | what is left is all of the segment inside the square, components of at most 1e-12 counting as none; nothing is returned iff no point is inside |
| SegmentClipping.KeptPart | apps/crazy_robotaxi/crazy_robotaxi/rules.py:380-402 | what is returned runs the way of the segment from where it is first inside to where it is last; an end inside is returned as it is |
| SegmentClipping.PlainClippingIsExact | apps/crazy_robotaxi/crazy_robotaxi/rules.py:380-402 | without such components clipping is exact and both returned ends are inside |
| SegmentClipping.NearlyInside | apps/crazy_robotaxi/crazy_robotaxi/rules.py:380-402 | otherwise what is kept lies outside by at most 1e-12 |
| SegmentClipping.AxisSeenTruly | apps/crazy_robotaxi/crazy_robotaxi/rules.py:388-391 | leaving out a negligible component changes nothing along the segment iff its two ends are both within, both below or both above the extent |
| SegmentClipping.EndsDecide | apps/crazy_robotaxi/crazy_robotaxi/rules.py:380-402 | if every negligible component has its ends so, exactly the part inside is kept |
| SegmentClipping.KeptTrulyIffEnds | apps/crazy_robotaxi/crazy_robotaxi/rules.py:380-402 | of a segment not dropped exactly the part inside is kept iff both returned ends are inside |
| SegmentClipping.DroppedDriftsIn | apps/crazy_robotaxi/crazy_robotaxi/rules.py:388-391 | a segment dropped although it meets the square comes into its extent by a negligible component |
| SegmentClipping.NegligibleDriftIsKept | apps/crazy_robotaxi/crazy_robotaxi/rules.py:388-391 | a concrete segment that leaves the square and is kept whole |
| SegmentClipping.NegligibleDriftIsLost | apps/crazy_robotaxi/crazy_robotaxi/rules.py:388-391 | and one that ends inside and is dropped |
| Dynamics.BrakingComposes | apps/crazy_robotaxi/crazy_robotaxi/dynamics.py:120-138 | braking for two times in turn equals braking for their sum, through the stop and the reverse cap |
| Dynamics.SteeringComposes | apps/crazy_robotaxi/crazy_robotaxi/dynamics.py:147-171 | steering for two times in turn equals steering for their sum, for every command |
| Dynamics.DrivingComposes | apps/crazy_robotaxi/crazy_robotaxi/dynamics.py:173-235 | driving for two times in turn equals driving for their sum, for every command, except iff throttle against the direction of travel stops before the second or the tapered throttle's taper is sampled anew with effect |
| Dynamics.TaperComposes | apps/crazy_robotaxi/crazy_robotaxi/dynamics.py:187-215 | two frames of tapered throttle equal one iff the second is empty, starts with the same taper, or reaches the speed limit with either |
| Dynamics.TurningBackComposes | apps/crazy_robotaxi/crazy_robotaxi/dynamics.py:216-227 | throttle against the direction of travel depends on the frame rate exactly in that case |
| Dynamics.TaperDependsOnFrames | apps/crazy_robotaxi/crazy_robotaxi/dynamics.py:191-209 | a concrete vehicle that two half-second frames leave slower than one of a second |
| Dynamics.SubdivisionIsIrrelevant | apps/crazy_robotaxi/crazy_robotaxi/dynamics.py:141-235 | every cut of every time into frames leaves the same steering and speed as one frame iff the command is steady: a taper constant up to the speed limit, or zero, and otherwise no throttle against the direction of travel |
| Dynamics.RunsStayWithin | apps/crazy_robotaxi/crazy_robotaxi/dynamics.py:141-235 | over any run of commands steering and speed stay within their limits |
| Response.SpeedChangesAtRate | apps/crazy_robotaxi/crazy_robotaxi/dynamics.py:173-249 | until it comes to rest or to a limit the vehicle changes speed by exactly its command's acceleration times the length of the frame, and at a limit stays there |
| Response.RestThenOn | apps/crazy_robotaxi/crazy_robotaxi/dynamics.py:120-138 | a frame that brings it to rest leaves it there or goes on as from rest for the time left, depending on the command alone |
| Response.TaperBelowKnee | apps/crazy_robotaxi/crazy_robotaxi/dynamics.py:190-200 | below the knee the throttle tapers from 1 to a half as the square of the speed |
| Response.TaperAboveKnee | apps/crazy_robotaxi/crazy_robotaxi/dynamics.py:200-208 | above it as half the configured power of the share of the way left to the top speed |
| Response.SteersToGoal | apps/crazy_robotaxi/crazy_robotaxi/dynamics.py:148-171 | direct steering and letting go turn the wheels to their goal at one rate and leave them there |
| Response.HeldSteers | apps/crazy_robotaxi/crazy_robotaxi/dynamics.py:166-167 | held steering turns them in proportion to the command until the lock |
| ActionInput.ActionEventAccumulator.Consume | apps/action2v/action2v/input.py:51-97 | one batch of events updates the held state and yields the specified snapshot |
| ActionInput.ActionEventAccumulator.Reset | apps/action2v/action2v/input.py:99-103 | a reset forgets everything held |
| ActionInput.ForgettingIsTotal | apps/action2v/action2v/input.py:51-103 | nothing before a reset or loss of focus affects later snapshots |
| ActionInput.KeysHeld | apps/action2v/action2v/input.py:58-71 | a key is in the snapshot iff its last event is a press that nothing made forgotten, or it was held before and neither touched nor forgotten |
| ActionInput.ButtonsHeld | apps/action2v/action2v/input.py:78-83 | the same for mouse buttons |
| ActionInput.MotionAddsUp | apps/action2v/action2v/input.py:72-88 | the motion is the sum of the moves from each last seen pointer position, and of the wheel, since everything was last forgotten |
| ActionInput.MovesTelescope | apps/action2v/action2v/input.py:73-77 | moves from a known position add up to the way from there to the last one |
| ActionInput.BatchesJoin | apps/action2v/action2v/input.py:49-97 | what is held does not depend on how the events are cut into batches |
| ActionInput.KeyNames | apps/action2v/action2v/input.py:106-112 | key names are in capitals, longer ones without separators, and naming a name changes nothing |
| ActionInput.SpellingsAgree | apps/action2v/action2v/input.py:106-112 | spellings of a longer name that differ in capitals or a separator are the same key |
| SharedPipeline.Action2VModelLoop.TakeStep | apps/action2v/action2v/session.py:89-145 | a step generates from this session's own generator state, whatever the shared one holds; out-of-sequence steps are errors |
| SharedPipeline.Action2VModelLoop.ResetLoop | apps/action2v/action2v/session.py:151-160 | a reset restores counters, input, generator state and cache |
| SharedPipeline.StepFails | apps/action2v/action2v/session.py:98-119 | when a step is out of sequence or lacks a cache, and that a failed step makes no block |
| SharedPipeline.ClosedMakesNoBlock | apps/action2v/action2v/session.py:162-165 | a closed session makes no block until it is reset, whatever it held before |
| SharedPipeline.SequenceSucceeds | apps/action2v/action2v/session.py:98-145 | every sequence of steps succeeds with the seed frames and then block after block, each from the cache and generator state the one before it left and from its own input |
| SharedPipeline.FinishesWithLastBlock | apps/action2v/action2v/session.py:147-149 | a rollout is finished with the seed and the blocks asked for, and not before |
| SharedPipeline.SessionsAreIsolated | apps/action2v/action2v/session.py:89-160 | with threads interleaved between any two accesses of the pipeline (lock, set state, generate, save state, unlock), each session is always on its way to exactly what it reaches when run alone |
| SharedPipeline.SomeoneGoes | apps/action2v/action2v/session.py:121-132 | while any session is in a call some session can go on |
| SharedPipeline.LockIsNeeded | apps/action2v/action2v/session.py:121-132 | without the lock a concrete schedule gives a session a block made from another's generator state |
| SharedPipeline.ResetReplays | apps/action2v/action2v/session.py:151-160 | the outputs after a reset equal the first run's on the same inputs |
| CameraReplay.CameraPoseIntegrator.IntegrateChunk | apps/cam2v/cam2v/controls.py:251-292 | chunks with missing, unordered or outlying frame times are errors that move nothing; otherwise the nested loops give the specified poses, an error after moving when there are none |
| CameraReplay.AcceptedIs | apps/cam2v/cam2v/controls.py:258-269 | a chunk is accepted iff it has segments and strictly increasing frame times within them but for 1e-9 |
| CameraReplay.WalkKeepsTime | apps/cam2v/cam2v/controls.py:272-290 | every pose has been moved, for any set of keys, for exactly the time those keys were held before it |
| CameraReplay.OnlyTimeMoves | apps/cam2v/cam2v/controls.py:176-179 | the motion is asked for positive times only |
| CameraReplay.AcceptedChunkPoses | apps/cam2v/cam2v/controls.py:265-290 | an accepted chunk yields a pose for every frame iff its last frame is not beyond the last segment |
| CameraReplay.LateFrameWithoutPose | apps/cam2v/cam2v/controls.py:263-292 | a concrete accepted chunk whose last frame gets no pose, and one in which no frame does |
| CameraReplay.TrimmedCovers | apps/cam2v/cam2v/session.py:56-65 | segments cut at a time run exactly from there to the window's end |
| CameraReplay.TrimmedHolds | apps/cam2v/cam2v/session.py:56-65 | and the same keys are held at every time from there on |
| CameraReplay.HandOffKeepsTime | apps/cam2v/cam2v/session.py:221-279 | in the window of a hand-off each live pose has been moved for exactly the time its keys were held since the last recorded frame |
| CameraReplay.Cam2VModelState.SamplePoses | apps/cam2v/cam2v/session.py:221-279 | one window's poses and the new camera state are the specified ones |
| CameraReplay.Cam2VModelState.Step | apps/cam2v/cam2v/session.py:447-448 | every step yields one pose per frame and moves the frame counter by as many |
| CameraReplay.Cam2VModelState.FinishReplay | apps/cam2v/cam2v/session.py:281-286 | the replay is dropped and live control starts at the given pose |
| CameraReplay.Cam2VModelState.ResetLoop | apps/cam2v/cam2v/session.py:498-513 | a reset brings back the beginning of the rollout |
| CameraReplay.RolloutIsReplayThenLive | apps/cam2v/cam2v/session.py:221-286 | every rollout shows the recording in order up to one hand-off and live poses from there on, continued from the last pose shown |

## Left out

- Rounding: all arithmetic is over reals, so accumulated floating-point error, infinities and NaN are not modelled.
- Distances between points: the endpoint index holds for any distance that dominates both coordinates, of which the
  Euclidean one is an instance; the taxi rules take the distances to the waypoints as given with each pose.
- Nearest-lane matching, waypoint sampling and stop points along lanes: geometry over arrays that only adds easy
  members.
- Gate geometry: a pose carries the distances at which its move meets a gate and whether it heads forward through it.
- The initial pickup: which pool waypoint is chosen through the camera is a parameter; route queries are given per
  source.
- Random draws: a draw is a number carried by the pose and taken modulo the number of candidates.
- HudProtocol.FramesFollowActivation: the tensor addresses of generated frames are arbitrary; selection and epoch
  labels on messages only observe.
- HudLoading.CarefulRunsLoad: runs that quit from the mode menu are excluded, since quitting shows the loading screen.
- Live edits, captions, prompts, prewarming and tracing of the model loop: they do not touch the fields modelled.
- Files: YAML and CSV are read back as written; file locks, atomic renames and clocks are not modelled. Time stamps are
  integers ordered as in the file, and rows edited by hand into something malformed are taken to be gone.
- Bindings.CanonicalIdempotent: lower-casing is ASCII, because Unicode case folding is not available.
- ActionInput.SpellingsAgree: upper-casing is ASCII, for the same reason.
- ControlsDocument.SyncMapping: comments and the order of keys in a round-trip document are not modelled; mappings are
  values.
- SettingsDocument.SyncMapping: the same, so that nested mappings are replaced by equal values and not mutated in
  place.
- SettingsTree.ReadsBack: unions other than an optional type, unconstrained `Any` settings, non-string mapping keys and
  object constructors that refuse some field values are outside the model; relative paths are located by a parameter
  and are never written.
- SettingsDocument.SettingsFile.Save: whole-tree validation is an arbitrary predicate; command-line overrides are
  ignored.
- Dynamics: yaw rate, position, body roll and pitch, collision recovery and their trigonometry; the exponent of the
  throttle taper is a parameter.
- SharedPipeline.SessionsAreIsolated: generation is a function of step index, cache, generator state and action;
  rebuilding a cache draws nothing from the generator; each session's own calls follow one another.
- HudState.ModelState.Select: whether a map loads, and how many blocks are prepared in hiding, are parameters; a failed
  selection ends the model thread, so the runs of HudProtocol have none.
- CameraReplay: how keys move a pose is an arbitrary function, so the pitch limit and rotation matrices are not
  modelled; windows, frame times and key segments arrive as the input timeline promises them.
- TaxiController.TaxiGameController.SubmitHighScoreName: the inserted entry is found as the last equal one, since
  object identity of values does not exist here.
- Projection of markers to camera and map views, drawing, layout, physics, rendering, packaging and command lines.
