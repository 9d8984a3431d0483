# Verified models of the dashboard islands

This project models nine islands of the frontend in Dafny and proves what they promise. Most of an
island is rendering; the parts modelled here are the algorithms and the asynchronous protocols inside:

- the cluster topology, which turns five lists of cluster objects into a layered drawing and then
  computes the same relations a second time for the tooltips (`Topology*.dfy`);
- the live flow table, fed by a socket in batches, one per animation frame (`FlowStream.dfy`);
- the compliance trend, whose missing calendar days are filled in before it is plotted
  (`Calendar.dfy`, `TrendChart.dfy`, `TrendPlot.dfy`);
- the bulk-refresh dialog, which resolves a scope, posts it once and polls a job (`BulkRefresh.dfy`);
- the Cilium policy editor, which compiles one form to a request and, separately, to a YAML preview
  (`CiliumPolicy.dfy`, `YamlScalar.dfy`);
- the ExternalSecrets list with its debounced filter (`SecretsList.dfy`);
- the deployment and config-map wizards and the preview they share (`DeploymentWizard.dfy`,
  `ConfigMapWizard.dfy`, `Preview.dfy`);
- the path walker of the custom-resource table (`JsonPath.dfy`).

`Text.dfy`, `Decimal.dfy`, `Lists.dfy` and `WizardRules.dfy` hold what several of them share.

## How the models are built

An island that updates refs and signals is a class with those fields; each callback is a method whose
contract gives the whole new state as a pure function of the old one. Around the island stands a
`System`: the island's state and what the browser holds for it (open sockets, armed timers, requests
in flight). A run is any list of events whatever, in any order; an event that cannot happen in a
state leaves it alone. The theorems quantify over all runs. Five of the systems share
`InFlight.Flights`, the requests sent so far and the numbers of those still open, so that replies
arrive in any order everywhere by the same rule.

Loops that build lists and maps are methods with loops, proved against specifications that say what
the result means: which edges, which entries, which runs of points. `null` and `undefined` are
`Option` values, thrown errors are their own events or results, and messages keyed by field are
constructors of a `Fault` type. A JavaScript `Set` that is iterated is a sequence without repetitions.

## Where the code falls short of its purpose

Each of these is proved, with the exact condition or a concrete input:

- East of UTC the gap-filling loop never ends once it has begun: a day added at local midnight prints as
  the same UTC date. At or west of UTC it fails only for data that ends on 9999-12-31
  (`TrendChart.EndsExactly`).
- A trend of exactly one point has a tick label at index 0/0 (`TrendPlot.LabelsDrawableExactly`).
- A string that begins with an apostrophe is printed unquoted and does not read back
  (`YamlScalar.ApostropheIsLost`); text such as `true`, `~` or `12` is printed unquoted too and comes back as
  a boolean, a null or a number (`YamlScalar.TypedTextIsLost`). `YamlScalar.ReadsBackExactly` is exact.
- Hyphen-joined ids can collide, and then the drawing can join objects of different namespaces
  (`TopologyMeaning.CollidingIds`, and for claims `TopologyMeaning.CollidingClaims`). Which collisions do
  harm is stated exactly for all five kinds of edge (`TopologyMeaning.AllDrawnExactly`, `TopologyLayout.Draw`);
  none does where namespaces cannot be confused (`TopologyMeaning.ApartNamespacesSuffice`).
- The tooltips can then list a workload for a service that selects no pod at all
  (`TopologyRoutes.ChanceMeeting`); when is stated exactly as well (`TopologyRoutes.RoutesRightExactly`).
- An HTTP reply that lands while a confirmed connection's socket is open can erase its flows
  (`FlowStream.HttpReplyErases`); when it does is stated exactly, over all runs (`FlowStream.FaithfulExactly`).
- A score outside 0 to 100 is drawn outside the chart (`TrendPlot.DrawnInside`).
- The preview shows a port as typed, the request sends it parsed; they agree only for plain decimals
  (`CiliumPolicy.PortTextAgreesExactly`), as labels do only when typed without outer white space
  (`CiliumPolicy.LabelLinesAgreeExactly`).

## Model

| member | source | states |
|---|---|---|
| Topology.MatchesExactly | frontend/islands/ClusterTopology.tsx:99-105 | a selector matches labels if and only if both are there and laying it over them changes nothing, so that labels it does not name do not matter |
| TopologyEdges.NodeServices | frontend/islands/ClusterTopology.tsx:464-478 | a node's set holds exactly the services that select some pod scheduled on the node, each once |
| TopologyEdges.NodeEdges | frontend/islands/ClusterTopology.tsx:462-482 | the node loop draws exactly those edges, and with distinct node ids none twice |
| TopologyEdges.OwnPods | frontend/islands/ClusterTopology.tsx:490-507 | one workload is filed under, and joined to, exactly the ids of the pods its selector matches in its namespace |
| TopologyEdges.WorkloadEdges | frontend/islands/ClusterTopology.tsx:484-508 | the map from pods to workloads and the workload edges say the same relation; no pod has an empty set; with injective ids no edge is drawn twice |
| TopologyEdges.ServiceTargets | frontend/islands/ClusterTopology.tsx:511-542 | a service's targets are the workloads filed under its pods and the pods under which nothing is filed |
| TopologyEdges.ServiceEdges | frontend/islands/ClusterTopology.tsx:510-542 | the service loop draws exactly the edges to those targets, none twice when ids are injective |
| TopologyEdges.PodClaims | frontend/islands/ClusterTopology.tsx:547-560 | one pod is joined to exactly the placed claims its volumes name |
| TopologyEdges.ClaimEdges | frontend/islands/ClusterTopology.tsx:544-561 | the claim loop draws exactly those edges, none twice unless a pod mounts one claim by two volumes |
| TopologyEdges.BuildEdges | frontend/islands/ClusterTopology.tsx:462-561 | the four loops together draw exactly the edges of the four relations, none twice when ids are injective and no claim is mounted twice; and a selector matches a pod exactly when, in its namespace, laying it over the labels changes nothing |
| TopologyEdges.EdgesGoDown | frontend/islands/ClusterTopology.tsx:462-561 | every edge leads from an upper row to a lower one |
| TopologyEdges.PathsAreShort | frontend/islands/ClusterTopology.tsx:462-561 | the drawn graph has no cycle and no path of more than four edges |
| TopologyMeaning.FiledKeys | frontend/islands/ClusterTopology.tsx:484-508 | a pod id is a key of the map if and only if some workload owns a pod of that id |
| TopologyMeaning.ServiceWorkloadEdge | frontend/islands/ClusterTopology.tsx:510-542 | for every snapshot: a service is joined to a workload exactly when a pod selected under the one id and a pod owned under the other have one id |
| TopologyMeaning.ServicePodEdge | frontend/islands/ClusterTopology.tsx:520-532 | for every snapshot: a service is joined to a pod exactly when a service of that id selects a pod of that id and nothing is filed under it |
| TopologyMeaning.SelectedPodReachedOneWay | frontend/islands/ClusterTopology.tsx:484-542 | each pod a service selects is reached either directly or through a workload, never both and never neither, whatever ids collide |
| TopologyMeaning.TiesDrawnExactly | frontend/islands/ClusterTopology.tsx:510-542 | edges between services and workloads mean that some pod is matched by both selectors if and only if no selected pod shares its id with another pod that is owned, and no tied service or workload shares its id with another |
| TopologyMeaning.DirectsDrawnExactly | frontend/islands/ClusterTopology.tsx:520-532 | direct edges mean that the pod is selected and owned by no workload if and only if no such pod, and no service selecting one, shares its id with another |
| TopologyMeaning.OwnershipsDrawnExactly | frontend/islands/ClusterTopology.tsx:486-508 | edges between workloads and pods mean that the selector matches if and only if no owned pod and no owner shares its id with another |
| TopologyMeaning.NodeServiceEdge | frontend/islands/ClusterTopology.tsx:462-482 | for every snapshot: a node is joined to a service exactly when it hosts a service of that id |
| TopologyMeaning.HostsDrawnExactly | frontend/islands/ClusterTopology.tsx:462-482 | for every snapshot: edges between nodes and services mean that the service selects some pod on the node if and only if services of one id are hosted by the same nodes |
| TopologyMeaning.ClaimsDrawnExactly | frontend/islands/ClusterTopology.tsx:544-561 | edges between pods and claims mean that the pod mounts the claim if and only if a listed claim with the id of a mounted one is that claim and no pod mounting a listed claim shares its id with another |
| TopologyMeaning.CollidingClaims | frontend/islands/ClusterTopology.tsx:549-552 | a snapshot with unique names and distinct service, workload and pod ids in which a pod is joined to a claim of another namespace |
| TopologyMeaning.AllDrawnExactly | frontend/islands/ClusterTopology.tsx:462-561 | all five kinds of edges mean what they should if and only if none of the named collisions occurs |
| TopologyMeaning.InjectiveIdsDrawRightly | frontend/islands/ClusterTopology.tsx:462-561 | so where the ids of services, workloads, pods and claims are injective every edge means what it should |
| TopologyMeaning.ApartNamespacesSuffice | frontend/islands/ClusterTopology.tsx:487-552 | ids are injective, those of claims included, as soon as names are unique and no namespace in use reads like another or like its first words before a dash |
| TopologyMeaning.EdgesMeanExactly | frontend/islands/ClusterTopology.tsx:462-561 | the edge list as a whole says what the objects say, kind by kind, under exactly that condition: by the node a pod is on, by selectors laid over labels, and by the claims that volumes name |
| TopologyMeaning.CollidingIds | frontend/islands/ClusterTopology.tsx:487-495 | a snapshot with unique names in which a service is joined to a workload of another namespace that shares no pod with it |
| TopologyTooltips.ServicePods | frontend/islands/ClusterTopology.tsx:588-607 | both lists in full, for every snapshot: under each service id the names of the pods its services select, under each pod id the names of the services, in the order of the loops |
| TopologyTooltips.OneWorkload | frontend/islands/ClusterTopology.tsx:614-623 | under each workload id the names of the pods its workloads own, in the order of the loops |
| TopologyTooltips.TieServices | frontend/islands/ClusterTopology.tsx:625-638 | one turn enters the workload and each service it meets in the other's list, in snapshot order, and no others |
| TopologyTooltips.WorkloadTooltips | frontend/islands/ClusterTopology.tsx:609-639 | all three lists in full, for every snapshot, a workload without a selector adding nothing |
| TopologyTooltips.EachPodListedOnce | frontend/islands/ClusterTopology.tsx:591-600 | a service's list names each pod it selects once, in snapshot order, if and only if no other service of its id selects any pod |
| TopologyRoutes.MeetsExactly | frontend/islands/ClusterTopology.tsx:625-630 | for every snapshot: the loop finds a pod name in common exactly when a pod selected under the one id and a pod owned under the other, by this workload or one before it, share it |
| TopologyRoutes.TiedMeet | frontend/islands/ClusterTopology.tsx:625-630 | no tooltip misses a tie: a tied pair always meets, whatever ids collide |
| TopologyRoutes.LabelInjective | frontend/islands/ClusterTopology.tsx:632 | a tooltip's workload label gives back kind and name |
| TopologyRoutes.LabelsRightExactly | frontend/islands/ClusterTopology.tsx:609-639 | services' tooltips list exactly the workloads tied to them if and only if pods that share a name under colliding ids belong to a tied pair, and services of one id are tied to workloads of the same labels |
| TopologyRoutes.NamesRightExactly | frontend/islands/ClusterTopology.tsx:609-639 | workloads' tooltips list exactly the services tied to them if and only if such pods belong to a tied pair, and workloads of one id are tied to services of the same names |
| TopologyRoutes.DistinctIdsGiveRightTooltips | frontend/islands/ClusterTopology.tsx:609-639 | with distinct service and workload ids both kinds of tooltips are right, even where pod ids collide |
| TopologyRoutes.RoutesRightExactly | frontend/islands/ClusterTopology.tsx:484-639 | drawing and tooltips are all right if and only if no collision touches a tie and no pods of one name make a tie that is none |
| TopologyRoutes.RoutesAgreeExactly | frontend/islands/ClusterTopology.tsx:484-639 | drawing and tooltips agree on every pair if and only if both are right: they are never wrong alike |
| TopologyRoutes.ChanceMeeting | frontend/islands/ClusterTopology.tsx:625-638 | a snapshot with unique names in which a service that selects no pod is listed with a workload |
| TopologyRoutes.BothRoutes | frontend/islands/ClusterTopology.tsx:462-639 | running both computations on any snapshot: both are right under exactly those conditions, they agree exactly then, and so always when ids are injective; and a selector matches exactly when laying it over the labels changes nothing |
| TopologyLayout.PlaceRow | frontend/islands/ClusterTopology.tsx:340-373 | item i of a row stands at the i-th of evenly spread columns, at the row's height and size |
| TopologyLayout.PlaceAll | frontend/islands/ClusterTopology.tsx:381-460 | the node list is the five rows from top to bottom |
| TopologyLayout.CanvasIsSnug | frontend/islands/ClusterTopology.tsx:320-334 | the canvas is the smallest that gives the longest list 62 a column, that is 400 wide and high at least, and no flatter than 2.3 to 1 |
| TopologyLayout.EvenlySpread | frontend/islands/ClusterTopology.tsx:353-369 | the columns of a row leave equal spaces between them and at both ends |
| TopologyLayout.BoxesInside | frontend/islands/ClusterTopology.tsx:313-373 | every box lies inside the virtual canvas, whatever the lengths of the lists |
| TopologyLayout.RowsApart | frontend/islands/ClusterTopology.tsx:329-334 | rows stand at least 68 apart on every canvas |
| TopologyLayout.BoxesDisjoint | frontend/islands/ClusterTopology.tsx:313-373 | no two boxes overlap, in one row or across rows |
| TopologyLayout.EdgeEndsPlaced | frontend/islands/ClusterTopology.tsx:462-561 | both ends of every edge are nodes that were placed |
| TopologyLayout.EdgesJoinPlacedNodesDownward | frontend/islands/ClusterTopology.tsx:381-561 | wherever the two ends of an edge are drawn, the second stands strictly lower |
| TopologyLayout.Draw | frontend/islands/ClusterTopology.tsx:308-561 | the layout effect as a whole: boxes inside and apart; every edge between drawn nodes, downward, none drawn twice; the edges mean hosting, selection and ownership by selectors laid over labels, and mounting, if and only if no collision of ids does harm, and so wherever namespaces cannot be confused |
| FlowStream.Viewer.constructor | frontend/islands/FlowViewer.tsx:96-109 | a new viewer is disconnected, with nothing listed, pending or scheduled |
| FlowStream.Viewer.FlushFlows | frontend/islands/FlowViewer.tsx:111-121 | the frame puts the reversed batch in front, caps the list at 1000 and clears batch and handle |
| FlowStream.Viewer.ConnectWS | frontend/islands/FlowViewer.tsx:151-174 | a connection opens under a fresh number, and none opens without a token |
| FlowStream.Viewer.Receive | frontend/islands/FlowViewer.tsx:190-211 | what each kind of message changes, nothing when the connection is stale; a frame is requested only when none is scheduled |
| FlowStream.Viewer.Closed | frontend/islands/FlowViewer.tsx:213-217 | a close of the current connection disconnects; of a stale one, nothing |
| FlowStream.Viewer.Errored | frontend/islands/FlowViewer.tsx:219-224 | an error of the current connection disconnects and starts the HTTP fallback; of a stale one, nothing |
| FlowStream.Viewer.TearDown | frontend/islands/FlowViewer.tsx:232-244 | the cleanup makes every callback stale, cancels the frame and drops the batch |
| FlowStream.ReversedAt | frontend/islands/FlowViewer.tsx:117 | position k of the reversed batch is position k from its end |
| FlowStream.StepKeepsSockets | frontend/islands/FlowViewer.tsx:165-168 | connection numbers strictly grow and a closed socket is never open again, whatever happens |
| FlowStream.StepKeepsBatch | frontend/islands/FlowViewer.tsx:195-199 | a batch is pending if and only if exactly one frame is scheduled, and no frame outlives its handle |
| FlowStream.StepKeepsStatus | frontend/islands/FlowViewer.tsx:151-244 | the state on screen is that of the socket in force: disconnected where it is gone or has told of trouble, live where it has confirmed, else connecting; and the socket held is that one while it is open |
| FlowStream.Invariant | frontend/islands/FlowViewer.tsx:151-245 | all three hold at every moment of every run |
| FlowStream.OlderConnectionNeverWrites | frontend/islands/FlowViewer.tsx:168-224 | no callback of a socket changes anything unless the run of the effect in force opened that socket |
| FlowStream.ErrorIsTheLastWord | frontend/islands/FlowViewer.tsx:134-224 | the error shown is the last complaint of the socket in force or failure of an HTTP request; a confirmation, a failure of that socket and a new fetch clear it, and nothing else changes it |
| FlowStream.WindowPush | frontend/islands/FlowViewer.tsx:111-121 | appending to the batch is putting the flow in front of the capped list |
| FlowStream.WindowFlush | frontend/islands/FlowViewer.tsx:111-121 | a frame never changes what batch and list together show |
| FlowStream.ResetUnfaithful | frontend/islands/FlowViewer.tsx:200-203 | a reset that finds a batch waiting leaves flows from before it in the table |
| FlowStream.RepeatsExactly | frontend/islands/FlowViewer.tsx:134-145 | an HTTP reply leaves what the table shows if and only if its rows, as far as cap and batch let them show, are those already listed |
| FlowStream.FaithfulExactly | frontend/islands/FlowViewer.tsx:111-145 | over every run, while the table is a connection's it always shows the newest 1000 flows since the last reset if and only if no reset ever finds a batch waiting and no HTTP reply that lands beside an open confirmed socket changes what is listed |
| FlowStream.EarlyRepliesAreHarmless | frontend/islands/FlowViewer.tsx:134-145 | replies before the confirmation or after the socket has gone do no harm: where none lands in between only the resets matter |
| FlowStream.FaithfulSince | frontend/islands/FlowViewer.tsx:111-145 | whatever went before, from a reset that finds no batch waiting the table stays faithful as long as no later reset finds one and no later reply changes what is listed |
| FlowStream.KeepsNewestFlows | backend/internal/server/handle_ws_flows.go:114-119 | against a server that confirms before it sends flows, whatever happened to earlier connections: if no HTTP reply has landed beside the open socket since the last confirmation, batch and list together are the newest 1000 of the flows its socket has brought since, by the events of the run themselves, newest first, wherever the frames fall; with no frame scheduled the list alone is |
| FlowStream.HistorySince | frontend/islands/FlowViewer.tsx:190-203 | while the table is a connection's, the history it is measured against is what its socket has brought by the events since its last confirmation |
| FlowStream.Capped | frontend/islands/FlowViewer.tsx:118-120 | the list never exceeds 1000 rows unless an HTTP reply is longer than that |
| FlowStream.HttpReplyErases | frontend/islands/FlowViewer.tsx:134-145 | a run in which a late HTTP failure empties a list that holds a live flow |
| Calendar.NextIsNext | frontend/islands/ComplianceTrendChart.tsx:32-36 | the date after a valid date is valid and one day later |
| Calendar.DayByRule | frontend/islands/ComplianceTrendChart.tsx:32-36 | day numbers are those of section 21.4.1.3 of ECMA-262: 365 for each year, one more for each leap year by the rule of 4, 100 and 400, and the month by its table |
| Calendar.DayOrder | frontend/islands/ComplianceTrendChart.tsx:45 | day numbers and valid dates correspond one to one, in order |
| Calendar.StrParse | frontend/islands/ComplianceTrendChart.tsx:33-35 | a printed date reads back as itself |
| Calendar.ParseStr | frontend/islands/ComplianceTrendChart.tsx:33-35 | a full-date string is what its date prints as |
| Calendar.StringOrderIsDayOrder | frontend/islands/ComplianceTrendChart.tsx:45 | full-dates compare as strings exactly as their days compare |
| Calendar.DayAfterMoves | frontend/islands/ComplianceTrendChart.tsx:32-36 | at or west of UTC adding a day moves the printed date to the next one; east of UTC it does not move it |
| TrendChart.BuildLookup | frontend/islands/ComplianceTrendChart.tsx:40 | of two points on one date the later is found |
| TrendChart.LookupDate | frontend/islands/ComplianceTrendChart.tsx:40 | a date is found if and only if an input has it, and of two inputs on one date the later is |
| TrendChart.FillOne | frontend/islands/ComplianceTrendChart.tsx:45-53 | one turn adds the current day's point and moves to the next day |
| TrendChart.FillDateGaps | frontend/islands/ComplianceTrendChart.tsx:38-55 | for a range on which the loop ends: one point for every day from the first date to the last, in order, each with the date, score and counts of the last input of its day, or with no score and zero counts |
| TrendChart.InputsKeepTheirDay | frontend/islands/ComplianceTrendChart.tsx:46-48 | every input of increasing dates is found at its own day, with its own date, score and pass, fail and total counts |
| TrendChart.OtherDaysAreGaps | frontend/islands/ComplianceTrendChart.tsx:49-51 | every other day has no score and three zeros |
| TrendChart.Advance | frontend/islands/ComplianceTrendChart.tsx:45-52 | up to the last date the cursor steps to the next day and the string comparison is the day comparison |
| TrendChart.EastStandsStill | frontend/islands/ComplianceTrendChart.tsx:52 | east of UTC the cursor never leaves the first date |
| TrendChart.EndsExactly | frontend/islands/ComplianceTrendChart.tsx:45-53 | the loop ends if and only if the range is empty, or local time is at or west of UTC and the range does not end on 9999-12-31 |
| TrendPlot.BuildSegments | frontend/islands/ComplianceTrendChart.tsx:57-81 | the segments are non-empty, draw the maximal runs of scored points in order, together are the scored points, and lie inside the chart exactly when the scores are in range |
| TrendPlot.SegmentsAreScoredPoints | frontend/islands/ComplianceTrendChart.tsx:57-81 | laid end to end the segments are the scored points, none lost or repeated |
| TrendPlot.JoinedExactly | frontend/islands/ComplianceTrendChart.tsx:66-72 | two scored points share a segment if and only if no point between them is missing |
| TrendPlot.JoinedIffEveryDaySupplied | frontend/islands/ComplianceTrendChart.tsx:38-81 | after gap filling two inputs share a segment if and only if every day between them was supplied |
| TrendPlot.DrawnInside | frontend/islands/ComplianceTrendChart.tsx:73-76 | the drawing as a whole runs strictly from left to right inside the chart's width, and stays inside its height if and only if every score is from 0 to 100 |
| TrendPlot.EvenSteps | frontend/islands/ComplianceTrendChart.tsx:73-75 | points stand in equal steps from the left edge to the right one, a point that is alone in the middle |
| TrendPlot.HigherIsHigher | frontend/islands/ComplianceTrendChart.tsx:76 | a score is higher than another if and only if it is drawn strictly higher |
| TrendPlot.EvenHeights | frontend/islands/ComplianceTrendChart.tsx:76 | 0 is drawn at the bottom, 100 at the top, and a score half way between two others half way between them |
| TrendPlot.LabelIndices | frontend/islands/ComplianceTrendChart.tsx:102-110 | one rounded index for each of at most seven labels, not a number where there is but one |
| TrendPlot.TicksRunForward | frontend/islands/ComplianceTrendChart.tsx:102-110 | for two points or more the labels start at the first, end at the last and strictly increase |
| TrendPlot.TickIsNearest | frontend/islands/ComplianceTrendChart.tsx:102-109 | each label is the whole number nearest to its place in the even spread, of two the higher |
| TrendPlot.LabelsDrawableExactly | frontend/islands/ComplianceTrendChart.tsx:102-110 | every label has a point to stand at if and only if the trend does not have exactly one point |
| TrendPlot.HoverInvertsPlot | frontend/islands/ComplianceTrendChart.tsx:123-133 | the pointer selects a scored point if and only if it is within half a step of where that point is plotted, or the point is alone |
| TrendPlot.HoverSelectsOnlyScores | frontend/islands/ComplianceTrendChart.tsx:123-133 | what is selected has a score; over a gap and outside the chart nothing is, and within half a step of a scored point always that |
| BulkRefresh.Dialog.constructor | frontend/islands/ESOBulkRefreshDialog.tsx:47-52 | the dialog opens loading its scope, with nothing held |
| BulkRefresh.Dialog.ScopeReturned | frontend/islands/ESOBulkRefreshDialog.tsx:77-81 | a resolved scope is held for confirmation, unless the effect was cancelled |
| BulkRefresh.Dialog.ScopeThrew | frontend/islands/ESOBulkRefreshDialog.tsx:82-87 | a failed resolution ends in the error phase, unless the effect was cancelled |
| BulkRefresh.Dialog.Submit | frontend/islands/ESOBulkRefreshDialog.tsx:126-133 | a request leaves if and only if a scope is held for confirmation, and carries that scope's UIDs |
| BulkRefresh.Dialog.PostReturned | frontend/islands/ESOBulkRefreshDialog.tsx:135-137 | an accepted request leads to progress with the job's id |
| BulkRefresh.Dialog.PostThrew | frontend/islands/ESOBulkRefreshDialog.tsx:138-167 | a changed scope is resolved again, an active job with an id is joined, anything else is an error |
| BulkRefresh.Dialog.PollReturned | frontend/islands/ESOBulkRefreshDialog.tsx:101-117 | a poll's job is shown and another poll follows unless the job is complete or the effect was cancelled |
| BulkRefresh.StepKeepsTraffic | frontend/islands/ESOBulkRefreshDialog.tsx:126-168 | every step keeps the grammar of the traffic: resolve, post, then success, refusal or a new resolution; phase, scope and open requests are told by its last entry |
| BulkRefresh.StepKeepsPolling | frontend/islands/ESOBulkRefreshDialog.tsx:95-124 | every step keeps polling a single chain that is cancelled exactly when the dialog is gone |
| BulkRefresh.Invariant | frontend/islands/ESOBulkRefreshDialog.tsx:70-168 | both hold at every moment of every run |
| BulkRefresh.OneRequestAtATime | frontend/islands/ESOBulkRefreshDialog.tsx:127-131 | at most one request or re-resolution is outstanding, and none while the first scope loads |
| BulkRefresh.PostSendsResolvedScope | frontend/islands/ESOBulkRefreshDialog.tsx:133-135 | every request sends exactly the UIDs of the resolution just before it |
| BulkRefresh.ClickPostsResolvedScope | frontend/islands/ESOBulkRefreshDialog.tsx:126-135 | a click posts the scope exactly when one has just been resolved and the dialog is still there; any other click changes nothing |
| BulkRefresh.SuccessIsFinal | frontend/islands/ESOBulkRefreshDialog.tsx:135-137 | nothing follows a success, so at most one request ever succeeds |
| BulkRefresh.ScopeChangedNeedsNewScope | frontend/islands/ESOBulkRefreshDialog.tsx:140-152 | after a changed scope no request leaves before a new scope has been resolved |
| BulkRefresh.FinalPhasesAbsorb | frontend/islands/ESOBulkRefreshDialog.tsx:126-168 | progress and error are never left, and the job followed is never another one |
| BulkRefresh.ErrorSaysWhy | frontend/islands/ESOBulkRefreshDialog.tsx:82-87 | in the error phase the message is that of the last resolution or request, and that one failed |
| BulkRefresh.ProgressFollowsItsJob | frontend/islands/ESOBulkRefreshDialog.tsx:135-163 | progress follows the job of the request that succeeded, or the active job a refusal named |
| BulkRefresh.FollowedJobIsPolled | frontend/islands/ESOBulkRefreshDialog.tsx:95-118 | a job followed on screen that nothing polls yet is polled as soon as the effect runs |
| BulkRefresh.PollingIsOneChain | frontend/islands/ESOBulkRefreshDialog.tsx:95-124 | there is never both a poll out and a timer armed, and always one of them while an unfinished job is on screen |
| BulkRefresh.LastPollIsShown | frontend/islands/ESOBulkRefreshDialog.tsx:101-105 | the job shown is what the last poll brought that was not cancelled, and none before the first |
| BulkRefresh.PollsAreBrought | frontend/islands/ESOBulkRefreshDialog.tsx:101-117 | a poll's answer is brought, and its failure told, exactly when it was out and not cancelled |
| BulkRefresh.CompletedJobStays | frontend/islands/ESOBulkRefreshDialog.tsx:105-109 | a completed job is never replaced and no poll follows it |
| BulkRefresh.UnmountSilencesPolling | frontend/islands/ESOBulkRefreshDialog.tsx:120-123 | after cleanup no poll writes and no timer is armed |
| Text.TrimParts | frontend/islands/ESOExternalSecretsList.tsx:52 | what trimming takes off is white space, and what stays has none at either end |
| Text.TrimExactly | frontend/islands/ESOExternalSecretsList.tsx:52 | a text without outer white space is what trimming leaves of it, whatever white space is put around |
| SecretsList.List.FetchData | frontend/islands/ESOExternalSecretsList.tsx:49-53 | a fetch takes the next number and asks for the namespace typed: outer white space apart the text sent is the text typed, and none is sent only where nothing else was |
| SecretsList.List.FetchReturned | frontend/islands/ESOExternalSecretsList.tsx:54-60 | the newest fetch's outcome is shown, any other's is dropped |
| SecretsList.List.HandleNamespaceChange | frontend/islands/ESOExternalSecretsList.tsx:92-99 | typing sets the filter, cancels the timer armed before and arms a new one |
| SecretsList.List.DebounceElapsed | frontend/islands/ESOExternalSecretsList.tsx:95-98 | the timer disarms itself and fetches with the filter as it is then |
| SecretsList.StepKeepsTimer | frontend/islands/ESOExternalSecretsList.tsx:78-99 | at most one timer is armed, and the island holds its handle |
| SecretsList.StepKeepsFetch | frontend/islands/ESOExternalSecretsList.tsx:49-61 | the sequence number counts the fetches and the newest reply, once in, is what is shown |
| SecretsList.Invariant | frontend/islands/ESOExternalSecretsList.tsx:46-99 | timer, fetch, filter and loading invariants hold in every interleaving; loading ends exactly with the status reply or the fetch it started |
| SecretsList.FilterAndListAgree | frontend/islands/ESOExternalSecretsList.tsx:46-99 | with no timer armed the newest fetch asked for the very text last typed, outer white space apart, and once answered its reply is the list or an error is set |
| SecretsList.OlderReplyNeverWrites | frontend/islands/ESOExternalSecretsList.tsx:54-58 | a reply to any but the newest fetch changes neither items nor error |
| SecretsList.Converges | frontend/islands/ESOExternalSecretsList.tsx:92-99 | from any state with a timer armed, its firing asks for the text last typed and that fetch's reply shows the answer |
| SecretsList.StatusDecides | frontend/islands/ESOExternalSecretsList.tsx:65-77 | the load effect asks for a list exactly when the operator is there by the status reply, or the call has failed |
| Preview.StepKeepsInv | frontend/islands/DeploymentWizard.tsx:150-227 | every step keeps loading and text tied to the newest request; nothing sent is forgotten |
| Preview.LatestWins | frontend/islands/ConfigMapWizard.tsx:141-175 | for any number of requests and any order of replies, loading holds if and only if the newest request is open |
| Preview.NewestShown | frontend/islands/DeploymentWizard.tsx:216-226 | when not loading, the newest request's error is shown, or its text unless the user has edited it |
| Preview.TextStays | frontend/islands/DeploymentWizard.tsx:213-226 | the text changes only by an edit and by a text that answers the newest request, to just that text |
| Preview.OlderReplyNeverWrites | frontend/islands/DeploymentWizard.tsx:217-225 | an older reply leaves the whole preview as it was |
| Preview.OrderDoesNotMatter | frontend/islands/DeploymentWizard.tsx:150-227 | two sessions with the same requests and replies end alike, in whatever order these came |
| DeploymentWizard.FirstApp | frontend/islands/DeploymentWizard.tsx:93 | the first label keyed "app", if there is one |
| DeploymentWizard.EditSetsItsField | frontend/islands/DeploymentWizard.tsx:88-101 | an edit sets its own field and no other, but that a new name is also the value of the first label keyed "app" |
| DeploymentWizard.Validate | frontend/islands/DeploymentWizard.tsx:103-136 | the errors of a step are exactly the faults of its fields, so it passes if and only if there is none |
| DeploymentWizard.AcceptsExactly | frontend/islands/DeploymentWizard.tsx:103-136 | the first step passes if and only if the name is a label, namespace and image are given and replicas are from 0 to 1000; the second if and only if ports are from 0 to 65535 and variable names valid or empty; the others always |
| DeploymentWizard.LabelMapKeepsLast | frontend/islands/DeploymentWizard.tsx:165-168 | a non-empty label key is sent with the value of the last row that has it |
| DeploymentWizard.LabelMapKeys | frontend/islands/DeploymentWizard.tsx:165-168 | no other key is sent |
| DeploymentWizard.OpenPorts | frontend/islands/DeploymentWizard.tsx:172 | exactly the rows with a positive port are kept, all of them when every port is positive |
| DeploymentWizard.OpenPortsSplit | frontend/islands/DeploymentWizard.tsx:172 | dropping rows keeps the order and number of the others |
| DeploymentWizard.EnvEntries | frontend/islands/DeploymentWizard.tsx:176-186 | exactly the named variables are sent, each in the shape of its kind |
| DeploymentWizard.EnvEntriesSplit | frontend/islands/DeploymentWizard.tsx:176-186 | the entries keep the order and number of the named variables |
| DeploymentWizard.BuildPayload | frontend/islands/DeploymentWizard.tsx:155-210 | the request built from a form says what the form does: name, namespace, image and replicas, labels by the last row of each key, ports and variables in row order, resources, probes and strategy each in its own place, and empty parts left out |
| DeploymentWizard.PayloadIsFaithful | frontend/islands/DeploymentWizard.tsx:155-210 | that is so of every form, accepted or not |
| DeploymentWizard.ValidatedFormIsSound | frontend/islands/DeploymentWizard.tsx:103-210 | a form that passes both validated steps gives a request that says what the form does, with a valid name, replicas and ports in range, valid variable names and no empty label key |
| DeploymentWizard.NoOtherPortDropped | frontend/islands/DeploymentWizard.tsx:170-173 | of a validated form's ports only those left at zero are dropped |
| DeploymentWizard.NoOtherVariableDropped | frontend/islands/DeploymentWizard.tsx:175-187 | of a form's variables only those left without a name are dropped |
| DeploymentWizard.Island.UpdateField | frontend/islands/DeploymentWizard.tsx:88-101 | one field changes; a new name is also written into the first "app" label |
| DeploymentWizard.Island.ValidateStep | frontend/islands/DeploymentWizard.tsx:103-136 | the errors shown are exactly the step's faults, and the verdict says whether there is none |
| DeploymentWizard.Island.FetchPreview | frontend/islands/DeploymentWizard.tsx:150-187 | a request takes the next generation and says what the form does as it is |
| DeploymentWizard.Island.GoNext | frontend/islands/DeploymentWizard.tsx:138-148 | the wizard takes the very step the runs take: on by one if and only if the current step passes, its faults shown, a request leaving only on the way to the review and saying what the form does |
| DeploymentWizard.Island.OnStep | frontend/islands/DeploymentWizard.tsx:258-260 | a click on a step goes back to it, never forward |
| DeploymentWizard.Island.OnBack | frontend/islands/DeploymentWizard.tsx:262 | back stops at the first step |
| DeploymentWizard.Island.PreviewReturned | frontend/islands/DeploymentWizard.tsx:216-226 | the newest request's outcome is written, any other's is dropped |
| DeploymentWizard.EditIsLocal | frontend/islands/DeploymentWizard.tsx:270-309 | an edit of one step's fields changes no other step's verdict |
| DeploymentWizard.StepKeepsInv | frontend/islands/DeploymentWizard.tsx:258-316 | every event keeps the steps behind valid, the review current and all requests sound and faithful to validated forms |
| DeploymentWizard.ReachedStepsAreValid | frontend/islands/DeploymentWizard.tsx:138-148 | in every reachable state the form passes every step already left behind |
| DeploymentWizard.EveryPayloadIsSound | frontend/islands/DeploymentWizard.tsx:150-213 | every request of every run is sound, and says what some form did that had passed both validated steps |
| DeploymentWizard.ReviewShowsCurrentForm | frontend/islands/DeploymentWizard.tsx:141-144 | on the review step the newest request says what the form does as it stands, and once loaded its reply is what is shown |
| DeploymentWizard.Navigation | frontend/islands/DeploymentWizard.tsx:138-148 | the buttons move by one step forward where the step passes, by one back or to a step behind, and leave the form as it is |
| DeploymentWizard.AcceptedFormReachesReview | frontend/islands/DeploymentWizard.tsx:138-148 | from the first step a form that passes the two validated steps reaches the review in three clicks, and its request leaves |
| WizardRules.DnsLabelPattern | frontend/lib/wizard-constants.ts:28 | the name rule is the pattern: 1 to 63 characters by its outer and inner classes |
| WizardRules.EnvVarNamePattern | frontend/lib/wizard-constants.ts:34 | the variable name rule is the pattern: a letter or underscore, then letters, digits and underscores |
| WizardRules.DataKeyPattern | frontend/islands/ConfigMapWizard.tsx:103 | the key rule is the pattern: 1 to 253 characters by its outer and inner classes |
| ConfigMapWizard.EditSetsItsField | frontend/islands/ConfigMapWizard.tsx:61-91 | an edit sets its own field of its own row, adds a blank row at the end or takes one row out, and changes nothing else |
| ConfigMapWizard.ValidateRows | frontend/islands/ConfigMapWizard.tsx:103-121 | the loop records exactly the rows with a missing, invalid or repeated key, and sums all lengths |
| ConfigMapWizard.TotalAdds | frontend/islands/ConfigMapWizard.tsx:120 | sizes add up, a row's being that of its key and of its value |
| Text.UnitsAdd | frontend/islands/ConfigMapWizard.tsx:120 | lengths add up |
| Text.UnitsOfText | frontend/islands/ConfigMapWizard.tsx:120 | a text has one unit for each character, and one more for each character beyond the basic plane |
| ConfigMapWizard.Validate | frontend/islands/ConfigMapWizard.tsx:93-129 | the errors are exactly the form's faults |
| ConfigMapWizard.AcceptsExactly | frontend/islands/ConfigMapWizard.tsx:93-129 | a form is accepted if and only if name and namespace are good, the keys of its non-blank rows are valid and pairwise distinct, and the total length is at most 1048576 |
| ConfigMapWizard.DataKeys | frontend/islands/ConfigMapWizard.tsx:147-152 | the keys sent are exactly the non-empty keys of the rows |
| ConfigMapWizard.DataHasEveryRow | frontend/islands/ConfigMapWizard.tsx:147-152 | with distinct valid keys there is one entry for each non-blank row, with that row's value, and none else |
| ConfigMapWizard.BuildData | frontend/islands/ConfigMapWizard.tsx:147-152 | the loop builds that map |
| ConfigMapWizard.AcceptedPayloadIsFaithful | frontend/islands/ConfigMapWizard.tsx:93-158 | the request of an accepted form loses no row and adds none |
| ConfigMapWizard.Island.UpdateEntry | frontend/islands/ConfigMapWizard.tsx:66-74 | one field of one row changes |
| ConfigMapWizard.Island.AddEntry | frontend/islands/ConfigMapWizard.tsx:76-82 | a blank row is appended |
| ConfigMapWizard.Island.RemoveEntry | frontend/islands/ConfigMapWizard.tsx:84-91 | one row is removed, a blank one taking the place of the last |
| ConfigMapWizard.Island.GoNext | frontend/islands/ConfigMapWizard.tsx:131-158 | the wizard takes the very step the runs take: the review is reached and a request sent if and only if the form is accepted |
| ConfigMapWizard.Island.OnStep | frontend/islands/ConfigMapWizard.tsx:200-202 | a click on a step goes back to it, never forward |
| ConfigMapWizard.Island.GoBack | frontend/islands/ConfigMapWizard.tsx:137-139 | back returns to the first step |
| ConfigMapWizard.Island.PreviewReturned | frontend/islands/ConfigMapWizard.tsx:160-174 | the newest request's outcome is written, any other's is dropped |
| ConfigMapWizard.StepKeepsInv | frontend/islands/ConfigMapWizard.tsx:61-175 | every event keeps some row on screen, the review current and every request faithful to an accepted form |
| ConfigMapWizard.ReviewShowsCurrentForm | frontend/islands/ConfigMapWizard.tsx:131-175 | on the review step the newest request is the current form's faithful payload, and once loaded its reply is what is shown |
| ConfigMapWizard.EveryPayloadIsFaithful | frontend/islands/ConfigMapWizard.tsx:141-165 | no request of any run was built from a form that was not accepted |
| ConfigMapWizard.Navigation | frontend/islands/ConfigMapWizard.tsx:131-139 | the buttons lead on to the review where the form is accepted and back from it, and leave the form as it is |
| ConfigMapWizard.AcceptedFormReachesReview | frontend/islands/ConfigMapWizard.tsx:131-158 | from the first step an accepted form reaches the review in one click, and its faithful request leaves |
| Lists.FilterKeepsOrder | frontend/islands/CiliumPolicyEditor.tsx:759-765 | filtering keeps the passing rows, each once, in order |
| CiliumPolicy.PiecesOfJoin | frontend/islands/CiliumPolicyEditor.tsx:698-701 | pieces joined by commas are read back as they were |
| CiliumPolicy.PiecesOfField | frontend/islands/CiliumPolicyEditor.tsx:690-701 | a comma-separated field, with white space around each text, is read as its texts in order, the empty ones left out |
| CiliumPolicy.ParseIntSkips | frontend/islands/CiliumPolicyEditor.tsx:703 | white space in front of a number is skipped |
| CiliumPolicy.ParseIntReads | frontend/islands/CiliumPolicyEditor.tsx:703 | digits are read up to the first character that is none, and their value is the number |
| CiliumPolicy.ParseIntReadsSign | frontend/islands/CiliumPolicyEditor.tsx:703 | one sign in front of a digit counts, and a sign without one is no number |
| CiliumPolicy.ParseIntRefuses | frontend/islands/CiliumPolicyEditor.tsx:166 | where neither digit nor sign comes first there is no number |
| CiliumPolicy.PolicyNamePattern | frontend/islands/CiliumPolicyEditor.tsx:151 | the name rule is the pattern: 1 to 253 characters by its outer and inner classes |
| CiliumPolicy.ValidateForm | frontend/islands/CiliumPolicyEditor.tsx:149-174 | a form is accepted if and only if its name and every row are; otherwise the message is the first fault of the first faulty row |
| CiliumPolicy.ValidateRow | frontend/islands/CiliumPolicyEditor.tsx:155-171 | a row is accepted if and only if its peer is filled in and every piece of its ports is in range; otherwise its first fault is named |
| CiliumPolicy.GoodRowsAreAccepted | frontend/islands/CiliumPolicyEditor.tsx:154-171 | a row is accepted whose peer is filled in and whose ports are numbers from 1 to 65535 in plain decimal |
| CiliumPolicy.BuildPayload | frontend/islands/CiliumPolicyEditor.tsx:659-716 | the request holds the selector's labels by key and, under each direction and in row order, a rule for each of its rows that says what the row does |
| CiliumPolicy.BuildRule | frontend/islands/CiliumPolicyEditor.tsx:676-706 | the rule compiled from one row carries its peer type and action, the entities, the CIDRs as typed or the labels by key, and where ports are typed a port with the row's protocol for each text |
| CiliumPolicy.RuleSaysItsRow | frontend/islands/CiliumPolicyEditor.tsx:675-706 | that is so of every row, accepted or not |
| CiliumPolicy.LabelMapMaps | frontend/islands/CiliumPolicyEditor.tsx:665-686 | the last label of each key, trimmed, is sent with its value, trimmed, and no other |
| CiliumPolicy.DirectionsPartitionRows | frontend/islands/CiliumPolicyEditor.tsx:708-712 | ingress and egress lists hold the rows of their direction, each once and in order, and between them all |
| CiliumPolicy.AcceptedPortsAreInRange | frontend/islands/CiliumPolicyEditor.tsx:162-171 | an accepted row sends one port from 1 to 65535, with the row's protocol, for each non-empty piece of its text, in order |
| CiliumPolicy.AcceptedPayloadPorts | frontend/islands/CiliumPolicyEditor.tsx:697-706 | every port in the request of an accepted form is a number from 1 to 65535 |
| CiliumPolicy.PreviewGroups | frontend/islands/CiliumPolicyEditor.tsx:759-793 | the k-th entry under each of the four keys renders the k-th row, as listed, of that direction and action: its labels with a key, its entities or its CIDRs by peer type, and its port texts; and every row is under one key |
| CiliumPolicy.RenderRules | frontend/islands/CiliumPolicyEditor.tsx:767-788 | what is rendered of a group, row by row: kind of peer, label lines with a key, entities, CIDRs, port pieces and protocol |
| CiliumPolicy.PreviewAgreesWithPayload | frontend/islands/CiliumPolicyEditor.tsx:659-793 | filtering the request's rules by action gives the preview's groups, rule for rule: the same kind of peer, with the same entities, CIDRs or, by key, labels, and the port texts shown parsed |
| CiliumPolicy.LabelLinesAgreeExactly | frontend/islands/CiliumPolicyEditor.tsx:798-806 | the label lines shown are the labels sent if and only if, the last of equal keys counting, they are typed without outer white space |
| CiliumPolicy.FourGroups | frontend/islands/CiliumPolicyEditor.tsx:759-765 | each group is its own rows, each once, in order |
| CiliumPolicy.PortTextAgreesExactly | frontend/islands/CiliumPolicyEditor.tsx:783 | the preview's port text is the number sent if and only if it is in plain decimal |
| CiliumPolicy.RemoveTakesOneRow | frontend/islands/CiliumPolicyEditor.tsx:117-120 | a removal takes out its row and no other |
| CiliumPolicy.UpdateSetsOneField | frontend/islands/CiliumPolicyEditor.tsx:122-126 | an update sets its own field of its row and no other |
| CiliumPolicy.AddAppendsBlankRow | frontend/islands/CiliumPolicyEditor.tsx:113-120 | adding puts one blank row behind the others, under an id none of them has; a render and the removal of the only row change no row |
| CiliumPolicy.EditsKeepRows | frontend/islands/CiliumPolicyEditor.tsx:113-126 | no edit empties the list or makes two ids equal |
| CiliumPolicy.AlwaysEditable | frontend/islands/CiliumPolicyEditor.tsx:40-69 | so it is after any edits and renders, wherever the id counter stood |
| YamlScalar.ThreePassesAreOne | frontend/islands/CiliumPolicyEditor.tsx:723-726 | the three successive replacements never see each other's output: they are one escaping pass |
| YamlScalar.QuotedExactly | frontend/islands/CiliumPolicyEditor.tsx:719-728 | a text is printed as it stands if and only if it is not empty, has no outer white space and none of the 23 marked characters, and else quoted and escaped in one pass |
| YamlScalar.QuotedRoundTripExactly | frontend/islands/CiliumPolicyEditor.tsx:723-726 | scanning the quoted text stops at its closing quote and gives the string back if and only if it has no control character but tab and line feed |
| YamlScalar.UnquotedIsPlain | frontend/islands/CiliumPolicyEditor.tsx:719-728 | an unquoted output opens with no double quote, has no line break, and is a plain scalar exactly when it is printable, has no apostrophe in front and does not open like a list item |
| YamlScalar.ReadsBackExactly | frontend/islands/CiliumPolicyEditor.tsx:719-729 | a printed string reads back as that string if and only if it was quoted and has no control character but tab and line feed, or was not, is a plain scalar, and is none of the core schema's nulls, booleans and numbers |
| YamlScalar.TypedTextIsLost | frontend/islands/CiliumPolicyEditor.tsx:720-728 | `true`, `~` and `12` are left unquoted and come back as a boolean, a null and a number |
| YamlScalar.ApostropheIsLost | frontend/islands/CiliumPolicyEditor.tsx:721 | a leading apostrophe is left unquoted and does not read back |
| YamlScalar.YamlEscapeInjective | frontend/islands/CiliumPolicyEditor.tsx:719-729 | no two strings are printed alike |
| JsonPath.SplitName | frontend/islands/CRDResourceList.tsx:39 | a name without separators passes whole into the piece being read |
| JsonPath.AnyLeadingDots | frontend/islands/CRDResourceList.tsx:39 | leading dots, however many, change nothing |
| JsonPath.PartsArePlain | frontend/islands/CRDResourceList.tsx:39 | every part of every path is non-empty and has no separator inside |
| JsonPath.RoundTripExactly | frontend/islands/CRDResourceList.tsx:39 | printing names and indices and tokenizing them gives the list back if and only if every name is non-empty, dot-free and without a bracketed number |
| JsonPath.PartsAtSeparator | frontend/islands/CRDResourceList.tsx:39 | a path may be cut before any dot or bracketed number: the parts of the two pieces make up its parts |
| JsonPath.PartsOfPiece | frontend/islands/CRDResourceList.tsx:39 | text without a separator is one part, a dot in front of it adds none, and any bracketed digits are a part, as they stand |
| JsonPath.ExtractJsonPath | frontend/islands/CRDResourceList.tsx:38-46 | the loop walks the value along the path's parts |
| JsonPath.NamedByPosition | frontend/islands/CRDResourceList.tsx:43 | a name finds the element of an array whose position prints as that name |
| JsonPath.WalkDescends | frontend/islands/CRDResourceList.tsx:41-45 | the walk by texts is the typed descent by names and array positions |
| JsonPath.ExtractFollowsPrintedPath | frontend/islands/CRDResourceList.tsx:38-46 | extraction along a printed path is that descent, whatever dots lead it |
| JsonPath.WalkStopsAtNonObject | frontend/islands/CRDResourceList.tsx:42 | from the first thing that is not an object on, the result is undefined |

## Left out

Parts of the islands outside the models:

- Rendering, styles, links, colours, health marks, abbreviations and the zoom and drag handlers.
- The transport: a reply is an event that delivers any value or failure, at any moment or never.
- The socket's `onopen` messages, the flow table's `loading` flag and the `dirty` flags.
- Tooltip maps between pods and nodes, and between pods and claims.
- The indentation and fixed lines of the YAML preview, and its debounce timer.
- That YAML forbids a mapping to repeat a key: label lines with equal keys are read with the last one counting.
- YAML scalars over several lines, and schemas other than the core schema of YAML 1.2.2.
- Properties inherited from `Object.prototype`, as in a path or a label key `__proto__` or `constructor`.
- Daylight saving: local time is a fixed offset from UTC.
- Locale formatting of dates, and the rounding of floating point: coordinates and scores are reals.
- Lone surrogates: a string is a sequence of whole characters. Where the source counts UTF-16 units for a
  bound that matters, the model counts them too (`Text.Units`).
- The other islands: single fetches, filters and page clamps that would add only easy members.

Statements that are narrower than the code:

- TrendChart.FillDateGaps: its precondition asks for full-dates at both ends and a range on which the loop
  ends. An invalid date makes the source throw, and `TrendChart.EndsExactly` says when the loop runs on.
- TrendChart.EndsExactly: for ranges whose ends are full-dates, as the trend endpoint sends them.
- TopologyMeaning.AllDrawnExactly: for snapshots in which namespace and name tell the objects of one kind
  apart, as the cluster's API guarantees.
- FlowStream.KeepsNewestFlows: as long as no HTTP reply lands beside the open socket; `FlowStream.FaithfulExactly`
  says what happens otherwise. After the socket has gone such a reply takes the table over by design.
- CiliumPolicy.RenderRules: says what each entry renders, not the characters of its lines.
- BulkRefresh.Invariant: for a fixed action and target; `submit` has no cancellation flag for a change of them.
- YamlScalar.QuotedRoundTripExactly: the scanner knows the three escape sequences the printer writes.
- DeploymentWizard.ReachedStepsAreValid: each step's fields change only while that step is on screen, as
  the step components are handed only their own fields.
