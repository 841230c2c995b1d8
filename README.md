# AppTrack job-pipeline engine, modelled in Dafny

AppTrack keeps track of job applications. Each application moves through
an **event flow**: a user-defined graph of application states, such as
Applied → Phone screen → Rejected. Some states are always available, some
are initial, and a deleted state is only flagged as deleted. States are
grouped into **sankey nodes**, and a Sankey diagram is drawn from every
application's event history. Applications, events and companies are
checked and cleaned up before they are stored. An application counts as
*ghosted* once its last event is older than a configurable period. A
company may carry a logo, uploaded as a base64 data URL.

This project models the core of that engine. It covers:

- the two tables behind the event flow and the sankey nodes, as classes
  whose fields the SQL statements rewrite;
- the services that validate input and call those tables;
- the diagram aggregation;
- the application, company and media services;
- the status / next-step rules of the application overview.

The store's reporting queries, the clock, the file system and the UI are
parameters or are left out (see below).

Modules, one per source file plus two shared ones:

| module | file | models |
|---|---|---|
| `Common` | common.dfy | Option/Result, JavaScript truthiness, `trim`, `?.trim() \|\| null`, string `<`, `toLowerCase`, filtering rows |
| `CommaList` | comma_list.dfy | `GROUP_CONCAT(id, ',')` and its inverse `split(',').map(parseInt)` |
| `EventFlowPersistence` | event_flow_persistence.dfy | `applicationStates` / `applicationFlow` tables and statements |
| `SankeyNodePersistence` | sankey_node_persistence.dfy | `sankeyNodes` / `sankeyLinks` tables and statements |
| `EventFlowSettingService` | event_flow_setting_service.dfy | the event-flow map, validation, create / update / delete / swap |
| `SankeyNodeService` | sankey_node_service.dfy | node listing, validation, add / update / delete |
| `SankeyService` | sankey_service.dfy | the Sankey diagram aggregation |
| `SankeyServiceExample` | sankey_service_example.dfy | a worked four-application diagram |
| `ApplicationService` | application_service.dfy | application and event forms, ghosting, reading |
| `ApplicationOverview` | application_overview.dfy | current step, progress rule, next-step menu |
| `MediaService` | media_service.dfy | the logo data-URL header check |
| `CompanyService` | company_service.dfy | company form, logo handling on create / update / remove |

## Model

| member | source | states |
|---|---|---|
| Common.Trim | src/js/main/service/application-service.js:246 | `trim` cuts white space from both ends and nothing else; the result is empty exactly when the input is all white space |
| Common.TrimIdempotent | src/js/main/service/application-service.js:246-253 | trimming a trimmed value changes nothing |
| Common.TrimOrNull | src/js/main/service/application-service.js:249 | `x?.trim() \|\| null` is null exactly for a missing or blank value, otherwise the non-empty trimmed text |
| Common.TrimOrNullIdempotent | src/js/main/service/application-service.js:249-253 | sanitizing an optional field twice is sanitizing it once |
| Common.TrimPadded | src/js/main/service/application-service.js:240 | trimming text padded with white space gives back exactly the text |
| Common.StringLessAsymmetric | src/js/main/service/application-service.js:257 | JavaScript string `<` never holds both ways |
| Common.StringLessTotal | src/js/main/service/application-service.js:257 | two different strings are ordered one way or the other |
| Common.Lower | src/js/main/service/media-service.js:17 | `toLowerCase` keeps the length and lowers every ASCII capital |
| Common.Filter | src/js/main/persistence/event-flow-persistence.js:104-108 | a `DELETE ... WHERE` keeps exactly the rows the condition rejects, with their multiplicities |
| Common.FilterCons | src/js/render/components/application-overview.js:42-44 | filtering a sequence with a first element decides that element, then filters the rest |
| Common.FilterIdempotent | src/js/main/persistence/event-flow-persistence.js:104-108 | repeating a `DELETE ... WHERE` removes nothing more |
| CommaList.NatToString | src/js/main/persistence/event-flow-persistence.js:75 | a natural number prints as a non-empty digit string |
| CommaList.NatRoundTrip | src/js/main/service/event-flow-setting-service.js:134 | `parseInt` reads back the number a natural printed as |
| CommaList.IntToString | src/js/main/persistence/event-flow-persistence.js:75 | an id prints as an integer literal |
| CommaList.IntRoundTrip | src/js/main/service/event-flow-setting-service.js:134 | `parseInt` reads back any printed id, negative ones included |
| CommaList.Split | src/js/main/service/event-flow-setting-service.js:133 | `split(',')` always gives at least one piece |
| CommaList.SplitJoinsBack | src/js/main/service/event-flow-setting-service.js:133 | no piece of `split(',')` holds a comma, and joining the pieces with commas gives the input back |
| CommaList.SplitPiece | src/js/main/service/event-flow-setting-service.js:133 | splitting a comma-free piece followed by a comma gives the piece first |
| CommaList.ParseAll | src/js/main/service/event-flow-setting-service.js:133-134 | every piece of a well-formed list is parsed, one number per piece: the k-th number is `parseInt` of the k-th piece |
| CommaList.ParseIdList | src/js/main/service/sankey-node-service.js:27-31 | a NULL column is the empty list; otherwise one number per piece of `split(',')`, the k-th being `parseInt` of the k-th piece |
| CommaList.ParseGroupConcat | src/js/main/persistence/sankey-node-persistence.js:64 | `GROUP_CONCAT` of ids gives a well-formed list, NULL for no ids |
| CommaList.JoinRoundTrip | src/js/main/service/sankey-node-service.js:27-31 | splitting and parsing a `GROUP_CONCAT` gives back the ids in order |
| EventFlowPersistence.MaxDisplayOrder | src/js/main/persistence/event-flow-persistence.js:87 | `IFNULL(MAX(displayOrder), 0)` is an upper bound reached by some row, 0 for an empty table |
| EventFlowPersistence.MaxId | src/js/main/persistence/event-flow-persistence.js:81-87 | the largest state id is an upper bound reached by some row, 0 for an empty table |
| EventFlowPersistence.NextId | src/js/main/persistence/event-flow-persistence.js:24-33 | the new rowid is larger than every existing id |
| EventFlowPersistence.Targets | src/js/main/persistence/event-flow-persistence.js:75-77 | a state's next-step ids are exactly the targets of the flow rows leaving it |
| EventFlowPersistence.InsertByDisplayOrder | src/js/main/persistence/event-flow-persistence.js:79 | inserting into a display-ordered list keeps it ordered and is a permutation of list plus row |
| EventFlowPersistence.InsertKeepsUniqueIds | src/js/main/persistence/event-flow-persistence.js:79 | inserting a row with a new id keeps ids unique |
| EventFlowPersistence.SortByDisplayOrder | src/js/main/persistence/event-flow-persistence.js:79 | `ORDER BY displayOrder` is sorted and a permutation of the table |
| EventFlowPersistence.SortKeepsUniqueIds | src/js/main/persistence/event-flow-persistence.js:79 | sorting keeps ids unique |
| EventFlowPersistence.ListStates | src/js/main/persistence/event-flow-persistence.js:68-79 | the listing has every state once, deleted ones included, sorted by display order, each with the `GROUP_CONCAT` of its targets |
| EventFlowPersistence.ListingKeepsUniqueIds | src/js/main/persistence/event-flow-persistence.js:78 | `GROUP BY s.id` lists each id once |
| EventFlowPersistence.UpdateFields | src/js/main/persistence/event-flow-persistence.js:94-98 | only the row with the id changes, and only its name and two flags |
| EventFlowPersistence.SoftDelete | src/js/main/persistence/event-flow-persistence.js:100-102 | only `isDeleted` of the matching row changes, to 1 |
| EventFlowPersistence.SwapDisplayOrders | src/js/main/persistence/event-flow-persistence.js:110-117 | the CASE update gives `id1` the second order and `id2` the first; other rows and fields are untouched |
| EventFlowPersistence.RemoveBySource | src/js/main/persistence/event-flow-persistence.js:104-105 | no edge leaves the state afterwards; all other edges stay |
| EventFlowPersistence.RemoveByTarget | src/js/main/persistence/event-flow-persistence.js:107-108 | no edge enters the state afterwards; all other edges stay |
| EventFlowPersistence.EventFlowTables.InsertApplicationState | src/js/main/persistence/event-flow-persistence.js:24-33 | appends a live row with the next id and the next display order; flow unchanged |
| EventFlowPersistence.EventFlowTables.UpdateApplicationState | src/js/main/persistence/event-flow-persistence.js:35-42 | the table becomes `UpdateFields` of itself; flow unchanged |
| EventFlowPersistence.EventFlowTables.DeleteApplicationState | src/js/main/persistence/event-flow-persistence.js:44-46 | the table becomes its soft-deleted self |
| EventFlowPersistence.EventFlowTables.RemoveApplicationStateFromFlowById | src/js/main/persistence/event-flow-persistence.js:48-52 | the flow loses the state's outgoing edges |
| EventFlowPersistence.EventFlowTables.RemoveApplicationStateFromFlowByNextStepId | src/js/main/persistence/event-flow-persistence.js:54-59 | the flow loses the edges into the state |
| EventFlowPersistence.EventFlowTables.InsertApplicationFlow | src/js/main/persistence/event-flow-persistence.js:61-66 | one edge is appended, duplicates allowed |
| EventFlowPersistence.EventFlowTables.SwapDisplayOrderOfApplicationStates | src/js/main/persistence/event-flow-persistence.js:8-22 | the table becomes `SwapDisplayOrders` of itself with the arguments in the statement's order |
| EventFlowPersistence.SwapIsExchange | src/js/main/persistence/event-flow-persistence.js:110-117 | with the orders the rows really have, the swap exchanges them, and swapping twice restores the table |
| EventFlowPersistence.SoftDeleteIdempotent | src/js/main/persistence/event-flow-persistence.js:100-102 | a second delete changes nothing |
| EventFlowPersistence.InsertedStateIsLast | src/js/main/persistence/event-flow-persistence.js:81-87 | a new state is listed after every existing one |
| SankeyNodePersistence.NextNodeId | src/js/main/persistence/sankey-node-persistence.js:4-11 | the new node id is larger than every existing id |
| SankeyNodePersistence.LinkedStates | src/js/main/persistence/sankey-node-persistence.js:62-64 | a node's state ids are exactly those of its link rows |
| SankeyNodePersistence.LinkedStatesAppend | src/js/main/persistence/sankey-node-persistence.js:64 | the states over two runs of link rows are the states of each run, in order |
| SankeyNodePersistence.ListNodes | src/js/main/persistence/sankey-node-persistence.js:60-71 | every node is listed once with its `GROUP_CONCAT` of states and its `isTerminal` column |
| SankeyNodePersistence.TerminalColumnBounds | src/js/main/persistence/sankey-node-persistence.js:65-69 | a node without links reads terminal with NULL ids; all states without next steps read 1, all with next steps read 0; 0 implies some state has a next step |
| SankeyNodePersistence.RenameNode | src/js/main/persistence/sankey-node-persistence.js:73 | only the matching row's name and colour change |
| SankeyNodePersistence.RemoveNode | src/js/main/persistence/sankey-node-persistence.js:77 | the node row is gone and all others stay |
| SankeyNodePersistence.RemoveLinksOfNode | src/js/main/persistence/sankey-node-persistence.js:75 | the node's link rows are gone and all others stay |
| SankeyNodePersistence.RemoveLinksOfState | src/js/main/persistence/sankey-node-persistence.js:79 | the state's link rows are gone across all nodes, and all others stay |
| SankeyNodePersistence.FilterKeepsIncreasing | src/js/main/persistence/sankey-node-persistence.js:77 | deleting rows keeps rowid order |
| SankeyNodePersistence.SankeyNodeTables.InsertSankeyNode | src/js/main/persistence/sankey-node-persistence.js:4-11 | appends a row with the next id and returns that id; links unchanged |
| SankeyNodePersistence.SankeyNodeTables.InsertSankeyLink | src/js/main/persistence/sankey-node-persistence.js:13-18 | appends exactly one link row |
| SankeyNodePersistence.SankeyNodeTables.UpdateSankeyNode | src/js/main/persistence/sankey-node-persistence.js:20-26 | renames the node; links unchanged |
| SankeyNodePersistence.SankeyNodeTables.DeleteSankeyLinksBySankeyNodeId | src/js/main/persistence/sankey-node-persistence.js:35-39 | drops the node's links |
| SankeyNodePersistence.SankeyNodeTables.DeleteSankeyLinksByApplicationStateId | src/js/main/persistence/sankey-node-persistence.js:41-50 | drops the state's links |
| SankeyNodePersistence.SankeyNodeTables.DeleteSankeyNode | src/js/main/persistence/sankey-node-persistence.js:28-33 | drops the node's links, then the node row |
| EventFlowSettingService.LookupState | src/js/main/service/event-flow-setting-service.js:123-126 | the `Map` lookup finds the listed state with the id, or none when no state has it |
| EventFlowSettingService.NextStepsOf | src/js/main/service/event-flow-setting-service.js:131-141 | the next steps are the parsed ids that name a listed, non-deleted state |
| EventFlowSettingService.ProcessApplicationStates | src/js/main/service/event-flow-setting-service.js:122-144 | one entry per listed state, with the state unchanged |
| EventFlowSettingService.ListingWellFormed | src/js/main/service/event-flow-setting-service.js:131-134 | every next-step column of the listing splits into id literals |
| EventFlowSettingService.EventFlowMapStates | src/js/main/service/event-flow-setting-service.js:23-27 | the map lists each state of the table exactly once, ordered by display order |
| EventFlowSettingService.EventFlowMapSorted | src/js/main/service/event-flow-setting-service.js:23-27 | the map's states never decrease in display order |
| EventFlowSettingService.EventFlowMapRows | src/js/main/service/event-flow-setting-service.js:23-27 | one entry per state row, each for a row of the table |
| EventFlowSettingService.EventFlowMapCovers | src/js/main/service/event-flow-setting-service.js:23-27 | every state row of the table has an entry |
| EventFlowSettingService.EventFlowMapUnique | src/js/main/service/event-flow-setting-service.js:23-27 | unique ids in the table give unique ids in the map |
| EventFlowSettingService.GetEventFlowMap | src/js/main/service/event-flow-setting-service.js:23-27 | `getEventFlowMap` over the live tables: one entry per state row, each for a row of the table, in display order |
| EventFlowSettingService.UsableIsLive | src/js/main/service/event-flow-setting-service.js:137-138 | a next step survives the filter exactly when its state exists and is not deleted |
| EventFlowSettingService.EventFlowMapNextSteps | src/js/main/service/event-flow-setting-service.js:122-144 | an entry's next steps are exactly its live flow targets |
| EventFlowSettingService.FindEntry | src/js/main/service/event-flow-setting-service.js:155 | `find` returns the first entry with the id, or none |
| EventFlowSettingService.NextStepFailure | src/js/main/service/event-flow-setting-service.js:155-166 | a next step fails as 'not found' without an entry and as 'is deleted' for a deleted one |
| EventFlowSettingService.CheckNextSteps | src/js/main/service/event-flow-setting-service.js:154-167 | the first failing next step in input order decides the error |
| EventFlowSettingService.OrZero | src/js/main/service/event-flow-setting-service.js:172-173 | `x \|\| 0` keeps a truthy flag and turns anything else into 0 |
| EventFlowSettingService.ValidateAndSanitizeApplicationState | src/js/main/service/event-flow-setting-service.js:146-181 | a missing name fails first, a missing next-step list fails reading its `forEach`, then the next steps are checked; success trims the name and defaults the flags |
| EventFlowSettingService.ValidatedNextStepsAreLive | src/js/main/service/event-flow-setting-service.js:154-167 | every accepted next step is a live state |
| EventFlowSettingService.BlankNameAccepted | src/js/main/service/event-flow-setting-service.js:150-151 | a name of one blank passes validation and is stored empty |
| EventFlowSettingService.FlowRowsFrom | src/js/main/service/event-flow-setting-service.js:38-42 | one edge from the state per next-step id, in order |
| EventFlowSettingService.InsertFlowRows | src/js/main/service/event-flow-setting-service.js:38-42 | the flow gains exactly those edges |
| EventFlowSettingService.InsertSanitizedState | src/js/main/persistence/event-flow-persistence.js:24-33 | the table gains the created row |
| EventFlowSettingService.CreateApplicationState | src/js/main/service/event-flow-setting-service.js:34-46 | on a valid input the state row and its edges are added and the new map returned; an invalid input changes nothing |
| EventFlowSettingService.UpdateApplicationState | src/js/main/service/event-flow-setting-service.js:54-69 | a falsy id fails first; a valid input rewrites the row's fields and replaces its outgoing edges |
| EventFlowSettingService.DeleteApplicationState | src/js/main/service/event-flow-setting-service.js:81-106 | a falsy id fails; deleting the only live initial state is refused; otherwise soft-delete, drop incoming edges and sankey links; a live initial state is never lost |
| EventFlowSettingService.SwapOrderOfApplicationStates | src/js/main/service/event-flow-setting-service.js:113-120 | the orders are swapped as passed and the new map returned |
| EventFlowSettingService.SurvivesSoftDelete | src/js/main/service/event-flow-setting-service.js:86-98 | deleting another state leaves a live initial state live |
| EventFlowSettingService.DeleteGuardIsExact | src/js/main/service/event-flow-setting-service.js:86-98 | given a live initial state in the table, the refusal happens exactly when the delete would leave none |
| EventFlowSettingService.InitialEntriesMembership | src/js/main/service/event-flow-setting-service.js:86-90 | the filtered entries are exactly the live initial ones |
| EventFlowSettingService.RefusedLeavesNone | src/js/main/service/event-flow-setting-service.js:92-98 | a refused delete would have left no live initial state |
| EventFlowSettingService.AllowedLeavesOne | src/js/main/service/event-flow-setting-service.js:92-100 | an allowed delete leaves a live initial state |
| EventFlowSettingService.FlowRowsFromEdges | src/js/main/service/event-flow-setting-service.js:61-66 | after removing a state's edges and inserting the new ones, its targets are exactly the new next steps |
| EventFlowSettingService.RemovedBySourceHasNoEdge | src/js/main/service/event-flow-setting-service.js:61 | no edge leaves the state after its edges are removed |
| EventFlowSettingService.AppendedRow | src/js/main/service/event-flow-setting-service.js:37 | a row with the next id keeps ids unique and keeps every live state live |
| EventFlowSettingService.UpdatedRows | src/js/main/service/event-flow-setting-service.js:60 | updating fields keeps ids unique and liveness unchanged |
| EventFlowSettingService.CreatedRow | src/js/main/persistence/event-flow-persistence.js:81-87 | the created row has the next id, is live, carries the sanitized fields and the largest display order |
| EventFlowSettingService.CreatedStateListed | src/js/main/service/event-flow-setting-service.js:34-46 | the created state appears in the new map |
| EventFlowSettingService.CreatedStateRoundTrip | src/js/main/service/event-flow-setting-service.js:34-46 | when no edge already leaves the new id, the created state's next steps in the new map are exactly the ones given |
| EventFlowSettingService.UpdateReplacesNextSteps | src/js/main/service/event-flow-setting-service.js:54-69 | after an update the state's next steps in the map are exactly the ones given |
| SankeyNodeService.SankeyNodesOf | src/js/main/service/sankey-node-service.js:20-37 | one node per row; its state ids parse back to the node's linked states; terminal iff the column is 1; permanent iff id 1 or 2 |
| SankeyNodeService.GetAllSankeyNodes | src/js/main/service/sankey-node-service.js:20-37 | `getAllSankeyNodes` over the live tables: each node row once, in table order, with its name, colour, linked states, terminal column and permanent flag |
| SankeyNodeService.MissingState | src/js/main/service/sankey-node-service.js:112-118 | the first state id without an event-flow entry, none when all exist |
| SankeyNodeService.ValidateAndSanitizeSankeyNodeInput | src/js/main/service/sankey-node-service.js:99-131 | name, colour and hex colour fail in that order, then the first unknown state; success trims the name and defaults the ids to empty |
| SankeyNodeService.LinksFrom | src/js/main/service/sankey-node-service.js:48-52 | one link row per state id, in order |
| SankeyNodeService.InsertLinks | src/js/main/service/sankey-node-service.js:48-53 | the links gain exactly those rows |
| SankeyNodeService.AddSankeyNode | src/js/main/service/sankey-node-service.js:44-56 | a valid input adds the node row and its links; an invalid one changes nothing; permanent nodes survive |
| SankeyNodeService.UpdateSankeyNode | src/js/main/service/sankey-node-service.js:64-83 | a falsy id fails first; the row is renamed; a permanent node keeps its links, any other has them replaced |
| SankeyNodeService.DeleteSankeyNode | src/js/main/service/sankey-node-service.js:90-97 | a permanent node is refused and nothing changes; otherwise its links then its row are removed |
| SankeyNodeService.RenameKeepsIds | src/js/main/persistence/sankey-node-persistence.js:73 | renaming keeps every id, so permanent nodes stay |
| SankeyNodeService.LinkedStatesOfLinksFrom | src/js/main/service/sankey-node-service.js:48-52 | the inserted links read back as exactly the given ids |
| SankeyNodeService.LinkedStatesAfterRemove | src/js/main/service/sankey-node-service.js:73 | a node has no states after its links are deleted |
| SankeyNodeService.AddedNodeRoundTrip | src/js/main/service/sankey-node-service.js:44-56 | when no link already points at the new node id, the added node is listed with exactly the given states and no other node's states change |
| SankeyNodeService.UpdatedNodeStates | src/js/main/service/sankey-node-service.js:73-80 | after an update a node's states are exactly the given ids |
| SankeyNodeService.DeletedNodeGone | src/js/main/service/sankey-node-service.js:90-97 | the deleted node and its states are gone and no other node's states change |
| SankeyService.MapToNode | src/js/main/service/sankey-service.js:18-25 | the first node with the id gives name, colour and terminal flag; no such node fails reading `name` |
| SankeyService.TrackIds | src/js/main/service/sankey-service.js:31-37 | each of a node's state ids is mapped to its info; other keys keep theirs |
| SankeyService.TrackedEventsLastWins | src/js/main/service/sankey-service.js:30-39 | a state is tracked iff some node links it, and it maps to the last such node's info |
| SankeyService.BuildTrackedEvents | src/js/main/service/sankey-service.js:30-39 | the `reduce` loop builds exactly the tracked map |
| SankeyService.TrackedOnly | src/js/main/service/sankey-service.js:62-64 | the kept status ids are exactly the tracked ones |
| SankeyService.FirstByName | src/js/main/service/sankey-service.js:65-72 | the kept ids come from the input, are tracked, have distinct node names and cover every name of the input |
| SankeyService.Visits | src/js/main/service/sankey-service.js:62-72 | the visited status ids are all tracked |
| SankeyService.FirstByNameKeepsFirst | src/js/main/service/sankey-service.js:65-72 | every kept id is the first occurrence of its node name |
| SankeyService.VisitsEmpty | src/js/main/service/sankey-service.js:62-72 | nothing is visited iff no status id is tracked |
| SankeyService.FindNode | src/js/main/service/sankey-service.js:42 | `find` by name gives the first match, or none |
| SankeyService.FindLink | src/js/main/service/sankey-service.js:52 | `find` by both ends gives the first match, or none |
| SankeyService.WithNode | src/js/main/service/sankey-service.js:41-49 | a known name gets one more value, otherwise the node is appended with value 1 |
| SankeyService.WithLink | src/js/main/service/sankey-service.js:51-58 | a known pair of ends gets one more flow, otherwise the link is appended with flow 1 |
| SankeyService.VisitStep | src/js/main/service/sankey-service.js:73-89 | one visit keeps the previous id tracked |
| SankeyService.VisitAll | src/js/main/service/sankey-service.js:73-89 | the walk keeps the previous id tracked |
| SankeyService.SankeyDataOf | src/js/main/service/sankey-service.js:12-106 | fails reading `name` iff the ghosted or the in-progress node is missing; no applications give an empty diagram |
| SankeyService.WithNodeFacts | src/js/main/service/sankey-service.js:41-49 | adding a node keeps names unique and raises the total value by one |
| SankeyService.WithLinkFacts | src/js/main/service/sankey-service.js:51-58 | adding a link keeps end pairs unique, adds no self-link between different names, and raises the total flow by one |
| SankeyService.VisitAllKeepsShape | src/js/main/service/sankey-service.js:73-89 | the walk keeps names and link ends unique and adds no self-link |
| SankeyService.VisitAllBalance | src/js/main/service/sankey-service.js:73-89 | visiting k distinct names adds k to the total value and k - 1 to the total flow, and ends at the last visit |
| SankeyService.Finish | src/js/main/service/sankey-service.js:91-102 | with a truthy, non-terminal previous node, the trailing node (ghosted or in progress) gets one more visit and a link from the previous node, raising the total value and flow by one; otherwise nothing changes |
| SankeyService.WithNodeNamed | src/js/main/service/sankey-service.js:41-49 | after `addNode` a node of that name is listed |
| SankeyService.WithLinkNamed | src/js/main/service/sankey-service.js:51-58 | after `addLink` a link with those ends is listed |
| SankeyService.ApplicationStep | src/js/main/service/sankey-service.js:60-103 | one application's turn of the `forEach`; an application without a tracked event leaves the diagram unchanged |
| SankeyService.Aggregate | src/js/main/service/sankey-service.js:60-103 | the applications in order from an empty diagram; when none has a tracked event the diagram stays empty |
| SankeyService.ApplicationStepKeepsShape | src/js/main/service/sankey-service.js:60-103 | one application keeps the diagram well formed, and free of self-links when the trailing nodes are named apart |
| SankeyService.AggregateKeepsShape | src/js/main/service/sankey-service.js:60-103 | the whole diagram has unique names and link ends, and no self-links when the trailing nodes are named apart |
| SankeyService.ApplicationStepBalance | src/js/main/service/sankey-service.js:60-103 | an application with tracked events adds one more to the total value than to the total flow |
| SankeyService.AggregateBalance | src/js/main/service/sankey-service.js:60-103 | total value equals total flow plus the number of applications with a tracked event |
| SankeyService.SankeyAccumulator.AddNode | src/js/main/service/sankey-service.js:41-49 | the in-place `addNode` leaves the node list equal to `WithNode` of the old one; links untouched |
| SankeyService.SankeyAccumulator.AddLink | src/js/main/service/sankey-service.js:51-58 | the in-place `addLink` leaves the link list equal to `WithLink` of the old one; nodes untouched |
| SankeyService.RunApplication | src/js/main/service/sankey-service.js:60-103 | the `forEach` body over one application's visits changes the diagram as `ApplicationStep` |
| SankeyService.GetSankeyData | src/js/main/service/sankey-service.js:12-106 | `getSankeyData` returns exactly `SankeyDataOf` the listed nodes and applications |
| SankeyServiceExample.ExampleTracked | src/js/main/service/sankey-service.js:30-39 | on the example nodes, state 1 is Applied, 3 Phone screen, 10 Rejected, nothing else |
| SankeyServiceExample.ExampleVisits | src/js/main/service/sankey-service.js:62-72 | the example histories visit the expected tracked states |
| SankeyServiceExample.MixedHistoryExample | src/js/main/service/sankey-service.js:12-106 | four applications (ghosted, rejected, two in progress) give Applied 4, Ghosted 1, Rejected 1, Phone screen 2, In Progress 2 and links A→G 1, A→R 1, A→P 2, P→IP 2 |
| SankeyServiceExample.Prefixes | src/js/main/service/sankey-service.js:60-103 | after each prefix of the example applications the diagram is the expected one |
| ApplicationService.PopulateGhostData | src/js/main/service/application-service.js:200-217 | the row is kept; ghosted iff the period has passed iff the percentage is 100; below that the percentage is days over period times 100 |
| ApplicationService.GhostingMonotone | src/js/main/service/application-service.js:210-211 | the percentage never falls as days pass and ghosted stays ghosted |
| ApplicationService.GhostingExamples | src/js/main/service/application-service.js:210-211 | 10 of 20 days is 50 and not ghosted; 10 of 10 is 100 and ghosted |
| ApplicationService.ValidDateFormatJoin | src/js/main/service/application-service.js:240 | four digits, dash, two digits, dash, two digits always pass the date pattern |
| ApplicationService.ValidDateFormatSplit | src/js/main/service/application-service.js:240 | every string passing the date pattern is made of those parts |
| ApplicationService.FiveDigitYearRejected | src/js/main/service/application-service.js:240-242 | '20255-02-20' fails the date format |
| ApplicationService.PaddedDateAccepted | src/js/main/service/application-service.js:240 | the date is checked after trimming, so a padded valid date passes |
| ApplicationService.SwapSalariesAsWritten | src/js/main/service/application-service.js:256-262 | as written: the swap happens on string `<`, afterwards low is never string-less than high, and the pair is kept; a lone salary, or a pair already in string order, stays where it is |
| ApplicationService.SwapSalariesAsWrittenReverses | src/js/main/service/application-service.js:256-262 | as written, the ordered range 50 to 60 comes out reversed |
| ApplicationService.OrderSalaries | src/js/main/service/application-service.js:256-262 | intended: when both are amounts, afterwards low ≤ high; the pair is kept; non-amounts are left alone |
| ApplicationService.OrderSalariesIdempotent | src/js/main/service/application-service.js:256-262 | ordering an ordered range changes nothing |
| ApplicationService.SalaryExampleKept | src/js/main/service/application-service.js:256-262 | on 50 000–100 000 both swaps leave the range as it is |
| ApplicationService.SalaryExampleTurned | src/js/main/service/application-service.js:256-262 | on low 100, high 50 both swaps turn the range round |
| ApplicationService.SalarySwapDiscrepancy | src/js/main/service/application-service.js:256-262 | on 50–60 the code and the intended swap differ |
| ApplicationService.ValidateAndSanitizeCreate | src/js/main/service/application-service.js:226-269 | role, company, date, initial event id, date format fail in that order, each iff the ones before pass; success trims, nulls blanks, swaps the salaries on string `<` as the code does, and has a valid date |
| ApplicationService.CreateAccepts | src/js/main/service/application-service.js:226-269 | an input passing every check is accepted, trimmed and nulled field by field, with the salaries swapped on string `<` |
| ApplicationService.SwapSalariesAsWrittenIdempotent | src/js/main/service/application-service.js:256-262 | a swapped range is not swapped again |
| ApplicationService.ValidateAndSanitizeCreateIntended | src/js/main/service/application-service.js:226-269 | the intended sanitizer fails exactly when the code's does and otherwise differs from it only in the salary pair, which holds the same two values, low ≤ high when both are amounts |
| ApplicationService.SanitizeCreateIdempotent | src/js/main/service/application-service.js:245-262 | a sanitized application with non-blank role and company passes again unchanged |
| ApplicationService.ValidateAndSanitizeUpdate | src/js/main/service/application-service.js:271-294 | role then company are required; the same trimming, and the salaries are not swapped |
| ApplicationService.CreateNewApplication | src/js/main/service/application-service.js:22-47 | fails as the form does; otherwise inserts the sanitized row and a first event under the new UUID string id with the date, notes and initial state |
| ApplicationService.UpdateApplication | src/js/main/service/application-service.js:72-85 | a missing or empty id string fails first; otherwise the outcome of the update form, written under the id |
| ApplicationService.ValidateAndSanitizeNewEvent | src/js/main/service/application-service.js:296-319 | application id (a missing or empty string), date and format fail in that order; it succeeds iff all three checks pass, with a trimmed valid date, null blank notes and the state passed through |
| ApplicationService.ValidateAndSanitizeUpdateEvent | src/js/main/service/application-service.js:321-341 | date then format fail; success has the trimmed date and null blank notes |
| ApplicationService.UpdateEvent | src/js/main/service/application-service.js:191-198 | a falsy event id fails first; otherwise the outcome of the event form, written under the id |
| ApplicationService.StoredDatesAreValid | src/js/main/service/application-service.js:171-198 | every stored event date has the date format, and a new event's date would pass an update unchanged |
| ApplicationService.GetApplicationById | src/js/main/service/application-service.js:54-65 | no row fails with 'Application not found'; a row comes back with its events, its ghosted flag (set iff the period has passed) and the `populateGhostData` figures of the row |
| ApplicationService.GetApplications | src/js/main/service/application-service.js:117-121 | a non-empty search text searches, anything else lists active applications; each row gets its ghosted flag and the `populateGhostData` figures for its age |
| ApplicationOverview.CurrentStep | src/js/render/components/application-overview.js:34-36 | the first entry whose id is the status; none for a null status or no match |
| ApplicationOverview.NextStepItems | src/js/render/components/application-overview.js:42-53 | an item is offered as a next step iff some entry of the map has a next id and gives that item |
| ApplicationOverview.NextStepItemsInMapOrder | src/js/render/components/application-overview.js:42-53 | the next-step items are those of the map filtered by the next-step test: one per passing entry, in event-flow order |
| ApplicationOverview.AlwaysAvailableItems | src/js/render/components/application-overview.js:22-32 | an item is always offered iff some always-available, non-deleted entry gives it |
| ApplicationOverview.AlwaysAvailableItemsInMapOrder | src/js/render/components/application-overview.js:22-32 | the always-available items are those of the map filtered by always-available and not deleted: one per passing entry, in event-flow order |
| ApplicationOverview.NextStepsMenu | src/js/render/components/application-overview.js:41-57 | fails iff the map is non-empty and there is no current step; an empty map gives an empty menu; otherwise the menu is the next-step items then the always-available items, and an item is offered iff it is one or the other |
| ApplicationOverview.StatusViewOf | src/js/render/components/application-overview.js:38-39 | the button is disabled and the ghost bar hidden exactly when the application cannot progress; the button shows the current step's name |
| ApplicationOverview.ProgressMenuStartsWithNextStep | src/js/render/components/application-overview.js:38-57 | an application that can progress has a menu opening with one of its next steps, when those name entries of the map |
| ApplicationOverview.MenuOrderAndRepeats | src/js/render/components/application-overview.js:41-57 | the menu follows event-flow order, not next-id order, and repeats an always-available next step |
| ApplicationOverview.MenuOfThree | src/js/render/components/application-overview.js:41-57 | with the first of three entries current and the other two its next steps, the last always available, the menu is the second, the third, then the third again |
| MediaService.WordRun | src/js/main/service/media-service.js:12 | `\w+` takes the longest run of word characters |
| MediaService.MatchHeader | src/js/main/service/media-service.js:12 | a match splits the input into prefix, non-empty word subtype, `;base64,` and payload |
| MediaService.MatchHeaderComplete | src/js/main/service/media-service.js:12 | every string of that shape matches, with that subtype and payload |
| MediaService.AddLogo | src/js/main/service/media-service.js:11-30 | no header is rejected as 'Invalid base64 string', a subtype off the list as 'Invalid file type'; otherwise the payload is saved under the lower-cased subtype |
| MediaService.AddLogoSavesPayload | src/js/main/service/media-service.js:24-29 | for every accepted subtype and payload, exactly that payload is saved |
| MediaService.HeaderWithoutMarker | src/js/main/service/media-service.js:12-16 | a word subtype followed by a character that is neither a word character nor `;` gives no header |
| MediaService.OffListRejected | src/js/main/service/media-service.js:17-22 | every well-formed header whose lower-cased subtype is off the list is rejected as 'Invalid file type' |
| MediaService.SvgRejected | src/js/main/service/media-service.js:12-16 | `image/svg+xml` has no header |
| MediaService.UpperCasePngAccepted | src/js/main/service/media-service.js:17-22 | `PNG` is accepted as png |
| MediaService.BmpRejected | src/js/main/service/media-service.js:4 | bmp is not on the list |
| MediaService.JpgRejected | src/js/main/service/media-service.js:4 | jpg is not on the list |
| CompanyService.ValidateAndSanitizeCompany | src/js/main/service/company-service.js:106-125 | fails iff the name is missing or empty; success trims the name, nulls blank home page, career page and notes, and passes logo path and `isFavorite` through |
| CompanyService.SanitizeCompanyIdempotent | src/js/main/service/company-service.js:113-118 | a sanitized company with a non-blank name passes again unchanged |
| CompanyService.BlankCompanyNameAccepted | src/js/main/service/company-service.js:108-114 | a name of blanks passes and is stored empty |
| CompanyService.CreateNewCompany | src/js/main/service/company-service.js:18-31 | fails as the form does, then as the logo does; the logo path is set only when a logo is given; `isFavorite` is passed to the insert |
| CompanyService.ChangedLogoPath | src/js/main/service/company-service.js:59-62 | null without a logo, the saved path with one |
| CompanyService.UpdateCompany | src/js/main/service/company-service.js:50-68 | a missing or empty id string fails first, then the form; with the flag the old logo is deleted when present and the path replaced; without it the path stays as given |
| CompanyService.OldLogoDeletedBeforeNewLogoChecked | src/js/main/service/company-service.js:54-62 | the old logo file is deleted even when the new logo is then rejected |
| CompanyService.LogoRemovedOnUpdate | src/js/main/service/company-service.js:54-60 | changing the logo to none deletes the old file and clears the path |
| CompanyService.RemoveCompany | src/js/main/service/company-service.js:76-96 | always resolves to the id; the row is soft-deleted iff the company exists and no logo deletion failed; the logo goes first, only when present |

## Left out

- I/O and the UI. The SQLite connection, logging, Electron IPC and the React
  rendering are not modelled. Only the overview's decision logic is kept.
- Asynchrony. The sankey link inserts of `addSankeyNode` and
  `updateSankeyNode` are returned from the `map` callback and awaited through
  `Promise.all`; the model runs them in order, so only their interleaving is
  not captured. The edge inserts of `createApplicationState` and
  `updateApplicationState` are not awaited: their `map` callback has a block
  body without `return`, so `Promise.all` waits for nothing. The map they
  return may therefore lack some new edges, and a failed edge insert is lost.
- EventFlowSettingService.CreateApplicationState: does not capture the
  unawaited edge inserts; it inserts every edge before reading the map and
  returns `Ok` of the map with all new edges included.
- EventFlowSettingService.UpdateApplicationState: the same, for the edges it
  inserts after removing the old ones.
- The clock. `populateGhostData` gets its day count as a parameter, and the
  ghost period is a positive parameter. Date parsing, time zones and the
  cutoff date of the active-application query are left out.
- Floating point. The ghost percentage is an exact `real`, not a double.
- Reporting queries. The application and company queries (joins, window
  functions, `LIKE`) are inputs: their rows are given, not computed.
  `getAllActiveApplications`, `searchApplications`,
  `getApplicationsByCompanyId`, `getEventsForApplication`, `getCompanyById`
  and `getAllCompanies` only forward these queries.
- `addEvent`. It is modelled through `ValidateAndSanitizeNewEvent`; the
  insert and the re-read that follow are store calls.
- `updateEvent`. Beyond date and notes, it hands the whole input object
  to the store. Only those two fields are modelled.
- Base64 decoding. `Buffer.from(…, 'base64')` and the file write are
  `saveLogo`, a function parameter; the payload string is passed on
  undecoded.
- `deleteMedia` is modelled as the step it asks for. Its own failures are
  one flag in `CompanyService.RemoveCompany`.
- CompanyService.UpdateCompany: does not model a failing `deleteMedia`. There
  a synchronous `fs.unlinkSync` throw rejects the update before the row is
  written; the model always deletes the old logo and goes on.
- Ids. Application and company ids are the UUID strings `getNewId` returns;
  the model takes them as strings and checks `!id` as a missing or empty
  string. Event, state and sankey node ids are SQLite rowids and are
  integers. The UUID generator itself is not modelled: a new application's
  id is a parameter of `ApplicationService.CreateNewApplication`.
- In-place mutation of inputs. The sanitize functions overwrite the
  caller's input object. The model returns the sanitized values as a new
  record instead. No caller reads the input afterwards except through the
  sanitized fields.
- Aliasing in `addNode`. The source pushes the tracked-event object itself
  and later increments its `value`. Each state id has its own object, so
  this shows only in the returned nodes, which the model returns as values.
- SQLite specifics:
  - a new rowid is modelled as the largest id plus one;
  - `isTerminal` reads the bare column from the group's last link row;
  - `ORDER BY displayOrder` ties keep table order;
  - `GROUP_CONCAT` joins in table order.
  SQLite does not promise the last three.
- `parseInt` is modelled on the decimal literals `GROUP_CONCAT` writes.
  CommaList.JoinRoundTrip requires a well-formed list for that reason.
- Unicode. `trim` removes the ECMAScript white-space set.
  `toLowerCase` is modelled on ASCII only, which covers the `\w` subtypes
  the media check lets through. Strings are sequences of Unicode scalar
  values, not UTF-16 code units. `Common.StringLess` therefore orders a
  character above U+FFFF after one from U+E000 to U+FFFF, where JavaScript
  compares its high surrogate and puts it first. The salary strings it is
  used on are digits.
- `isFavorite` is passed through to the store untouched. It is modelled as
  an optional boolean, the value the company forms send.
- The company lookup. `selectCompanySql` aggregates without `GROUP BY`, so
  SQLite returns one row of NULLs for an unknown id rather than no row.
  `removeCompany`'s 'Company not found' then never fires, and the delete of
  an unknown id removes nothing. The model keeps the missing-company
  branches of `CompanyService.UpdateCompany` and `CompanyService.RemoveCompany`
  as the service code has them. Their inputs are given, not computed from the query.
- SankeyService.AggregateBalance: proved only when no state has id 0. The
  source treats a previous state id of 0 as "no previous state" (`!previousEventId`),
  which the model follows. State ids are SQLite rowids and start at 1.
- SankeyService.AggregateKeepsShape: it proves there are no self-links only
  when no non-terminal tracked node shares its name with the ghosted or
  in-progress node. Otherwise the source itself draws a link from a node
  to itself.
- EventFlowSettingService.UpdateApplicationState: an unknown id still
  replaces that id's (nonexistent) outgoing edges, as the source does.
  No property is claimed about orphan edges.
- ApplicationService.OrderSalaries compares amounts only when both salaries
  are plain digit strings. `Number()` also accepts signs, decimals and
  exponents; those are left unswapped.
- ApplicationService.GetApplications: `daysAgo` is a parameter per row.
- `getEventFlowMap` is called once per service call in the source and
  again inside validation; the model reads the tables once, which is the
  same value because nothing writes in between.

## Findings

| source | as written | input that shows it | evidently intended | confidence | as-written member | corrected member |
|---|---|---|---|---|---|---|
| src/js/main/service/application-service.js:256-262 | the salary range is swapped when `salaryRangeLow < salaryRangeHigh`, comparing the two strings | low '50', high '60' becomes low '60', high '50'; the service's own example of low '100', high '50' is swapped only because '100' < '50' as strings | swap when the low amount is numerically above the high one, so that low ≤ high afterwards | high; not executed | ApplicationService.SwapSalariesAsWritten, ApplicationService.SwapSalariesAsWrittenReverses, ApplicationService.SalarySwapDiscrepancy | ApplicationService.OrderSalaries, ApplicationService.ValidateAndSanitizeCreateIntended |
