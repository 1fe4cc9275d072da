# A model of the zenoh bridge for DDS

The zenoh plugin for DDS connects DDS domains through zenoh. One event loop per bridge reacts to what DDS
discovers, to what other bridges announce, and to bridges that come and go. It creates and deletes *routes*: a
route from DDS owns a DDS reader and publishes on a zenoh key, a route to DDS subscribes to a key and owns a DDS
writer. This project models that state machine, the protocol by which bridges forward their discovery to each
other, the lock-free slot that holds the DDS writer of a route, the ROS graph a bridge publishes, its wire form,
and the quality of service of the DDS entities it creates; and it proves what these keep over all runs.

## How it is laid out

| file | content |
|---|---|
| `KeyExprs.dfy`, `BridgeKeys.dfy` | Path strings and their segments; the keys of topics, of the admin space, of references to remote entities and of forwarded discovery, with parser |
| `Qos.dfy`, `QosAdaptation.dfy`, `QosMatching.dfy` | Quality of service, what the bridge makes of it, and DDS matching |
| `Bridge.dfy`, `Linking.dfy`, `BridgeState.dfy` | One direction of a bridge as a value (`Half`): entities, routes, live DDS entities; adding routes, linking entities, sweeps; the whole state with its admin index |
| `LocalMode.dfy` | Local discovery mode: steps, runs and what they keep |
| `EventLog.dfy`, `LocalHistory.dfy`, `ForwardHistory.dfy` | What DDS has told a bridge, as a log, and what it has stored and routed of it in either mode |
| `Creation.dfy`, `AllowedKeys.dfy` | When routes can be created, and which may be |
| `RosGraph.dfy`, `ForwardMode.dfy`, `ForwardRuns.dfy` | The ROS graph and remapping; forward discovery mode: steps, invariant, runs |
| `ReaderStatuses.dfy`, `LocalWriters.dfy` | What is stored about local readers and writers, against the routes they are on |
| `Serving.dfy`, `LiveGraph.dfy` | Which gids of a graph routes serve; the ROS graph against the DDS entities that are live |
| `Witnesses.dfy`, `RelayWitnesses.dfy` | Runs in which the properties fail that do not always hold |
| `Makers.dfy`, `Relays.dfy` | Which entity the DDS entity of a route was made for, over runs; who gets data from whom through two bridges |
| `Announcements.dfy`, `Network.dfy`, `Idempotence.dfy` | What each event does to remote references; any number of bridges with in-order channels and caches of last messages; repeated announcements |
| `Provenance.dfy` | What bridges know of each other, traced back to what DDS told them |
| `Compaction.dfy`, `Histories.dfy` | Late joiners: the last message per key stands for all, and this is what caches replay |
| `WriterSlot.dfy` | The atomic writer slot under any interleaving |
| `RosCodec.dfy`, `RosDiscovery.dfy` | Hexadecimal gids, node sequences, the last sample per participant; the published graph as an object |
| `DdsLibrary.dfy`, `Routes.dfy`, `Runtime.dfy` | The program's own form: route objects and the runtime with its maps, updated in place. Every handler is proved to do what the steps above specify |
| `Sweeps.dfy`, `Departures.dfy` | What one turn of a sweep's loop amounts to |

Both event loops are specified as functions on `State`, so that statements about whole runs are about sequences of
states; `Runtime.DdsPluginRuntime` keeps the maps and route objects of the program and its `View()` follows those
functions step by step. What DDS and zenoh answer is an input (`Outcome`), so each run is over all failures.
The program treats an entity without partition in a branch of its own; here it is a partition list with one absent
entry (`QosTypes.PartitionList`), and one loop serves both.

## Assumptions

- DDS keys, bridge ids and gids hold no `/`, and the keys of distinct live entities differ. A live key that is
  discovered again stands for the same participant, topic and partitions (`MayStore`).
- DDS hands out positive handles that are not in use, and GUIDs never seen before; any other answer counts as a
  failed creation (`Accepts`). The GUID of a live entity can be had.
- Keys the bridge builds are valid key expressions. The regular expressions of the configuration are fixed predicates.
- Between bridges: messages of one bridge arrive in order, its departure last, and all bridges share the scope
  (`World`); ids are not used twice; no topic spells out the departure subkey of a bridge, and no kind word gets in the way of the parser
  (`Plain`; `DepartureSweepHitsIff` and `AnnouncementServedIff` say exactly what goes wrong otherwise). The program receives
  samples and departures on two ways; `OvertakenIff` says when the order between them matters.
- Which partition names a pattern covers (`Glob`) and which keys meet (`KeysMeet`) are parameters.
- The published graph is stated for GUIDs of 16 bytes (`GuidsCanonical`). The atomic slot is sequentially consistent.

## Where the code surprises

Each of these comes with the exact condition under which it happens, and, where it takes a run to get there, with such a run.

- `cleanup` keeps only nodes with both readers and writers, where its comment speaks of nodes with neither; the model
  follows the code. So a departure may take a node whose writers stay (`NodeSurvivesDepartureIff`, `DepartureDropsNode`).
- In forward mode the local writers of a route from DDS are not taken off when they vanish (`StepKeepsWritersTrackedIff`,
  `WriterLingers`).
- The ROS graph does not change on a single deletion, so it may name DDS entities that are gone (`StepKeepsGraphLiveIff`,
  `DeadIffStranded`, `DeletionStrands`).
- A departure drops routes that local readers wait on, even routes that had nothing to do with the bridge that left
  (`SurvivesDepartureIff`, `StepStatuses`, `ReaderLosesRoute`).
- A discovered reader whose announcement cannot be encoded is on routes without being stored (`UnencodedKeepsTrackingIff`,
  `ReaderUntracked`).
- A route keeps the DDS entity of the entity that needed one first. Later entities on the key have to do with its quality of
  service, so compatible pairs may stay unconnected and incompatible ones be connected (`ForwardCarriedIff`,
  `ForwardRoutesSoundIff`, `FirstPairDecides`).
- A topic with an inner segment `reader` turns writer announcements into reader ones (`WriterKeyMisread`), and a topic
  that spells out a departure subkey is swept with that bridge (`DepartureSweepHitsIff`).

## Main results

- Any number of bridges converge at every moment to what DDS told them, newcomers included (`Provenance.ConvergenceAsTold`,
  `Histories.LateJoinerInRun`), and make their DDS entities from what DDS told the others (`Provenance.RoutesStandForTold`).
- Both event loops, on objects updated in place, go through the states of specified runs (`Runtime.DdsPluginRuntime.RunLocalDiscovery`,
  `RunForwardDiscovery`), and keep all invariants (`LocalMode.LocalModeAgreement`, `ForwardRuns.StepKeepsFwdInv`).
- In local mode routes are a function of what is discovered and not taken back, exactly without failures
  (`LocalHistory.RoutesAsToldIff`, `Creation.GenerousRoutesAsTold`).
- What is stored, routed and published may fall apart in forward mode, exactly when (`ReaderStatuses.StepStatuses`,
  `LocalWriters.StepKeepsWritersTrackedIff`, `LiveGraph.StepKeepsGraphLiveIff`, `LiveGraph.DeadIffStranded`).
- Who gets data from whom through two bridges, over the runs of both (`Relays.ForwardCarriedIff`, `LocalCarriedIff`).
- The keys that bridges exchange parse back exactly when (`BridgeKeys.ParseUndoesBuildIff`, `EntityKeyParsesIff`), and
  departures sweep exactly what (`BridgeKeys.DepartureSweepHitsIff`).
- The writer slot loses and leaks nothing under any interleaving, and a finished call has done its work
  (`WriterSlot.LiveIsInstalledOrHeld`, `FinishedSetSawWriter`, `LoadedWriterLivesIff`).
- The wire form of the graph (`RosCodec.GraphRoundTripIff`, `RosDiscovery.PublishedGraphRoundTrips`).

The other members of the table lead to these or stand beside them.

## Model

| member | source | states |
|---|---|---|
| BridgeKeys.AdminKeyInjective | zenoh-plugin-dds/src/lib.rs:392-406 | No two participants, entities, routes, `config` or `version` share an admin-space key, so no entry can overwrite another of whatever kind. |
| BridgeKeys.TopicKeySegments | zenoh-plugin-dds/src/lib.rs:770-783 | The key of a topic has the segments of the scope, then those of the partition, then those of the topic. |
| BridgeKeys.ParseRefinesSegments | zenoh-plugin-dds/src/lib.rs:1523-1561 | The text search for `/reader/`, `/writer/`, `/ros_disco/` at the first occurrence equals a search over whole path segments. |
| BridgeKeys.ParseUndoesBuildIff | zenoh-plugin-dds/src/lib.rs:1523-1561 | Parsing a forwarded-discovery key gives back bridge, kind and remainder if and only if no kind word searched for earlier stands in the scope or as an inner segment of the remainder; condition per kind. |
| BridgeKeys.EntityKeyParsesIff | zenoh-plugin-dds/src/lib.rs:396-406 | The same for entity announcements in terms of scope and topic: readers need no scope segment `reader`; writers no scope segment `reader` or `writer` and no inner topic segment `reader`. |
| BridgeKeys.RosKeyParsesIff | zenoh-plugin-dds/src/lib.rs:997-1008 | The same for ROS graph messages: no scope segment is any of the three words. |
| BridgeKeys.WriterKeyMisread | zenoh-plugin-dds/src/lib.rs:1545 | A writer on a topic with an inner segment `reader` is read as a reader by every other bridge. |
| BridgeKeys.FullAdminKeyInjective | zenoh-plugin-dds/src/lib.rs:1218 | The reference to a remote entity determines the bridge and the entity. |
| BridgeKeys.DepartureSweepHitsIff | zenoh-plugin-dds/src/lib.rs:1446-1449 | For keys without `@`: the substring sweep after the departure of a bridge hits the reference to an entity if and only if that bridge announced it or the topic of the entity spells out the departure subkey of that bridge. |
| BridgeKeys.DepartureSweepSplit | zenoh-plugin-dds/src/route_zenoh_dds.rs:336-339 | The same for any reference: behind a part without `@`, the sweep hits it if and only if it is the bridge's own or the subkey stands in the rest. |
| BridgeKeys.NonFinalSegmentIff | zenoh-plugin-dds/src/lib.rs:1545 | What "inner segment" means in characters: the word stands between slashes, where the text counts as beginning after one. |
| Bridge.TryAdd | zenoh-plugin-dds/src/lib.rs:492-622 | The outcome of trying to add a route, case by case; a failure leaves no route and no DDS entity behind, an existing route keeps its members, and live DDS entities stay those the routes own. |
| Creation.TryAddRoutesIff | zenoh-plugin-dds/src/lib.rs:492-622 | Trying a key ends with a route if and only if the key is allowed, the route is there or zenoh grants its session side, and the DDS entity, if one is asked for, is there or DDS gives one with a positive handle not in use and a new GUID. |
| Creation.GenerousSucceeds | zenoh-plugin-dds/src/lib.rs:1219-1355 | Where nothing is refused, the delivery of an announcement creates all its routes. |
| Linking.LinkLocalEffect | zenoh-plugin-dds/src/lib.rs:812-841 | Linking a discovered entity over all its partitions: it is on exactly the routes its statuses call `Routed`, nothing else changed, and a standing route is never lost by a second try. |
| Linking.AddRemote | zenoh-plugin-dds/src/lib.rs:1234-1246 | Noting a remote entity adds it to its one route, and every local entity on that topic and partition with it, each of which gets the status `Routed` with that key under that partition; nothing else changes. |
| Linking.LinkRemoteEffect | zenoh-plugin-dds/src/lib.rs:1230-1267 | The same for an announced remote entity: its reference is on exactly the routes the statuses name, no other route changes, and a standing route is never lost. |
| Linking.LinkRemoteLocals | zenoh-plugin-dds/src/lib.rs:1234-1246 | After an announcement the local entities on a key are exactly those that were there and those it concerned on a part with that key that got its route. |
| Linking.LinkRemoteStatuses | zenoh-plugin-dds/src/lib.rs:1239-1245 | After an announcement the status of a local entity under a partition is `Routed` with the key of the announced part if the announcement concerned it there and got its route, and otherwise what it was. |
| Linking.SweepOutcome | zenoh-plugin-dds/src/lib.rs:850-864 | Any `retain` sweep in terms of members: a route stays if and only if one of those it needs is left, with exactly those left; its DDS entity lives on if and only if the route stays and, where deletions release it, keeps a remote member. |
| Linking.SweepConserves | zenoh-plugin-dds/src/lib.rs:850-864 | Any sweep keeps the accounts: the live DDS entities are those of the routes left, one each. |
| BridgeState.StoreAgrees | zenoh-plugin-dds/src/lib.rs:429-436 | Storing an entity keeps the admin index in agreement with everything stored. |
| BridgeState.ForgetAgrees | zenoh-plugin-dds/src/lib.rs:438-448 | Forgetting an entity removes its own index entry and no other. |
| BridgeState.StoreParticipantAgrees | zenoh-plugin-dds/src/lib.rs:408-415 | The same for participants stored. |
| BridgeState.ForgetParticipantAgrees | zenoh-plugin-dds/src/lib.rs:417-427 | The same for participants forgotten. |
| BridgeState.WithHalfAgrees | zenoh-plugin-dds/src/lib.rs:471-489 | Routes come and go with their index entries: the agreement holds after every change of the routes. |
| BridgeState.AdminReadsBack | zenoh-plugin-dds/src/lib.rs:624-658 | Reading the admin space under the key of any participant, entity or route stored gives just that. |
| LocalMode.DiscoverKeepsInv | zenoh-plugin-dds/src/lib.rs:798-841 | A discovery keeps: members of a route are exactly the entities with that status, no route is unused, each owns a live DDS entity of its own; whatever creations fail. |
| LocalMode.UndiscoverKeepsInv | zenoh-plugin-dds/src/lib.rs:843-866 | The sweep after an undiscovery keeps the same. |
| LocalMode.LocalModeAgreement | zenoh-plugin-dds/src/lib.rs:785-951 | Over every run with any creation failures: an entity is on a route if and only if one of its statuses is `Routed` with that key; no route is unreferenced or without live DDS entity; no other DDS entity is live; no admin reference dangles. |
| LocalHistory.LocalRemembers | zenoh-plugin-dds/src/lib.rs:798-951 | Over every run a bridge has stored exactly the participants, writers and readers that DDS discovered and has not taken back since, each with the content of its last discovery. |
| LocalHistory.RoutesAsToldIff | zenoh-plugin-dds/src/lib.rs:785-951 | In every reachable state each key has on its route exactly the entities discovered and not taken back since that ask for it, by topic and one of their partitions, where it is allowed, if and only if no stored status is a creation failure; and no route is without entity. |
| Creation.GenerousRoutesAsTold | zenoh-plugin-dds/src/lib.rs:785-951 | Over every run in which zenoh and DDS refuse nothing the routes are exactly those. |
| LocalHistory.NothingLeftBehind | zenoh-plugin-dds/src/lib.rs:843-930 | When all that was discovered on a side is taken back, no route and no live DDS entity of that side is left. |
| LocalHistory.AdminSpaceEmptied | zenoh-plugin-dds/src/lib.rs:417-448 | And when participants are gone as well, the admin space has nothing but `config` and `version`. |
| LocalHistory.StatusPerPartition | zenoh-plugin-dds/src/lib.rs:808-841 | A stored entity has one status per partition, or a single one under `*` without partition; a partition is marked not allowed if and only if its key is. |
| LocalHistory.OrderDoesNotMatter | zenoh-plugin-dds/src/lib.rs:785-951 | Two runs in which the same stands discovered, in whatever order it came, have the same routes with the same members. |
| ForwardRuns.StepKeepsFwdInv | zenoh-plugin-dds/src/lib.rs:1072-1519 | Every event of forward mode keeps the invariant of routes, DDS entities, admin index and ROS graph. |
| ForwardRuns.ForwardRoutes | zenoh-plugin-dds/src/lib.rs:1233-1294 | Over every run: a route to DDS has a DDS writer if and only if it has a remote writer, and stands only for a remote writer or a local reader; a route from DDS has its reader and a remote reader. |
| ForwardRuns.ForwardConservation | zenoh-plugin-dds/src/route_zenoh_dds.rs:89-93 | Over every run: live DDS readers and writers are exactly those of the routes, one each, and the admin space agrees with all that is stored. |
| ForwardHistory.ForwardRemembers | zenoh-plugin-dds/src/lib.rs:1072-1206 | Over every run in forward mode exactly those participants, writers and readers are stored that were discovered, announced and not taken back since, each with the content of its last such discovery. |
| AllowedKeys.ForwardRoutesMayBe | zenoh-plugin-dds/src/lib.rs:365-385 | Over every run in forward mode the key of each route is matched by `allow` if that is given, not by `deny`, and does not end in `ros_discovery_info`. |
| AllowedKeys.LocalRoutesMayBe | zenoh-plugin-dds/src/lib.rs:365-385 | The same over every run in local mode, but for the ROS topic, which is routed there. |
| ForwardRuns.ServingRoutesHaveGuids | zenoh-plugin-dds/src/lib.rs:1563-1633 | In every reachable state a route that serves a gid has a live DDS entity: the GUID lookup of the remapping loop never fails. |
| ForwardRuns.GraphSafety | zenoh-plugin-dds/src/lib.rs:1378-1392 | Over every run: each gid of the ROS graph was the GUID of one of this bridge's own route entities, and no node lacks readers or writers. |
| ForwardRuns.DepartureCleansGraph | zenoh-plugin-dds/src/lib.rs:1445-1494 | After a departure no GUID of an entity deleted in that step is left in the ROS graph. |
| ForwardRuns.ReadersTrackedInRuns | zenoh-plugin-dds/src/lib.rs:1109-1185 | As long as announcements can be encoded, every reader a route mentions is discovered. |
| ForwardRuns.UnencodedKeepsTrackingIff | zenoh-plugin-dds/src/lib.rs:1109-1154 | After a discovery whose announcement cannot be encoded, every reader on a route is still a stored one, if and only if this one was stored before or none of its parts gets a route (its key not allowed, or without route and refused by zenoh). |
| ForwardRuns.UndiscoveredReaderNowhere | zenoh-plugin-dds/src/lib.rs:1156-1185 | An undiscovered reader is on no route afterwards, even one that was never stored. |
| ForwardRuns.AnnouncementNotesIff | zenoh-plugin-dds/src/lib.rs:1234-1355 | After an announcement a part of which got its route, on either side: a stored entity is on that route if and only if it was before, or it is on the announced topic and the part is one of its own partitions; and then its status for the part is `Routed` with that key. |
| Witnesses.ReaderUntracked | zenoh-plugin-dds/src/lib.rs:1109-1154 | A first discovery that cannot be announced does leave a reader on a route that is not stored. |
| LocalWriters.StepKeepsWritersTrackedIff | zenoh-plugin-dds/src/lib.rs:1096-1107 | Every event keeps that routes from DDS mention discovered writers only, if and only if it is not that a writer vanishes which is on a route. |
| LocalWriters.LingeringWritersVanished | zenoh-plugin-dds/src/lib.rs:1072-1519 | Over every run: a local writer on a route is discovered, or vanished earlier in the run. |
| LocalWriters.WritersTrackedInRuns | zenoh-plugin-dds/src/lib.rs:1072-1519 | As long as no writer vanishes while on a route, every writer a route mentions is discovered. |
| Witnesses.WriterLingers | zenoh-plugin-dds/src/lib.rs:1096-1107 | A run in which that fails: a writer is discovered, a reader on its topic announced, the writer vanishes, and stays on the route. |
| ReaderStatuses.NoteKeepsStatusesIff | zenoh-plugin-dds/src/lib.rs:1239-1245 | An announcement noted on a route keeps every reader on a route marked `Routed` with its key, if and only if for no reader concerned it overwrites the only status for another route that reader is on. |
| ReaderStatuses.AnnounceKeepsStatusesIff | zenoh-plugin-dds/src/lib.rs:1230-1267 | A whole announcement from any scope keeps every reader on a route marked `Routed` with its key, if and only if there is no reader all of whose statuses for a route it is on are overwritten, with no announced part of that key. |
| ReaderStatuses.StepStatuses | zenoh-plugin-dds/src/lib.rs:1072-1519 | Every event but an encoding failure or an announcement from another scope keeps that readers on a route have the status for it; and it keeps the converse, if and only if it is not a departure while there is a route with a local reader and no remote writer but those swept with the bridge. |
| ReaderStatuses.ReadersOnRoutesHaveStatus | zenoh-plugin-dds/src/lib.rs:1072-1519 | Over every run of such events: a reader on a route to DDS is discovered and has the status `Routed` with that key. |
| ReaderStatuses.StatusesNameRoutes | zenoh-plugin-dds/src/lib.rs:1072-1519 | Up to the first departure that drops a route with a local reader: a reader with the status `Routed` is on that route. |
| Witnesses.ReaderLosesRoute | zenoh-plugin-dds/src/lib.rs:1448-1463 | A run in which the converse fails: after the first discovery of a reader the departure of any bridge whatever drops its route, and its status stays. |
| LiveGraph.StepKeepsGraphLiveIff | zenoh-plugin-dds/src/lib.rs:1268-1404 | Every event keeps that the ROS graph names GUIDs of live entities only, if and only if it is not the deletion of the one remote entity a route serves while the graph names the GUID of that route. |
| LiveGraph.DeadIffStranded | zenoh-plugin-dds/src/lib.rs:1072-1519 | At every moment of every run: a GUID in the graph is that of a live entity, if and only if no deletion earlier in the run took the last remote entity off the route of its entity. |
| LiveGraph.NodeSurvivesDepartureIff | zenoh-plugin-dds/src/lib.rs:1445-1494 | In every state of the invariant: a node survives a departure if and only if it is left with a reader and with a writer whose routes are not all swept; one kind alone does not keep it. |
| LiveGraph.LiveAfterDeleteIff | zenoh-plugin-dds/src/lib.rs:1268-1374 | A live GUID is live after a deletion if and only if its route serves somebody else. |
| Witnesses.DepartureDropsNode | zenoh-plugin-dds/src/ros_discovery.rs:302-305 | A run in which a node goes with the bridge of its reader though its writer, of another bridge, stays. |
| Witnesses.DeletionStrands | zenoh-plugin-dds/src/lib.rs:1356-1374 | A run in which it fails: a reader, a writer and a node that has both are announced, the reader is deleted, and the graph still names the DDS reader that went with it. |
| Announcements.AnnounceView | zenoh-plugin-dds/src/lib.rs:1230-1267 | An announcement adds its reference under exactly the allowed keys of the entity. |
| Announcements.DeleteView | zenoh-plugin-dds/src/lib.rs:1268-1293 | A deletion takes its reference off every key and touches no other. |
| Announcements.LeaveView | zenoh-plugin-dds/src/lib.rs:1440-1487 | A departure takes off all references of the bridge that left, and no other. |
| Announcements.SurvivorsAreServed | zenoh-plugin-dds/src/lib.rs:1448-1487 | After a departure every surviving route still serves a remote entity. |
| Announcements.LocalView | zenoh-plugin-dds/src/lib.rs:1074-1206 | Local discovery never touches remote references, whether or not its announcement can be encoded. |
| Announcements.SurvivesDepartureIff | zenoh-plugin-dds/src/lib.rs:1448-1467 | In any state a route of either direction survives a departure if and only if it has a remote reference without the departure subkey; its local entities stay on it, but do not hold it. |
| Announcements.SurvivesDeletionIff | zenoh-plugin-dds/src/lib.rs:1268-1293 | In any state a route survives the deletion of a remote entity if and only if another is left or, to DDS, a local reader holds it; its local entities stay on it. |
| Announcements.OvertakenIff | zenoh-plugin-dds/src/lib.rs:1207-1440 | An announcement and a departure leave the same references in whichever order they are handled, if and only if it is another bridge that left or the announcement asks for no allowed key. |
| Network.BuiltEffect | zenoh-plugin-dds/src/lib.rs:1215-1375 | A sent message is read as it was meant: it changes the one reference it is about, on exactly the keys its entity asks for. |
| Network.AnnouncementServedIff | zenoh-plugin-dds/src/lib.rs:1076-1094 | An announcement makes another bridge serve the entity under its own reference, on an allowed key it asks for, if and only if no scope segment is `reader` and, for writers, none is `writer` and no inner topic segment is `reader`: the assumption of the network on topics and scope cannot be dropped. |
| Network.RefInjective | zenoh-plugin-dds/src/lib.rs:1218 | References tell the entities of all bridges apart. |
| Network.MsgKeyInjective | zenoh-plugin-dds/src/lib.rs:1080-1104 | Discovery keys tell the entities of a bridge apart, so a deletion never hits the cached announcement of another entity. |
| Network.ReplayConverges | zenoh-plugin-dds/src/lib.rs:1409-1431 | Replaying the cached last messages, in any order, gives a newcomer exactly the entities the sender has discovered. |
| Network.StepKeepsNet | zenoh-plugin-dds/src/lib.rs:1037-1053 | Every step of the network (local discovery, delivery, join with replay, departure) keeps convergence for all pairs. |
| Network.Convergence | zenoh-plugin-dds/src/lib.rs:1076-1375 | At every moment, for any two of any number of bridges: applying the messages in flight to the references of one gives, for every key, exactly the entities the other has discovered that ask for it and that are allowed. |
| Provenance.ConvergenceAsTold | zenoh-plugin-dds/src/lib.rs:1076-1375 | The same against what DDS told the bridges: applying what is in flight from one bridge to the references another has of it gives exactly the entities DDS told the one of and has not taken back, on the keys they ask for and the other allows; nothing once it has left. |
| Provenance.DiscoveredIsStored | zenoh-plugin-dds/src/lib.rs:1076-1206 | Over every run of the network each bridge has stored exactly what DDS told it and has not taken back, with the content it told last. |
| Provenance.MessagesAreTruthful | zenoh-plugin-dds/src/lib.rs:1076-1185 | Over every run: each message in flight and each in a cache announces an entity DDS told its sender of, under the key of that entity, in the shared scope, with all its content but route statuses; or it deletes one that DDS told its sender of and then took back. |
| Provenance.CacheIsCurrent | zenoh-plugin-dds/src/lib.rs:1037-1053 | Over every run the cache announces each entity that stands with the content DDS told last. |
| Provenance.RoutesStandForTold | zenoh-plugin-dds/src/lib.rs:1230-1355 | Over every run: the DDS entity of each route of each bridge was created from topic, type and quality of service of an entity DDS told another bridge of, adapted as for a proxy, for one of its partitions, on the key of that partition. |
| Provenance.ReaderAdmitsForTold | zenoh-plugin-dds/src/lib.rs:1301-1355 | So the reader of a route lets in just the writers that suit a reader another bridge was told of. |
| Provenance.WriterServesForTold | zenoh-plugin-dds/src/lib.rs:1230-1267 | And the writer of a route reaches just the readers that a writer another bridge was told of, made reliable, satisfies. |
| Network.QuietConvergence | zenoh-plugin-dds/src/lib.rs:1076-1375 | With nothing in flight the references are exactly those. |
| Provenance.QuietAsTold | zenoh-plugin-dds/src/lib.rs:1076-1375 | With nothing in flight a route has a reference if and only if it is that of an entity DDS told its bridge of, has not taken back, and that asks for the key. |
| Network.DepartureIsComplete | zenoh-plugin-dds/src/lib.rs:1440-1487 | Once a departure is handled no route refers to the bridge that left. |
| Network.DepartureKeepsServedIff | zenoh-plugin-dds/src/lib.rs:1448-1467 | In every reachable state of the network, a route to DDS survives the handling of a departure if and only if it has a remote writer of a bridge other than the one that left. |
| Compaction.PendingIsLastWord | zenoh-plugin-dds/src/lib.rs:1219-1294 | Handling a history leaves served exactly what the last message about it says. |
| Compaction.LateJoinerCompaction | zenoh-plugin-dds/src/lib.rs:1409-1431 | Handling only the last message per key, in any order, leaves the same remote references on every key, and DDS writers on the same routes, as the full history. |
| Histories.SentIsHistory | zenoh-plugin-dds/src/lib.rs:1037-1053 | Over every run of the network, what a bridge has sent is a history in this sense, and its cache has the last message under each key and nothing else. |
| Histories.ReplayCompacts | zenoh-plugin-dds/src/lib.rs:1409-1431 | What a newcomer is replayed, in any order, is the compaction of all the sender has sent. |
| Histories.LateJoinerInRun | zenoh-plugin-dds/src/lib.rs:1409-1431 | Over every run of the network: handling the replay leaves the same remote references on every key, and DDS writers on the same routes, as handling all the sender has ever sent. |
| Idempotence.AnnounceTwice | zenoh-plugin-dds/src/lib.rs:1219-1267 | Handling the same announcement twice is handling it once, for the whole state. |
| WriterSlot.LiveIsInstalledOrHeld | zenoh-plugin-dds/src/route_zenoh_dds.rs:228-278 | For any number of interleaved calls: the live writers are the installed one and those calls in flight hold, each held once. |
| WriterSlot.DeletedOnce | zenoh-plugin-dds/src/route_zenoh_dds.rs:251-278 | No writer is deleted twice, and each deletion hits a live writer. |
| WriterSlot.QuietSlot | zenoh-plugin-dds/src/route_zenoh_dds.rs:228-278 | With no call in flight only the installed writer is live. |
| WriterSlot.FinishedSetSawWriter | zenoh-plugin-dds/src/route_zenoh_dds.rs:228-267 | A set call that has ended, and was not refused the writer it tried to create, has found a writer in the slot or put one there; at any moment, after any deletions. |
| WriterSlot.FinishedDeleteSawEmpty | zenoh-plugin-dds/src/route_zenoh_dds.rs:269-278 | A delete call that has ended has found the slot empty or emptied it. |
| WriterSlot.CallbackNeverSeesLoser | zenoh-plugin-dds/src/route_zenoh_dds.rs:140-172 | No callback ever loads a writer that lost the race, even if its handle is used again. |
| WriterSlot.NothingForgotten | zenoh-plugin-dds/src/route_zenoh_dds.rs:228-278 | Every writer ever created is live or was deleted. |
| WriterSlot.CallbackMayOutliveWriter | zenoh-plugin-dds/src/route_zenoh_dds.rs:140-172 | The condition of `LoadedWriterLivesIff` can fail: a callback can hold the handle of a writer deleted after it was loaded. |
| WriterSlot.LoadedWriterLivesIff | zenoh-plugin-dds/src/route_zenoh_dds.rs:140-172 | The writer a callback loaded is live if and only if it is installed still or held by a deletion that has taken it out, never both, and if and only if it has not been deleted. |
| RosGraph.RemapUnique | zenoh-plugin-dds/src/lib.rs:1566-1631 | Where each gid is served by one route, the remapped sequence does not depend on the order in which routes are searched. |
| Serving.UnservedDropped | zenoh-plugin-dds/src/lib.rs:1566-1598 | Remapping drops a gid that stands in no reference of any route, wherever it is in the sequence. |
| Serving.ServedReplaced | zenoh-plugin-dds/src/lib.rs:1566-1598 | Remapping turns each gid that stands in references into the GUID of a route that has one of them, in its place; what is before and behind is remapped on its own. |
| Serving.RefHoldsGidIff | zenoh-plugin-dds/src/route_dds_zenoh.rs:223-227 | The reference to an entity holds a gid that occurs in neither bridge id, participant key nor topic if and only if it is the key of the entity. |
| Serving.ServesKeyIff | zenoh-plugin-dds/src/route_dds_zenoh.rs:223-227 | So a route serves such a gid if and only if it has the reference of an entity with this key. |
| RosDiscovery.LastUpdateDecides | zenoh-plugin-dds/src/ros_discovery.rs:284-287 | After any sequence of updates a node is in the graph if and only if the last update that speaks of it gives it both readers and writers, and then just as that update gives it. |
| RosDiscovery.UnnamedNodesStay | zenoh-plugin-dds/src/ros_discovery.rs:284-287 | A node no update speaks of stays as it is, unless it lacks readers or writers. |
| RosDiscovery.ParticipantEntitiesInfo.RemoveReaderGid | zenoh-plugin-dds/src/ros_discovery.rs:289-293 | Node by node in any order, the gid leaves every reader sequence, the other gids keep their order. |
| RosDiscovery.ParticipantEntitiesInfo.RemoveWriterGid | zenoh-plugin-dds/src/ros_discovery.rs:295-299 | The same for writers. |
| RosDiscovery.CleanupOnceIsEnough | zenoh-plugin-dds/src/ros_discovery.rs:302-305 | One clean-up at the end of a departure leaves the same graph as one after each removal. |
| RosDiscovery.RemovalsAddUp | zenoh-plugin-dds/src/ros_discovery.rs:289-299 | Gids can be taken off one at a time. |
| RosDiscovery.PublishedGraphRoundTrips | zenoh-plugin-dds/src/ros_discovery.rs:308-384 | At every moment of a run the published graph, written in any node order, is read back unchanged. |
| RosDiscovery.PublishedGraphIsWritable | zenoh-plugin-dds/src/ros_discovery.rs:332-346 | No gid of the published graph fails to serialize. |
| RosDiscovery.ReadGraphIsCanonical | zenoh-plugin-dds/src/ros_discovery.rs:371-384 | Every graph read from the wire has canonical keys and gids. |
| RosCodec.GidRoundTripIff | zenoh-plugin-dds/src/ros_discovery.rs:308-330 | A gid comes back from its 24-byte form as it went if and only if it is 32 lower-case hexadecimal characters. |
| RosCodec.RawGidRoundTripIff | zenoh-plugin-dds/src/ros_discovery.rs:323-330 | Every gid read is canonical; writing it back is exact if and only if the last 8 bytes are zero. |
| RosCodec.WriteGids | zenoh-plugin-dds/src/ros_discovery.rs:332-346 | The loop yields the 24-byte forms of all gids in order, or fails if one is not hexadecimal. |
| RosCodec.WriteNodes | zenoh-plugin-dds/src/ros_discovery.rs:357-369 | The nodes of the map, each once, in whatever order; failure if and only if some gid is not hexadecimal. |
| RosCodec.ReadNodes | zenoh-plugin-dds/src/ros_discovery.rs:371-384 | The loop builds the map the specification function gives. |
| RosCodec.FromWireHoldsTheLast | zenoh-plugin-dds/src/ros_discovery.rs:371-384 | The map read has exactly the namespace-and-name keys of the nodes, each with the last node of that key. |
| RosCodec.GraphRoundTripIff | zenoh-plugin-dds/src/ros_discovery.rs:357-384 | Reading any serialization order of a graph gives the graph back if and only if its keys and gids are canonical. |
| RosCodec.NoNodeLostIff | zenoh-plugin-dds/src/ros_discovery.rs:371-384 | Reading keeps every node if and only if no two agree on namespace and name put together. |
| RosCodec.SplitNamesCollide | zenoh-plugin-dds/src/ros_discovery.rs:380 | Two nodes whose namespace and name are split differently collide, and one is lost. |
| RosCodec.TakeAll | zenoh-plugin-dds/src/ros_discovery.rs:135-170 | Of all samples taken, the last valid one per participant is kept, and no other. |
| RosCodec.ForwardedGidParses | zenoh-plugin-dds/src/lib.rs:1508-1518 | The key under which a participant's graph is forwarded parses back to that participant. |
| QosMatching.MirrorsMatchIff | zenoh-plugin-dds/src/lib.rs:1657-1752 | In local mode the reader or writer made for an entity matches it, on each partition, exactly if the partition name is literal or some other literal name of the entity falls under the pattern. |
| QosMatching.ProxiesMatchIff | zenoh-plugin-dds/src/lib.rs:1687-1764 | The proxies made for an announced pair connect the pair exactly if it is compatible and the partition usable on both ends. |
| QosMatching.MirrorReaderAdmitsIff | zenoh-plugin-dds/src/lib.rs:510-521 | The reader of a route in local mode is the mirror of the writer it was made for: any other writer matches it if and only if topic and type are the same, it meets the terms of that writer (whose reliability counts as stated) and reaches the partition. |
| QosMatching.MirrorWriterAdmitsIff | zenoh-plugin-dds/src/lib.rs:566-585 | The writer of a route in local mode matches any other reader if and only if that one asks for no more than the reader it was made for, reliability aside. |
| QosMatching.ProxyReaderAdmitsIff | zenoh-plugin-dds/src/lib.rs:510-521 | The same for the proxy of a remote reader: any writer that meets that reader. |
| QosMatching.ProxyWriterAdmitsIff | zenoh-plugin-dds/src/route_zenoh_dds.rs:228-267 | The same for the proxy of a remote writer: any reader that this writer, made reliable, satisfies. |
| QosMatching.RelayedPairsMatchIff | zenoh-plugin-dds/src/lib.rs:514-576 | Two routes on one key connect only pairs that DDS would match directly, if and only if the reader of the one asks for at least what the writer of the other offers; pairs that both reach the partition by patterns are set aside. |
| QosMatching.RelayIsDirectIff | zenoh-plugin-dds/src/lib.rs:514-576 | Two routes let through exactly the writers a reader would match directly, if and only if the reader they were made for asks for the same and the writer they were made for satisfies it. |
| QosMatching.PatternsRelayedOnlyIff | zenoh-plugin-dds/src/lib.rs:770-783 | Two entities with partition patterns only are connected by the routes of a literal partition if and only if both cover it, partitions aside nothing keeps them from the entities of the routes; directly they never match. |
| Makers.LocalMaker | zenoh-plugin-dds/src/lib.rs:510-545 | Over every run in local mode: the DDS entity of a route was created from an entity discovered earlier, in the very event that issued its GUID, for one of its parts with that key. |
| Makers.ForwardMaker | zenoh-plugin-dds/src/route_zenoh_dds.rs:228-267 | Over every run in forward mode: the same for an entity announced earlier. |
| Makers.LocalSpecSettled | zenoh-plugin-dds/src/lib.rs:510-517 | Over every run in local mode what a DDS entity was created from never changes, whatever is discovered on its key later. |
| Makers.SpecSettled | zenoh-plugin-dds/src/lib.rs:566-585 | The same over every run in forward mode. |
| Relays.ForwardCarriedIff | zenoh-plugin-dds/src/lib.rs:1230-1355 | In any states two bridges in forward mode have reached, data goes from a writer to a reader if and only if there are routes on keys that meet, such that the writer meets the announced reader for which the one was made and the announced writer for which the other was made, reliable in any case, satisfies the reader. |
| Relays.ForwardRoutesSoundIff | zenoh-plugin-dds/src/lib.rs:1230-1355 | The routes of two such bridges on one literal key connect only pairs that would match directly, if and only if the reader the one was made for asks for at least what the writer the other was made for offers. |
| Relays.LocalCarriedIff | zenoh-plugin-dds/src/lib.rs:798-905 | In local mode the same holds with mirrors: the writer must be able to stand in for the one its route was made for, and the reader must ask for no more than the one its route was made for. |
| Relays.LocalRoutesSoundIff | zenoh-plugin-dds/src/lib.rs:798-905 | The routes of two bridges in local mode on one literal key connect only pairs that would match directly, if and only if the writer the one was made for, its reliability as stated, meets the reader the other was made for, made reliable. |
| RelayWitnesses.SecondPairCarriedIff | zenoh-plugin-dds/src/lib.rs:510-585 | On routes made for a first reader and a first writer, a later writer reaches a later reader if and only if it satisfies the first reader and the first writer, made reliable, satisfies the later reader. |
| RelayWitnesses.FirstPairDecides | zenoh-plugin-dds/src/lib.rs:510-585 | Runs in which that differs from direct matching, both ways: an incompatible pair is connected, and a compatible one is not. |
| QosMatching.MirrorIsMostDemandingIff | zenoh-plugin-dds/src/lib.rs:1674-1682 | The mirror of a writer admits only writers that can stand in for it, if and only if the writer states its reliability. |
| QosMatching.NoLoop | zenoh-plugin-dds/src/lib.rs:1695-1698 | The bridge's own writers never match its own readers. |
| QosMatching.ReliableReaderHasReliableWriter | zenoh-plugin-dds/src/lib.rs:1312-1316 | A writer served by a route for a reliable reader is reliable. |
| QosMatching.MirrorWriterTerms | zenoh-plugin-dds/src/dds_mgt.rs:635-644 | Whatever reliability was asked for, a created writer offers RELIABLE and otherwise what the reader requests. |
| QosMatching.MirrorReaderPolicies | zenoh-plugin-dds/src/lib.rs:1657-1684 | The reader made for a writer has none of the policies of writers only, names no one and ignores no one, and keeps the others; polled at intervals it keeps the last sample only. |
| QosMatching.MirrorWriterPolicies | zenoh-plugin-dds/src/lib.rs:1701-1752 | The writer made for a reader has none of the policies of readers only, ignores its own participant, and for a transient-local reader keeps for late joiners the history that the reader keeps. |
| QosMatching.MirrorWriterBlocks | zenoh-plugin-dds/src/lib.rs:1733-1749 | The blocking time of the writer made for a reliable reader is the next larger one, or infinite as it is; for one of unstated reliability it is just over 100 ms. |
| QosMatching.ProxyPolicies | zenoh-plugin-dds/src/lib.rs:1687-1764 | Proxies keep every policy but names, whom they ignore, the partition they are for and, for writers, reliability. |
| Routes.RouteZenohDDS.SetDdsWriter | zenoh-plugin-dds/src/route_zenoh_dds.rs:228-267 | A writer is created and installed only if there is none; on failure nothing changed. |
| Routes.RouteZenohDDS.DeleteDdsWriter | zenoh-plugin-dds/src/route_zenoh_dds.rs:269-278 | The installed writer is taken out and deleted, if any. |
| Routes.RouteZenohDDS.Drop | zenoh-plugin-dds/src/route_zenoh_dds.rs:89-93 | A dropped route deletes its writer. |
| Routes.RouteDDSZenoh.Drop | zenoh-plugin-dds/src/route_dds_zenoh.rs:68-74 | A dropped route deletes its reader. |
| Runtime.DdsPluginRuntime.constructor | zenoh-plugin-dds/src/lib.rs:744-749 | A bridge starts with nothing but `config` and `version` in its admin space. |
| Runtime.DdsPluginRuntime.TryAddRouteFromDds | zenoh-plugin-dds/src/lib.rs:492-545 | The maps, the index and DDS change exactly as the specification of adding a route says. |
| Runtime.DdsPluginRuntime.TryAddRouteToDds | zenoh-plugin-dds/src/lib.rs:548-622 | The same to DDS, where the writer may come later. |
| Runtime.DdsPluginRuntime.DiscoveredPublication | zenoh-plugin-dds/src/lib.rs:798-841 | The loop over the partitions does what the specification of local discovery says. |
| Runtime.DdsPluginRuntime.UndiscoveredPublication | zenoh-plugin-dds/src/lib.rs:843-866 | The `retain` sweep, one route object at a time in any order, does what the specification says. |
| Runtime.DdsPluginRuntime.DiscoveredSubscription | zenoh-plugin-dds/src/lib.rs:868-905 | The same for subscriptions. |
| Runtime.DdsPluginRuntime.UndiscoveredSubscription | zenoh-plugin-dds/src/lib.rs:907-930 | The same for subscriptions. |
| Runtime.DdsPluginRuntime.HandleLocal | zenoh-plugin-dds/src/lib.rs:794-951 | One turn of the local event loop is one step of the specification. |
| Runtime.DdsPluginRuntime.RunLocalDiscovery | zenoh-plugin-dds/src/lib.rs:785-951 | The loop goes through the states of the run its events and outcomes specify, and ends in a state that satisfies the invariant. |
| Runtime.DdsPluginRuntime.FwdDiscoveredSubscription | zenoh-plugin-dds/src/lib.rs:1109-1154 | Routes without DDS writers are made and the reader is stored unless encoding fails. |
| Runtime.DdsPluginRuntime.FwdUndiscoveredSubscription | zenoh-plugin-dds/src/lib.rs:1156-1185 | The reader is taken off all routes, stored or not. |
| Runtime.DdsPluginRuntime.HandleFwdDds | zenoh-plugin-dds/src/lib.rs:1074-1206 | Each local event of forward mode does what the specification says. |
| Runtime.DdsPluginRuntime.NoteRemoteReader | zenoh-plugin-dds/src/lib.rs:1322-1333 | The loop over the discovered writers notes exactly those on that topic and partition, on the route and in their statuses. |
| Runtime.DdsPluginRuntime.NoteRemoteWriter | zenoh-plugin-dds/src/lib.rs:1234-1246 | The same for discovered readers. |
| Runtime.DdsPluginRuntime.AnnouncedReader | zenoh-plugin-dds/src/lib.rs:1301-1355 | The loop over the partitions of an announced reader does what the specification says. |
| Runtime.DdsPluginRuntime.AnnouncedWriter | zenoh-plugin-dds/src/lib.rs:1219-1267 | The same for an announced writer. |
| Runtime.DdsPluginRuntime.DeletedReader | zenoh-plugin-dds/src/lib.rs:1356-1374 | The sweep after the deletion of a remote reader. |
| Runtime.DdsPluginRuntime.DeletedWriter | zenoh-plugin-dds/src/lib.rs:1268-1293 | The sweep after the deletion of a remote writer: a route without remote writer gives up its DDS writer and stays for a local reader. |
| Runtime.DdsPluginRuntime.BridgeLeft | zenoh-plugin-dds/src/lib.rs:1440-1494 | The two sweeps after a departure, with the removal of GUIDs from the graph and its clean-up. |
| Runtime.DdsPluginRuntime.RemapReaders | zenoh-plugin-dds/src/lib.rs:1563-1598 | The in-place loop ends, and its result has one element per served gid, in order, each the GUID of a route that serves it. |
| Runtime.DdsPluginRuntime.RemapWriters | zenoh-plugin-dds/src/lib.rs:1599-1631 | The same for writers. |
| Runtime.DdsPluginRuntime.RemapEntitiesInfo | zenoh-plugin-dds/src/lib.rs:1563-1633 | Every node is remapped and keeps its name and namespace. |
| Runtime.DdsPluginRuntime.HandleSample | zenoh-plugin-dds/src/lib.rs:1207-1404 | A sample on a discovery key is handled as its key and payload say. |
| Runtime.DdsPluginRuntime.HandleForward | zenoh-plugin-dds/src/lib.rs:1072-1519 | One turn of the forward event loop is one step of the specification, for what the program made of the event, and keeps its invariant. |
| Runtime.DdsPluginRuntime.RunForwardDiscovery | zenoh-plugin-dds/src/lib.rs:1072-1519 | The forward event loop goes through the states of a run in which each event is what the program made of it (a graph with what remapping made of it), and ends in the invariant. |
| Runtime.ParseFwdDiscoveryKey | zenoh-plugin-dds/src/lib.rs:1523-1561 | The search for the kind words, one after the other, is the parser of the specification. |
| Runtime.FindFirst | zenoh-plugin-dds/src/lib.rs:1531 | The index of the first occurrence, if there is one. |
| Sweeps.SweepInAnyOrder | zenoh-plugin-dds/src/lib.rs:850-864 | Judging the routes one at a time, in whatever order the map has, is the whole sweep. |
| Departures.DepartureInAnyOrder | zenoh-plugin-dds/src/lib.rs:1445-1494 | Judging the routes of both maps one at a time in any order, taking the GUID of each dropped route out of the graph as it goes, and cleaning up if any went, is the departure of the specification. |

## Left out

- CycloneDDS itself: sample taking, serialized data, topics (never deleted by the program) and listeners.
- The zenoh session: subscribers, publishers, queries, caches of data, time-outs and congestion control. Fetching
  historical data for a new bridge is not part of this model; fetching its discovery messages is (`Join`).
- Wildcard matching of admin queries; that the index agrees with the stored values is modelled.
- The regular expressions of `allow`, `deny` and the read periods.
- The byte formats of announcements (bincode), of ROS messages (CDR) and of admin values (JSON).
- Routed data, periodic down-sampling and the depth of publication caches.
- Configuration, command line, logging, threads and time.
- Topic type, key-lessness and type information of a route, and the text of a creation failure: no decision depends on them.
- ROS graph messages in the network of bridges: they do not touch references; they are part of single-bridge runs.
- Network.Convergence: deliveries in which a route creation fails are not steps of the network, because the claim is about runs without them; single-bridge runs include them.
- Network.Convergence: encoding failures of announcements are not steps of the network either; single-bridge runs include them.
- Routes.RouteZenohDDS.SetDdsWriter: sequential, so the exchange always succeeds; racing calls are modelled in `WriterSlot`.
- Runtime.ParseFwdDiscoveryKey: the key `@` alone, on which a slice of the program would fail, is not parsed; subscriptions deliver no such key.
- RosCodec.TakeAll: samples shorter than 16 bytes, on which a slice of the program would fail, are excluded.
- WriterSlot.CallbackNeverSeesLoser: a callback polls any number of times, where the program gives up after 29.
- QosMatching.MirrorsMatchIff: which names a pattern covers is a parameter.
- Relays.ForwardCarriedIff: which keys meet is a parameter, and that data of a route arrives at all is left to zenoh.
- Announcements.OvertakenIff: the network itself has departures in order with the samples; an announcement handled after the departure of its own bridge is covered by this lemma, not by `Network`.
