# coBridge in Dafny

A model of coBridge, the bridge between ROS 2 and web clients, with proofs about its tables, its threads, its outgoing queue and its formats.

coBridge keeps the same facts in several places. The WebSocket server knows which client subscribed to which channel, and so does the ROS 2 bridge. A client advertisement is kept in three tables. The parameters asked for upstream must be the union of what the clients hold. Handlers run on one worker thread, the ROS graph is polled on another, and a handler can leave by an exception at many points. The project proves what these tables keep over every run and every interleaving, and shows by concrete runs where the code does not keep it, with the exact condition.

## Files

- `Protocol.dfy`: the tables of server and bridge and what each handler does to them, exceptions included, as functions.
- `Server.dfy`: the two classes whose methods update the tables in place, proved against `Protocol.dfy`, and whole runs of them.
- `Effects.dfy`: what each request does to the tables, element by element, exceptions included, in terms of the tables before it.
- `Runs.dfy`, `Signals.dfy`, `History.dfy`: theorems over every sequence of handler calls and topic updates; `History.dfy` tells the tables from what was asked for and not taken back, and follows schemas from the definition files to the channels.
- `Interleaving.dfy`, `Granularity.dfy`: worker and poll thread at the granularity of lock regions, and the link back to the atomic handlers.
- `Parameters.dfy`, `ParameterRuns.dfy`: the node-indexed parameter tables of the bridge, and parameter subscriptions of server and bridge together.
- `TextSplit.dfy`, `DefinitionNames.dfy`, `Definitions.dfy`, `Flatten.dfy`: loading interface definitions through a cache and flattening them with their dependencies.
- `WriteQueue.dfy`: the patched outgoing queue of a connection.
- `GraphDiff.dfy`: connection-graph differences and what a client that follows them knows.
- `Base64.dfy`, `ServiceFrame.dfy`, `ParameterJson.dfy`: the formats.
- `CallbackQueue.dfy`: the queue on which handlers run.
- `Wrappers.dfy`: options, results and facts about sequences that several modules use.

## What fails, and exactly when

- A publisher that cannot be created leaves an empty bucket in the bridge if the bridge held nothing for the client. No close removes it, only a later advertisement that succeeds fills it, and without such buckets a disconnected client that logged in first leaves nothing behind: `Runs.EmptyBucketIff`, `Runs.ClosedClientsLeaveNoTrace`, `Runs.CloseKeepsEmptyBucket`, `Runs.EmptyBucketOutlivesClient`.
- A topic update whose announcement cannot be written breaks off after the server has stored the new ids. Exactly the channels it would have added stay in the server for good, unknown to the bridge: `Runs.AbortedUpdateStrands`, `Runs.StrandedForever`.
- Once ids have wrapped around, a new channel is lost exactly when a channel with the same 32 bits is still there: `Runs.CounterWrapsIff`.
- An advertisement before login makes the three advertisement tables disagree exactly when an element reaches the bridge, and what it leaves in the bridge is never removed: `Runs.AdvertiseBeforeLogin`, `Runs.StrayIff`. Parameters and client channels of a connection that never logged in outlive it: `Runs.TracesIff`.
- A subscriber to the connection graph is counted but not flagged when there is a subscriber already, when the bridge throws, or when the connection never logged in. Then the count cannot return to zero and the bridge is never notified again, and only then: `Signals.SubscribeGraphKeeps`, `Signals.FrozenIff`, `Signals.FirstSubscriberFreezes`.
- A client that logs in twice on one connection ends with nobody logged in: `Signals.CompletedLogin`.
- A channel withdrawn while a login copies and sends its list stays in that client's view: `Granularity.PhantomsOccur`. A channel withdrawn while a subscription to it is being recorded stays in the server's table: `Granularity.StaleSubscriptionsOccur`, `Interleaving.PairsAgreeIff`.
- A connection-graph snapshot that is sent after a later difference undoes it, and a difference computed before the client was flagged can reach it afterwards: `GraphDiff.LateSnapshotMisleads`, `GraphDiff.ReplyIff`, `GraphDiff.LeftoverMisleads`, `GraphDiff.LeftoverIff`.
- A difference does not rebuild the graph when a topic leaves one of the two maps and stays in the other; the ROS 2 bridge never produces such graphs: `GraphDiff.RebuildsIff`, `GraphDiff.CoincideRebuilds`.
- A parameter list with a name that is not whitelisted loses the event subscriptions of the nodes before it, and names without a separator share table entries: `ParameterTables.SubscribeKeepsEvents`, `ParameterNames.UndottedCollides`.
- Unsubscribing is undefined behaviour when a name meets a listed node that does not hold it, or is the last of a node without event subscription; it depends on the order of the names, and a client can bring it about by asking for a rejected parameter and disconnecting: `ParameterTables.UnsubscribeIff`, `ParameterTables.EveryOrderIff`, `ParameterRuns.UndefinedIff`, `ParameterRuns.DisconnectCanBeUndefined`.
- A handler still starts after the server has been told to stop exactly when a worker was past its test of the flag: `CallbackQueue.Stopped`, `CallbackQueue.StartsAfterQuit`.
- A service that depends on a message by its full name has no text, the lookup throws: `Flatten.MessageDependencyThrows`.
- Byte arrays inside arrays or structs come back as strings, and an array that begins with a double comes back changed or not at all if it holds anything else: `ParameterJson.RoundTripIff`.
- The base64 decoder accepts any last character after a pad and ignores left-over bits: `Base64.DecodesIff`, `Base64.ReencodesIff`.

Where code and comments disagree the model follows the code. The header of the definition cache says that a missing definition file makes the message lookup throw (cobridge_base/include/message_definition_cache.hpp:82-91); the code falls back to IDL and throws only if that fails too. The service lookup logs a fallback to IDL, but has none and returns empty texts.

## Conventions of the model

- Connection handles are numbers in the order in which `_clients` is iterated. Channel ids are unbounded.
- Whether ROS creates a publisher or subscription, which connections are lost and which list elements are malformed are fields of the events, so every statement holds for all of them.
- Clock readings and hash-set orders are parameters; the name pattern of interface definitions is modelled exactly, while the dependency parser, the whitelist, the schema lookup and the installed files are fixed but arbitrary functions.
- `threw` is an exception that leaves a handler. Undefined behaviour of the code is `None`.

## Model

| member | source | states |
|---|---|---|
| `ServerObjects.Server.KickClients` | cobridge_base/include/websocket_server.hpp:958-978 | every client before the first lost connection, in table order, loses its login flag, the others keep it; it throws exactly when some client's connection is lost |
| `ServerObjects.Server.HandleLogin` | cobridge_base/include/websocket_server.hpp:950-981 | the tables become those of `Protocol.Login` (everybody kicked, then the new client stored with the login flag), and it throws exactly when a connection it looks up is lost |
| `ServerObjects.Server.SubscribeItem` | cobridge_base/include/websocket_server.hpp:1302-1324 | one list element: known subscription id and unknown channel are skipped, a malformed element or a throwing bridge ends the handler, otherwise server and bridge both record the pair |
| `ServerObjects.Server.HandleSubscribe` | cobridge_base/include/websocket_server.hpp:1284-1325 | the whole list against the snapshot taken at the start; elements before an exception stay recorded in both tables |
| `ServerObjects.Server.UnsubscribeItem` | cobridge_base/include/websocket_server.hpp:1347-1361 | one list element of an unsubscribe request, error cases included |
| `ServerObjects.Server.HandleUnsubscribe` | cobridge_base/include/websocket_server.hpp:1328-1362 | the whole list against the snapshot taken at the start; the tables and the exception are those of `Protocol.HandleUnsubscribe`, which `Effects.UnsubscribeEffect` describes |
| `ServerObjects.Server.AdvertiseItem` | cobridge_base/include/websocket_server.hpp:1376-1406 | one advertised client channel: duplicate and not whitelisted are skipped, a throwing bridge leaves the server's two tables unchanged for it |
| `ServerObjects.Server.HandleAdvertise` | cobridge_base/include/websocket_server.hpp:1365-1407 | the whole list; the three advertisement tables and the exception are those of `Protocol.HandleAdvertise` |
| `ServerObjects.Server.UnadvertiseItem` | cobridge_base/include/websocket_server.hpp:1422-1437 | one unadvertised client channel, error cases included |
| `ServerObjects.Server.HandleUnadvertise` | cobridge_base/include/websocket_server.hpp:1410-1438 | the whole list; the three advertisement tables and the exception are those of `Protocol.HandleUnadvertise` |
| `ServerObjects.Server.HandleSubscribeParameterUpdates` | cobridge_base/include/websocket_server.hpp:1461-1486 | the client's set grows by the names, and the bridge is called exactly for the names nobody held, if there are any |
| `ServerObjects.Server.UnsubscribeParamsWithoutSubscriptions` | cobridge_base/include/websocket_server.hpp:1167-1197 | the bridge is called exactly for the given names nobody holds any more, if there are any |
| `ServerObjects.Server.HandleUnsubscribeParameterUpdates` | cobridge_base/include/websocket_server.hpp:1489-1501 | the client's set shrinks by the names, then the names without a holder go to the bridge, as `Effects.UnsubscribeParamsEffect` says |
| `ServerObjects.Server.HandleSubscribeConnectionGraph` | cobridge_base/include/websocket_server.hpp:1505-1523 | the count rises, and only the first subscriber is flagged and announced to the bridge |
| `ServerObjects.Server.HandleUnsubscribeConnectionGraph` | cobridge_base/include/websocket_server.hpp:1552-1580 | only a flagged client lowers the count, and the bridge hears about it when the count reaches zero |
| `ServerObjects.Server.RemoveChannels` | cobridge_base/include/websocket_server.hpp:546-572 | the ids leave the channel table and every client's subscriptions |
| `ServerObjects.Server.AddChannels` | cobridge_base/include/websocket_server.hpp:512-534 | the channels are stored under consecutive new ids, which are returned in order |
| `ServerObjects.Server.CloseAdvertisements` | cobridge_base/include/websocket_server.hpp:1102-1117 | the bridge drops the closing client's advertisements and an emptied bucket, whatever it throws |
| `ServerObjects.Server.CloseSubscriptions` | cobridge_base/include/websocket_server.hpp:1124-1136 | the bridge drops the closing client's live subscriptions and an emptied entry, whatever it throws |
| `ServerObjects.Server.HandleConnectionClosed` | cobridge_base/include/websocket_server.hpp:1075-1164 | all tables become those of `Protocol.Close`: client, advertisements, subscriptions, parameters and graph subscription are released |
| `ServerObjects.CoBridge.Subscribe` | ros2_bridge/src/ros2_bridge.cpp:537-563 | the bridge side of a subscription with its three ways to throw; a failed ROS subscription leaves an empty entry for a new channel |
| `ServerObjects.CoBridge.Unsubscribe` | ros2_bridge/src/ros2_bridge.cpp:671-712 | the bridge side of an unsubscription with its three ways to throw; the last client removes the entry |
| `ServerObjects.CoBridge.ClientAdvertise` | ros2_bridge/src/ros2_bridge.cpp:714-783 | the bridge side of a client advertisement; a failed publisher leaves an empty bucket for a new client |
| `ServerObjects.CoBridge.ClientUnadvertise` | ros2_bridge/src/ros2_bridge.cpp:785-828 | the bridge side of a client unadvertisement; the last channel removes the bucket |
| `ServerObjects.CoBridge.VisibleTopics` | ros2_bridge/src/ros2_bridge.cpp:276-293 | the first loop keeps exactly the topics that are whitelisted and not hidden, unless hidden ones are included, under each of their types; it throws exactly on an empty name |
| `ServerObjects.CoBridge.DropDeparted` | ros2_bridge/src/ros2_bridge.cpp:304-320 | the erase-while-iterating loop removes exactly the channels whose topic and type are gone, with their subscriptions, and returns their ids |
| `ServerObjects.CoBridge.ChannelsToAdd` | ros2_bridge/src/ros2_bridge.cpp:323-373 | one new channel, with the schemas of `Effects.UpdateSchemas`, for each visible topic not advertised yet whose schema lookup was not rejected, in order |
| `ServerObjects.CoBridge.UpdateAdvertisedTopics` | ros2_bridge/src/ros2_bridge.cpp:302-384 | server and bridge tables together become those of `Protocol.UpdateTopics`, which `Runs.UpdateReconciles`, `Effects.UpdateTakes` and `Effects.UpdateSchemas` describe |
| `ServerRuns.Dispatch` | cobridge_base/include/websocket_server.hpp:1213-1230 | every handler of the objects does to both objects' tables what the corresponding event does |
| `ServerRuns.Execute` | cobridge_base/include/websocket_server.hpp:1213-1230 | executing any sequence of events on new objects leaves exactly the tables of that run, so the theorems about runs hold of the objects |
| `Effects.LoginEffect` | cobridge_base/include/websocket_server.hpp:950-981 | exactly the clients before the first lost connection lose their login flag, nobody loses anything else, and the new client enters, with its name, exactly if no connection is lost and it is not known |
| `Effects.BridgeEntries` | ros2_bridge/src/ros2_bridge.cpp:537-712 | which channels have an entry in the bridge's table: a failed creation leaves one, the last client takes it away |
| `Effects.SubscribeEffect` | cobridge_base/include/websocket_server.hpp:1284-1325 | a subscribe request throws exactly if some element fails, by a condition on the tables before the request, and exactly the elements before the first such one take effect, in server and bridge, each under its subscription id; nobody else's pairs change |
| `Effects.AskedIff` | cobridge_base/include/websocket_server.hpp:1302-1324 | the channels gained are exactly those that an element before asks for under an unused id and that exist, with the id of that element |
| `Effects.UnsubscribeEffect` | cobridge_base/include/websocket_server.hpp:1328-1362 | an unsubscribe request throws exactly if some element fails, and server and bridge lose exactly the channels that the client's own table gives for the ids before that element; nobody else's pairs change |
| `Effects.NamedIff` | cobridge_base/include/websocket_server.hpp:1336-1358 | each of these channels is held under a listed id, each listed id in use names one, and with one channel per id they are all channels held under a listed id |
| `Effects.AdvertiseEffect` | cobridge_base/include/websocket_server.hpp:1365-1407 | an advertise request of a client throws exactly if some element fails, and exactly the ids offered before that element enter all three tables |
| `Effects.UnadvertiseEffect` | cobridge_base/include/websocket_server.hpp:1410-1438 | an unadvertise request throws exactly if some element fails, and exactly the listed ids before that element leave all three tables |
| `Effects.SubscribeParamsEffect` | cobridge_base/include/websocket_server.hpp:1461-1486 | the client holds the names, too, nobody else's set changes, and the bridge is asked, in one call or none, for exactly those nobody held |
| `Effects.UnsubscribeParamsEffect` | cobridge_base/include/websocket_server.hpp:1489-1501 | the client no longer holds the names, nobody else's set changes, and the bridge is released, in one call or none, from exactly those nobody else holds |
| `Effects.CloseEffect` | cobridge_base/include/websocket_server.hpp:1075-1145 | a closed client is gone from every table, everybody else keeps everything, and the bridge is released from exactly the parameters only this client held |
| `Effects.UpdateTakes` | ros2_bridge/src/ros2_bridge.cpp:302-321 | an update takes exactly the departed channels from every client and from the bridge |
| `Effects.UpdateSchemas` | ros2_bridge/src/ros2_bridge.cpp:338-373 | every channel an update adds has, in both tables, the text of its type as schema, or none if the definition is not found |
| `History.StepPair` | cobridge_base/include/websocket_server.hpp:1284-1362 | every event on every pair of channel and client: it is there afterwards exactly if the event grants it, or it was there and the event does not revoke it |
| `History.PairHeldIff` | cobridge_base/include/websocket_server.hpp:1284-1362 | in every run a client is subscribed to a channel, in both tables, if and only if a request granted it and no request, close or withdrawal of the topic has revoked it since |
| `History.UnsubFailsIff` | cobridge_base/include/websocket_server.hpp:1347-1361 | in the states of a run only a malformed element or an id whose channel an earlier element took makes an unsubscribe request fail |
| `History.ParamHeldIff` | cobridge_base/include/websocket_server.hpp:1461-1501 | in every run a connection holds a parameter if and only if it asked for it and has neither given it back nor been closed as a client since |
| `History.ChannelsWereAdded` | ros2_bridge/src/ros2_bridge.cpp:302-384 | in every run each channel, the same in both tables, was added by an update of the run that lists its topic, with the schema of its type at that update |
| `Schemas.AdvertisedSchema` | ros2_bridge/src/ros2_bridge.cpp:342-369 | from the definition files on: the schema of a channel an update adds is the definition of its type and one section for each definition reached, the IDL one if a message definition is not found, empty if that is not found either; any other failure adds no channel |
| `Runs.SubscriptionsAgree` | cobridge_base/include/websocket_server.hpp:1284-1362 | after every sequence of handler calls and topic updates, exceptions included, server and bridge hold the same (channel, client) pairs and the same channels |
| `Runs.AdvertisementsAgree` | cobridge_base/include/websocket_server.hpp:1365-1438 | in every run in which clients log in first, the three tables of client advertisements agree and only clients own parameters |
| `Runs.ClosedClientsLeaveNoTrace` | cobridge_base/include/websocket_server.hpp:1075-1145 | in such a run no subscription, advertisement or parameter table mentions a handle that is not connected, not even with an empty bucket, if and only if no empty bucket is left, by the condition of `Runs.EmptyBucketIff` |
| `Runs.TracesIff` | cobridge_base/include/websocket_server.hpp:1082-1090 | in every run, logged in or not, a handle owns a parameter set exactly when it asked for or gave back parameters and has not been closed as a client since, and a table of client channels exactly when it advertised since |
| `Runs.StrayIff` | cobridge_base/include/websocket_server.hpp:1402-1405 | in every run the bridge alone knows an advertisement of a handle exactly when the handle advertised something that reached the bridge while it was not logged in, and nothing removes it |
| `Runs.AdsAgreeIff` | cobridge_base/include/websocket_server.hpp:1365-1438 | in every run the three advertisement tables agree on a handle exactly when it never did that |
| `Runs.StepBucket` | ros2_bridge/src/ros2_bridge.cpp:714-783 | an event leaves an empty bucket for a handle exactly when ROS refuses the first whitelisted element of an advertisement while the bridge holds nothing for it, or a bucket was empty before and the event does not advertise successfully |
| `Runs.EmptyBucketIff` | ros2_bridge/src/ros2_bridge.cpp:714-783 | in every run the bridge holds an empty bucket for a handle exactly when such a refusal happened and no advertisement of the handle has succeeded since; no close removes it |
| `Runs.BridgeMentionsIff` | ros2_bridge/src/ros2_bridge.cpp:714-818 | in every run the bridge's advertisement table mentions a handle without a client exactly when it advertised early or has an empty bucket left |
| `Runs.TraceLeftIff` | cobridge_base/include/websocket_server.hpp:1075-1145 | in every run a handle without a client leaves a trace exactly when one of the three conditions above holds or an empty bucket is left |
| `Runs.UpdateReconciles` | ros2_bridge/src/ros2_bridge.cpp:302-384 | after an update exactly the visible, not rejected (or already advertised) topics are advertised, one id each; survivors keep id and channel, new ids are above all earlier ones, no client keeps a departed channel |
| `Runs.UpdateAdvertisesVisible` | ros2_bridge/src/ros2_bridge.cpp:276-384 | the same with the topics of the ROS graph as they come: listed, shown and whitelisted, and not rejected unless advertised already |
| `Runs.HiddenTopicsStayHidden` | ros2_bridge/src/ros2_bridge.cpp:50-57 | unless hidden topics are included an update leaves no topic advertised whose name, or a part of it, begins with an underscore |
| `Runs.IdsNeverReturn` | cobridge_base/include/websocket_server.hpp:520-534 | over whole runs a channel id keeps its channel until it is withdrawn and never comes back |
| `Runs.CounterFits` | cobridge_base/include/websocket_server.hpp:526-526 | while fewer than 2^32 ids are allocated the 32-bit counter has not wrapped anywhere in the run and every id fits |
| `Runs.CounterWrapsIff` | cobridge_base/include/websocket_server.hpp:523-534 | the loop as it is, with a 32-bit counter and `emplace`: afterwards every channel, old and new, is found under its id if and only if no two of their ids agree in 32 bits |
| `Runs.EmplacedMirrors` | cobridge_base/include/websocket_server.hpp:523-534 | while ids do not agree in 32 bits the loop's table is exactly the model's |
| `Runs.AbortedUpdateStrands` | cobridge_base/include/websocket_server.hpp:523-536 | an update whose announcement cannot be written leaves in the server, unknown to the bridge, exactly the channels that it would have added |
| `Runs.StrandedForever` | ros2_bridge/src/ros2_bridge.cpp:302-384 | whatever handler calls and updates follow, such a channel stays and never becomes known to the bridge |
| `Runs.UnknownClientAdvertises` | cobridge_base/include/websocket_server.hpp:1365-1407 | for a connection that is not a client, the bridge knows an advertisement afterwards if and only if it did before or the list reaches it |
| `Runs.AdvertiseBeforeLogin` | cobridge_base/include/websocket_server.hpp:1365-1407 | an advertisement before login keeps the three tables in agreement if and only if no element reaches the bridge |
| `Runs.CloseKeepsEmptyBucket` | cobridge_base/include/websocket_server.hpp:1102-1122 | closing leaves the client's bucket in the bridge's advertisement table if and only if the bucket is empty or holds an advertisement the server does not know |
| `Runs.EmptyBucketOutlivesClient` | ros2_bridge/src/ros2_bridge.cpp:714-783 | a run that reaches such a bucket: login, failed publisher, close |
| `Signals.GraphSignals` | cobridge_base/include/websocket_server.hpp:1505-1580 | in every run the count is never negative, at most one client is flagged and covered by it, and the bridge hears true, false, true, ..., the last word being true exactly while the count is positive |
| `Signals.SubscribeGraphKeeps` | cobridge_base/include/websocket_server.hpp:1505-1523 | a subscription leaves a counted subscriber without a flag exactly when there is a subscriber already, the bridge throws, or the connection never logged in |
| `Signals.StepGraph` | cobridge_base/include/websocket_server.hpp:1505-1580 | every event keeps the bookkeeping, and the number of counted subscriptions without a flag grows by exactly those subscriptions: nothing takes one back |
| `Signals.SecondSubscriberFreezesSignals` | cobridge_base/include/websocket_server.hpp:1552-1580 | from the moment such an orphan exists the bridge hears nothing more in that run |
| `Signals.FrozenIff` | cobridge_base/include/websocket_server.hpp:1505-1580 | after any run the bridge never hears another word, whatever follows, if and only if some subscription of the run was of that kind |
| `Signals.FirstSubscriberFreezes` | cobridge_base/include/websocket_server.hpp:1510-1522 | one subscription before login, or one that makes the bridge throw, is enough |
| `Signals.CompletedLogin` | cobridge_base/include/websocket_server.hpp:958-981 | a login that meets no lost connection leaves exactly the new handle logged in, and nobody at all when the handle was known already |
| `Signals.OneLogin` | cobridge_base/include/websocket_server.hpp:950-980 | in every run, aborted logins included, at most one client is logged in |
| `Interleaving.TraceInv` | cobridge_base/include/websocket_server.hpp:512-572 | the four invariants (ids, program counters, subscription pairs, client views) hold in every interleaving of the worker's and the poll thread's lock regions |
| `Interleaving.RecordedId` | cobridge_base/include/websocket_server.hpp:1321-1323 | the record region stores the id the client chose, keeps the id of a channel that has one, and touches no other channel |
| `Interleaving.IdleWorkerAgrees` | cobridge_base/include/websocket_server.hpp:1284-1362 | whenever the worker is idle, even amid an update, every pair the bridge holds is held by the server, and what the server holds beyond that names a withdrawn channel |
| `Interleaving.IdlePairsExactly` | cobridge_base/include/websocket_server.hpp:1284-1362 | whenever the worker is idle and no withdrawal is under way, the server's pairs are exactly the bridge's and those it recorded after their channel was withdrawn |
| `Interleaving.PairsAgreeIff` | cobridge_base/include/websocket_server.hpp:1284-1362 | then server and bridge hold the same pairs if and only if nothing was recorded late |
| `Interleaving.UninterruptedPairsAgree` | cobridge_base/include/websocket_server.hpp:1321-1323 | if no step of the poll thread falls between the bridge's acceptance and the server's record, they hold the same pairs |
| `Interleaving.RetiredForever` | ros2_bridge/src/ros2_bridge.cpp:302-384 | a withdrawn id stays withdrawn in every continuation of every interleaving |
| `Interleaving.ViewsAreComplete` | cobridge_base/include/websocket_server.hpp:979-1006 | between updates, replaying the messages sent to a logged-in client gives the channel table plus its phantoms, in every interleaving, so it equals the table if and only if there are none |
| `Interleaving.UninterruptedViewsAreExact` | cobridge_base/include/websocket_server.hpp:979-1006 | if nothing runs between the regions of a login, the replayed view equals the channel table |
| `Granularity.UpdateAlone` | ros2_bridge/src/ros2_bridge.cpp:302-384 | the six regions of an update, run without interruption, are the atomic update |
| `Granularity.SubscribeAlone` | cobridge_base/include/websocket_server.hpp:1284-1325 | the regions of a subscribe request, run without interruption, are the atomic handler, exceptions included |
| `Granularity.UnsubscribeAlone` | cobridge_base/include/websocket_server.hpp:1328-1362 | likewise for an unsubscribe request |
| `Granularity.SubscribeRequestAlone` | cobridge_base/include/websocket_server.hpp:1284-1325 | a whole subscribe request, from the snapshot of the client's own table on, is the atomic handler |
| `Granularity.UnsubscribeRequestAlone` | cobridge_base/include/websocket_server.hpp:1328-1362 | likewise for a whole unsubscribe request |
| `Granularity.CloseAlone` | cobridge_base/include/websocket_server.hpp:1075-1164 | likewise for a close, with the channels released in any order |
| `Granularity.PhantomsOccur` | cobridge_base/include/websocket_server.hpp:994-1006 | an interleaving after which a client believes in a channel that was withdrawn before its list was sent |
| `Granularity.StaleSubscriptionsOccur` | cobridge_base/include/websocket_server.hpp:1313-1323 | an interleaving after which the server holds a subscription to a channel that is gone |
| `ParameterNames.JoinSplit` | ros2_bridge/src/parameter_interface.cpp:32-44 | joining the split parts gives the name back if and only if it has a separator |
| `ParameterNames.SplitJoin` | ros2_bridge/src/parameter_interface.cpp:32-44 | splitting a joined name gives node and parameter back if and only if the node's name has no separator |
| `ParameterNames.SplitInjective` | ros2_bridge/src/parameter_interface.cpp:32-37 | two names with a separator never share a table entry |
| `ParameterNames.UndottedCollides` | ros2_bridge/src/parameter_interface.cpp:32-37 | every name without a separator shares its table entry with another name |
| `ParameterTables.SubscribeGood` | ros2_bridge/src/parameter_interface.cpp:317-384 | for whitelisted names the node tables represent the old entries plus the new ones, and they are in shape if and only if ROS made the event subscription of every new node |
| `ParameterTables.SubscribeKeepsEvents` | ros2_bridge/src/parameter_interface.cpp:317-384 | event subscriptions still match the listed nodes if and only if the names before the first rejected one bring no new node, or nothing is rejected and ROS makes every subscription |
| `ParameterTables.UnsubscribeIff` | ros2_bridge/src/parameter_interface.cpp:386-403 | for the tables any history leaves, a call is defined if and only if each name, at its turn, belongs to a node that is not listed, or is listed and not the last of a node without event subscription; then exactly its entries are gone |
| `ParameterTables.EveryOrderIff` | ros2_bridge/src/parameter_interface.cpp:386-403 | for tables in shape a call is defined in every order of its names if and only if each is held or of a node that is not listed |
| `ParameterTables.UnsubscribeGood` | ros2_bridge/src/parameter_interface.cpp:386-403 | unsubscribing held entries removes exactly those and keeps the tables in shape |
| `ParameterObjects.ParameterInterface.ListNames` | ros2_bridge/src/parameter_interface.cpp:323-339 | the first loop lists the names up to the first rejected one and collects the new nodes |
| `ParameterObjects.ParameterInterface.SubscribeEvents` | ros2_bridge/src/parameter_interface.cpp:341-383 | the second loop subscribes to the events of the new nodes, up to the one at which ROS throws |
| `ParameterObjects.ParameterInterface.SubscribeParams` | ros2_bridge/src/parameter_interface.cpp:317-384 | both loops, with the early return and the exception, compute `ParameterTables.Subscribe` |
| `ParameterObjects.ParameterInterface.UnsubscribeParams` | ros2_bridge/src/parameter_interface.cpp:386-403 | the loop computes `ParameterTables.Unsubscribe`, or reports that the code would run into undefined behaviour |
| `ParameterRuns.UpstreamIsUnion` | cobridge_base/include/websocket_server.hpp:1138-1210 | in every run the parameters asked for upstream are the union of all clients' sets; a subscribe call names only parameters nobody held, an unsubscribe call none still held |
| `ParameterRuns.TablesFollowClients` | ros2_bridge/src/parameter_interface.cpp:317-403 | in every run with whitelisted dotted names, clients that give back only what they hold and event subscriptions that ROS makes, whatever order the hash sets yield, nothing is undefined and the node tables represent exactly the held parameters |
| `ParameterRuns.UndefinedIff` | ros2_bridge/src/parameter_interface.cpp:386-403 | after any history of calls, whatever clients, whitelist, ROS and hash order do, the bridge has run into undefined behaviour if and only if some unsubscribe call met a name that could not be erased at its turn |
| `ParameterRuns.DisconnectCanBeUndefined` | cobridge_base/include/websocket_server.hpp:1138-1145 | a client that asks for a whitelisted and a rejected parameter of one node and disconnects: undefined in one hash order, defined in the other |
| `TextSplit.SplitString` | ros2_bridge/src/message_definition_cache.cpp:146-163 | the loop computes the recursive splitter |
| `TextSplit.JoinSplit` | ros2_bridge/src/message_definition_cache.cpp:146-163 | joining the pieces restores the text, and no piece contains the delimiter |
| `TextSplit.SplitJoin` | ros2_bridge/src/message_definition_cache.cpp:146-163 | splitting joined pieces without the delimiter character gives the pieces back |
| `TextSplit.FindFirst` | ros2_bridge/src/message_definition_cache.cpp:151-156 | a search from a position finds the first occurrence, and nothing exactly when there is none |
| `TextSplit.CrCrlf` | ros2_bridge/src/message_definition_cache.cpp:185-197 | replacing CR LF first and then CR equals the one-pass normalizer on every text, also on CR CR LF |
| `TextSplit.ReplaceCrlf` | ros2_bridge/src/message_definition_cache.cpp:188-192 | the first in-place loop ends and turns every CR LF, read from the left, into LF |
| `TextSplit.ReplaceCr` | ros2_bridge/src/message_definition_cache.cpp:193-197 | the second in-place loop ends and turns every CR into LF |
| `TextSplit.Normalize` | ros2_bridge/src/message_definition_cache.cpp:185-197 | both loops together are the one-pass normalizer |
| `TextSplit.SortLines` | ros2_bridge/src/message_definition_cache.cpp:205-218 | the loop over the lines collects the request and the response lines, each with its line end |
| `TextSplit.RequestEnds` | ros2_bridge/src/message_definition_cache.cpp:205-218 | the request lines are those before the first separator |
| `TextSplit.SplitServiceDefinition` | ros2_bridge/src/message_definition_cache.cpp:182-219 | the whole function, its error case included |
| `TextSplit.ServiceLines` | ros2_bridge/src/message_definition_cache.cpp:205-218 | request and response lines together are exactly the lines that are no separator, in order; without a separator there is no response |
| `TextSplit.ServiceDefinitionLines` | ros2_bridge/src/message_definition_cache.cpp:182-219 | the two texts of an accepted definition split back into exactly its non-separator lines |
| `TextSplit.SplitActionWhole` | ros2_bridge/src/message_definition_cache.cpp:168-180 | an action definition is accepted exactly when it has three parts, and joining them restores it |
| `DefinitionNames.ParseIff` | ros2_bridge/src/message_definition_cache.cpp:39-41 | exactly the names `package/Type` and `package/subfolder/Type` of words with one of the three subfolders are accepted, and taken apart as written |
| `DefinitionNames.ParseActionName` | ros2_bridge/src/message_definition_cache.cpp:424-424 | the resource names made up for action subtypes parse back into their parts |
| `DefinitionNames.ActionNameParse` | ros2_bridge/src/message_definition_cache.cpp:342-353 | a name that parses as an action is the one made up from its parts |
| `DefinitionNames.OnlyOneSuffix` | ros2_bridge/src/message_definition_cache.cpp:227-244 | no action suffix is a suffix of another, so at most one matches |
| `DefinitionNames.RemoveSubtypeSuffix` | ros2_bridge/src/message_definition_cache.cpp:227-244 | removing the subtype from any name with any suffix appended gives the name back |
| `Definitions.SubtypeIsFresh` | ros2_bridge/src/message_definition_cache.cpp:393-427 | each of the five entries stored together is what loading that subtype on its own gives |
| `Definitions.MessageDefinitionCache.EmplaceSubtypes` | ros2_bridge/src/message_definition_cache.cpp:397-427 | exactly the five subtypes are added and every cached entry still equals a fresh load |
| `Definitions.MessageDefinitionCache.LoadAction` | ros2_bridge/src/message_definition_cache.cpp:393-440 | an action load answers what a load with an empty cache answers, errors included, and keeps the cache transparent; `Definitions.ActionLoads` says what that is |
| `Definitions.MessageDefinitionCache.LoadMessageSpec` | ros2_bridge/src/message_definition_cache.cpp:334-454 | after any history, failed calls included, the answer is that of a load with an empty cache; `Definitions.MessageLoads` and `Definitions.ActionLoads` say what that is |
| `Definitions.MessageDefinitionCache.LoadServiceSpec` | ros2_bridge/src/message_definition_cache.cpp:254-332 | likewise for services; `Definitions.ServiceLoads` says what that is |
| `Definitions.MessageLoads` | ros2_bridge/src/message_definition_cache.cpp:334-391 | a message name, with or without subfolder, loads the text of `Type.msg` of the package, or of `Type.idl`; a missing file and a missing package are told apart |
| `Definitions.ServiceLoads` | ros2_bridge/src/message_definition_cache.cpp:268-326 | for `package/srv/Type` the request is the lines of `Type.srv` before the first separator and the response the other lines that are no separator; one line that is no separator is refused |
| `Definitions.DependencyLoads` | ros2_bridge/src/message_definition_cache.cpp:278-284 | a name without subfolder in a service loads `Type.msg` |
| `Definitions.ActionLoads` | ros2_bridge/src/message_definition_cache.cpp:393-427 | each of the five names of an action, written out, loads its own part of the file: feedback, result and goal behind their fixed lines, and the two fixed texts |
| `Flatten.FiniteEnvironment` | ros2_bridge/src/message_definition_cache.cpp:500-520 | with finitely many loadable definitions any roots lie together in a finite set closed under dependencies, which is what the traversal needs to end |
| `Flatten.WalkReaches` | ros2_bridge/src/message_definition_cache.cpp:505-520 | the depth-first order lists every definition reached by one or more edges, and no other, exactly once, on cyclic graphs too |
| `Flatten.VisitReaches` | ros2_bridge/src/message_definition_cache.cpp:505-520 | the traversal succeeds exactly when the root and everything it reaches can be loaded, and then lists that order; otherwise its exception is that of the first definition in that order, root included, that cannot be loaded |
| `Flatten.VisitFormat` | ros2_bridge/src/message_definition_cache.cpp:510-518 | a traversal adds only ids of its own format to the shared seen set |
| `Flatten.VisitIgnores` | ros2_bridge/src/message_definition_cache.cpp:503-535 | ids of other formats in the shared seen set change neither order nor failure |
| `Flatten.DelimiterLines` | ros2_bridge/src/message_definition_cache.cpp:124-144 | a delimiter is a line of eighty equals signs and a line with the kind and the name |
| `Flatten.AppendRecursive` | ros2_bridge/src/message_definition_cache.cpp:505-520 | the recursive closure returns the rendered traversal and the traversal's seen set, with any cache history |
| `Flatten.GetFullMsgText` | ros2_bridge/src/message_definition_cache.cpp:500-537 | the full text is that of fresh traversals, with the IDL fallback exactly when a definition is not found |
| `Flatten.GetFullSrvText` | ros2_bridge/src/message_definition_cache.cpp:456-498 | request and response are those of fresh traversals; a missing definition leaves the texts not yet built empty; `Flatten.ServiceTexts` says what they hold |
| `Flatten.FullMessageSections` | ros2_bridge/src/message_definition_cache.cpp:500-537 | for every outcome: the text is the root's text and one section for each reached definition, none twice, the root having a section exactly when it lies on a cycle; the IDL text takes its place exactly when the first message definition that cannot be loaded is not found, and every other failure is thrown |
| `Flatten.FullServiceSections` | ros2_bridge/src/message_definition_cache.cpp:456-498 | likewise for services: what request and response hold, that both stay empty when the first failure of the request is a definition not found and the response alone when that of the response is, and that any other first failure is thrown |
| `Flatten.ServiceTexts` | ros2_bridge/src/message_definition_cache.cpp:456-498 | from the file on: the request text is the lines before the first separator and the sections of what they reach, the response text the other lines and theirs |
| `Flatten.MessageDependencyThrows` | ros2_bridge/src/message_definition_cache.cpp:278-280 | a service that reaches a definition in subfolder `msg`, with none on the way missing, always throws |
| `WriteQueue.FrameUnique` | patches/connection_impl_hpp-fix.patch:79-100 | the declarative description of a batch allows one outcome only for a queue and a clock |
| `WriteQueue.BatchShape` | patches/connection_impl_hpp-fix.patch:79-100 | a batch on a nonempty queue sends something; without its last message it holds at most 1048576 bytes and no terminal message; it drops only unreliable entries stale at one of the clock readings it made; it leaves entries only if over the limit or ended by a terminal message |
| `WriteQueue.RunAccounts` | patches/connection_impl_hpp-fix.patch:170-226 | over every run the pushed entries are those with a fate followed by those queued, the sent messages are exactly those with fate sent in push order, and each entry got its fate from one batch, by the rules of a batch on the queue of that moment at that batch's clock |
| `WriteQueue.DropReason` | patches/connection_impl_hpp-fix.patch:195-226 | an entry taken from the queue was taken by a batch after its push, and was dropped if and only if it was unreliable, stale by 64-bit age at the clock reading of its own pop, and not the last in the queue |
| `WriteQueue.StaleIff` | patches/connection_impl_hpp-fix.patch:215-222 | an unreliable entry is stale at an age of a hundred milliseconds, and, because ages are unsigned, when the clock was set back |
| `WriteQueue.ReliableArrives` | patches/connection_impl_hpp-fix.patch:170-226 | in every run a reliable entry is queued or sent |
| `WriteQueue.RunBytes` | patches/connection_impl_hpp-fix.patch:180-218 | in every run the byte counter is the 64-bit sum of the queued payloads |
| `WriteQueue.PickPartitions` | patches/connection_impl_hpp-fix.patch:204-224 | sent and dropped entries together are the entries taken, none lost and none twice |
| `WriteQueue.PickOrdered` | patches/connection_impl_hpp-fix.patch:204-224 | the entries of one fate sit at increasing positions, and at all positions with that fate |
| `WriteQueue.Connection.Push` | patches/connection_impl_hpp-fix.patch:170-183 | queue and counter after a push, a null message included |
| `WriteQueue.Connection.Pop` | patches/connection_impl_hpp-fix.patch:195-226 | stale unreliable entries are taken off up to the first one that is not, which is returned; the last entry is returned even if stale; nothing is returned only from an empty queue |
| `WriteQueue.Connection.Batch` | patches/connection_impl_hpp-fix.patch:79-100 | the batching loop does what `WriteQueue.Frame` says, the one outcome allowed |
| `WriteQueue.Connection.WriteFrame` | patches/connection_impl_hpp-fix.patch:79-100 | a batch is a step of the runs above |
| `GraphDiff.ConnectionGraph.Collect` | cobridge_base/include/websocket_server.hpp:760-802 | each of the three loops collects exactly the changed entries and the names seen |
| `GraphDiff.ConnectionGraph.Update` | cobridge_base/include/websocket_server.hpp:751-841 | the new graph is stored, and the message is the difference, or none when it is empty |
| `GraphDiff.ApplyDiff` | cobridge_base/include/websocket_server.hpp:760-840 | applying the difference to the old graph gives the new graph plus exactly the topics that left one map and stay in the other |
| `GraphDiff.RebuildsIff` | cobridge_base/include/websocket_server.hpp:760-840 | the difference rebuilds the new graph if and only if there is no such topic |
| `GraphDiff.CoincideRebuilds` | ros2_bridge/src/ros2_bridge.cpp:489-510 | for graphs whose two topic maps have the same keys, as the ROS 2 bridge builds them, the difference rebuilds the new graph and no message is sent exactly when nothing changed |
| `GraphDiff.QuietIff` | cobridge_base/include/websocket_server.hpp:826-830 | in general no message is sent if and only if the old graph already tracks the new one |
| `GraphDiff.ApplySound` | cobridge_base/include/websocket_server.hpp:751-848 | a view that tracks the old graph tracks the new one after the difference |
| `GraphDiff.ViewTracks` | cobridge_base/include/websocket_server.hpp:1505-1549 | in every interleaving of the poll thread's and the worker's stores, broadcasts, the flag and the replies in which every step is on track (next rows), a client that has its snapshot tracks the graph whenever nothing is on its way, and equals it when the maps have the same topics |
| `GraphDiff.StepInvIff` | cobridge_base/include/websocket_server.hpp:810-847 | a step keeps client and graph in order if and only if it is on track: only the flag and the reply can fail |
| `GraphDiff.LeftoverIff` | ros2_bridge/src/ros2_bridge.cpp:530-535 | with timely replies every continuation leaves the client on track if and only if the message on its way at the flag is harmless |
| `GraphDiff.ReplyIff` | cobridge_base/include/websocket_server.hpp:1525-1548 | a reply, however late and whatever is on its way, leaves the client on track if and only if the snapshot, with the message on its way applied, is right for the current graph |
| `GraphDiff.LateSnapshotMisleads` | cobridge_base/include/websocket_server.hpp:1525-1548 | an interleaving that leaves a client with a wrong graph and nothing in flight |
| `GraphDiff.LeftoverMisleads` | ros2_bridge/src/ros2_bridge.cpp:530-535 | an interleaving with timely replies in which the poll thread's older message reaches the newly flagged client and leaves it with a wrong graph |
| `Base64.AlphabetIsChar` | cobridge_base/src/base64.cpp:24-25 | the encoder's table and the decoder's ranges describe the same correspondence |
| `Base64.EncodeLength` | cobridge_base/src/base64.cpp:28-29 | the text has four characters for every three bytes or part of three, the reserved length |
| `Base64.EncodeSpells` | cobridge_base/src/base64.cpp:34-57 | on every byte string each group of four characters spells the bits of its group of three bytes as section 4 of RFC 4648 says, with zero bits and pads after a short last group |
| `Base64.RoundTrip` | cobridge_base/src/base64.cpp:22-123 | decoding inverts encoding on every byte string |
| `Base64.DecodesIff` | cobridge_base/src/base64.cpp:59-123 | a text decodes if and only if its length is a multiple of four and every character has a value, except pads in the last two places and anything after a pad in the place before the last |
| `Base64.ReencodesIff` | cobridge_base/src/base64.cpp:22-123 | encoding gives an accepted text back if and only if it is canonical in the sense of section 3.5 of RFC 4648 |
| `Base64.EncodeBytes` | cobridge_base/src/base64.cpp:22-57 | the loop and the final switch compute the encoding |
| `Base64.EncodeRest` | cobridge_base/src/base64.cpp:41-54 | the final switch computes the padded characters |
| `Base64.ReadGroup` | cobridge_base/src/base64.cpp:84-116 | the inner loop, on a 32-bit accumulator that still holds earlier groups, returns the right bytes or the right error, in range |
| `Base64.DecodeText` | cobridge_base/src/base64.cpp:59-123 | the whole decoder, although the accumulator is never reset |
| `ServiceFrame.ReadWrite32` | cobridge_base/include/serialization.hpp:42-65 | reading a written number gives it back |
| `ServiceFrame.WriteRead32` | cobridge_base/include/serialization.hpp:42-65 | writing a read number gives the bytes back |
| `ServiceFrame.LittleEndian` | cobridge_base/include/serialization.hpp:42-52 | the bytes of a number come with the low one first |
| `ServiceFrame.FrameParts` | cobridge_base/src/serialization.cpp:223-235 | service id, call id and length of the encoding take four bytes each, then come encoding and payload |
| `ServiceFrame.WriteAt` | cobridge_base/include/serialization.hpp:42-52 | the four bytes are laid over the buffer little-endian and nothing else changes |
| `ServiceFrame.ReadAt` | cobridge_base/include/serialization.hpp:54-65 | the four bytes are read little-endian |
| `ServiceFrame.ParseFrameIff` | cobridge_base/src/serialization.cpp:175-235 | reading a written response gives it back if and only if its encoding has at most 256 bytes |
| `ServiceFrame.FrameParse` | cobridge_base/src/serialization.cpp:175-235 | writing what was read rebuilds every accepted byte string |
| `ServiceFrame.AcceptedIff` | cobridge_base/src/serialization.cpp:175-221 | the accepted byte strings are exactly the frames of responses with a short enough encoding |
| `ServiceFrame.ServiceResponse.Read` | cobridge_base/src/serialization.cpp:175-221 | the object becomes the parsed response, or the right one of the three errors is raised and encoding and payload stay |
| `ServiceFrame.ServiceResponse.Write` | cobridge_base/src/serialization.cpp:223-235 | the frame is laid over the caller's buffer and nothing else changes |
| `ParameterJson.ReadPrinted` | cobridge_base/src/serialization.cpp:57-102 | reading a printed value turns byte arrays at any depth into their base64 text and changes nothing else |
| `ParameterJson.PlainIff` | cobridge_base/src/serialization.cpp:57-102 | that leaves a value unchanged if and only if it holds no byte array |
| `ParameterJson.ReadReparsed` | cobridge_base/src/serialization.cpp:91-94 | signed and unsigned JSON integers read the same at any depth |
| `ParameterJson.CastElements` | cobridge_base/src/serialization.cpp:139-149 | the in-place loop turns every integer into a double, or fails on the first element that is no number |
| `ParameterJson.RoundTripIff` | cobridge_base/src/serialization.cpp:57-153 | reading a printed parameter gives it back if and only if no byte array sits below the top level and it is not an array that begins with a double and holds something else |
| `ParameterJson.ReadWholeNumber` | cobridge_base/src/serialization.cpp:136-137 | a whole number announced as `float64` is read as a double; an unsigned one beyond the signed range wraps |
| `ParameterJson.ReadNumbers` | cobridge_base/src/serialization.cpp:138-149 | an array announced as `float64_array` is read as doubles if and only if all elements are numbers, and refused otherwise |
| `ParameterJson.ReadByteArray` | cobridge_base/src/serialization.cpp:134-135 | a string announced as `byte_array` is read as the bytes it encodes, or refused |
| `CallbackQueue.Accounted` | cobridge_base/include/callback_queue.hpp:57-95 | in every run with any number of workers accepted is started followed by queued, and each callback was started as often as it finished or is running; with one worker callbacks run in arrival order, one at a time |
| `CallbackQueue.Stopped` | cobridge_base/include/callback_queue.hpp:48-95 | after the quit flag is set exactly one more callback starts, the first of the queue, if a worker was past its test of the flag and once it has released the lock, and none otherwise; no other worker starts any; once the workers are gone what was accepted is finished or still queued |
| `CallbackQueue.StartsAfterQuit` | cobridge_base/include/callback_queue.hpp:48-82 | a run in which one does start |
| `CallbackQueue.MoreWorkersReorder` | cobridge_base/include/callback_queue.hpp:57-95 | with any larger number of workers a later callback can finish first |
| `CallbackQueue.Queue.Add` | cobridge_base/include/callback_queue.hpp:57-65 | the locked region of a producer is the push step |
| `CallbackQueue.Queue.Test` | cobridge_base/include/callback_queue.hpp:71-79 | the second test of the flag is the test step |
| `CallbackQueue.Queue.Remove` | cobridge_base/include/callback_queue.hpp:79-82 | the removal that follows is the removal step |
| `CallbackQueue.Queue.Stop` | cobridge_base/include/callback_queue.hpp:48-51 | setting the flag is the quit step |

## Left out

- Sockets, TLS, the HTTP device-info server, start and stop of the server: input and output only.
- The ROS 1 bridge: the same state machine over another interface.
- Channel encodings: the message encoding is a constant and the schema encoding the name of the format found.
- Service tables, service calls to ROS, asset fetching and time broadcast: they would add easy members only.
- Text form of JSON, regular expressions for dependencies and whitelists, ament index and file system: libraries; they enter as fixed functions or trees.
- Delivery of published messages to subscribers and the dispatch of binary client messages.
- Liveness: that a waiting worker is woken, that a queue is ever flushed.
- Unlocked reads: the channel table lookup in `handle_subscribe` is one atomic step of the model.
- Runs.IdsNeverReturn: channel ids are unbounded numbers; `Runs.CounterFits` gives the hypothesis of fewer than 2^32 allocations under which they are the code's, and `Runs.CounterWrapsIff` says exactly when the code's table loses a channel otherwise.
- Runs.SubscriptionsAgree: updates of a run come to their end; `Runs.AbortedUpdateStrands` says what one that breaks off in `add_channels` leaves.
- Interleaving.TraceInv: handlers on tables the poll thread never touches (advertisements, parameters, connection graph) run in one piece, and no update breaks off because its announcement cannot be written (cobridge_base/include/websocket_server.hpp:535-536).
- ParameterTables.UnsubscribeIff: the event callback reads the node table without the lock and by `operator[]` (ros2_bridge/src/parameter_interface.cpp:368), which can list a node without parameters; the tables of the model have no such entry.
- WriteQueue.Connection.Push: payloads are shorter than 2^63 bytes, the bound on a string's length; headers, masking and the write flag of the connection are not part of the model.
- Base64.DecodeText: the memory reserved for the result is not part of the model.
- ParameterJson.RoundTripIff: doubles are opaque values, so NaN and the rounding of large integers are not part of the model.
- GraphDiff.ViewTracks: one client and one subscription of it; the worker stores a graph of its own only while nobody is flagged, because it does so for the first subscriber only.
