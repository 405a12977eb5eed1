# Connector verification

A model, in Dafny, of the chat connector in `src/server/connector` and the properties it keeps.
Clients register sessions, enter rooms and send chat; a subscription loop fans router messages out
to the sessions' queues, each pumped to its connection by a goroutine of its own; chat is collected
in bounded queues per room, drained in batches and sent, length-framed, to compute servers.

## How the model is built

State that the program updates in place is a class (`Sessions`, `FanOut`, `Purge`, `RoomQueues`,
`PlainRpc.RpcClient`, `Pconnector`, `Connectsvc`), and its loops are loops. Concurrency is four
step relations at the granularity of the program's locks: `Downstream` (registration, takeover,
rooms, pumps, fan-out), `Upstream` (racing adds, draining, delivery), `PlainRpc` (connections,
partial writes, discovery) and `SerializedCache` (concurrent serialisation). In each, an event is
one critical section of one thread, an event that is impossible in a state changes nothing, and so
every sequence of events is an interleaving; the theorems are about all sequences. Fields called
history record what has happened and influence nothing.

The two layers share their definitions: the registry and the room index are pure maps in
`SessionIndex`, generic in what identifies a session, and the bounded queue is `RoomQueues.Enqueue`.
`PlainRpc.RpcClient` is proved to take exactly the steps of its protocol. The downstream layers
meet in `DownstreamFanOut`: uninterrupted, however the protocol's fan-out goes, it delivers what
`FanOut` delivers; `DownstreamDelivery` says what is delivered when it is interrupted.

Things outside the program enter as parameters: map iteration orders, dial and write outcomes,
message ids and times, JSON, compression and protobuf encoding, RSA decryption. A goroutine that
could be delayed is never assumed to make progress.

## What the code does, where its intent may differ

- `RoomManager.clientIn` gives up a membership in the room being entered, not in the old one
  (`room.go:24`). A session therefore stays listed in rooms it entered earlier, until another
  session of its id enters them, and can stay listed after it is over; `DownstreamRooms` says
  exactly when.
- The pump checks for emptiness and calls `Wait` in two critical sections (`client.go:177-191`), so
  it can sleep on a non-empty queue; `DownstreamPump.PumpSafety` says exactly when. The quit signal
  can be lost in the same window, and then the pump waits for good.
- A room's member map is fetched under one lock and listed under another (`subscribe.go:170-192`). If
  the room has been removed in between, the map is empty and nobody is listed, even if a new room of
  that name exists by then; `DownstreamListing` says exactly when, and that it can happen.
- A retry after an error sends the whole message again (`plainrpc.go:142-159`). A write can fail after
  all its bytes went out, so a message can be received more than once, also one that was given up;
  `PlainRpc.ReceivedExactly` says exactly what is received.
- The methods of `rpc` have value receivers. The counter never advances, so the address is always
  the one at index 1 modulo the number of addresses, and the sender's lock does not exclude
  discovery; the model lets discovery interfere at every point. What is copied includes the lock: a
  delivery that begins while discovery holds it waits for a copy that nobody releases, and nothing
  is ever sent again (`PlainRpc.DeliveryBlocksIff`, `UpstreamWire.ConsumerStallsIff`).
- The load shedder's comparator puts higher importance first, so important messages are shed
  first. Its only call is commented out (`subscribe.go:40`); it is modelled as a component. Levels
  are whatever clients send: where their difference overflows, the higher level is shed first
  (`PurgeSpec.OverflowInverts`). How much is shed does not depend on it.
- An odd-length token text is read one byte past its end. Whether that panics depends on the spare
  capacity of the allocated slice, which is a parameter here; the byte read is then zero.

## Model

| member | source | states |
|---|---|---|
| DownstreamOrder.GlobalOrder | src/server/connector/internal/service/connectsvc/subscribe.go:138-237 | in every reachable state of every interleaving a session's queue history is pushed = popped ++ queue, strictly increasing in publication order (so an order-preserving selection, each object at most once) and addressed to the session; what it output is an increasing selection of what was popped |
| DownstreamOrder.SameRelativeOrder | src/server/connector/internal/service/connectsvc/client.go:119-209 | two sessions that both output two messages output them in the same order |
| DownstreamOrder.OutputIsWhatSerialised | src/server/connector/internal/service/connectsvc/client.go:196-207 | in every run a session outputs exactly the popped messages that serialised successfully, in order; one that failed is skipped |
| DownstreamFanOut.UndisturbedFanOut | src/server/connector/internal/service/connectsvc/subscribe.go:138-237 | for every sequence of fan-out steps that brings the loop back to ready, with nothing else in between: the queue of each registered session has grown by exactly one object as the addressed user and one as a user of the addressed room or the world, and nothing else has changed |
| DownstreamFanOut.FanOutCompletes | src/server/connector/internal/service/connectsvc/subscribe.go:138-237 | from every state with the loop ready there is such a sequence |
| DownstreamDelivery.DeliveryIsExact | src/server/connector/internal/service/connectsvc/subscribe.go:161-237 | in every reachable state of every interleaving: an object has been looked up for exactly the users it is for, once each and in order, up to where the fan-out stands; a session has been given it if and only if it was found and is not just about to get it |
| DownstreamDelivery.FoundInTheRegistry | src/server/connector/internal/service/connectsvc/subscribe.go:217-237 | over every run, the sessions found for an object are exactly those registered under its users at the moments these were looked up, or, for the world, when it was made |
| DownstreamDelivery.WorldReachesEveryone | src/server/connector/internal/service/connectsvc/subscribe.go:217-226 | when the loop leaves the world, under any interference, every registered session has been given the object |
| DownstreamDelivery.ListingIsOfTheRoom | src/server/connector/internal/service/connectsvc/subscribe.go:170-192 | in every reachable state a fetched member map that is not gone is that of an existing room, and no object names a user twice |
| DownstreamListing.GoneIff | src/server/connector/internal/service/connectsvc/subscribe.go:170-192 | in every run, a fetched map is gone if and only if its room was out of the index in some state since the fetch |
| DownstreamListing.ListedAreMembers | src/server/connector/internal/service/connectsvc/subscribe.go:176-192 | in every run, the users of a room's object were, when it was listed, exactly the room's members, owner first; or nobody, if the map was gone |
| DownstreamListing.NobodyListedIsReachable | src/server/connector/internal/service/connectsvc/subscribe.go:167-192 | a run in which a message to a room reaches nobody, although its one member is registered and a member before and after: it entered the room again in between |
| DownstreamRegistry.Takeover | src/server/connector/internal/service/connectsvc/client.go:231-262 | in every reachable state, endings delayed at will, a session is registered under its id if and only if it is the last admitted with that id and has not itself run removeClient; keys are the sessions' own ids; every displaced session has been stopped |
| DownstreamRegistry.AdmissionTakesOver | src/server/connector/internal/service/connectsvc/client.go:231-262 | whoever holds the id, an admission makes a fresh session, registers it in that one's place, stops that one, raises LoginUsers by one and changes nothing else |
| DownstreamRegistry.DisplacedEndingIsHarmless | src/server/connector/internal/service/connectsvc/client.go:350-356 | any step of a displaced session's ending leaves the registry as it is |
| DownstreamRegistry.LoginAccounting | src/server/connector/internal/service/connectsvc/client.go:45-106 | LoginUsers is sessions created minus sessions that decremented it, as an int32, and below 2^31 logins it is at least the number of registered sessions |
| DownstreamRooms.ExactMembership | src/server/connector/internal/service/connectsvc/room.go:20-58 | in every interleaving at lock granularity rooms[r][id] is c exactly when c was the last session of that id to enter r and has since neither begun to re-enter r nor disconnected with r current; no room is empty or unnamed; the current room is the one entered last |
| DownstreamRooms.AtomicMembership | src/server/connector/internal/service/connectsvc/room.go:20-41 | when the two halves of an entry are adjacent, membership is decided by entries and disconnects alone |
| DownstreamRooms.EnteringLeavesNoOtherRoom | src/server/connector/internal/service/connectsvc/room.go:24-38 | entering a room changes membership of no other room: the session stays listed in its old room |
| DownstreamRooms.StaleMembership | src/server/connector/internal/service/connectsvc/client.go:78-106 | a whole ending takes exactly the session's own entry in its current room out of the index: afterwards it is over and listed in a room if and only if it was listed there and that room was not its current one |
| DownstreamRooms.StaleMembershipIsReachable | src/server/connector/internal/service/connectsvc/room.go:20-58 | the run in which a newcomer enters room a, then room b, is stopped and ends: its log has these entries and one disconnection from b and nothing else, and the ended session is listed in a and not in b |
| DownstreamRooms.StaleForGood | src/server/connector/internal/service/connectsvc/room.go:20-58 | in every continuation, its own ending included, a session listed in a room other than its current one stays listed there until that room is entered again, by it or under its id |
| DownstreamPump.PumpSafety | src/server/connector/internal/service/connectsvc/client.go:139-195 | a waiting pump's queue is exactly what was pushed between its last empty check and its Wait, hence non-empty if and only if a push fell into that window |
| DownstreamPump.WakeUpDrains | src/server/connector/internal/service/connectsvc/client.go:119-131 | after a broadcast finds the pump waiting, everything then queued is popped before the pump is next about to wait, in every continuation |
| DownstreamPump.UndisturbedPumpDrains | src/server/connector/internal/service/connectsvc/client.go:139-207 | a running pump left alone empties its queue in a number of steps given by its length, outputs it in order if serialisation succeeds, and only then goes to sleep |
| DownstreamPump.StrandedMessageIsReachable | src/server/connector/internal/service/connectsvc/client.go:176-195 | a live, registered session can be asleep with a message in its queue and nothing pending |
| DownstreamPump.LostQuitSignalIsReachable | src/server/connector/internal/service/connectsvc/client.go:95-105 | the quit signal can be lost: a run ends with a session that is over and unregistered and whose pump waits in every continuation |
| DownstreamPump.AsleepForGood | src/server/connector/internal/service/connectsvc/client.go:95-105 | in every reachable state, a pump that waits when its session's ending is complete and no push to it is under way waits in every continuation |
| DownstreamPump.QuitStopsWaitingPump | src/server/connector/internal/service/connectsvc/client.go:101-105 | if the broadcast of ending finds the pump waiting, nothing is popped or output any more in any continuation, whatever is still pushed |
| DownstreamPump.QuitIsNoticedIff | src/server/connector/internal/service/connectsvc/client.go:139-195 | left alone once quit is set, the pump exits if and only if it was not already past its check of quit on the way to Wait |
| SessionIndex.EnterMembers | src/server/connector/internal/service/connectsvc/room.go:29-38 | entering makes c the holder of (room, id) and changes no other holder |
| SessionIndex.LeaveMembers | src/server/connector/internal/service/connectsvc/room.go:48-58 | leaving removes exactly c's own entry and keeps the index free of empty rooms |
| Sessions.Client.constructor | src/server/connector/internal/service/connectsvc/client.go:45-65 | a new session is empty, open and counted as a login |
| Sessions.Client.Ending | src/server/connector/internal/service/connectsvc/client.go:78-106 | ending gives up the current room, the registration if still its own, and the login, and sets the quit flag |
| Sessions.ClientManager.ClientIn | src/server/connector/internal/service/connectsvc/client.go:231-262 | a refused token changes nothing; otherwise a fresh session takes the id over, the previous holder is stopped, and no other entry changes |
| Sessions.RoomManager.ClientIn | src/server/connector/internal/service/connectsvc/room.go:20-46 | the empty room id is refused; otherwise c becomes the member under its id and no other membership changes, including c's in other rooms |
| Sessions.RoomManager.Ending | src/server/connector/internal/service/connectsvc/room.go:48-58 | only the session's own membership is deleted, and a room left empty with it |
| FanOut.Service.DeliverToSingleClient | src/server/connector/internal/service/connectsvc/subscribe.go:228-237 | the registered session of that user, and nobody else, gets the object |
| FanOut.Service.DeliverToUser | src/server/connector/internal/service/connectsvc/subscribe.go:161-165 | one freshly converted object goes to that user |
| FanOut.Service.UserIds | src/server/connector/internal/service/connectsvc/subscribe.go:176-192 | the members' ids are listed once each, the owner first when present, for every map iteration order |
| FanOut.Service.DeliverToRoom | src/server/connector/internal/service/connectsvc/subscribe.go:167-215 | one freshly converted object goes to the registered sessions of the room's member ids |
| FanOut.Service.DeliverToWorld | src/server/connector/internal/service/connectsvc/subscribe.go:217-226 | one freshly converted object goes to every registered session |
| FanOut.Service.HandleSubscription | src/server/connector/internal/service/connectsvc/subscribe.go:138-159 | each registered session's queue grows by exactly the user delivery and the room or world delivery addressed to it, in that order, as two different objects |
| Pconnector.ToClientMessage.Convert | src/server/connector/internal/service/connectsvc/subscribe.go:265-279 | all fields are carried over and the importance is the default |
| PurgeSpec.CompareIsExact | src/server/connector/internal/service/connectsvc/subscribe.go:76-91 | on 64-bit integers the comparator is a three-way answer of the shedding order if and only if neither difference overflows harmfully |
| PurgeSpec.CompareSheds | src/server/connector/internal/service/connectsvc/subscribe.go:76-91 | without overflow a message comes before any of lower importance, and among equals before those of higher levels |
| PurgeSpec.OverflowInverts | src/server/connector/internal/service/connectsvc/subscribe.go:86-90 | between levels whose difference overflows the comparator puts the higher one first |
| PurgeSpec.LeavesSuffixes | src/server/connector/internal/service/connectsvc/subscribe.go:111-124 | shedding leaves every queue a suffix of itself, shorter by the number of its drops |
| PurgeSpec.DropsTotal | src/server/connector/internal/service/connectsvc/subscribe.go:111-128 | every drop removes exactly one message |
| PurgeSpec.Cutoff | src/server/connector/internal/service/connectsvc/subscribe.go:86-90 | with equal importances a client loses a message only if every client of a lower level ends empty |
| Purge.PurgeHeap.Push | src/server/connector/internal/service/connectsvc/subscribe.go:102-106 | the heap gains exactly the session, and stays ordered by the heads of the queues as long as no two of the keys overflow |
| Purge.PurgeHeap.Pop | src/server/connector/internal/service/connectsvc/subscribe.go:112-115 | the heap yields a session exactly when it has one, one whose head comes first as long as no two of the keys overflow |
| Purge.Fill | src/server/connector/internal/service/connectsvc/subscribe.go:92-106 | the heap holds exactly the sessions with a message |
| Purge.ShedOne | src/server/connector/internal/service/connectsvc/subscribe.go:111-128 | one round drops the head of a session that has one, the one to be shed from next as long as no two keys overflow, and keeps the heap in step although the keys are mutable |
| Purge.Stat | src/server/connector/internal/service/connectsvc/subscribe.go:250-263 | the int32 sum of all queue lengths |
| MapOrders.TotalInAnyOrder | src/server/connector/internal/service/connectsvc/subscribe.go:250-263 | the total is the same for every iteration order |
| Purge.Shed | src/server/connector/internal/service/connectsvc/subscribe.go:94-134 | for all levels, min(max(0, outQueue - 10000), total) messages are dropped, from the fronts of queues; greedily if no two keys overflow |
| Purge.PurgeAll | src/server/connector/internal/service/connectsvc/subscribe.go:60-136 | undisturbed purge, counting and filling the heap each in an order of its own, sheds down to the limit of 10000 for all levels; if no two keys overflow greedily, and by level for default importances |
| RoomQueues.MessageQueue.Add | src/server/connector/internal/service/connectsvc/tocompute.go:76-88 | append, then drop the oldest down to the maximum size |
| RoomQueues.MessageQueue.DrainTo | src/server/connector/internal/service/connectsvc/tocompute.go:90-116 | the longest prefix that fits moves to the batch, and the rest is reported |
| RoomQueues.MessageQueueGroup.Add | src/server/connector/internal/service/connectsvc/tocompute.go:21-53 | only the message's own room changes, and a room's queue object is never replaced |
| RoomQueues.MessageQueueGroup.DrainTo | src/server/connector/internal/service/connectsvc/tocompute.go:55-68 | for every iteration order the group drains as the sequence of its rooms' drains |
| RoomQueues.DrainIsWorkConserving | src/server/connector/internal/service/connectsvc/tocompute.go:55-68 | for every iteration order the batch is min(maxLength, total) long, the rest is exactly what remains, and a short batch leaves all queues empty |
| RoomQueues.DrainTakesPrefix | src/server/connector/internal/service/connectsvc/tocompute.go:90-116 | each room keeps a suffix of its queue |
| RoomQueues.DrainGathers | src/server/connector/internal/service/connectsvc/tocompute.go:55-68 | the batch is made of the rooms' prefixes, room by room |
| Upstream.RacingAddsAgree | src/server/connector/internal/service/connectsvc/tocompute.go:21-53 | however first adds race, a room's queue once set is never replaced, no queue is orphaned, and the queue a handler has chosen is its room's |
| Upstream.EveryChatHasAHandler | src/server/connector/internal/service/connectsvc/connectsvc.go:150-200 | in every run each chat that has come in has its handler, in order |
| Upstream.EveryChatIsAdded | src/server/connector/internal/service/connectsvc/tocompute.go:21-53 | in every run each message was added to its room exactly as often as handlers are done with it: no handler ends without having added its chat |
| Upstream.HandlerAdds | src/server/connector/internal/service/connectsvc/tocompute.go:21-53 | a handler left alone, while the rooms are not being drained, gets its chat to the end of its room's queue, the oldest beyond 100 dropped, and touches no other room |
| Upstream.BatchesAreCapped | src/server/connector/internal/service/connectsvc/connectsvc.go:214-237 | in every reachable state no batch holds more than 10000 messages, and none that was sent or lost was empty |
| Upstream.TickDrainsAll | src/server/connector/internal/service/connectsvc/tocompute.go:55-68 | a tick with nothing between its steps, draining all rooms in any order, is the group drain in some order of all rooms: min(10000, total) messages go to delivery, if there are any |
| UpstreamRooms.RoomHistory | src/server/connector/internal/service/connectsvc/connectsvc.go:214-237 | over any run with any failures, per room: sent, lost, in flight and queued are selections by position of what was added, the queue is a contiguous suffix of at most 100, and added = sent + lost + discarded + in flight + queued as multisets |
| UpstreamRooms.BatchesFollowEachOther | src/server/connector/internal/service/connectsvc/connectsvc.go:219-237 | within a room the messages of every batch, delivered or given up, come after those of all batches before it |
| UpstreamRooms.OnlyTheOldAreDiscarded | src/server/connector/internal/service/connectsvc/tocompute.go:76-88 | a discarded message has been followed by at least 100 newer ones of its room |
| UpstreamRooms.FatesAreFinal | src/server/connector/internal/service/connectsvc/tocompute.go:76-116 | from any state satisfying the invariant of all reachable states: what has been discarded, sent or lost stays so in every continuation, and what was added keeps its position |
| Frames.ParseStream | src/server/connector/internal/service/connectsvc/plainrpc.go:198-214 | the receiver of whole frames recovers exactly the payloads |
| Frames.FrameSurvivesIffItFits | src/server/connector/internal/service/connectsvc/plainrpc.go:199-205 | a frame comes back as its payload if and only if the length fits 32 bits |
| Frames.HeaderIsBigEndian | src/server/connector/internal/service/connectsvc/plainrpc.go:199-205 | the most significant byte of the length comes first |
| Frames.CutFrameIsNoMessage | src/server/connector/internal/service/connectsvc/plainrpc.go:206-221 | a frame cut anywhere before its end yields no message |
| PlainRpc.FramesSurvive | src/server/connector/internal/service/connectsvc/plainrpc.go:161-224 | in every run, under partial writes, failed dials and concurrent closes, the bytes on a connection are exactly the frames acknowledged on it and at most one piece, the beginning of the frame of one payload whose delivery was begun; a connection in the map has none but a header just written |
| PlainRpc.ReceivedOnConnection | src/server/connector/internal/service/connectsvc/plainrpc.go:198-221 | the receiver of a connection parses exactly the acknowledged payloads, and that of the piece if and only if all of its frame went out |
| PlainRpc.ReceivedExactly | src/server/connector/internal/service/connectsvc/plainrpc.go:142-224 | in every run all receivers together get each acknowledged payload once, and beyond that exactly the payloads whose frame is out without an acknowledgement: after a write that failed, or, when a payload is empty, before its own write |
| PlainRpc.ReceivedAgain | src/server/connector/internal/service/connectsvc/plainrpc.go:142-221 | at-most-once fails: the run in which k attempts fail like that and the next succeeds delivers the payload k + 1 times |
| PlainRpc.LostButReceived | src/server/connector/internal/service/connectsvc/plainrpc.go:142-221 | the run in which all n attempts fail like that returns false and delivers the payload n times |
| PlainRpc.RetryOutcome | src/server/connector/internal/service/connectsvc/plainrpc.go:142-159 | at most n failures; true means exactly one acknowledgement, on the connection the map holds for the address; false means none and no map entry for the address |
| PlainRpc.CachedConnectionIsReused | src/server/connector/internal/service/connectsvc/plainrpc.go:168-222 | a delivery to an address with an open connection, the address at index 1 modulo their number, goes out on that connection: none is made, the map stays |
| PlainRpc.MissingConnectionIsDialled | src/server/connector/internal/service/connectsvc/plainrpc.go:174-196 | without one a connection is dialled and kept; if the dial fails so has the attempt |
| PlainRpc.OpenConnectionsAreInTheMap | src/server/connector/internal/service/connectsvc/plainrpc.go:174-221 | in every run every open connection is in the map, and every connection that a failed write broke off is closed |
| PlainRpc.DiscoveryClosesTheUnknown | src/server/connector/internal/service/connectsvc/plainrpc.go:82-95 | a pass of discovery closes exactly the connections that the map has for an unknown address, and keeps the map |
| PlainRpc.WriteLeavesAnyPrefix | src/server/connector/internal/service/connectsvc/plainrpc.go:214-221 | a failed write on an open connection may leave any part of the data |
| PlainRpc.DeliveryBlocksIff | src/server/connector/internal/service/connectsvc/plainrpc.go:82-164 | a delivery returns in no continuation if and only if it began, copying the lock, while discovery held it |
| PlainRpc.FailedWriteDeliversIffComplete | src/server/connector/internal/service/connectsvc/plainrpc.go:214-221 | a failed payload write has nevertheless delivered the message if and only if all its bytes went out |
| PlainRpc.RpcClient.Connect | src/server/connector/internal/service/connectsvc/plainrpc.go:174-196 | a cached connection is reused, otherwise one is dialled and cached, or the address dropped |
| PlainRpc.RpcClient.WriteOrDiscard | src/server/connector/internal/service/connectsvc/plainrpc.go:206-221 | an error closes the connection and drops its address |
| PlainRpc.RpcClient.Send | src/server/connector/internal/service/connectsvc/plainrpc.go:161-224 | one send is one attempt of the protocol |
| PlainRpc.RpcClient.TrySend | src/server/connector/internal/service/connectsvc/plainrpc.go:142-159 | the retry loop is the protocol's attempts up to the first success, and so leads from a reachable state to a reachable one |
| PlainRpc.RpcClient.Discover | src/server/connector/internal/service/connectsvc/plainrpc.go:82-95 | for every iteration order a pass of discovery is the protocol's: new addresses, unknown connections closed but kept in the map |
| UpstreamWire.ServerReceivesDeliveredBatches | src/server/connector/internal/service/connectsvc/plainrpc.go:106-224 | for every run a server reading a retained connection decodes exactly the delivered batches acknowledged on it, in order and once each, given that decoding inverts encoding |
| UpstreamWire.ServersReceive | src/server/connector/internal/service/connectsvc/connectsvc.go:219-237 | for every run, all servers together receive each delivered batch once, and beyond that only completed writes of batches whose delivery was begun |
| UpstreamWire.GivenUpAfterThree | src/server/connector/internal/service/connectsvc/plainrpc.go:120-159 | in every run a delivery has three attempts, and a batch is given up after three failures, or at once without any address |
| UpstreamWire.ConsumerStallsIff | src/server/connector/internal/service/connectsvc/connectsvc.go:219-237 | when a batch goes to delivery the consumer hangs in every continuation, and no batch is ever done again, if and only if discovery holds its lock |
| Connectsvc.HandleEnterRoom | src/server/connector/internal/service/connectsvc/connectsvc.go:136-148 | the session's level is set and it becomes the member of a named room under its id; no other membership changes |
| Connectsvc.HandleMsg | src/server/connector/internal/service/connectsvc/connectsvc.go:150-200 | a chat is queued, last, for the room its sender is in afterwards, which is the named room if there is one |
| Connectsvc.Consume | src/server/connector/internal/service/connectsvc/connectsvc.go:214-237 | one tick drains all rooms and delivers the batch; an empty batch or an empty address list sends nothing, the latter losing the batch |
| SerializedCache.CachedAgreesWithDirect | src/protodef/pconnector/pconnector.go:132-155 | for any number of concurrent calls the cache is written at most once, and every call that has returned has returned the directly serialised message unless its own serialisation failed |
| SerializedCache.FailsIffOwnFailure | src/protodef/pconnector/pconnector.go:132-155 | a call fails if and only if it made a serialisation of its own, and that failed |
| SerializedCache.LateCallsSucceed | src/protodef/pconnector/pconnector.go:132-155 | a call that enters once the cache is filled never fails, nor takes the write lock |
| SerializedCache.CallAloneReturns | src/protodef/pconnector/pconnector.go:132-155 | a call that nobody hinders returns the cached bytes, or serialises, fills the cache and returns the bytes, or fails |
| Pconnector.ToClientMessage.Marshal | src/protodef/pconnector/pconnector.go:132-155 | the cached bytes, or a byte 1 and the compressed JSON, newly made and cached; an error caches nothing |
| Token.FromHexInvertsToHex | src/server/connector/internal/service/connectsvc/token.go:67-79 | decoding inverts the upper-case Base16 encoder on all byte strings |
| Token.ToHexInvertsFromHexIff | src/server/connector/internal/service/connectsvc/token.go:67-79 | encoding inverts decoding if and only if the text is upper-case hex of even length |
| Token.DigitsOfBase16 | src/server/connector/internal/service/connectsvc/token.go:77-79 | the digits are those of 0123456789ABCDEF, and no other byte is one |
| Token.FromHexAt | src/server/connector/internal/service/connectsvc/token.go:67-79 | each byte, also from bad digits and from an odd tail, is the low eight bits of sixteen times the first digit's index plus the second's |
| Token.HexToBytes | src/server/connector/internal/service/connectsvc/token.go:67-75 | the loop decodes, and panics exactly on odd-length text without spare capacity |
| Token.BlocksPartition | src/server/connector/internal/service/connectsvc/token.go:81-100 | splitting loses nothing, and all blocks are full except a last one of the remaining size |
| Token.SplitBytes | src/server/connector/internal/service/connectsvc/token.go:81-100 | the loop splits into these blocks, and panics exactly on length zero |
| Token.Decrypt | src/server/connector/internal/service/connectsvc/token.go:39-57 | the plaintexts are joined; the token fails if and only if its text panics, the block length is zero, or any block fails |
| Token.DecryptFailsIff | src/server/connector/internal/service/connectsvc/token.go:46-55 | the blocks fail together if and only if one of them fails, wherever it stands |
| Token.DecryptJoins | src/server/connector/internal/service/connectsvc/token.go:46-55 | if none fails the result is their plaintexts in order |
| Token.TokenRoundTrip | src/server/connector/internal/service/connectsvc/token.go:39-57 | a token built from encrypted blocks of the key's length decodes to the joined plaintext |

## Left out

- TCP, Redis, HTTP, the bdmsg library, logging, configuration and start-up. A connection's output is a log that grows, stopping it sets a flag, and a write may fail after any prefix.
- zlib, JSON, protobuf and RSA: functions, with the inverse assumptions written in the theorems that need them.
- The binary heap library is not in the repository; `Purge.PurgeHeap` is a sift-up and sift-down heap in its place.
- Session expiry and token refresh: they only stop sessions, which `Downstream` allows at any time.
- The heartbeat sweep (`heartbeat.go`): likewise only a source of stops.
- Levels changed by a handler during a purge: `c.level` is written without the lock that purge holds, so a heap could be reordered under it; levels are fixed here while `Purge.Shed` works.
- Data races on `c.q`, `c.roomId` and the connection map beyond their interleaving: reads and writes are taken as atomic.
- Address rotation, statistics of traffic, naming and discovery of servers beyond their effect on connections and addresses.
- Migration of deprecated router fields, which only runs after a failed unmarshalling.
- Client.ServerHello: in the class only an append; the broadcast is part of `Downstream.ServerHello` only, because the class has no goroutines to wake.
- Consume: the sending is without interference from discovery; the interference is in `Upstream` and `PlainRpc`.
- HandleMsg: the message id is a parameter instead of the formatted counter, and only chat messages arrive, as in the handler table.
