# NearLink core, modelled in Dafny

NearLink is an Android app for an offline Bluetooth mesh. Phones exchange chat messages and location updates, and each phone relays what it receives to the devices nearby. This project models the part of the app that keeps the books and proves what that bookkeeping guarantees. The model is split into seven modules:

- `Common` (`common.dfy`): the shared values. These are `Option`, bytes, a location fix (latitude, longitude, optional accuracy and speed, time) and a discovered device (address, name, last seen).
- `Messages` (`messages.dfy`): `Message` and its `LocationMessage` subtype. They are one class whose `kind` tells the two apart. The hop count is the only mutable field, and relaying stops at 10 hops. The hop count is an `int`, as in Java: a message read from a peer may carry a negative count, which the relay guard lets through like any count below 10.
- `Cache` (`cache.dfy`): `LocationCache`, the last position of every user. Each read drops entries older than five minutes.
- `Link` (`link.dfy`): `BluetoothCommunicationService`, the point-to-point link.
  - It is a four-state machine (NONE, LISTEN, CONNECTING, CONNECTED) with three worker slots (accept, connect, connected).
  - Workers are numbered. Cancelling one records its number.
  - Everything the link reports to its handler goes into an event list.
  - Inbound bytes are reassembled with an abstract decoder whose outcomes are decoded, incomplete or corrupt.
- `Mesh` (`mesh.dfy`): `MeshNode`, the relay engine.
  - It validates messages, deduplicates them by id, and queues them (at most 1000).
  - It floods each message once per (message id, device address) key and feeds location messages into the cache.
  - A periodic cleanup expires ids, then evicts the oldest until at most 10000 remain.
- `Discovery` (`discovery.dfy`): the discovery scheduler of `BluetoothService`.
  - It starts and stops discovery, filters peers by the `NearLink_` name prefix and rate-limits connection attempts per address.
  - It expires peer and attempt records.
  - It retries with a linear backoff that resets after three attempts.
  - Delayed handler work is a list of `Delayed(delay, task)` records, which the environment runs through `RunTask`.
- `Tracker` (`tracker.dfy`): the smoother of `LocationTracker`.
  - It validates fixes and keeps a sliding window of the last five valid ones.
  - It averages the window into one fix over the reals and classifies its accuracy.
  - It hands the result to the mesh node.

Every class whose Java counterpart updates fields in place is a Dafny `class`: its methods modify fields, with loops and invariants where the Java loops. The clock is a `now` parameter. The following are inputs of the event methods that need them:

- the UUID of a new message;
- whether a permission is granted;
- whether the adapter is enabled and whether the radio started;
- power-save mode;
- the outcome of Java serialization and deserialization.

Code that threads run later becomes event methods, one per turn of their loops:

| Event method | What it stands for |
|---|---|
| `MeshNode.ProcessNext` | one turn of the message processor |
| `MeshNode.CacheCleanupTick` | one run of the periodic cleanup |
| `OnInboundSocket` | one accepted socket in the accept loop |
| `OnConnectAttemptFinished` | the end of a connect worker |
| `HandleReadMessage` | one read of a connected worker |

## Model

| member | source | states |
|---|---|---|
| Messages.HopsAfterBound | app/src/main/java/com/example/nearlink/Message.java:25-31 | n passes of the relay engine, each incrementing only while `canBeRelayed` holds, leave a count h at min(h + n, 10), and a count already at 10 or more where it is |
| Messages.FreshMessageHops | app/src/main/java/com/example/nearlink/Message.java:22-31 | a fresh message (hop count 0) gains exactly min(n, 10) hops in n passes, never more than 10, and after 10 passes no further pass changes it |
| Messages.Message.constructor | app/src/main/java/com/example/nearlink/Message.java:16-23 | every field is the value handed in (id and timestamp being the UUID and clock inputs), the hop count is 0 and the message is a plain one |
| Messages.Message.ForLocation | app/src/main/java/com/example/nearlink/LocationMessage.java:10-15 | content is "LOCATION_UPDATE", the sender is the user, the sender location is the location, the update time and timestamp are the construction time, and the hop count is 0 |
| Messages.Message.CanBeRelayed | app/src/main/java/com/example/nearlink/Message.java:25-27 | a message may be relayed while its hop count is below 10 |
| Messages.Message.IncrementHopCount | app/src/main/java/com/example/nearlink/Message.java:29-31 | the hop count rises by exactly one; the other fields are constants and cannot change |
| Messages.Message.GetLocation | app/src/main/java/com/example/nearlink/LocationMessage.java:17-19 | the location returned is the one stored as the inherited sender location |
| Messages.Message.GetUserId | app/src/main/java/com/example/nearlink/LocationMessage.java:21-23 | the user id returned is the sender id |
| Cache.Purge | app/src/main/java/com/example/nearlink/LocationCache.java:24-26 | an entry survives a read exactly when it is at most 300000 ms old, and survivors are unchanged |
| Cache.Locations | app/src/main/java/com/example/nearlink/LocationCache.java:28-30 | the view returned has the surviving users as keys, each mapped to its stored location |
| Cache.PurgeIdempotent | app/src/main/java/com/example/nearlink/LocationCache.java:20-33 | two reads at the same instant return equal maps and the second removes nothing |
| Cache.PurgeBoundary | app/src/main/java/com/example/nearlink/LocationCache.java:24-26 | after a read no stored entry is older than 300000 ms, and one exactly 300000 ms old is kept (strict comparison) |
| Cache.UpdateThenRead | app/src/main/java/com/example/nearlink/LocationCache.java:16-33 | a location written at t is returned for its user by every read at or before t + 300000, and whether other users survive is unaffected |
| Cache.LocationCache.constructor | app/src/main/java/com/example/nearlink/LocationCache.java:12-14 | the cache starts empty |
| Cache.LocationCache.UpdateLocation | app/src/main/java/com/example/nearlink/LocationCache.java:16-18 | the user's entry is overwritten unconditionally; every other entry is unchanged |
| Cache.LocationCache.GetActiveUserLocations | app/src/main/java/com/example/nearlink/LocationCache.java:20-33 | the stored map becomes its purge at `now`, so no expired entry remains, and the result is exactly the survivors' locations |
| Link.FeedLosesNothing | app/src/main/java/com/example/nearlink/BluetoothCommunicationService.java:439-465 | no byte is lost outside the reset branch: over any run of reads that never takes it, the frames delivered followed by the bytes still buffered are the initial buffer followed by every byte read; a delivered frame is the whole buffer, of which the source uses only the first object |
| Link.IncompleteKeepsEverything | app/src/main/java/com/example/nearlink/BluetoothCommunicationService.java:439-465 | while every decode reports incomplete, nothing is delivered and every byte read stays buffered |
| Link.BluetoothCommunicationService.constructor | app/src/main/java/com/example/nearlink/BluetoothCommunicationService.java:45-50 | the link starts in NONE with no worker, an empty buffer and nothing reported |
| Link.BluetoothCommunicationService.GetState | app/src/main/java/com/example/nearlink/BluetoothCommunicationService.java:58-60 | the current state of the link |
| Link.BluetoothCommunicationService.SetState | app/src/main/java/com/example/nearlink/BluetoothCommunicationService.java:52-56 | the state is recorded and exactly one state-change report is sent to the handler |
| Link.BluetoothCommunicationService.Start | app/src/main/java/com/example/nearlink/BluetoothCommunicationService.java:62-84 | the connect and connected workers are closed, the state is LISTEN, and a listening worker is created only when none exists |
| Link.BluetoothCommunicationService.Connect | app/src/main/java/com/example/nearlink/BluetoothCommunicationService.java:86-115 | the old connect worker is closed only when the state was CONNECTING, any connected worker is always closed, a new connect worker dials the device, the listening worker is kept, and the state is CONNECTING |
| Link.BluetoothCommunicationService.Connected | app/src/main/java/com/example/nearlink/BluetoothCommunicationService.java:117-164 | every worker held before is closed, exactly one new connected worker is held (the next worker number, which is then advanced) with an empty buffer, the peer's name (or "Unknown Device") is reported, then CONNECTED; the dialed addresses are kept |
| Link.BluetoothCommunicationService.Stop | app/src/main/java/com/example/nearlink/BluetoothCommunicationService.java:166-185 | all three workers are closed and no slot is held, and the state is NONE |
| Link.BluetoothCommunicationService.Write | app/src/main/java/com/example/nearlink/BluetoothCommunicationService.java:187-194 | a write is reported exactly when the state is CONNECTED and is dropped otherwise |
| Link.BluetoothCommunicationService.ConnectionFailed | app/src/main/java/com/example/nearlink/BluetoothCommunicationService.java:196-204 | the state is LISTEN, the "unable to connect" toast is reported, and no worker is created or closed |
| Link.BluetoothCommunicationService.ConnectionLost | app/src/main/java/com/example/nearlink/BluetoothCommunicationService.java:206-214 | the state is LISTEN, the "connection lost" toast is reported, and no listening worker is created again |
| Link.BluetoothCommunicationService.OnInboundSocket | app/src/main/java/com/example/nearlink/BluetoothCommunicationService.java:243-277 | with a listening worker, an inbound socket becomes the link in LISTEN or CONNECTING exactly as `Connected` states (all workers closed, one new connected worker, empty buffer, name then CONNECTED reported, dialed addresses kept) and is closed without any change in NONE or CONNECTED; without one nothing changes |
| Link.BluetoothCommunicationService.OnConnectAttemptFinished | app/src/main/java/com/example/nearlink/BluetoothCommunicationService.java:314-374 | a cancelled or failed attempt reports connectionFailed (LISTEN, then the toast) and leaves every slot, the worker counter, the closed workers, the dialed addresses and the buffer as they were; a successful one clears the connect slot and connects as `Connected` states, closing the listening and connected workers |
| Link.BluetoothCommunicationService.HandleReadMessage | app/src/main/java/com/example/nearlink/BluetoothCommunicationService.java:439-465 | the bytes are appended; a decoded buffer is delivered once and emptied; on the keep branch (`StreamCorruptedException`) the buffer is kept whole, on the reset branch (any other exception) it is emptied; the state, each of the three worker slots, the worker counter, the closed workers and the dialed addresses do not change |
| Mesh.IsValidMessage | app/src/main/java/com/example/nearlink/MeshNode.java:263-269 | content present and at most 10240 characters, a non-empty sender, and a timestamp at most 30000 ms before now |
| Mesh.FreshStamps | app/src/main/java/com/example/nearlink/MeshNode.java:274-285 | the timestamps kept by a cleanup are exactly those at most 30000 ms old, unchanged |
| Mesh.PurgeDevices | app/src/main/java/com/example/nearlink/MeshNode.java:296-301 | a device survives exactly when it was seen within the window, and survivors are unchanged |
| Mesh.RelayKeysCount | app/src/main/java/com/example/nearlink/MeshNode.java:96-101 | distinct peers give distinct dedup keys: one key per peer |
| Mesh.RelayOncePerPeer | app/src/main/java/com/example/nearlink/MeshNode.java:96-101 | once a message's keys for a set of peers are recorded, relaying it to those peers again writes to none of them |
| Mesh.UnstampedSurviveExpiry | app/src/main/java/com/example/nearlink/MeshNode.java:271-316 | a key of `processedMessages` with no timestamp is never expired and is out of reach of `findOldestMessage` |
| Mesh.RelayKeysPinEviction | app/src/main/java/com/example/nearlink/MeshNode.java:96-101 | as written, each relay adds one key without a timestamp per new peer, and once more than 10000 such keys exist, more than 10000 keys stay beyond `findOldestMessage` after any expiry, so the eviction loop cannot get under its ceiling |
| Mesh.CorrectedRelayStamps | app/src/main/java/com/example/nearlink/MeshNode.java:96-101 | a relay that stamps its keys with the relay time leaves every processed key stamped |
| Mesh.BroadcastStamps | app/src/main/java/com/example/nearlink/MeshNode.java:154-157 | a broadcast stamps the id it records, so every key stays stamped |
| Mesh.ExpiryKeepsStamps | app/src/main/java/com/example/nearlink/MeshNode.java:274-285 | expiry of a fully stamped map leaves it fully stamped, with every surviving key in reach of `findOldestMessage` |
| Mesh.CorrectedRelayKeepsEvictionTerminating | app/src/main/java/com/example/nearlink/MeshNode.java:287-293 | with relay keys stamped, every key stays stamped through broadcasts, relays and expiry, so after expiry no key is beyond `findOldestMessage` and the eviction loop always ends |
| Mesh.EvictLoopEnd | app/src/main/java/com/example/nearlink/MeshNode.java:287-293 | when the eviction loop stops or gets stuck, oldest stamped ids have been removed from both maps, and the loop ended exactly when the unreachable ids number at most 10000, leaving min(size, 10000) entries |
| Mesh.MeshNode.constructor | app/src/main/java/com/example/nearlink/MeshNode.java:54-69 | a node starts running with an empty queue, empty maps, no listener, an empty cache and a link in NONE |
| Mesh.MeshNode.Broadcast | app/src/main/java/com/example/nearlink/MeshNode.java:141-171 | accepted exactly when valid, not yet processed and the queue has room; then it is queued, its id recorded and stamped now, the count raised, and the listener called for a non-location message; otherwise nothing changes |
| Mesh.BroadcastTwice | app/src/main/java/com/example/nearlink/MeshNode.java:148-155 | broadcasting the same message twice is accepted at most once |
| Mesh.MeshNode.SetMessageListener | app/src/main/java/com/example/nearlink/MeshNode.java:124-126 | the listener slot is set or cleared and every other field of the node, including the cleanup state, is unchanged |
| Mesh.MeshNode.RelayMessageToNearbyNodes | app/src/main/java/com/example/nearlink/MeshNode.java:86-108 | the message is recorded under each peer key not yet present, and one write is sent per such peer (dropped unless the link is CONNECTED); a serialization failure changes nothing |
| Mesh.MeshNode.RelayToPeer | app/src/main/java/com/example/nearlink/MeshNode.java:96-101 | a new key is recorded and the message written; a known key changes nothing |
| Mesh.MeshNode.ProcessMessage | app/src/main/java/com/example/nearlink/MeshNode.java:230-254 | the hop count is incremented and the message relayed only below the ceiling: then the new peer keys are recorded and written (nothing at all when serialization fails); at or above the ceiling neither the dedup map nor the link changes; a location message writes (user, location, update time) to the cache either way; no other node field and nothing of the link but its reports changes |
| Mesh.MeshNode.ProcessNext | app/src/main/java/com/example/nearlink/MeshNode.java:196-216 | while running, the queue head is removed and processed exactly as `ProcessMessage` states: hop step, relay keys and writes below the ceiling, cache write for a location message; the node keeps running and its listener, location, cleanup state and link workers are unchanged; with an empty queue or a stopped node nothing at all changes |
| Mesh.MeshNode.FindOldestMessage | app/src/main/java/com/example/nearlink/MeshNode.java:304-316 | null exactly when no timestamp is below Long.MAX_VALUE; otherwise a key of minimal timestamp |
| Mesh.MeshNode.ExpireEntries | app/src/main/java/com/example/nearlink/MeshNode.java:274-285 | ids more than 30000 ms old leave both maps, and devices unseen for 300000 ms leave the device map |
| Mesh.MeshNode.EvictOverflow | app/src/main/java/com/example/nearlink/MeshNode.java:287-293 | oldest-first eviction; `terminates` is false exactly when the loop would spin forever, and the resulting maps are described by the loop's end state |
| Mesh.MeshNode.EvictOldest | app/src/main/java/com/example/nearlink/MeshNode.java:287-293 | one eviction step: the id `findOldestMessage` names leaves both maps, or nothing changes when it finds none |
| Mesh.MeshNode.CleanupCache | app/src/main/java/com/example/nearlink/MeshNode.java:271-294 | expiry followed by eviction, with the eviction's end state and termination condition stated over the expired maps |
| Mesh.MeshNode.CacheCleanupTick | app/src/main/java/com/example/nearlink/MeshNode.java:218-228 | a due run of the periodic task on a running node expires and evicts as `CleanupCache` states, terminating exactly when at most 10000 ids are beyond `findOldestMessage`; a stopped node is untouched; once a run has spun, the single scheduler thread is stuck and no later run changes anything |
| Mesh.MeshNode.CleanupRun | app/src/main/java/com/example/nearlink/MeshNode.java:64 | a run that finds the scheduler thread free performs the whole cleanup, and leaves the thread stuck exactly when the cleanup spins |
| Mesh.MeshNode.HandleNewDevice | app/src/main/java/com/example/nearlink/MeshNode.java:186-189 | the device is recorded under its address, then devices unseen for 300000 ms are dropped; a fresh device is therefore present; every other field is unchanged |
| Mesh.MeshNode.GetNearbyDevices | app/src/main/java/com/example/nearlink/MeshNode.java:192-194 | the devices returned are exactly the recorded ones |
| Mesh.MeshNode.GetNearbyUserLocations | app/src/main/java/com/example/nearlink/MeshNode.java:174-176 | the result is the cache's purging read |
| Mesh.MeshNode.UpdateLocation | app/src/main/java/com/example/nearlink/MeshNode.java:133-139 | the current location is set, and a new location message from this node (hop count 0) is queued, recorded under its id and stamped now, and counted, exactly when the node id is non-empty, the id is new and the queue has room; otherwise the queue and bookkeeping are unchanged; the listener is never called |
| Mesh.MeshNode.StartBluetoothService | app/src/main/java/com/example/nearlink/MeshNode.java:111-115 | the node's own link listens: its connect and connected workers are closed, a listening worker is created only when none exists, and one LISTEN report is sent |
| Mesh.MeshNode.StopBluetoothService | app/src/main/java/com/example/nearlink/MeshNode.java:118-122 | the node's own link is stopped: every worker it held is closed, no slot is held, and one NONE report is sent |
| Mesh.MeshNode.Close | app/src/main/java/com/example/nearlink/MeshNode.java:319-334 | the node stops running and its link is stopped (every worker closed, NONE reported); the queue, maps, count, listener, location and cleanup state are untouched |
| Discovery.RetryDelayBounds | app/src/main/java/com/example/nearlink/BluetoothService.java:460-470 | a retry is scheduled exactly below the ceiling, after one base delay per attempt (1 to 3 s), and the counter never passes 3 |
| Discovery.RetryCountCycles | app/src/main/java/com/example/nearlink/BluetoothService.java:460-470 | after n failures the counter is (count + n) mod 4 |
| Discovery.RetryDelaysSplit | app/src/main/java/com/example/nearlink/BluetoothService.java:460-470 | a + b failures schedule what a failures do followed by what b more do from the counter they leave |
| Discovery.FirstRetryRound | app/src/main/java/com/example/nearlink/BluetoothService.java:460-470 | from a reset counter, four failures schedule 1000, 2000 and 3000 ms and then nothing, and reset the counter |
| Discovery.RetryDelaysPeriodic | app/src/main/java/com/example/nearlink/BluetoothService.java:460-470 | every four consecutive failures repeat the same delays |
| Discovery.AttemptAllowed | app/src/main/java/com/example/nearlink/BluetoothService.java:567-573 | an address may be dialed when it has no attempt record or its last attempt is more than 10000 ms old |
| Discovery.PurgeAttempts | app/src/main/java/com/example/nearlink/BluetoothService.java:427-437 | an attempt record survives exactly when it is at most 10000 ms old, unchanged |
| Discovery.PurgeKeepsRateLimit | app/src/main/java/com/example/nearlink/BluetoothService.java:567-573 | expiring attempt records never changes which addresses may be dialed at the same instant |
| Discovery.AttemptBlocksForTimeout | app/src/main/java/com/example/nearlink/BluetoothService.java:567-573 | an attempt blocks the same address for exactly 10000 ms and leaves every other address as it was |
| Discovery.IsAppDevice | app/src/main/java/com/example/nearlink/BluetoothService.java:290-293 | a device is processed only when it has a name starting with "NearLink_" |
| Discovery.SkipsDiscoverableRequest | app/src/main/java/com/example/nearlink/BluetoothService.java:185-188 | a discoverability request is skipped while discoverable and less than 290000 ms after the last request |
| Discovery.DiscoveryInterval | app/src/main/java/com/example/nearlink/BluetoothService.java:439-448 | 15000 ms between discoveries in power-save mode, 5000 ms otherwise |
| Discovery.AdvertisedNamePasses | app/src/main/java/com/example/nearlink/BluetoothService.java:290-293 | a name made of the "NearLink_" prefix and anything passes the filter; a missing name never does |
| Discovery.IntervalAndSkipBounds | app/src/main/java/com/example/nearlink/BluetoothService.java:439-448 | the power-save interval is longer than the normal one, and a discoverability request is skipped exactly when discoverable and within 290000 ms of the last |
| Discovery.StartEffect | app/src/main/java/com/example/nearlink/BluetoothService.java:209-248 | a start changes nothing unless the adapter is on, no discovery runs and permission is granted; it only appends posts; a started discovery records now and ends with the timeout post, keeping the counter; a radio failure applies the retry policy; discovering afterwards exactly when it ran before or everything allowed it |
| Discovery.BluetoothService.constructor | app/src/main/java/com/example/nearlink/BluetoothService.java:66-88 | empty records, not discovering, not discoverable, counter 0, and a link that was started (LISTEN) |
| Discovery.BluetoothService.HandleScanModeChanged | app/src/main/java/com/example/nearlink/BluetoothService.java:141-144 | discoverable exactly in the connectable-discoverable scan mode |
| Discovery.BluetoothService.CanAttemptConnection | app/src/main/java/com/example/nearlink/BluetoothService.java:567-573 | the rate limit of `AttemptAllowed` on the service's attempt records |
| Discovery.BluetoothService.CheckPrerequisites | app/src/main/java/com/example/nearlink/BluetoothService.java:482-486 | a discovery may start when the adapter is on and no discovery runs |
| Discovery.BluetoothService.DiscoveredDeviceCount | app/src/main/java/com/example/nearlink/BluetoothService.java:589-591 | the number of recorded peers |
| Discovery.BluetoothService.IsDeviceConnected | app/src/main/java/com/example/nearlink/BluetoothService.java:593-598 | whether the link is CONNECTED, whatever address is asked about |
| Discovery.BluetoothService.RetryDiscovery | app/src/main/java/com/example/nearlink/BluetoothService.java:460-470 | the counter steps as the retry policy says and exactly the policy's delayed start is posted |
| Discovery.BluetoothService.MakeDeviceDiscoverable | app/src/main/java/com/example/nearlink/BluetoothService.java:177-207 | with permission and unless the skip rule holds, the request time becomes now and the 300 s reset is posted; otherwise nothing changes |
| Discovery.BluetoothService.HandleDiscoveryFailure | app/src/main/java/com/example/nearlink/BluetoothService.java:388-394 | discovery is over and the retry policy runs |
| Discovery.BluetoothService.StartDiscovery | app/src/main/java/com/example/nearlink/BluetoothService.java:209-248 | starts exactly when the adapter is on, no discovery runs, permission is granted and the radio starts; refusals change nothing; discoverability is asked for when needed; a start records the time and posts the timeout, a radio failure retries |
| Discovery.BluetoothService.StopDiscovery | app/src/main/java/com/example/nearlink/BluetoothService.java:539-565 | no-op unless discovering; otherwise discovery is over, the counter reset and the link stopped |
| Discovery.BluetoothService.CleanupExpiredConnections | app/src/main/java/com/example/nearlink/BluetoothService.java:427-437 | peers unseen for 30000 ms and attempts older than 10000 ms are dropped, everything else kept, and the rate limit answers as before for every address |
| Discovery.BluetoothService.HandleDiscoveryFinished | app/src/main/java/com/example/nearlink/BluetoothService.java:372-386 | discovery is over; the retry runs exactly when a full interval has passed; the cleanup always runs |
| Discovery.BluetoothService.HandleDeviceFound | app/src/main/java/com/example/nearlink/BluetoothService.java:278-329 | peers without the prefix or already known are ignored; otherwise the peer is dialed as `Connect` states (connect worker cancelled only in CONNECTING, connected worker always closed, listening worker kept, buffer kept) and the attempt recorded only when the rate limit allows, and it is always recorded and handed to the mesh node as `HandleNewDevice` states, the node's other fields unchanged |
| Discovery.BluetoothService.ConnectAndWrite | app/src/main/java/com/example/nearlink/BluetoothService.java:331-344 | one peer of the send loop: the link dials it, and the write that follows is dropped because the link is CONNECTING |
| Discovery.BluetoothService.DialAll | app/src/main/java/com/example/nearlink/BluetoothService.java:331-344 | every peer is dialed exactly once: one CONNECTING report each, and exactly their addresses added to the dialed ones |
| Discovery.BluetoothService.SendMessage | app/src/main/java/com/example/nearlink/BluetoothService.java:331-344 | a message that fails to serialize or exceeds 1 MiB changes nothing; otherwise every discovered peer is dialed once |
| Discovery.BluetoothService.HandleReadMessage | app/src/main/java/com/example/nearlink/BluetoothService.java:353-357 | a decoded message is rebroadcast and accepted exactly when the mesh node accepts it; null changes nothing |
| Discovery.BluetoothService.OnLinkEvent | app/src/main/java/com/example/nearlink/BluetoothService.java:250-276 | a toast runs `retryConnection` (the retry policy on the shared counter), a read frame is rebroadcast, and every other report changes nothing |
| Discovery.BluetoothService.RunTask | app/src/main/java/com/example/nearlink/BluetoothService.java:450-458 | a posted start does exactly what `StartEffect` says `startDiscovery` does (posts, counter, times) and leaves the link alone; the discoverability reset clears the flag and nothing else; a timed-out discovery is stopped (link stopped) and retried, leaving the counter at 1 and posting a start after 1000 ms; a timeout after the discovery ended changes nothing |
| Discovery.BluetoothService.HandleBluetoothStateChanged | app/src/main/java/com/example/nearlink/BluetoothService.java:396-409 | an adapter turned on does what `StartEffect` says a start does (nothing if a discovery runs) and leaves the link alone; turning off stops a running discovery, resetting the counter and stopping the link, without posting; other states change nothing |
| Discovery.BluetoothService.HandleBondStateChanged | app/src/main/java/com/example/nearlink/BluetoothService.java:411-425 | a bonded device is dialed as `Connect` states (connect worker cancelled only in CONNECTING, connected worker always closed, listening worker and buffer kept); a missing device or another bond state changes nothing |
| Discovery.BluetoothService.DisconnectDevice | app/src/main/java/com/example/nearlink/BluetoothService.java:600-604 | the link is stopped, so no address counts as connected |
| Discovery.BluetoothService.ResetConnections | app/src/main/java/com/example/nearlink/BluetoothService.java:606-613 | the link ends up listening with a fresh listening worker only; the discovery is stopped (counter reset if it ran) and then restarted as `StartEffect` says, so it runs exactly when the adapter is on, permission is granted and the radio starts |
| Tracker.IsLocationStale | app/src/main/java/com/example/nearlink/LocationTracker.java:291-293 | a fix is stale when more than 30000 ms old |
| Tracker.IsValidCoordinates | app/src/main/java/com/example/nearlink/LocationTracker.java:295-298 | latitude within [-90, 90] and longitude within [-180, 180] |
| Tracker.IsValidLocation | app/src/main/java/com/example/nearlink/LocationTracker.java:263-289 | a fix is valid when not stale, on the globe, with any accuracy at most 100 m and any speed at most 100 m/s |
| Tracker.ValidityExpires | app/src/main/java/com/example/nearlink/LocationTracker.java:263-293 | a valid fix stays valid as it ages up to 30000 ms after it was taken, and no longer |
| Tracker.AccuracyBand | app/src/main/java/com/example/nearlink/LocationTracker.java:242-260 | NONE without an accuracy, else HIGH up to 20 m, MEDIUM up to 50 m, LOW beyond |
| Tracker.BandMonotone | app/src/main/java/com/example/nearlink/LocationTracker.java:242-260 | a wider accuracy radius never gets a better band, and a fix with an accuracy always gets HIGH, MEDIUM or LOW |
| Tracker.CreateLocationRequest | app/src/main/java/com/example/nearlink/LocationTracker.java:179-209 | every 30000 ms in the background, else 5000 ms in power-save mode, else 1000 ms; fastest rate half and batching delay twice the interval; balanced power and no wait for accuracy in power-save mode |
| Tracker.RequestShape | app/src/main/java/com/example/nearlink/LocationTracker.java:179-209 | the request's fastest interval is below its interval, which is below its batching delay; no mode polls faster than the normal one; background polls every 30 s; high accuracy exactly outside power-save mode |
| Tracker.Smoothed | app/src/main/java/com/example/nearlink/LocationTracker.java:300-324 | a lone fix as it is; otherwise the means of latitude and longitude, the present accuracies summed over the window size, no speed, and time now |
| Tracker.SmoothedIsValid | app/src/main/java/com/example/nearlink/LocationTracker.java:300-324 | smoothing plausible fixes yields a plausible fix (means stay on the globe, accuracy under the ceiling), stamped now when averaged, and valid now when the newest fix is |
| Tracker.StationaryWindow | app/src/main/java/com/example/nearlink/LocationTracker.java:300-324 | fixes all at one position smooth to that position |
| Tracker.MeanBounds | app/src/main/java/com/example/nearlink/LocationTracker.java:318-319 | the mean of values between two bounds lies between them |
| Tracker.Window | app/src/main/java/com/example/nearlink/LocationTracker.java:224-227 | the fix appended, and the oldest dropped once there are more than five |
| Tracker.WindowKeepsNewest | app/src/main/java/com/example/nearlink/LocationTracker.java:224-227 | the window holds the last min(n + 1, 5) fixes in arrival order, ending with the new one |
| Tracker.WindowPlausible | app/src/main/java/com/example/nearlink/LocationTracker.java:224-227 | a window of plausible fixes stays plausible |
| Tracker.SmoothLocation | app/src/main/java/com/example/nearlink/LocationTracker.java:300-324 | the accumulator loop computes the smoothed fix: the lone fix as it is, or the means of latitude and longitude, the present accuracies summed over the window size, no speed and time now |
| Tracker.LocationTracker.constructor | app/src/main/java/com/example/nearlink/LocationTracker.java:94-115 | no samples, no last location, not tracking, no accuracy callback |
| Tracker.LocationTracker.UpdateLocationAccuracy | app/src/main/java/com/example/nearlink/LocationTracker.java:242-260 | the band of the fix is reported exactly when a callback is registered |
| Tracker.LocationTracker.HandleLocationUpdate | app/src/main/java/com/example/nearlink/LocationTracker.java:218-240 | an invalid fix changes nothing; a valid one joins the window, the smoothed window becomes the last location and is valid, its band is reported, and the mesh node takes it as its location and queues it as a location message exactly when the node id is non-empty, the message id is new and the queue has room |
| Tracker.LocationTracker.AddSample | app/src/main/java/com/example/nearlink/LocationTracker.java:224-233 | the window grows by the fix, and the smoothed window, valid now, becomes the last location with its band reported |
| Tracker.LocationTracker.PushSample | app/src/main/java/com/example/nearlink/LocationTracker.java:224-227 | the fix is appended and the oldest dropped beyond five, keeping every sample plausible |
| Tracker.LocationTracker.HandleLocationResult | app/src/main/java/com/example/nearlink/LocationTracker.java:211-216 | a missing or invalid fix changes nothing, no band being reported; a valid one is handled as an update: window, smoothed and valid last location, band reported when a callback is registered, and the mesh node takes it as its location and queues it under the same conditions as `UpdateLocation` |
| Tracker.LocationTracker.StartTracking | app/src/main/java/com/example/nearlink/LocationTracker.java:121-145 | the request is made exactly when permitted |
| Tracker.LocationTracker.OnRequestResult | app/src/main/java/com/example/nearlink/LocationTracker.java:134-138 | tracking is on exactly when the provider accepted the request |
| Tracker.LocationTracker.StopTracking | app/src/main/java/com/example/nearlink/LocationTracker.java:150-167 | when tracking, the samples are cleared at once; otherwise nothing changes |
| Tracker.LocationTracker.OnTrackingStopped | app/src/main/java/com/example/nearlink/LocationTracker.java:157-158 | tracking is off once the provider confirms |
| Tracker.LocationTracker.GetLastLocation | app/src/main/java/com/example/nearlink/LocationTracker.java:173-175 | the last location, when there is one, is plausible |

## Left out

- Android platform calls are not modelled. They are replaced by boolean inputs or left out. This covers:
  - the radio (`startDiscovery`, `cancelDiscovery`, RFCOMM sockets);
  - broadcast receiver registration and unregistration. Receiver events are event methods the environment may call at any time, whether or not a receiver is registered.
  - wake locks, the permission checks (a `permitted` input), logging and the `finalize` clean-up.
- The rename and reflection in `advertiseServiceUUID` (app/src/main/java/com/example/nearlink/BluetoothService.java:146-166) are not modelled. Only its consequence for the peer filter is stated (`AdvertisedNamePasses`).
- Threads, executors, `ConcurrentHashMap`, the `LinkedBlockingQueue` and its timed `offer` and `poll`, and `synchronized` are not modelled. Every operation runs atomically and in sequence:
  - a full queue rejects at once instead of after a 100 ms wait;
  - a poll that times out is an empty queue in `ProcessNext`;
  - races between worker threads and `connect`/`stop` are not modelled.
- Java object serialization is an input: `Option<Bytes>` for the encoding (`None` when it throws), and the decoded `Message` for a read frame. No claim is made about the byte format.
- Doubles and floats are reals. Rounding and the float accumulator of `smoothLocation` are not modelled.
- `Link.BluetoothCommunicationService.OnConnectAttemptFinished` does not model a socket that failed to be created in the worker's constructor: that socket is one more way for `succeeded` to be false.
- The `SecurityException` and other exception paths that the Java code catches are not modelled separately. The message listener is assumed never to throw. What the catches do:
  - in `startDiscovery` they lead to `handleDiscoveryFailure`, the same path as a radio that refuses to start;
  - in `broadcastMessage` (app/src/main/java/com/example/nearlink/MeshNode.java:160-170) a listener that throws makes the method answer false although the message is already queued, recorded, stamped and counted. `Broadcast` does not model this run: its `!added ==> unchanged(this)` describes only the rejections;
  - in `processMessage` (app/src/main/java/com/example/nearlink/MeshNode.java:240-245) the catch hands the message to the listener's `onMessageDeliveryFailed`. The model has no exception there other than the serialization failure, which `relayMessageToNearbyNodes` catches itself, so `ProcessMessage` never takes this path;
  - in `startTracking` (app/src/main/java/com/example/nearlink/LocationTracker.java:141-144) a `SecurityException` from the provider makes it answer false; `StartTracking`'s `permitted` input stands for both the permission check and that exception;
  - the other catches (link workers, receivers, `stopTracking`, cleanup and the processor loop) only log and carry on.
- Link.FeedLosesNothing: the decoder is abstract, so the lemma is about the three branches of `handleReadMessage`, not about Java serialization. Two consequences are not captured. First, `readObject` (app/src/main/java/com/example/nearlink/BluetoothCommunicationService.java:447) takes only the first object, and `messageBuffer.reset()` (line 450) then drops any bytes after it, such as the start of the next message arriving in the same read; the model's frame is the whole buffer. Second, the JDK raises `StreamCorruptedException` (the branch that keeps the buffer) for a bad stream header, while a truncated object raises `EOFException`, which takes the reset branch; so in the source a message split across reads is typically discarded rather than kept.
- Mesh.IsValidMessage: content length is counted in Unicode scalar values (Dafny characters), while Java's `String.length()` counts UTF-16 code units. Content with characters outside the Basic Multilingual Plane is therefore measured shorter than Java measures it: 5121 emoji are 10242 Java units and rejected by the source, but accepted by `Broadcast` in the model.
- Mesh.ExpiredIds: Java's `long` clock differences (`now - timestamp`) can wrap around; the model's integers do not. The model agrees with the source for timestamps within 2^63 ms of the clock, which every real clock reading is; a peer could still send a message with an absurd timestamp such as `Long.MIN_VALUE`, which the source's `isValidMessage` accepts and `IsValidMessage` rejects. The same holds for `FreshStamps`, `PurgeDevices`, `Cache.Purge` (so `Cache.PurgeBoundary` is proved only for such timestamps), `AttemptAllowed`, `PurgeAttempts`, `SkipsDiscoverableRequest` and `IsLocationStale`.
- Mesh.MeshNode.CacheCleanupTick: while a cleanup spins, the other threads keep changing the maps (a broadcast adds a stamped id that the spinning loop may then evict). The model instead freezes the node's maintenance in the state the loop spins in (`cleanupStuck`); the concurrent interleaving is not modelled.
- `retryConnection` (app/src/main/java/com/example/nearlink/BluetoothService.java:472-480) has no member of its own. It has the same code as `retryDiscovery` on the same counter, so `RetryDiscovery` models both. Its one caller, the toast branch of the link's handler, is `OnLinkEvent`.
- `createLocationRequest` is never called in the source (the request stays null), and the Play Services request and callback objects are not modelled. The interval choice is the pure `CreateLocationRequest`. Its `isBackgroundMode` input is a parameter; the app passes its application context, so `context instanceof Activity` is always false and the mode is always background.
- `accuracyCallback` has no setter in the source, so no band is ever reported in practice. The model keeps the flag as a field that only the constructor sets.
- The skip rule of `makeDeviceDiscoverable` is stated and proved (`IntervalAndSkipBounds`). Its only caller, `startDiscovery`, calls it only when not discoverable, so the rule never fires there.
- `sendMessage` dials each peer and writes immediately. The link is then CONNECTING, so every write is dropped and no message is ever sent this way. The model states this outcome and does not model a different send path.
- `MeshNode.initializeBluetoothService` creates a link that nothing starts, so relay writes are dropped unless the link is connected. The model makes the link's state part of `RelayMessageToNearbyNodes`'s contract.
- `getNodeId`, `getCurrentLocation`, `handleStateChange`, `handleDeviceConnected` and `logLocationUpdate` are not modelled: they read a field or only log.
- The screens (`MapActivity`, `Gamen1Activity`, `Gamen2Activity`, `CustomLocationView`, `BluetoothMeshNetworkCommunicationApp`) are not part of this model.
- Mesh.MeshNode.EvictOverflow: the Java loop does not terminate when it gets stuck. The method instead returns `terminates == false` in the state where the loop would spin.

## Findings

| source | as written | input that shows it | evidently intended | confidence | as-written member | corrected member |
|---|---|---|---|---|---|---|
| app/src/main/java/com/example/nearlink/MeshNode.java:97-100 | relay keys (message id + device address) go into `processedMessages` without a timestamp. The cleanup expires only stamped ids, and the eviction loop (MeshNode.java:287-293) removes only what `findOldestMessage` finds among the timestamps. So once more than 10000 relay keys have accumulated, the loop keeps finding nothing while the map stays over 10000, and spins forever. | 1001 distinct messages each relayed to the same 10 nearby devices give 10010 relay keys with no timestamp; the next cleanup never returns | each relay key is stamped with the time of the relay, as `broadcastMessage` stamps message ids. Then every key expires after 30 s and stays in reach of the eviction loop. | not executed | Mesh.RelayKeysPinEviction | Mesh.CorrectedRelayKeepsEvictionTerminating |

The `MeshNode` class keeps the relay as written, because it models the app's behaviour. Its `CleanupCache` returns `terminates`, which is false exactly when more than 10000 processed keys are beyond `findOldestMessage`'s reach. The corrected relay bookkeeping is the pure function `Mesh.RecordRelayCorrected`, and the corrected-member lemma proves that the eviction loop always ends under it.
