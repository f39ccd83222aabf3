# Verified models of the host Bluetooth backend and web-server shim

This project models, in Dafny 4.11, the protocols, state machines and codecs of the host (Linux)
Bluetooth backend and of the web-server shim, and proves what holds of them on every run and every
input. D-Bus, sockets and the clock appear as nondeterministic inputs: replies, signals, chunk
boundaries and times are parameters of the models, and a theorem that holds "for all steps" holds
however they turn out.

| file | what it models |
|---|---|
| `GattProtocol.dfy` | the GATT command and event queues between the main thread and the worker |
| `ClientStates.dfy` | the client's connection states, its pending disconnect and its two timeouts on a wrapping 32-bit clock |
| `Tracker.dfy`, `HciReports.dfy` | promotion of clients behind an 8-bit change counter; advertising reports from a raw socket |
| `Discovery.dfy`, `DiscoveryIndex.dfy` | assembling the service tree and the worker's handle index; looking handles up on the main thread |
| `DiscoveryGuard.dfy` | the two flags that keep discovery from running twice while signal handlers nest |
| `ProxySlots.dfy`, `ServiceStream.dfy` | the proxy's connection slots; its resumable stream of a service database |
| `Advertising.dfy`, `BTHome.dfy`, `Uuid.dfy` | advertising data, BTHome v2 payloads, UUIDs |
| `ServerClients.dfy`, `ExportedTree.dfy` | the GATT server's central tracking; its exported object tree and service instances |
| `SseFrame.dfy`, `SseQueue.dfy` | server-sent-event framing; the coalescing queue of a session |
| `HttpRequest.dfy`, `HttpChunking.dfy`, `HttpMessage.dfy`, `Query.dfy` | reading a request from a socket; where the chunks end; whole messages; query parameters |
| `Common.dfy`, `Strings.dfy` | machine integers, sequences and strings |

Code that changes state is written as methods of a class (or, where the original only has local
state, as methods with loops). Each method is proved to compute a specification function of the old
state; the theorems say what those functions mean without naming them: what a client or receiver
reads back, what a run of steps or events leaves, what a standard's format says. `dafny verify
dfyconfig.toml` checks everything. Nothing was executed.

Several properties one would expect do not hold of the code. They are stated as exact conditions,
each with a witness:

- A connect request can take a second slot for a device that already has one
  (`ConnectKeepsOneSlotIff`, `ReservesSecondSlot`).
- A peer that exports its own GAP service ends up with two, because UUIDs of different lengths never
  compare equal (`SingleGapService`, `ExportedGapIsDuplicated`); for the same reason a Client
  Characteristic Configuration descriptor written in its 128-bit form is exported, although a comment
  says it never is (`CccdKeptBackIff`, `LongCccdIsExported`).
- A Connected=false signal inside a running walk or MTU probe lets SERVICES_DISCOVERED be posted twice
  (`DownIsSafeIffIdle`, `InterruptedPostsTwice`, `HandlersPostTwice`).
- A characteristic and a descriptor that report the same handle make the tree and the index disagree
  (`IndexAgreesWithTree`, `ClashDisagrees`).
- A SERVICES_DISCOVERED that arrives after disconnect() sets the client ESTABLISHED again
  (`EstablishedIff`, `LateDiscoveryEstablishes`).
- When the API client goes away in mid-stream, no later request restarts the stream until the device
  disconnects (`LostClientStopsStream`).
- Service data with a longer UUID and manufacturer data without its company id do not survive the
  proxy's re-serialised advertisement (`RoundTrip`, `UncleanDiffers`).
- A service list of more than 32767 entries is never reported as done, because the cursor is a 16-bit
  integer (`DoneIffFits`).
- Loops far enough apart for the clock to wrap hide a timeout (`TimeoutsHoldIff`, `WrapHidesTimeout`),
  and a multiple of 256 state changes hides a client that waits for promotion (`CheckPromotesIff`,
  `WrapMissesPromotion`).
- After 65535 device paths a connection id is shared or zero (`IdsFaithfulIff`).
- The coalescing queue ends up showing a client what sending every update would have shown exactly for
  the entries whose latest text is not empty or never was anything else (`CoalescingIsFaithfulIff`,
  `EmptyTextHidesUpdate`), in runs where no update lands on an entry between generating and erasing
  it. In any run, an entry's last update is lost exactly when it lands there and its text is neither
  empty nor the one the client ends up with anyway (`DrainedIsCurrentIff`, `BusyUpdateCurrentIff`).
- A message with a carriage return, or an event name with one or with a line feed, is not delivered as
  it was sent (`StreamRoundTrip`).
- The request depends on how recv cuts the stream when more follows the declared body, or when the
  header ends close to the size limit (`ChunkingIndependentIff`); a request without any header field
  is refused (`MessageReadIff`).
- A UUID of fewer than sixteen bytes given in text is stored with its first byte first, where all
  others are stored last byte first (`ParseShort`, `ShortTextIffSymmetric`).
- A query key is compared undecoded, so only names the form serializer leaves alone can be looked up
  (`LookupFaithfulIff`); an empty last piece is never looked at (`EmptyKeyAgreesIff`).

## Model

| member | source | states |
|---|---|---|
| GattProtocol.ExactlyOnce | components/esp32_ble_client/ble_gatt_host.cpp:247-366 | Under every interleaving of enqueue, drain, swap, service steps, signals and remapping of handles, the answers posted are, in order and with the same handles, those owed to the commands taken (less the one in service and its batch), taken plus queued commands are the commands issued, and answered + in flight + queued = issued. |
| GattProtocol.QuiescentIsComplete | components/esp32_ble_client/ble_gatt_host.cpp:306-318 | Once queues and worker are idle, what the main thread has drained answers every command issued, exactly once and in order. |
| GattProtocol.AnswersTellOutcomes | components/esp32_ble_client/ble_gatt_host.cpp:247-366 | Under every interleaving the commands served are those taken, in order, less the ones in service, and the i-th answer posted tells the outcome of the i-th answerable command served: status 0x01 without data for a handle unknown at its look-up, 0x00 and the cached bytes, 0x00 and exactly the bytes of a good reply, 0x85 without data after a failed one; an RSSI answer is the signed byte of a good reply, else 0. |
| GattProtocol.ImmediatePays | components/esp32_ble_client/ble_gatt_host.cpp:879-999 | A command refused or served without a D-Bus call (unknown handle, wrong kind, synthetic value) is still answered with its own handle. |
| GattProtocol.ServedPays | components/esp32_ble_client/ble_gatt_host.cpp:755-769 | Whatever signals run and however the handle maps change inside the blocking call, serving a command posts exactly the answer it is owed. |
| GattProtocol.GattHost.EnqueueCommand | components/esp32_ble_client/ble_gatt_host.cpp:247-253 | Appends the command. |
| GattProtocol.GattHost.DrainEvents | components/esp32_ble_client/ble_gatt_host.cpp:306-311 | Hands over the whole event queue and empties it. |
| GattProtocol.GattHost.PostEvent | components/esp32_ble_client/ble_gatt_host.cpp:313-318 | Appends the event. |
| GattProtocol.GattHost.DoRead | components/esp32_ble_client/ble_gatt_host.cpp:879-930 | Posts one answer, last, that tells the outcome (invalid handle, cached bytes, the bytes read, or error without data); before it only the signals dispatched in the blocking call. |
| GattProtocol.GattHost.DoWrite | components/esp32_ble_client/ble_gatt_host.cpp:932-964 | The same for a write: invalid handle, success or error. |
| GattProtocol.GattHost.DoSetNotify | components/esp32_ble_client/ble_gatt_host.cpp:966-999 | The same for a subscription, which needs a characteristic, and the exact new subscription table. |
| GattProtocol.GattHost.DoReadRssi | components/esp32_ble_client/ble_gatt_host.cpp:755-769 | The same for an RSSI read: the signed byte of a good reply, else 0. |
| GattProtocol.GattHost.Serve | components/esp32_ble_client/ble_gatt_host.cpp:326-365 | The dispatcher hands each command to the operation that answers it; the answer tells its outcome. |
| GattProtocol.GattHost.ServeOnce | components/esp32_ble_client/ble_gatt_host.cpp:326-365 | Serving one command adds exactly the one answer owed to it, and only appends to the queue. |
| GattProtocol.GattHost.WorkerProcessCommands | components/esp32_ble_client/ble_gatt_host.cpp:320-366 | Swapping out and serving the batch empties the command queue and adds exactly the answers owed, in order. |
| ClientStates.IdleIsClean | components/esp32_ble_client/ble_client_base.cpp:70-218 | In every run a client in IDLE has no pending disconnect and an empty service tree, and a pending disconnect arises only from disconnect() while CONNECTING. |
| ClientStates.LoopWithinTimeouts | components/esp32_ble_client/ble_client_base.cpp:113-141 | After a punctual loop a client still CONNECTING or DISCONNECTING is within 20000 or 10000 true milliseconds of having started. |
| ClientStates.RunTimed | components/esp32_ble_client/ble_client_base.cpp:70-141 | The same at the end of every loop of every run whose loops are at most `gap` apart. |
| ClientStates.TimeoutsHoldIff | components/esp32_ble_client/ble_client_base.h:131-132 | The bounds hold on all such runs if and only if gap + 20000 is below 2^32. |
| ClientStates.WrapHidesTimeout | components/esp32_ble_client/ble_client_base.cpp:113-141 | For a larger gap there is a run that leaves a client CONNECTING past its bound. |
| ClientStates.EstablishedIff | components/esp32_ble_client/ble_client_base.cpp:81-198 | In every run, with any disconnect requests, events and timeouts, and whether or not the client has its host yet, it ends ESTABLISHED if and only if SERVICES_DISCOVERED came last among the events and requests that set another state. |
| ClientStates.EstablishedHoldsSnapshot | components/esp32_ble_client/ble_client_base.cpp:143-218 | In every run an ESTABLISHED client holds exactly the service tree of the last SERVICES_DISCOVERED it heard; its MTU and pairing are those last heard of. |
| ClientStates.LookupsAreRouted | components/esp32_ble_client/ble_client_base.cpp:155-264 | When that snapshot is the one of a walk, the client's own lookups succeed exactly for the handles the worker routes, as the same kind, if and only if no characteristic and descriptor share a handle. |
| ClientStates.CommandsFollowSteps | components/esp32_ble_client/ble_client_base.cpp:70-141 | In every run the worker is asked to connect once for each connect(), and to disconnect once for each disconnect() of a client that is neither idle nor connecting, each CONNECTED that arrives with a disconnect pending, and each connect timeout; in that order and for nothing else. |
| ClientStates.LoopState | components/esp32_ble_client/ble_client_base.cpp:113-141 | The state a loop leaves is that of the last deciding event heard, or IDLE once a timeout has passed on the wrapping clock. |
| ClientStates.StepOutcome | components/esp32_ble_client/ble_client_base.cpp:40-103 | Every other step moves between states, and raises or drops a pending disconnect, exactly as tabled. |
| ClientStates.PendingDisconnectIsHonoured | components/esp32_ble_client/ble_client_base.cpp:81-154 | A disconnect() while CONNECTING tears the link down as soon as it is up, and tells the worker. |
| ClientStates.LateDiscoveryEstablishes | components/esp32_ble_client/ble_client_base.cpp:143-185 | A new client that connects, is asked to disconnect and then hears SERVICES_DISCOVERED goes from DISCONNECTING to ESTABLISHED. |
| ClientStates.BleClientBase.ChangeState | components/esp32_ble_tracker/esp32_ble_tracker.h:260-265 | Sets the state; IDLE clears a pending disconnect. |
| ClientStates.BleClientBase.StartConnect | components/esp32_ble_client/ble_client_base.cpp:70-79 | The state after connect(), and the command given to the worker. |
| ClientStates.BleClientBase.StartDisconnect | components/esp32_ble_client/ble_client_base.cpp:81-90 | The state after disconnect() from each state. |
| ClientStates.BleClientBase.TearDown | components/esp32_ble_client/ble_client_base.cpp:92-103 | The state after an unconditional disconnect. |
| ClientStates.BleClientBase.DispatchEvent | components/esp32_ble_client/ble_client_base.cpp:143-218 | The fields after each worker event, the service tree included; what they mean over a run is EstablishedHoldsSnapshot and LoopState. |
| ClientStates.BleClientBase.RunLoop | components/esp32_ble_client/ble_client_base.cpp:113-141 | Draining the events, then the two timeout checks, each at its own reading of the clock. |
| ClientStates.BleClientBase.OnAdvertisement | components/esp32_ble_client/ble_client_base.cpp:40-49 | Only an idle auto-connect client that matches becomes DISCOVERED. |
| Tracker.NoMissedPromotion | components/esp32_ble_tracker/esp32_ble_tracker.cpp:305-331 | With fewer than 256 state changes between tracker loops, promotions included, no client is DISCOVERED at the end of any loop, although the scan is skipped when the counter looks unchanged. |
| Tracker.CheckPromotesIff | components/esp32_ble_tracker/esp32_ble_tracker.cpp:316-331 | One check leaves nobody waiting if and only if nobody waited or the true number of changes is no multiple of 256. |
| Tracker.WrapMissesPromotion | components/esp32_ble_tracker/esp32_ble_tracker.cpp:316-322 | From a new tracker with one client, a run of 256 changes and one loop leaves that client DISCOVERED. |
| Tracker.PromoteClears | components/esp32_ble_tracker/esp32_ble_tracker.cpp:324-331 | The scan turns exactly the DISCOVERED clients it has passed into CONNECTING, counting each change. |
| Tracker.LoopConnectsDueIff | components/esp32_ble_tracker/esp32_ble_tracker.cpp:305-331 | One loop turns exactly the clients that are due into CONNECTING (those DISCOVERED, and the idle auto-connecting ones whose advertisement is queued), leaves the others alone and empties the queue, if and only if none is due or the number of changes it sees is no multiple of 256. |
| Tracker.QueueIsNewest | components/esp32_ble_tracker/esp32_ble_tracker.cpp:333-340 | Between loops the queue holds the newest 128 advertisements, in order. |
| Tracker.BleTracker.ChangeState | components/esp32_ble_tracker/esp32_ble_tracker.h:260-278 | Sets one client's state and bumps the shared counter. |
| Tracker.BleTracker.DeliverDevice | components/esp32_ble_tracker/esp32_ble_tracker.cpp:333-340 | Queues an advertisement; a full queue drops its oldest. |
| Tracker.BleTracker.ParseDeviceAll | components/esp32_ble_tracker/esp32_ble_tracker.cpp:305-315 | Gives one advertisement to every client. |
| Tracker.BleTracker.TryPromoteDiscoveredClients | components/esp32_ble_tracker/esp32_ble_tracker.cpp:324-331 | The scan over all clients. |
| Tracker.BleTracker.Loop | components/esp32_ble_tracker/esp32_ble_tracker.cpp:305-322 | Drains the queue, then scans unless the counter equals its last value. |
| HciReports.HandleLeMetaEvent | components/esp32_ble_tracker/esp32_ble_tracker.cpp:440-472 | Returns the complete reports of an event, with the bounds checks before each. |
| HciReports.CutEventDeliversWhole | components/esp32_ble_tracker/esp32_ble_tracker.cpp:449-471 | However an encoded event is cut short, exactly the reports that are wholly present are delivered, in order, with their address, signed RSSI and payload. |
| HciReports.EventRoundTrip | components/esp32_ble_tracker/esp32_ble_tracker.cpp:440-472 | A complete event delivers every report the controller put in it. |
| HciReports.AnyEventIsRead | components/esp32_ble_tracker/esp32_ble_tracker.cpp:440-472 | Of any bytes received, the reports they hold are delivered, in order, up to the number announced or the first report that is not whole; an event of another kind delivers nothing. |
| Discovery.GattIndex.WalkDescriptors | components/esp32_ble_client/ble_gatt_host.cpp:647-656 | Lists a characteristic's descriptors and indexes them, or fails on the first without a handle, with those before it indexed. |
| Discovery.GattIndex.WalkCharacteristic | components/esp32_ble_client/ble_gatt_host.cpp:638-657 | The same for a characteristic with its descriptors. |
| Discovery.GattIndex.WalkCharacteristics | components/esp32_ble_client/ble_gatt_host.cpp:635-658 | The same for a service. |
| Discovery.GattIndex.WalkGattTree | components/esp32_ble_client/ble_gatt_host.cpp:625-666 | Succeeds exactly when every attribute reached has a handle, and then returns the tree with the synthesized service and leaves exactly the index of the nodes visited; otherwise the index holds the nodes before the first one without a handle and no value is cached. |
| Discovery.GattIndex.SynthesizeGapService | components/esp32_ble_client/ble_gatt_host.cpp:677-737 | Adds the GAP service and its cached values unless the tree has the 16-bit form of it. |
| DiscoveryIndex.NodesAreChains | components/esp32_ble_client/ble_gatt_host.cpp:625-666 | The nodes visited are exactly the attributes whose parent chain is present. |
| DiscoveryIndex.EachAttributeOnce | components/esp32_ble_client/ble_gatt_host.cpp:625-666 | With distinct paths each of them is visited exactly once, under its own parents. |
| DiscoveryIndex.TreeListsNodes | components/esp32_ble_client/ble_gatt_host.cpp:625-666 | Read top to bottom, the tree lists those nodes with their parents. |
| DiscoveryIndex.NodesInObjectOrder | components/esp32_ble_client/ble_gatt_host.cpp:625-666 | Services come in the order of the objects, their characteristics too, each before its descriptors, and those too. |
| DiscoveryIndex.TreeHasServices | components/esp32_ble_client/ble_gatt_host.cpp:625-660 | The tree has every service object in order, empty ones too, with its UUID and its handle as start and end. |
| DiscoveryIndex.RebuildTree | components/esp32_ble_client/ble_client_base.cpp:155-183 | The main thread's copy equals the worker's snapshot. |
| DiscoveryIndex.GetCharacteristic | components/esp32_ble_client/ble_client_base.cpp:241-247 | Returns the first characteristic with the handle, in tree order. |
| DiscoveryIndex.GetDescriptor | components/esp32_ble_client/ble_client_base.cpp:257-264 | Returns the first descriptor with the handle, in tree order. |
| DiscoveryIndex.IndexAgreesWithTree | components/esp32_ble_client/ble_gatt_host.cpp:625-737 | For handles below 0xFF00, the main thread finds every handle exactly when the worker can route it as the same kind, if and only if no characteristic and descriptor share a handle. |
| DiscoveryIndex.ClashDisagrees | components/esp32_ble_client/ble_gatt_host.cpp:625-666 | A peer that reports one handle for a characteristic and its descriptor is walked successfully, and then looking up and routing disagree. |
| DiscoveryIndex.SameObject | components/esp32_ble_client/ble_gatt_host.cpp:625-666 | With distinct handles, the attribute found has the UUID, handle and properties of the object whose path, kind and owning characteristic the worker routes to. |
| DiscoveryIndex.GapIsServed | components/esp32_ble_client/ble_gatt_host.cpp:677-737 | When the GAP service is synthesized, Device Name, Appearance and Central Address Resolution are found by their handles and read as the name (or, when empty, the alias), the little-endian appearance, and 1; nothing else is cached. |
| DiscoveryIndex.SingleGapService | components/esp32_ble_client/ble_gatt_host.cpp:677-683 | For discovered trees the service is always added, so there is exactly one if and only if the peer exported none. |
| DiscoveryIndex.ExportedGapIsDuplicated | components/esp32_ble/ble_uuid.h:164-168 | A tree that holds the exported GAP service ends up with two. |
| DiscoveryGuard.GuardHolds | components/esp32_ble_client/ble_gatt_host.cpp:1086-1139 | However signals nest inside blocking calls, at most one SERVICES_DISCOVERED is posted between two Connected=false signals and at most one discovery is in progress, while no Connected=false lands inside one. |
| DiscoveryGuard.GuardHoldsIffIdleAtDown | components/esp32_ble_client/ble_gatt_host.cpp:1086-1139 | After such a run, a Connected=false keeps all continuations safe if and only if no discovery is in progress. |
| DiscoveryGuard.DownIsSafeIffIdle | components/esp32_ble_client/ble_gatt_host.cpp:1086-1110 | The same from any state the run can be in. |
| DiscoveryGuard.InterruptedPostsTwice | components/esp32_ble_client/ble_gatt_host.cpp:1112-1139 | A Connected=false inside a discovery has a continuation that posts twice. |
| DiscoveryGuard.DispatchedIsGuarded | components/esp32_ble_client/ble_gatt_host.cpp:1051-1139 | Dispatching any signals without Connected=false, nested however deep, leaves the flag of a running discovery alone, never unsets `discovered`, and posts SERVICES_DISCOVERED exactly when `discovered` becomes true. |
| DiscoveryGuard.AllRun | components/esp32_ble_client/ble_gatt_host.cpp:1051-1139 | Any list of signals, nested to any depth and with any Connected=false, is handled as a run of the step machine: same flags, the events of its steps in order (CONNECTED and DISCONNECTED as the signals come, SERVICES_DISCOVERED where a probe returns), and as many SERVICES_DISCOVERED since the last DISCONNECTED as the machine counts. |
| DiscoveryGuard.HandlersAreGuarded | components/esp32_ble_client/ble_gatt_host.cpp:1051-1139 | So, from an idle host, the handlers post at most one SERVICES_DISCOVERED after the last DISCONNECTED, and exactly one if discovery has completed, while no Connected=false is handled inside a discovery. |
| DiscoveryGuard.HandlersPostTwice | components/esp32_ble_client/ble_gatt_host.cpp:1099-1139 | A Connected=false and a new ServicesResolved inside the walk make them post it twice. |
| DiscoveryGuard.RediscoversAfterDown | components/esp32_ble_client/ble_gatt_host.cpp:1099-1139 | After Connected=false, whatever went before, the next signal with a successful discovery posts exactly one SERVICES_DISCOVERED. |
| DiscoveryGuard.SignalHandlers.TryStartDiscovery | components/esp32_ble_client/ble_gatt_host.cpp:1112-1139 | The flags and the events posted after it, whatever signals its blocking calls dispatch. |
| DiscoveryGuard.SignalHandlers.Handle | components/esp32_ble_client/ble_gatt_host.cpp:1051-1110 | The flags and the events posted after one signal; Connected=false resets both flags. |
| DiscoveryGuard.SignalHandlers.Dispatch | components/esp32_ble_client/ble_gatt_host.cpp:1051-1084 | The flags and the events posted after any list of signals. |
| ProxySlots.SlotsConserved | components/bluetooth_proxy/bluetooth_connection.cpp:60-79 | In every run free plus the slots in use is the limit, the allocated array holds the same addresses as the connections, as a multiset, and free stays between 0 and the limit. |
| ProxySlots.SetAddressConsistent | components/bluetooth_proxy/bluetooth_connection.cpp:70-79 | Taking a free slot or releasing one keeps the three records in agreement, and there was a free slot to take. |
| ProxySlots.SlotsAfter | components/bluetooth_proxy/bluetooth_proxy.cpp:158-243 | What each step does to each slot: a connect request takes the first free slot before any that holds the address, a disconnect request of an idle connection gives back the first slot that holds it, a completed disconnect its own; every other slot keeps its address. |
| ProxySlots.RefusedIffNoneFree | components/bluetooth_proxy/bluetooth_proxy.cpp:180-187 | With all slots registered, a connect request is refused if and only if the free counter is 0 and no slot holds the address. |
| ProxySlots.ConnectKeepsOneSlotIff | components/bluetooth_proxy/bluetooth_proxy.cpp:158-178 | A connect request keeps one slot per device if and only if no free slot stands before the slot the device already has. |
| ProxySlots.ReservesSecondSlot | components/bluetooth_proxy/bluetooth_proxy.cpp:163-166 | From a new proxy with two slots there is a run in which a device that already has the second gets the first as well. |
| ProxySlots.BluetoothProxy.RegisterConnection | components/bluetooth_proxy/bluetooth_proxy.h:63-68 | Registers a connection while there is room. |
| ProxySlots.BluetoothProxy.UpdateAllocatedSlot | components/bluetooth_proxy/bluetooth_connection.cpp:60-68 | Changes the first matching entry of the array, in place, and no other. |
| ProxySlots.BluetoothProxy.SetAddressAt | components/bluetooth_proxy/bluetooth_connection.cpp:70-79 | The three records after set_address. |
| ProxySlots.BluetoothProxy.GetConnectionFor | components/bluetooth_proxy/bluetooth_proxy.cpp:158-178 | The slot returned is the first that holds the address or, when reserving, is free, and the records after it. |
| ProxySlots.BluetoothProxy.DeviceRequestConnect | components/bluetooth_proxy/bluetooth_proxy.cpp:180-227 | The records after a connect request. |
| ProxySlots.BluetoothProxy.DeviceRequestDisconnect | components/bluetooth_proxy/bluetooth_proxy.cpp:228-243 | The records after a disconnect request: an idle connection gives its slot back at once. |
| ProxySlots.BluetoothProxy.OnDisconnectComplete | components/bluetooth_proxy/bluetooth_connection.cpp:157-172 | The records after a completed disconnect. |
| ServiceStream.StreamsEverything | components/bluetooth_proxy/bluetooth_connection.cpp:177-227 | After an accepted request on n services (1 to 32767), the batches are non-empty, concatenate to the list, and are followed by exactly one services-done within n+1 loops, whatever further loops come. |
| ServiceStream.TreeIsStreamed | components/bluetooth_proxy/bluetooth_connection.cpp:177-227 | What a client reads out of the batches of an uninterrupted stream is the discovered tree line by line: every service, characteristic and descriptor in order, below its parent, with its 128-bit UUID, handle and properties; then one services-done. |
| ServiceStream.TreeListed | components/bluetooth_proxy/bluetooth_connection.cpp:199-222 | The responses, read back, list exactly what the tree they were built from lists. |
| ServiceStream.AnswersAreOwed | components/bluetooth_proxy/bluetooth_proxy.cpp:340-353 | In every run services-done is sent exactly once for each request that finds a connected client with the tree released and each loop that has reached the end, and the error exactly once for each request on a client that is not connected, as long as an API client is there. |
| ServiceStream.BatchIsGreedy | components/bluetooth_proxy/bluetooth_connection.cpp:193-224 | A service after the first is in a batch exactly as long as its estimate stays within 1360 bytes. |
| ServiceStream.DoneIffFits | components/bluetooth_proxy/bluetooth_connection.cpp:177-183 | Services-done is ever sent if and only if there are at most 32767 services. |
| ServiceStream.InterruptedStream | components/bluetooth_proxy/bluetooth_connection.cpp:81-87 | With disconnects, torn-down connections, further requests and changes of the API subscription mixed in, the services sent are a prefix of the list, services-done is sent only after all of it, and at most once more than there are further requests. |
| ServiceStream.DisconnectEndsStream | components/bluetooth_proxy/bluetooth_connection.cpp:157-172 | After a disconnect neither services nor services-done are sent: a later request is answered with the not-connected error. |
| ServiceStream.LostClientStopsStream | components/bluetooth_proxy/bluetooth_connection.cpp:185-191 | When the API client is gone at a step in mid-stream the cursor stays at -2 with the tree kept, and no request or subscription restarts the stream until a disconnect. |
| ServiceStream.WireUuidIsExpansion | components/bluetooth_proxy/bluetooth_connection.cpp:21-47 | Both wire forms of a UUID carry its 128-bit expansion. |
| ServiceStream.ShortFormIff | components/bluetooth_proxy/bluetooth_connection.cpp:21-47 | The short wire form is sent to efficient clients, for UUIDs of two and four bytes, and to nobody else. |
| ServiceStream.FillBatch | components/bluetooth_proxy/bluetooth_connection.cpp:196-224 | The batch built and the 16-bit cursor it leaves. |
| ServiceStream.BuildService | components/bluetooth_proxy/bluetooth_connection.cpp:203-221 | The response of one service reads back as the service: UUIDs, handles and properties of it and everything below it. |
| ServiceStream.BuildCharacteristic | components/bluetooth_proxy/bluetooth_connection.cpp:208-221 | The same for one characteristic with its descriptors. |
| ServiceStream.BluetoothConnection.Loop | components/bluetooth_proxy/bluetooth_connection.cpp:81-87 | One loop advances the stream by one step unless the slot is free. |
| ServiceStream.BluetoothConnection.SendServiceForDiscovery | components/bluetooth_proxy/bluetooth_connection.cpp:177-227 | One step: the next batch, or services-done and release of the tree. |
| ServiceStream.BluetoothConnection.GattSendServices | components/bluetooth_proxy/bluetooth_proxy.cpp:340-353 | A request on a connection that is not connected gets an error; otherwise it starts the stream, answers an empty tree at once, and leaves a running or finished stream alone. |
| ServiceStream.BluetoothConnection.OnDisconnected | components/bluetooth_proxy/bluetooth_connection.cpp:157-172 | Ends the stream and frees the slot. |
| Advertising.RoundTrip | components/bluetooth_proxy/bluetooth_proxy.cpp:80-120 | The serialised payload is at most 62 bytes, and parsing it gives exactly the truncated entries that greedily fitted, in order, if and only if each is one the format can carry (16-bit service data, manufacturer data starting with its company id). |
| Advertising.ItemsOffered | components/bluetooth_proxy/bluetooth_proxy.cpp:91-112 | What is offered, entry by entry: the flags, each manufacturer entry cut to 30 bytes, each service entry cut to 29, the name cut to 28. |
| Advertising.KeptIsGreedy | components/bluetooth_proxy/bluetooth_proxy.cpp:83-90 | Each entry is kept exactly when it still fits into 62 bytes behind those kept before it. |
| Advertising.AirRoundTrip | components/esp32_ble_tracker/esp32_ble_tracker.cpp:101-194 | Whatever AD structures an advertiser sends (section 11 of Core Specification Vol 3 Part C), up to padding or a cut, the parser reads what they describe: all service UUIDs, TX powers, service and manufacturer data in order, and the last flags, name and appearance. |
| Advertising.UncleanDiffers | components/bluetooth_proxy/bluetooth_proxy.cpp:95-109 | Any other entry changes the list that comes back. |
| Advertising.KeptFits | components/bluetooth_proxy/bluetooth_proxy.cpp:81-90 | The greedily kept entries never overrun the buffer. |
| Advertising.ParseEncoding | components/esp32_ble_tracker/esp32_ble_tracker.cpp:101-194 | Parsing encoded entries interprets them one by one. |
| Advertising.ParseAdPayload | components/esp32_ble_tracker/esp32_ble_tracker.cpp:101-194 | The walk over length-prefixed structures stops at the first zero or overlong length and interprets the rest in order. |
| Advertising.HandleField | components/esp32_ble_tracker/esp32_ble_tracker.cpp:111-191 | What each AD type adds to the device. |
| Advertising.AdBuffer.AppendAd | components/bluetooth_proxy/bluetooth_proxy.cpp:83-90 | Appends a structure in place if it fits, else leaves the buffer alone. |
| Advertising.AppendManufacturers | components/bluetooth_proxy/bluetooth_proxy.cpp:95-98 | Offers the manufacturer entries in order. |
| Advertising.AppendServices | components/bluetooth_proxy/bluetooth_proxy.cpp:99-109 | Offers the service data in order. |
| Advertising.BuildPayload | components/bluetooth_proxy/bluetooth_proxy.cpp:80-112 | Builds the payload of the device. |
| Advertising.AdvertisementBatches.ParseDevice | components/bluetooth_proxy/bluetooth_proxy.cpp:114-125 | Accepts one advertisement when subscribed; nothing accepted is lost, and the 16th flushes the batch. |
| Advertising.AdvertisementBatches.FlushPendingAdvertisements | components/bluetooth_proxy/bluetooth_proxy.h:119-124 | Sends what is pending as one batch, if anything is. |
| Advertising.AdvertisementBatches.Loop | components/bluetooth_proxy/bluetooth_proxy.cpp:139-149 | Flushes when 100 ms have passed on the wrapping clock, losing nothing. |
| BTHome.BuildBTHomePayload | components/bthome_advertiser/bthome_encoder.cpp:49-90 | Computes the payload: device information, then the known objects sorted by id, rounded, clamped and little-endian. |
| BTHome.PayloadRoundTrip | components/bthome_advertiser/bthome_encoder.cpp:49-90 | Decoding gives version 2, the encryption flag, and the known objects in ascending id order, those of each id in the order given and with their raw values. |
| BTHome.PayloadSays | components/bthome_advertiser/bthome_encoder.cpp:49-90 | A receiver that knows only the format learns version 2, the encryption flag, and in ascending order of ids, for every value given for a known id, the nearest value the object can carry (of two, the one further from zero); nothing for an unknown id. |
| BTHome.TableIsFormat | components/bthome_advertiser/bthome_encoder.cpp:17-47 | The encoder's table has the widths, signedness and scales of the format. |
| BTHome.DecodePayload | components/bthome_advertiser/bthome_encoder.cpp:58-88 | Decoding gives the readings of the stably sorted list. |
| BTHome.SamePayloadIff | components/bthome_advertiser/bthome_encoder.cpp:49-90 | Two lists give the same payload if and only if every id sends the same raw values in the same order. |
| BTHome.OrderDoesNotMatter | components/bthome_advertiser/bthome_encoder.cpp:51-53 | Lists with distinct ids give the same payload in any order. |
| BTHome.SortKeepsRaws | components/bthome_advertiser/bthome_encoder.cpp:51-53 | The sort keeps the order of values with the same id. |
| BTHome.SortSorts | components/bthome_advertiser/bthome_encoder.cpp:51-53 | The sort is ascending in the object id. |
| BTHome.RawIsNearest | components/bthome_advertiser/bthome_encoder.cpp:65-82 | The raw value sent stands for the representable value nearest to the one given. |
| BTHome.InRangeWithinHalfStep | components/bthome_advertiser/bthome_encoder.cpp:65-82 | An in-range value comes back within half a scale step. |
| BTHome.ReadBytes | components/bthome_advertiser/bthome_encoder.cpp:84-87 | The bytes sent read back as the raw value, sign included. |
| BTHome.ClampRaw | components/bthome_advertiser/bthome_encoder.cpp:69-82 | Clamping to the field's range. |
| BTHome.AppendObject | components/bthome_advertiser/bthome_encoder.cpp:84-87 | Appends the id and the shifted bytes of the 64-bit value, which are the two's complement bytes of the raw value. |
| Uuid.ParsePrinted | components/esp32_ble/ble_uuid.cpp:18-50 | Parsing the printed form of a UUID of 2, 4 or 16 bytes gives its 128-bit expansion. |
| Uuid.PrintParsed | components/esp32_ble/ble_uuid.h:131-139 | Printing a parsed canonical string gives it back in lower case. |
| Uuid.ParseShort | components/esp32_ble/ble_uuid.cpp:18-50 | A text with fewer than sixteen bytes' digits is stored as it reads, whatever odd digit or other text follows. |
| Uuid.ShortTextIffSymmetric | components/esp32_ble/ble_uuid.cpp:44-50 | A 16-bit UUID given as four digits is parsed as the one meant if and only if its two bytes are equal. |
| Uuid.FromUuidStr | components/esp32_ble/ble_uuid.cpp:18-50 | The nibble loop computes the parse of the hexadecimal digits. |
| Uuid.FromUuidUndoesGetUuid | components/esp32_ble/ble_uuid.h:77-104 | from_uuid undoes get_uuid if and only if the length is 2, 4 or 16. |
| Uuid.ExpansionIsBaseUuid | components/esp32_ble/ble_uuid.h:109-126 | The expansion is the short value in the top 32 bits of the Base UUID (section 2.5.1 of Core Specification Vol 3 Part B). |
| Uuid.PackedWordsAreExpansion | components/bluetooth_proxy/bluetooth_connection.cpp:21-36 | The proxy's two words, high word first, are the expansion. |
| ServerClients.InternKeeps | components/esp32_ble_server/ble_gatt_server.cpp:413-422 | Interning a path gives it an id and never changes one given before. |
| ServerClients.IdsFaithfulIff | components/esp32_ble_server/ble_gatt_server.cpp:413-422 | The ids are distinct and non-zero if and only if at most 65535 paths have been seen. |
| ServerClients.ClientsFollowEvents | components/esp32_ble_server/ble_server.cpp:134-149 | After any events the client list has no duplicates and holds exactly the ids whose last event was CONNECT, and the callbacks of each id alternate, on_connect first. |
| ServerClients.EventsFollowSignals | components/esp32_ble_server/ble_gatt_server.cpp:888-927 | While ids are faithful, an id's last event is its path's last signal. |
| ServerClients.ClientsAreConnectedPaths | components/esp32_ble_server/ble_server.cpp:58-72 | With at most 65535 paths, a path's id is in the client list exactly when the path's last signal was Connected=true. |
| ServerClients.EnumeratedAreConnected | components/esp32_ble_server/ble_gatt_server.cpp:293-349 | Start-up signals exactly the objects that report Connected, in order. |
| ServerClients.StartupClients | components/esp32_ble_server/ble_gatt_server.cpp:293-349 | A server that starts among connected centrals has exactly them as clients once its first events are handled. |
| ServerClients.GattServer.InternDevice | components/esp32_ble_server/ble_gatt_server.cpp:413-422 | The id table after interning, and the id returned. |
| ServerClients.GattServer.OnDeviceConnected | components/esp32_ble_server/ble_gatt_server.cpp:888-927 | One signal interns its path and posts one event with its id. |
| ServerClients.GattServer.EnumerateConnectedDevices | components/esp32_ble_server/ble_gatt_server.cpp:293-349 | Start-up is heard as exactly one Connected signal for each device already connected, in order. |
| ServerClients.GattServer.DrainEvents | components/esp32_ble_server/ble_gatt_server.cpp:401-406 | Hands over the whole queue and empties it. |
| ServerClients.BleServer.HostOnConnect | components/esp32_ble_server/ble_server.cpp:134-140 | Adds an absent id and calls back; a present one changes nothing. |
| ServerClients.BleServer.HostOnDisconnect | components/esp32_ble_server/ble_server.cpp:142-149 | Removes a present id and calls back; an absent one changes nothing. |
| ServerClients.BleServer.Loop | components/esp32_ble_server/ble_server.cpp:58-72 | Handles every queued event in order and empties the queue. |
| ExportedTree.PathInjective | components/esp32_ble_server/ble_gatt_server.cpp:210-252 | Two positions in the exported tree, of whatever kinds, share a path only if they are the same. |
| ExportedTree.ExportedPathsDistinct | components/esp32_ble_server/ble_gatt_server.cpp:210-252 | No two exported objects share a path. |
| ExportedTree.ListedIff | components/esp32_ble_server/ble_gatt_server.cpp:210-252 | Exported are exactly the services, the characteristics, and the descriptors that are not the CCCD, each with its UUID and at its number among its exported siblings. |
| ExportedTree.PathIsBelowParent | components/esp32_ble_server/ble_gatt_server.cpp:210-252 | An object's path is its parent's path and one more element, and the parent path is that of the object above it. |
| ExportedTree.CccdKeptBackIff | components/esp32_ble_server/ble_gatt_server.cpp:235-238 | The exported descriptors are free of the CCCD if and only if it is given in its 16-bit form only. |
| ExportedTree.LongCccdIsExported | components/esp32_ble_server/ble_gatt_server.cpp:235-238 | The 128-bit form is exported. |
| ExportedTree.BleGattServer.BuildTree | components/esp32_ble_server/ble_gatt_server.cpp:210-253 | Exports every service, characteristic and kept descriptor once, in order, with its path, its parent's path and its UUID. |
| ExportedTree.BleGattServer.ExportCharacteristics | components/esp32_ble_server/ble_gatt_server.cpp:220-249 | The same for the characteristics of one service. |
| ExportedTree.BleGattServer.ExportDescriptors | components/esp32_ble_server/ble_gatt_server.cpp:234-246 | The same for the descriptors of one characteristic, numbered without the ones held back. |
| ExportedTree.BleGattServer.FindDesc | components/esp32_ble_server/ble_gatt_server.cpp:434-439 | A descriptor is found by its own path and by no other. |
| ExportedTree.ServiceRegistry.GetService | components/esp32_ble_server/ble_server.cpp:119-125 | Finds the first entry with the UUID and instance id exactly when there is one. |
| ExportedTree.ServiceRegistry.CreateService | components/esp32_ble_server/ble_server.cpp:91-106 | Adds the least free instance id, keeping entries distinct; refuses exactly when all 255 are taken. |
| ExportedTree.ServiceRegistry.RemoveService | components/esp32_ble_server/ble_server.cpp:108-117 | Removes exactly that entry. |
| SseFrame.StreamRoundTrip | components/web_server_base/web_server_host.cpp:619-652 | A client that follows section 9.2.6 of the HTML Living Standard gets exactly the events pushed, in order, if and only if no message has a carriage return and no event name a carriage return or line feed. |
| SseFrame.FrameProcessed | components/web_server_base/web_server_host.cpp:619-652 | The lines of one frame dispatch one event with its name, data, id and reconnection time. |
| SseFrame.BuildSseFrame | components/web_server_base/web_server_host.cpp:619-652 | Builds the frame's lines; absent name, id and reconnection time leave none. |
| SseFrame.AppendData | components/web_server_base/web_server_host.cpp:637-649 | Each line of the message becomes a data line. |
| SseQueue.CoalescingIsFaithfulIff | components/web_server_base/web_server_host.cpp:659-689 | For any list of updates and any entry, every run with these updates that drains the queue on an open socket, and in which no update lands on an entry between generating and erasing it, shows the client of that entry what sending every update would show, presence included, if and only if the latest text of the entry is not empty or all its texts are empty. |
| SseQueue.DrainedIsCurrentIff | components/web_server_base/web_server_host.cpp:659-689 | In every run, wherever its updates land, a client drained on an open socket is current on an updated entry if and only if the entry's last text is empty, or its last update did not land between generating and erasing the entry, or the turn it landed in showed that text anyway; for a text that is not empty, being current is having what sending every update would show. |
| SseQueue.DrainedViewIsDirect | components/web_server_base/web_server_host.cpp:659-689 | When no update lands on a busy entry, the drained client shows the current text of every entry whose text is not empty. |
| SseQueue.QueueDistinct | components/web_server_base/web_server_host.cpp:659-666 | The queue never holds an entry twice. |
| SseQueue.BusyUpdateCurrentIff | components/web_server_base/web_server_host.cpp:676-689 | When an update lands on an entry that has been generated, sent or skipped, completing its turn leaves it unqueued, and the client current, if and only if the text is empty, or equals the one generated, or, when that one was empty, is already shown. |
| SseQueue.EmptyTextHidesUpdate | components/web_server_base/web_server_host.cpp:676-689 | An entry rendering empty is dropped, so an update that sending at once would have shown is never seen. |
| SseQueue.DrainIsRun | components/web_server_base/web_server_host.cpp:676-689 | The drain loop is an uninterrupted run of the step machine. |
| SseQueue.DrainDispatchesStates | components/web_server_base/web_server_host.cpp:676-689 | However many sends complete, the client dispatches exactly one "state" event for each non-empty text sent, in queue order, if and only if none of the texts has a carriage return. |
| SseQueue.EventSourceSession.DeqPushBackWithDedup | components/web_server_base/web_server_host.cpp:659-666 | Appends an entry that is not queued. |
| SseQueue.EventSourceSession.DeferrableSendState | components/web_server_base/web_server_host.cpp:668-674 | Queues the source with its generator. |
| SseQueue.EventSourceSession.SendRaw | components/web_server_base/web_server_host.cpp:607-617 | Succeeds exactly when the socket is open and the send completes; otherwise the socket ends closed and nothing is added. |
| SseQueue.EventSourceSession.ProcessDeferredQueue | components/web_server_base/web_server_host.cpp:676-689 | Sends and erases from the front until empty or a send fails, and the frames it wrote. |
| HttpRequest.Socket.ParseRequest | components/web_server_base/web_server_host.cpp:373-456 | Computes the request, or its refusal, from the chunks received, and leaves the chunks it has not read. |
| HttpRequest.Socket.ReceiveHead | components/web_server_base/web_server_host.cpp:376-388 | Reads until the blank line; too much data or the end of the stream fails. |
| HttpRequest.Socket.ReceiveBody | components/web_server_base/web_server_host.cpp:447-453 | Reads until the wanted length or the end of the stream. |
| HttpRequest.ParseHeaderBlock | components/web_server_base/web_server_host.cpp:390-435 | Request line and fields of a header block. |
| HttpRequest.LineReadIff | components/web_server_base/web_server_host.cpp:397-411 | A line is read as a method, path and query exactly when it is the method, a space, the target, a space and a rest, with no space in method or target, and the target is the path alone or path, question mark and query with no question mark in the path. |
| HttpRequest.ParseRequestLine | components/web_server_base/web_server_host.cpp:397-411 | Refuses exactly the lines with fewer than two spaces, and returns the one way to cut any other. |
| HttpRequest.ParseHeaders | components/web_server_base/web_server_host.cpp:418-435 | Adds the fields of the lines up to the first empty one, the last value of a name winning. |
| HttpRequest.AddField | components/web_server_base/web_server_host.cpp:427-434 | One field line: lower-case name, value without leading blanks; a line without a colon is skipped. |
| HttpRequest.StrtoulIff | components/web_server_base/web_server_host.cpp:438-446 | A Content-Length is taken exactly when it begins with a numeral of at most 64 bits (blanks, a sign, digits), with that numeral's value, negated in 64 bits after a minus sign. |
| HttpChunking.ChunkingIndependentIff | components/web_server_base/web_server_host.cpp:373-456 | For every stream, every chunking into 1 to 1024 bytes gives the request a parse of the whole stream gives, if and only if the head is missing, too long or unparsable in any case, or the stream ends with the declared body and the head cannot overrun the limit. |
| HttpChunking.DeclaredBodyIsRobust | components/web_server_base/web_server_host.cpp:373-456 | A stream of at most 32768 bytes with no more than its declared body is read the same in every chunking, with all of its body (sections 2.2 and 6 of RFC 9112). |
| HttpChunking.OneByteChunksMeetReference | components/web_server_base/web_server_host.cpp:380-453 | Delivered byte by byte, every stream gives the reference request. |
| HttpMessage.MessageReadIff | components/web_server_base/web_server_host.cpp:373-456 | A well-formed message of at most 32768 bytes is read, in every chunking, with its own meaning if and only if it has a field: the method of that name (any other name is ANY), the characters its path reads as, its query, the last value of each field under its name in small letters, lines without a colon left out, and its body; without a field it is refused. |
| HttpMessage.HeadersAreLastValues | components/web_server_base/web_server_host.cpp:418-435 | Each name, in small letters, has its last value, and there are no other names. |
| HttpMessage.MeaningIsUnique | components/web_server_base/web_server_host.cpp:373-456 | A message means one request only. |
| HttpMessage.DecimalIsRead | components/web_server_base/web_server_host.cpp:438-446 | A decimal Content-Length below 2^64 is read as its value. |
| Query.DecodeEncoded | components/web_server_base/web_server_host.cpp:53-80 | url_decode_ undoes the form encoding (section 5 of the URL Standard) of every octet string. |
| Query.DecodedIff | components/web_server_base/web_server_host.cpp:53-80 | Every text, malformed escapes included, reads in exactly one way as plus signs, escapes of two hexadecimal digits and plain characters, and url_decode_ gives what that says. |
| Query.UrlDecode | components/web_server_base/web_server_host.cpp:53-80 | The index loop computes the decoding. |
| Query.ScanIsSplitLookup | components/web_server_base/web_server_host.cpp:253-273 | For every non-empty key the index scan equals splitting on '&' and the first '=' and taking the first piece with the key. |
| Query.ScanFindsIff | components/web_server_base/web_server_host.cpp:253-273 | For every non-empty key: cut the source at its ampersands; the lookup finds the value that the first piece saying anything of the key (the key alone, or key, equals sign and encoded value) says. |
| Query.QueryThenBody | components/web_server_base/web_server_host.cpp:253-281 | A name the serializer leaves alone is looked up in the URL's list followed, when the content type names the form encoding, by the body's list: the first value under the name is found. |
| Query.EmptyKeyAgreesIff | components/web_server_base/web_server_host.cpp:255-272 | For the empty key they agree if and only if the last piece is not empty or an earlier piece has an empty name. |
| Query.EmptyKeyMissed | components/web_server_base/web_server_host.cpp:258-272 | A list ending in '&' shows the difference. |
| Query.ScanSerialized | components/web_server_base/web_server_host.cpp:253-273 | In any serialized parameter list the scan finds the decoded value of the first pair whose encoded name is the key. |
| Query.LookupFaithfulIff | components/web_server_base/web_server_host.cpp:263-268 | Lookup by name recovers the value from every serialized list if and only if every character of the name is one the serializer leaves as it is. |
| Query.Scan | components/web_server_base/web_server_host.cpp:255-273 | The loop computes the scan. |
| Query.HitAt | components/web_server_base/web_server_host.cpp:262-269 | The comparison at one piece. |
| Query.AsyncWebServerRequest.FindQueryValue | components/web_server_base/web_server_host.cpp:253-281 | The URL query first, then the body when the content type is the form type. |
| Query.AsyncWebServerRequest.GetParam | components/web_server_base/web_server_host.cpp:283-294 | Answers what the lookup says and remembers each name at most once, so remembered parameters stay right. |

## Left out

- sd-bus calls, vtables, message iteration, HCI socket set-up, eventfd and threads: replies, signals and the interleaving of threads are inputs; the walk starts from the flat object list.
- Advertising registration, adapter power cycling, pairing and its agent, logging and configuration dumps: the PAIR, passkey and bond commands only appear as commands that owe no read, write, notify or RSSI answer.
- D-Bus property parsing of scanned devices (parse_device1_props_): foreign containers; devices enter as values.
- GPIO, SPI, I2C, CAN, sysfs, 1-wire, time and MQTT wrappers: thin layers over the kernel or a library.
- Object lifetime and memory release order: trees are values; attach and detach of hosts (attach is not idempotent in the code) and a host whose slot is reused for another address are not modelled.
- Attribute values and names longer than 65535 bytes, whose length the events carry in 16 bits.
- Protobuf sizes: a parameter of the service stream, any base size and any size per service.
- A null bus in do_read_rssi_ and its siblings: the worker is modelled after the bus has been opened.
- Response writing, TLS and authentication hooks of the web server, and the ring-buffer sends below send_raw_: a send either completes or closes the socket.
- BTHome.BuildBTHomePayload: works on real numbers; rounding of doubles and values beyond the 64-bit range of llround are not modelled.
- BTHome.DecodePayload: the format has no way past an unknown id, so the reference decoder stops there; the encoder never sends one.
- ServiceStream.WireUuidIsExpansion: for UUIDs of 2, 4 and 16 bytes, the only lengths a discovered tree holds.
- HttpMessage.MessageReadIff: blanks after a value are part of it in the code, where RFC 9112 excludes them.
- HciReports.HandleLeMetaEvent: hands on each report's payload; parsing it is Advertising.ParseAdPayload and queueing it Tracker.BleTracker.DeliverDevice.
- ClientStates.BleClientBase.DispatchEvent: the RSSI callback and the hook that tells the proxy of a finished disconnect are calls into other objects; the proxy's side of the hook is ProxySlots.BluetoothProxy.OnDisconnectComplete.
- Discovery.GattIndex.WalkGattTree: a null bus and a failed GetManagedObjects call return before the walk; the model starts from the objects received.
- ProxySlots.BluetoothProxy.DeviceRequestConnect: the slot records only; the client states it checks and sets are those of ClientStates, and its API messages are not modelled.
- ProxySlots.BluetoothProxy.DeviceRequestDisconnect: the slot records only; disconnect() of a busy connection is ClientStates.BleClientBase.StartDisconnect, and its API messages are not modelled.
- ProxySlots.BluetoothProxy.OnDisconnectComplete: the slot records only; the cursor reset is ServiceStream.BluetoothConnection.OnDisconnected, and its API messages are not modelled.
- ExportedTree.BleGattServer.BuildTree: the property flags, primary flag and cached values copied into each exported object, and the links from an exported characteristic to its owner.
- ExportedTree.BleGattServer.ExportCharacteristics: the same fields.
- DiscoveryGuard.SignalHandlers.Handle: the two flags and the events; the handle map that Connected=false also clears is an input of GattProtocol, where it may change at any time.
- SseQueue.CoalescingIsFaithfulIff: for runs in which no update lands on a busy entry; DrainedIsCurrentIff is for all runs.
- SseQueue.DrainedViewIsDirect: for entries whose latest text is not empty; CoalescingIsFaithfulIff covers the others.
