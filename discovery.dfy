/** The discovery scheduler of `BluetoothService`: it starts and stops radio
    discovery, filters the peers it finds by name, rate-limits connection
    attempts per address, forgets stale peers and attempts, and retries
    with a linear backoff that resets after three attempts.

    The radio, the permission check, the application context and the power
    manager are inputs of the event methods (`adapterEnabled`, `permitted`,
    `radioStarted`, `powerSave`); the wall clock is the `now` parameter.
    `Handler.postDelayed` appends a `Delayed` record to `scheduled`, and a
    posted task runs when the environment calls `RunTask`. */
module Discovery {
  import opened Common
  import opened Messages
  import opened Link
  import opened Mesh

  const MAX_RETRY_COUNT: nat := 3
  const DISCOVERY_TIMEOUT: int := 30000
  const RETRY_DELAY_BASE: int := 1000
  const DISCOVERY_INTERVAL_NORMAL: int := 5000
  const DISCOVERY_INTERVAL_POWER_SAVE: int := 15000
  const CONNECTION_TIMEOUT: int := 10000
  const MAX_MESSAGE_SIZE: nat := 1024 * 1024
  /** Seconds a discoverability request asks for. */
  const DISCOVERABLE_DURATION: int := 300
  /** The name prefix every NearLink device advertises. */
  const APP_PREFIX: string := "NearLink_"

  /** The work the scheduler posts to its handler. */
  datatype Task =
    | StartDiscoveryTask    // `this::startDiscovery`, posted by a retry
    | ClearDiscoverable     // `isDiscoverable = false`, posted by a discoverability request
    | DiscoveryTimeoutTask  // the body of `scheduleDiscoveryTimeout`

  /** One `postDelayed(task, delay)`. */
  datatype Delayed = Delayed(delay: int, task: Task)

  /** The adapter states an `ACTION_STATE_CHANGED` broadcast can carry, as
      far as the scheduler tells them apart. */
  datatype AdapterState = AdapterOn | AdapterTurningOff | AdapterOff | AdapterOther

  // ---------------------------------------------------------------------
  // Retry policy

  /** The retry counter after one more failure: up by one below the
      ceiling, back to zero at it. */
  function NextRetryCount(count: nat): nat
  {
    if count < MAX_RETRY_COUNT then count + 1 else 0
  }

  /** The delay a retry from counter `count` schedules, if any. */
  function RetryDelay(count: nat): Option<int>
  {
    if count < MAX_RETRY_COUNT then Some(RETRY_DELAY_BASE * (count + 1)) else None
  }

  /** The handler work one retry posts. */
  function RetryPosts(count: nat): seq<Delayed>
  {
    match RetryDelay(count)
    case None => []
    case Some(d) => [Delayed(d, StartDiscoveryTask)]
  }

  /** The retry counter after `n` failures in a row. */
  function RetryCountAfter(count: nat, n: nat): nat
    decreases n
  {
    if n == 0 then count else RetryCountAfter(NextRetryCount(count), n - 1)
  }

  /** The delays `n` failures in a row schedule, oldest first. */
  function RetryDelays(count: nat, n: nat): seq<Option<int>>
    decreases n
  {
    if n == 0 then [] else [RetryDelay(count)] + RetryDelays(NextRetryCount(count), n - 1)
  }

  /** Every scheduled retry waits one base delay per attempt so far, so
      between one and three seconds, and it is scheduled exactly when the
      counter is below its ceiling. */
  lemma RetryDelayBounds(count: nat)
    requires count <= MAX_RETRY_COUNT
    ensures RetryDelay(count).Some? <==> count < MAX_RETRY_COUNT
    ensures RetryDelay(count).Some? ==>
      && RetryDelay(count).value == RETRY_DELAY_BASE * NextRetryCount(count)
      && RETRY_DELAY_BASE <= RetryDelay(count).value <= MAX_RETRY_COUNT * RETRY_DELAY_BASE
    ensures NextRetryCount(count) <= MAX_RETRY_COUNT
  {
  }

  /** The counter runs around the cycle 0, 1, 2, 3, 0, ... */
  lemma {:induction false} RetryCountCycles(count: nat, n: nat)
    requires count <= MAX_RETRY_COUNT
    ensures RetryCountAfter(count, n) == (count + n) % (MAX_RETRY_COUNT + 1)
    decreases n
  {
    if n > 0 {
      RetryCountCycles(NextRetryCount(count), n - 1);
    }
  }

  /** `a + b` failures schedule what `a` failures do, then what `b` more do
      from wherever the counter then stands. */
  lemma {:induction false} RetryDelaysSplit(count: nat, a: nat, b: nat)
    ensures RetryDelays(count, a + b) == RetryDelays(count, a) + RetryDelays(RetryCountAfter(count, a), b)
    decreases a
  {
    if a > 0 {
      RetryDelaysSplit(NextRetryCount(count), a - 1, b);
      assert a + b - 1 == (a - 1) + b;
    }
  }

  /** From a reset counter, failures in a row wait 1, 2 and 3 seconds, then
      the counter resets without scheduling anything. */
  lemma FirstRetryRound()
    ensures RetryDelays(0, 4) == [Some(1000), Some(2000), Some(3000), None]
    ensures RetryCountAfter(0, 4) == 0
  {
  }

  /** The policy is periodic: every four failures in a row repeat the same
      delays. */
  lemma {:induction false} RetryDelaysPeriodic(count: nat, n: nat)
    requires count <= MAX_RETRY_COUNT
    ensures RetryDelays(count, 4 + n) == RetryDelays(count, 4) + RetryDelays(count, n)
  {
    RetryDelaysSplit(count, 4, n);
    RetryCountCycles(count, 4);
  }

  // ---------------------------------------------------------------------
  // Rate limiting and expiry

  /** `canAttemptConnection` on the attempt records: no record, or the last
      attempt more than ten seconds ago. */
  predicate AttemptAllowed(attempts: map<string, int>, address: string, now: int)
  {
    address !in attempts || now - attempts[address] > CONNECTION_TIMEOUT
  }

  /** The attempt records the cleanup's `removeIf` keeps. */
  function PurgeAttempts(attempts: map<string, int>, now: int): (r: map<string, int>)
    ensures forall a :: a in r <==> a in attempts && now - attempts[a] <= CONNECTION_TIMEOUT
    ensures forall a :: a in r ==> r[a] == attempts[a]
  {
    map a | a in attempts && now - attempts[a] <= CONNECTION_TIMEOUT :: attempts[a]
  }

  /** Expiring attempt records never changes which connections are allowed
      at the same instant: exactly the records that no longer block anything
      are dropped. */
  lemma {:induction false} PurgeKeepsRateLimit(attempts: map<string, int>, address: string, now: int)
    ensures AttemptAllowed(PurgeAttempts(attempts, now), address, now) == AttemptAllowed(attempts, address, now)
  {
    var r := PurgeAttempts(attempts, now);
    if address in attempts && now - attempts[address] <= CONNECTION_TIMEOUT {
      assert address in r && r[address] == attempts[address];
    }
  }

  /** An attempt blocks any further attempt at the same address for ten
      seconds, and only for ten seconds; other addresses are unaffected. */
  lemma AttemptBlocksForTimeout(attempts: map<string, int>, address: string, now: int, later: int, other: string)
    requires other != address
    ensures !AttemptAllowed(attempts[address := now], address, later) <==> later - now <= CONNECTION_TIMEOUT
    ensures AttemptAllowed(attempts[address := now], other, later) == AttemptAllowed(attempts, other, later)
  {
  }

  // ---------------------------------------------------------------------
  // Peer filter, discoverability and interval

  /** `deviceName != null && deviceName.startsWith("NearLink_")`. */
  predicate IsAppDevice(name: Option<string>)
  {
    name.Some? && |APP_PREFIX| <= |name.value| && name.value[..|APP_PREFIX|] == APP_PREFIX
  }

  /** A device that renamed itself as `advertiseServiceUUID` does, the
      prefix followed by its adapter name, passes every peer's filter; a
      device without a name never does. */
  lemma {:induction false} AdvertisedNamePasses(adapterName: string)
    ensures IsAppDevice(Some(APP_PREFIX + adapterName))
    ensures !IsAppDevice(None)
  {
    assert (APP_PREFIX + adapterName)[..|APP_PREFIX|] == APP_PREFIX;
  }

  /** The skip rule of `makeDeviceDiscoverable`: still discoverable and the
      last request less than the duration minus ten seconds ago. */
  predicate SkipsDiscoverableRequest(isDiscoverable: bool, lastRequest: int, now: int)
  {
    isDiscoverable && now - lastRequest < DISCOVERABLE_DURATION * 1000 - 10000
  }

  /** `getDiscoveryInterval`: 15 seconds in power-save mode, 5 otherwise. */
  function DiscoveryInterval(powerSave: bool): int
  {
    if powerSave then DISCOVERY_INTERVAL_POWER_SAVE else DISCOVERY_INTERVAL_NORMAL
  }

  /** Power-save mode never shortens the wait between discoveries, and a
      request is skipped only within 290 seconds of the last one. */
  lemma {:induction false} IntervalAndSkipBounds(isDiscoverable: bool, lastRequest: int, now: int)
    ensures DiscoveryInterval(false) < DiscoveryInterval(true)
    ensures SkipsDiscoverableRequest(isDiscoverable, lastRequest, now) <==>
      isDiscoverable && now < lastRequest + 290000
  {
  }

  // ---------------------------------------------------------------------
  // Starting a discovery

  /** The fields of the service that a discovery start reads and writes. */
  datatype Schedule = Schedule(
    isDiscovering: bool,
    retryCount: nat,
    lastDiscoveryTime: int,
    lastDiscoverableRequestTime: int,
    scheduled: seq<Delayed>)

  /** What `startDiscovery` makes of the schedule `b`: nothing when the
      adapter is off, a discovery runs or permission is missing; otherwise a
      discoverability request when not discoverable, then either a started
      discovery (time recorded, timeout posted) or a failure, which applies
      the retry policy. */
  function StartEffect(b: Schedule, isDiscoverable: bool, now: int,
                       adapterEnabled: bool, permitted: bool, radioStarted: bool): (a: Schedule)
    ensures a.isDiscovering <==> b.isDiscovering || (adapterEnabled && permitted && radioStarted)
    ensures b.retryCount <= MAX_RETRY_COUNT ==> a.retryCount <= MAX_RETRY_COUNT
    ensures |b.scheduled| <= |a.scheduled| && a.scheduled[..|b.scheduled|] == b.scheduled
    ensures !b.isDiscovering && adapterEnabled && permitted && radioStarted ==>
      && a.lastDiscoveryTime == now && a.retryCount == b.retryCount
      && |a.scheduled| > |b.scheduled| && a.scheduled[|a.scheduled| - 1] == Delayed(DISCOVERY_TIMEOUT, DiscoveryTimeoutTask)
    ensures !b.isDiscovering && adapterEnabled && permitted && !radioStarted ==>
      a.lastDiscoveryTime == b.lastDiscoveryTime && a.retryCount == NextRetryCount(b.retryCount)
    ensures !(adapterEnabled && !b.isDiscovering && permitted) ==> a == b
  {
    if !(adapterEnabled && !b.isDiscovering && permitted) then b
    else
      var asked := if isDiscoverable then [] else [Delayed(DISCOVERABLE_DURATION * 1000, ClearDiscoverable)];
      var lastRequest := if isDiscoverable then b.lastDiscoverableRequestTime else now;
      if radioStarted then
        Schedule(true, b.retryCount, now, lastRequest,
                 b.scheduled + asked + [Delayed(DISCOVERY_TIMEOUT, DiscoveryTimeoutTask)])
      else
        Schedule(false, NextRetryCount(b.retryCount), b.lastDiscoveryTime, lastRequest,
                 b.scheduled + asked + RetryPosts(b.retryCount))
  }

  // ---------------------------------------------------------------------
  // The service

  class BluetoothService {
    const mesh: MeshNode
    /** `communicationService`, created and started by the constructor. */
    const comm: BluetoothCommunicationService
    /** `discoveredDevices`, keyed by address. */
    var discoveredDevices: map<string, DeviceInfo>
    /** `connectionAttempts`: address to the time of the last attempt. */
    var connectionAttempts: map<string, int>
    var isDiscovering: bool
    var retryCount: nat
    var lastDiscoveryTime: int
    var lastDiscoverableRequestTime: int
    var isDiscoverable: bool
    /** Everything posted to the handler, oldest first. */
    var scheduled: seq<Delayed>

    /** The counter never passes its ceiling, peers are filed under their
        own address, and the scheduler's link is not the node's. */
    ghost predicate Valid()
      reads this, mesh, mesh.link, comm
    {
      && retryCount <= MAX_RETRY_COUNT
      && KeyedByAddress(discoveredDevices)
      && comm != mesh.link
      && mesh.Valid()
      && comm.Valid()
    }

    /** The fields a discovery start reads and writes, as one value. */
    function Snapshot(): Schedule
      reads this`isDiscovering, this`retryCount, this`lastDiscoveryTime
      reads this`lastDiscoverableRequestTime, this`scheduled
    {
      Schedule(isDiscovering, retryCount, lastDiscoveryTime, lastDiscoverableRequestTime, scheduled)
    }

    /** The constructor: empty records, not discovering, not discoverable,
        and a started link service. */
    constructor (mesh: MeshNode)
      requires mesh.Valid()
      ensures Valid() && this.mesh == mesh && fresh(comm)
      ensures discoveredDevices == map[] && connectionAttempts == map[]
      ensures !isDiscovering && !isDiscoverable && retryCount == 0 && scheduled == []
      ensures comm.state == StateListen
    {
      var c := new BluetoothCommunicationService();
      c.Start();
      this.mesh := mesh;
      comm := c;
      discoveredDevices := map[];
      connectionAttempts := map[];
      isDiscovering := false;
      retryCount := 0;
      lastDiscoveryTime := 0;
      lastDiscoverableRequestTime := 0;
      isDiscoverable := false;
      scheduled := [];
    }

    /** `handleScanModeChanged`: discoverable exactly in the
        connectable-and-discoverable scan mode. */
    method HandleScanModeChanged(connectableDiscoverable: bool)
      modifies this`isDiscoverable
      ensures isDiscoverable == connectableDiscoverable
    {
      isDiscoverable := connectableDiscoverable;
    }

    /** `canAttemptConnection(address)` at time `now`. */
    predicate CanAttemptConnection(address: string, now: int)
      reads this`connectionAttempts
    {
      AttemptAllowed(connectionAttempts, address, now)
    }

    /** `checkPrerequisites`: the adapter is on and no discovery runs. */
    predicate CheckPrerequisites(adapterEnabled: bool)
      reads this`isDiscovering
    {
      adapterEnabled && !isDiscovering
    }

    /** `retryDiscovery`, and `retryConnection`, which is the same code on
        the same counter: below the ceiling, count the attempt and post a
        discovery start after one base delay per attempt; at the ceiling,
        reset the counter and post nothing. */
    method RetryDiscovery()
      requires retryCount <= MAX_RETRY_COUNT
      modifies this`retryCount, this`scheduled
      ensures retryCount == NextRetryCount(old(retryCount)) && retryCount <= MAX_RETRY_COUNT
      ensures scheduled == old(scheduled) + RetryPosts(old(retryCount))
    {
      if retryCount < MAX_RETRY_COUNT {
        retryCount := retryCount + 1;
        var delay := RETRY_DELAY_BASE * retryCount;
        scheduled := scheduled + [Delayed(delay, StartDiscoveryTask)];
      } else {
        retryCount := 0;
      }
    }

    /** `makeDeviceDiscoverable`: with permission, and unless the skip rule
        applies, ask the user for 300 seconds of discoverability, note the
        time, and post the reset of `isDiscoverable` for when it runs out. */
    method MakeDeviceDiscoverable(now: int, permitted: bool)
      modifies this`lastDiscoverableRequestTime, this`scheduled
      ensures permitted && !SkipsDiscoverableRequest(isDiscoverable, old(lastDiscoverableRequestTime), now) ==>
        && lastDiscoverableRequestTime == now
        && scheduled == old(scheduled) + [Delayed(DISCOVERABLE_DURATION * 1000, ClearDiscoverable)]
      ensures !(permitted && !SkipsDiscoverableRequest(isDiscoverable, old(lastDiscoverableRequestTime), now)) ==>
        lastDiscoverableRequestTime == old(lastDiscoverableRequestTime) && scheduled == old(scheduled)
    {
      if !permitted {
        return;
      }
      if isDiscoverable && now - lastDiscoverableRequestTime < DISCOVERABLE_DURATION * 1000 - 10000 {
        return;
      }
      lastDiscoverableRequestTime := now;
      scheduled := scheduled + [Delayed(DISCOVERABLE_DURATION * 1000, ClearDiscoverable)];
    }

    /** `handleDiscoveryFailure`: discovery is over; retry. */
    method HandleDiscoveryFailure()
      requires retryCount <= MAX_RETRY_COUNT
      modifies this`isDiscovering, this`retryCount, this`scheduled
      ensures !isDiscovering && retryCount == NextRetryCount(old(retryCount))
      ensures scheduled == old(scheduled) + RetryPosts(old(retryCount))
    {
      isDiscovering := false;
      RetryDiscovery();
    }

    /** `startDiscovery`: refuse when the adapter is off or a discovery
        runs, or without permission; otherwise ask for discoverability when
        not discoverable, and start the radio. A started discovery records
        the time and posts its timeout; a radio that refuses counts as a
        failure. */
    method StartDiscovery(now: int, adapterEnabled: bool, permitted: bool, radioStarted: bool) returns (started: bool)
      requires Valid()
      modifies this`isDiscovering, this`lastDiscoveryTime, this`lastDiscoverableRequestTime
      modifies this`retryCount, this`scheduled
      ensures Valid()
      ensures started <==> adapterEnabled && !old(isDiscovering) && permitted && radioStarted
      ensures isDiscovering == (old(isDiscovering) || started)
      ensures !(adapterEnabled && !old(isDiscovering) && permitted) ==>
        && scheduled == old(scheduled) && retryCount == old(retryCount)
        && lastDiscoveryTime == old(lastDiscoveryTime)
        && lastDiscoverableRequestTime == old(lastDiscoverableRequestTime)
      ensures adapterEnabled && !old(isDiscovering) && permitted ==>
        ghost var asked := if old(isDiscoverable) then [] else [Delayed(DISCOVERABLE_DURATION * 1000, ClearDiscoverable)];
        && lastDiscoverableRequestTime == (if old(isDiscoverable) then old(lastDiscoverableRequestTime) else now)
        && (started ==>
              && lastDiscoveryTime == now && retryCount == old(retryCount)
              && scheduled == old(scheduled) + asked + [Delayed(DISCOVERY_TIMEOUT, DiscoveryTimeoutTask)])
        && (!started ==>
              && lastDiscoveryTime == old(lastDiscoveryTime) && retryCount == NextRetryCount(old(retryCount))
              && scheduled == old(scheduled) + asked + RetryPosts(old(retryCount)))
      ensures Snapshot() == StartEffect(old(Snapshot()), isDiscoverable, now, adapterEnabled, permitted, radioStarted)
    {
      if !CheckPrerequisites(adapterEnabled) {
        return false;
      }
      if !permitted {
        return false;
      }
      if !isDiscoverable {
        MakeDeviceDiscoverable(now, permitted);
      }
      if radioStarted {
        isDiscovering := true;
        lastDiscoveryTime := now;
        scheduled := scheduled + [Delayed(DISCOVERY_TIMEOUT, DiscoveryTimeoutTask)];
        started := true;
      } else {
        HandleDiscoveryFailure();
        started := false;
      }
    }

    /** `stopDiscovery`: nothing unless a discovery runs; then it is over,
        the retry counter is reset and the link service is stopped. */
    method StopDiscovery()
      requires Valid()
      modifies this`isDiscovering, this`retryCount, comm
      ensures Valid()
      ensures !old(isDiscovering) ==> retryCount == old(retryCount) && unchanged(comm)
      ensures old(isDiscovering) ==>
        && retryCount == 0
        && comm.state == StateNone && comm.Slots() == {}
        && comm.cancelled == old(comm.cancelled) + old(comm.Slots())
        && comm.events == old(comm.events) + [StateChange(StateNone)]
      ensures !isDiscovering && comm.nextThread == old(comm.nextThread)
    {
      if !isDiscovering {
        return;
      }
      isDiscovering := false;
      retryCount := 0;
      comm.Stop();
    }

    /** `cleanupExpiredConnections`: forget peers unseen for 30 seconds and
        attempts older than 10 seconds. */
    method CleanupExpiredConnections(now: int)
      requires KeyedByAddress(discoveredDevices)
      modifies this`discoveredDevices, this`connectionAttempts
      ensures KeyedByAddress(discoveredDevices)
      ensures discoveredDevices == PurgeDevices(old(discoveredDevices), now, DISCOVERY_TIMEOUT)
      ensures connectionAttempts == PurgeAttempts(old(connectionAttempts), now)
      ensures forall a :: CanAttemptConnection(a, now) == old(CanAttemptConnection(a, now))
    {
      discoveredDevices := PurgeDevices(discoveredDevices, now, DISCOVERY_TIMEOUT);
      connectionAttempts := PurgeAttempts(connectionAttempts, now);
      forall a
        ensures CanAttemptConnection(a, now) == old(CanAttemptConnection(a, now))
      {
        PurgeKeepsRateLimit(old(connectionAttempts), a, now);
      }
    }

    /** `handleDiscoveryFinished`: discovery is over; retry once a full
        interval has passed since it started; always run the cleanup. */
    method HandleDiscoveryFinished(now: int, powerSave: bool)
      requires Valid()
      modifies this`isDiscovering, this`retryCount, this`scheduled
      modifies this`discoveredDevices, this`connectionAttempts
      ensures Valid()
      ensures !isDiscovering
      ensures now - lastDiscoveryTime >= DiscoveryInterval(powerSave) ==>
        retryCount == NextRetryCount(old(retryCount)) && scheduled == old(scheduled) + RetryPosts(old(retryCount))
      ensures now - lastDiscoveryTime < DiscoveryInterval(powerSave) ==>
        retryCount == old(retryCount) && scheduled == old(scheduled)
      ensures discoveredDevices == PurgeDevices(old(discoveredDevices), now, DISCOVERY_TIMEOUT)
      ensures connectionAttempts == PurgeAttempts(old(connectionAttempts), now)
    {
      isDiscovering := false;
      if now - lastDiscoveryTime >= DiscoveryInterval(powerSave) {
        RetryDiscovery();
      }
      CleanupExpiredConnections(now);
    }

    /** `handleDeviceFound` and `processNewDevice`: a peer without a name, or
        one whose name lacks the NearLink prefix, or one already known, is
        ignored. Otherwise, when the rate limit allows it, the link dials
        the peer and the attempt is recorded; in every case the peer is
        recorded as seen now and handed to the mesh node. */
    method HandleDeviceFound(address: string, name: Option<string>, now: int)
      requires Valid()
      modifies this`discoveredDevices, this`connectionAttempts, comm, mesh
      ensures Valid()
      ensures !(IsAppDevice(name) && address !in old(discoveredDevices)) ==>
        && discoveredDevices == old(discoveredDevices) && connectionAttempts == old(connectionAttempts)
        && unchanged(comm) && unchanged(mesh)
      ensures IsAppDevice(name) && address !in old(discoveredDevices) ==>
        && discoveredDevices == old(discoveredDevices)[address := DeviceInfo(address, name.value, now)]
        && mesh.nearbyDevices == PurgeDevices(old(mesh.nearbyDevices)[address := DeviceInfo(address, name.value, now)],
                                              now, LOCATION_TIMEOUT)
        && mesh.processedMessages == old(mesh.processedMessages) && mesh.queue == old(mesh.queue)
        && mesh.messageTimestamps == old(mesh.messageTimestamps) && mesh.messageCount == old(mesh.messageCount)
        && mesh.delivered == old(mesh.delivered) && mesh.hasListener == old(mesh.hasListener)
        && mesh.currentLocation == old(mesh.currentLocation) && mesh.isRunning == old(mesh.isRunning)
        && mesh.cleanupStuck == old(mesh.cleanupStuck)
      ensures IsAppDevice(name) && address !in old(discoveredDevices) && old(CanAttemptConnection(address, now)) ==>
        && connectionAttempts == old(connectionAttempts)[address := now]
        && comm.state == StateConnecting && comm.connectThread == Some(old(comm.nextThread))
        && comm.connectTargets == old(comm.connectTargets)[old(comm.nextThread) := address]
        && comm.events == old(comm.events) + [StateChange(StateConnecting)]
        && comm.connectedThread.None? && comm.acceptThread == old(comm.acceptThread)
        && comm.nextThread == old(comm.nextThread) + 1
        && comm.cancelled == old(comm.cancelled)
             + (if old(comm.state) == StateConnecting then Ids(old(comm.connectThread)) else {})
             + Ids(old(comm.connectedThread))
        && comm.buffer == old(comm.buffer)
      ensures !old(CanAttemptConnection(address, now)) ==>
        connectionAttempts == old(connectionAttempts) && unchanged(comm)
    {
      if !IsAppDevice(name) || address in discoveredDevices {
        return;
      }
      if CanAttemptConnection(address, now) {
        comm.Connect(address);
        connectionAttempts := connectionAttempts[address := now];
      }
      var info := DeviceInfo(address, name.value, now);
      discoveredDevices := discoveredDevices[address := info];
      mesh.HandleNewDevice(info, now);
    }

    /** One step of `sendMessage`'s loop: dial the peer, then write. The
        write comes while the link is CONNECTING, so it is dropped. */
    method ConnectAndWrite(address: string, data: Bytes)
      requires comm.Valid()
      modifies comm
      ensures comm.Valid()
      ensures comm.state == StateConnecting && comm.nextThread == old(comm.nextThread) + 1
      ensures comm.connectTargets.Values == old(comm.connectTargets.Values) + {address}
      ensures comm.events == old(comm.events) + [StateChange(StateConnecting)]
      ensures comm.buffer == old(comm.buffer) && comm.acceptThread == old(comm.acceptThread)
    {
      NewTargetValues(comm.connectTargets, comm.nextThread, address);
      comm.Connect(address);
      comm.Write(data);
    }

    /** `sendMessage`: `serialized` is the outcome of Java serialization,
        `None` when it throws. A message over one mebibyte is dropped;
        otherwise every discovered peer is dialed once, in some order, and
        each write that follows finds the link CONNECTING and is dropped. */
    method SendMessage(serialized: Option<Bytes>)
      requires Valid()
      modifies comm
      ensures Valid()
      ensures !(serialized.Some? && |serialized.value| <= MAX_MESSAGE_SIZE) ==> unchanged(comm)
      ensures serialized.Some? && |serialized.value| <= MAX_MESSAGE_SIZE ==>
        && comm.events == old(comm.events) + Copies(StateChange(StateConnecting), |discoveredDevices|)
        && comm.connectTargets.Values == old(comm.connectTargets.Values) + discoveredDevices.Keys
        && comm.buffer == old(comm.buffer) && comm.acceptThread == old(comm.acceptThread)
    {
      if serialized.None? || |serialized.value| > MAX_MESSAGE_SIZE {
        return;
      }
      DialAll(discoveredDevices, serialized.value);
    }

    /** The loop of `sendMessage`: dial and write to every peer of `peers`
        once, in some order. */
    method DialAll(peers: map<string, DeviceInfo>, data: Bytes)
      requires comm.Valid() && KeyedByAddress(peers)
      modifies comm
      ensures comm.Valid()
      ensures comm.events == old(comm.events) + Copies(StateChange(StateConnecting), |peers|)
      ensures comm.connectTargets.Values == old(comm.connectTargets.Values) + peers.Keys
      ensures comm.buffer == old(comm.buffer) && comm.acceptThread == old(comm.acceptThread)
    {
      var pending := peers.Keys;
      ghost var done: set<string> := {};
      ghost var events0 := comm.events;
      ghost var values0 := comm.connectTargets.Values;
      while pending != {}
        invariant comm.Valid()
        invariant Partition(peers.Keys, pending, done)
        invariant Dialed(events0, values0, done, comm.events, comm.connectTargets.Values)
        invariant comm.buffer == old(comm.buffer) && comm.acceptThread == old(comm.acceptThread)
        decreases |pending|
      {
        var a :| a in pending;
        ghost var events1, values1 := comm.events, comm.connectTargets.Values;
        ConnectAndWrite(peers[a].address, data);
        DialedStep(events0, values0, done, events1, values1, a);
        PartitionStep(peers.Keys, pending, done, a);
        pending := pending - {a};
        done := done + {a};
      }
      assert done == peers.Keys;
      CopiesTail(comm.events, events0, StateChange(StateConnecting), |peers|);
    }

    /** `handleReadMessage`: a frame the link decoded is rebroadcast through
        the mesh node; a null message is ignored. */
    method HandleReadMessage(m: Option<Message>, now: int) returns (added: bool)
      requires Valid()
      modifies mesh
      ensures Valid()
      ensures added <==> m.Some? && IsValidMessage(m.value, now) && m.value.id !in old(mesh.processedMessages)
                         && |old(mesh.queue)| < MAX_QUEUE_SIZE
      ensures added ==> mesh.queue == old(mesh.queue) + [m.value]
      ensures !added ==> unchanged(mesh)
    {
      added := false;
      if m.Some? {
        added := mesh.Broadcast(m.value, now);
      }
    }

    /** The handler runs a posted task: a retry starts discovery; the end
        of discoverability clears the flag; a discovery still running at
        its timeout is stopped and retried, which always posts a start one
        base delay later. */
    method RunTask(task: Task, now: int, adapterEnabled: bool, permitted: bool, radioStarted: bool)
      requires Valid()
      modifies this`isDiscovering, this`lastDiscoveryTime, this`lastDiscoverableRequestTime
      modifies this`retryCount, this`scheduled, this`isDiscoverable, comm
      ensures Valid()
      ensures task == ClearDiscoverable ==> !isDiscoverable && Snapshot() == old(Snapshot()) && unchanged(comm)
      ensures task == DiscoveryTimeoutTask && old(isDiscovering) ==>
        && !isDiscovering && retryCount == 1 && comm.state == StateNone && comm.Slots() == {}
        && comm.cancelled == old(comm.cancelled) + old(comm.Slots())
        && scheduled == old(scheduled) + [Delayed(RETRY_DELAY_BASE, StartDiscoveryTask)]
        && lastDiscoveryTime == old(lastDiscoveryTime)
        && lastDiscoverableRequestTime == old(lastDiscoverableRequestTime)
      ensures task == DiscoveryTimeoutTask && !old(isDiscovering) ==>
        Snapshot() == old(Snapshot()) && unchanged(comm)
      ensures task == StartDiscoveryTask ==>
        && (isDiscovering <==> old(isDiscovering) || (adapterEnabled && permitted && radioStarted))
        && Snapshot() == StartEffect(old(Snapshot()), old(isDiscoverable), now, adapterEnabled, permitted, radioStarted)
        && unchanged(comm)
      ensures task != ClearDiscoverable ==> isDiscoverable == old(isDiscoverable)
    {
      match task {
        case StartDiscoveryTask =>
          var _ := StartDiscovery(now, adapterEnabled, permitted, radioStarted);
        case ClearDiscoverable =>
          isDiscoverable := false;
        case DiscoveryTimeoutTask =>
          if isDiscovering {
            StopDiscovery();
            RetryDiscovery();
          }
      }
    }

    /** The link's handler, set up by `initializeCommunicationService`: a
        read frame goes to `handleReadMessage` as the object it decoded to
        (`decoded`); a toast is a connection error, and `retryConnection`
        then applies the retry policy to the same counter as
        `retryDiscovery`; state changes and device names are only logged and
        write reports are not handled. */
    method OnLinkEvent(e: HandlerEvent, decoded: Option<Message>, now: int)
      requires Valid()
      modifies this`retryCount, this`scheduled, mesh
      ensures Valid()
      ensures e.Toast? ==>
        && retryCount == NextRetryCount(old(retryCount))
        && scheduled == old(scheduled) + RetryPosts(old(retryCount))
        && unchanged(mesh)
      ensures e.MessageRead? ==>
        && retryCount == old(retryCount) && scheduled == old(scheduled)
        && if decoded.Some? && IsValidMessage(decoded.value, now)
              && decoded.value.id !in old(mesh.processedMessages) && |old(mesh.queue)| < MAX_QUEUE_SIZE
           then mesh.queue == old(mesh.queue) + [decoded.value]
           else unchanged(mesh)
      ensures !e.Toast? && !e.MessageRead? ==>
        retryCount == old(retryCount) && scheduled == old(scheduled) && unchanged(mesh)
    {
      match e {
        case Toast(_) =>
          RetryDiscovery();
        case MessageRead(_) =>
          var _ := HandleReadMessage(decoded, now);
        case StateChange(_) =>
        case DeviceName(_) =>
        case MessageWrite(_) =>
      }
    }

    /** `handleBluetoothStateChanged`: an adapter that came on starts a
        discovery unless one runs; an adapter going or gone off stops it. */
    method HandleBluetoothStateChanged(s: AdapterState, now: int, adapterEnabled: bool, permitted: bool,
                                       radioStarted: bool)
      requires Valid()
      modifies this`isDiscovering, this`lastDiscoveryTime, this`lastDiscoverableRequestTime
      modifies this`retryCount, this`scheduled, comm
      ensures Valid()
      ensures s == AdapterOn ==>
        && (isDiscovering <==> old(isDiscovering) || (adapterEnabled && permitted && radioStarted))
        && Snapshot() == StartEffect(old(Snapshot()), isDiscoverable, now, adapterEnabled, permitted, radioStarted)
        && unchanged(comm)
      ensures (s == AdapterOff || s == AdapterTurningOff) ==>
        && !isDiscovering && scheduled == old(scheduled)
        && lastDiscoveryTime == old(lastDiscoveryTime)
        && lastDiscoverableRequestTime == old(lastDiscoverableRequestTime)
        && (old(isDiscovering) ==> retryCount == 0 && comm.state == StateNone && comm.Slots() == {}
                                   && comm.cancelled == old(comm.cancelled) + old(comm.Slots()))
        && (!old(isDiscovering) ==> retryCount == old(retryCount) && unchanged(comm))
      ensures s == AdapterOther ==> Snapshot() == old(Snapshot()) && unchanged(comm)
    {
      match s {
        case AdapterOn =>
          if !isDiscovering {
            var _ := StartDiscovery(now, adapterEnabled, permitted, radioStarted);
          }
        case AdapterTurningOff =>
          StopDiscovery();
        case AdapterOff =>
          StopDiscovery();
        case AdapterOther =>
      }
    }

    /** `handleBondStateChanged`: a device that finished bonding is dialed;
        a missing device or any other bond state changes nothing. */
    method HandleBondStateChanged(device: Option<string>, bonded: bool)
      requires Valid()
      modifies comm
      ensures Valid()
      ensures device.Some? && bonded ==>
        && comm.state == StateConnecting && comm.connectThread == Some(old(comm.nextThread))
        && comm.connectTargets == old(comm.connectTargets)[old(comm.nextThread) := device.value]
        && comm.events == old(comm.events) + [StateChange(StateConnecting)]
        && comm.connectedThread.None? && comm.acceptThread == old(comm.acceptThread)
        && comm.nextThread == old(comm.nextThread) + 1
        && comm.cancelled == old(comm.cancelled)
             + (if old(comm.state) == StateConnecting then Ids(old(comm.connectThread)) else {})
             + Ids(old(comm.connectedThread))
        && comm.buffer == old(comm.buffer)
      ensures !(device.Some? && bonded) ==> unchanged(comm)
    {
      if device.None? || !bonded {
        return;
      }
      comm.Connect(device.value);
    }

    /** `getDiscoveredDeviceCount`. */
    function DiscoveredDeviceCount(): nat
      reads this`discoveredDevices
    {
      |discoveredDevices|
    }

    /** `isDeviceConnected`: whether the link is CONNECTED, whatever the
        address asked about. */
    predicate IsDeviceConnected(address: string)
      reads comm
    {
      comm.state == StateConnected
    }

    /** `disconnectDevice`: stop the link. */
    method DisconnectDevice()
      requires Valid()
      modifies comm
      ensures Valid()
      ensures comm.state == StateNone && comm.Slots() == {}
      ensures comm.cancelled == old(comm.cancelled) + old(comm.Slots())
      ensures forall a :: !IsDeviceConnected(a)
    {
      comm.Stop();
    }

    /** `resetConnections`: stop discovering, restart the link (which then
        listens with a fresh listening worker and nothing else) and start a
        discovery, which now succeeds exactly when the adapter is on, the
        permission is granted and the radio starts. */
    method ResetConnections(now: int, adapterEnabled: bool, permitted: bool, radioStarted: bool)
      returns (started: bool)
      requires Valid()
      modifies this`isDiscovering, this`lastDiscoveryTime, this`lastDiscoverableRequestTime
      modifies this`retryCount, this`scheduled, comm
      ensures Valid()
      ensures comm.state == StateListen && comm.connectThread.None? && comm.connectedThread.None?
      ensures comm.acceptThread.Some? && comm.acceptThread.value !in old(comm.Slots())
      ensures comm.cancelled == old(comm.cancelled) + old(comm.Slots())
      ensures started <==> adapterEnabled && permitted && radioStarted
      ensures isDiscovering == started
      ensures Snapshot() ==
        StartEffect(Schedule(false, if old(isDiscovering) then 0 else old(retryCount), old(lastDiscoveryTime),
                             old(lastDiscoverableRequestTime), old(scheduled)),
                    isDiscoverable, now, adapterEnabled, permitted, radioStarted)
    {
      ghost var first := comm.nextThread;
      assert forall t :: t in comm.Slots() ==> t < first;
      StopDiscovery();
      RestartLink();
      started := StartDiscovery(now, adapterEnabled, permitted, radioStarted);
    }

    /** `communicationService.stop()` followed by `start()`. */
    method RestartLink()
      requires Valid()
      modifies comm
      ensures Valid()
      ensures comm.state == StateListen && comm.connectThread.None? && comm.connectedThread.None?
      ensures comm.acceptThread == Some(old(comm.nextThread)) && old(comm.nextThread) !in old(comm.Slots())
      ensures comm.cancelled == old(comm.cancelled) + old(comm.Slots())
    {
      ghost var first := comm.nextThread;
      assert forall t :: t in comm.Slots() ==> t < first;
      comm.Stop();
      comm.Start();
      assert comm.acceptThread == Some(first);
    }
  }

  /** `sendMessage`'s loop state: one CONNECTING report per peer dialed so
      far, and exactly those peers added to the dialed addresses. */
  ghost predicate Dialed(events0: seq<HandlerEvent>, values0: set<string>, done: set<string>,
                         events: seq<HandlerEvent>, values: set<string>)
  {
    && |events| == |events0| + |done| && events[..|events0|] == events0
    && (forall i :: |events0| <= i < |events| ==> events[i] == StateChange(StateConnecting))
    && values == values0 + done
  }

  /** `pending` and `done` split `all`. */
  ghost predicate Partition(all: set<string>, pending: set<string>, done: set<string>)
  {
    pending + done == all && pending !! done
  }

  lemma PartitionStep(all: set<string>, pending: set<string>, done: set<string>, a: string)
    requires Partition(all, pending, done) && a in pending
    ensures Partition(all, pending - {a}, done + {a}) && a !in done && |pending - {a}| < |pending|
  {
  }

  lemma DialedStep(events0: seq<HandlerEvent>, values0: set<string>, done: set<string>,
                   events: seq<HandlerEvent>, values: set<string>, a: string)
    requires Dialed(events0, values0, done, events, values) && a !in done
    ensures Dialed(events0, values0, done + {a}, events + [StateChange(StateConnecting)], values + {a})
  {
    assert (events + [StateChange(StateConnecting)])[..|events0|] == events[..|events0|];
  }

  /** A key added under a fresh worker number adds its value to the values
      already dialed. */
  lemma {:induction false} NewTargetValues(m: map<nat, string>, k: nat, v: string)
    requires k !in m
    ensures m[k := v].Values == m.Values + {v}
  {
    var n := m[k := v];
    forall x | x in n.Values
      ensures x in m.Values + {v}
    {
      var j :| j in n && n[j] == x;
      if j != k {
        assert m[j] == x;
      }
    }
    forall x | x in m.Values + {v}
      ensures x in n.Values
    {
      if x == v {
        assert n[k] == x;
      } else {
        var j :| j in m && m[j] == x;
        assert n[j] == x;
      }
    }
  }
}
