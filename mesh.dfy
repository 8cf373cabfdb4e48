/** The relay engine (`MeshNode.java`): validates, deduplicates and queues
    messages, floods each one once per nearby device, feeds location messages
    into the location cache, and periodically expires and evicts its
    bookkeeping.

    The consumer thread is the event method `ProcessNext`, one turn of its
    loop; the periodic maintenance task is `CacheCleanupTick`. The listener is
    a flag plus the list of messages it has been handed. */
module Mesh {
  import opened Common
  import opened Messages
  import opened Cache
  import opened Link

  /** `MAX_QUEUE_SIZE`: capacity of the message queue. */
  const MAX_QUEUE_SIZE: nat := 1000
  /** `MAX_CACHE_SIZE`: the ceiling on `processedMessages`. */
  const MAX_CACHE_SIZE: nat := 10000
  /** `MESSAGE_TIMEOUT`: 30 seconds. */
  const MESSAGE_TIMEOUT: int := 30000
  /** `LOCATION_TIMEOUT`: 5 minutes; used for nearby devices. */
  const LOCATION_TIMEOUT: int := 300000
  /** The longest content `isValidMessage` admits. */
  const MAX_CONTENT_LENGTH: nat := 10240

  /** `isValidMessage` with the clock reading `now`. */
  predicate IsValidMessage(m: Message, now: int)
  {
    && m.content.Some?
    && m.senderId.Some?
    && m.senderId.value != ""
    && |m.content.value| <= MAX_CONTENT_LENGTH
    && now - m.timestamp <= MESSAGE_TIMEOUT
  }

  /** Ids whose timestamp the cleanup's `removeIf` drops. */
  function ExpiredIds(stamps: map<string, int>, now: int): set<string>
  {
    set k | k in stamps && now - stamps[k] > MESSAGE_TIMEOUT
  }

  /** The timestamps the cleanup's `removeIf` keeps. */
  function FreshStamps(stamps: map<string, int>, now: int): (r: map<string, int>)
    ensures r.Keys == stamps.Keys - ExpiredIds(stamps, now)
    ensures forall k :: k in r ==> r[k] == stamps[k] && now - r[k] <= MESSAGE_TIMEOUT
  {
    map k | k in stamps && now - stamps[k] <= MESSAGE_TIMEOUT :: stamps[k]
  }

  /** The keys `findOldestMessage` can return: those whose timestamp is below
      its starting value `Long.MAX_VALUE`. */
  function LiveKeys(stamps: map<string, int>): set<string>
  {
    set k | k in stamps && stamps[k] < LONG_MAX
  }

  /** The devices a `removeIf` on `lastSeen` keeps: those seen within the
      last `window` milliseconds, unchanged. */
  function PurgeDevices(devices: map<string, DeviceInfo>, now: int, window: int): (r: map<string, DeviceInfo>)
    ensures forall a :: a in r <==> a in devices && now - devices[a].lastSeen <= window
    ensures forall a :: a in r ==> r[a] == devices[a]
  {
    map a | a in devices && now - devices[a].lastSeen <= window :: devices[a]
  }

  /** Every device is recorded under its own address. */
  predicate KeyedByAddress(devices: map<string, DeviceInfo>)
  {
    forall a :: a in devices ==> devices[a].address == a
  }

  /** The per-peer dedup keys of one message: its id followed by the address. */
  function RelayKeys(id: string, addresses: set<string>): set<string>
  {
    set a | a in addresses :: id + a
  }

  /** The peers a relay of message `id` still writes to, given the keys
      already recorded. */
  function FreshTargets(keys: set<string>, id: string, addresses: set<string>): set<string>
  {
    set a | a in addresses && id + a !in keys
  }

  /** `count` copies of the same handler event. */
  function Copies(e: HandlerEvent, count: nat): (r: seq<HandlerEvent>)
    ensures |r| == count && forall i :: 0 <= i < count ==> r[i] == e
  {
    if count == 0 then [] else Copies(e, count - 1) + [e]
  }

  /** A sequence that extends `prefix` by `n` elements, each of them `e`, is
      `prefix` followed by `n` copies of `e`. */
  lemma CopiesTail(s: seq<HandlerEvent>, prefix: seq<HandlerEvent>, e: HandlerEvent, n: nat)
    requires |s| == |prefix| + n && s[..|prefix|] == prefix
    requires forall i :: |prefix| <= i < |s| ==> s[i] == e
    ensures s == prefix + Copies(e, n)
  {
    assert s == prefix + s[|prefix|..];
    assert s[|prefix|..] == Copies(e, n);
  }

  /** Two dedup keys of one message are equal only for the same address. */
  lemma {:induction false} ConcatInjective(id: string, a: string, b: string)
    requires id + a == id + b
    ensures a == b
  {
    assert a == (id + a)[|id|..];
    assert b == (id + b)[|id|..];
  }

  /** A subset is no larger than the set that holds it. */
  lemma {:induction false} SubsetCard<T>(a: set<T>, b: set<T>)
    requires a <= b
    ensures |a| <= |b|
    decreases |a|
  {
    if a != {} {
      var x :| x in a;
      SubsetCard(a - {x}, b - {x});
    }
  }

  /** The entries a relay of `m` adds: each new key maps to `m` itself. */
  function Tagged(keys: set<string>, m: Message): (r: map<string, Message>)
    ensures r.Keys == keys && forall k :: k in r ==> r[k] == m
  {
    map k | k in keys :: m
  }

  /** Recording one more key, absent so far, in the dedup map. */
  lemma TaggedStep(p0: map<string, Message>, added: set<string>, key: string, m: Message)
    requires key !in p0 && key !in added
    ensures (p0 + Tagged(added, m))[key := m] == p0 + Tagged(added + {key}, m)
  {
  }

  /** One more peer `a` for a relay of message `id` that has handled the
      peers `done`: its key is new among theirs, and `a` joins the
      written-to peers exactly when its key was absent at the start. */
  lemma {:induction false} RelayStep(keys: set<string>, id: string, done: set<string>, a: string)
    requires a !in done
    ensures id + a !in RelayKeys(id, done)
    ensures RelayKeys(id, done + {a}) == RelayKeys(id, done) + {id + a}
    ensures FreshTargets(keys, id, done + {a}) ==
      FreshTargets(keys, id, done) + (if id + a !in keys then {a} else {})
  {
    var key := id + a;
    if key in RelayKeys(id, done) {
      var b :| b in done && id + b == key;
      ConcatInjective(id, b, a);
      assert false;
    }
    assert RelayKeys(id, done + {a}) == RelayKeys(id, done) + {key};
    assert FreshTargets(keys, id, done + {a})
        == FreshTargets(keys, id, done) + (if key !in keys then {a} else {});
  }

  /** The peers listed in `w`. */
  function Elements(w: seq<string>): set<string>
  {
    set x | x in w
  }

  /** No peer is listed twice. */
  predicate Distinct(w: seq<string>)
    decreases |w|
  {
    w == [] || (w[|w| - 1] !in w[..|w| - 1] && Distinct(w[..|w| - 1]))
  }

  /** The dedup map of a relay of `m` that started from `p0` and has
      handled the peers `done`: one entry for `m` under each of their keys
      that was new. */
  ghost predicate Recorded(p0: map<string, Message>, m: Message, done: set<string>, processed: map<string, Message>)
  {
    processed == p0 + Tagged(RelayKeys(m.id, done) - p0.Keys, m)
  }

  /** `writtenTo` lists, once each, the handled peers whose key was new. */
  ghost predicate WrittenOnce(keys: set<string>, id: string, done: set<string>, writtenTo: seq<string>)
  {
    Elements(writtenTo) == FreshTargets(keys, id, done) && Distinct(writtenTo)
  }

  /** The link reported one `write` per peer in `writtenTo` after `events0`
      if it was connected, and nothing otherwise. */
  ghost predicate Reported(events0: seq<HandlerEvent>, write: HandlerEvent, connected: bool,
                           writtenTo: seq<string>, events: seq<HandlerEvent>)
  {
    && |events| == |events0| + (if connected then |writtenTo| else 0)
    && events[..|events0|] == events0
    && (forall i :: |events0| <= i < |events| ==> events[i] == write)
  }

  /** A relay of `m` that started from the dedup map `p0` and the link
      events `events0` has handled the peers `done`. */
  ghost predicate RelayedTo(p0: map<string, Message>, m: Message, events0: seq<HandlerEvent>,
                            write: HandlerEvent, connected: bool, done: set<string>,
                            processed: map<string, Message>, writtenTo: seq<string>, events: seq<HandlerEvent>)
  {
    && Recorded(p0, m, done, processed)
    && WrittenOnce(p0.Keys, m.id, done, writtenTo)
    && Reported(events0, write, connected, writtenTo, events)
  }

  /** One more peer for the dedup map: a new key gets an entry for `m`. */
  lemma RecordedStep(p0: map<string, Message>, m: Message, done: set<string>, processed: map<string, Message>, a: string)
    requires Recorded(p0, m, done, processed) && a !in done
    ensures m.id + a in processed <==> m.id + a in p0
    ensures m.id + a !in p0 ==> Recorded(p0, m, done + {a}, processed[m.id + a := m])
    ensures m.id + a in p0 ==> Recorded(p0, m, done + {a}, processed)
  {
    var key := m.id + a;
    var added := RelayKeys(m.id, done) - p0.Keys;
    RelayStep(p0.Keys, m.id, done, a);
    if key !in p0 {
      TaggedStep(p0, added, key, m);
      assert RelayKeys(m.id, done + {a}) - p0.Keys == added + {key};
    } else {
      assert RelayKeys(m.id, done + {a}) - p0.Keys == added;
    }
  }

  /** One more peer for the written-to list: it joins exactly when its key is new. */
  lemma WrittenOnceStep(keys: set<string>, id: string, done: set<string>, writtenTo: seq<string>, a: string)
    requires WrittenOnce(keys, id, done, writtenTo) && a !in done
    ensures id + a !in keys ==> WrittenOnce(keys, id, done + {a}, writtenTo + [a])
    ensures id + a in keys ==> WrittenOnce(keys, id, done + {a}, writtenTo)
  {
    RelayStep(keys, id, done, a);
    if id + a !in keys {
      var w := writtenTo + [a];
      assert w[..|w| - 1] == writtenTo;
      assert a !in Elements(writtenTo);
      assert Elements(w) == Elements(writtenTo) + {a};
    }
  }

  /** One more write reported for one more written-to peer. */
  lemma ReportedStep(events0: seq<HandlerEvent>, write: HandlerEvent, connected: bool,
                     writtenTo: seq<string>, events: seq<HandlerEvent>, a: string)
    requires Reported(events0, write, connected, writtenTo, events)
    ensures Reported(events0, write, connected, writtenTo + [a], events + (if connected then [write] else []))
  {
  }

  /** Handling one more peer keeps `RelayedTo`: a write and a new entry when
      the peer's key is new, nothing otherwise. */
  lemma RelayedToStep(p0: map<string, Message>, m: Message, events0: seq<HandlerEvent>,
                      write: HandlerEvent, connected: bool, done: set<string>,
                      processed: map<string, Message>, writtenTo: seq<string>,
                      events: seq<HandlerEvent>, a: string)
    requires RelayedTo(p0, m, events0, write, connected, done, processed, writtenTo, events) && a !in done
    ensures m.id + a in processed <==> m.id + a in p0
    ensures m.id + a !in p0 ==>
      RelayedTo(p0, m, events0, write, connected, done + {a}, processed[m.id + a := m], writtenTo + [a],
                events + (if connected then [write] else []))
    ensures m.id + a in p0 ==>
      RelayedTo(p0, m, events0, write, connected, done + {a}, processed, writtenTo, events)
  {
    RecordedStep(p0, m, done, processed, a);
    WrittenOnceStep(p0.Keys, m.id, done, writtenTo, a);
    ReportedStep(events0, write, connected, writtenTo, events, a);
  }

  /** A relay starts with no peer handled, nothing added, nothing written. */
  lemma RelayedToStart(p0: map<string, Message>, m: Message, events0: seq<HandlerEvent>,
                       write: HandlerEvent, connected: bool)
    ensures RelayedTo(p0, m, events0, write, connected, {}, p0, [], events0)
  {
    assert Tagged(RelayKeys(m.id, {}) - p0.Keys, m) == map[];
  }

  /** At the end of a relay one write went to each peer whose key was new. */
  lemma RelayedToEnd(p0: map<string, Message>, m: Message, events0: seq<HandlerEvent>,
                     write: HandlerEvent, connected: bool, done: set<string>,
                     processed: map<string, Message>, writtenTo: seq<string>, events: seq<HandlerEvent>)
    requires RelayedTo(p0, m, events0, write, connected, done, processed, writtenTo, events)
    ensures processed == p0 + Tagged(RelayKeys(m.id, done) - p0.Keys, m)
    ensures events == events0 + (if connected then Copies(write, |FreshTargets(p0.Keys, m.id, done)|) else [])
  {
    DistinctLength(writtenTo);
    CopiesTail(events, events0, write, if connected then |writtenTo| else 0);
  }

  /** A list without repetitions is as long as the set of its elements. */
  lemma {:induction false} DistinctLength(w: seq<string>)
    requires Distinct(w)
    ensures |w| == |Elements(w)|
    decreases |w|
  {
    if w != [] {
      var front := w[..|w| - 1];
      DistinctLength(front);
      assert Elements(w) == Elements(front) + {w[|w| - 1]};
    }
  }

  /** Distinct peers give distinct dedup keys, so a message has exactly one
      key per peer. */
  lemma {:induction false} RelayKeysCount(id: string, addresses: set<string>)
    ensures |RelayKeys(id, addresses)| == |addresses|
    decreases |addresses|
  {
    if addresses != {} {
      var a :| a in addresses;
      var rest := addresses - {a};
      RelayKeysCount(id, rest);
      assert RelayKeys(id, addresses) == RelayKeys(id, rest) + {id + a};
      if id + a in RelayKeys(id, rest) {
        var b :| b in rest && id + b == id + a;
        ConcatInjective(id, b, a);
        assert false;
      }
    }
  }

  /** Once a message has been relayed to a set of peers, relaying it to the
      same peers again writes to none of them. */
  lemma RelayOncePerPeer(keys: set<string>, id: string, addresses: set<string>)
    ensures FreshTargets(keys + RelayKeys(id, addresses), id, addresses) == {}
  {
    forall a | a in addresses
      ensures id + a in keys + RelayKeys(id, addresses)
    {
    }
  }

  // ---------------------------------------------------------------------
  // The dedup bookkeeping on values, as written and as evidently intended.
  // ---------------------------------------------------------------------

  /** Keys of `processedMessages` with no entry in `messageTimestamps`. */
  function Unstamped(keys: set<string>, stamps: map<string, int>): set<string>
  {
    keys - stamps.Keys
  }

  /** Keys added without a timestamp stay without one: the unstamped set
      grows by exactly the new keys. */
  lemma {:induction false} UnstampedGrowth(keys: set<string>, stamps: map<string, int>, added: set<string>)
    requires stamps.Keys <= keys && added !! keys
    ensures |Unstamped(keys + added, stamps)| == |Unstamped(keys, stamps)| + |added|
  {
    assert Unstamped(keys + added, stamps) == Unstamped(keys, stamps) + added;
  }

  /** Expiry works off the timestamps, so it never removes an unstamped key,
      and unstamped keys are out of `findOldestMessage`'s reach. */
  lemma {:induction false} UnstampedSurviveExpiry(keys: set<string>, stamps: map<string, int>, now: int)
    ensures Unstamped(keys, stamps) <= (keys - ExpiredIds(stamps, now)) - LiveKeys(FreshStamps(stamps, now))
  {
    forall k | k in Unstamped(keys, stamps)
      ensures k in (keys - ExpiredIds(stamps, now)) - LiveKeys(FreshStamps(stamps, now))
    {
      assert k !in stamps;
    }
  }

  /** As written: a relay records its keys in `processedMessages` only. No
      timestamp expiry ever removes them, each relay adds one such key per
      peer not already recorded, and once more than `MAX_CACHE_SIZE` of them
      exist the eviction loop can no longer bring the cache under its
      ceiling (see the `terminates` result of `CleanupCache`). */
  lemma {:induction false} RelayKeysPinEviction(keys: set<string>, stamps: map<string, int>,
                                                id: string, addresses: set<string>, now: int)
    requires stamps.Keys <= keys
    requires RelayKeys(id, addresses) !! keys
    ensures |Unstamped(keys + RelayKeys(id, addresses), stamps)| == |Unstamped(keys, stamps)| + |addresses|
    ensures |Unstamped(keys, stamps)| > MAX_CACHE_SIZE ==>
      |(keys - ExpiredIds(stamps, now)) - LiveKeys(FreshStamps(stamps, now))| > MAX_CACHE_SIZE
  {
    RelayKeysCount(id, addresses);
    UnstampedGrowth(keys, stamps, RelayKeys(id, addresses));
    UnstampedSurviveExpiry(keys, stamps, now);
    SubsetCard(Unstamped(keys, stamps), (keys - ExpiredIds(stamps, now)) - LiveKeys(FreshStamps(stamps, now)));
  }

  /** Every processed key carries a timestamp below `Long.MAX_VALUE`. */
  predicate FullyStamped(keys: set<string>, stamps: map<string, int>)
  {
    keys == stamps.Keys && forall k :: k in stamps ==> stamps[k] < LONG_MAX
  }

  /** Evidently intended: a relay stamps each key it records with the time of
      the relay, like `broadcastMessage` does for message ids. */
  function RecordRelayCorrected(stamps: map<string, int>, id: string, addresses: set<string>, now: int): (r: map<string, int>)
    ensures r.Keys == stamps.Keys + RelayKeys(id, addresses)
  {
    stamps + map k | k in RelayKeys(id, addresses) - stamps.Keys :: now
  }

  /** A corrected relay leaves every key stamped. */
  lemma CorrectedRelayStamps(keys: set<string>, stamps: map<string, int>,
                             id: string, addresses: set<string>, now: int)
    requires FullyStamped(keys, stamps) && now < LONG_MAX
    ensures FullyStamped(keys + RelayKeys(id, addresses), RecordRelayCorrected(stamps, id, addresses, now))
  {
    var r := RecordRelayCorrected(stamps, id, addresses, now);
    forall k | k in r ensures r[k] < LONG_MAX {
      if k !in stamps {
        assert r[k] == now;
      }
    }
  }

  /** A broadcast stamps the id it records. */
  lemma BroadcastStamps(keys: set<string>, stamps: map<string, int>, id: string, now: int)
    requires FullyStamped(keys, stamps) && now < LONG_MAX
    ensures FullyStamped(keys + {id}, stamps[id := now])
  {
  }

  /** Expiry leaves every surviving key stamped, so none is out of
      `findOldestMessage`'s reach. */
  lemma ExpiryKeepsStamps(keys: set<string>, stamps: map<string, int>, later: int)
    requires FullyStamped(keys, stamps)
    ensures FullyStamped(keys - ExpiredIds(stamps, later), FreshStamps(stamps, later))
    ensures (keys - ExpiredIds(stamps, later)) - LiveKeys(FreshStamps(stamps, later)) == {}
  {
    var kept := FreshStamps(stamps, later);
    forall k | k in keys - ExpiredIds(stamps, later) ensures k in LiveKeys(kept) {
      assert k in kept;
    }
  }

  /** With relay keys stamped, every key stays stamped through broadcasts,
      relays and expiry, so after expiry no key is beyond the reach of
      `findOldestMessage` and the eviction loop always terminates (the
      bound of `CleanupCache` below is met). */
  lemma CorrectedRelayKeepsEvictionTerminating(keys: set<string>, stamps: map<string, int>,
                                               id: string, addresses: set<string>, now: int, later: int)
    requires FullyStamped(keys, stamps) && now < LONG_MAX
    ensures FullyStamped(keys + RelayKeys(id, addresses), RecordRelayCorrected(stamps, id, addresses, now))
    ensures FullyStamped(keys + {id}, stamps[id := now])
    ensures FullyStamped(keys - ExpiredIds(stamps, later), FreshStamps(stamps, later))
    ensures (keys - ExpiredIds(stamps, later)) - LiveKeys(FreshStamps(stamps, later)) == {}
  {
    CorrectedRelayStamps(keys, stamps, id, addresses, now);
    BroadcastStamps(keys, stamps, id, now);
    ExpiryKeepsStamps(keys, stamps, later);
  }

  /** The eviction loop of a cleanup that started from the dedup map
      `processed1` and timestamps `stamps1` has removed the ids `evicted`
      from both, each of them stamped and none of them younger than an id
      still stamped. */
  ghost predicate Evicting(processed1: map<string, Message>, stamps1: map<string, int>, evicted: set<string>,
                           processed: map<string, Message>, stamps: map<string, int>)
  {
    && evicted <= LiveKeys(stamps1)
    && processed == processed1 - evicted
    && stamps == stamps1 - evicted
    && (forall k, j :: k in evicted && j in stamps ==> stamps1[k] <= stamps[j])
  }

  /** Evicting the oldest stamped id keeps `Evicting` and shrinks the map by one. */
  lemma EvictOne(processed1: map<string, Message>, stamps1: map<string, int>, evicted: set<string>,
                 processed: map<string, Message>, stamps: map<string, int>, k: string)
    requires stamps1.Keys <= processed1.Keys
    requires Evicting(processed1, stamps1, evicted, processed, stamps)
    requires k in LiveKeys(stamps) && forall j :: j in stamps ==> stamps[k] <= stamps[j]
    ensures Evicting(processed1, stamps1, evicted + {k}, processed - {k}, stamps - {k})
    ensures |processed - {k}| == |processed| - 1
    ensures |stamps - {k}| < |stamps|
  {
    assert k in processed;
    assert (processed - {k}).Keys == processed.Keys - {k};
    assert (stamps - {k}).Keys == stamps.Keys - {k};
    assert processed - {k} == processed1 - (evicted + {k});
    assert stamps - {k} == stamps1 - (evicted + {k});
  }

  /** When no stamped id is left below `Long.MAX_VALUE`, every stamped id has
      been evicted. */
  lemma EvictionExhausted(processed1: map<string, Message>, stamps1: map<string, int>, evicted: set<string>,
                          processed: map<string, Message>, stamps: map<string, int>)
    requires Evicting(processed1, stamps1, evicted, processed, stamps)
    requires LiveKeys(stamps) == {}
    ensures evicted == LiveKeys(stamps1)
  {
    forall k | k in LiveKeys(stamps1) ensures k in evicted {
      assert k !in LiveKeys(stamps);
    }
  }

  /** Taking a part `e` of `l` out of `p` leaves at least the part of `p`
      outside `l`. */
  lemma RemovedWithin<T>(p: set<T>, e: set<T>, l: set<T>)
    requires e <= l
    ensures |p - l| <= |p - e|
  {
    SubsetCard(p - l, p - e);
  }

  /** Taking a subset out of a set lowers its size by the subset's size. */
  lemma RemovedCount<T>(p: set<T>, e: set<T>)
    requires e <= p
    ensures |p - e| == |p| - |e|
  {
    assert p == (p - e) + e;
  }

  /** `k` is a stamped id below `Long.MAX_VALUE` with no older id beside it. */
  ghost predicate Oldest(stamps: map<string, int>, k: string)
  {
    k in LiveKeys(stamps) && forall j :: j in stamps ==> stamps[k] <= stamps[j]
  }

  /** The eviction loop's state: `Evicting`, and once anything was evicted
      the map had been over its ceiling and is not yet below it. */
  ghost predicate EvictLoop(processed1: map<string, Message>, stamps1: map<string, int>, evicted: set<string>,
                            processed: map<string, Message>, stamps: map<string, int>)
  {
    && stamps1.Keys <= processed1.Keys
    && Evicting(processed1, stamps1, evicted, processed, stamps)
    && (evicted != {} ==> |processed| >= MAX_CACHE_SIZE)
  }

  /** One turn of the eviction loop on an over-full map keeps `EvictLoop`
      and strictly shrinks the timestamps. */
  lemma EvictLoopStep(processed1: map<string, Message>, stamps1: map<string, int>, evicted: set<string>,
                      processed: map<string, Message>, stamps: map<string, int>, k: string)
    requires EvictLoop(processed1, stamps1, evicted, processed, stamps)
    requires |processed| > MAX_CACHE_SIZE
    requires Oldest(stamps, k)
    ensures EvictLoop(processed1, stamps1, evicted + {k}, processed - {k}, stamps - {k})
    ensures |stamps - {k}| < |stamps|
  {
    EvictOne(processed1, stamps1, evicted, processed, stamps, k);
  }

  /** No id stamped in `stamps` is older than time `t`. */
  ghost predicate NoYounger(t: int, stamps: map<string, int>)
  {
    forall j :: j in stamps ==> t <= stamps[j]
  }

  /** What a cleanup's eviction loop leaves behind, starting from the dedup
      map `processed1` and timestamps `stamps1`: some stamped ids were removed
      from both maps, never one younger than a survivor; the loop stops
      exactly when the ids `findOldestMessage` cannot reach number at most
      10000, and then the map holds `min(|processed1|, 10000)` entries;
      otherwise it spins with every reachable id evicted. */
  ghost predicate Evicted(processed1: map<string, Message>, stamps1: map<string, int>, terminates: bool,
                          processed: map<string, Message>, stamps: map<string, int>)
  {
    var evicted := processed1.Keys - processed.Keys;
    && processed == processed1 - evicted
    && stamps == stamps1 - evicted
    && evicted <= LiveKeys(stamps1)
    && (forall k :: k in evicted ==> NoYounger(stamps1[k], stamps))
    && (terminates <==> |processed1.Keys - LiveKeys(stamps1)| <= MAX_CACHE_SIZE)
    && (terminates ==> |processed| == Min(|processed1|, MAX_CACHE_SIZE))
    && (!terminates ==> evicted == LiveKeys(stamps1))
  }

  /** The end state of one cleanup at time `now`: the expired ids are gone,
      the rest evicted as `Evicted` says, and devices unseen for five minutes
      dropped. */
  ghost predicate CleanedUp(processed0: map<string, Message>, stamps0: map<string, int>,
                            devices0: map<string, DeviceInfo>, now: int, terminates: bool,
                            processed: map<string, Message>, stamps: map<string, int>,
                            devices: map<string, DeviceInfo>)
  {
    && Evicted(processed0 - ExpiredIds(stamps0, now), FreshStamps(stamps0, now), terminates, processed, stamps)
    && devices == PurgeDevices(devices0, now, LOCATION_TIMEOUT)
  }

  /** The loop leaves `Evicted` behind whether it stops because the map is
      small enough or spins because no stamped id is left. */
  lemma {:induction false} EvictLoopEnd(processed1: map<string, Message>, stamps1: map<string, int>, evicted: set<string>,
                                        processed: map<string, Message>, stamps: map<string, int>, terminates: bool)
    requires EvictLoop(processed1, stamps1, evicted, processed, stamps)
    requires terminates ==> |processed| <= MAX_CACHE_SIZE
    requires !terminates ==> |processed| > MAX_CACHE_SIZE && LiveKeys(stamps) == {}
    ensures Evicted(processed1, stamps1, terminates, processed, stamps)
    ensures stamps.Keys <= processed.Keys
  {
    assert processed.Keys == processed1.Keys - evicted;
    assert evicted <= processed1.Keys;
    assert processed1.Keys - processed.Keys == evicted;
    RemovedWithin(processed1.Keys, evicted, LiveKeys(stamps1));
    RemovedCount(processed1.Keys, evicted);
    if !terminates {
      EvictionExhausted(processed1, stamps1, evicted, processed, stamps);
      assert processed.Keys == processed1.Keys - LiveKeys(stamps1);
    }
  }

  class MeshNode {
    const nodeId: string
    const cache: LocationCache
    /** The node's own link service, created by `initializeBluetoothService`. */
    const link: BluetoothCommunicationService
    /** `messageQueue`, head first. */
    var queue: seq<Message>
    var processedMessages: map<string, Message>
    var messageTimestamps: map<string, int>
    /** `nearbyDevices`, keyed by device address. */
    var nearbyDevices: map<string, DeviceInfo>
    var messageCount: nat
    /** `messageListener != null`. */
    var hasListener: bool
    /** Every message handed to `onMessageReceived`, oldest first. */
    var delivered: seq<Message>
    var currentLocation: Option<Location>
    var isRunning: bool
    /** The maintenance task's single scheduler thread is caught in an
        eviction loop that never ends, so no later run of the task starts. */
    var cleanupStuck: bool

    ghost predicate Valid()
      reads this`queue, this`processedMessages, this`messageTimestamps, this`nearbyDevices, link
    {
      && |queue| <= MAX_QUEUE_SIZE
      && messageTimestamps.Keys <= processedMessages.Keys
      && KeyedByAddress(nearbyDevices)
      && link.Valid()
    }

    constructor (nodeId: string)
      ensures Valid() && fresh(cache) && fresh(link)
      ensures this.nodeId == nodeId && queue == [] && processedMessages == map[]
      ensures messageTimestamps == map[] && nearbyDevices == map[] && messageCount == 0
      ensures !hasListener && delivered == [] && currentLocation.None? && isRunning && !cleanupStuck
      ensures cache.userLocations == map[] && link.state == StateNone
    {
      this.nodeId := nodeId;
      cache := new LocationCache();
      link := new BluetoothCommunicationService();
      queue := [];
      processedMessages := map[];
      messageTimestamps := map[];
      nearbyDevices := map[];
      messageCount := 0;
      hasListener := false;
      delivered := [];
      currentLocation := None;
      isRunning := true;
      cleanupStuck := false;
    }

    /** `broadcastMessage`: reject invalid or already-known messages; offer
        the message to the bounded queue, which fails closed when full; only
        on success record its id and the time, count it, and hand a
        non-location message to the listener. */
    method Broadcast(m: Message, now: int) returns (added: bool)
      requires Valid()
      modifies this
      ensures Valid()
      ensures added <==>
        IsValidMessage(m, now) && m.id !in old(processedMessages) && |old(queue)| < MAX_QUEUE_SIZE
      ensures added ==>
        && queue == old(queue) + [m]
        && processedMessages == old(processedMessages)[m.id := m]
        && messageTimestamps == old(messageTimestamps)[m.id := now]
        && messageCount == old(messageCount) + 1
        && delivered == old(delivered) + (if !m.IsLocationMessage() && hasListener then [m] else [])
      ensures !added ==> unchanged(this)
      ensures nearbyDevices == old(nearbyDevices) && hasListener == old(hasListener)
      ensures currentLocation == old(currentLocation) && isRunning == old(isRunning)
      ensures cleanupStuck == old(cleanupStuck)
    {
      if !IsValidMessage(m, now) {
        return false;
      }
      if m.id in processedMessages {
        return false;
      }
      added := |queue| < MAX_QUEUE_SIZE;
      if added {
        queue := queue + [m];
        processedMessages := processedMessages[m.id := m];
        messageTimestamps := messageTimestamps[m.id := now];
        messageCount := messageCount + 1;
        if !m.IsLocationMessage() && hasListener {
          delivered := delivered + [m];
        }
      }
    }

    /** `setMessageListener`: a single slot; null clears it. */
    method SetMessageListener(present: bool)
      modifies this
      ensures hasListener == present
      ensures queue == old(queue) && processedMessages == old(processedMessages)
      ensures messageTimestamps == old(messageTimestamps) && nearbyDevices == old(nearbyDevices)
      ensures messageCount == old(messageCount) && delivered == old(delivered)
      ensures currentLocation == old(currentLocation) && isRunning == old(isRunning)
      ensures cleanupStuck == old(cleanupStuck)
    {
      hasListener := present;
    }

    /** `relayMessageToNearbyNodes`: for each nearby device whose dedup key
        (message id followed by address) is not yet recorded, write the
        serialized message and record the key. `encoded` is the outcome of
        serialization; `None` is the `IOException` that abandons the relay.
        The keys get no timestamp. */
    method RelayMessageToNearbyNodes(m: Message, encoded: Option<Bytes>)
      modifies this`processedMessages, link`events
      ensures encoded.None? ==> processedMessages == old(processedMessages) && link.events == old(link.events)
      ensures encoded.Some? ==>
        && processedMessages == old(processedMessages) +
             Tagged(RelayKeys(m.id, nearbyDevices.Keys) - old(processedMessages.Keys), m)
        && link.events == old(link.events) +
             (if link.state == StateConnected
              then Copies(MessageWrite(encoded.value), |FreshTargets(old(processedMessages.Keys), m.id, nearbyDevices.Keys)|)
              else [])
    {
      if encoded.None? {
        return;
      }
      var data := encoded.value;
      ghost var p0 := processedMessages;
      ghost var connected := link.state == StateConnected;
      ghost var events0 := link.events;
      var pending := nearbyDevices.Keys;
      ghost var done: set<string> := {};
      ghost var writtenTo: seq<string> := [];
      RelayedToStart(p0, m, events0, MessageWrite(data), connected);
      while pending != {}
        invariant pending + done == nearbyDevices.Keys && pending !! done
        invariant connected == (link.state == StateConnected)
        invariant RelayedTo(p0, m, events0, MessageWrite(data), connected,
                            done, processedMessages, writtenTo, link.events)
        decreases pending
      {
        var a :| a in pending;
        RelayedToStep(p0, m, events0, MessageWrite(data), connected,
                      done, processedMessages, writtenTo, link.events, a);
        if m.id + a !in processedMessages {
          writtenTo := writtenTo + [a];
        }
        RelayToPeer(m, a, data);
        pending := pending - {a};
        done := done + {a};
      }
      RelayedToEnd(p0, m, events0, MessageWrite(data), connected,
                   done, processedMessages, writtenTo, link.events);
    }

    /** The relay loop's body for one peer: a key not yet in the dedup map is
        recorded there and the encoded message is written to the link; a key
        already there changes nothing. */
    method RelayToPeer(m: Message, address: string, data: Bytes)
      modifies this`processedMessages, link`events
      ensures m.id + address in old(processedMessages) ==>
        processedMessages == old(processedMessages) && link.events == old(link.events)
      ensures m.id + address !in old(processedMessages) ==>
        && processedMessages == old(processedMessages)[m.id + address := m]
        && link.events == old(link.events) + (if link.state == StateConnected then [MessageWrite(data)] else [])
    {
      var key := m.id + address;
      if key !in processedMessages {
        processedMessages := processedMessages[key := m];
        link.Write(data);
      }
    }

    /** `processMessage`: while the ceiling allows, count one more hop and
        relay; a location message then writes (user, location, update time)
        into the cache whether or not it was relayed. */
    method ProcessMessage(m: Message, encoded: Option<Bytes>)
      requires Valid()
      modifies this`processedMessages, link`events, cache, m
      ensures Valid()
      ensures m.hopCount == HopStep(old(m.hopCount))
      ensures old(m.hopCount) >= MAX_HOPS ==>
        processedMessages == old(processedMessages) && link.events == old(link.events)
      ensures old(m.hopCount) < MAX_HOPS && encoded.None? ==>
        processedMessages == old(processedMessages) && link.events == old(link.events)
      ensures old(m.hopCount) < MAX_HOPS && encoded.Some? ==>
        && processedMessages == old(processedMessages) +
             Tagged(RelayKeys(m.id, nearbyDevices.Keys) - old(processedMessages.Keys), m)
        && processedMessages.Keys == old(processedMessages.Keys) + RelayKeys(m.id, nearbyDevices.Keys)
        && link.events == old(link.events) +
             (if link.state == StateConnected
              then Copies(MessageWrite(encoded.value), |FreshTargets(old(processedMessages.Keys), m.id, nearbyDevices.Keys)|)
              else [])
      ensures cache.userLocations ==
        if m.IsLocationMessage()
        then old(cache.userLocations)[m.kind.userId := LocationInfo(m.kind.location, m.kind.updateTime)]
        else old(cache.userLocations)
      ensures messageTimestamps == old(messageTimestamps) && queue == old(queue)
      ensures nearbyDevices == old(nearbyDevices) && messageCount == old(messageCount)
      ensures delivered == old(delivered) && link.state == old(link.state)
      ensures isRunning == old(isRunning) && hasListener == old(hasListener)
      ensures currentLocation == old(currentLocation) && cleanupStuck == old(cleanupStuck)
      ensures unchanged(link`state, link`acceptThread, link`connectThread, link`connectedThread, link`nextThread,
                          link`cancelled, link`connectTargets, link`buffer)
    {
      if m.CanBeRelayed() {
        m.IncrementHopCount();
        RelayMessageToNearbyNodes(m, encoded);
      }
      if m.IsLocationMessage() {
        cache.UpdateLocation(m.kind.userId, m.kind.location, m.kind.updateTime);
      }
    }

    /** One turn of the consumer thread: while running, take the head of the
        queue (a timed-out poll finds none) and process it. */
    method ProcessNext(encoded: Option<Bytes>) returns (processed: Option<Message>)
      requires Valid()
      modifies this`queue, this`processedMessages, link`events, cache, if queue == [] then {} else {queue[0]}
      ensures Valid()
      ensures (!old(isRunning) || old(queue) == []) ==>
        processed.None? && unchanged(this) && unchanged(link) && unchanged(cache)
      ensures old(isRunning) && old(queue) != [] ==>
        var m := old(queue)[0];
        && processed == Some(m) && queue == old(queue)[1..]
        && m.hopCount == HopStep(old(m.hopCount))
        && (old(m.hopCount) >= MAX_HOPS || encoded.None? ==>
              processedMessages == old(processedMessages) && link.events == old(link.events))
        && (old(m.hopCount) < MAX_HOPS && encoded.Some? ==>
              && processedMessages == old(processedMessages) +
                   Tagged(RelayKeys(m.id, nearbyDevices.Keys) - old(processedMessages.Keys), m)
              && link.events == old(link.events) +
                   (if link.state == StateConnected
                    then Copies(MessageWrite(encoded.value), |FreshTargets(old(processedMessages.Keys), m.id, nearbyDevices.Keys)|)
                    else []))
        && cache.userLocations ==
             (if m.IsLocationMessage()
              then old(cache.userLocations)[m.kind.userId := LocationInfo(m.kind.location, m.kind.updateTime)]
              else old(cache.userLocations))
        && link.state == old(link.state)
      ensures messageTimestamps == old(messageTimestamps) && messageCount == old(messageCount)
      ensures nearbyDevices == old(nearbyDevices) && delivered == old(delivered)
      ensures isRunning == old(isRunning) && hasListener == old(hasListener)
      ensures currentLocation == old(currentLocation) && cleanupStuck == old(cleanupStuck)
      ensures unchanged(link`state, link`acceptThread, link`connectThread, link`connectedThread, link`nextThread,
                          link`cancelled, link`connectTargets, link`buffer)
    {
      if !isRunning || queue == [] {
        return None;
      }
      var m := queue[0];
      queue := queue[1..];
      ProcessMessage(m, encoded);
      processed := Some(m);
    }

    /** `findOldestMessage`: a running minimum over the timestamps, started at
        `Long.MAX_VALUE`; null exactly when no timestamp is below it. */
    method FindOldestMessage() returns (oldest: Option<string>)
      ensures oldest.None? <==> LiveKeys(messageTimestamps) == {}
      ensures oldest.Some? ==> Oldest(messageTimestamps, oldest.value)
    {
      var oldestTime := LONG_MAX;
      oldest := None;
      var pending := messageTimestamps.Keys;
      while pending != {}
        invariant pending <= messageTimestamps.Keys
        invariant oldest.None? ==> oldestTime == LONG_MAX
        invariant oldest.Some? ==> oldest.value in messageTimestamps && messageTimestamps[oldest.value] == oldestTime < LONG_MAX
        invariant forall k :: k in messageTimestamps && k !in pending ==> oldestTime <= messageTimestamps[k]
        decreases pending
      {
        var k :| k in pending;
        if messageTimestamps[k] < oldestTime {
          oldestTime := messageTimestamps[k];
          oldest := Some(k);
        }
        pending := pending - {k};
      }
      if oldest.Some? {
        assert oldest.value in LiveKeys(messageTimestamps);
      } else {
        assert forall k :: k !in LiveKeys(messageTimestamps);
      }
    }

    /** The three `removeIf` calls of `cleanupCache`: ids whose timestamp is
        more than 30 s old leave both maps, devices unseen for 5 minutes
        leave `nearbyDevices`. */
    method ExpireEntries(now: int)
      requires messageTimestamps.Keys <= processedMessages.Keys && KeyedByAddress(nearbyDevices)
      modifies this`processedMessages, this`messageTimestamps, this`nearbyDevices
      ensures messageTimestamps.Keys <= processedMessages.Keys && KeyedByAddress(nearbyDevices)
      ensures processedMessages == old(processedMessages) - ExpiredIds(old(messageTimestamps), now)
      ensures messageTimestamps == FreshStamps(old(messageTimestamps), now)
      ensures nearbyDevices == PurgeDevices(old(nearbyDevices), now, LOCATION_TIMEOUT)
    {
      var expired := ExpiredIds(messageTimestamps, now);
      processedMessages := processedMessages - expired;
      messageTimestamps := FreshStamps(messageTimestamps, now);
      nearbyDevices := PurgeDevices(nearbyDevices, now, LOCATION_TIMEOUT);
    }

    /** The eviction loop of `cleanupCache`: while `processedMessages` is over
        its ceiling, evict the oldest stamped id from both maps. When
        `findOldestMessage` finds nothing while the map is still too large,
        the Java loop spins forever: `terminates` is then false and the state
        is the one it spins in. Exactly the ids beyond the reach of
        `findOldestMessage` decide which happens. */
    method EvictOverflow() returns (terminates: bool)
      requires messageTimestamps.Keys <= processedMessages.Keys
      modifies this`processedMessages, this`messageTimestamps
      ensures Evicted(old(processedMessages), old(messageTimestamps), terminates, processedMessages, messageTimestamps)
      ensures messageTimestamps.Keys <= processedMessages.Keys
    {
      ghost var processed1 := processedMessages;
      ghost var stamps1 := messageTimestamps;
      ghost var evicted: set<string> := {};
      terminates := true;
      while |processedMessages| > MAX_CACHE_SIZE
        invariant EvictLoop(processed1, stamps1, evicted, processedMessages, messageTimestamps)
        invariant terminates
        decreases |messageTimestamps|
      {
        ghost var processed, stamps := processedMessages, messageTimestamps;
        var oldest := EvictOldest();
        if oldest.None? {
          terminates := false;
          break;
        }
        EvictLoopStep(processed1, stamps1, evicted, processed, stamps, oldest.value);
        evicted := evicted + {oldest.value};
      }
      EvictLoopEnd(processed1, stamps1, evicted, processedMessages, messageTimestamps, terminates);
    }

    /** One turn of the eviction loop: `findOldestMessage`, then the removal
        of the id it names, if any, from both maps. */
    method EvictOldest() returns (oldest: Option<string>)
      modifies this`processedMessages, this`messageTimestamps
      ensures oldest.None? ==> LiveKeys(messageTimestamps) == {}
      ensures oldest.None? ==> processedMessages == old(processedMessages) && messageTimestamps == old(messageTimestamps)
      ensures oldest.Some? ==> Oldest(old(messageTimestamps), oldest.value)
      ensures oldest.Some? ==> processedMessages == old(processedMessages) - {oldest.value}
      ensures oldest.Some? ==> messageTimestamps == old(messageTimestamps) - {oldest.value}
    {
      oldest := FindOldestMessage();
      if oldest.Some? {
        processedMessages := processedMessages - {oldest.value};
        messageTimestamps := messageTimestamps - {oldest.value};
      }
    }

    /** `cleanupCache`: the expiry, then the eviction loop. */
    method CleanupCache(now: int) returns (terminates: bool)
      requires Valid()
      modifies this`processedMessages, this`messageTimestamps, this`nearbyDevices
      ensures Valid()
      ensures CleanedUp(old(processedMessages), old(messageTimestamps), old(nearbyDevices), now,
                        terminates, processedMessages, messageTimestamps, nearbyDevices)
    {
      ExpireEntries(now);
      terminates := EvictValid();
    }

    /** `EvictOverflow` on a valid node, which it leaves valid. */
    method EvictValid() returns (terminates: bool)
      requires Valid()
      modifies this`processedMessages, this`messageTimestamps
      ensures Valid()
      ensures Evicted(old(processedMessages), old(messageTimestamps), terminates, processedMessages, messageTimestamps)
    {
      terminates := EvictOverflow();
    }

    /** One due run of the periodic maintenance task: a cleanup, while the
        node runs. The task shares one scheduler thread, so once a cleanup
        spins (`terminates` false) that thread never comes back and no later
        run starts: such a run is reported as not terminating and changes
        nothing. */
    method CacheCleanupTick(now: int) returns (terminates: bool)
      requires Valid()
      modifies this`processedMessages, this`messageTimestamps, this`nearbyDevices, this`cleanupStuck
      ensures Valid()
      ensures old(cleanupStuck) ==> !terminates && unchanged(this)
      ensures !old(cleanupStuck) && !old(isRunning) ==> terminates && unchanged(this)
      ensures !old(cleanupStuck) && old(isRunning) ==>
        CleanedUp(old(processedMessages), old(messageTimestamps), old(nearbyDevices), now,
                  terminates, processedMessages, messageTimestamps, nearbyDevices)
      ensures !old(cleanupStuck) && old(isRunning) ==> cleanupStuck == !terminates
      ensures queue == old(queue) && messageCount == old(messageCount) && delivered == old(delivered)
      ensures hasListener == old(hasListener) && isRunning == old(isRunning)
    {
      if cleanupStuck {
        return false;
      }
      if !isRunning {
        return true;
      }
      terminates := CleanupRun(now);
    }

    /** A run of the maintenance task that finds its thread free: a
        cleanup, after which the thread is stuck exactly when it spins. */
    method CleanupRun(now: int) returns (terminates: bool)
      requires Valid()
      modifies this`processedMessages, this`messageTimestamps, this`nearbyDevices, this`cleanupStuck
      ensures Valid()
      ensures CleanedUp(old(processedMessages), old(messageTimestamps), old(nearbyDevices), now,
                        terminates, processedMessages, messageTimestamps, nearbyDevices)
      ensures queue == old(queue) && messageCount == old(messageCount) && delivered == old(delivered)
      ensures hasListener == old(hasListener) && isRunning == old(isRunning)
      ensures cleanupStuck == !terminates
    {
      terminates := CleanupCache(now);
      SetStuck(!terminates);
    }

    /** Records whether the maintenance thread is caught in a cleanup. */
    method SetStuck(stuck: bool)
      modifies this`cleanupStuck
      ensures cleanupStuck == stuck
      ensures old(Valid()) ==> Valid()
      ensures processedMessages == old(processedMessages) && messageTimestamps == old(messageTimestamps)
      ensures nearbyDevices == old(nearbyDevices) && queue == old(queue) && messageCount == old(messageCount)
      ensures delivered == old(delivered) && hasListener == old(hasListener) && isRunning == old(isRunning)
    {
      cleanupStuck := stuck;
    }

    /** `handleNewDevice`: record the device under its address, then drop
        devices unseen for five minutes. */
    method HandleNewDevice(info: DeviceInfo, now: int)
      requires Valid()
      modifies this
      ensures Valid()
      ensures nearbyDevices == PurgeDevices(old(nearbyDevices)[info.address := info], now, LOCATION_TIMEOUT)
      ensures now - info.lastSeen <= LOCATION_TIMEOUT ==> info.address in nearbyDevices && nearbyDevices[info.address] == info
      ensures queue == old(queue) && processedMessages == old(processedMessages)
      ensures messageTimestamps == old(messageTimestamps) && messageCount == old(messageCount)
      ensures delivered == old(delivered) && hasListener == old(hasListener)
      ensures currentLocation == old(currentLocation) && isRunning == old(isRunning)
      ensures cleanupStuck == old(cleanupStuck)
    {
      nearbyDevices := nearbyDevices[info.address := info];
      nearbyDevices := PurgeDevices(nearbyDevices, now, LOCATION_TIMEOUT);
    }

    /** `getNearbyDevices`: every recorded device, each under its own address. */
    function GetNearbyDevices(): (devices: set<DeviceInfo>)
      reads this, link
      requires Valid()
      ensures forall d :: d in devices <==> d.address in nearbyDevices && nearbyDevices[d.address] == d
    {
      set a | a in nearbyDevices :: nearbyDevices[a]
    }

    /** `getNearbyUserLocations`: the cache's purging read. */
    method GetNearbyUserLocations(now: int) returns (locations: map<string, Location>)
      modifies cache
      ensures cache.userLocations == Purge(old(cache.userLocations), now)
      ensures locations == Locations(cache.userLocations)
    {
      locations := cache.GetActiveUserLocations(now);
    }

    /** `updateLocation`: remember the fix and broadcast it as a fresh
        location message with id `id`. Its content is short, its timestamp is
        `now` and its sender is this node, so it is accepted exactly when the
        node id is non-empty, the id is new and the queue has room. */
    method UpdateLocation(location: Location, now: int, id: string)
      requires Valid()
      modifies this
      ensures Valid()
      ensures currentLocation == Some(location)
      ensures (nodeId != "" && id !in old(processedMessages) && |old(queue)| < MAX_QUEUE_SIZE) ==>
        && |queue| == |old(queue)| + 1 && queue[..|old(queue)|] == old(queue)
        && fresh(queue[|old(queue)|])
        && queue[|old(queue)|].kind == LocationUpdate(location, nodeId, now)
        && queue[|old(queue)|].id == id
        && queue[|old(queue)|].hopCount == 0
        && queue[|old(queue)|].WellFormed()
        && processedMessages == old(processedMessages)[id := queue[|old(queue)|]]
        && messageTimestamps == old(messageTimestamps)[id := now]
        && messageCount == old(messageCount) + 1
      ensures !(nodeId != "" && id !in old(processedMessages) && |old(queue)| < MAX_QUEUE_SIZE) ==>
        queue == old(queue) && processedMessages == old(processedMessages)
        && messageTimestamps == old(messageTimestamps) && messageCount == old(messageCount)
      ensures delivered == old(delivered) && nearbyDevices == old(nearbyDevices)
      ensures hasListener == old(hasListener) && isRunning == old(isRunning) && cleanupStuck == old(cleanupStuck)
    {
      currentLocation := Some(location);
      var message := new Message.ForLocation(id, nodeId, location, now);
      assert |message.content.value| == 15;
      var _ := Broadcast(message, now);
    }

    /** `startBluetoothService`: start this node's own link. */
    method StartBluetoothService()
      requires Valid()
      modifies link
      ensures Valid() && link.state == StateListen
      ensures link.connectThread.None? && link.connectedThread.None?
      ensures link.acceptThread == if old(link.acceptThread).None? then Some(old(link.nextThread)) else old(link.acceptThread)
      ensures link.cancelled == old(link.cancelled) + Ids(old(link.connectThread)) + Ids(old(link.connectedThread))
      ensures link.events == old(link.events) + [StateChange(StateListen)]
      ensures link.connectTargets == old(link.connectTargets) && link.buffer == old(link.buffer)
    {
      link.Start();
    }

    /** `stopBluetoothService`: stop this node's own link. */
    method StopBluetoothService()
      requires Valid()
      modifies link
      ensures Valid() && link.state == StateNone && link.Slots() == {}
      ensures link.cancelled == old(link.cancelled) + old(link.Slots())
      ensures link.events == old(link.events) + [StateChange(StateNone)]
      ensures link.connectTargets == old(link.connectTargets) && link.buffer == old(link.buffer)
    {
      link.Stop();
    }

    /** `close`: stop the consumer and the maintenance task, then the link. */
    method Close()
      requires Valid()
      modifies this`isRunning, link
      ensures Valid() && !isRunning && link.state == StateNone && link.Slots() == {}
      ensures link.cancelled == old(link.cancelled) + old(link.Slots())
      ensures link.events == old(link.events) + [StateChange(StateNone)]
      ensures link.connectTargets == old(link.connectTargets) && link.buffer == old(link.buffer)
      ensures queue == old(queue) && processedMessages == old(processedMessages)
      ensures messageTimestamps == old(messageTimestamps) && nearbyDevices == old(nearbyDevices)
      ensures messageCount == old(messageCount) && delivered == old(delivered) && hasListener == old(hasListener)
      ensures currentLocation == old(currentLocation) && cleanupStuck == old(cleanupStuck)
    {
      isRunning := false;
      link.Stop();
    }
  }

  /** Broadcasting the same message twice is accepted at most once. */
  method BroadcastTwice(node: MeshNode, m: Message, now: int) returns (first: bool, second: bool)
    requires node.Valid()
    modifies node
    ensures !(first && second)
    ensures first ==> |node.queue| == |old(node.queue)| + 1
  {
    first := node.Broadcast(m, now);
    second := node.Broadcast(m, now);
  }
}
