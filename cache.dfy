/** The location cache (`LocationCache.java`): the last known position of
    each user, purged of entries older than five minutes on every read. */
module Cache {
  import opened Common

  /** `LOCATION_EXPIRY_TIME`: five minutes in milliseconds. */
  const LOCATION_EXPIRY_TIME: int := 300000

  /** `LocationCache.LocationInfo`. */
  datatype LocationInfo = LocationInfo(location: Location, updateTime: int)

  /** The `removeIf` condition: strictly older than the expiry window. */
  predicate Expired(info: LocationInfo, now: int)
  {
    now - info.updateTime > LOCATION_EXPIRY_TIME
  }

  /** The entries a read at `now` keeps: exactly the unexpired ones, unchanged. */
  function Purge(m: map<string, LocationInfo>, now: int): (r: map<string, LocationInfo>)
    ensures forall u :: u in r <==> u in m && !Expired(m[u], now)
    ensures forall u :: u in r ==> r[u] == m[u]
  {
    map u | u in m && !Expired(m[u], now) :: m[u]
  }

  /** The user-to-location view a read returns. */
  function Locations(m: map<string, LocationInfo>): (r: map<string, Location>)
    ensures r.Keys == m.Keys
    ensures forall u :: u in r ==> r[u] == m[u].location
  {
    map u | u in m :: m[u].location
  }

  /** Purging twice at the same instant removes nothing the first did not:
      two consecutive reads at the same `now` see the same map. */
  lemma PurgeIdempotent(m: map<string, LocationInfo>, now: int)
    ensures Purge(Purge(m, now), now) == Purge(m, now)
    ensures Locations(Purge(Purge(m, now), now)) == Locations(Purge(m, now))
  {
    var once := Purge(m, now);
    var twice := Purge(once, now);
    assert twice.Keys == once.Keys;
  }

  /** No purged map holds an entry older than the window, and an entry exactly
      at the window's edge survives because the comparison is strict. */
  lemma PurgeBoundary(m: map<string, LocationInfo>, now: int, u: string)
    requires u in m && now - m[u].updateTime == LOCATION_EXPIRY_TIME
    ensures u in Purge(m, now)
    ensures forall v :: v in Purge(m, now) ==> now - Purge(m, now)[v].updateTime <= LOCATION_EXPIRY_TIME
  {
  }

  /** A location written at `t` is returned for its user by any read at
      `now <= t + 300000`, and other users' entries are as they were. */
  lemma UpdateThenRead(m: map<string, LocationInfo>, u: string, l: Location, t: int, now: int)
    requires now <= t + LOCATION_EXPIRY_TIME
    ensures u in Locations(Purge(m[u := LocationInfo(l, t)], now))
    ensures Locations(Purge(m[u := LocationInfo(l, t)], now))[u] == l
    ensures forall v :: v != u ==>
      (v in Purge(m[u := LocationInfo(l, t)], now) <==> v in Purge(m, now))
  {
  }

  class LocationCache {
    var userLocations: map<string, LocationInfo>

    constructor ()
      ensures userLocations == map[]
    {
      userLocations := map[];
    }

    /** `updateLocation`: an unconditional overwrite of one user's entry. */
    method UpdateLocation(userId: string, location: Location, updateTime: int)
      modifies this
      ensures userLocations == old(userLocations)[userId := LocationInfo(location, updateTime)]
    {
      userLocations := userLocations[userId := LocationInfo(location, updateTime)];
    }

    /** `getActiveUserLocations`: drop every expired entry from the cache
        itself (the `removeIf`), then copy the survivors into a fresh map (the
        `for` loop). The clock reading is `now`. */
    method GetActiveUserLocations(now: int) returns (active: map<string, Location>)
      modifies this
      ensures userLocations == Purge(old(userLocations), now)
      ensures active == Locations(userLocations)
      ensures forall u :: u in userLocations ==> !Expired(userLocations[u], now)
    {
      userLocations := map u | u in userLocations && !Expired(userLocations[u], now) :: userLocations[u];
      active := map[];
      var pending := userLocations.Keys;
      while pending != {}
        invariant pending <= userLocations.Keys
        invariant active.Keys == userLocations.Keys - pending
        invariant forall u :: u in active ==> active[u] == userLocations[u].location
        decreases pending
      {
        var u :| u in pending;
        active := active[u := userLocations[u].location];
        pending := pending - {u};
      }
    }
  }
}
