/** The location smoother of `LocationTracker`: it validates each fix from
    the location provider, keeps a sliding window of the last five valid
    fixes, averages the window into one smoothed fix, classifies its
    accuracy and hands it to the mesh node. Doubles and floats are reals;
    the wall clock is the `now` parameter; the provider's asynchronous
    answers are event methods. */
module Tracker {
  import opened Common
  import opened Messages
  import opened Mesh

  const UPDATE_INTERVAL_NORMAL: int := 1000
  const UPDATE_INTERVAL_POWER_SAVING: int := 5000
  const UPDATE_INTERVAL_BACKGROUND: int := 30000
  /** Metres. */
  const MIN_DISTANCE_CHANGE: real := 1.0
  const LOCATION_MAX_AGE: int := 30000
  /** Metres. */
  const ACCURACY_THRESHOLD_HIGH: real := 20.0
  const ACCURACY_THRESHOLD_MEDIUM: real := 50.0
  const MAX_LOCATION_SAMPLES: nat := 5
  /** The accuracy radius, in metres, above which a fix is rejected. */
  const MAX_ACCURACY: real := 100.0
  /** The speed, in metres per second, above which a fix is rejected. */
  const MAX_SPEED: real := 100.0

  /** `LocationAccuracy`. */
  datatype LocationAccuracy = High | Medium | Low | NoSignal

  /** The two priorities the request builder chooses between. */
  datatype Priority = HighAccuracy | BalancedPowerAccuracy

  /** The parameters `createLocationRequest` hands the request builder. */
  datatype LocationRequest = LocationRequest(
    interval: int,
    minUpdateDistance: real,
    minUpdateInterval: int,
    maxUpdateDelay: int,
    priority: Priority,
    waitForAccurateLocation: bool)

  // ---------------------------------------------------------------------
  // Fix validation

  /** `isLocationStale`: older than thirty seconds. */
  predicate IsLocationStale(l: Location, now: int)
  {
    now - l.time > LOCATION_MAX_AGE
  }

  /** `isValidCoordinates`: latitude within ±90, longitude within ±180. */
  predicate IsValidCoordinates(l: Location)
  {
    -90.0 <= l.latitude <= 90.0 && -180.0 <= l.longitude <= 180.0
  }

  /** The checks of `isValidLocation` that do not depend on the clock. */
  predicate IsPlausible(l: Location)
  {
    && IsValidCoordinates(l)
    && (l.accuracy.Some? ==> l.accuracy.value <= MAX_ACCURACY)
    && (l.speed.Some? ==> l.speed.value <= MAX_SPEED)
  }

  /** `isValidLocation`: fresh, on the globe, accurate enough and not
      implausibly fast. */
  predicate IsValidLocation(l: Location, now: int)
  {
    !IsLocationStale(l, now) && IsPlausible(l)
  }

  /** A fix stays valid while it ages, up to thirty seconds after it was
      taken, and no longer. */
  lemma ValidityExpires(l: Location, now: int, later: int)
    requires IsValidLocation(l, now) && now <= later
    ensures IsValidLocation(l, later) <==> later <= l.time + LOCATION_MAX_AGE
  {
  }

  // ---------------------------------------------------------------------
  // Accuracy bands

  /** `updateLocationAccuracy`'s classification. */
  function AccuracyBand(l: Location): LocationAccuracy
  {
    if l.accuracy.None? then NoSignal
    else if l.accuracy.value <= ACCURACY_THRESHOLD_HIGH then High
    else if l.accuracy.value <= ACCURACY_THRESHOLD_MEDIUM then Medium
    else Low
  }

  /** Bands from best to worst. */
  function Rank(b: LocationAccuracy): nat
  {
    match b
    case High => 0
    case Medium => 1
    case Low => 2
    case NoSignal => 3
  }

  /** A wider accuracy radius never earns a better band, and every fix with
      an accuracy gets one of the three measured bands. */
  lemma {:induction false} BandMonotone(l1: Location, l2: Location)
    requires l1.accuracy.Some? && l2.accuracy.Some? && l1.accuracy.value <= l2.accuracy.value
    ensures Rank(AccuracyBand(l1)) <= Rank(AccuracyBand(l2))
    ensures AccuracyBand(l1) != NoSignal && AccuracyBand(l2) != NoSignal
  {
  }

  // ---------------------------------------------------------------------
  // Request parameters

  /** `createLocationRequest`: every 30 seconds in the background, else
      every 5 in power-save mode, else every second; the fastest rate is
      half the interval and the longest batching delay twice it; power-save
      mode trades accuracy for power and does not wait for an accurate
      first fix. */
  function CreateLocationRequest(background: bool, powerSave: bool): LocationRequest
  {
    var interval :=
      if background then UPDATE_INTERVAL_BACKGROUND
      else if powerSave then UPDATE_INTERVAL_POWER_SAVING
      else UPDATE_INTERVAL_NORMAL;
    LocationRequest(
      interval,
      MIN_DISTANCE_CHANGE,
      interval / 2,
      interval * 2,
      if powerSave then BalancedPowerAccuracy else HighAccuracy,
      !powerSave)
  }

  /** The request is well-formed (fastest rate below the interval, the
      interval below the batching delay), neither the background nor
      power-save mode ever asks for updates more often than the normal
      mode, and high accuracy is asked for exactly outside power-save mode. */
  lemma {:induction false} RequestShape(background: bool, powerSave: bool)
    ensures
      var r := CreateLocationRequest(background, powerSave);
      && 0 < r.minUpdateInterval < r.interval < r.maxUpdateDelay
      && r.interval >= CreateLocationRequest(false, false).interval
      && (background ==> r.interval == UPDATE_INTERVAL_BACKGROUND)
      && (r.priority == HighAccuracy <==> !powerSave)
      && r.waitForAccurateLocation == (r.priority == HighAccuracy)
  {
  }

  // ---------------------------------------------------------------------
  // Smoothing

  /** The sum of a sequence of reals, accumulated from the front. */
  function Sum(xs: seq<real>): real
  {
    if |xs| == 0 then 0.0 else Sum(xs[..|xs| - 1]) + xs[|xs| - 1]
  }

  function Lats(s: seq<Location>): (r: seq<real>)
    ensures |r| == |s| && forall i :: 0 <= i < |s| ==> r[i] == s[i].latitude
  {
    seq(|s|, i requires 0 <= i < |s| => s[i].latitude)
  }

  function Lngs(s: seq<Location>): (r: seq<real>)
    ensures |r| == |s| && forall i :: 0 <= i < |s| ==> r[i] == s[i].longitude
  {
    seq(|s|, i requires 0 <= i < |s| => s[i].longitude)
  }

  /** The accuracies the smoother adds up: absent ones count as nothing. */
  function Accs(s: seq<Location>): (r: seq<real>)
    ensures |r| == |s| && forall i :: 0 <= i < |s| ==> r[i] == (if s[i].accuracy.Some? then s[i].accuracy.value else 0.0)
  {
    seq(|s|, i requires 0 <= i < |s| => if s[i].accuracy.Some? then s[i].accuracy.value else 0.0)
  }

  /** `smoothLocation` on a non-empty window: a lone fix is returned as it
      is; otherwise the mean latitude and longitude, the sum of the
      accuracies present divided by the whole window size, no speed, and
      the current time. */
  function Smoothed(samples: seq<Location>, now: int): Location
    requires |samples| >= 1
  {
    if |samples| < 2 then samples[|samples| - 1]
    else
      var n := |samples| as real;
      Location(Sum(Lats(samples)) / n, Sum(Lngs(samples)) / n, Some(Sum(Accs(samples)) / n), None, now)
  }

  /** A sum of terms none above `hi` is at most `n` times `hi`. */
  lemma {:induction false} SumAtMost(xs: seq<real>, hi: real)
    requires forall i :: 0 <= i < |xs| ==> xs[i] <= hi
    ensures Sum(xs) <= hi * |xs| as real
    decreases |xs|
  {
    if |xs| > 0 {
      SumAtMost(xs[..|xs| - 1], hi);
    }
  }

  /** A sum of terms none below `lo` is at least `n` times `lo`. */
  lemma {:induction false} SumAtLeast(xs: seq<real>, lo: real)
    requires forall i :: 0 <= i < |xs| ==> lo <= xs[i]
    ensures lo * |xs| as real <= Sum(xs)
    decreases |xs|
  {
    if |xs| > 0 {
      SumAtLeast(xs[..|xs| - 1], lo);
    }
  }

  /** The mean of terms between `lo` and `hi` lies between them too. */
  lemma {:induction false} MeanBounds(xs: seq<real>, lo: real, hi: real)
    requires |xs| >= 1
    requires forall i :: 0 <= i < |xs| ==> lo <= xs[i] <= hi
    ensures lo <= Sum(xs) / |xs| as real <= hi
  {
    SumAtMost(xs, hi);
    SumAtLeast(xs, lo);
  }

  /** The mean of terms none above `hi` is not above it either. */
  lemma {:induction false} MeanAtMost(xs: seq<real>, hi: real)
    requires |xs| >= 1
    requires forall i :: 0 <= i < |xs| ==> xs[i] <= hi
    ensures Sum(xs) / |xs| as real <= hi
  {
    SumAtMost(xs, hi);
  }

  /** Smoothing a window of valid fixes yields a fix that is valid now: on
      the globe, no worse than the accuracy ceiling, and, when averaged,
      stamped now. */
  lemma {:induction false} SmoothedIsValid(samples: seq<Location>, now: int)
    requires |samples| >= 1
    requires forall i :: 0 <= i < |samples| ==> IsPlausible(samples[i])
    ensures IsPlausible(Smoothed(samples, now))
    ensures |samples| >= 2 ==> Smoothed(samples, now).time == now && Smoothed(samples, now).accuracy.Some?
    ensures IsValidLocation(samples[|samples| - 1], now) ==> IsValidLocation(Smoothed(samples, now), now)
  {
    if |samples| >= 2 {
      MeanBounds(Lats(samples), -90.0, 90.0);
      MeanBounds(Lngs(samples), -180.0, 180.0);
      MeanAtMost(Accs(samples), MAX_ACCURACY);
    }
  }

  /** A device standing still is reported where it stands: smoothing a
      window of fixes at one position yields that position. */
  lemma {:induction false} StationaryWindow(samples: seq<Location>, now: int, lat: real, lng: real)
    requires |samples| >= 1
    requires forall i :: 0 <= i < |samples| ==> samples[i].latitude == lat && samples[i].longitude == lng
    ensures Smoothed(samples, now).latitude == lat && Smoothed(samples, now).longitude == lng
  {
    if |samples| >= 2 {
      MeanBounds(Lats(samples), lat, lat);
      MeanBounds(Lngs(samples), lng, lng);
    }
  }

  /** The window after a fix is added: appended, and the oldest dropped
      when there are more than five. */
  function Window(samples: seq<Location>, l: Location): seq<Location>
  {
    var added := samples + [l];
    if |added| > MAX_LOCATION_SAMPLES then added[1..] else added
  }

  /** A window of at most five fixes stays at most five: it holds the last
      `min(n + 1, 5)` fixes in arrival order, ending with the new one. */
  lemma {:induction false} WindowKeepsNewest(samples: seq<Location>, l: Location)
    requires |samples| <= MAX_LOCATION_SAMPLES
    ensures
      var w := Window(samples, l);
      && |w| == (if |samples| < MAX_LOCATION_SAMPLES then |samples| + 1 else MAX_LOCATION_SAMPLES)
      && w == (samples + [l])[|samples| + 1 - |w|..]
      && w[|w| - 1] == l
  {
  }

  /** A window of plausible fixes stays plausible. */
  lemma WindowPlausible(samples: seq<Location>, l: Location)
    requires forall i :: 0 <= i < |samples| ==> IsPlausible(samples[i])
    requires IsPlausible(l)
    ensures forall i :: 0 <= i < |Window(samples, l)| ==> IsPlausible(Window(samples, l)[i])
  {
    var added := samples + [l];
    assert forall i :: 0 <= i < |added| ==> IsPlausible(added[i]);
  }

  /** `smoothLocation`: the running sums of the for-each loop, then the
      means. */
  method SmoothLocation(samples: seq<Location>, now: int) returns (smoothed: Location)
    requires |samples| >= 1
    ensures smoothed == Smoothed(samples, now)
  {
    if |samples| < 2 {
      return samples[|samples| - 1];
    }
    var latSum, lngSum, accSum := 0.0, 0.0, 0.0;
    var i := 0;
    while i < |samples|
      invariant 0 <= i <= |samples|
      invariant latSum == Sum(Lats(samples)[..i])
      invariant lngSum == Sum(Lngs(samples)[..i])
      invariant accSum == Sum(Accs(samples)[..i])
    {
      var l := samples[i];
      assert Lats(samples)[..i + 1][..i] == Lats(samples)[..i];
      assert Lngs(samples)[..i + 1][..i] == Lngs(samples)[..i];
      assert Accs(samples)[..i + 1][..i] == Accs(samples)[..i];
      latSum := latSum + l.latitude;
      lngSum := lngSum + l.longitude;
      if l.accuracy.Some? {
        accSum := accSum + l.accuracy.value;
      }
      i := i + 1;
    }
    assert Lats(samples)[..i] == Lats(samples);
    assert Lngs(samples)[..i] == Lngs(samples);
    assert Accs(samples)[..i] == Accs(samples);
    var n := |samples| as real;
    smoothed := Location(latSum / n, lngSum / n, Some(accSum / n), None, now);
  }

  // ---------------------------------------------------------------------
  // The tracker

  class LocationTracker {
    const mesh: MeshNode
    /** `locationSamples`, oldest first. */
    var samples: seq<Location>
    var lastLocation: Option<Location>
    var isTracking: bool
    /** `accuracyCallback != null`. */
    var hasAccuracyCallback: bool
    /** Every band handed to `onAccuracyChanged`, oldest first. */
    var reported: seq<LocationAccuracy>

    /** At most five samples, each of them plausible, and the last location
        is plausible too. */
    ghost predicate Valid()
      reads this, mesh, mesh.link
    {
      && |samples| <= MAX_LOCATION_SAMPLES
      && (forall i :: 0 <= i < |samples| ==> IsPlausible(samples[i]))
      && (lastLocation.Some? ==> IsPlausible(lastLocation.value))
      && mesh.Valid()
    }

    /** The constructor: no samples, no location, not tracking, and no
        accuracy callback. */
    constructor (mesh: MeshNode)
      requires mesh.Valid()
      ensures Valid() && this.mesh == mesh
      ensures samples == [] && lastLocation.None? && !isTracking && !hasAccuracyCallback && reported == []
    {
      this.mesh := mesh;
      samples := [];
      lastLocation := None;
      isTracking := false;
      hasAccuracyCallback := false;
      reported := [];
    }

    /** `updateLocationAccuracy`: report the band of `l` to the callback, if
        one is registered. */
    method UpdateLocationAccuracy(l: Location)
      modifies this`reported
      ensures reported == old(reported) + (if hasAccuracyCallback then [AccuracyBand(l)] else [])
    {
      if !hasAccuracyCallback {
        return;
      }
      reported := reported + [AccuracyBand(l)];
    }

    /** `handleLocationUpdate`: an invalid fix is dropped and changes
        nothing. A valid one joins the window, the window is smoothed, the
        result becomes the last location, its band is reported and the
        mesh node broadcasts it under message id `messageId`. */
    method HandleLocationUpdate(location: Location, now: int, messageId: string)
      requires Valid()
      modifies this`samples, this`lastLocation, this`reported, mesh
      ensures Valid()
      ensures !IsValidLocation(location, now) ==>
        && samples == old(samples) && lastLocation == old(lastLocation) && reported == old(reported)
        && unchanged(mesh)
      ensures IsValidLocation(location, now) ==>
        && samples == Window(old(samples), location)
        && lastLocation == Some(Smoothed(samples, now))
        && IsValidLocation(lastLocation.value, now)
        && reported == old(reported) + (if hasAccuracyCallback then [AccuracyBand(lastLocation.value)] else [])
        && mesh.currentLocation == lastLocation
        && mesh.messageTimestamps.Keys <= old(mesh.messageTimestamps.Keys) + {messageId}
        && mesh.nearbyDevices == old(mesh.nearbyDevices)
      ensures IsValidLocation(location, now) &&
              mesh.nodeId != "" && messageId !in old(mesh.processedMessages) && |old(mesh.queue)| < MAX_QUEUE_SIZE ==>
        && |mesh.queue| == |old(mesh.queue)| + 1 && mesh.queue[..|old(mesh.queue)|] == old(mesh.queue)
        && mesh.queue[|old(mesh.queue)|].kind == LocationUpdate(lastLocation.value, mesh.nodeId, now)
        && mesh.queue[|old(mesh.queue)|].id == messageId && mesh.queue[|old(mesh.queue)|].hopCount == 0
        && mesh.processedMessages == old(mesh.processedMessages)[messageId := mesh.queue[|old(mesh.queue)|]]
        && mesh.messageTimestamps == old(mesh.messageTimestamps)[messageId := now]
        && mesh.messageCount == old(mesh.messageCount) + 1
      ensures IsValidLocation(location, now) &&
              !(mesh.nodeId != "" && messageId !in old(mesh.processedMessages) && |old(mesh.queue)| < MAX_QUEUE_SIZE) ==>
        && mesh.queue == old(mesh.queue) && mesh.processedMessages == old(mesh.processedMessages)
        && mesh.messageTimestamps == old(mesh.messageTimestamps) && mesh.messageCount == old(mesh.messageCount)
    {
      if !IsValidLocation(location, now) {
        return;
      }
      var smoothed := AddSample(location, now);
      mesh.UpdateLocation(smoothed, now, messageId);
    }

    /** The tracker's own part of `handleLocationUpdate` for a valid fix:
        window, smoothing, last location and band. */
    method AddSample(location: Location, now: int) returns (smoothed: Location)
      requires |samples| <= MAX_LOCATION_SAMPLES && (forall i :: 0 <= i < |samples| ==> IsPlausible(samples[i]))
      requires IsValidLocation(location, now)
      modifies this`samples, this`lastLocation, this`reported
      ensures |samples| <= MAX_LOCATION_SAMPLES && (forall i :: 0 <= i < |samples| ==> IsPlausible(samples[i]))
      ensures samples == Window(old(samples), location)
      ensures smoothed == Smoothed(samples, now) && IsValidLocation(smoothed, now)
      ensures lastLocation == Some(smoothed)
      ensures reported == old(reported) + (if hasAccuracyCallback then [AccuracyBand(smoothed)] else [])
    {
      PushSample(location);
      smoothed := SmoothLocation(samples, now);
      SmoothedIsValid(samples, now);
      lastLocation := Some(smoothed);
      UpdateLocationAccuracy(smoothed);
    }

    /** `locationSamples.add`, then `remove(0)` once over five. */
    method PushSample(location: Location)
      requires |samples| <= MAX_LOCATION_SAMPLES && (forall i :: 0 <= i < |samples| ==> IsPlausible(samples[i]))
      requires IsPlausible(location)
      modifies this`samples
      ensures samples == Window(old(samples), location) && 1 <= |samples| <= MAX_LOCATION_SAMPLES
      ensures forall i :: 0 <= i < |samples| ==> IsPlausible(samples[i])
    {
      WindowKeepsNewest(samples, location);
      WindowPlausible(samples, location);
      samples := samples + [location];
      if |samples| > MAX_LOCATION_SAMPLES {
        samples := samples[1..];
      }
    }

    /** `handleLocationResult`: the provider's latest fix, when it has one. */
    method HandleLocationResult(last: Option<Location>, now: int, messageId: string)
      requires Valid()
      modifies this`samples, this`lastLocation, this`reported, mesh
      ensures Valid()
      ensures last.None? || !IsValidLocation(last.value, now) ==>
        && samples == old(samples) && lastLocation == old(lastLocation) && reported == old(reported)
        && unchanged(mesh)
      ensures last.Some? && IsValidLocation(last.value, now) ==>
        && samples == Window(old(samples), last.value)
        && lastLocation == Some(Smoothed(samples, now))
        && IsValidLocation(lastLocation.value, now)
        && reported == old(reported) + (if hasAccuracyCallback then [AccuracyBand(lastLocation.value)] else [])
        && mesh.currentLocation == lastLocation
        && mesh.messageTimestamps.Keys <= old(mesh.messageTimestamps.Keys) + {messageId}
        && mesh.nearbyDevices == old(mesh.nearbyDevices)
      ensures last.Some? && IsValidLocation(last.value, now) &&
              mesh.nodeId != "" && messageId !in old(mesh.processedMessages) && |old(mesh.queue)| < MAX_QUEUE_SIZE ==>
        && |mesh.queue| == |old(mesh.queue)| + 1 && mesh.queue[..|old(mesh.queue)|] == old(mesh.queue)
        && mesh.queue[|old(mesh.queue)|].kind == LocationUpdate(lastLocation.value, mesh.nodeId, now)
        && mesh.queue[|old(mesh.queue)|].id == messageId && mesh.queue[|old(mesh.queue)|].hopCount == 0
        && mesh.processedMessages == old(mesh.processedMessages)[messageId := mesh.queue[|old(mesh.queue)|]]
        && mesh.messageTimestamps == old(mesh.messageTimestamps)[messageId := now]
        && mesh.messageCount == old(mesh.messageCount) + 1
      ensures last.Some? && IsValidLocation(last.value, now) &&
              !(mesh.nodeId != "" && messageId !in old(mesh.processedMessages) && |old(mesh.queue)| < MAX_QUEUE_SIZE) ==>
        && mesh.queue == old(mesh.queue) && mesh.processedMessages == old(mesh.processedMessages)
        && mesh.messageTimestamps == old(mesh.messageTimestamps) && mesh.messageCount == old(mesh.messageCount)
    {
      if last.Some? {
        HandleLocationUpdate(last.value, now, messageId);
      }
    }

    /** `startTracking`: with permission, ask the provider for updates and
        answer true; whether tracking really started is only known when the
        provider answers (`OnRequestResult`). */
    method StartTracking(permitted: bool) returns (requested: bool)
      ensures requested == permitted
    {
      requested := permitted;
    }

    /** The provider's answer to the update request. */
    method OnRequestResult(success: bool)
      modifies this`isTracking
      ensures isTracking == success
    {
      isTracking := success;
    }

    /** `stopTracking`: nothing unless tracking; otherwise ask the provider
        to stop and forget the samples at once. */
    method StopTracking()
      requires Valid()
      modifies this`samples
      ensures Valid()
      ensures samples == if old(isTracking) then [] else old(samples)
    {
      if !isTracking {
        return;
      }
      samples := [];
    }

    /** The provider's confirmation that updates have stopped. */
    method OnTrackingStopped()
      modifies this`isTracking
      ensures !isTracking
    {
      isTracking := false;
    }

    /** `getLastLocation`: the last smoothed fix, always plausible. */
    function GetLastLocation(): (r: Option<Location>)
      reads this, mesh, mesh.link
      requires Valid()
      ensures r.Some? ==> IsPlausible(r.value)
    {
      lastLocation
    }
  }
}
