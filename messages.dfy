/** The message record (`Message.java`) and its location subtype
    (`LocationMessage.java`). The subtype is folded into one class: `kind`
    is `Chat` for a plain message and `LocationUpdate` for a
    `LocationMessage`, carrying that subtype's three final fields. */
module Messages {
  import opened Common

  /** `MAX_HOPS`: the relay ceiling. */
  const MAX_HOPS: nat := 10

  /** The fixed content of every location message. */
  const LOCATION_UPDATE: string := "LOCATION_UPDATE"

  /** What distinguishes a `LocationMessage` from a plain `Message`. */
  datatype Kind =
    | Chat
    | LocationUpdate(location: Location, userId: string, updateTime: int)

  function Min(a: int, b: int): int { if a <= b then a else b }

  /** One pass of the relay engine over a message: the hop count rises only
      while `canBeRelayed` holds. */
  function HopStep(h: int): int
  {
    if h < MAX_HOPS then h + 1 else h
  }

  /** The hop count after `n` passes of the relay engine. */
  function HopsAfter(h: int, n: nat): int
    decreases n
  {
    if n == 0 then h else HopsAfter(HopStep(h), n - 1)
  }

  /** Guarded increments stop at the ceiling: `n` passes add `n` hops, but
      never past `MAX_HOPS`, and a count already at or above it stays put.
      The count is a Java `int`: a message read from a peer may carry a
      negative one, which the guard lets through like any other. */
  lemma {:induction false} HopsAfterBound(h: int, n: nat)
    ensures HopsAfter(h, n) == if h >= MAX_HOPS then h else Min(h + n, MAX_HOPS)
    decreases n
  {
    if n > 0 {
      HopsAfterBound(HopStep(h), n - 1);
    }
  }

  /** A fresh message (hop count 0) is incremented exactly `min(n, 10)` times
      by `n` passes, so at most ten increments are ever possible and it can be
      relayed no further once it has been relayed ten times. */
  lemma FreshMessageHops(n: nat)
    ensures HopsAfter(0, n) == Min(n, MAX_HOPS)
    ensures HopsAfter(0, n) <= MAX_HOPS
    ensures n >= MAX_HOPS ==> HopsAfter(0, n) == MAX_HOPS && HopStep(HopsAfter(0, n)) == HopsAfter(0, n)
  {
    HopsAfterBound(0, n);
  }

  class Message {
    const id: string
    const content: Option<string>
    const senderId: Option<string>
    const senderLocation: Option<Location>
    const timestamp: int
    const kind: Kind
    /** A Java `int`; it never wraps, because it is only raised below ten. */
    var hopCount: int

    /** What the `LocationMessage` constructor guarantees about the fields it
        passes to its parent: fixed content, sender equal to the user, and the
        same location in both places. */
    ghost predicate WellFormed()
    {
      kind.LocationUpdate? ==>
        && content == Some(LOCATION_UPDATE)
        && senderId == Some(kind.userId)
        && senderLocation == Some(kind.location)
    }

    /** `new Message(content, senderId, senderLocation)`; the random UUID and
        the clock reading are the parameters `id` and `now`. */
    constructor (id: string, content: Option<string>, senderId: Option<string>,
                 senderLocation: Option<Location>, now: int)
      ensures this.id == id && this.content == content && this.senderId == senderId
      ensures this.senderLocation == senderLocation && timestamp == now
      ensures kind == Chat && hopCount == 0
      ensures WellFormed()
    {
      this.id := id;
      this.content := content;
      this.senderId := senderId;
      this.senderLocation := senderLocation;
      this.timestamp := now;
      this.kind := Chat;
      this.hopCount := 0;
    }

    /** `new LocationMessage(userId, location)`: both clock readings of the
        Java constructor are `now`. */
    constructor ForLocation(id: string, userId: string, location: Location, now: int)
      ensures this.id == id && content == Some(LOCATION_UPDATE) && senderId == Some(userId)
      ensures senderLocation == Some(location) && timestamp == now
      ensures kind == LocationUpdate(location, userId, now) && hopCount == 0
      ensures WellFormed()
    {
      this.id := id;
      this.content := Some(LOCATION_UPDATE);
      this.senderId := Some(userId);
      this.senderLocation := Some(location);
      this.timestamp := now;
      this.kind := LocationUpdate(location, userId, now);
      this.hopCount := 0;
    }

    /** `instanceof LocationMessage`. */
    predicate IsLocationMessage()
    {
      kind.LocationUpdate?
    }

    /** `canBeRelayed()`. */
    predicate CanBeRelayed()
      reads this
    {
      hopCount < MAX_HOPS
    }

    /** `incrementHopCount()`: the only mutation a message ever sees. */
    method IncrementHopCount()
      modifies this
      ensures hopCount == old(hopCount) + 1
    {
      hopCount := hopCount + 1;
    }

    /** `LocationMessage.getLocation()`: the location handed to the
        constructor, which is also the inherited sender location. */
    function GetLocation(): (l: Location)
      requires WellFormed() && IsLocationMessage()
      ensures senderLocation == Some(l)
    {
      kind.location
    }

    /** `LocationMessage.getUserId()`: always the sender id. */
    function GetUserId(): (u: string)
      requires WellFormed() && IsLocationMessage()
      ensures senderId == Some(u) && u == kind.userId
    {
      kind.userId
    }
  }
}
