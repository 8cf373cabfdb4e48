/** The point-to-point link (`BluetoothCommunicationService.java`): a
    four-state machine that owns three optional worker slots (accept, connect,
    connected), reports every transition to its handler, and reassembles
    inbound bytes into messages.

    Threads are modelled by numbered slots: starting a worker takes the next
    number, cancelling it (closing its socket) adds the number to `cancelled`.
    What the worker threads do later arrives as the event methods
    `OnInboundSocket`, `OnConnectAttemptFinished`, `ConnectionLost` and
    `HandleReadMessage`. Everything sent to the handler is appended to
    `events`. */
module Link {
  import opened Common

  /** `STATE_NONE`, `STATE_LISTEN`, `STATE_CONNECTING`, `STATE_CONNECTED`. */
  datatype LinkState = StateNone | StateListen | StateConnecting | StateConnected

  /** What an attempt to deserialize the buffered bytes ends in: a message,
      a `StreamCorruptedException` (the branch that keeps the buffer, which
      the source means for "not enough bytes yet"), or any other exception
      (the branch that resets the buffer). Which inputs lead to which
      outcome is up to the decoder, which is left abstract. */
  datatype DecodeOutcome = Decoded | Incomplete | Corrupt

  /** The two toasts the link raises. */
  datatype ToastKind = UnableToConnect | ConnectionLostToast

  /** What the link sends to its handler. */
  datatype HandlerEvent =
    | StateChange(state: LinkState)
    | DeviceName(name: string)
    | Toast(toast: ToastKind)
    | MessageRead(frame: Bytes)
    | MessageWrite(data: Bytes)

  const UNKNOWN_DEVICE: string := "Unknown Device"

  /** The slot contents as a set of worker numbers. */
  function Ids(slot: Option<nat>): set<nat>
  {
    if slot.Some? then {slot.value} else {}
  }

  /** The buffer after one read and the frame it completed, if any. */
  datatype ReadStep = ReadStep(buffer: Bytes, frame: Option<Bytes>)

  /** `handleReadMessage` on values: append, try to decode, and then empty
      the buffer on success or corruption, or keep everything on
      "incomplete". */
  function Reassemble(buffer: Bytes, chunk: Bytes, decode: Bytes -> DecodeOutcome): ReadStep
  {
    var data := buffer + chunk;
    match decode(data)
    case Decoded => ReadStep([], Some(data))
    case Incomplete => ReadStep(data, None)
    case Corrupt => ReadStep([], None)
  }

  function Flatten(chunks: seq<Bytes>): Bytes
  {
    if chunks == [] then [] else chunks[0] + Flatten(chunks[1..])
  }

  /** The buffer left and the frames completed after a run of reads. */
  datatype FeedResult = FeedResult(buffer: Bytes, frames: seq<Bytes>)

  function Feed(buffer: Bytes, chunks: seq<Bytes>, decode: Bytes -> DecodeOutcome): FeedResult
    decreases |chunks|
  {
    if chunks == [] then FeedResult(buffer, [])
    else
      var step := Reassemble(buffer, chunks[0], decode);
      var rest := Feed(step.buffer, chunks[1..], decode);
      var here := if step.frame.Some? then [step.frame.value] else [];
      FeedResult(rest.buffer, here + rest.frames)
  }

  /** No read in the run ends in the branch that resets the buffer. */
  predicate NeverCorrupt(buffer: Bytes, chunks: seq<Bytes>, decode: Bytes -> DecodeOutcome)
    decreases |chunks|
  {
    chunks == [] ||
    (decode(buffer + chunks[0]) != Corrupt &&
     NeverCorrupt(Reassemble(buffer, chunks[0], decode).buffer, chunks[1..], decode))
  }

  /** Every read in the run ends in "incomplete". */
  predicate AllIncomplete(buffer: Bytes, chunks: seq<Bytes>, decode: Bytes -> DecodeOutcome)
    decreases |chunks|
  {
    chunks == [] ||
    (decode(buffer + chunks[0]) == Incomplete &&
     AllIncomplete(buffer + chunks[0], chunks[1..], decode))
  }

  lemma {:induction false} FlattenCons(c: Bytes, cs: seq<Bytes>)
    ensures Flatten([c] + cs) == c + Flatten(cs)
  {
    assert ([c] + cs)[1..] == cs;
  }

  lemma {:induction false} AppendAssoc(a: Bytes, b: Bytes, c: Bytes)
    ensures (a + b) + c == a + (b + c)
  {
  }

  /** No byte is lost outside the reset branch: over a run of reads that
      never takes it, the delivered frames followed by what is still buffered
      are exactly the starting buffer followed by every byte read. A delivered
      frame is the whole buffer at the time of the decode; the source hands on
      only the first object deserialized from it. */
  lemma {:induction false} FeedLosesNothing(buffer: Bytes, chunks: seq<Bytes>, decode: Bytes -> DecodeOutcome)
    requires NeverCorrupt(buffer, chunks, decode)
    ensures Flatten(Feed(buffer, chunks, decode).frames) + Feed(buffer, chunks, decode).buffer
            == buffer + Flatten(chunks)
    decreases |chunks|
  {
    if chunks != [] {
      var data := buffer + chunks[0];
      var step := Reassemble(buffer, chunks[0], decode);
      var rest := Feed(step.buffer, chunks[1..], decode);
      var tail := Flatten(chunks[1..]);
      var here := if step.frame.Some? then [step.frame.value] else [];
      assert Feed(buffer, chunks, decode) == FeedResult(rest.buffer, here + rest.frames);
      assert Flatten(chunks) == chunks[0] + tail;
      FeedLosesNothing(step.buffer, chunks[1..], decode);
      assert Flatten(rest.frames) + rest.buffer == step.buffer + tail;
      AppendAssoc(buffer, chunks[0], tail);
      if step.frame.Some? {
        assert step.frame.value == data && step.buffer == [];
        FlattenCons(data, rest.frames);
        assert Flatten(rest.frames) + rest.buffer == tail;
        AppendAssoc(data, Flatten(rest.frames), rest.buffer);
      } else {
        assert decode(data) == Incomplete;
        assert here + rest.frames == rest.frames;
        assert step.buffer == data;
      }
    }
  }

  /** While every decode reports "incomplete", nothing is delivered and all
      bytes read so far stay buffered. */
  lemma {:induction false} IncompleteKeepsEverything(buffer: Bytes, chunks: seq<Bytes>, decode: Bytes -> DecodeOutcome)
    requires AllIncomplete(buffer, chunks, decode)
    ensures Feed(buffer, chunks, decode) == FeedResult(buffer + Flatten(chunks), [])
    decreases |chunks|
  {
    if chunks != [] {
      IncompleteKeepsEverything(buffer + chunks[0], chunks[1..], decode);
      assert buffer + chunks[0] + Flatten(chunks[1..]) == buffer + Flatten(chunks);
    }
  }

  class BluetoothCommunicationService {
    var state: LinkState
    var acceptThread: Option<nat>
    var connectThread: Option<nat>
    var connectedThread: Option<nat>
    /** The number the next worker gets. */
    var nextThread: nat
    /** Workers whose socket has been closed by `cancel()`. */
    var cancelled: set<nat>
    /** The device each connect worker dials. */
    var connectTargets: map<nat, string>
    /** `messageBuffer` of the current connected worker. */
    var buffer: Bytes
    /** Everything posted to the handler, oldest first. */
    var events: seq<HandlerEvent>

    /** At most one live transport resource once connected, and a listening
        worker exists only while listening or connecting. */
    ghost predicate Valid()
      reads this`state, this`acceptThread, this`connectThread, this`connectedThread
      reads this`nextThread, this`connectTargets
    {
      && (state == StateConnected ==>
            connectedThread.Some? && connectThread.None? && acceptThread.None?)
      && (acceptThread.Some? ==> state == StateListen || state == StateConnecting)
      && (acceptThread.Some? ==> acceptThread.value < nextThread)
      && (connectThread.Some? ==> connectThread.value < nextThread)
      && (connectedThread.Some? ==> connectedThread.value < nextThread)
      && (forall t :: t in connectTargets ==> t < nextThread)
    }

    /** The workers currently held in a slot. */
    function Slots(): set<nat>
      reads this`acceptThread, this`connectThread, this`connectedThread
    {
      Ids(acceptThread) + Ids(connectThread) + Ids(connectedThread)
    }

    constructor ()
      ensures Valid()
      ensures state == StateNone && Slots() == {} && events == [] && buffer == []
    {
      state := StateNone;
      acceptThread, connectThread, connectedThread := None, None, None;
      nextThread := 0;
      cancelled := {};
      connectTargets := map[];
      buffer := [];
      events := [];
    }

    /** `setState`: record the state and tell the handler. */
    method SetState(s: LinkState)
      modifies this`state, this`events
      ensures state == s && events == old(events) + [StateChange(s)]
    {
      state := s;
      events := events + [StateChange(s)];
    }

    /** `getState`. */
    function GetState(): LinkState
      reads this
    {
      state
    }

    /** Close the connect worker, if any, and empty its slot. */
    method CancelConnect()
      modifies this`cancelled, this`connectThread
      ensures connectThread.None? && cancelled == old(cancelled) + Ids(old(connectThread))
    {
      if connectThread.Some? {
        cancelled := cancelled + {connectThread.value};
        connectThread := None;
      }
    }

    /** Close the connected worker, if any, and empty its slot. */
    method CancelConnected()
      modifies this`cancelled, this`connectedThread
      ensures connectedThread.None? && cancelled == old(cancelled) + Ids(old(connectedThread))
    {
      if connectedThread.Some? {
        cancelled := cancelled + {connectedThread.value};
        connectedThread := None;
      }
    }

    /** Close the listening worker, if any, and empty its slot. */
    method CancelAccept()
      modifies this`cancelled, this`acceptThread
      ensures acceptThread.None? && cancelled == old(cancelled) + Ids(old(acceptThread))
    {
      if acceptThread.Some? {
        cancelled := cancelled + {acceptThread.value};
        acceptThread := None;
      }
    }

    /** Close all three workers and empty their slots. */
    method CancelAll()
      modifies this`cancelled, this`acceptThread, this`connectThread, this`connectedThread
      ensures Slots() == {} && cancelled == old(cancelled) + old(Slots())
    {
      CancelConnect();
      CancelConnected();
      CancelAccept();
    }

    /** `start()`: drop any connect and connected worker, listen, and start a
        listening worker unless one is already there. */
    method Start()
      requires Valid()
      modifies this
      ensures Valid()
      ensures state == StateListen && connectThread.None? && connectedThread.None?
      ensures acceptThread == if old(acceptThread).None? then Some(old(nextThread)) else old(acceptThread)
      ensures cancelled == old(cancelled) + Ids(old(connectThread)) + Ids(old(connectedThread))
      ensures events == old(events) + [StateChange(StateListen)]
      ensures connectTargets == old(connectTargets) && buffer == old(buffer)
    {
      CancelConnect();
      CancelConnected();
      SetState(StateListen);
      if acceptThread.None? {
        acceptThread := Some(nextThread);
        nextThread := nextThread + 1;
      }
    }

    /** `connect(device)`: the old connect worker is cancelled only when the
        state is CONNECTING (otherwise it is overwritten without being
        closed), any connected worker is always dropped, and a new connect
        worker dials `device`. */
    method Connect(device: string)
      requires Valid()
      modifies this
      ensures Valid()
      ensures state == StateConnecting && connectedThread.None?
      ensures connectThread == Some(old(nextThread)) && connectTargets == old(connectTargets)[old(nextThread) := device]
      ensures nextThread == old(nextThread) + 1
      ensures acceptThread == old(acceptThread)
      ensures cancelled == old(cancelled) + (if old(state) == StateConnecting then Ids(old(connectThread)) else {})
                           + Ids(old(connectedThread))
      ensures events == old(events) + [StateChange(StateConnecting)]
      ensures buffer == old(buffer)
    {
      if state == StateConnecting {
        CancelConnect();
      }
      CancelConnected();
      connectThread := Some(nextThread);
      connectTargets := connectTargets[nextThread := device];
      nextThread := nextThread + 1;
      SetState(StateConnecting);
    }

    /** `connected(socket, device)`: close every other worker, keep exactly one
        connected worker with an empty buffer, report the peer's name (or
        "Unknown Device" when it is null or unreadable), then CONNECTED. */
    method Connected(name: Option<string>)
      requires Valid()
      modifies this`state, this`events, this`cancelled, this`buffer
      modifies this`acceptThread, this`connectThread, this`connectedThread, this`nextThread
      ensures Valid()
      ensures state == StateConnected
      ensures connectedThread == Some(old(nextThread)) && connectThread.None? && acceptThread.None?
      ensures Slots() == {old(nextThread)} && old(nextThread) !in old(Slots())
      ensures nextThread == old(nextThread) + 1
      ensures cancelled == old(cancelled) + old(Slots())
      ensures buffer == []
      ensures events == old(events)
        + [DeviceName(if name.Some? then name.value else UNKNOWN_DEVICE), StateChange(StateConnected)]
      ensures connectTargets == old(connectTargets)
    {
      CancelAll();
      connectedThread := Some(nextThread);
      nextThread := nextThread + 1;
      buffer := [];
      events := events + [DeviceName(if name.Some? then name.value else UNKNOWN_DEVICE)];
      SetState(StateConnected);
    }

    /** `stop()`: close all three workers and go to NONE. */
    method Stop()
      requires Valid()
      modifies this
      ensures Valid()
      ensures state == StateNone && Slots() == {}
      ensures cancelled == old(cancelled) + old(Slots())
      ensures events == old(events) + [StateChange(StateNone)]
      ensures nextThread == old(nextThread) && connectTargets == old(connectTargets) && buffer == old(buffer)
    {
      CancelAll();
      SetState(StateNone);
    }

    /** `write(out)`: silently dropped unless CONNECTED; then the connected
        worker writes it and reports the write. */
    method Write(data: Bytes)
      modifies this`events
      ensures events == old(events) + (if state == StateConnected then [MessageWrite(data)] else [])
    {
      if state != StateConnected {
        return;
      }
      events := events + [MessageWrite(data)];
    }

    /** `connectionFailed()`: back to LISTEN with a toast; no listening worker
        is started again. */
    method ConnectionFailed()
      requires Valid()
      modifies this
      ensures Valid()
      ensures state == StateListen
      ensures events == old(events) + [StateChange(StateListen), Toast(UnableToConnect)]
      ensures acceptThread == old(acceptThread) && connectThread == old(connectThread)
      ensures connectedThread == old(connectedThread) && nextThread == old(nextThread)
      ensures cancelled == old(cancelled) && connectTargets == old(connectTargets) && buffer == old(buffer)
    {
      SetState(StateListen);
      events := events + [Toast(UnableToConnect)];
    }

    /** `connectionLost()`, raised when a connected worker's read fails: back
        to LISTEN with a toast; no listening worker is started again. */
    method ConnectionLost()
      requires Valid()
      modifies this
      ensures Valid()
      ensures state == StateListen
      ensures events == old(events) + [StateChange(StateListen), Toast(ConnectionLostToast)]
      ensures acceptThread == old(acceptThread) && connectThread == old(connectThread)
      ensures connectedThread == old(connectedThread) && nextThread == old(nextThread)
      ensures cancelled == old(cancelled) && connectTargets == old(connectTargets) && buffer == old(buffer)
    {
      SetState(StateListen);
      events := events + [Toast(ConnectionLostToast)];
    }

    /** One turn of the listening worker's loop after `accept()` returned a
        socket from a peer called `name`: in LISTEN or CONNECTING the socket
        becomes the link; in NONE or CONNECTED it is closed and nothing
        changes. With no listening worker nothing is accepted. */
    method OnInboundSocket(name: Option<string>)
      requires Valid()
      modifies this
      ensures Valid()
      ensures old(acceptThread).None? ==> unchanged(this)
      ensures old(acceptThread).Some? ==>
        && state == StateConnected
        && connectedThread == Some(old(nextThread)) && connectThread.None? && acceptThread.None?
        && Slots() == {old(nextThread)} && nextThread == old(nextThread) + 1
        && cancelled == old(cancelled) + old(Slots())
        && buffer == []
        && events == old(events)
             + [DeviceName(if name.Some? then name.value else UNKNOWN_DEVICE), StateChange(StateConnected)]
        && connectTargets == old(connectTargets)
    {
      if acceptThread.None? {
        return;
      }
      match state
      case StateListen =>
        Connected(name);
      case StateConnecting =>
        Connected(name);
      case StateNone =>
      case StateConnected =>
    }

    /** The end of connect worker `t`'s `run()`. A cancelled worker's socket is
        closed, so its `connect()` throws; a failure reports
        `connectionFailed`. On success the connect slot is cleared, whichever
        worker it holds, and the socket becomes the link. */
    method OnConnectAttemptFinished(t: nat, succeeded: bool, name: Option<string>)
      requires Valid()
      requires t in connectTargets
      modifies this
      ensures Valid()
      ensures (t in old(cancelled) || !succeeded) ==>
        && state == StateListen && Slots() == old(Slots())
        && events == old(events) + [StateChange(StateListen), Toast(UnableToConnect)]
        && acceptThread == old(acceptThread) && connectThread == old(connectThread)
        && connectedThread == old(connectedThread) && nextThread == old(nextThread)
        && cancelled == old(cancelled) && connectTargets == old(connectTargets) && buffer == old(buffer)
      ensures (t !in old(cancelled) && succeeded) ==>
        && state == StateConnected && Slots() == {old(nextThread)}
        && connectedThread == Some(old(nextThread)) && connectThread.None? && acceptThread.None?
        && nextThread == old(nextThread) + 1
        && cancelled == old(cancelled) + Ids(old(acceptThread)) + Ids(old(connectedThread))
        && buffer == []
        && events == old(events)
             + [DeviceName(if name.Some? then name.value else UNKNOWN_DEVICE), StateChange(StateConnected)]
        && connectTargets == old(connectTargets)
    {
      if t in cancelled || !succeeded {
        ConnectionFailed();
      } else {
        connectThread := None;
        Connected(name);
      }
    }

    /** `ConnectedThread.handleReadMessage`: append the bytes read, try to
        decode the whole buffer, and either deliver a message and empty the
        buffer, keep everything ("incomplete"), or empty the buffer (any other
        failure). A read arriving with no connected worker is ignored. */
    method HandleReadMessage(chunk: Bytes, decode: Bytes -> DecodeOutcome)
      requires Valid()
      modifies this
      ensures Valid()
      ensures old(connectedThread).None? ==> unchanged(this)
      ensures old(connectedThread).Some? ==>
        var step := Reassemble(old(buffer), chunk, decode);
        && buffer == step.buffer
        && events == old(events) + (if step.frame.Some? then [MessageRead(step.frame.value)] else [])
      ensures state == old(state) && Slots() == old(Slots()) && cancelled == old(cancelled)
      ensures acceptThread == old(acceptThread) && connectThread == old(connectThread)
      ensures connectedThread == old(connectedThread)
      ensures nextThread == old(nextThread) && connectTargets == old(connectTargets)
    {
      if connectedThread.None? {
        return;
      }
      buffer := buffer + chunk;
      var data := buffer;
      match decode(data)
      case Decoded =>
        buffer := [];
        events := events + [MessageRead(data)];
      case Incomplete =>
      case Corrupt =>
        buffer := [];
    }
  }
}
