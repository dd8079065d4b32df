/** The WebSocket transports of src/transport/ws_transport.cpp.

    `State` is everything a transport and its pending asynchronous operations consist
    of. The functions on it are the pieces of code that run without interruption:
    one test of an atomic flag, one critical section of `write_mutex_`, one call into
    the WebSocket stream. `Step` interleaves these pieces freely, which gives the
    behaviour of any number of threads; the class `WsTransport` runs whole calls. */
module Transport {
  import opened Basics
  import opened Protocol

  type Frame = Bytes

  /** `WsClientTransport` is gated by `closing_`, `WsServerSession` and
      `WsPlainServerSession` by `connected_`; their code is otherwise the same. */
  datatype Kind = ClientSide | ServerSide

  /** Where the strand is inside `do_write`: not in it, past the gate but not yet in the
      critical section, or with a frame taken and not yet handed to `async_write`. */
  datatype Handler = Idle | Checked | Popped

  /** An outstanding `async_write`: the frame it was started with, and whether the
      stream has already put the buffer on the wire. */
  datatype WriteOp = WriteOp(given: Frame, sent: bool)

  /** Histories of the sending side. */
  datatype Log = Log(
    accepted: seq<Frame>,         // frames pushed, in mutex order
    started: seq<Frame>,          // frames handed to `async_write`
    wire: seq<Frame>)             // messages put on the wire

  datatype Reader = Reader(
    buf: Bytes,                   // read_buf_
    reading: bool,                // an `async_read` is outstanding
    received: seq<Bytes>,         // messages read
    delivered: seq<Message>)      // calls of the packet callback

  datatype State = State(
    kind: Kind,
    live: bool,                   // `start` or `on_ws_handshake` has run
    connected: bool,
    closing: bool,
    failed: bool,                 // some write has completed with an error
    queue: seq<Frame>,            // write_queue_
    pending: Frame,               // write_pending_
    writing: bool,
    passed: map<nat, Frame>,      // threads in `send` between its gate and its lock
    posted: nat,                  // posted calls of `do_write` that have not run
    handler: Handler,
    flight: seq<WriteOp>,
    log: Log,
    rd: Reader)

  function Init(kind: Kind): State {
    State(kind, false, false, false, false, [], [], false, map[], 0, Idle, [], Log([], [], []),
          Reader([], false, [], []))
  }

  predicate GateOpen(s: State) {
    match s.kind
    case ClientSide => !s.closing
    case ServerSide => s.connected
  }

  /** The gate is closed and, since a transport opens at most once, stays closed. */
  predicate Shut(s: State) {
    !GateOpen(s) && (s.kind == ServerSide ==> s.live)
  }

  // ---- Pieces of code that run without interruption ----

  /** The critical section of `send`. */
  function Push(s: State, f: Frame): State {
    s.(queue := s.queue + [f], log := s.log.(accepted := s.log.accepted + [f]), writing := true,
       posted := if s.writing then s.posted else s.posted + 1)
  }

  /** The gate of `do_write`. */
  function Enter(s: State): State {
    s.(handler := if GateOpen(s) then Checked else Idle)
  }

  /** The critical section of `do_write`. */
  function Take(s: State): State {
    if s.queue == [] then s.(writing := false, handler := Idle)
    else s.(pending := s.queue[0], queue := s.queue[1..], handler := Popped)
  }

  /** The call of `async_write`, which keeps a reference to `write_pending_`. */
  function Launch(s: State): State {
    s.(flight := s.flight + [WriteOp(s.pending, false)], log := s.log.(started := s.log.started + [s.pending]),
       handler := Idle)
  }

  /** The stream sends what the buffer holds now, not what it held at the start. */
  function Transmit(s: State, i: nat): State
    requires i < |s.flight|
  {
    s.(flight := s.flight[i := s.flight[i].(sent := true)], log := s.log.(wire := s.log.wire + [s.pending]))
  }

  function Retire(s: State, i: nat): State
    requires i < |s.flight|
  {
    s.(flight := s.flight[..i] + s.flight[i + 1..])
  }

  /** `on_write` with an error. */
  function WriteFailed(s: State): State {
    s.(failed := true, connected := if s.kind == ClientSide && s.closing then s.connected else false)
  }

  /** `close`, up to the WebSocket close handshake. */
  function Closed(s: State): State {
    match s.kind
    case ClientSide => if s.closing then s else s.(closing := true, connected := false)
    case ServerSide => s.(connected := false)
  }

  predicate MayRead(s: State) {
    s.kind == ClientSide ==> !s.closing
  }

  function MarkedUp(s: State): State {
    s.(live := true, connected := true)
  }

  /** `do_read`. */
  function ReadBegun(s: State): State {
    s.(rd := s.rd.(reading := MayRead(s)))
  }

  function Opened(s: State): State {
    ReadBegun(MarkedUp(s))
  }

  /** `on_read` without an error, up to the packet callback and after it. */
  function ReadTaken(s: State, bytes: Bytes): State {
    var packets := match Dispatch(s.rd.buf + bytes) case Some(m) => [m] case None => [];
    s.(rd := Reader(s.rd.buf + bytes, false, s.rd.received + [bytes], s.rd.delivered + packets))
  }

  function ReadResumed(s: State): State {
    ReadBegun(s.(rd := s.rd.(buf := [])))
  }

  /** Dispatch the whole buffer, consume it, read again. */
  function ReadDone(s: State, bytes: Bytes): State {
    ReadResumed(ReadTaken(s, bytes))
  }

  function ReadFailed(s: State): State {
    s.(connected := false, rd := s.rd.(reading := false))
  }

  // ---- Whole calls ----

  function SendCall(s: State, f: Frame): State {
    if GateOpen(s) then Push(s, f) else s
  }

  function DoWriteCall(s: State): State {
    var checked := Enter(s);
    if checked.handler == Idle then checked
    else
      var taken := Take(checked);
      if taken.handler == Idle then taken else Launch(taken)
  }

  // ---- The interleaving semantics ----

  /** Thread `SendGate`/`SendLocked` numbers are those of the calling threads. An action
      that is not possible in a state leaves it unchanged. */
  datatype Action =
    | SendGate(thread: nat, frame: Frame)
    | SendLocked(thread: nat)
    | RunPosted
    | Lock
    | StartWrite
    | PutOnWire(op: nat)
    | CompleteOk(op: nat)
    | CompleteErr(op: nat)
    | Close
    | Open
    | ReadOk(bytes: Bytes)
    | ReadErr

  /** What runs on the strand needs the strand to be free. The client is closed from any
      thread, a server session only by its own packet handler. */
  predicate Possible(s: State, a: Action) {
    match a
    case SendGate(t, _) => t !in s.passed
    case SendLocked(t) => t in s.passed
    case RunPosted => s.posted > 0 && s.handler == Idle
    case Lock => s.handler == Checked
    case StartWrite => s.handler == Popped
    case PutOnWire(i) => i < |s.flight| && !s.flight[i].sent
    case CompleteOk(i) => i < |s.flight| && s.flight[i].sent && s.handler == Idle
    case CompleteErr(i) => i < |s.flight| && s.handler == Idle
    case Close => s.kind == ServerSide ==> s.handler == Idle
    case Open => !s.live && s.handler == Idle
    case ReadOk(_) => s.rd.reading && s.handler == Idle
    case ReadErr => s.rd.reading && s.handler == Idle
  }

  function Step(s: State, a: Action): State {
    if !Possible(s, a) then s
    else match a
      case SendGate(t, f) => if GateOpen(s) then s.(passed := s.passed[t := f]) else s
      case SendLocked(t) => Push(s.(passed := s.passed - {t}), s.passed[t])
      case RunPosted => Enter(s.(posted := s.posted - 1))
      case Lock => Take(s)
      case StartWrite => Launch(s)
      case PutOnWire(i) => Transmit(s, i)
      case CompleteOk(i) => Enter(Retire(s, i))
      case CompleteErr(i) => WriteFailed(Retire(s, i))
      case Close => Closed(s)
      case Open => Opened(s)
      case ReadOk(bytes) => ReadDone(s, bytes)
      case ReadErr => ReadFailed(s)
  }

  function Run(s: State, acts: seq<Action>): State {
    if acts == [] then s else Step(Run(s, acts[..|acts| - 1]), acts[|acts| - 1])
  }

  /** A whole call is one particular interleaving: nobody else moves in between. */
  lemma SendCallIsARun(s: State, t: nat, f: Frame)
    requires t !in s.passed
    ensures Step(Step(s, SendGate(t, f)), SendLocked(t)) == SendCall(s, f)
  {
  }

  lemma DoWriteCallIsARun(s: State)
    requires s.posted > 0 && s.handler == Idle
    ensures Step(Step(Step(s, RunPosted), Lock), StartWrite) == DoWriteCall(s.(posted := s.posted - 1))
  {
  }

  // ---- The class ----

  class WsTransport {
    const kind: Kind
    var connected: bool
    var closing: bool
    var queue: seq<Frame>
    var pending: Frame
    var writing: bool
    var readBuf: Bytes

    // What the executor and the stream hold on behalf of this object, and histories.
    ghost var live: bool
    ghost var reading: bool
    ghost var posted: nat
    ghost var flight: seq<WriteOp>
    ghost var failed: bool
    ghost var accepted: seq<Frame>
    ghost var started: seq<Frame>
    ghost var wire: seq<Frame>
    ghost var received: seq<Bytes>
    ghost var delivered: seq<Message>

    /** The state between two whole calls. */
    ghost function View(): State
      reads this
    {
      State(kind, live, connected, closing, failed, queue, pending, writing, map[], posted, Idle, flight,
            Log(accepted, started, wire), Reader(readBuf, reading, received, delivered))
    }

    constructor (kind: Kind)
      ensures View() == Init(kind)
      ensures !connected && !closing && queue == [] && !writing && readBuf == [] && !reading && flight == []
    {
      this.kind := kind;
      connected, closing, queue, pending, writing, readBuf := false, false, [], [], false, [];
      live, reading, posted, flight, failed := false, false, 0, [], false;
      accepted, started, wire, received, delivered := [], [], [], [], [];
    }

    method IsOpen() returns (r: bool)
      ensures r == GateOpen(View())
      ensures r <==> (kind == ClientSide && !closing) || (kind == ServerSide && connected)
    {
      r := if kind == ClientSide then !closing else connected;
    }

    /** The connection stands: the client runs its connect callback after this. */
    method MarkUp()
      modifies this`live, this`connected
      ensures View() == MarkedUp(old(View()))
      ensures live && connected
    {
      live, connected := true, true;
    }

    /** `do_read`. */
    method BeginRead()
      modifies this`reading
      ensures View() == ReadBegun(old(View()))
      ensures reading <==> kind == ServerSide || !closing
    {
      reading := kind == ClientSide ==> !closing;
    }

    /** `start` of a server session. */
    method Start()
      modifies this
      ensures View() == Opened(old(View()))
      ensures live && connected && (reading <==> kind == ServerSide || !closing)
    {
      MarkUp();
      BeginRead();
    }

    method Send(data: Frame)
      modifies this
      ensures View() == SendCall(old(View()), data)
      ensures if (if kind == ClientSide then closing else !connected)
              then queue == old(queue) && accepted == old(accepted) && posted == old(posted)
              else queue == old(queue) + [data] && accepted == old(accepted) + [data] && writing
                   && posted == old(posted) + (if old(writing) then 0 else 1)
    {
      var open := IsOpen();
      if !open {
        return;
      }
      queue, accepted := queue + [data], accepted + [data];
      if !writing {
        writing, posted := true, posted + 1;
      }
    }

    method DoWrite()
      modifies this
      ensures View() == DoWriteCall(old(View()))
      ensures if (if kind == ClientSide then closing else !connected)
              then queue == old(queue) && started == old(started) && writing == old(writing)
              else if old(queue) == [] then started == old(started) && !writing
              else queue == old(queue)[1..] && started == old(started) + [old(queue)[0]] && pending == old(queue)[0]
    {
      var open := IsOpen();
      if open {
        var more := TakeFrame();
        if more {
          flight, started := flight + [WriteOp(pending, false)], started + [pending];
        }
      }
    }

    /** The critical section of `do_write`: false when there was nothing to write. */
    method TakeFrame() returns (more: bool)
      modifies this
      ensures more == (old(queue) != [])
      ensures View() == Take(old(View())).(handler := Idle)
    {
      more := |queue| > 0;
      if more {
        pending, queue := queue[0], queue[1..];
      } else {
        writing := false;
      }
    }

    /** The handler of operation `op`, which the stream has just finished; the result says
        whether the error callback is called. */
    method OnWrite(error: bool, ghost op: nat) returns (reported: bool)
      requires op < |flight|
      modifies this
      ensures View() == if error then WriteFailed(Retire(old(View()), op)) else DoWriteCall(Retire(old(View()), op))
      ensures reported <==> error && kind == ClientSide && !old(closing)
      ensures error ==> started == old(started) && (connected <==> kind == ClientSide && closing && old(connected))
    {
      flight := flight[..op] + flight[op + 1..];
      if error {
        failed := true;
        if kind == ServerSide {
          connected := false;
          return false;
        }
        reported := Fail();
        return;
      }
      DoWrite();
      return false;
    }

    /** `fail` of the client. */
    method Fail() returns (reported: bool)
      requires kind == ClientSide
      modifies this`connected
      ensures connected == (old(connected) && closing)
      ensures reported <==> !closing
    {
      if closing {
        return false;
      }
      connected := false;
      return true;
    }

    method Close()
      modifies this
      ensures View() == Closed(old(View()))
      ensures kind == ClientSide ==> closing
      ensures connected <==> kind == ClientSide && old(closing && connected)
    {
      if kind == ClientSide {
        if closing {
          return;
        }
        closing := true;
      }
      connected := false;
    }

    /** `on_read` up to the packet callback: the stream has appended one message to the read
        buffer. */
    method TakeMessage(bytes: Bytes) returns (packet: Option<Message>)
      modifies this`readBuf, this`reading, this`received, this`delivered
      ensures View() == ReadTaken(old(View()), bytes) && packet == Dispatch(old(readBuf) + bytes)
      ensures readBuf == old(readBuf) + bytes && !reading
    {
      readBuf, reading := readBuf + bytes, false;
      packet := Dispatch(readBuf);
      received, delivered := received + [bytes], delivered + (match packet case Some(m) => [m] case None => []);
    }

    /** The rest of `on_read`: the buffer is consumed and the next read starts. */
    method ResumeRead()
      modifies this`readBuf, this`reading
      ensures View() == ReadResumed(old(View()))
      ensures readBuf == [] && (reading <==> kind == ServerSide || !closing)
    {
      readBuf := [];
      BeginRead();
    }

    /** `on_read` with a packet callback that leaves the transport alone; `reported` says
        whether the error callback is called. */
    method OnRead(error: bool, bytes: Bytes) returns (packet: Option<Message>, reported: bool)
      modifies this
      ensures error ==> View() == ReadFailed(old(View())) && packet == None && !connected && !reading
      ensures !error ==> View() == ReadDone(old(View()), bytes) && packet == Dispatch(old(readBuf) + bytes)
      ensures reported <==> error && (kind == ServerSide || !old(closing))
    {
      if error {
        connected := false;
        reading := false;
        if kind == ServerSide {
          return None, true;
        }
        reported := Fail();
        return None, reported;
      }
      packet := TakeMessage(bytes);
      ResumeRead();
      reported := false;
    }
  }
}
