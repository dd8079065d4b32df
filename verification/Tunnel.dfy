/** The way of a packet from the server's TUN device to a client's, end to end: the session
    under every interleaving of `Strand`, the messages its transport has put on the wire, the
    client's transport under every interleaving of `Transport`, and the client's handler.

    What the client sends is not restricted: the session may meet any events. Nor is what
    else happens to the client: its other transports, timers and `stop` change its fields
    at will. */
module Tunnel {
  import opened Basics
  import opened Protocol
  import opened Order
  import opened Address
  import opened Session
  import opened Client
  import T = Transport
  import P = TransportProofs
  import S = Strand
  import F = Fleet
  import Window
  import A = Acceptor

  /** What the theorem counts. */
  datatype Log = Log(
    routed: seq<Payload>,      // packets for this client that passed the auth test
    refused: nat,              // of these, the ones that met a closed gate
    written: seq<Payload>,     // packets the client wrote to its TUN
    dropped: nat)              // IP packets the client read without an open device

  datatype State = State(session: S.State, far: T.State, core: Core, log: Log)

  /** The two ends, and the address of the client. */
  datatype Ends = Ends(server: Config, client: ClientConfig, owner: Quad)

  function Init(): State {
    State(S.Init(), T.Init(T.ClientSide), Core(true, false, 0, None), Log([], 0, [], 0))
  }

  datatype Action =
    | Server(step: S.Action)         // a step of the session
    | Far(act: T.Action)             // a step of the client's transport other than a read
    | Deliver(opens: bool)           // it reads the next message and handles it
    | ClientChanges(core: Core)      // anything else that happens to the client

  function ServerLog(owner: Quad, s: S.State, act: S.Action, log: Log): Log {
    match act
    case TunCheck(p) =>
      if s.tun.None? && s.auth && S.Addressed(owner, p) then log.(routed := log.routed + [p]) else log
    case TunGate =>
      if s.tun.Some? && S.TUN !in s.net.passed && !T.GateOpen(s.net) then log.(refused := log.refused + 1) else log
    case _ => log
  }

  function ClientLog(log: Log, m: Message, effect: ClientEffect): Log {
    if effect.WriteTun? then log.(written := log.written + [effect.payload])
    else if m.kind == IP_PACKET then log.(dropped := log.dropped + 1)
    else log
  }

  /** What handling a message does to the client's transport is left to `Far`. */
  function Handled(c: ClientConfig, s: State, packet: Option<Message>, opens: bool): State {
    match packet
    case None => s
    case Some(m) =>
      var (core, effect) := OnPacketCall(c, s.core, s.far.connected, m, opens);
      s.(core := core, log := ClientLog(s.log, m, effect))
  }

  predicate CanDeliver(s: State) {
    |s.far.rd.received| < |s.session.net.log.wire| && s.far.rd.reading && s.far.handler == T.Idle
  }

  function DeliverStep(c: ClientConfig, s: State, opens: bool): State {
    if !CanDeliver(s) then s
    else
      var frame := s.session.net.log.wire[|s.far.rd.received|];
      Handled(c, s.(far := T.Step(s.far, T.ReadOk(frame))), Dispatch(s.far.rd.buf + frame), opens)
  }

  function Step(x: Ends, s: State, a: Action): State {
    match a
    case Server(act) =>
      s.(session := S.Step(x.server, x.owner, s.session, act), log := ServerLog(x.owner, s.session, act, s.log))
    case Far(act) => if act.ReadOk? then s else s.(far := T.Step(s.far, act))
    case Deliver(opens) => DeliverStep(x.client, s, opens)
    case ClientChanges(core) => s.(core := core)
  }

  function Run(x: Ends, acts: seq<Action>): State {
    if acts == [] then Init() else Step(x, Run(x, acts[..|acts| - 1]), acts[|acts| - 1])
  }

  // ---- The server's half ----

  function Pending(s: S.State): seq<Payload> {
    if s.tun.Some? then [s.tun.value] else []
  }

  /** The packets that were routed and not refused. */
  function Line(s: S.State): seq<Payload> {
    IpPayloads(s.sent) + Pending(s)
  }

  ghost predicate ServerInv(s: S.State, log: Log) {
    InOrder(Line(s), log.routed) && |log.routed| == |Line(s)| + log.refused
  }

  lemma WorkSends(s: S.State)
    requires s.todo != []
    ensures var e := S.DoWork(s);
            && e.tun == s.tun
            && e.sent == if s.todo[0].Reply? && S.HANDLER in s.net.passed then s.sent + [s.todo[0].message] else s.sent
  {
    match s.todo[0]
    case Forward(_) =>
    case Hangup =>
    case Reply(_) =>
  }

  lemma RepliesAreNoPackets(s: S.State, e: S.State)
    requires S.FramesInv(s) && s.todo != [] && e.tun == s.tun
    requires e.sent == if s.todo[0].Reply? && S.HANDLER in s.net.passed then s.sent + [s.todo[0].message] else s.sent
    ensures s.sent <= e.sent && Line(e) == Line(s)
  {
    if s.todo[0].Reply? {
      IpPayloadsAppend(s.sent, s.todo[0].message);
    }
  }

  lemma WorkKeepsWire(s: S.State)
    requires s.todo != []
    ensures S.DoWork(s).net.log.wire == s.net.log.wire
  {
    P.CallsKeepWire(s.net, T.Close);
    P.CallsKeepWire(s.net, T.SendLocked(S.HANDLER));
    if s.todo[0].Reply? {
      P.CallsKeepWire(s.net, T.SendGate(S.HANDLER, Encode(s.todo[0].message)));
    }
  }

  lemma PushStep(x: Ends, s: S.State)
    ensures var e := S.Step(x.server, x.owner, s, S.TunPush);
            s.sent <= e.sent && Line(e) == Line(s) && e.net.log.wire == s.net.log.wire
  {
    if s.tun.Some? && S.TUN in s.net.passed {
      IpPayloadsAppend(s.sent, Message(IP_PACKET, s.tun.value));
    }
  }

  lemma CheckStep(x: Ends, s: S.State, p: Payload)
    ensures var e := S.Step(x.server, x.owner, s, S.TunCheck(p));
            && e.sent == s.sent && e.net == s.net
            && Line(e) == Line(s) + (if s.tun.None? && s.auth && S.Addressed(x.owner, p) then [p] else [])
  {
  }

  lemma GateStep(x: Ends, s: S.State)
    ensures var e := S.Step(x.server, x.owner, s, S.TunGate);
            && e.sent == s.sent && e.net.log.wire == s.net.log.wire
            && Line(s) == Line(e)
                 + (if s.tun.Some? && S.TUN !in s.net.passed && !T.GateOpen(s.net) then [s.tun.value] else [])
  {
  }

  lemma OtherStep(x: Ends, s: S.State, act: S.Action)
    requires act.Packet? || act.Net?
    ensures var e := S.Step(x.server, x.owner, s, act);
            e.sent == s.sent && Line(e) == Line(s) && s.net.log.wire <= e.net.log.wire
  {
    if act.Net? && S.NetAllowed(s, act.act) {
      P.OtherActionsSendNothing(s.net, act.act);
    }
  }

  lemma ServerStep(x: Ends, s: S.State, act: S.Action, log: Log)
    requires S.FramesInv(s) && ServerInv(s, log)
    ensures var e := S.Step(x.server, x.owner, s, act);
            && s.sent <= e.sent && s.net.log.wire <= e.net.log.wire
            && ServerInv(e, ServerLog(x.owner, s, act, log))
  {
    var e := S.Step(x.server, x.owner, s, act);
    match act
    case Packet(_) => OtherStep(x, s, act);
    case Work =>
      if s.todo != [] {
        WorkSends(s);
        RepliesAreNoPackets(s, e);
        WorkKeepsWire(s);
      }
    case TunCheck(p) =>
      CheckStep(x, s, p);
      InOrderAppend(Line(s), log.routed, p);
    case TunGate =>
      GateStep(x, s);
      if |Line(e)| < |Line(s)| {
        InOrderDrop(Line(e), s.tun.value, log.routed);
      }
    case TunPush => PushStep(x, s);
    case Net(_) => OtherStep(x, s, act);
  }

  // ---- The client's half ----

  ghost predicate ClientInv(sent: seq<Message>, wire: seq<Bytes>, rd: T.Reader, log: Log) {
    && rd.buf == [] && rd.received <= wire && |rd.received| <= |sent|
    && InOrder(log.written, IpPayloads(sent[..|rd.received|]))
    && |IpPayloads(sent[..|rd.received|])| == |log.written| + log.dropped
  }

  lemma MoreSent(before: seq<Message>, sent: seq<Message>, w: seq<Bytes>, wire: seq<Bytes>, rd: T.Reader, log: Log)
    requires ClientInv(before, w, rd, log) && before <= sent && w <= wire
    ensures ClientInv(sent, wire, rd, log)
  {
    assert sent[..|rd.received|] == before[..|rd.received|];
  }

  /** The client reads message `m`. */
  lemma MoreRead(c: ClientConfig, core: Core, up: bool, opens: bool, m: Message, got: seq<Message>, log: Log)
    requires InOrder(log.written, IpPayloads(got)) && |IpPayloads(got)| == |log.written| + log.dropped
    ensures var e := ClientLog(log, m, OnPacketCall(c, core, up, m, opens).1);
            && e.routed == log.routed && e.refused == log.refused
            && InOrder(e.written, IpPayloads(got + [m])) && |IpPayloads(got + [m])| == |e.written| + e.dropped
  {
    IpPayloadsAppend(got, m);
    InOrderAppend(log.written, IpPayloads(got), m.payload);
  }

  ghost predicate Inv(x: Ends, s: State) {
    && S.Inv(x.owner, s.session)
    && ServerInv(s.session, s.log)
    && ClientInv(s.session.sent, s.session.net.log.wire, s.far.rd, s.log)
  }

  /** The next message on the wire is the next one that was pushed. */
  lemma NextOnWire(sent: seq<Message>, wire: seq<Bytes>, n: nat)
    requires n < |wire| && wire <= EncodeAll(sent)
    ensures n < |sent| && Dispatch([] + wire[n]) == Some(sent[n])
  {
    DispatchOfEncode(sent[n], []);
    assert [] + wire[n] == Encode(sent[n]);
  }

  lemma ReadFacts(far: T.State, frame: Bytes)
    requires T.Possible(far, T.ReadOk(frame))
    ensures var rd := T.Step(far, T.ReadOk(frame)).rd; rd.buf == [] && rd.received == far.rd.received + [frame]
    ensures T.Step(far, T.ReadOk(frame)).connected == far.connected
  {
  }

  lemma DeliverResult(c: ClientConfig, s: State, opens: bool, m: Message)
    requires CanDeliver(s)
    requires Dispatch(s.far.rd.buf + s.session.net.log.wire[|s.far.rd.received|]) == Some(m)
    ensures var far := T.Step(s.far, T.ReadOk(s.session.net.log.wire[|s.far.rd.received|]));
            var e := DeliverStep(c, s, opens);
            && e.session == s.session && e.far == far
            && e.log == ClientLog(s.log, m, OnPacketCall(c, s.core, far.connected, m, opens).1)
  {
  }

  lemma ReadMore(sent: seq<Message>, wire: seq<Bytes>, rd: T.Reader, next: T.Reader, log: Log, e: Log)
    requires ClientInv(sent, wire, rd, log) && |rd.received| < |wire| && |rd.received| < |sent|
    requires next.buf == [] && next.received == rd.received + [wire[|rd.received|]]
    requires var got := IpPayloads(sent[..|rd.received|] + [sent[|rd.received|]]);
             InOrder(e.written, got) && |got| == |e.written| + e.dropped
    ensures ClientInv(sent, wire, next, e)
  {
    var n := |rd.received|;
    assert sent[..n + 1] == sent[..n] + [sent[n]];
    assert wire[..n + 1] == wire[..n] + [wire[n]];
  }

  lemma DeliverClientInv(c: ClientConfig, s: State, opens: bool)
    requires ClientInv(s.session.sent, s.session.net.log.wire, s.far.rd, s.log) && CanDeliver(s)
    requires var n := |s.far.rd.received|;
             n < |s.session.sent| && Dispatch(s.far.rd.buf + s.session.net.log.wire[n]) == Some(s.session.sent[n])
    ensures var e := DeliverStep(c, s, opens);
            && e.session == s.session && e.log.routed == s.log.routed && e.log.refused == s.log.refused
            && ClientInv(s.session.sent, s.session.net.log.wire, e.far.rd, e.log)
  {
    var n, sent, wire := |s.far.rd.received|, s.session.sent, s.session.net.log.wire;
    DeliverResult(c, s, opens, sent[n]);
    ReadFacts(s.far, wire[n]);
    MoreRead(c, s.core, s.far.connected, opens, sent[n], sent[..n], s.log);
    ReadMore(sent, wire, s.far.rd, DeliverStep(c, s, opens).far.rd, s.log, DeliverStep(c, s, opens).log);
  }

  lemma DeliverInv(x: Ends, s: State, opens: bool)
    requires Inv(x, s)
    ensures Inv(x, DeliverStep(x.client, s, opens))
  {
    if CanDeliver(s) {
      NextOnWire(s.session.sent, s.session.net.log.wire, |s.far.rd.received|);
      DeliverClientInv(x.client, s, opens);
    }
  }

  lemma ServerLogKeepsClient(owner: Quad, s: S.State, act: S.Action, log: Log)
    ensures var e := ServerLog(owner, s, act, log); e.written == log.written && e.dropped == log.dropped
  {
  }

  lemma StepInv(x: Ends, s: State, a: Action)
    requires Inv(x, s)
    ensures Inv(x, Step(x, s, a))
  {
    match a
    case Server(act) =>
      var e, log := S.Step(x.server, x.owner, s.session, act), ServerLog(x.owner, s.session, act, s.log);
      S.StepInv(x.server, x.owner, s.session, act);
      ServerStep(x, s.session, act, s.log);
      ServerLogKeepsClient(x.owner, s.session, act, s.log);
      MoreSent(s.session.sent, e.sent, s.session.net.log.wire, e.net.log.wire, s.far.rd, log);
    case Far(act) =>
      if !act.ReadOk? {
        P.OtherActionsReadNothing(s.far, act);
      }
    case Deliver(opens) => DeliverInv(x, s, opens);
    case ClientChanges(_) =>
  }

  lemma {:induction false} RunInv(x: Ends, acts: seq<Action>)
    ensures Inv(x, Run(x, acts))
  {
    if acts == [] {
      S.RunInv(x.server, x.owner, []);
    } else {
      RunInv(x, acts[..|acts| - 1]);
      StepInv(x, Run(x, acts[..|acts| - 1]), acts[|acts| - 1]);
    }
  }

  // ---- What follows for every run ----

  /** The packets pushed but not yet read by the client. */
  function OnTheWay(s: State): seq<Payload> {
    if |s.far.rd.received| <= |s.session.sent| then IpPayloads(s.session.sent[|s.far.rd.received|..]) else []
  }

  /** In every run, what the client writes to its TUN is, in order, part of what was routed
      to it, and every packet of it was queued while the session was authenticated and is
      addressed to this client. No packet is written twice and none disappears: each routed
      packet is written, or met a client without an open device, or is on its way, or is
      held by the TUN thread, or met a closed gate. */
  lemma Delivery(x: Ends, acts: seq<Action>)
    ensures var s := Run(x, acts);
            && InOrder(s.log.written, s.log.routed)
            && |s.session.sent| == |s.session.stamps|
            && (forall p :: p in s.log.written ==> |p| >= 20 && p[16..20] == x.owner && QueuedLegitimately(s, p))
            && |s.log.routed| ==
                 |s.log.written| + s.log.dropped + |OnTheWay(s)| + |Pending(s.session)| + s.log.refused
  {
    RunInv(x, acts);
    Accounts(Run(x, acts));
    forall p | p in Run(x, acts).log.written
      ensures |p| >= 20 && p[16..20] == x.owner && QueuedLegitimately(Run(x, acts), p)
    {
      WrittenIsLegitimate(x, Run(x, acts), p);
    }
  }

  lemma Accounts(s: State)
    requires ServerInv(s.session, s.log) && ClientInv(s.session.sent, s.session.net.log.wire, s.far.rd, s.log)
    ensures InOrder(s.log.written, s.log.routed)
    ensures |s.log.routed| ==
              |s.log.written| + s.log.dropped + |OnTheWay(s)| + |Pending(s.session)| + s.log.refused
  {
    Parts(s.session.sent, |s.far.rd.received|, Pending(s.session), s.log.routed, s.log.written);
  }

  lemma WrittenIsLegitimate(x: Ends, s: State, p: Payload)
    requires Inv(x, s) && p in s.log.written
    ensures S.Addressed(x.owner, p) && QueuedLegitimately(s, p)
  {
    var got := s.session.sent[..|s.far.rd.received|];
    InOrderSize(s.log.written, IpPayloads(got));
    var i := PayloadOf(got, p);
    ReadIsLegitimate(x, s, i);
  }

  /** Packet `p` was read by the client, and was queued while its session was
      authenticated. */
  ghost predicate QueuedLegitimately(s: State, p: Payload) {
    exists i :: 0 <= i < |s.far.rd.received| && i < |s.session.sent| && i < |s.session.stamps|
                && s.session.sent[i] == Message(IP_PACKET, p) && s.session.stamps[i]
  }

  lemma ReadIsLegitimate(x: Ends, s: State, i: nat)
    requires Inv(x, s) && i < |s.far.rd.received| && s.session.sent[i].kind == IP_PACKET
    ensures S.Addressed(x.owner, s.session.sent[i].payload) && QueuedLegitimately(s, s.session.sent[i].payload)
  {
    assert |s.far.rd.received| <= |s.session.net.log.wire| <= |s.session.net.log.started| <= S.Writable(s.session);
    assert s.session.sent[i] == Message(IP_PACKET, s.session.sent[i].payload) && s.session.stamps[i];
  }

  /** Hence the client has written everything that was routed to it exactly when nothing is
      still on its way, no packet met a closed gate, and none a client without a device. */
  lemma EverythingWrittenIff(x: Ends, acts: seq<Action>)
    ensures var s := Run(x, acts);
            s.log.written == s.log.routed <==>
              OnTheWay(s) == [] && s.session.tun.None? && s.log.refused == 0 && s.log.dropped == 0
  {
    Delivery(x, acts);
    InOrderSize(Run(x, acts).log.written, Run(x, acts).log.routed);
  }

  // ---- The sessions are those of a fleet ----

  function ServerSteps(acts: seq<Action>): seq<S.Action> {
    if acts == [] then []
    else
      var before, last := ServerSteps(acts[..|acts| - 1]), acts[|acts| - 1];
      if last.Server? then before + [last.step] else before
  }

  /** The client changes nothing for the session: its part of a run is a run of `Strand`. */
  lemma {:induction false} SessionPart(x: Ends, acts: seq<Action>)
    ensures Run(x, acts).session == S.Run(x.server, x.owner, ServerSteps(acts))
  {
    if acts != [] {
      var before, last := acts[..|acts| - 1], acts[|acts| - 1];
      SessionPart(x, before);
      if last.Server? {
        assert ServerSteps(acts)[..|ServerSteps(before)|] == ServerSteps(before);
      } else {
        ClientKeepsSession(x, Run(x, before), last);
      }
    }
  }

  lemma ClientKeepsSession(x: Ends, s: State, a: Action)
    requires !a.Server?
    ensures Step(x, s, a).session == s.session
  {
  }

  function EndsOf(x: F.Fixed, n: nat, client: ClientConfig): Ends {
    Ends(F.ConfigOf(x, n), client, F.AddressOf(x, n))
  }

  function Alone(own: seq<S.Action>): seq<Action> {
    seq(|own|, i requires 0 <= i < |own| => Server(own[i]))
  }

  lemma {:induction false} AloneSteps(own: seq<S.Action>)
    ensures ServerSteps(Alone(own)) == own
  {
    if own != [] {
      assert Alone(own)[..|own| - 1] == Alone(own[..|own| - 1]);
      AloneSteps(own[..|own| - 1]);
    }
  }

  /** Every session of every run of the whole server is the session of such a tunnel, and
      its client may then do anything. */
  lemma SessionsOfFleet(x: F.Fixed, fleet: seq<F.Action>, n: nat, client: ClientConfig) returns (acts: seq<Action>)
    requires n in F.Run(x, fleet).strands
    ensures Run(EndsOf(x, n, client), acts).session == F.Run(x, fleet).strands[n]
  {
    var own := F.SessionRun(x, fleet, n);
    acts := Alone(own);
    AloneSteps(own);
    SessionPart(EndsOf(x, n, client), acts);
  }

  /** Two clients less than 2^32 accepts apart never write the same packet. */
  lemma NothingDeliveredTwice(x: F.Fixed, a: nat, b: nat, ca: ClientConfig, cb: ClientConfig,
                              left: seq<Action>, right: seq<Action>, p: Payload)
    requires a < b < a + TWO_32
    ensures !(p in Run(EndsOf(x, a, ca), left).log.written && p in Run(EndsOf(x, b, cb), right).log.written)
  {
    Delivery(EndsOf(x, a, ca), left);
    Delivery(EndsOf(x, b, cb), right);
    A.AddressReuse(x.subnet, a, b);
  }

  // ---- What is on its way does arrive ----

  lemma Then(x: Ends, before: seq<Action>, a: Action) returns (acts: seq<Action>)
    ensures acts == before + [a] && Run(x, acts) == Step(x, Run(x, before), a)
  {
    acts := before + [a];
    assert acts[..|before|] == before;
  }

  /** The session writes, the client waits. */
  lemma {:induction false} AloneRun(x: Ends, acts: seq<Action>, writes: seq<T.Action>)
    ensures var (s, e) := (Run(x, acts), Run(x, acts + Alone(S.Nets(writes))));
            && e == s.(session := e.session)
            && ServerSteps(acts + Alone(S.Nets(writes))) == ServerSteps(acts) + S.Nets(writes)
  {
    if writes == [] {
      assert acts + Alone(S.Nets(writes)) == acts;
    } else {
      var before, last := writes[..|writes| - 1], writes[|writes| - 1];
      AloneRun(x, acts, before);
      S.NetsOfMore([], before, last);
      assert before + [last] == writes;
      assert S.Nets(before) + [S.Net(last)] == S.Nets(writes);
      assert acts + Alone(S.Nets(before)) + [Server(S.Net(last))] == acts + Alone(S.Nets(writes));
      var longer := Then(x, acts + Alone(S.Nets(before)), Server(S.Net(last)));
      NetChangesSession(x, Run(x, acts + Alone(S.Nets(before))), last);
    }
  }

  lemma NetChangesSession(x: Ends, s: State, act: T.Action)
    ensures var e := Step(x, s, Server(S.Net(act))); e == s.(session := e.session)
  {
  }

  ghost predicate Reads(far: T.State) {
    far.rd.reading && T.MayRead(far)
  }

  /** The session can put on the wire all it has pushed, and disturbs nobody. */
  lemma SessionWrites(x: Ends, acts: seq<Action>) returns (more: seq<Action>)
    requires var s := Run(x, acts).session; !s.stuck && s.todo == [] && s.net.connected && !s.net.failed
    ensures var (s, e) := (Run(x, acts), Run(x, more));
            && e == s.(session := e.session)
            && e.session == s.session.(net := e.session.net)
            && e.session.net.log.wire == EncodeAll(e.session.sent)
  {
    SessionPart(x, acts);
    var writes := S.WritesEverything(x.server, x.owner, ServerSteps(acts));
    more := acts + Alone(S.Nets(writes));
    AloneRun(x, acts, writes);
    SessionPart(x, more);
  }

  /** Before a message is read the device is open: one more packet is written. */
  lemma ReadOne(x: Ends, acts: seq<Action>) returns (more: seq<Action>)
    requires var s := Run(x, acts);
             && Reads(s.far) && s.far.handler == T.Idle
             && |s.far.rd.received| < |s.session.net.log.wire|
    ensures var (s, e) := (Run(x, acts), Run(x, more));
            && e.session == s.session && Reads(e.far) && e.far.handler == T.Idle
            && |e.far.rd.received| == |s.far.rd.received| + 1
            && e.log.routed == s.log.routed && e.log.refused == s.log.refused && e.log.dropped == s.log.dropped
  {
    var ready := OpenDevice(x, acts);
    RunInv(x, ready);
    ReadWithDevice(x, Run(x, ready));
    more := Then(x, ready, Deliver(true));
  }

  lemma OpenDevice(x: Ends, acts: seq<Action>) returns (more: seq<Action>)
    ensures TunOpen(Run(x, more).core) && Run(x, more) == Run(x, acts).(core := Run(x, more).core)
  {
    more := Then(x, acts, ClientChanges(Core(true, true, 0, Some(Device("", "", "", 0, true)))));
  }

  lemma ReadWithDevice(x: Ends, s: State)
    requires Inv(x, s) && CanDeliver(s) && Reads(s.far) && TunOpen(s.core)
    ensures var e := DeliverStep(x.client, s, true);
            && e.session == s.session && Reads(e.far) && e.far.handler == T.Idle
            && |e.far.rd.received| == |s.far.rd.received| + 1
            && e.log.routed == s.log.routed && e.log.refused == s.log.refused && e.log.dropped == s.log.dropped
  {
    assert s.session.net.log.wire <= EncodeAll(s.session.sent) && s.far.rd.buf == [];
    ReadNext(x.client, s);
  }

  lemma ReadNext(c: ClientConfig, s: State)
    requires CanDeliver(s) && Reads(s.far) && TunOpen(s.core)
    requires s.far.rd.buf == [] && s.session.net.log.wire <= EncodeAll(s.session.sent)
    ensures var e := DeliverStep(c, s, true);
            && e.session == s.session && Reads(e.far) && e.far.handler == T.Idle
            && |e.far.rd.received| == |s.far.rd.received| + 1
            && e.log.routed == s.log.routed && e.log.refused == s.log.refused && e.log.dropped == s.log.dropped
  {
    var n := |s.far.rd.received|;
    NextOnWire(s.session.sent, s.session.net.log.wire, n);
    DeliverResult(c, s, true, s.session.sent[n]);
    ReadFacts(s.far, s.session.net.log.wire[n]);
    ReadKeepsReading(s.far, s.session.net.log.wire[n]);
    WrittenNotDropped(c, s.core, s.far.connected, s.session.sent[n], s.log);
  }

  lemma WrittenNotDropped(c: ClientConfig, core: Core, up: bool, m: Message, log: Log)
    requires TunOpen(core)
    ensures var e := ClientLog(log, m, OnPacketCall(c, core, up, m, true).1);
            e.routed == log.routed && e.refused == log.refused && e.dropped == log.dropped
  {
  }

  lemma ReadKeepsReading(far: T.State, frame: Bytes)
    requires Reads(far) && far.handler == T.Idle
    ensures var e := T.Step(far, T.ReadOk(frame)); Reads(e) && e.handler == T.Idle
  {
  }

  /** From every state in which the session's transport is open and healthy and handles no
      packet, and the client reads, there is a continuation in which every packet on its way
      is written by the client, in order, and none is dropped. */
  lemma EverythingArrives(x: Ends, acts: seq<Action>) returns (more: seq<Action>)
    requires var s := Run(x, acts);
             && !s.session.stuck && s.session.todo == [] && s.session.net.connected && !s.session.net.failed
             && Reads(s.far) && s.far.handler == T.Idle
    ensures var (s, e) := (Run(x, acts), Run(x, more));
            && OnTheWay(e) == [] && e.session.sent == s.session.sent && e.session.tun == s.session.tun
            && e.log.routed == s.log.routed && e.log.refused == s.log.refused && e.log.dropped == s.log.dropped
            && |e.log.written| == |s.log.written| + |OnTheWay(s)|
  {
    more := SessionWrites(x, acts);
    while |Run(x, more).far.rd.received| < |Run(x, more).session.net.log.wire|
      invariant var (s, e) := (Run(x, acts), Run(x, more));
                && Reads(e.far) && e.far.handler == T.Idle
                && e.session == s.session.(net := e.session.net)
                && e.session.net.log.wire == EncodeAll(e.session.sent)
                && e.log.routed == s.log.routed && e.log.refused == s.log.refused && e.log.dropped == s.log.dropped
      decreases |Run(x, more).session.net.log.wire| - |Run(x, more).far.rd.received|
    {
      more := ReadOne(x, more);
    }
    AllRead(x, more);
    Delivery(x, acts);
    Delivery(x, more);
  }

  lemma AllRead(x: Ends, acts: seq<Action>)
    requires var s := Run(x, acts);
             |s.far.rd.received| >= |s.session.net.log.wire| && s.session.net.log.wire == EncodeAll(s.session.sent)
    ensures OnTheWay(Run(x, acts)) == []
  {
    RunInv(x, acts);
    assert Run(x, acts).session.sent[|Run(x, acts).far.rd.received|..] == [];
  }

  lemma WorkIs(x: Ends, s: State)
    ensures Step(x, s, Server(S.Work)) == s.(session := S.Step(x.server, x.owner, s.session, S.Work))
  {
  }

  lemma Checked(x: Ends, p: Payload) returns (acts: seq<Action>)
    requires S.Addressed(x.owner, p)
    ensures var s := Run(x, acts);
            && s.session.auth && S.HasChecked(s.session, p) && s.session.todo == AuthEffects(x.server, true)
            && !s.session.net.failed && s.session.net.passed == map[]
            && Reads(s.far) && s.far.handler == T.Idle
            && s.log == Log([p], 0, [], 0)
  {
    acts := Then(x, [], Far(T.Open));
    acts := Then(x, acts, Server(S.Net(T.Open)));
    acts := Then(x, acts, Server(S.Packet(AuthRequest(Window.Accepts))));
    acts := Then(x, acts, Server(S.TunCheck(p)));
  }

  /** A client whose session has authenticated it and holds packet `p` for it. */
  lemma Held(x: Ends, p: Payload) returns (acts: seq<Action>)
    requires S.Addressed(x.owner, p)
    ensures var s := Run(x, acts);
            && s.session.auth && S.HasChecked(s.session, p) && s.session.todo == [] && !s.session.net.failed
            && Reads(s.far) && s.far.handler == T.Idle
            && s.log == Log([p], 0, [], 0)
  {
    acts := Checked(x, p);
    S.AnswerSent(x.server, x.owner, Run(x, acts).session, p);
    WorkIs(x, Run(x, acts));
    acts := Then(x, acts, Server(S.Work));
    WorkIs(x, Run(x, acts));
    acts := Then(x, acts, Server(S.Work));
  }

  /** For every client and every packet for it there is a run that routes and writes it. */
  lemma PacketArrives(x: Ends, p: Payload) returns (acts: seq<Action>)
    requires |p| >= 20 && p[16..20] == x.owner
    ensures Run(x, acts).log.routed == Run(x, acts).log.written == [p]
  {
    acts := Held(x, p);
    acts := Then(x, acts, Server(S.TunGate));
    acts := Then(x, acts, Server(S.TunPush));
    acts := EverythingArrives(x, acts);
    EverythingWrittenIff(x, acts);
  }
}
