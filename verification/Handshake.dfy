/** A client and a server session joined by two FIFO channels, on the client's first
    connection. That the channels lose and reorder nothing is `Link.EndToEnd`; that a
    rejection and everything after it stay unwritten is `Strand.RejectionIsNeverWritten`.
    The session sets its flag well before it sends the auth response, so the server's TUN
    thread may put IP packets in front of it. */
module Handshake {
  import opened Basics
  import opened Protocol
  import opened Session
  import opened Client
  import Window
  import T = Transport

  /** The two parties. */
  datatype Parties = Parties(client: ClientConfig, server: Config)

  function AnswerOf(a: AuthReply): AnswerJson {
    match a
    case Granted(ip, serverIp, mask, mtu) => Answer(Some(true), Some(ip), Some(serverIp), Some(mask), Some(mtu))
    case Denied => Answer(Some(false), None, None, None, None)
  }

  /** Each side's JSON library reads what the other's writes, for the requests this client
      makes and the two replies this session gives. */
  ghost predicate Compatible(p: Parties) {
    && (forall t: u64 {:trigger Hello(p.client, t)} ::
          p.server.parse(p.client.dump(Hello(p.client, t))) == Hello(p.client, t))
    && (forall ok: bool {:trigger AnswerTo(p.server, ok)} ::
          p.client.parse(p.server.dump(AnswerTo(p.server, ok))) == AnswerOf(AnswerTo(p.server, ok)))
  }

  datatype State = State(
    core: Core,
    hello: Option<Message>,     // the auth request, once the client has connected
    auth: bool,                 // the server session's flag
    stuck: bool,
    hungUp: bool,
    reply: Option<Message>,     // between setting the flag and sending the auth response
    up: seq<Message>,           // client to server
    upRead: nat,
    down: seq<Message>,         // server to client
    downRead: nat,
    uplink: seq<Payload>,       // packets the client took from its TUN and sent
    forwarded: seq<Payload>,    // packets the server wrote to its TUN
    written: seq<Payload>,      // packets the client wrote to its TUN
    dropped: nat)               // IP packets the server dropped for lack of authentication

  function Init(): State {
    State(Core(true, false, 0, None), None, false, false, false, None, [], 0, [], 0, [], [], [], 0)
  }

  datatype Action =
    | Connect(now: u64)
    | ServerReads(now: u64)            // the strand handles a packet, up to sending the reply
    | ServerReplies                    // ... and sends it
    | ServerSends(packet: Payload)     // the server's TUN thread routes a packet here
    | ClientReads(opens: bool)
    | ClientForwards(packet: Payload)  // one round of the client's tun_read_loop
    | ClientError
    | ClientStop

  /** The reply that leaves the server: one that is followed by closing never does. */
  function ReplyOf(effects: seq<Effect>): Option<Message> {
    if |effects| == 1 && effects[0].Reply? then Some(effects[0].message) else None
  }

  function ServerHandles(p: Parties, s: State, e: Event): State {
    match React(p.server, s.auth, e)
    case Stuck => s.(stuck := true)
    case Done(auth, effects) =>
      s.(auth := auth, upRead := s.upRead + 1,
         hungUp := s.hungUp || Hangup in effects,
         reply := ReplyOf(effects),
         forwarded := s.forwarded + Forwards(effects),
         dropped := s.dropped + (if e.IpPacket? && !s.auth then 1 else 0))
  }

  ghost function Step(p: Parties, s: State, a: Action): State {
    match a
    case Connect(now) =>
      if s.hello.Some? then s
      else s.(hello := Some(AuthMessage(p.client, now)), core := Connected(s.core), up := [AuthMessage(p.client, now)])
    case ServerReads(now) =>
      if s.stuck || s.reply.Some? || s.upRead >= |s.up| then s
      else ServerHandles(p, s, EventOf(p.server, s.up[s.upRead], now))
    case ServerReplies =>
      if s.reply.None? then s
      else s.(reply := None, down := s.down + (if s.hungUp then [] else [s.reply.value]))
    case ServerSends(packet) =>
      if s.auth && !s.hungUp then s.(down := s.down + [Message(IP_PACKET, packet)]) else s
    case ClientReads(opens) =>
      if s.downRead >= |s.down| then s
      else
        var (core, effect) := OnPacketCall(p.client, s.core, s.core.connected, s.down[s.downRead], opens);
        s.(core := core, downRead := s.downRead + 1,
           up := s.up + (if effect.Transmit? then [effect.message] else []),
           written := s.written + (if effect.WriteTun? then [effect.payload] else []))
    case ClientForwards(packet) =>
      if s.core.running && TunOpen(s.core) && packet != []
      then s.(up := s.up + [Message(IP_PACKET, packet)], uplink := s.uplink + [packet]) else s
    case ClientError => s.(core := ErrorCall(s.core))
    case ClientStop => s.(core := Stopped(s.core))
  }

  ghost function Run(p: Parties, acts: seq<Action>): State {
    if acts == [] then Init() else Step(p, Run(p, acts[..|acts| - 1]), acts[|acts| - 1])
  }

  /** The device a granted client opens. */
  function DeviceOf(c: Config, isOpen: bool): Device {
    Device(c.virtualIp, c.tun.serverIp, c.tun.mask, c.tun.mtu, isOpen)
  }

  function AsMessages(packets: seq<Payload>): seq<Message> {
    seq(|packets|, i requires 0 <= i < |packets| => Message(IP_PACKET, packets[i]))
  }

  ghost predicate UpInv(s: State) {
    && s.upRead <= |s.up|
    && match s.hello
       case None => s.up == [] && s.uplink == []
       case Some(h) => h.kind == AUTH_REQUEST && s.up == [h] + AsMessages(s.uplink)
  }

  ghost predicate ServerInv(s: State) {
    && s.dropped == 0
    && (s.auth ==> s.upRead > 0)
    && (s.uplink != [] ==> s.auth)
    && s.upRead <= |s.uplink| + 1
    && s.forwarded == (if s.upRead == 0 then [] else s.uplink[..s.upRead - 1])
  }

  predicate IsAnswer(m: Message) {
    m.kind != IP_PACKET
  }

  /** The server's messages are IP packets and, once, its positive answer. */
  ghost predicate DownInv(p: Parties, s: State) {
    && s.downRead <= |s.down|
    && (s.down != [] ==> s.auth)
    && (s.reply.Some? ==> s.auth && s.reply.value == Grant(p) && !Answered(s.down))
    && (forall i :: 0 <= i < |s.down| && IsAnswer(s.down[i]) ==> s.down[i] == Grant(p))
    && AnsweredOnce(s.down)
  }

  predicate Answered(down: seq<Message>) {
    exists i :: 0 <= i < |down| && IsAnswer(down[i])
  }

  predicate AnsweredOnce(down: seq<Message>) {
    forall i, j :: 0 <= i < j < |down| ==> !(IsAnswer(down[i]) && IsAnswer(down[j]))
  }

  /** The IP packets that follow the answer. */
  function AfterAnswer(down: seq<Message>): seq<Payload> {
    if down == [] then []
    else
      var before, last := down[..|down| - 1], down[|down| - 1];
      if Answered(before) && !IsAnswer(last) then AfterAnswer(before) + [last.payload] else []
  }

  ghost predicate TunInv(p: Parties, s: State) {
    s.core.tun.Some? ==> s.auth && s.core.tun == Some(DeviceOf(p.server, s.core.tun.value.isOpen))
  }

  ghost predicate WrittenInv(s: State) {
    && s.downRead <= |s.down|
    && s.written <= AfterAnswer(s.down[..s.downRead])
    && (TunOpen(s.core) ==> Answered(s.down[..s.downRead]) && s.written == AfterAnswer(s.down[..s.downRead]))
  }

  ghost predicate Inv(p: Parties, s: State) {
    UpInv(s) && ServerInv(s) && DownInv(p, s) && TunInv(p, s) && WrittenInv(s)
  }

  /** The server sees the auth request first and only IP packets afterwards. */
  lemma EventsOf(p: Parties, s: State, now: u64)
    requires UpInv(s) && s.upRead < |s.up|
    ensures var e := EventOf(p.server, s.up[s.upRead], now);
            if s.upRead == 0 then e.AuthRequest? else e == IpPacket(s.uplink[s.upRead - 1])
  {
  }

  function Grant(p: Parties): Message {
    Message(AUTH_RESPONSE, p.server.dump(AnswerTo(p.server, true)))
  }

  /** What the two relevant kinds of event do to the server, spelled out. */
  lemma AuthEventResult(p: Parties, s: State, v: Window.Verdict)
    requires s.upRead == 0 && s.reply.None?
    ensures ServerHandles(p, s, AuthRequest(v)) ==
              match v
              case Hangs => s.(stuck := true)
              case Accepts => s.(auth := true, upRead := 1, reply := Some(Grant(p)))
              case Rejects => s.(auth := false, upRead := 1, hungUp := true)
  {
    var ok := v == Window.Accepts;
    ApplyOfAuth(p.server, T.Init(T.ServerSide), ok);
    var effects := AuthEffects(p.server, ok);
    assert |effects| == (if ok then 1 else 2) && effects[0].Reply?;
    assert Hangup in effects <==> !ok by {
      if !ok {
        assert effects[1] == Hangup;
      }
    }
    assert s.forwarded + [] == s.forwarded;
  }

  /** What would count as a packet lost for lack of authentication. */
  lemma UnauthenticatedPacket(p: Parties, s: State, packet: Payload)
    requires !s.auth && s.reply.None?
    ensures ServerHandles(p, s, IpPacket(packet)) == s.(upRead := s.upRead + 1, dropped := s.dropped + 1)
  {
    assert s.forwarded + [] == s.forwarded;
  }

  lemma IpEventResult(p: Parties, s: State, packet: Payload)
    requires s.auth && s.reply.None?
    ensures ServerHandles(p, s, IpPacket(packet)) == s.(upRead := s.upRead + 1, forwarded := s.forwarded + [packet])
  {
    FiltersOfOne(Forward(packet));
  }

  lemma AuthEvent(p: Parties, s: State, v: Window.Verdict)
    requires Inv(p, s) && s.upRead == 0 && |s.up| > 0 && s.reply.None?
    ensures Inv(p, ServerHandles(p, s, AuthRequest(v)))
  {
    AuthEventResult(p, s, v);
  }

  lemma IpEvent(p: Parties, s: State, packet: Payload)
    requires Inv(p, s) && 0 < s.upRead < |s.up| && packet == s.uplink[s.upRead - 1] && s.reply.None?
    ensures Inv(p, ServerHandles(p, s, IpPacket(packet)))
  {
    IpEventResult(p, s, packet);
    assert s.uplink[..s.upRead] == s.uplink[..s.upRead - 1] + [packet];
  }

  lemma ServerStep(p: Parties, s: State, now: u64)
    requires Inv(p, s) && s.upRead < |s.up| && s.reply.None?
    ensures Inv(p, ServerHandles(p, s, EventOf(p.server, s.up[s.upRead], now)))
  {
    EventsOf(p, s, now);
    var e := EventOf(p.server, s.up[s.upRead], now);
    if s.upRead == 0 {
      AuthEvent(p, s, e.verdict);
    } else {
      IpEvent(p, s, e.payload);
    }
  }

  /** Another message of the server: an IP packet, or its one answer. */
  lemma DownStep(p: Parties, s: State, m: Message)
    requires Inv(p, s) && s.auth
    requires m.kind == IP_PACKET || (m == Grant(p) && !Answered(s.down))
    ensures Inv(p, s.(reply := if IsAnswer(m) then None else s.reply, down := s.down + [m]))
  {
    var down := s.down + [m];
    assert down[..s.downRead] == s.down[..s.downRead];
    assert !IsAnswer(m) ==> (Answered(down) ==> Answered(s.down));
  }

  lemma ReplyStep(p: Parties, s: State)
    requires Inv(p, s)
    ensures Inv(p, Step(p, s, ServerReplies))
  {
  }

  /** Reading one more message extends what follows the answer. */
  lemma AfterAnswerStep(down: seq<Message>, k: nat)
    requires k < |down| && AnsweredOnce(down)
    ensures IsAnswer(down[k]) ==> AfterAnswer(down[..k]) == [] == AfterAnswer(down[..k + 1]) && Answered(down[..k + 1])
    ensures !IsAnswer(down[k]) ==>
              && Answered(down[..k + 1]) == Answered(down[..k])
              && AfterAnswer(down[..k]) <= AfterAnswer(down[..k + 1])
              && (Answered(down[..k]) ==> AfterAnswer(down[..k + 1]) == AfterAnswer(down[..k]) + [down[k].payload])
  {
    assert down[..k + 1][..k] == down[..k] && down[..k + 1][k] == down[k];
    if !Answered(down[..k]) {
      NotAnswered(down[..k]);
    }
  }

  lemma NotAnswered(down: seq<Message>)
    requires !Answered(down)
    ensures AfterAnswer(down) == []
  {
  }

  lemma {:induction false} AfterAnswerGrows(down: seq<Message>, k: nat)
    requires k <= |down| && AnsweredOnce(down)
    ensures AfterAnswer(down[..k]) <= AfterAnswer(down)
    decreases |down| - k
  {
    if k < |down| {
      AfterAnswerStep(down, k);
      AfterAnswerGrows(down, k + 1);
    } else {
      assert down[..k] == down;
    }
  }

  /** What a message of this server does to the client, spelled out. */
  lemma ClientReaction(p: Parties, s: State, m: Message, opens: bool)
    requires Compatible(p) && (m.kind == IP_PACKET || m == Grant(p))
    ensures OnPacketCall(p.client, s.core, s.core.connected, m, opens) ==
              if m.kind == IP_PACKET then (s.core, if TunOpen(s.core) then WriteTun(m.payload) else Nothing)
              else
                var device := s.core.(tun := Some(DeviceOf(p.server, opens)));
                if opens then (device, Nothing) else (Stopped(device), StopEffect(s.core))
  {
  }

  lemma ClientStep(p: Parties, s: State, opens: bool)
    requires Inv(p, s) && Compatible(p) && s.downRead < |s.down|
    ensures var (core, effect) := OnPacketCall(p.client, s.core, s.core.connected, s.down[s.downRead], opens);
            && !effect.Transmit?
            && Inv(p, s.(core := core, downRead := s.downRead + 1,
                         written := s.written + (if effect.WriteTun? then [effect.payload] else [])))
  {
    AfterAnswerStep(s.down, s.downRead);
    ClientReaction(p, s, s.down[s.downRead], opens);
  }

  lemma ClientErrorStep(p: Parties, s: State)
    requires Inv(p, s)
    ensures Inv(p, s.(core := ErrorCall(s.core))) && Inv(p, s.(core := Stopped(s.core)))
  {
  }

  lemma ForwardStep(p: Parties, s: State, packet: Payload)
    requires Inv(p, s) && TunOpen(s.core)
    ensures Inv(p, s.(up := s.up + [Message(IP_PACKET, packet)], uplink := s.uplink + [packet]))
  {
  }

  lemma ConnectStep(p: Parties, s: State, hello: Message)
    requires Inv(p, s) && s.hello.None? && hello.kind == AUTH_REQUEST
    ensures Inv(p, s.(hello := Some(hello), core := Connected(s.core), up := [hello]))
  {
  }

  lemma ServerStepInv(p: Parties, s: State, a: Action)
    requires Inv(p, s) && (a.ServerReads? || a.ServerReplies? || a.ServerSends?)
    ensures Inv(p, Step(p, s, a))
  {
    match a
    case ServerReads(now) =>
      if !s.stuck && s.reply.None? && s.upRead < |s.up| {
        ServerStep(p, s, now);
      }
    case ServerReplies => ReplyStep(p, s);
    case ServerSends(packet) =>
      if s.auth && !s.hungUp {
        DownStep(p, s, Message(IP_PACKET, packet));
      }
  }

  lemma ClientStepInv(p: Parties, s: State, a: Action)
    requires Inv(p, s) && Compatible(p) && (a.ClientReads? || a.ClientForwards?)
    ensures Inv(p, Step(p, s, a))
  {
    match a
    case ClientReads(opens) =>
      if s.downRead < |s.down| {
        ClientStep(p, s, opens);
        assert s.up + [] == s.up;
      }
    case ClientForwards(packet) =>
      if TunOpen(s.core) {
        ForwardStep(p, s, packet);
      }
  }

  lemma StepInv(p: Parties, s: State, a: Action)
    requires Inv(p, s) && Compatible(p)
    ensures Inv(p, Step(p, s, a))
  {
    match a
    case Connect(now) =>
      if s.hello.None? {
        ConnectStep(p, s, AuthMessage(p.client, now));
      }
    case ServerReads(_) => ServerStepInv(p, s, a);
    case ServerReplies => ServerStepInv(p, s, a);
    case ServerSends(_) => ServerStepInv(p, s, a);
    case ClientReads(_) => ClientStepInv(p, s, a);
    case ClientForwards(_) => ClientStepInv(p, s, a);
    case ClientError => ClientErrorStep(p, s);
    case ClientStop => ClientErrorStep(p, s);
  }

  /** The only auth request is the one the client built from its own clock. */
  lemma {:induction false} HelloIsOurs(p: Parties, acts: seq<Action>)
    ensures var hello := Run(p, acts).hello; hello.Some? ==> exists t: u64 :: hello.value == AuthMessage(p.client, t)
  {
    if acts != [] {
      HelloIsOurs(p, acts[..|acts| - 1]);
      HelloStep(p, Run(p, acts[..|acts| - 1]), acts[|acts| - 1]);
    }
  }

  lemma HelloStep(p: Parties, s: State, a: Action)
    ensures Step(p, s, a).hello == s.hello || (a.Connect? && Step(p, s, a).hello == Some(AuthMessage(p.client, a.now)))
  {
  }

  lemma {:induction false} RunInv(p: Parties, acts: seq<Action>)
    requires Compatible(p)
    ensures Inv(p, Run(p, acts))
  {
    if acts != [] {
      RunInv(p, acts[..|acts| - 1]);
      StepInv(p, Run(p, acts[..|acts| - 1]), acts[|acts| - 1]);
    }
  }

  /** The device has the address that the session announces and the server's settings. */
  predicate Carries(d: Device, c: Config) {
    d.address == c.virtualIp && d.peer == c.tun.serverIp && d.mask == c.tun.mask && d.mtu == c.tun.mtu
  }

  /** In every run: the client sends one auth request and after it only IP packets; the
      server answers at most once and otherwise sends IP packets; an open client TUN means
      the server has authenticated this session and the device carries the address it was
      given. So the server never drops a packet of this client for lack of authentication.
      The server's TUN has got every packet of the client that has been read, and while the
      client's is open it has got every packet read after the answer; a client whose TUN is
      closed has written a prefix of these. */
  lemma HandshakeSafety(p: Parties, acts: seq<Action>)
    requires Compatible(p)
    ensures var s := Run(p, acts);
            && (s.up == [] || exists t: u64 :: s.up == [AuthMessage(p.client, t)] + AsMessages(s.uplink))
            && AnsweredOnce(s.down)
            && (TunOpen(s.core) ==> s.auth && Carries(s.core.tun.value, p.server))
            && s.dropped == 0
            && s.upRead <= |s.uplink| + 1 && s.downRead <= |s.down|
            && s.forwarded == (if s.upRead == 0 then [] else s.uplink[..s.upRead - 1])
            && s.written <= AfterAnswer(s.down)
            && (TunOpen(s.core) ==> s.written == AfterAnswer(s.down[..s.downRead]))
  {
    RunInv(p, acts);
    HelloIsOurs(p, acts);
    SafetyOf(p, Run(p, acts));
  }

  lemma SafetyOf(p: Parties, s: State)
    requires Inv(p, s)
    ensures s.written <= AfterAnswer(s.down)
    ensures s.up == [] || (s.hello.Some? && s.up == [s.hello.value] + AsMessages(s.uplink))
    ensures TunOpen(s.core) ==> s.auth && s.core.tun == Some(DeviceOf(p.server, true))
  {
    AfterAnswerGrows(s.down, s.downRead);
  }

  /** An error of a connected client, or the stop of a running one. */
  predicate Disturbs(s: State, a: Action) {
    (a.ClientError? && s.core.connected) || (a.ClientStop? && s.core.running)
  }

  predicate ReadsAnswer(s: State, a: Action) {
    a.ClientReads? && s.downRead < |s.down| && IsAnswer(s.down[s.downRead])
  }

  lemma OpenStep(p: Parties, s: State, a: Action)
    requires TunOpen(Step(p, s, a).core) && !ReadsAnswer(s, a)
    ensures TunOpen(s.core) && !Disturbs(s, a)
  {
    match a
    case Connect(_) =>
    case ServerReads(now) => ServerKeepsCore(p, s, a);
    case ServerReplies => ServerKeepsCore(p, s, a);
    case ServerSends(_) => ServerKeepsCore(p, s, a);
    case ClientReads(_) =>
    case ClientForwards(_) =>
    case ClientError =>
    case ClientStop =>
  }

  lemma ServerKeepsCore(p: Parties, s: State, a: Action)
    requires a.ServerReads? || a.ServerReplies? || a.ServerSends?
    ensures Step(p, s, a).core == s.core
  {
  }

  /** Step `k` read the answer, and nothing has disturbed the client since. */
  ghost predicate OpenedAt(p: Parties, acts: seq<Action>, k: nat) {
    && k < |acts| && ReadsAnswer(Run(p, acts[..k]), acts[k])
    && forall j :: k < j < |acts| ==> !Disturbs(Run(p, acts[..j]), acts[j])
  }

  lemma StillOpen(p: Parties, before: seq<Action>, a: Action, k: nat)
    requires OpenedAt(p, before, k) && !Disturbs(Run(p, before), a)
    ensures OpenedAt(p, before + [a], k)
  {
    var acts := before + [a];
    assert acts[..k] == before[..k];
    forall j | k < j < |acts|
      ensures !Disturbs(Run(p, acts[..j]), acts[j])
    {
      assert acts[..j] == before[..j];
    }
  }

  lemma JustOpened(p: Parties, before: seq<Action>, a: Action)
    requires ReadsAnswer(Run(p, before), a)
    ensures OpenedAt(p, before + [a], |before|)
  {
    assert (before + [a])[..|before|] == before;
  }

  /** An open client TUN was opened by an answer, and since then no error has met the
      connected client and nobody has stopped it. */
  lemma {:induction false} OpenSinceAnswer(p: Parties, acts: seq<Action>) returns (k: nat)
    requires TunOpen(Run(p, acts).core)
    ensures OpenedAt(p, acts, k)
  {
    var before, last := acts[..|acts| - 1], acts[|acts| - 1];
    assert acts == before + [last];
    if ReadsAnswer(Run(p, before), last) {
      JustOpened(p, before, last);
      k := |before|;
    } else {
      OpenStep(p, Run(p, before), last);
      k := OpenSinceAnswer(p, before);
      StillOpen(p, before, last, k);
    }
  }

  lemma {:induction false} PacketsOnly(ms: seq<Message>)
    requires forall i :: 0 <= i < |ms| ==> !IsAnswer(ms[i])
    ensures |IpPayloads(ms)| == |ms|
  {
    if ms != [] {
      PacketsOnly(ms[..|ms| - 1]);
    }
  }

  /** With the answer at position `g`, the first `g` packets are those not after it. */
  lemma {:induction false} AheadOfAnswer(down: seq<Message>, g: nat)
    requires g < |down| && IsAnswer(down[g]) && AnsweredOnce(down)
    ensures |IpPayloads(down)| == |AfterAnswer(down)| + g
    ensures g == 0 ==> IpPayloads(down) == AfterAnswer(down)
  {
    var before := down[..|down| - 1];
    if g == |before| {
      PacketsOnly(before);
    } else {
      assert IsAnswer(before[g]);
      AheadOfAnswer(before, g);
    }
  }

  /** Exactly when nothing is lost: in every run, an open client TUN has got every IP packet
      read so far if and only if the answer was the first message of the server; if not,
      what is missing is as many packets as came before the answer. */
  lemma NothingLostIff(p: Parties, acts: seq<Action>) returns (g: nat)
    requires Compatible(p) && TunOpen(Run(p, acts).core)
    ensures var s := Run(p, acts);
            && g < s.downRead <= |s.down| && IsAnswer(s.down[g])
            && |IpPayloads(s.down[..s.downRead])| == |s.written| + g
            && (s.written == IpPayloads(s.down[..s.downRead]) <==> IsAnswer(s.down[0]))
  {
    RunInv(p, acts);
    var s := Run(p, acts);
    var read := s.down[..s.downRead];
    g :| 0 <= g < |read| && IsAnswer(read[g]);
    AheadOfAnswer(read, g);
  }

  // ---- Parties that understand each other ----

  function StampBytes(t: u64): (b: Payload)
    ensures |b| == 8
  {
    BigEndian(t / TWO_32) + BigEndian(t % TWO_32)
  }

  function StampOf(b: Bytes): u64
    requires |b| == 8
  {
    FromBigEndian(b[..4]) * TWO_32 + FromBigEndian(b[4..])
  }

  lemma StampRoundTrip(t: u64)
    ensures StampOf(StampBytes(t)) == t
  {
    BigEndianRoundTrip(t / TWO_32);
    BigEndianRoundTrip(t % TWO_32);
    assert StampBytes(t)[..4] == BigEndian(t / TWO_32) && StampBytes(t)[4..] == BigEndian(t % TWO_32);
  }

  /** Whatever the user, the secret and the session's configuration are, there are codecs
      that fit them. */
  lemma CompatibleParties(client: ClientConfig, server: Config) returns (p: Parties)
    ensures Compatible(p)
    ensures p.client == client.(parse := p.client.parse, dump := p.client.dump)
    ensures p.server == server.(parse := p.server.parse, dump := p.server.dump)
  {
    var hello := (t: u64) => Hello(client, t);
    p := Parties(
      client.(dump := (r: AuthJson) => if r.Fields? && r.timestamp.Some? then StampBytes(r.timestamp.value) else [],
              parse := (b: Bytes) => AnswerOf(AnswerTo(server, b == [1]))),
      server.(parse := (b: Bytes) => if |b| == 8 then hello(StampOf(b)) else Malformed,
              dump := (a: AuthReply) => if a.Granted? then [1] else [0]));
    forall t: u64
      ensures p.server.parse(p.client.dump(Hello(p.client, t))) == Hello(p.client, t)
    {
      StampRoundTrip(t);
    }
  }

  // ---- Opening the tunnel ----

  /** The client connects and the session handles its request. */
  function Opening(client: u64, server: u64): seq<Action> {
    [Connect(client), ServerReads(server)]
  }

  lemma Then(p: Parties, before: seq<Action>, a: Action)
    ensures Run(p, before + [a]) == Step(p, Run(p, before), a)
  {
  }

  lemma Opened(p: Parties, client: u64, server: u64)
    requires Compatible(p) && p.client.hmac == p.server.hmac && p.client.secret == p.server.secret
    requires AUTH_WINDOW <= client <= MAX_U64 - AUTH_WINDOW
    ensures var hello := AuthMessage(p.client, client);
            Run(p, Opening(client, server)) ==
              Init().(hello := Some(hello), core := Connected(Init().core), up := [hello], auth := true, upRead := 1,
                      reply := Some(Grant(p)))
  {
    var connected := Step(p, Init(), Connect(client));
    assert connected.up[0] == AuthMessage(p.client, client);
    assert Hello(p.client, client) == HonestRequest(p.server, p.client.user, client);
    HonestClientAccepted(p.server, p.client.user, client, server);
    assert EventOf(p.server, connected.up[0], server) == AuthRequest(Window.Accepts);
    AuthEventResult(p, connected, Window.Accepts);
    Then(p, [], Connect(client));
    Then(p, [] + [Connect(client)], ServerReads(server));
    assert [] + [Connect(client)] + [ServerReads(server)] == Opening(client, server);
  }

  /** The packets of the server's TUN thread that overtake the answer. */
  function Sends(packets: seq<Payload>): seq<Action> {
    seq(|packets|, i requires 0 <= i < |packets| => ServerSends(packets[i]))
  }

  lemma SendResult(p: Parties, s: State, packet: Payload)
    requires s.auth && !s.hungUp
    ensures Step(p, s, ServerSends(packet)) == s.(down := s.down + [Message(IP_PACKET, packet)])
  {
  }

  lemma {:induction false} Overtaken(p: Parties, acts: seq<Action>, packets: seq<Payload>)
    requires Run(p, acts).auth && !Run(p, acts).hungUp
    ensures Run(p, acts + Sends(packets)) == Run(p, acts).(down := Run(p, acts).down + AsMessages(packets))
  {
    if packets == [] {
      assert acts + Sends(packets) == acts;
      assert Run(p, acts).down + AsMessages(packets) == Run(p, acts).down;
    } else {
      var before, last := packets[..|packets| - 1], packets[|packets| - 1];
      Overtaken(p, acts, before);
      Then(p, acts + Sends(before), ServerSends(last));
      SendResult(p, Run(p, acts + Sends(before)), last);
      assert before + [last] == packets;
      assert acts + Sends(before) + [ServerSends(last)] == acts + Sends(packets);
      AppendMessage(Run(p, acts).down, before, last);
    }
  }

  lemma AppendMessage(down: seq<Message>, before: seq<Payload>, last: Payload)
    ensures down + AsMessages(before) + [Message(IP_PACKET, last)] == down + AsMessages(before + [last])
  {
  }

  lemma DropResult(p: Parties, s: State)
    requires s.downRead < |s.down| && s.core.tun.None? && s.down[s.downRead].kind == IP_PACKET
    ensures Step(p, s, ClientReads(true)) == s.(downRead := s.downRead + 1)
  {
    assert OnPacketCall(p.client, s.core, s.core.connected, s.down[s.downRead], true) == (s.core, Nothing);
    assert s.up + [] == s.up && s.written + [] == s.written;
  }

  /** A client without a device reads any number of IP packets and drops them. */
  lemma {:induction false} ReadsAndDrops(p: Parties, acts: seq<Action>, n: nat)
    requires var s := Run(p, acts);
             && s.downRead == 0 && n <= |s.down| && s.core.tun.None?
             && forall i :: 0 <= i < n ==> s.down[i].kind == IP_PACKET
    ensures Run(p, acts + Reads(n)) == Run(p, acts).(downRead := n)
  {
    if n == 0 {
      assert acts + Reads(n) == acts;
    } else {
      ReadsAndDrops(p, acts, n - 1);
      Then(p, acts + Reads(n - 1), ClientReads(true));
      assert acts + Reads(n - 1) + [ClientReads(true)] == acts + Reads(n);
      DropResult(p, Run(p, acts + Reads(n - 1)));
    }
  }

  function Reads(n: nat): seq<Action> {
    seq(n, _ => ClientReads(true))
  }

  function TunnelRun(client: u64, server: u64, packets: seq<Payload>): seq<Action> {
    Opening(client, server) + Sends(packets) + [ServerReplies] + Reads(|packets|) + [ClientReads(true)]
  }

  /** The state after such a run. */
  function OpenTunnel(p: Parties, client: u64, packets: seq<Payload>): State {
    var hello := AuthMessage(p.client, client);
    Init().(hello := Some(hello), core := Connected(Init().core).(tun := Some(DeviceOf(p.server, true))),
            up := [hello], auth := true, upRead := 1,
            down := AsMessages(packets) + [Grant(p)], downRead := |packets| + 1)
  }

  /** Two parties that share the secret do open the tunnel, whatever the skew between
      their clocks, if the client's stays 30 seconds clear of the ends of the range, and
      whatever packets overtake the answer: those the client drops, having no device. */
  lemma TunnelOpens(p: Parties, client: u64, server: u64, packets: seq<Payload>)
    requires Compatible(p) && p.client.hmac == p.server.hmac && p.client.secret == p.server.secret
    requires AUTH_WINDOW <= client <= MAX_U64 - AUTH_WINDOW
    ensures var s := Run(p, TunnelRun(client, server, packets));
            && s == OpenTunnel(p, client, packets)
            && s.auth && s.core.running
            && TunOpen(s.core) && Carries(s.core.tun.value, p.server)
            && s.down == AsMessages(packets) + [Grant(p)] && s.downRead == |s.down| && s.written == []
  {
    var acts := Opening(client, server);
    Opened(p, client, server);
    Overtaken(p, acts, packets);
    acts := acts + Sends(packets);
    assert Run(p, acts).down == AsMessages(packets);
    Then(p, acts, ServerReplies);
    acts := acts + [ServerReplies];
    assert Run(p, acts).down == AsMessages(packets) + [Grant(p)];
    ReadsAndDrops(p, acts, |packets|);
    acts := acts + Reads(|packets|);
    Then(p, acts, ClientReads(true));
    GrantOpens(p, Run(p, acts));
  }

  /** Through an open tunnel a packet passes each way. */
  lemma TunnelCarries(p: Parties, client: u64, server: u64, packets: seq<Payload>, out: Payload, back: Payload)
    returns (acts: seq<Action>)
    requires Compatible(p) && p.client.hmac == p.server.hmac && p.client.secret == p.server.secret
    requires AUTH_WINDOW <= client <= MAX_U64 - AUTH_WINDOW && out != []
    ensures Run(p, acts).forwarded == [out] && Run(p, acts).written == [back]
  {
    TunnelOpens(p, client, server, packets);
    acts := TunnelRun(client, server, packets);
    var s := OpenTunnel(p, client, packets);
    CarriesOut(p, s, server, out);
    Then(p, acts, ClientForwards(out));
    Then(p, acts + [ClientForwards(out)], ServerReads(server));
    acts := acts + [ClientForwards(out)] + [ServerReads(server)];
    CarriesBack(p, Run(p, acts), back);
    Then(p, acts, ServerSends(back));
    Then(p, acts + [ServerSends(back)], ClientReads(true));
    acts := acts + [ServerSends(back)] + [ClientReads(true)];
  }

  lemma CarriesOut(p: Parties, s: State, now: u64, out: Payload)
    requires s.core.running && TunOpen(s.core) && s.auth && !s.stuck && s.reply.None? && out != [] && s.upRead == |s.up|
    ensures var e := Step(p, Step(p, s, ClientForwards(out)), ServerReads(now));
            e == s.(up := s.up + [Message(IP_PACKET, out)], uplink := s.uplink + [out], upRead := s.upRead + 1,
                    forwarded := s.forwarded + [out])
  {
    var sent := Step(p, s, ClientForwards(out));
    IpEventResult(p, sent, out);
    assert EventOf(p.server, sent.up[sent.upRead], now) == IpPacket(out);
  }

  lemma CarriesBack(p: Parties, s: State, back: Payload)
    requires TunOpen(s.core) && s.auth && !s.hungUp && s.downRead == |s.down|
    ensures var e := Step(p, Step(p, s, ServerSends(back)), ClientReads(true));
            e.written == s.written + [back] && e.forwarded == s.forwarded
  {
    SendResult(p, s, back);
    assert (s.down + [Message(IP_PACKET, back)])[s.downRead] == Message(IP_PACKET, back);
  }

  lemma GrantOpens(p: Parties, s: State)
    requires Compatible(p) && s.downRead < |s.down| && s.down[s.downRead] == Grant(p)
    ensures Step(p, s, ClientReads(true)) ==
              s.(core := s.core.(tun := Some(DeviceOf(p.server, true))), downRead := s.downRead + 1)
  {
    ClientReaction(p, s, Grant(p), true);
    assert s.up + [] == s.up && s.written + [] == s.written;
  }
}
