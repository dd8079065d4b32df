/** The client object of src/client/client.cpp. */
module Client {
  import opened Basics
  import opened Protocol
  import opened Crypto
  import opened Session
  import T = Transport

  const MAX_RECONNECT_DELAY_SEC := 60

  /** A TUN device and the configuration it was opened with. */
  datatype Device = Device(address: string, peer: string, mask: string, mtu: u32, isOpen: bool)

  /** An auth response as the JSON library yields it. */
  datatype AnswerJson =
    | BadAnswer
    | Answer(ok: Option<bool>, tunIp: Option<string>, serverIp: Option<string>, mask: Option<string>, mtu: Option<u32>)

  datatype ClientConfig = ClientConfig(
    hmac: Hmac,
    parse: Bytes -> AnswerJson,
    dump: AuthJson -> Payload,
    user: string,
    secret: string,
    mtu: u32)

  /** The fields the callbacks update. */
  datatype Core = Core(running: bool, connected: bool, attempt: u32, tun: Option<Device>)

  // ---- Specification ----

  /** `min(1u << min(attempt - 1, 5u), MAX_RECONNECT_DELAY_SEC)`, where `attempt - 1` wraps. */
  function Delay(attempt: u32): nat {
    var shift := if attempt == 0 || attempt - 1 > 5 then 5 else attempt - 1;
    var delay := PowerOfTwo(shift);
    if delay < MAX_RECONNECT_DELAY_SEC then delay else MAX_RECONNECT_DELAY_SEC
  }

  function PowerOfTwo(k: nat): nat {
    if k == 0 then 1 else 2 * PowerOfTwo(k - 1)
  }

  function Connected(s: Core): Core {
    s.(connected := true, attempt := 0)
  }

  /** `on_error` up to the test of `running_`, for a client that was connected. */
  function Disconnected(s: Core): Core {
    s.(connected := false, tun := None)
  }

  function Scheduled(s: Core): Core {
    s.(attempt := Add32(s.attempt, 1))
  }

  function ErrorCall(s: Core): Core {
    if !s.connected then s
    else if s.running then Scheduled(Disconnected(s))
    else Disconnected(s)
  }

  function CloseTun(tun: Option<Device>): Option<Device> {
    if tun.Some? then Some(tun.value.(isOpen := false)) else None
  }

  function Stopped(s: Core): Core {
    if s.running then s.(running := false, tun := CloseTun(s.tun)) else s
  }

  predicate TunOpen(s: Core) {
    s.tun.Some? && s.tun.value.isOpen
  }

  /** The record a client sends to authenticate itself at time `now`. */
  function Hello(c: ClientConfig, now: u64): AuthJson {
    RequestAt(c.hmac, c.user, c.secret, now)
  }

  function AuthMessage(c: ClientConfig, now: u64): Message {
    Message(AUTH_REQUEST, c.dump(Hello(c, now)))
  }

  /** What a packet makes the client do besides updating its fields. */
  datatype ClientEffect = Nothing | Transmit(message: Message) | WriteTun(payload: Payload) | CloseTransport

  function NewDevice(c: ClientConfig, a: AnswerJson, opens: bool): Device
    requires a.Answer?
  {
    Device(OrElse(a.tunIp, "10.8.0.2"), OrElse(a.serverIp, "10.8.0.1"), OrElse(a.mask, "255.255.255.0"),
           OrElse(a.mtu, c.mtu), opens)
  }

  function StopEffect(s: Core): ClientEffect {
    if s.running then CloseTransport else Nothing
  }

  /** `opens` says whether opening the TUN device succeeds, `up` whether the transport is
      connected. */
  function OnPacketCall(c: ClientConfig, s: Core, up: bool, m: Message, opens: bool): (Core, ClientEffect) {
    if m.kind == AUTH_RESPONSE then
      match c.parse(m.payload)
      case BadAnswer => (s, Nothing)
      case Answer(ok, _, _, _, _) =>
        if !OrElse(ok, false) then (Stopped(s), StopEffect(s))
        else
          var device := s.(tun := Some(NewDevice(c, c.parse(m.payload), opens)));
          if opens then (device, Nothing) else (Stopped(device), StopEffect(s))
    else if m.kind == IP_PACKET then (s, if TunOpen(s) then WriteTun(m.payload) else Nothing)
    else if m.kind == KEEPALIVE then (s, if up then Transmit(Message(KEEPALIVE, [])) else Nothing)
    else (s, Nothing)
  }

  function ApplyClient(t: T.State, effect: ClientEffect): T.State {
    match effect
    case Nothing => t
    case Transmit(m) => T.SendCall(t, Encode(m))
    case WriteTun(_) => t
    case CloseTransport => T.Closed(t)
  }

  /** Raw packets offered to the transport one after the other; an empty one is skipped. */
  function OfferedAll(t: T.State, packets: seq<Bytes>): T.State {
    if packets == [] then t
    else
      var before, last := OfferedAll(t, packets[..|packets| - 1]), packets[|packets| - 1];
      if last == [] then before else Offered(before, last)
  }

  /** The number of packets before the first that does not fit a frame. */
  function FirstOversized(packets: seq<Bytes>): (n: nat)
    ensures n <= |packets| && (forall i :: 0 <= i < n ==> |packets[i]| <= MAX_PAYLOAD)
    ensures n < |packets| ==> |packets[n]| > MAX_PAYLOAD
  {
    if packets == [] || |packets[0]| > MAX_PAYLOAD then 0 else 1 + FirstOversized(packets[1..])
  }

  /** The packets that are forwarded, as messages. */
  function Forwardable(packets: seq<Bytes>): seq<Message> {
    if packets == [] then []
    else
      var before, last := Forwardable(packets[..|packets| - 1]), packets[|packets| - 1];
      if last == [] || |last| > MAX_PAYLOAD then before else before + [Message(IP_PACKET, last)]
  }

  /** An open transport accepts every packet of the TUN device once and in order. */
  lemma {:induction false} ForwardingKeepsOrder(t: T.State, packets: seq<Bytes>)
    requires t.kind == T.ClientSide && !t.closing
    ensures var e := OfferedAll(t, packets);
            && e.kind == T.ClientSide && !e.closing
            && e.log.accepted == t.log.accepted + EncodeAll(Forwardable(packets))
  {
    if packets != [] {
      var init, last := packets[..|packets| - 1], packets[|packets| - 1];
      ForwardingKeepsOrder(t, init);
      if last != [] && |last| <= MAX_PAYLOAD {
        var m := Message(IP_PACKET, last);
        assert EncodeAll(Forwardable(init) + [m]) == EncodeAll(Forwardable(init)) + [Encode(m)];
      }
    } else {
      assert t.log.accepted + [] == t.log.accepted;
    }
  }

  /** What a packet makes of the client, by its type byte. An auth response (2) that says yes
      puts a device in place, with the offered settings or their defaults, and a client that
      cannot open it stops; one that says no stops it, one that cannot be read does nothing. */
  lemma AnswerMeaning(c: ClientConfig, s: Core, up: bool, m: Message, opens: bool)
    requires m.kind == 2
    ensures var a := c.parse(m.payload);
            var (core, effect) := OnPacketCall(c, s, up, m, opens);
            && (a.BadAnswer? ==> core == s && effect == Nothing)
            && (a.Answer? ==>
                  && core.connected == s.connected && core.attempt == s.attempt
                  && (a.ok != Some(true) || !opens ==> !core.running && (s.running ==> !TunOpen(core)))
                  && (a.ok != Some(true) || !opens ==> effect == if s.running then CloseTransport else Nothing)
                  && (a.ok == Some(true) ==>
                        && core.tun.Some?
                        && IsDevice(core.tun.value, a, c.mtu)
                        && (opens ==> core.tun.value.isOpen && core.running == s.running && effect == Nothing)))
  {
  }

  predicate IsDevice(d: Device, a: AnswerJson, mtu: u32)
    requires a.Answer?
  {
    && d.address == (if a.tunIp.Some? then a.tunIp.value else "10.8.0.2")
    && d.peer == (if a.serverIp.Some? then a.serverIp.value else "10.8.0.1")
    && d.mask == (if a.mask.Some? then a.mask.value else "255.255.255.0")
    && d.mtu == (if a.mtu.Some? then a.mtu.value else mtu)
  }

  /** An IP packet (3) is written to an open device, a keepalive (4) echoed by a connected
      transport; no other packet does anything, and none of these changes a field. */
  lemma PacketMeaning(c: ClientConfig, s: Core, up: bool, m: Message, opens: bool)
    requires m.kind != 2
    ensures OnPacketCall(c, s, up, m, opens) ==
              (s, if m.kind == 3 && s.tun.Some? && s.tun.value.isOpen then WriteTun(m.payload)
                  else if m.kind == 4 && up then Transmit(Message(4, []))
                  else Nothing)
  {
  }

  /** A transport that has come up takes the auth request and then what is forwarded. */
  lemma ForwardedAfterHandshake(t: T.State, hello: Message, packet: Payload)
    requires t.kind == T.ClientSide && !t.closing
    ensures var up := T.ReadBegun(T.SendCall(T.MarkedUp(t), Encode(hello)));
            && up.connected && up.rd.reading
            && Offered(up, packet).log.accepted == t.log.accepted + [Encode(hello), Encode(Message(IP_PACKET, packet))]
  {
  }

  lemma EffectMeaning(t: T.State, effect: ClientEffect)
    requires t.kind == T.ClientSide && !t.closing
    ensures var e := ApplyClient(t, effect);
            match effect
            case Transmit(m) => Adds(t, e, m.kind, m.payload)
            case CloseTransport => e.closing && !e.connected && e.log == t.log
            case _ => e == t
  {
    if effect.Transmit? {
      EncodeIsFrame(effect.message);
    }
  }

  // ---- The class ----

  class Client {
    const cfg: ClientConfig
    var running: bool
    var connected: bool
    var attempt: u32
    var tun: Option<Device>
    var ws: T.WsTransport
    var halted: bool          // `ioc_.stop` has been called: the executor starts no more handlers

    ghost function View(): Core
      reads this
    {
      Core(running, connected, attempt, tun)
    }

    /** `run`, up to the start of the first connection. */
    constructor (cfg: ClientConfig)
      ensures this.cfg == cfg && View() == Core(true, false, 0, None) && !halted
      ensures fresh(ws) && ws.View() == T.Init(T.ClientSide)
    {
      this.cfg := cfg;
      running, connected, attempt, tun, halted := true, false, 0, None, false;
      ws := new T.WsTransport(T.ClientSide);
    }

    method Send(m: Message)
      modifies ws
      ensures ws.View() == T.SendCall(old(ws.View()), Encode(m))
    {
      var pkt := BuildPacket(m.kind, m.payload);
      ws.Send(pkt.value);
    }

    method OnConnected(now: u64)
      modifies this`connected, this`attempt, ws
      ensures View() == Connected(old(View())) && connected && attempt == 0
      ensures ws.View() == T.SendCall(old(ws.View()), Encode(AuthMessage(cfg, now)))
    {
      connected, attempt := true, 0;
      SendAuth(now);
    }

    /** `on_ws_handshake` of the current transport: it is up, the client is told, and only
        then the first read starts. */
    method OnHandshake(now: u64)
      modifies this`connected, this`attempt, ws
      ensures View() == Connected(old(View())) && connected && ws.connected && ws.kind == old(ws.kind)
      ensures ws.View() == T.ReadBegun(T.SendCall(T.MarkedUp(old(ws.View())), Encode(AuthMessage(cfg, now))))
      ensures ws.kind == T.ClientSide && !ws.closing ==>
                exists frame :: IsFrame(frame, 1, cfg.dump(Hello(cfg, now)))
                                && ws.accepted == old(ws.accepted) + [frame]
      ensures ws.kind == T.ClientSide ==> (ws.reading <==> !ws.closing)
    {
      EncodeIsFrame(AuthMessage(cfg, now));
      ws.MarkUp();
      OnConnected(now);
      ws.BeginRead();
    }

    method SendAuth(now: u64)
      modifies ws
      ensures ws.View() == T.SendCall(old(ws.View()), Encode(AuthMessage(cfg, now)))
    {
      var token := BuildAuthToken(cfg.hmac, cfg.user, cfg.secret, now);
      Send(Message(AUTH_REQUEST, cfg.dump(Fields(Some(cfg.user), Some(token), Some(now)))));
    }

    /** A transport error; the result is the delay of the reconnect timer, if one starts. */
    method OnError() returns (delay: Option<nat>)
      modifies this`connected, this`tun, this`attempt
      ensures View() == ErrorCall(old(View())) && !connected && running == old(running)
      ensures old(connected) ==> tun.None? && attempt == if running then Add32(old(attempt), 1) else old(attempt)
      ensures !old(connected) ==> tun == old(tun) && attempt == old(attempt)
      ensures delay == if old(connected && running) then Some(Delay(attempt)) else None
    {
      if !connected {
        return None;
      }
      connected := false;
      tun := None;
      if !running {
        return None;
      }
      var seconds := ScheduleReconnect();
      return Some(seconds);
    }

    method ScheduleReconnect() returns (delay: nat)
      modifies this`attempt
      ensures View() == Scheduled(old(View())) && attempt == Add32(old(attempt), 1) && delay == Delay(attempt)
    {
      attempt := Add32(attempt, 1);
      delay := Delay(attempt);
    }

    /** The reconnect timer: a new transport replaces the old one, which lives on. */
    method OnTimer(error: bool) returns (reconnecting: bool)
      modifies this`ws
      ensures reconnecting <==> !error && running
      ensures reconnecting ==> fresh(ws) && ws.View() == T.Init(T.ClientSide)
      ensures !reconnecting ==> ws == old(ws)
    {
      reconnecting := !error && running;
      if reconnecting {
        ws := new T.WsTransport(T.ClientSide);
      }
    }

    method Stop()
      modifies this`running, this`tun, this`halted, ws
      ensures View() == Stopped(old(View()))
      ensures !running && connected == old(connected) && attempt == old(attempt)
      ensures old(running) ==> !TunOpen(View()) && (ws.kind == T.ClientSide ==> ws.closing)
      ensures !old(running) ==> tun == old(tun)
      ensures halted <==> old(halted || running)
      ensures ws.View() == if old(running) then T.Closed(old(ws.View())) else old(ws.View())
    {
      if !running {
        return;
      }
      running := false;
      ws.Close();
      halted := true;
      tun := CloseTun(tun);
    }

    /** Handles one packet. Of the environment, `opens` says whether the TUN device opens and
        `routed` whether route and DNS set-up then returns without an exception; `written`
        are the packets written to the TUN device, and `looping` says whether a thread for
        `TunReadLoop` is started. */
    method OnPacket(m: Message, opens: bool, routed: bool) returns (written: seq<Payload>, looping: bool)
      modifies this`running, this`tun, this`halted, ws
      ensures var (core, effect) := OnPacketCall(cfg, old(View()), old(ws.connected), m, opens);
              && View() == core
              && ws.View() == ApplyClient(old(ws.View()), effect)
              && written == (if effect.WriteTun? then [effect.payload] else [])
      ensures looping <==> opens && routed && Accepts(m)
      ensures halted <==> old(halted) || (old(running) && !running)
    {
      written, looping := [], false;
      if m.kind == AUTH_RESPONSE {
        var a := cfg.parse(m.payload);
        if a.BadAnswer? {
          return;
        }
        if OrElse(a.ok, false) {
          tun := Some(NewDevice(cfg, a, opens));
          if !opens {
            Stop();
            return;
          }
          looping := routed;
        } else {
          Stop();
        }
      } else if m.kind == IP_PACKET {
        if tun.Some? && tun.value.isOpen {
          written := [m.payload];
        }
      } else if m.kind == KEEPALIVE {
        if ws.connected {
          Send(Message(KEEPALIVE, []));
        }
      }
    }

    /** An auth response that says yes. */
    predicate Accepts(m: Message) {
      m.kind == AUTH_RESPONSE && cfg.parse(m.payload).Answer? && OrElse(cfg.parse(m.payload).ok, false)
    }

    /** A transport of this client, which may be one that has been replaced, reads one
        message and hands the packet in it to `OnPacket` before it reads on, which the current
        one does not if the client has stopped. Answers go to the current transport. */
    method Receive(from: T.WsTransport, bytes: Bytes, opens: bool, routed: bool)
      returns (written: seq<Payload>, looping: bool)
      modifies this`running, this`tun, this`halted, ws, from
      ensures match Dispatch(old(from.readBuf) + bytes)
              case None => View() == old(View()) && written == [] && !looping
              case Some(m) =>
                var (core, effect) := OnPacketCall(cfg, old(View()), old(ws.connected), m, opens);
                && View() == core
                && written == (if effect.WriteTun? then [effect.payload] else [])
                && (looping <==> opens && routed && Accepts(m))
      ensures var effect := EffectOf(old(View()), old(ws.connected), Dispatch(old(from.readBuf) + bytes), opens);
              if from == ws then ws.View() == T.ReadResumed(ApplyClient(T.ReadTaken(old(ws.View()), bytes), effect))
              else
                && ws.View() == ApplyClient(old(ws.View()), effect)
                && from.View() == T.ReadDone(old(from.View()), bytes)
    {
      written, looping := [], false;
      var packet := from.TakeMessage(bytes);
      if packet.Some? {
        written, looping := OnPacket(packet.value, opens, routed);
      }
      from.ResumeRead();
    }

    function EffectOf(core: Core, up: bool, packet: Option<Message>, opens: bool): ClientEffect {
      match packet
      case None => Nothing
      case Some(m) => OnPacketCall(cfg, core, up, m, opens).1
    }

    /** One round of `tun_read_loop`: forwards the packet that was read, if any. */
    method ForwardFromTun(packet: Bytes) returns (r: Result<()>)
      requires running && tun.Some? && tun.value.isOpen
      modifies ws
      ensures r.Throws? <==> |packet| > 65535
      ensures packet != [] && |packet| <= 65535 && ws.connected && ws.kind == T.ClientSide && !ws.closing ==>
                exists frame :: IsFrame(frame, 3, packet) && ws.accepted == old(ws.accepted) + [frame]
      ensures ws.View() == if packet == [] || !old(ws.connected) then old(ws.View())
                           else Offered(old(ws.View()), packet)
    {
      if packet == [] {
        return Ok(());
      }
      var pkt := BuildPacket(IP_PACKET, packet);
      match pkt {
        case Throws(what) => return Throws(what);
        case Ok(frame) =>
          if ws.connected {
            ws.Send(frame);
          }
          return Ok(());
      }
    }

    /** The loop of the TUN thread over what the device yields, with no other thread moving.
        It stops when the client does, or at a packet that does not fit a frame; what came
        before that packet has been offered to the transport. */
    method TunReadLoop(yielded: seq<Bytes>) returns (r: Result<()>)
      modifies ws
      ensures r.Throws? <==> running && TunOpen(View()) && FirstOversized(yielded) < |yielded|
      ensures ws.View() == if running && TunOpen(View()) && old(ws.connected)
                           then OfferedAll(old(ws.View()), yielded[..FirstOversized(yielded)]) else old(ws.View())
    {
      var i := 0;
      while running && tun.Some? && tun.value.isOpen && i < |yielded|
        invariant 0 <= i <= |yielded|
        invariant forall j :: 0 <= j < i ==> |yielded[j]| <= MAX_PAYLOAD
        invariant ws.View() == if old(ws.connected) then OfferedAll(old(ws.View()), yielded[..i]) else old(ws.View())
        invariant ws.connected == old(ws.connected)
        invariant i > 0 ==> running && TunOpen(View())
      {
        var step := ForwardFromTun(yielded[i]);
        if step.Throws? {
          assert FirstOversized(yielded) == i;
          return Throws(step.what);
        }
        assert yielded[..i + 1][..i] == yielded[..i];
        i := i + 1;
      }
      assert i == |yielded| ==> FirstOversized(yielded) == i;
      return Ok(());
    }
  }
}
