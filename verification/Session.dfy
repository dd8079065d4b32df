/** A server-side client session: src/server/session.cpp. */
module Session {
  import opened Basics
  import opened Protocol
  import opened Crypto
  import opened Address
  import Hex
  import Window
  import T = Transport

  const AUTH_WINDOW: u64 := 30

  datatype TunInfo = TunInfo(serverIp: string, mask: string, mtu: u32)

  /** An auth request as the JSON library yields it; a field that is absent takes its
      default, one of the wrong type makes the request malformed. */
  datatype AuthJson = Malformed | Fields(user: Option<string>, token: Option<string>, timestamp: Option<u64>)

  datatype AuthReply = Granted(tunIp: string, serverIp: string, mask: string, mtu: u32) | Denied

  /** A session's constants: the libraries it calls and its configuration. */
  datatype Config = Config(
    hmac: Hmac,
    parse: Bytes -> AuthJson,
    dump: AuthReply -> Payload,
    secret: string,
    virtualIp: string,
    tun: TunInfo)

  // ---- Specification ----

  function OrElse<A>(o: Option<A>, default: A): A {
    if o.Some? then o.value else default
  }

  function ClaimOf(c: Config, r: AuthJson): Claim
    requires r.Fields?
  {
    Claim(c.hmac, OrElse(r.user, ""), c.secret, OrElse(r.token, ""))
  }

  /** First the claimed time decides; the server's clock gets a second say. */
  ghost function Decide(c: Config, r: AuthJson, now: u64): Window.Verdict {
    match r
    case Malformed => Window.Rejects
    case Fields(_, token, timestamp) =>
      if c.secret == "" then Window.Accepts
      else if OrElse(token, "") == "" then Window.Rejects
      else
        var first := Verify(ClaimOf(c, r), OrElse(timestamp, 0), AUTH_WINDOW);
        if first == Window.Rejects then Verify(ClaimOf(c, r), now, AUTH_WINDOW) else first
  }

  /** What handling a packet does besides updating the session. */
  datatype Effect = Reply(message: Message) | Forward(payload: Payload) | Hangup

  datatype Outcome = Done(auth: bool, effects: seq<Effect>) | Stuck

  function AnswerTo(c: Config, ok: bool): AuthReply {
    if ok then Granted(c.virtualIp, c.tun.serverIp, c.tun.mask, c.tun.mtu) else Denied
  }

  function AuthEffects(c: Config, ok: bool): seq<Effect> {
    [Reply(Message(AUTH_RESPONSE, c.dump(AnswerTo(c, ok))))] + (if ok then [] else [Hangup])
  }

  /** What a packet means to the session at the time it is handled. */
  datatype Event =
    | AuthRequest(verdict: Window.Verdict)
    | IpPacket(payload: Payload)
    | Keepalive
    | Ping(payload: Payload)
    | Disconnect
    | Unknown

  ghost function EventOf(c: Config, m: Message, now: u64): Event {
    if m.kind == AUTH_REQUEST then AuthRequest(Decide(c, c.parse(m.payload), now))
    else if m.kind == IP_PACKET then IpPacket(m.payload)
    else if m.kind == KEEPALIVE then Keepalive
    else if m.kind == PING then Ping(m.payload)
    else if m.kind == DISCONNECT then Disconnect
    else Unknown
  }

  function React(c: Config, auth: bool, e: Event): Outcome {
    match e
    case AuthRequest(Hangs) => Stuck
    case AuthRequest(v) => Done(v == Window.Accepts, AuthEffects(c, v == Window.Accepts))
    case IpPacket(p) => Done(auth, if auth then [Forward(p)] else [])
    case Keepalive => Done(auth, [Reply(Message(KEEPALIVE, []))])
    case Ping(p) => Done(auth, [Reply(Message(PONG, p))])
    case Disconnect => Done(auth, [Hangup])
    case Unknown => Done(auth, [])
  }

  ghost function Handle(c: Config, auth: bool, m: Message, now: u64): Outcome {
    React(c, auth, EventOf(c, m, now))
  }

  function ApplyOne(s: T.State, e: Effect): T.State {
    match e
    case Reply(m) => T.SendCall(s, Encode(m))
    case Forward(_) => s
    case Hangup => T.Closed(s)
  }

  function Apply(s: T.State, effects: seq<Effect>): T.State {
    if effects == [] then s else ApplyOne(Apply(s, effects[..|effects| - 1]), effects[|effects| - 1])
  }

  /** Effects apply one after the other, whichever end they are taken from. */
  lemma {:induction false} ApplyFirst(s: T.State, effects: seq<Effect>)
    requires effects != []
    ensures Apply(s, effects) == Apply(ApplyOne(s, effects[0]), effects[1..])
  {
    var n := |effects| - 1;
    if n == 0 {
      assert effects[..0] == [] && effects[1..] == [];
    } else {
      ApplyFirst(s, effects[..n]);
      assert effects[1..][..n - 1] == effects[..n][1..];
    }
  }

  function Forwards(effects: seq<Effect>): seq<Payload> {
    if effects == [] then []
    else Forwards(effects[..|effects| - 1])
         + (match effects[|effects| - 1] case Forward(p) => [p] case _ => [])
  }

  function Pongs(effects: seq<Effect>): seq<Payload> {
    if effects == [] then []
    else Pongs(effects[..|effects| - 1])
         + (match effects[|effects| - 1] case Reply(m) => if m.kind == PONG then [m.payload] else [] case _ => [])
  }

  /** A raw packet offered to a transport; one that is too long is not sent. */
  function Offered(s: T.State, data: Bytes): T.State {
    if |data| <= MAX_PAYLOAD then T.SendCall(s, Encode(Message(IP_PACKET, data))) else s
  }

  // ---- The class ----

  class ClientSession {
    const id: u32
    const cfg: Config
    const virtualIpN: u32
    const ws: T.WsTransport
    var authenticated: bool

    constructor (e: Endian, id: u32, cfg: Config, ws: T.WsTransport)
      ensures this.id == id && this.cfg == cfg && this.ws == ws
      ensures virtualIpN == AddrKey(e, cfg.virtualIp) && !authenticated
    {
      this.id, this.cfg, this.ws := id, cfg, ws;
      virtualIpN := AddrKey(e, cfg.virtualIp);
      authenticated := false;
    }

    method Start()
      modifies ws
      ensures ws.View() == T.Opened(old(ws.View())) && ws.connected && (ws.kind == T.ServerSide ==> ws.reading)
    {
      ws.Start();
    }

    method Close()
      modifies ws
      ensures ws.View() == T.Closed(old(ws.View()))
      ensures if ws.kind == T.ServerSide then !ws.connected else ws.closing
    {
      ws.Close();
    }

    /** Wraps a raw packet; a packet that does not fit a frame makes `build_packet` throw. */
    method SendIpPacket(data: Bytes) returns (r: Result<()>)
      modifies ws
      ensures r.Throws? <==> |data| > 65535
      ensures ws.View() == Offered(old(ws.View()), data)
      ensures r.Ok? && ws.kind == T.ServerSide && old(ws.connected) ==>
                exists frame :: IsFrame(frame, 3, data) && ws.accepted == old(ws.accepted) + [frame]
    {
      var pkt := BuildPacket(IP_PACKET, data);
      match pkt {
        case Throws(what) => return Throws(what);
        case Ok(frame) =>
          ws.Send(frame);
          return Ok(());
      }
    }

    /** The decision of the auth branch. */
    method CheckAuth(r: AuthJson, now: u64) returns (ok: bool)
      requires Decide(cfg, r, now) != Window.Hangs
      ensures ok <==> Decide(cfg, r, now) == Window.Accepts
    {
      if r.Malformed? {
        return false;
      }
      ok := false;
      if cfg.secret != "" && OrElse(r.token, "") != "" {
        ok := VerifyAuthToken(ClaimOf(cfg, r), OrElse(r.timestamp, 0), AUTH_WINDOW);
        if !ok {
          ok := VerifyAuthToken(ClaimOf(cfg, r), now, AUTH_WINDOW);
        }
      } else if cfg.secret == "" {
        ok := true;
      }
    }

    /** Builds and sends a reply; its payload always fits. */
    method SendReply(m: Message)
      modifies ws
      ensures ws.View() == T.SendCall(old(ws.View()), Encode(m))
    {
      var pkt := BuildPacket(m.kind, m.payload);
      ws.Send(pkt.value);
    }

    /** Handles one packet; `forwarded` are the calls of `on_ip_packet_`. */
    method HandlePacket(m: Message, now: u64) returns (forwarded: seq<Payload>)
      requires Handle(cfg, authenticated, m, now).Done?
      modifies this, ws
      ensures var outcome := Handle(cfg, old(authenticated), m, now);
              && authenticated == outcome.auth
              && forwarded == Forwards(outcome.effects)
              && ws.View() == Apply(old(ws.View()), outcome.effects)
    {
      ghost var was := ws.View();
      forwarded := [];
      if m.kind == AUTH_REQUEST {
        var ok := CheckAuth(cfg.parse(m.payload), now);
        authenticated := ok;
        SendReply(Message(AUTH_RESPONSE, cfg.dump(AnswerTo(cfg, ok))));
        if !ok {
          Close();
        }
        ApplyOfAuth(cfg, was, ok);
      } else if m.kind == IP_PACKET {
        if !authenticated {
          return;
        }
        forwarded := [m.payload];
      } else if m.kind == KEEPALIVE {
        SendReply(Message(KEEPALIVE, []));
      } else if m.kind == PING {
        SendReply(Message(PONG, m.payload));
      } else if m.kind == DISCONNECT {
        Close();
      }
    }

    /** What `Start` wires up: the transport reads one message and hands the packet in it to
        the handler before it reads on. */
    method Receive(bytes: Bytes, now: u64) returns (forwarded: seq<Payload>)
      requires forall m :: Dispatch(ws.readBuf + bytes) == Some(m) ==> Handle(cfg, authenticated, m, now).Done?
      modifies this, ws
      ensures match Dispatch(old(ws.readBuf) + bytes)
              case None =>
                && authenticated == old(authenticated) && forwarded == []
                && ws.View() == T.ReadDone(old(ws.View()), bytes)
              case Some(m) =>
                var outcome := Handle(cfg, old(authenticated), m, now);
                && authenticated == outcome.auth
                && forwarded == Forwards(outcome.effects)
                && ws.View() == T.ReadResumed(Apply(T.ReadTaken(old(ws.View()), bytes), outcome.effects))
    {
      forwarded := [];
      var packet := ws.TakeMessage(bytes);
      if packet.Some? {
        forwarded := HandlePacket(packet.value, now);
      }
      ws.ResumeRead();
    }
  }

  lemma ApplyOfAuth(c: Config, s: T.State, ok: bool)
    ensures var sent := T.SendCall(s, Encode(Message(AUTH_RESPONSE, c.dump(AnswerTo(c, ok)))));
            Apply(s, AuthEffects(c, ok)) == if ok then sent else T.Closed(sent)
    ensures Forwards(AuthEffects(c, ok)) == [] && Pongs(AuthEffects(c, ok)) == []
  {
    var r := Reply(Message(AUTH_RESPONSE, c.dump(AnswerTo(c, ok))));
    assert [r][..0] == [] && Apply(s, [r]) == ApplyOne(s, r);
    FiltersOfOne(r);
    if !ok {
      assert AuthEffects(c, ok)[..1] == [r];
      FiltersOfOne(Hangup);
      FiltersConcat([r], [Hangup]);
    } else {
      assert AuthEffects(c, ok) == [r];
    }
  }

  // ---- What each kind of packet does ----

  /** One frame joins what an open session's transport has accepted, and nothing else
      about the transport's gate changes. */
  ghost predicate Adds(before: T.State, after: T.State, kind: u8, payload: Payload) {
    && |after.log.accepted| == |before.log.accepted| + 1
    && after.log.accepted[..|before.log.accepted|] == before.log.accepted
    && IsFrame(after.log.accepted[|before.log.accepted|], kind, payload)
  }

  lemma SendAdds(t: T.State, m: Message)
    requires t.kind == T.ServerSide && t.connected
    ensures Adds(t, T.SendCall(t, Encode(m)), m.kind, m.payload) && T.SendCall(t, Encode(m)).connected
  {
    EncodeIsFrame(m);
  }

  lemma ApplyOfOne(t: T.State, e: Effect)
    ensures Apply(t, [e]) == ApplyOne(t, e) && Apply(t, []) == t
  {
    assert [e][..0] == [];
  }

  /** The effects of a packet that is no auth request, by its type byte. */
  lemma PacketEffects(c: Config, auth: bool, m: Message, now: u64)
    requires m.kind != 1
    ensures Handle(c, auth, m, now) ==
              Done(auth, if m.kind == 3 then (if auth then [Forward(m.payload)] else [])
                         else if m.kind == 4 then [Reply(Message(4, []))]
                         else if m.kind == 7 then [Reply(Message(8, m.payload))]
                         else if m.kind == 6 then [Hangup]
                         else [])
  {
  }

  lemma EffectMeaning(t: T.State, e: Effect)
    requires t.kind == T.ServerSide && t.connected
    ensures var after := Apply(t, [e]);
            match e
            case Reply(m) => Adds(t, after, m.kind, m.payload) && after.connected
            case Forward(_) => after == t
            case Hangup => after.log == t.log && !after.connected
  {
    ApplyOfOne(t, e);
    if e.Reply? {
      SendAdds(t, e.message);
    }
  }

  /** The handler on an open session. A keepalive (4) is echoed, a ping (7) answered by a pong
      (8), a disconnect (6) closes the session, an IP packet (3) is forwarded if the flag is
      set; no other packet has any effect, and none of these touches the flag. */
  lemma PacketMeaning(c: Config, auth: bool, m: Message, now: u64, t: T.State)
    requires t.kind == T.ServerSide && t.connected && m.kind != 1
    ensures Handle(c, auth, m, now).Done? && Handle(c, auth, m, now).auth == auth
    ensures var effects := Handle(c, auth, m, now).effects;
            var e := Apply(t, effects);
            && Forwards(effects) == (if m.kind == 3 && auth then [m.payload] else [])
            && (if m.kind == 4 then Adds(t, e, 4, []) && e.connected
                else if m.kind == 7 then Adds(t, e, 8, m.payload) && e.connected
                else if m.kind == 6 then e.log == t.log && !e.connected
                else e == t)
  {
    PacketEffects(c, auth, m, now);
    var effects := Handle(c, auth, m, now).effects;
    if effects != [] {
      EffectMeaning(t, effects[0]);
      FiltersOfOne(effects[0]);
    }
  }

  /** An auth request sets the flag to the decision and queues one answer, a positive one
      with the configured addresses; a refusal also closes the session. */
  lemma AuthMeaning(c: Config, auth: bool, m: Message, now: u64, t: T.State)
    requires t.kind == T.ServerSide && t.connected && m.kind == 1
    ensures var verdict := Decide(c, c.parse(m.payload), now);
            var outcome := Handle(c, auth, m, now);
            && (outcome.Done? <==> verdict != Window.Hangs)
            && (verdict == Window.Accepts ==>
                  var e := Apply(t, outcome.effects);
                  && outcome.auth && e.connected
                  && Adds(t, e, 2, c.dump(Granted(c.virtualIp, c.tun.serverIp, c.tun.mask, c.tun.mtu))))
            && (verdict == Window.Rejects ==>
                  var e := Apply(t, outcome.effects);
                  !outcome.auth && !e.connected && Adds(t, e, 2, c.dump(Denied)))
  {
    var ok := Decide(c, c.parse(m.payload), now) == Window.Accepts;
    var reply := Message(AUTH_RESPONSE, c.dump(AnswerTo(c, ok)));
    ApplyOfAuth(c, t, ok);
    SendAdds(t, reply);
  }

  // ---- Which requests are accepted ----

  /** The two windows, in plain arithmetic: a request is accepted exactly when it parses
      and no secret is configured, or its token belongs to a second that the claimed time
      or the server's clock covers. */
  lemma AuthDecision(c: Config, r: AuthJson, now: u64)
    ensures Decide(c, r, now) == Window.Accepts <==>
              r.Fields? && (c.secret == ""
                || (OrElse(r.token, "") != "" && (Covered(c, r, OrElse(r.timestamp, 0)) || Covered(c, r, now))))
    ensures r.Malformed? ==> Decide(c, r, now) == Window.Rejects
  {
    if r.Fields? {
      VerifyCovers(c, r, OrElse(r.timestamp, 0));
      VerifyCovers(c, r, now);
    }
  }

  /** The token is that of some second from `lo` to `hi`, for the user that is claimed. */
  ghost predicate MadeWithin(c: Config, r: AuthJson, lo: int, hi: int)
    requires r.Fields?
  {
    exists t: u64 :: lo <= t <= hi && AuthToken(c.hmac, OrElse(r.user, ""), c.secret, t) == OrElse(r.token, "")
  }

  /** It was made within 30 seconds of `at`, if that window does not wrap; at the one time
      whose window ends at 2^64 - 1 the loop finds every second that passes. */
  ghost predicate Covered(c: Config, r: AuthJson, at: u64)
    requires r.Fields?
  {
    if at == 0xffff_ffff_ffff_ffe1 then MadeWithin(c, r, 0, MAX_U64)
    else at >= 30 && at + 30 < TWO_64 && MadeWithin(c, r, at - 30, at + 30)
  }

  lemma HitIsMade(c: Config, r: AuthJson, lo: int, hi: int)
    requires r.Fields?
    ensures Window.HitIn(ClaimOf(c, r).Test(), lo, hi) <==> MadeWithin(c, r, lo, hi)
  {
    if Window.HitIn(ClaimOf(c, r).Test(), lo, hi) {
      var t: u64 :| lo <= t <= hi && ClaimOf(c, r).Test()(t);
      assert AuthToken(c.hmac, OrElse(r.user, ""), c.secret, t) == OrElse(r.token, "");
    }
    if MadeWithin(c, r, lo, hi) {
      var t: u64 :| lo <= t <= hi && AuthToken(c.hmac, OrElse(r.user, ""), c.secret, t) == OrElse(r.token, "");
      assert ClaimOf(c, r).Test()(t);
    }
  }

  /** With a secret, only tokens made with it are accepted. */
  ghost predicate OnlyTokens(c: Config, hmac: Hmac, secret: string) {
    forall r: AuthJson, now: u64 :: Decide(c, r, now) == Window.Accepts ==>
      r.Fields? && exists t: u64 :: AuthToken(hmac, OrElse(r.user, ""), secret, t) == OrElse(r.token, "")
  }

  lemma AcceptedMeansToken(c: Config)
    requires c.secret != ""
    ensures OnlyTokens(c, c.hmac, c.secret)
  {
    forall r: AuthJson, now: u64 | Decide(c, r, now) == Window.Accepts
      ensures r.Fields? && exists t: u64 :: AuthToken(c.hmac, OrElse(r.user, ""), c.secret, t) == OrElse(r.token, "")
    {
      AuthDecision(c, r, now);
    }
  }

  lemma VerifyCovers(c: Config, r: AuthJson, at: u64)
    requires r.Fields?
    ensures Verify(ClaimOf(c, r), at, AUTH_WINDOW) == Window.Accepts <==> Covered(c, r, at)
    ensures Verify(ClaimOf(c, r), at, AUTH_WINDOW) == Window.Hangs ==> !MadeWithin(c, r, 0, MAX_U64)
    ensures Covered(c, r, at) ==> MadeWithin(c, r, 0, MAX_U64)
  {
    HitIsMade(c, r, 0, MAX_U64);
    if at != MAX_U64 - AUTH_WINDOW {
      Window.WindowExact(ClaimOf(c, r).Test(), at, AUTH_WINDOW);
      HitIsMade(c, r, at - 30, at + 30);
    }
  }

  /** The handler never returns exactly when a secret is configured, a token is given,
      the claimed time or the server's clock is 2^64 - 31, and no second at all yields
      that token. */
  lemma AuthHangsIff(c: Config, r: AuthJson, now: u64)
    ensures Decide(c, r, now) == Window.Hangs <==>
              && r.Fields? && c.secret != "" && OrElse(r.token, "") != ""
              && (OrElse(r.timestamp, 0) == 0xffff_ffff_ffff_ffe1 || now == 0xffff_ffff_ffff_ffe1)
              && !MadeWithin(c, r, 0, MAX_U64)
  {
    if r.Fields? {
      HitIsMade(c, r, 0, MAX_U64);
      VerifyCovers(c, r, OrElse(r.timestamp, 0));
      VerifyCovers(c, r, now);
    }
  }

  /** Such requests exist for every secret and at every time: no second yields a token
      that is not 64 characters long. */
  lemma SomeRequestHangs(c: Config, user: string, now: u64)
    requires c.secret != ""
    ensures Decide(c, Fields(Some(user), Some("x"), Some(MAX_U64 - AUTH_WINDOW)), now) == Window.Hangs
  {
    var r := Fields(Some(user), Some("x"), Some(MAX_U64 - AUTH_WINDOW));
    forall t: u64
      ensures !ClaimOf(c, r).Test()(t)
    {
      TokenIsNotEmpty(c, user, t);
    }
    AuthHangsIff(c, r, now);
  }

  /** The request a client with that user and secret makes at time `t`. */
  function RequestAt(hmac: Hmac, user: string, secret: string, t: u64): AuthJson {
    Fields(Some(user), Some(AuthToken(hmac, user, secret, t)), Some(t))
  }

  function HonestRequest(c: Config, user: string, t: u64): AuthJson {
    RequestAt(c.hmac, user, c.secret, t)
  }

  lemma TokenIsNotEmpty(c: Config, user: string, t: u64)
    ensures |AuthToken(c.hmac, user, c.secret, t)| == 64
  {
    Hex.EncodedLength(c.hmac(c.secret, MacMessage(user, t)));
  }

  /** A client that shares the secret is let in whatever the two clocks say, as long as
      its own clock stays 30 seconds clear of both ends of the 64-bit range. */
  lemma HonestClientAccepted(c: Config, user: string, t: u64, now: u64)
    requires AUTH_WINDOW <= t <= MAX_U64 - AUTH_WINDOW
    ensures Decide(c, HonestRequest(c, user, t), now) == Window.Accepts
  {
    TokenIsNotEmpty(c, user, t);
    HonestTokenAccepted(c.hmac, user, c.secret, t, AUTH_WINDOW);
  }

  /** And exactly when: with its clock near the ends it needs the server's clock to be
      within 30 seconds of it and clear of the ends, or to be the one at which the loop
      tries every second. */
  lemma HonestClientAcceptedIff(c: Config, user: string, t: u64, now: u64)
    requires NoCollision(c.hmac, c.secret, user, t)
    ensures Decide(c, HonestRequest(c, user, t), now) == Window.Accepts <==>
              || c.secret == ""
              || AUTH_WINDOW <= t <= MAX_U64 - AUTH_WINDOW
              || now == MAX_U64 - AUTH_WINDOW
              || (AUTH_WINDOW <= now && now + AUTH_WINDOW < TWO_64 && now - AUTH_WINDOW <= t <= now + AUTH_WINDOW)
  {
    var r := HonestRequest(c, user, t);
    TokenIsNotEmpty(c, user, t);
    OnlyItsOwnSecond(ClaimOf(c, r), t);
    assert ClaimOf(c, r).Test()(t);
    AuthDecision(c, r, now);
  }

  // ---- Whole packet sequences ----

  /** A session's history: how many packets it has handled, whether the next one hangs
      it, its flag, and everything it did. */
  datatype Trace = Trace(handled: nat, stuck: bool, auth: bool, effects: seq<Effect>)

  function Advance(c: Config, t: Trace, e: Event): Trace {
    if t.stuck then t
    else match React(c, t.auth, e)
      case Stuck => t.(stuck := true)
      case Done(auth, effects) => Trace(t.handled + 1, false, auth, t.effects + effects)
  }

  /** The first `n` packets. */
  function TraceOf(c: Config, events: seq<Event>, n: nat): Trace
    requires n <= |events|
  {
    if n == 0 then Trace(0, false, false, []) else Advance(c, TraceOf(c, events, n - 1), events[n - 1])
  }

  predicate HangsOn(e: Event) {
    e == AuthRequest(Window.Hangs)
  }

  /** The most recent auth request before position `n` exists and was accepted. */
  ghost predicate AuthorisedAt(events: seq<Event>, n: nat)
    requires n <= |events|
  {
    exists j :: 0 <= j < n && events[j] == AuthRequest(Window.Accepts) &&
      forall k :: j < k < n ==> !events[k].AuthRequest?
  }

  /** The payloads of the IP packets among the first `n` that are authorised. */
  ghost function AuthorisedPayloads(events: seq<Event>, n: nat): seq<Payload>
    requires n <= |events|
  {
    if n == 0 then []
    else AuthorisedPayloads(events, n - 1)
         + (if events[n - 1].IpPacket? && AuthorisedAt(events, n - 1) then [events[n - 1].payload] else [])
  }

  function PingPayloads(events: seq<Event>, n: nat): seq<Payload>
    requires n <= |events|
  {
    if n == 0 then []
    else PingPayloads(events, n - 1) + (if events[n - 1].Ping? then [events[n - 1].payload] else [])
  }

  lemma {:induction false} FiltersConcat(a: seq<Effect>, b: seq<Effect>)
    ensures Forwards(a + b) == Forwards(a) + Forwards(b)
    ensures Pongs(a + b) == Pongs(a) + Pongs(b)
  {
    if b == [] {
      assert a + b == a;
    } else {
      assert (a + b)[..|a + b| - 1] == a + b[..|b| - 1];
      FiltersConcat(a, b[..|b| - 1]);
    }
  }

  lemma FiltersOfOne(e: Effect)
    ensures Forwards([e]) == match e case Forward(p) => [p] case _ => []
    ensures Pongs([e]) == match e case Reply(m) => if m.kind == PONG then [m.payload] else [] case _ => []
  {
  }

  /** One packet forwards its payload, or answers it, exactly as its kind says. */
  lemma ReactFilters(c: Config, auth: bool, e: Event)
    requires React(c, auth, e).Done?
    ensures var es := React(c, auth, e).effects;
            && Forwards(es) == (if e.IpPacket? && auth then [e.payload] else [])
            && Pongs(es) == (if e.Ping? then [e.payload] else [])
  {
    match e
    case AuthRequest(v) => ApplyOfAuth(c, T.Init(T.ServerSide), v == Window.Accepts);
    case IpPacket(p) => FiltersOfOne(Forward(p));
    case Keepalive => FiltersOfOne(Reply(Message(KEEPALIVE, [])));
    case Ping(p) => FiltersOfOne(Reply(Message(PONG, p)));
    case Disconnect => FiltersOfOne(Hangup);
    case Unknown =>
  }

  lemma AuthorisedStep(events: seq<Event>, n: nat)
    requires n < |events|
    ensures AuthorisedAt(events, n + 1) <==>
              if events[n].AuthRequest? then events[n].verdict == Window.Accepts else AuthorisedAt(events, n)
  {
  }

  ghost predicate EffectsAre(events: seq<Event>, n: nat, effects: seq<Effect>)
    requires n <= |events|
  {
    Forwards(effects) == AuthorisedPayloads(events, n) && Pongs(effects) == PingPayloads(events, n)
  }

  lemma EffectsStep(c: Config, events: seq<Event>, n: nat, auth: bool, before: seq<Effect>)
    requires n < |events| && EffectsAre(events, n, before) && auth == AuthorisedAt(events, n)
    requires React(c, auth, events[n]).Done?
    ensures EffectsAre(events, n + 1, before + React(c, auth, events[n]).effects)
  {
    FiltersConcat(before, React(c, auth, events[n]).effects);
    ReactFilters(c, auth, events[n]);
  }

  ghost predicate ExtentIs(events: seq<Event>, n: nat, t: Trace)
    requires n <= |events|
  {
    && (if t.stuck then t.handled < n && HangsOn(events[t.handled]) else t.handled == n)
    && forall k :: 0 <= k < t.handled ==> !HangsOn(events[k])
  }

  ghost predicate TraceIs(events: seq<Event>, n: nat, t: Trace)
    requires n <= |events|
  {
    && ExtentIs(events, n, t)
    && (t.auth <==> AuthorisedAt(events, t.handled))
    && EffectsAre(events, t.handled, t.effects)
  }

  lemma ExtentStep(c: Config, events: seq<Event>, n: nat, t: Trace)
    requires n < |events| && ExtentIs(events, n, t)
    ensures ExtentIs(events, n + 1, Advance(c, t, events[n]))
  {
  }

  lemma TraceStep(c: Config, events: seq<Event>, n: nat, t: Trace)
    requires n < |events| && TraceIs(events, n, t)
    ensures TraceIs(events, n + 1, Advance(c, t, events[n]))
  {
    ExtentStep(c, events, n, t);
    if !t.stuck && !HangsOn(events[n]) {
      EffectsStep(c, events, n, t.auth, t.effects);
      AuthorisedStep(events, n);
    }
  }

  /** For every packet sequence: exactly the IP packets whose most recent auth request
      was accepted reach the server's TUN, in order; every ping is answered once, with
      its own payload; and only a hanging auth request can end this. */
  lemma {:induction false} SessionTrace(c: Config, events: seq<Event>, n: nat)
    requires n <= |events|
    ensures TraceIs(events, n, TraceOf(c, events, n))
  {
    if n > 0 {
      SessionTrace(c, events, n - 1);
      TraceStep(c, events, n - 1, TraceOf(c, events, n - 1));
    }
  }
}
