/** The server object of src/server/server.cpp. */
module Server {
  import opened Basics
  import opened Protocol
  import opened Address
  import opened Crypto
  import opened Session
  import T = Transport
  import R = Routing
  import A = Acceptor
  import F = Fleet

  /** Configuration and libraries shared by all sessions. */
  datatype ServerConfig = ServerConfig(
    endian: Endian,
    subnet: string,
    hmac: Hmac,
    parse: Bytes -> AuthJson,
    dump: AuthReply -> Payload,
    secret: string,
    tun: TunInfo)

  class Server {
    const cfg: ServerConfig
    // The address text and the routing key of each session id.
    ghost const texts: u32 -> string
    ghost const keys: R.Keys
    var sessions: map<u32, ClientSession>
    var ipToSession: map<u32, u32>
    var nextSessionId: u32
    var nextOffset: u32

    /** What routing sees of the server. */
    ghost function Index(): R.Index
      reads this, sessions.Values
    {
      R.Index(map sid | sid in sessions :: R.Entry(sessions[sid].virtualIpN, sessions[sid].authenticated), ipToSession)
    }

    ghost predicate Valid()
      reads this, sessions.Values
    {
      && R.Consistent(Index())
      && texts == R.ServerTexts(cfg.endian, cfg.subnet)
      && keys == R.ServerKeys(cfg.endian, cfg.subnet)
      && R.Injective(keys)
      && R.Keyed(keys, Index())
      && Separate()
      && nextOffset == Add32(nextSessionId, 1)
    }

    /** Sessions sit under their own ids and share no transport. */
    ghost predicate Separate()
      reads this
    {
      && (forall sid :: sid in sessions ==> sessions[sid].id == sid)
      && (forall s1, s2 :: s1 in sessions && s2 in sessions && s1 != s2 ==> sessions[s1].ws != sessions[s2].ws)
    }

    ghost function Transports(): set<T.WsTransport>
      reads this
    {
      set sid | sid in sessions :: sessions[sid].ws
    }

    constructor (cfg: ServerConfig)
      ensures Valid() && this.cfg == cfg && sessions == map[] && ipToSession == map[]
      ensures nextSessionId == 1
    {
      this.cfg := cfg;
      this.texts := R.ServerTexts(cfg.endian, cfg.subnet);
      this.keys := R.ServerKeys(cfg.endian, cfg.subnet);
      R.ServerKeysInjective(cfg.endian, cfg.subnet);
      sessions, ipToSession := map[], map[];
      nextSessionId, nextOffset := 1, 2;
    }

    method AllocateClientIp() returns (ip: string)
      modifies this`nextOffset
      ensures ip == ClientIp(cfg.endian, cfg.subnet, old(nextOffset))
      ensures exists q :: IsDotted(ip, q) && Number(q) == (SubnetNumber(cfg.subnet) + old(nextOffset)) % TWO_32
      ensures nextOffset == Add32(old(nextOffset), 1)
    {
      var offset := nextOffset;
      nextOffset := Add32(nextOffset, 1);
      ip := ClientIp(cfg.endian, cfg.subnet, offset);
      ClientIpIsDotted(cfg.endian, cfg.subnet, offset);
    }

    /** The part of `on_accept` before the handshakes: id and address belong together. */
    method OnAccept() returns (sid: u32, ip: string)
      requires Valid()
      modifies this`nextSessionId, this`nextOffset
      ensures Valid()
      ensures sid == old(nextSessionId) && nextSessionId == Add32(sid, 1)
      ensures InetPton(ip) == Some(VirtualAddress(cfg.subnet, sid))
      ensures ip == texts(sid)
    {
      sid := nextSessionId;
      nextSessionId := Add32(nextSessionId, 1);
      ip := AllocateClientIp();
      ClientIpMeaning(cfg.endian, cfg.subnet, Add32(sid, 1));
      InetRoundTrip(VirtualAddress(cfg.subnet, sid));
    }

    /** Registers the session of an accepted connection and starts it. */
    method RegisterSession(sid: u32, ip: string, ws: T.WsTransport)
      requires Valid() && ws !in Transports()
      requires ip == texts(sid)
      modifies this`sessions, this`ipToSession, ws
      ensures Valid()
      ensures Index() == R.Insert(old(Index()), sid, keys(sid))
      ensures sid in sessions && fresh(sessions[sid]) && sessions == old(sessions)[sid := sessions[sid]]
      ensures sessions[sid].ws == ws && !sessions[sid].authenticated
      ensures sessions[sid].cfg == Config(cfg.hmac, cfg.parse, cfg.dump, cfg.secret, ip, cfg.tun)
      ensures cfg.secret != "" ==> OnlyTokens(sessions[sid].cfg, cfg.hmac, cfg.secret)
      ensures AnswerTo(sessions[sid].cfg, true) == Granted(ip, cfg.tun.serverIp, cfg.tun.mask, cfg.tun.mtu)
      ensures ws.View() == T.Opened(old(ws.View())) && ws.connected
    {
      ghost var before := Index();
      var session := MakeSession(sid, ip, ws);
      assert Index() == before;
      Introduce(sid, session);
    }

    /** A session is entered into the maps and only then started. */
    method Introduce(sid: u32, session: ClientSession)
      requires Valid() && session.ws !in Transports()
      requires session.id == sid && !session.authenticated && session.virtualIpN == keys(sid)
      modifies this`sessions, this`ipToSession, session.ws
      ensures Valid()
      ensures sessions == old(sessions)[sid := session]
      ensures Index() == R.Insert(old(Index()), sid, keys(sid))
      ensures session.ws.View() == T.Opened(old(session.ws.View())) && session.ws.connected
    {
      Admit(sid, session);
      Activate(session.ws);
    }

    lemma Configured(c: Config)
      requires c.hmac == cfg.hmac && c.secret == cfg.secret && c.tun == cfg.tun
      ensures cfg.secret != "" ==> OnlyTokens(c, cfg.hmac, cfg.secret)
      ensures AnswerTo(c, true) == Granted(c.virtualIp, cfg.tun.serverIp, cfg.tun.mask, cfg.tun.mtu)
    {
      if cfg.secret != "" {
        AcceptedMeansToken(c);
      }
    }

    method Activate(ws: T.WsTransport)
      requires Valid()
      modifies ws
      ensures Valid() && Index() == old(Index())
      ensures ws.View() == T.Opened(old(ws.View()))
    {
      ws.Start();
    }

    method Admit(sid: u32, session: ClientSession)
      requires Valid() && session.ws !in Transports()
      requires session.id == sid && !session.authenticated && session.virtualIpN == keys(sid)
      modifies this`sessions, this`ipToSession
      ensures Valid()
      ensures sessions == old(sessions)[sid := session]
      ensures Index() == R.Insert(old(Index()), sid, keys(sid))
    {
      R.InsertKeepsIndex(keys, Index(), sid);
      Publish(sid, session);
    }

    function SessionConfig(ip: string): Config {
      Config(cfg.hmac, cfg.parse, cfg.dump, cfg.secret, ip, cfg.tun)
    }

    method MakeSession(sid: u32, ip: string, ws: T.WsTransport) returns (session: ClientSession)
      requires keys == R.ServerKeys(cfg.endian, cfg.subnet) && texts == R.ServerTexts(cfg.endian, cfg.subnet)
      requires ip == texts(sid)
      ensures fresh(session) && session.id == sid && session.ws == ws && !session.authenticated
      ensures session.cfg == SessionConfig(ip) && session.virtualIpN == keys(sid)
      ensures cfg.secret != "" ==> OnlyTokens(session.cfg, cfg.hmac, cfg.secret)
      ensures AnswerTo(session.cfg, true) == Granted(ip, cfg.tun.serverIp, cfg.tun.mask, cfg.tun.mtu)
    {
      session := new ClientSession(cfg.endian, sid, SessionConfig(ip), ws);
      Configured(session.cfg);
    }

    /** The critical section of `register_session`. */
    method Publish(sid: u32, session: ClientSession)
      requires Separate() && session.ws !in Transports() && session.id == sid && !session.authenticated
      modifies this`sessions, this`ipToSession
      ensures Separate()
      ensures sessions == old(sessions)[sid := session]
      ensures Index() == R.Insert(old(Index()), sid, session.virtualIpN)
    {
      sessions, ipToSession := sessions[sid := session], ipToSession[session.virtualIpN := sid];
    }

    /** The critical section of `route_to_client`, for the key read from the packet. */
    method SendToOwner(dst: u32, data: Bytes) returns (r: Result<()>)
      requires Valid()
      modifies Transports()
      ensures r.Throws? <==> |data| > MAX_PAYLOAD && R.Lookup(old(Index()), dst).Some?
      ensures forall sid :: sid in sessions && !(sessions[sid].authenticated && sessions[sid].virtualIpN == dst) ==>
                unchanged(sessions[sid].ws)
      ensures forall sid :: sid in sessions && sessions[sid].authenticated && sessions[sid].virtualIpN == dst ==>
                sessions[sid].ws.View() == Offered(old(sessions[sid].ws.View()), data)
    {
      r := Ok(());
      OwnerOf(dst);
      if dst in ipToSession {
        var owner := ipToSession[dst];
        if owner in sessions && sessions[owner].authenticated {
          r := sessions[owner].SendIpPacket(data);
        }
      }
    }

    lemma LookupFinds(dst: u32)
      requires Valid()
      ensures forall sid :: R.Lookup(Index(), dst) == Some(sid) <==>
                sid in sessions && sessions[sid].authenticated && sessions[sid].virtualIpN == dst
    {
      OwnerOf(dst);
    }

    /** The index finds the one session that has a given key. */
    lemma OwnerOf(dst: u32)
      requires Valid()
      ensures forall sid :: sid in sessions && sessions[sid].virtualIpN == dst ==>
                dst in ipToSession && ipToSession[dst] == sid
      ensures dst in ipToSession ==> ipToSession[dst] in sessions && sessions[ipToSession[dst]].virtualIpN == dst
    {
      var index := Index();
      forall sid | sid in sessions && sessions[sid].virtualIpN == dst
        ensures dst in ipToSession && ipToSession[dst] == sid
      {
        assert index.sessions[sid].key == dst;
      }
      if dst in ipToSession {
        assert index.byIp[dst] in index.sessions;
      }
    }

    /** Hands a raw packet from the TUN device to the authenticated session that owns its
        destination address, and to no other. */
    method RouteToClient(data: Bytes) returns (r: Result<()>)
      requires Valid()
      modifies Transports()
      ensures r.Throws? <==>
                && |data| > 65535
                && exists sid :: sid in sessions && sessions[sid].authenticated
                                 && data[16..20] == VirtualAddress(cfg.subnet, sid)
      ensures forall sid :: sid in sessions && sessions[sid].authenticated
                            && |data| >= 20 && data[16..20] == VirtualAddress(cfg.subnet, sid) ==>
                sessions[sid].ws.View() == Offered(old(sessions[sid].ws.View()), data)
      ensures forall sid :: sid in sessions && !(sessions[sid].authenticated
                            && |data| >= 20 && data[16..20] == VirtualAddress(cfg.subnet, sid)) ==>
                unchanged(sessions[sid].ws)
    {
      if |data| < 20 {
        return Ok(());
      }
      KeysMatchDestination(data);
      LookupFinds(FromMemory(cfg.endian, DestinationBytes(data)));
      r := SendToOwner(FromMemory(cfg.endian, DestinationBytes(data)), data);
    }

    lemma KeysMatchDestination(data: Bytes)
      requires Valid() && |data| >= 20
      ensures forall sid :: sid in sessions ==>
                (sessions[sid].virtualIpN == FromMemory(cfg.endian, DestinationBytes(data)) <==>
                 data[16..20] == VirtualAddress(cfg.subnet, sid))
    {
      forall sid | sid in sessions
        ensures sessions[sid].virtualIpN == FromMemory(cfg.endian, DestinationBytes(data)) <==>
                data[16..20] == VirtualAddress(cfg.subnet, sid)
      {
        assert Index().sessions[sid].key == keys(sid);
        KeyMatchesDestination(cfg.endian, cfg.subnet, sid, data);
      }
    }
  }

  // ---- The sessions are those of `Fleet` ----

  /** What a server gives to all its sessions. */
  function FixedOf(cfg: ServerConfig): F.Fixed {
    F.Fixed(cfg.endian, cfg.subnet, Config(cfg.hmac, cfg.parse, cfg.dump, cfg.secret, "", cfg.tun))
  }

  lemma OffsetOfSid(n: nat)
    ensures Add32(A.SidOf(n), 1) == (n + 2) % TWO_32
  {
    A.SidAdvances(n);
  }

  /** The configuration under which `Fleet` runs the n-th client is the one it is registered
      with. */
  lemma FleetConfig(cfg: ServerConfig, n: nat)
    ensures F.ConfigOf(FixedOf(cfg), n) ==
              Config(cfg.hmac, cfg.parse, cfg.dump, cfg.secret,
                     ClientIp(cfg.endian, cfg.subnet, (n + 2) % TWO_32), cfg.tun)
  {
    OffsetOfSid(n);
  }
}
