/** The whole server: any number of clients accepted, registered in any order, routed to
    by the TUN thread, each session under every interleaving of `Strand`.

    Clients are numbered by the order of their accepts; session ids wrap, these numbers
    do not. */
module Fleet {
  import opened Basics
  import opened Protocol
  import opened Address
  import opened Session
  import A = Acceptor
  import R = Routing
  import S = Strand
  import T = Transport
  import Window

  /** The parts of the server that never change; sessions differ only in their address. */
  datatype Fixed = Fixed(endian: Endian, subnet: string, common: Config)

  datatype State = State(
    accepts: nat,                        // connections accepted so far
    handshaking: set<nat>,               // clients in their handshakes
    sessions: map<u32, nat>,             // sessions_
    byIp: map<u32, u32>,                 // ip_to_session_
    strands: map<nat, S.State>)          // every session ever registered

  function Init(): State {
    State(0, {}, map[], map[], map[])
  }

  datatype Action =
    | Accept
    | Abort(n: nat)                      // a handshake fails
    | Enrol(n: nat)                      // a handshake succeeds: register_session
    | Route(packet: Bytes)               // route_to_client, up to the auth test
    | Client(n: nat, act: S.Action)      // one step of one session

  /** The address of the n-th client, whose id is `SidOf(n)` (see `Acceptor`). */
  function AddressOf(x: Fixed, n: nat): Quad {
    VirtualAddress(x.subnet, A.SidOf(n))
  }

  /** Its session is configured with the text of that address. */
  function ConfigOf(x: Fixed, n: nat): Config {
    x.common.(virtualIp := R.ServerTexts(x.endian, x.subnet)(A.SidOf(n)))
  }

  lemma ConfiguredAddress(x: Fixed, n: nat)
    ensures InetPton(ConfigOf(x, n).virtualIp) == Some(AddressOf(x, n))
  {
    ClientIpMeaning(x.endian, x.subnet, Add32(A.SidOf(n), 1));
    InetRoundTrip(AddressOf(x, n));
  }

  /** The client that the two lookups of `route_to_client` find. */
  function Target(f: State, dst: u32): Option<nat> {
    if dst in f.byIp && f.byIp[dst] in f.sessions then Some(f.sessions[f.byIp[dst]]) else None
  }

  /** The client that a raw packet is handed to: no address is tested here. */
  function Receiver(x: Fixed, f: State, packet: Bytes): (n: Option<nat>)
    ensures n.Some? ==> 20 <= |packet| <= MAX_PAYLOAD && n.value in f.strands
  {
    if |packet| < 20 then None
    else match Target(f, FromMemory(x.endian, DestinationBytes(packet)))
      case None => None
      case Some(n) =>
        if n in f.strands && f.strands[n].auth && f.strands[n].tun.None? && |packet| <= MAX_PAYLOAD
        then Some(n) else None
  }

  function RouteStep(x: Fixed, f: State, packet: Bytes): State {
    match Receiver(x, f, packet)
    case None => f
    case Some(n) => f.(strands := f.strands[n := f.strands[n].(tun := Some(packet))])
  }

  function EnrolStep(x: Fixed, f: State, n: nat): State {
    if n !in f.handshaking then f
    else
      var sid := A.SidOf(n);
      f.(handshaking := f.handshaking - {n}, sessions := f.sessions[sid := n],
         byIp := f.byIp[R.ServerKeys(x.endian, x.subnet)(sid) := sid], strands := f.strands[n := S.Init()])
  }

  function ClientStep(x: Fixed, f: State, n: nat, act: S.Action): State {
    if n !in f.strands || act.TunCheck? then f
    else f.(strands := f.strands[n := S.Step(ConfigOf(x, n), AddressOf(x, n), f.strands[n], act)])
  }

  function Step(x: Fixed, f: State, a: Action): State {
    match a
    case Accept => f.(accepts := f.accepts + 1, handshaking := f.handshaking + {f.accepts})
    case Abort(n) => f.(handshaking := f.handshaking - {n})
    case Enrol(n) => EnrolStep(x, f, n)
    case Route(packet) => RouteStep(x, f, packet)
    case Client(n, act) => ClientStep(x, f, n, act)
  }

  function Run(x: Fixed, acts: seq<Action>): State {
    if acts == [] then Init() else Step(x, Run(x, acts[..|acts| - 1]), acts[|acts| - 1])
  }

  ghost predicate MapsInv(keys: R.Keys, f: State) {
    && (forall sid :: sid in f.sessions ==> f.sessions[sid] in f.strands && A.SidOf(f.sessions[sid]) == sid)
    && (forall k :: k in f.byIp ==> f.byIp[k] in f.sessions && keys(f.byIp[k]) == k)
  }

  ghost predicate StrandsInv(x: Fixed, strands: map<nat, S.State>) {
    forall n :: n in strands ==> S.Inv(AddressOf(x, n), strands[n])
  }

  ghost predicate Inv(x: Fixed, f: State) {
    MapsInv(R.ServerKeys(x.endian, x.subnet), f) && StrandsInv(x, f.strands)
  }

  /** The lookup tests no address, yet what it lets through is addressed to its target. */
  lemma TargetOwnsPacket(x: Fixed, f: State, packet: Bytes, n: nat)
    requires MapsInv(R.ServerKeys(x.endian, x.subnet), f)
    requires |packet| >= 20 && Target(f, FromMemory(x.endian, DestinationBytes(packet))) == Some(n)
    ensures packet[16..20] == AddressOf(x, n)
  {
    var sid := f.byIp[FromMemory(x.endian, DestinationBytes(packet))];
    KeyMatchesDestination(x.endian, x.subnet, sid, packet);
  }

  lemma RouteIsTunCheck(x: Fixed, f: State, packet: Bytes)
    requires Inv(x, f) && Receiver(x, f, packet).Some?
    ensures var n := Receiver(x, f, packet).value;
            && S.Step(ConfigOf(x, n), AddressOf(x, n), f.strands[n], S.TunCheck(packet)) ==
                 f.strands[n].(tun := Some(packet))
            && S.Inv(AddressOf(x, n), f.strands[n].(tun := Some(packet)))
  {
    var n := Receiver(x, f, packet).value;
    TargetOwnsPacket(x, f, packet, n);
    S.CheckPasses(ConfigOf(x, n), AddressOf(x, n), f.strands[n], packet);
    S.StepInv(ConfigOf(x, n), AddressOf(x, n), f.strands[n], S.TunCheck(packet));
  }

  lemma EnrolMaps(keys: R.Keys, f: State, n: nat)
    requires MapsInv(keys, f)
    ensures var sid := A.SidOf(n);
            MapsInv(keys, f.(handshaking := f.handshaking - {n}, sessions := f.sessions[sid := n],
                             byIp := f.byIp[keys(sid) := sid], strands := f.strands[n := S.Init()]))
  {
  }

  lemma InitialStrand(owner: Quad)
    ensures S.Inv(owner, S.Init())
  {
  }

  lemma UpdateStrand(x: Fixed, strands: map<nat, S.State>, n: nat, s: S.State)
    requires StrandsInv(x, strands) && S.Inv(AddressOf(x, n), s)
    ensures StrandsInv(x, strands[n := s])
  {
  }

  lemma StepMaps(keys: R.Keys, x: Fixed, f: State, a: Action)
    requires MapsInv(keys, f) && keys == R.ServerKeys(x.endian, x.subnet)
    ensures MapsInv(keys, Step(x, f, a))
  {
    match a
    case Accept =>
    case Abort(_) =>
    case Enrol(n) => EnrolMaps(keys, f, n);
    case Route(_) =>
    case Client(_, _) =>
  }

  lemma RouteStrands(x: Fixed, f: State, packet: Bytes)
    requires Inv(x, f)
    ensures StrandsInv(x, RouteStep(x, f, packet).strands)
  {
    if Receiver(x, f, packet).Some? {
      var n := Receiver(x, f, packet).value;
      RouteIsTunCheck(x, f, packet);
      UpdateStrand(x, f.strands, n, f.strands[n].(tun := Some(packet)));
    }
  }

  lemma StepStrands(x: Fixed, f: State, a: Action)
    requires Inv(x, f)
    ensures StrandsInv(x, Step(x, f, a).strands)
  {
    match a
    case Accept =>
    case Abort(_) =>
    case Enrol(n) =>
      InitialStrand(AddressOf(x, n));
      UpdateStrand(x, f.strands, n, S.Init());
    case Route(packet) => RouteStrands(x, f, packet);
    case Client(n, act) =>
      if n in f.strands && !act.TunCheck? {
        S.StepInv(ConfigOf(x, n), AddressOf(x, n), f.strands[n], act);
        UpdateStrand(x, f.strands, n, S.Step(ConfigOf(x, n), AddressOf(x, n), f.strands[n], act));
      }
  }

  lemma StepInv(x: Fixed, f: State, a: Action)
    requires Inv(x, f)
    ensures Inv(x, Step(x, f, a))
  {
    StepMaps(R.ServerKeys(x.endian, x.subnet), x, f, a);
    StepStrands(x, f, a);
  }

  lemma {:induction false} RunInv(x: Fixed, acts: seq<Action>)
    ensures Inv(x, Run(x, acts))
  {
    if acts != [] {
      RunInv(x, acts[..|acts| - 1]);
      StepInv(x, Run(x, acts[..|acts| - 1]), acts[|acts| - 1]);
    }
  }

  // ---- The maps are those of `Routing`, the sessions those of `Strand` ----

  /** The auth flag of every session. */
  function AuthsOf(strands: map<nat, S.State>): map<nat, bool> {
    map n | n in strands :: strands[n].auth
  }

  lemma AuthsUpdate(strands: map<nat, S.State>, n: nat, s: S.State)
    ensures AuthsOf(strands[n := s]) == AuthsOf(strands)[n := s.auth]
  {
  }

  predicate Enrolled(sessions: map<u32, nat>, auths: map<nat, bool>) {
    forall sid :: sid in sessions ==> sessions[sid] in auths && A.SidOf(sessions[sid]) == sid
  }

  function IndexOf(keys: R.Keys, sessions: map<u32, nat>, byIp: map<u32, u32>, auths: map<nat, bool>): R.Index
    requires Enrolled(sessions, auths)
  {
    R.Index(map sid | sid in sessions :: R.Entry(keys(sid), auths[sessions[sid]]), byIp)
  }

  /** What routing sees of the fleet. */
  ghost function AsIndex(keys: R.Keys, f: State): R.Index
    requires MapsInv(keys, f)
  {
    IndexOf(keys, f.sessions, f.byIp, AuthsOf(f.strands))
  }

  /** The two lookups and the auth test together are the lookup of `Routing`. */
  lemma TargetIsLookup(keys: R.Keys, f: State, dst: u32)
    requires MapsInv(keys, f)
    ensures R.Lookup(AsIndex(keys, f), dst) ==
              match Target(f, dst)
              case None => None
              case Some(n) => if f.strands[n].auth then Some(A.SidOf(n)) else None
  {
  }

  lemma IndexInsert(keys: R.Keys, sessions: map<u32, nat>, byIp: map<u32, u32>, auths: map<nat, bool>, n: nat)
    requires Enrolled(sessions, auths)
    ensures var sid := A.SidOf(n);
            && Enrolled(sessions[sid := n], auths[n := false])
            && IndexOf(keys, sessions[sid := n], byIp[keys(sid) := sid], auths[n := false]) ==
                 R.Insert(IndexOf(keys, sessions, byIp, auths), sid, keys(sid))
  {
    var sid := A.SidOf(n);
    var x, y := IndexOf(keys, sessions[sid := n], byIp, auths[n := false]), IndexOf(keys, sessions, byIp, auths);
    forall other | other in sessions && other != sid
      ensures x.sessions[other] == y.sessions[other]
    {
      assert sessions[other] != n;
    }
    assert x.sessions == y.sessions[sid := R.Entry(keys(sid), false)];
  }

  predicate Current(sessions: map<u32, nat>, n: nat) {
    A.SidOf(n) in sessions && sessions[A.SidOf(n)] == n
  }

  lemma IndexSetAuth(keys: R.Keys, sessions: map<u32, nat>, byIp: map<u32, u32>, auths: map<nat, bool>, n: nat,
                     auth: bool)
    requires Enrolled(sessions, auths) && n in auths
    ensures var x := IndexOf(keys, sessions, byIp, auths);
            && Enrolled(sessions, auths[n := auth])
            && IndexOf(keys, sessions, byIp, auths[n := auth]) ==
                 if Current(sessions, n) then R.SetAuth(x, A.SidOf(n), auth) else x
  {
    assert forall sid :: sid in sessions && sessions[sid] == n ==> sid == A.SidOf(n);
  }

  /** What a step of the fleet is to routing, if anything. */
  function OpsOf(x: Fixed, f: State, a: Action): seq<R.Op> {
    match a
    case Enrol(n) => if n in f.handshaking then [R.Registered(A.SidOf(n))] else []
    case Client(n, act) =>
      if n in f.strands && Current(f.sessions, n)
      then [R.AuthSet(A.SidOf(n), Step(x, f, a).strands[n].auth)] else []
    case _ => []
  }

  lemma EnrolIsInsert(keys: R.Keys, x: Fixed, f: State, n: nat)
    requires MapsInv(keys, f) && keys == R.ServerKeys(x.endian, x.subnet) && n in f.handshaking
    requires MapsInv(keys, EnrolStep(x, f, n))
    ensures AsIndex(keys, EnrolStep(x, f, n)) == R.Insert(AsIndex(keys, f), A.SidOf(n), keys(A.SidOf(n)))
  {
    AuthsUpdate(f.strands, n, S.Init());
    IndexInsert(keys, f.sessions, f.byIp, AuthsOf(f.strands), n);
  }

  /** A step that only replaces the state of one session. */
  lemma ReplaceStrand(keys: R.Keys, f: State, n: nat, s: S.State)
    requires MapsInv(keys, f) && n in f.strands
    ensures var e := f.(strands := f.strands[n := s]);
            && MapsInv(keys, e)
            && AsIndex(keys, e) ==
                 if Current(f.sessions, n) then R.SetAuth(AsIndex(keys, f), A.SidOf(n), s.auth) else AsIndex(keys, f)
  {
    AuthsUpdate(f.strands, n, s);
    IndexSetAuth(keys, f.sessions, f.byIp, AuthsOf(f.strands), n, s.auth);
  }

  lemma RouteKeepsIndex(keys: R.Keys, x: Fixed, f: State, packet: Bytes)
    requires MapsInv(keys, f)
    ensures MapsInv(keys, RouteStep(x, f, packet)) && AsIndex(keys, RouteStep(x, f, packet)) == AsIndex(keys, f)
  {
    if Receiver(x, f, packet).Some? {
      var n := Receiver(x, f, packet).value;
      ReplaceStrand(keys, f, n, f.strands[n].(tun := Some(packet)));
    }
  }

  lemma ClientIsSetAuth(keys: R.Keys, x: Fixed, f: State, n: nat, act: S.Action)
    requires MapsInv(keys, f) && n in f.strands
    ensures var e := ClientStep(x, f, n, act);
            && MapsInv(keys, e)
            && AsIndex(keys, e) ==
                 if Current(f.sessions, n) then R.SetAuth(AsIndex(keys, f), A.SidOf(n), e.strands[n].auth)
                 else AsIndex(keys, f)
  {
    if !act.TunCheck? {
      ReplaceStrand(keys, f, n, S.Step(ConfigOf(x, n), AddressOf(x, n), f.strands[n], act));
    } else {
      ReplaceStrand(keys, f, n, f.strands[n]);
      assert f.strands[n := f.strands[n]] == f.strands;
    }
  }

  lemma AfterStep(keys: R.Keys, ops: seq<R.Op>, op: R.Op)
    ensures R.After(keys, ops + [op]) == R.Applied(keys, R.After(keys, ops), op)
  {
    assert (ops + [op])[..|ops|] == ops;
  }

  lemma OpsStep(keys: R.Keys, x: Fixed, f: State, a: Action, ops: seq<R.Op>)
    requires MapsInv(keys, f) && keys == R.ServerKeys(x.endian, x.subnet) && AsIndex(keys, f) == R.After(keys, ops)
    ensures MapsInv(keys, Step(x, f, a))
    ensures AsIndex(keys, Step(x, f, a)) == R.After(keys, ops + OpsOf(x, f, a))
  {
    StepMaps(keys, x, f, a);
    if OpsOf(x, f, a) == [] {
      assert ops + OpsOf(x, f, a) == ops;
    } else {
      AfterStep(keys, ops, OpsOf(x, f, a)[0]);
    }
    match a
    case Accept =>
    case Abort(_) =>
    case Enrol(n) =>
      if n in f.handshaking {
        EnrolIsInsert(keys, x, f, n);
      }
    case Route(packet) => RouteKeepsIndex(keys, x, f, packet);
    case Client(n, act) =>
      if n in f.strands {
        ClientIsSetAuth(keys, x, f, n, act);
      }
  }

  /** In every run of the fleet the maps have the history of an index, so `Routing` speaks
      of them. */
  lemma {:induction false} RefinesRouting(x: Fixed, acts: seq<Action>) returns (ops: seq<R.Op>)
    ensures var (keys, f) := (R.ServerKeys(x.endian, x.subnet), Run(x, acts));
            MapsInv(keys, f) && AsIndex(keys, f) == R.After(keys, ops)
  {
    if acts == [] {
      ops := [];
    } else {
      var f := Run(x, acts[..|acts| - 1]);
      var before := RefinesRouting(x, acts[..|acts| - 1]);
      OpsStep(R.ServerKeys(x.endian, x.subnet), x, f, acts[|acts| - 1], before);
      ops := before + OpsOf(x, f, acts[|acts| - 1]);
    }
  }

  /** Hence in every run a packet finds a client exactly when that client is registered
      under its id, authenticated, and owns the destination. */
  lemma RoutedIff(x: Fixed, acts: seq<Action>, packet: Bytes, n: nat)
    requires |packet| >= 20
    ensures var f := Run(x, acts);
            var found := Target(f, FromMemory(x.endian, DestinationBytes(packet)));
            found == Some(n) && n in f.strands && f.strands[n].auth <==>
              && Current(f.sessions, n)
              && n in f.strands && f.strands[n].auth && packet[16..20] == AddressOf(x, n)
  {
    var keys, f := R.ServerKeys(x.endian, x.subnet), Run(x, acts);
    var dst := FromMemory(x.endian, DestinationBytes(packet));
    var ops := RefinesRouting(x, acts);
    R.RouteRefinesSearch(x.endian, x.subnet, ops, packet, A.SidOf(n));
    TargetIsLookup(keys, f, dst);
  }

  /** The packet is handed over exactly then, if the TUN thread is free and it fits a frame. */
  lemma HandedIff(x: Fixed, acts: seq<Action>, packet: Bytes, n: nat)
    ensures var f := Run(x, acts);
            Receiver(x, f, packet) == Some(n) <==>
              && 20 <= |packet| <= 65535 && packet[16..20] == AddressOf(x, n)
              && Current(f.sessions, n) && n in f.strands && f.strands[n].auth && f.strands[n].tun.None?
  {
    if |packet| >= 20 {
      RoutedIff(x, acts, packet, n);
    }
  }

  /** The step of one session that a step of the fleet is, if any. */
  function OwnStep(x: Fixed, f: State, a: Action, n: nat): Option<S.Action> {
    match a
    case Route(packet) =>
      if Receiver(x, f, packet) == Some(n) then Some(S.TunCheck(packet)) else None
    case Client(m, act) => if m == n && !act.TunCheck? then Some(act) else None
    case _ => None
  }

  lemma RouteOwnStep(x: Fixed, f: State, packet: Bytes, n: nat)
    requires Inv(x, f) && n in f.strands
    ensures n in RouteStep(x, f, packet).strands
    ensures RouteStep(x, f, packet).strands[n] ==
              match OwnStep(x, f, Route(packet), n)
              case None => f.strands[n]
              case Some(act) => S.Step(ConfigOf(x, n), AddressOf(x, n), f.strands[n], act)
  {
    if Receiver(x, f, packet).Some? {
      RouteIsTunCheck(x, f, packet);
    }
  }

  lemma ClientOwnStep(x: Fixed, f: State, m: nat, act: S.Action, n: nat)
    requires n in f.strands
    ensures n in ClientStep(x, f, m, act).strands
    ensures ClientStep(x, f, m, act).strands[n] ==
              if m == n && !act.TunCheck? then S.Step(ConfigOf(x, n), AddressOf(x, n), f.strands[n], act)
              else f.strands[n]
  {
  }

  lemma OwnStepIsStep(x: Fixed, f: State, a: Action, n: nat)
    requires Inv(x, f) && n in f.strands && a != Enrol(n)
    ensures n in Step(x, f, a).strands
    ensures Step(x, f, a).strands[n] ==
              match OwnStep(x, f, a, n)
              case None => f.strands[n]
              case Some(act) => S.Step(ConfigOf(x, n), AddressOf(x, n), f.strands[n], act)
  {
    match a
    case Accept =>
    case Abort(_) =>
    case Enrol(_) =>
    case Route(packet) => RouteOwnStep(x, f, packet, n);
    case Client(m, act) => ClientOwnStep(x, f, m, act, n);
  }

  /** And each session's part of a run is a run of `Strand`. */
  lemma {:induction false} SessionRun(x: Fixed, acts: seq<Action>, n: nat) returns (own: seq<S.Action>)
    requires n in Run(x, acts).strands
    ensures S.Run(ConfigOf(x, n), AddressOf(x, n), own) == Run(x, acts).strands[n]
  {
    var before, last := acts[..|acts| - 1], acts[|acts| - 1];
    var f := Run(x, before);
    if last == Enrol(n) && n in f.handshaking {
      own := [];
    } else {
      OnlyEnrolAdds(x, f, last, n);
      own := SessionRun(x, before, n);
      if last != Enrol(n) {
        RunInv(x, before);
        OwnStepIsStep(x, f, last, n);
        own := Extended(x, n, own, OwnStep(x, f, last, n));
      }
    }
  }

  lemma OnlyEnrolAdds(x: Fixed, f: State, a: Action, n: nat)
    requires n in Step(x, f, a).strands && !(a == Enrol(n) && n in f.handshaking)
    ensures n in f.strands
  {
    match a
    case Accept =>
    case Abort(_) =>
    case Enrol(_) =>
    case Route(_) =>
    case Client(_, _) =>
  }

  lemma Extended(x: Fixed, n: nat, own: seq<S.Action>, more: Option<S.Action>) returns (longer: seq<S.Action>)
    ensures var s := S.Run(ConfigOf(x, n), AddressOf(x, n), own);
            S.Run(ConfigOf(x, n), AddressOf(x, n), longer) ==
              if more.None? then s else S.Step(ConfigOf(x, n), AddressOf(x, n), s, more.value)
  {
    longer := own;
    if more.Some? {
      longer := own + [more.value];
      assert longer[..|own|] == own;
    }
  }

  /** A client whose handshake failed is never registered. */
  lemma {:induction false} FailedIsFinal(x: Fixed, acts: seq<Action>, n: nat, more: seq<Action>)
    requires n < Run(x, acts).accepts && n !in Run(x, acts).strands
    ensures var e := Run(x, acts + [Abort(n)] + more); n < e.accepts && n !in e.strands && n !in e.handshaking
  {
    var all := acts + [Abort(n)] + more;
    if more == [] {
      assert all[..|all| - 1] == acts;
    } else {
      var before := more[..|more| - 1];
      assert all[..|all| - 1] == acts + [Abort(n)] + before;
      FailedIsFinal(x, acts, n, before);
      NoWayBack(x, Run(x, acts + [Abort(n)] + before), all[|all| - 1], n);
    }
  }

  lemma NoWayBack(x: Fixed, f: State, a: Action, n: nat)
    requires n < f.accepts && n !in f.strands && n !in f.handshaking
    ensures var e := Step(x, f, a); n < e.accepts && n !in e.strands && n !in e.handshaking
  {
    match a
    case Accept =>
    case Abort(_) =>
    case Enrol(_) =>
    case Route(_) =>
    case Client(_, _) =>
  }

  // ---- Every client can be served ----

  lemma Then(x: Fixed, before: seq<Action>, a: Action) returns (acts: seq<Action>)
    ensures acts == before + [a] && Run(x, acts) == Step(x, Run(x, before), a)
  {
    acts := before + [a];
    assert acts[..|before|] == before;
  }

  lemma {:induction false} Accepted(x: Fixed, n: nat) returns (acts: seq<Action>)
    ensures Run(x, acts) == Init().(accepts := n, handshaking := Run(x, acts).handshaking)
    ensures forall k :: 0 <= k < n ==> k in Run(x, acts).handshaking
  {
    acts := [];
    if n > 0 {
      acts := Accepted(x, n - 1);
      acts := Then(x, acts, Accept);
    }
  }

  lemma Registered(x: Fixed, n: nat) returns (acts: seq<Action>)
    ensures var f := Run(x, acts); Current(f.sessions, n) && f.strands == map[n := S.Init()]
  {
    acts := Accepted(x, n + 1);
    acts := Then(x, acts, Enrol(n));
  }

  lemma ClientThen(x: Fixed, before: seq<Action>, n: nat, act: S.Action) returns (acts: seq<Action>)
    requires n in Run(x, before).strands && !act.TunCheck?
    ensures var (f, e) := (Run(x, before), Run(x, acts));
            && e == f.(strands := e.strands) && n in e.strands
            && e.strands[n] == S.Step(ConfigOf(x, n), AddressOf(x, n), f.strands[n], act)
  {
    acts := Then(x, before, Client(n, act));
  }

  lemma Authenticated(x: Fixed, n: nat) returns (acts: seq<Action>)
    ensures var f := Run(x, acts);
            Current(f.sessions, n) && n in f.strands && f.strands[n].auth && f.strands[n].tun.None?
  {
    acts := Registered(x, n);
    acts := ClientThen(x, acts, n, S.Net(T.Open));
    acts := ClientThen(x, acts, n, S.Packet(AuthRequest(Window.Accepts)));
  }

  /** For every client there is a run in which it is registered, authenticated, and handed
      a packet for its address. */
  lemma CanBeServed(x: Fixed, n: nat, packet: Payload) returns (acts: seq<Action>)
    requires |packet| >= 20 && packet[16..20] == AddressOf(x, n)
    ensures n in Run(x, acts).strands && Run(x, acts).strands[n].auth && Run(x, acts).strands[n].tun == Some(packet)
  {
    acts := Authenticated(x, n);
    HandedIff(x, acts, packet, n);
    acts := Then(x, acts, Route(packet));
  }

  /** Isolation. However clients come, authenticate and are routed to, whatever prefix of
      its wire a client has read dispatches to messages of its own session, and each IP
      packet among them was queued while the session was authenticated and carries as its
      destination that client's address, the one its session is configured to announce. */
  lemma Isolation(x: Fixed, acts: seq<Action>, n: nat, k: nat)
    requires var f := Run(x, acts); n in f.strands && k <= |f.strands[n].net.log.wire|
    ensures var s := Run(x, acts).strands[n];
            && k <= |s.sent| == |s.stamps|
            && DispatchAll(s.net.log.wire[..k]) == s.sent[..k]
            && InetPton(ConfigOf(x, n).virtualIp) == Some(AddressOf(x, n))
            && forall i :: 0 <= i < k && s.sent[i].kind == IP_PACKET ==>
                 s.stamps[i] && |s.sent[i].payload| >= 20 && s.sent[i].payload[16..20] == AddressOf(x, n)
  {
    RunInv(x, acts);
    WireOf(AddressOf(x, n), Run(x, acts).strands[n], k);
    ConfiguredAddress(x, n);
  }

  lemma WireOf(owner: Quad, s: S.State, k: nat)
    requires S.Inv(owner, s) && k <= |s.net.log.wire|
    ensures k <= |s.net.log.started| <= S.Writable(s) <= |s.sent| == |s.stamps|
    ensures DispatchAll(s.net.log.wire[..k]) == s.sent[..k]
    ensures forall i :: 0 <= i < k && s.sent[i].kind == IP_PACKET ==>
              s.stamps[i] && S.Addressed(owner, s.sent[i].payload)
  {
    assert s.net.log.wire <= s.net.log.accepted;
    assert s.net.log.wire[..k] == EncodeAll(s.sent)[..k] == EncodeAll(s.sent[..k]);
    DispatchAllOfEncodeAll(s.sent[..k]);
  }

  /** Two clients less than 2^32 accepts apart never receive packets for the same address. */
  lemma NoSharedTraffic(x: Fixed, acts: seq<Action>, a: nat, b: nat, i: nat, j: nat)
    requires var f := Run(x, acts);
             a < b < a + TWO_32 && a in f.strands && b in f.strands
             && i < |f.strands[a].net.log.wire| && j < |f.strands[b].net.log.wire|
    ensures var (s, t) := (Run(x, acts).strands[a], Run(x, acts).strands[b]);
            && i < |s.sent| && j < |t.sent|
            && (s.sent[i].kind == IP_PACKET && t.sent[j].kind == IP_PACKET ==> s.sent[i].payload != t.sent[j].payload)
  {
    Isolation(x, acts, a, i + 1);
    Isolation(x, acts, b, j + 1);
    A.AddressReuse(x.subnet, a, b);
  }
}
