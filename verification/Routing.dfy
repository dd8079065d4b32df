/** The two maps of src/server/server.cpp by which a raw packet finds its session. */
module Routing {
  import opened Basics
  import opened Protocol
  import opened Address

  datatype Entry = Entry(key: u32, auth: bool)

  /** `sessions_`, reduced to what routing reads, and `ip_to_session_`. */
  datatype Index = Index(sessions: map<u32, Entry>, byIp: map<u32, u32>)

  /** The routing key of a session, as computed from its address text. */
  function KeyOf(e: Endian, subnet: string, sid: u32): u32 {
    AddrKey(e, ClientIp(e, subnet, Add32(sid, 1)))
  }

  function ServerTexts(e: Endian, subnet: string): u32 -> string {
    (sid: u32) => ClientIp(e, subnet, Add32(sid, 1))
  }

  /** How ids determine keys. */
  type Keys = u32 -> u32

  function ServerKeys(e: Endian, subnet: string): Keys {
    (sid: u32) => KeyOf(e, subnet, sid)
  }

  ghost predicate Injective(key: Keys) {
    forall s1: u32, s2: u32 :: key(s1) == key(s2) ==> s1 == s2
  }

  function Insert(x: Index, sid: u32, key: u32): Index {
    Index(x.sessions[sid := Entry(key, false)], x.byIp[key := sid])
  }

  function SetAuth(x: Index, sid: u32, auth: bool): Index {
    if sid in x.sessions then x.(sessions := x.sessions[sid := x.sessions[sid].(auth := auth)]) else x
  }

  /** The two-step lookup of `route_to_client`. */
  function Lookup(x: Index, dst: u32): Option<u32> {
    if dst in x.byIp && x.byIp[dst] in x.sessions && x.sessions[x.byIp[dst]].auth then Some(x.byIp[dst]) else None
  }

  /** What a search through all sessions would find. */
  ghost function Search(x: Index, dst: u32): set<u32> {
    set sid | sid in x.sessions && x.sessions[sid].auth && x.sessions[sid].key == dst
  }

  /** The maps are inverse to each other. */
  ghost predicate Consistent(x: Index) {
    && (forall k :: k in x.byIp ==> x.byIp[k] in x.sessions && x.sessions[x.byIp[k]].key == k)
    && (forall sid :: sid in x.sessions ==> x.sessions[sid].key in x.byIp && x.byIp[x.sessions[sid].key] == sid)
  }

  ghost predicate Keyed(key: Keys, x: Index) {
    forall sid :: sid in x.sessions ==> x.sessions[sid].key == key(sid)
  }

  lemma ServerKeysInjective(e: Endian, subnet: string)
    ensures Injective(ServerKeys(e, subnet))
  {
    forall s1: u32, s2: u32 | KeyOf(e, subnet, s1) == KeyOf(e, subnet, s2)
      ensures s1 == s2
    {
      KeyInjective(e, subnet, s1, s2);
    }
  }

  lemma KeyInjective(e: Endian, subnet: string, s1: u32, s2: u32)
    requires KeyOf(e, subnet, s1) == KeyOf(e, subnet, s2)
    ensures s1 == s2
  {
    ClientIpMeaning(e, subnet, Add32(s1, 1));
    ClientIpMeaning(e, subnet, Add32(s2, 1));
    MemoryRoundTrip(e, VirtualAddress(subnet, s1), 0);
    MemoryRoundTrip(e, VirtualAddress(subnet, s2), 0);
    VirtualAddressInjective(subnet, s1, s2);
  }

  /** A reused session id replaces its predecessor in both maps. */
  lemma InsertKeepsIndex(key: Keys, x: Index, sid: u32)
    requires Injective(key) && Consistent(x) && Keyed(key, x)
    ensures Consistent(Insert(x, sid, key(sid))) && Keyed(key, Insert(x, sid, key(sid)))
  {
  }

  lemma SetAuthKeepsIndex(key: Keys, x: Index, sid: u32, auth: bool)
    requires Consistent(x) && Keyed(key, x)
    ensures Consistent(SetAuth(x, sid, auth)) && Keyed(key, SetAuth(x, sid, auth))
  {
  }

  lemma LookupIsSearch(x: Index, dst: u32)
    requires Consistent(x)
    ensures Search(x, dst) == match Lookup(x, dst) case Some(sid) => {sid} case None => {}
  {
  }

  // ---- Every history ----

  datatype Op = Registered(sid: u32) | AuthSet(sid: u32, auth: bool)

  function Applied(key: Keys, x: Index, op: Op): Index {
    match op
    case Registered(sid) => Insert(x, sid, key(sid))
    case AuthSet(sid, auth) => SetAuth(x, sid, auth)
  }

  function After(key: Keys, ops: seq<Op>): Index {
    if ops == [] then Index(map[], map[]) else Applied(key, After(key, ops[..|ops| - 1]), ops[|ops| - 1])
  }

  lemma {:induction false} IndexInv(key: Keys, ops: seq<Op>)
    requires Injective(key)
    ensures Consistent(After(key, ops)) && Keyed(key, After(key, ops))
  {
    if ops != [] {
      var x := After(key, ops[..|ops| - 1]);
      IndexInv(key, ops[..|ops| - 1]);
      match ops[|ops| - 1]
      case Registered(sid) => InsertKeepsIndex(key, x, sid);
      case AuthSet(sid, auth) => SetAuthKeepsIndex(key, x, sid, auth);
    }
  }

  lemma LookupIff(key: Keys, x: Index, dst: u32, sid: u32)
    requires Injective(key) && Consistent(x) && Keyed(key, x)
    ensures Lookup(x, dst) == Some(sid) <==> sid in x.sessions && x.sessions[sid].auth && key(sid) == dst
  {
  }

  /** Under every order of registrations and authentications, on either kind of host, a
      packet is routed to a session exactly when that session is registered,
      authenticated and owns the packet's destination address; the result is that of a
      search through all sessions. */
  lemma RouteRefinesSearch(e: Endian, subnet: string, ops: seq<Op>, pkt: Bytes, sid: u32)
    requires |pkt| >= 20
    ensures var x := After(ServerKeys(e, subnet), ops);
            var dst := FromMemory(e, DestinationBytes(pkt));
            && (Lookup(x, dst) == Some(sid) <==>
                  sid in x.sessions && x.sessions[sid].auth && pkt[16..20] == VirtualAddress(subnet, sid))
            && Search(x, dst) == (match Lookup(x, dst) case Some(found) => {found} case None => {})
  {
    var keys := ServerKeys(e, subnet);
    var x, dst := After(keys, ops), FromMemory(e, DestinationBytes(pkt));
    ServerKeysInjective(e, subnet);
    IndexInv(keys, ops);
    LookupIsSearch(x, dst);
    LookupIff(keys, x, dst, sid);
    KeyMatchesDestination(e, subnet, sid, pkt);
  }
}
