/** IPv4 addresses as src/server/server.cpp, src/server/session.cpp and
    src/common/protocol.hpp handle them: dotted text, four bytes in network order, and
    the host integer whose memory holds those bytes. */
module Address {
  import opened Basics
  import opened Protocol

  type Quad = b: Bytes | |b| == 4 witness [0, 0, 0, 0]

  /** Byte order of the host. */
  datatype Endian = Little | Big

  /** `memcpy` of four bytes into a `uint32_t`, and back. */
  function FromMemory(e: Endian, q: Quad): u32 {
    match e
    case Big => FromBigEndian(q)
    case Little => FromBigEndian([q[3], q[2], q[1], q[0]])
  }

  function ToMemory(e: Endian, n: u32): Quad {
    var b := BigEndian(n);
    match e
    case Big => b
    case Little => [b[3], b[2], b[1], b[0]]
  }

  function Ntohl(e: Endian, n: u32): u32 {
    FromBigEndian(ToMemory(e, n))
  }

  function Htonl(e: Endian, n: u32): u32 {
    FromMemory(e, BigEndian(n))
  }

  lemma MemoryRoundTrip(e: Endian, q: Quad, n: u32)
    ensures ToMemory(e, FromMemory(e, q)) == q
    ensures FromMemory(e, ToMemory(e, n)) == n
  {
    BigEndianInverse(q);
    BigEndianInverse([q[3], q[2], q[1], q[0]]);
    BigEndianRoundTrip(n);
    var b := BigEndian(n);
    assert [b[0], b[1], b[2], b[3]] == b;
  }

  lemma ByteOrderRoundTrip(e: Endian, n: u32)
    ensures Ntohl(e, Htonl(e, n)) == n && Htonl(e, Ntohl(e, n)) == n
  {
    MemoryRoundTrip(e, BigEndian(n), n);
    BigEndianRoundTrip(n);
    BigEndianInverse(ToMemory(e, n));
  }

  // ---- Dotted text ----

  function DecimalDigit(d: int): char
    requires 0 <= d < 10
  {
    ('0' as int + d) as char
  }

  function PrintOctet(n: u8): string {
    if n < 10 then [DecimalDigit(n)]
    else if n < 100 then [DecimalDigit(n / 10), DecimalDigit(n % 10)]
    else [DecimalDigit(n / 100), DecimalDigit(n / 10 % 10), DecimalDigit(n % 10)]
  }

  function InetNtop(q: Quad): string {
    PrintOctet(q[0]) + "." + PrintOctet(q[1]) + "." + PrintOctet(q[2]) + "." + PrintOctet(q[3])
  }

  /** The scanner of `inet_pton`: `done` holds the finished octets, `cur` the octet
      being read. No octet may exceed 255 or carry a leading zero. */
  function Scan(s: string, done: Bytes, cur: Option<u8>): Option<Quad>
    requires |done| <= 3
  {
    if s == "" then
      if cur.Some? && |done| == 3 then Some(done + [cur.value]) else None
    else if '0' <= s[0] <= '9' then
      var d := s[0] as int - '0' as int;
      match cur
      case None => Scan(s[1..], done, Some(d))
      case Some(v) => if v == 0 || 10 * v as int + d > 255 then None else Scan(s[1..], done, Some(10 * v as int + d))
    else if s[0] == '.' && cur.Some? && |done| < 3 then
      Scan(s[1..], done + [cur.value], None)
    else None
  }

  function InetPton(s: string): Option<Quad> {
    Scan(s, [], None)
  }

  lemma ScanDigit(d: int, rest: string, done: Bytes, cur: Option<u8>)
    requires 0 <= d < 10 && |done| <= 3 && (cur.Some? ==> cur.value > 0 && 10 * cur.value as int + d <= 255)
    ensures Scan([DecimalDigit(d)] + rest, done, cur)
         == Scan(rest, done, Some(if cur.Some? then 10 * cur.value as int + d else d))
  {
    assert ([DecimalDigit(d)] + rest)[1..] == rest;
  }

  lemma ScanTwoDigits(a: int, b: int, rest: string, done: Bytes, cur: Option<u8>)
    requires 0 <= a < 10 && 0 <= b < 10 && |done| <= 3
    requires if cur.None? then a > 0 else cur.value > 0 && 100 * cur.value as int + 10 * a + b <= 255
    ensures Scan([DecimalDigit(a), DecimalDigit(b)] + rest, done, cur)
         == Scan(rest, done, Some(if cur.Some? then 100 * cur.value as int + 10 * a + b else 10 * a + b))
  {
    assert [DecimalDigit(a), DecimalDigit(b)] + rest == [DecimalDigit(a)] + ([DecimalDigit(b)] + rest);
    ScanDigit(a, [DecimalDigit(b)] + rest, done, cur);
    ScanDigit(b, rest, done, Some(if cur.Some? then 10 * cur.value as int + a else a));
  }

  lemma ScanOctet(n: u8, rest: string, done: Bytes)
    requires |done| <= 3
    ensures Scan(PrintOctet(n) + rest, done, None) == Scan(rest, done, Some(n))
  {
    if n < 10 {
      ScanDigit(n, rest, done, None);
    } else if n < 100 {
      ScanTwoDigits(n / 10, n % 10, rest, done, None);
    } else {
      var (a, b, c) := (n / 100, n / 10 % 10, n % 10);
      assert n == 100 * a + 10 * b + c;
      var tail := [DecimalDigit(b), DecimalDigit(c)] + rest;
      assert PrintOctet(n) + rest == [DecimalDigit(a)] + tail;
      ScanDigit(a, tail, done, None);
      ScanTwoDigits(b, c, rest, done, Some(a));
    }
  }

  lemma ScanOctetAndDot(n: u8, rest: string, done: Bytes)
    requires |done| < 3
    ensures Scan(PrintOctet(n) + ("." + rest), done, None) == Scan(rest, done + [n], None)
  {
    ScanOctet(n, "." + rest, done);
    assert ("." + rest)[1..] == rest;
  }

  lemma Regroup(a: string, b: string, c: string, d: string)
    ensures a + "." + b + "." + c + "." + d == a + ("." + (b + ("." + (c + ("." + (d + ""))))))
  {
  }

  lemma ScanFour(a: u8, b: u8, c: u8, d: u8)
    ensures InetPton(PrintOctet(a) + ("." + (PrintOctet(b) + ("." + (PrintOctet(c) + ("." + (PrintOctet(d) + "")))))))
         == Some([a] + [b] + [c] + [d])
  {
    var p3 := PrintOctet(d) + "";
    var p2 := PrintOctet(c) + ("." + p3);
    var p1 := PrintOctet(b) + ("." + p2);
    ScanOctetAndDot(a, p1, []);
    assert [] + [a] == [a];
    ScanOctetAndDot(b, p2, [a]);
    ScanOctetAndDot(c, p3, [a] + [b]);
    ScanOctet(d, "", [a] + [b] + [c]);
  }

  /** Every address survives being printed and parsed. */
  lemma InetRoundTrip(q: Quad)
    ensures InetPton(InetNtop(q)) == Some(q)
  {
    Regroup(PrintOctet(q[0]), PrintOctet(q[1]), PrintOctet(q[2]), PrintOctet(q[3]));
    ScanFour(q[0], q[1], q[2], q[3]);
    assert [q[0]] + [q[1]] + [q[2]] + [q[3]] == q;
  }

  /** The canonical decimal text of an octet. */
  predicate IsDecimal(s: string, n: u8) {
    && 1 <= |s| <= 3
    && (forall i :: 0 <= i < |s| ==> '0' <= s[i] <= '9')
    && (|s| > 1 ==> s[0] != '0')
    && DecimalValue(s) == n
  }

  function DecimalValue(s: string): int {
    if s == "" then 0 else 10 * DecimalValue(s[..|s| - 1]) + (s[|s| - 1] as int - '0' as int)
  }

  lemma OctetIsDecimal(n: u8)
    ensures IsDecimal(PrintOctet(n), n)
  {
    var s := PrintOctet(n);
    if |s| == 2 {
      assert s[..1] == [DecimalDigit(n / 10)] && s[..1][..0] == "";
    } else if |s| == 3 {
      assert s[..2] == [DecimalDigit(n / 100), DecimalDigit(n / 10 % 10)];
      assert s[..2][..1] == [DecimalDigit(n / 100)] && s[..2][..1][..0] == "";
      assert DecimalValue(s[..2][..1]) == n / 100;
      assert DecimalValue(s[..2]) == 10 * (n / 100) + n / 10 % 10;
      assert n / 10 == 10 * (n / 100) + n / 10 % 10;
    }
  }

  /** The text of an address: its octets in decimal, the first byte first. */
  ghost predicate IsDotted(text: string, q: Quad) {
    exists a, b, c, d: string ::
      && IsDecimal(a, q[0]) && IsDecimal(b, q[1]) && IsDecimal(c, q[2]) && IsDecimal(d, q[3])
      && text == a + "." + b + "." + c + "." + d
  }

  lemma InetNtopIsDotted(q: Quad)
    ensures IsDotted(InetNtop(q), q)
  {
    OctetIsDecimal(q[0]);
    OctetIsDecimal(q[1]);
    OctetIsDecimal(q[2]);
    OctetIsDecimal(q[3]);
  }

  // ---- What the scanner accepts ----

  /** The text that has been read when the scanner is in a given state. */
  function ReadSoFar(done: Bytes, cur: Option<u8>): string {
    Finished(done) + (match cur case Some(v) => PrintOctet(v) case None => "")
  }

  function Finished(done: Bytes): string {
    if done == [] then "" else Finished(done[..|done| - 1]) + PrintOctet(done[|done| - 1]) + "."
  }

  lemma ReadDigit(done: Bytes, cur: Option<u8>, c: char)
    requires '0' <= c <= '9'
    requires cur.Some? ==> cur.value > 0 && 10 * cur.value as int + (c as int - '0' as int) <= 255
    ensures var d := c as int - '0' as int;
            ReadSoFar(done, cur) + [c] == ReadSoFar(done, Some(if cur.Some? then 10 * cur.value as int + d else d))
  {
    var d := c as int - '0' as int;
    assert DecimalDigit(d) == c;
    if cur.Some? {
      AppendDigit(cur.value, d);
    }
  }

  lemma AppendDigit(v: u8, d: int)
    requires 0 < v && 0 <= d < 10 && 10 * v as int + d <= 255
    ensures PrintOctet(10 * v as int + d) == PrintOctet(v) + [DecimalDigit(d)]
  {
    var n := 10 * v as int + d;
    assert n / 10 == v && n % 10 == d;
  }

  lemma ReadDot(done: Bytes, v: u8)
    ensures ReadSoFar(done, Some(v)) + "." == ReadSoFar(done + [v], None)
  {
    assert (done + [v])[..|done|] == done;
  }

  lemma {:induction false} ScanMeans(s: string, done: Bytes, cur: Option<u8>)
    requires |done| <= 3 && Scan(s, done, cur).Some?
    ensures var q := Scan(s, done, cur).value;
            exists v: u8 :: q == q[..3] + [v] && ReadSoFar(done, cur) + s == ReadSoFar(q[..3], Some(v))
  {
    var text := ReadSoFar(done, cur);
    if s == "" {
      assert text + s == text;
      assert (done + [cur.value])[..3] == done;
    } else {
      assert text + s == text + [s[0]] + s[1..];
      if '0' <= s[0] <= '9' {
        var d := s[0] as int - '0' as int;
        ReadDigit(done, cur, s[0]);
        ScanMeans(s[1..], done, Some(if cur.Some? then 10 * cur.value as int + d else d));
      } else {
        ReadDot(done, cur.value);
        assert [s[0]] == ".";
        ScanMeans(s[1..], done + [cur.value], None);
      }
    }
  }

  lemma FinishedThree(q: Quad)
    ensures ReadSoFar(q[..3], Some(q[3])) == InetNtop(q)
  {
    assert q[..3][..2] == [q[0], q[1]] && [q[0], q[1]][..1] == [q[0]] && [q[0]][..0] == [];
    assert q[..3][2] == q[2];
    assert Finished([q[0]]) == PrintOctet(q[0]) + ".";
    assert Finished([q[0], q[1]]) == PrintOctet(q[0]) + "." + PrintOctet(q[1]) + ".";
    assert Finished(q[..3]) == PrintOctet(q[0]) + "." + PrintOctet(q[1]) + "." + PrintOctet(q[2]) + ".";
  }

  /** The parser accepts exactly the texts that the printer produces: four octets without
      leading zeros, and nothing else. */
  lemma InetPtonIff(text: string, q: Quad)
    ensures InetPton(text) == Some(q) <==> text == InetNtop(q)
  {
    InetRoundTrip(q);
    if InetPton(text) == Some(q) {
      ScanMeans(text, [], None);
      FinishedThree(q);
      assert ReadSoFar([], None) + text == text;
    }
  }

  // ---- Allocation ----

  /** The number that four bytes in network order denote. */
  function Number(q: Quad): int {
    q[0] as int * 0x100_0000 + q[1] as int * 0x1_0000 + q[2] as int * 0x100 + q[3]
  }

  /** A host integer read from memory: the first byte counts most, or least. */
  lemma HostInteger(e: Endian, q: Quad)
    ensures e == Big ==> FromMemory(e, q) == Number(q)
    ensures e == Little ==> FromMemory(e, q) == Number([q[3], q[2], q[1], q[0]])
    ensures Ntohl(e, FromMemory(e, q)) == Number(q)
  {
    MemoryRoundTrip(e, q, 0);
  }

  /** `addr.s_addr` after `inet_pton` into a zeroed `in_addr`. */
  function AddrKey(e: Endian, text: string): u32 {
    match InetPton(text)
    case Some(q) => FromMemory(e, q)
    case None => 0
  }

  /** The arithmetic of `allocate_client_ip` for a given offset. */
  function ClientIp(e: Endian, subnet: string, offset: u32): string {
    InetNtop(ToMemory(e, Htonl(e, Add32(Ntohl(e, AddrKey(e, subnet)), offset))))
  }

  /** The subnet as a number, the same on every host. */
  function SubnetNumber(subnet: string): u32 {
    match InetPton(subnet)
    case Some(q) => FromBigEndian(q)
    case None => 0
  }

  /** The destination bytes of packets for session `sid`: subnet + sid + 1. */
  function VirtualAddress(subnet: string, sid: u32): Quad {
    BigEndian(Add32(SubnetNumber(subnet), Add32(sid, 1)))
  }

  /** Byte order plays no part in the result: the allocated text is the dotted form of
      subnet + offset on every host, and it is parsed back to that address's key. */
  lemma ClientIpMeaning(e: Endian, subnet: string, offset: u32)
    ensures var q := BigEndian(Add32(SubnetNumber(subnet), offset));
            ClientIp(e, subnet, offset) == InetNtop(q) && AddrKey(e, ClientIp(e, subnet, offset)) == FromMemory(e, q)
  {
    match InetPton(subnet) {
      case Some(q) => MemoryRoundTrip(e, q, 0);
      case None => assert Ntohl(e, 0) == 0;
    }
    var q := BigEndian(Add32(SubnetNumber(subnet), offset));
    MemoryRoundTrip(e, q, 0);
    InetRoundTrip(q);
  }

  lemma BigEndianNumber(n: u32)
    ensures Number(BigEndian(n)) == n
  {
    BigEndianRoundTrip(n);
  }

  /** The allocated address as numbers: subnet plus offset modulo 2^32, where a subnet that
      cannot be parsed counts as zero. */
  lemma AllocatedNumber(e: Endian, subnet: string, offset: u32)
    ensures var q := InetPton(ClientIp(e, subnet, offset));
            var base := match InetPton(subnet) case Some(b) => Number(b) case None => 0;
            q.Some? && Number(q.value) == (base + offset) % TWO_32
  {
    ClientIpMeaning(e, subnet, offset);
    InetRoundTrip(BigEndian(Add32(SubnetNumber(subnet), offset)));
    BigEndianNumber(Add32(SubnetNumber(subnet), offset));
    Wrap32IsModulo(SubnetNumber(subnet), offset);
  }

  lemma BigEndianDotted(n: u32)
    ensures IsDotted(InetNtop(BigEndian(n)), BigEndian(n)) && Number(BigEndian(n)) == n
  {
    InetNtopIsDotted(BigEndian(n));
    BigEndianNumber(n);
  }

  lemma ClientIpIsDotted(e: Endian, subnet: string, offset: u32)
    ensures exists q :: IsDotted(ClientIp(e, subnet, offset), q)
                        && Number(q) == (SubnetNumber(subnet) + offset) % TWO_32
  {
    ClientIpMeaning(e, subnet, offset);
    BigEndianDotted(Add32(SubnetNumber(subnet), offset));
    Wrap32IsModulo(SubnetNumber(subnet), offset);
  }

  /** The subnet as its bytes denote it. */
  lemma SubnetIsNumber(subnet: string)
    ensures SubnetNumber(subnet) == match InetPton(subnet) case Some(b) => Number(b) case None => 0
  {
  }

  lemma VirtualAddressNumber(subnet: string, sid: u32)
    ensures var base := match InetPton(subnet) case Some(b) => Number(b) case None => 0;
            Number(VirtualAddress(subnet, sid)) == (base + sid + 1) % TWO_32
  {
    BigEndianNumber(Add32(SubnetNumber(subnet), Add32(sid, 1)));
    Wrap32IsModulo(SubnetNumber(subnet), Add32(sid, 1));
    Wrap32IsModulo(sid, 1);
  }

  /** The routing key read from a raw packet equals a session's key exactly when the
      packet's destination bytes are that session's address. */
  lemma KeyMatchesDestination(e: Endian, subnet: string, sid: u32, pkt: Bytes)
    requires |pkt| >= 20
    ensures AddrKey(e, ClientIp(e, subnet, Add32(sid, 1))) == FromMemory(e, DestinationBytes(pkt))
       <==> pkt[16..20] == VirtualAddress(subnet, sid)
  {
    ClientIpMeaning(e, subnet, Add32(sid, 1));
    MemoryRoundTrip(e, VirtualAddress(subnet, sid), 0);
    MemoryRoundTrip(e, DestinationBytes(pkt), 0);
  }

  /** Addresses are a bijection of session ids, wrap-around included. */
  lemma VirtualAddressInjective(subnet: string, s1: u32, s2: u32)
    requires VirtualAddress(subnet, s1) == VirtualAddress(subnet, s2)
    ensures s1 == s2
  {
    BigEndianRoundTrip(Add32(SubnetNumber(subnet), Add32(s1, 1)));
    BigEndianRoundTrip(Add32(SubnetNumber(subnet), Add32(s2, 1)));
  }

  lemma VirtualAddressOnto(subnet: string, q: Quad) returns (sid: u32)
    ensures VirtualAddress(subnet, sid) == q
  {
    var n, base := FromBigEndian(q), SubnetNumber(subnet);
    BigEndianInverse(q);
    sid := if n > base then n - base - 1 else n - base - 1 + TWO_32;
    assert Add32(base, Add32(sid, 1)) == n;
  }
}
