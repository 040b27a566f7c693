/** The SOCKS 4A request packet (section 1 of the SOCKS 4 protocol memo and the SOCKS 4A extension memo):
    `byteArr` of the console client and `parse` of the server. */
module SocksRequest {
  import opened Text
  import AddressFilter

  type Byte = n: nat | n < 256
  type Word16 = n: nat | n < 0x1_0000
  type Word32 = n: nat | n < 0x1_0000_0000

  datatype Request = Request(
    vn: Byte, cd: Byte, dstPort: Word16, dstIp: Word32, userId: seq<Byte>, domainName: seq<Byte>)

  // ---------- integers in memory ----------

  /** The bytes of an integer in the memory of a little-endian machine. */
  function Store16(n: Word16): (b: seq<Byte>)
    ensures |b| == 2
  {
    [n % 0x100, n / 0x100]
  }

  function Load16(b: seq<Byte>): Word16
    requires |b| == 2
  {
    (b[0] as int) + 0x100 * (b[1] as int)
  }

  function Store32(n: Word32): (b: seq<Byte>)
    ensures |b| == 4
  {
    Store16(n % 0x1_0000) + Store16(n / 0x1_0000)
  }

  function Load32(b: seq<Byte>): Word32
    requires |b| == 4
  {
    (Load16(b[..2]) as int) + 0x1_0000 * (Load16(b[2..]) as int)
  }

  /** `htons` and `ntohs`, which on such a machine both swap the bytes. */
  function Swap16(n: Word16): Word16 {
    n / 0x100 + 0x100 * (n % 0x100)
  }

  /** `htonl` and `ntohl`. */
  function Swap32(n: Word32): Word32 {
    (Swap16(n / 0x1_0000) as int) + 0x1_0000 * (Swap16(n % 0x1_0000) as int)
  }

  /** The bytes of an integer in network order. */
  function Network(n: Word16): seq<Byte> {
    [n / 0x100, n % 0x100]
  }

  /** What is stored after `htons` is the number in network order, and `ntohs` of what is loaded undoes it. */
  lemma Network16(n: Word16)
    ensures Store16(Swap16(n)) == Network(n)
    ensures Swap16(Load16(Network(n))) == n
  {
  }

  lemma Halves(hi: Word16, lo: Word16)
    ensures var n := (lo as int) + 0x1_0000 * (hi as int);
            n < 0x1_0000_0000 && n / 0x1_0000 == hi && n % 0x1_0000 == lo
  {
  }

  lemma Network32(n: Word32)
    ensures Store32(Swap32(n)) == Network(n / 0x1_0000) + Network(n % 0x1_0000)
    ensures Swap32(Load32(Store32(Swap32(n)))) == n
  {
    var hi, lo: Word16 := n / 0x1_0000, n % 0x1_0000;
    Network16(hi);
    Network16(lo);
    Halves(Swap16(lo), Swap16(hi));
    var b := Store32(Swap32(n));
    assert b[..2] == Network(hi) && b[2..] == Network(lo);
    Halves(Load16(b[2..]), Load16(b[..2]));
  }

  // ---------- writing ----------

  predicate NeedDomainResolve(ip: Word32) {
    0 < ip < 256
  }

  function Size(r: Request): nat {
    9 + |r.userId| + |r.domainName| + (if r.domainName != [] then 1 else 0)
  }

  /** The packet: version, command, port and address as they lie in memory, then the NUL-ended strings. */
  function Packet(r: Request): (p: seq<Byte>)
    ensures |p| == Size(r) && p[|p| - 1] == 0
  {
    [r.vn, r.cd] + Store16(r.dstPort) + Store32(r.dstIp) + r.userId + [0]
    + (if r.domainName != [] then r.domainName + [0] else [])
  }

  /** `memcpy` into a buffer at an offset. */
  method CopyInto(dst: array<Byte>, at: nat, src: seq<Byte>)
    requires at + |src| <= dst.Length
    modifies dst
    ensures dst[..at + |src|] == old(dst[..at]) + src
  {
    forall i | 0 <= i < |src| {
      dst[at + i] := src[i];
    }
  }

  method ByteArr(r: Request) returns (result: array<Byte>)
    ensures fresh(result) && result.Length == Size(r) && result[..] == Packet(r)
  {
    hide Store16, Store32;
    ghost var head := [r.vn, r.cd] + Store16(r.dstPort) + Store32(r.dstIp);
    result := new Byte[Size(r)];
    var u := |r.userId|;
    CopyInto(result, 0, [r.vn, r.cd] + Store16(r.dstPort) + Store32(r.dstIp));
    assert [] + head == head;
    CopyInto(result, 8, r.userId);
    Terminate(result, 8 + u, head + r.userId);
    CopyDomain(result, 8 + u + 1, r.domainName, head + r.userId);
  }

  /** The NUL after a string. */
  method Terminate(dst: array<Byte>, at: nat, ghost before: seq<Byte>)
    requires at < dst.Length && dst[..at] == before
    modifies dst
    ensures dst[..at + 1] == before + [0]
  {
    dst[at] := 0;
  }

  /** The domain name and the last byte, which is the NUL after it, or once more the one before it. */
  method CopyDomain(dst: array<Byte>, at: nat, domainName: seq<Byte>, ghost before: seq<Byte>)
    requires at == |before| + 1 && dst.Length == at + |domainName| + (if domainName == [] then 0 else 1)
    requires dst[..at] == before + [0]
    modifies dst
    ensures dst[..] == before + [0] + (if domainName != [] then domainName + [0] else [])
  {
    CopyInto(dst, at, domainName);
    assert dst[..at - 1] == (before + [0])[..at - 1] == before;
    Terminate(dst, dst.Length - 1, if domainName == [] then before else before + [0] + domainName);
    assert dst[..] == dst[..dst.Length];
    assert before + [0] + (domainName + [0]) == before + [0] + domainName + [0];
  }

  // ---------- reading ----------

  /** `string(&raw[i])`: the bytes up to the next NUL; None if that would read past the end. */
  function CString(raw: seq<Byte>, i: nat): Option<seq<Byte>>
    decreases |raw| - i
  {
    if i >= |raw| then None
    else if raw[i] == 0 then Some([])
    else
      match CString(raw, i + 1)
      case None => None
      case Some(rest) => Some([raw[i]] + rest)
  }

  function Parse(raw: seq<Byte>): Option<Request> {
    if |raw| < 8 then None
    else
      var dstIp := Swap32(Load32(raw[4..8]));
      var r := Request(raw[0], raw[1], Swap16(Load16(raw[2..4])), dstIp, [], []);
      match CString(raw, 8)
      case None => None
      case Some(userId) =>
        if !NeedDomainResolve(dstIp) then Some(r.(userId := userId))
        else
          match CString(raw, 8 + |userId| + 1)
          case None => None
          case Some(domainName) => Some(r.(userId := userId, domainName := domainName))
  }

  /** The string loop: bytes are taken until a NUL. */
  method ReadCString(raw: array<Byte>, start: nat) returns (s: Option<seq<Byte>>)
    ensures s == CString(raw[..], start)
  {
    var i, taken: seq<Byte> := start, [];
    assert forall rest: seq<Byte> :: taken + rest == rest;
    while i < raw.Length && raw[i] != 0
      invariant start <= i
      invariant match CString(raw[..], i)
                case None => CString(raw[..], start) == None
                case Some(rest) => CString(raw[..], start) == Some(taken + rest)
      decreases raw.Length - i
    {
      assert match CString(raw[..], i + 1)
             case None => true
             case Some(rest) => taken + ([raw[i]] + rest) == taken + [raw[i]] + rest;
      taken := taken + [raw[i]];
      i := i + 1;
    }
    s := if i < raw.Length then Some(taken) else None;
    assert taken + [] == taken;
  }

  method ParseRequest(raw: array<Byte>) returns (r: Option<Request>)
    ensures r == Parse(raw[..])
  {
    if raw.Length < 8 {
      return None;
    }
    var dstPort, dstIp := Swap16(Load16(raw[2..4])), Swap32(Load32(raw[4..8]));
    assert raw[..][2..4] == raw[2..4] && raw[..][4..8] == raw[4..8];
    var userId := ReadCString(raw, 8);
    if userId.None? {
      return None;
    }
    var request := Request(raw[0], raw[1], dstPort, dstIp, userId.value, []);
    if NeedDomainResolve(dstIp) {
      var domainName := ReadCString(raw, 8 + |userId.value| + 1);
      if domainName.None? {
        return None;
      }
      request := request.(domainName := domainName.value);
    }
    return Some(request);
  }

  // ---------- round trip ----------

  lemma {:induction false} CStringOf(before: seq<Byte>, s: seq<Byte>, after: seq<Byte>)
    requires 0 !in s
    ensures CString(before + s + [0] + after, |before|) == Some(s)
    decreases |s|
  {
    var raw := before + s + [0] + after;
    if s != [] {
      assert raw == (before + [s[0]]) + s[1..] + [0] + after;
      assert raw[|before|] == s[0];
      CStringOf(before + [s[0]], s[1..], after);
      assert [s[0]] + s[1..] == s;
    }
  }

  /** The request as the client fills it in: port and address converted to network order. */
  function ToNetwork(r: Request): Request {
    r.(dstPort := Swap16(r.dstPort), dstIp := Swap32(r.dstIp))
  }

  /** The header is the one of the protocol: version, command, port and address in network byte order. */
  lemma PacketHeader(r: Request, junk: seq<Byte>)
    ensures var raw := Packet(ToNetwork(r)) + junk;
            && raw[..8] == [r.vn, r.cd] + Network(r.dstPort) + Network(r.dstIp / 0x1_0000) + Network(r.dstIp % 0x1_0000)
            && Swap16(Load16(raw[2..4])) == r.dstPort && Swap32(Load32(raw[4..8])) == r.dstIp
  {
    Network16(r.dstPort);
    Network32(r.dstIp);
    var raw := Packet(ToNetwork(r)) + junk;
    assert raw[2..4] == Store16(Swap16(r.dstPort));
    assert raw[4..8] == Store32(Swap32(r.dstIp));
  }

  lemma PacketStrings(r: Request, junk: seq<Byte>)
    requires 0 !in r.userId && 0 !in r.domainName
    ensures var raw := Packet(r) + junk;
            && CString(raw, 8) == Some(r.userId)
            && (r.domainName != [] ==> CString(raw, 8 + |r.userId| + 1) == Some(r.domainName))
  {
    var raw := Packet(r) + junk;
    var head := [r.vn, r.cd] + Store16(r.dstPort) + Store32(r.dstIp);
    var tail := (if r.domainName != [] then r.domainName + [0] else []) + junk;
    assert raw == head + r.userId + [0] + tail;
    CStringOf(head, r.userId, tail);
    if r.domainName != [] {
      assert raw == (head + r.userId + [0]) + r.domainName + [0] + junk;
      CStringOf(head + r.userId + [0], r.domainName, junk);
    }
  }

  predicate Plain(r: Request) {
    0 !in r.userId && 0 !in r.domainName
  }

  /** The server reads back what the client wrote, whatever follows the packet in its buffer. */
  lemma ParseOfPacket(r: Request, junk: seq<Byte>)
    requires Plain(r) && (NeedDomainResolve(r.dstIp) <==> r.domainName != [])
    ensures Parse(Packet(ToNetwork(r)) + junk) == Some(r)
  {
    PacketHeader(r, junk);
    PacketStrings(ToNetwork(r), junk);
  }

  /** The packet alone reads back as the request exactly when a domain name is given just for the
      addresses 0.0.0.1 to 0.0.0.255. */
  lemma RoundTripIff(r: Request)
    requires Plain(r)
    ensures Parse(Packet(ToNetwork(r))) == Some(r) <==> (NeedDomainResolve(r.dstIp) <==> r.domainName != [])
  {
    var raw := Packet(ToNetwork(r));
    assert raw + [] == raw;
    PacketHeader(r, []);
    PacketStrings(ToNetwork(r), []);
  }

  /** What is parsed are the bytes of the packet: version, command, port and address, the high bytes first. */
  lemma ParsedBytes(raw: seq<Byte>)
    requires Parse(raw).Some?
    ensures var r := Parse(raw).value;
            && r.vn == raw[0] && r.cd == raw[1]
            && r.dstPort == raw[2] as int * 256 + raw[3] as int
            && HasBytes(r.dstIp, raw[4], raw[5], raw[6], raw[7])
  {
    hide CString;
    LoadedBytes(raw[4..8]);
    PortBytes(raw[2..4]);
  }

  lemma PortBytes(b: seq<Byte>)
    requires |b| == 2
    ensures Swap16(Load16(b)) == b[0] as int * 256 + b[1] as int
  {
  }

  lemma LoadedBytes(b: seq<Byte>)
    requires |b| == 4
    ensures HasBytes(Swap32(Load32(b)), b[0], b[1], b[2], b[3])
  {
    var hi, lo := b[..2], b[2..];
    PortBytes(hi);
    PortBytes(lo);
    Halves(Load16(lo), Load16(hi));
    hide Swap16, Load16;
    assert Swap32(Load32(b)) == Swap16(Load16(lo)) + 0x1_0000 * Swap16(Load16(hi));
  }

  lemma NetworkBytes(n: Word32, a: Byte, b: Byte, c: Byte, d: Byte)
    requires HasBytes(n, a, b, c, d)
    ensures Network(n / 0x1_0000) + Network(n % 0x1_0000) == [a, b, c, d]
  {
    var hi: nat, lo: nat := a as int * 256 + b as int, c as int * 256 + d as int;
    assert n == hi * 0x1_0000 + lo && lo < 0x1_0000;
    assert n / 0x1_0000 == hi && n % 0x1_0000 == lo;
    assert hi / 0x100 == a as int && hi % 0x100 == b as int;
    assert lo / 0x100 == c as int && lo % 0x100 == d as int;
  }

  /** What the client writes are the same bytes in the same places. */
  lemma WrittenBytes(r: Request, a: Byte, b: Byte, c: Byte, d: Byte)
    requires HasBytes(r.dstIp, a, b, c, d)
    ensures Packet(ToNetwork(r))[..8] == [r.vn, r.cd, r.dstPort / 256, r.dstPort % 256, a, b, c, d]
  {
    PacketHeader(r, []);
    NetworkBytes(r.dstIp, a, b, c, d);
    hide HasBytes, Packet, Swap16, Swap32, Load16, Load32;
    var p := Packet(ToNetwork(r));
    assert p + [] == p;
    assert Network(r.dstPort) == [r.dstPort / 256, r.dstPort % 256];
    hide Network;
    assert p[..8] == [r.vn, r.cd] + [r.dstPort / 256, r.dstPort % 256] + [a, b, c, d];
  }

  // ---------- what the server does with it ----------

  /** `getCommandString`. */
  function CommandOf(r: Request): AddressFilter.Command {
    if r.cd == 1 then AddressFilter.Connect else if r.cd == 2 then AddressFilter.Bind else AddressFilter.Other
  }
}
