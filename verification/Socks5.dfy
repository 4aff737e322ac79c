/**
  * SOCKS5 UDP: the client endpoint a control connection asks for, and the datagram header of
  * section 7 of RFC 1928.
  */
module Socks5 {
  import opened Core
  import opened Wire

  datatype IpAddr = V4(v4octets: Octets4) | V6(v6octets: Octets16)

  datatype SocketAddr = SocketAddr(ip: IpAddr, port: u16)

  /** The endpoint a client announced: an unspecified address or port zero leaves it open. */
  datatype ClientEndpoint = ClientEndpoint(ip: Option<IpAddr>, port: u16) {
    predicate Matches(controlIp: IpAddr, peer: SocketAddr) {
      && peer.ip == controlIp
      && (ip.None? || ip.value == peer.ip)
      && (port == 0 || port == peer.port)
    }
  }

  datatype Target = IpTarget(addr: SocketAddr) | DomainTarget(domain: seq<byte>, port: u16)

  datatype UdpDatagram = UdpDatagram(target: Target, payload: seq<byte>)

  datatype ClientError = InvalidSocks5Request | Transport | Io | Join

  // ---------------------------------------------------------------- UTF-8

  predicate Continuation(b: byte) {
    0x80 <= b <= 0xBF
  }

  /** The length of the well-formed character at the start, or zero (Table 3-7 of the Unicode standard). */
  function CharLength(s: seq<byte>): (n: nat)
    ensures n <= |s|
  {
    if |s| == 0 then 0
    else if s[0] <= 0x7F then 1
    else if |s| >= 2 && 0xC2 <= s[0] <= 0xDF && Continuation(s[1]) then 2
    else if |s| >= 3 && Continuation(s[2]) &&
      ((s[0] == 0xE0 && 0xA0 <= s[1] <= 0xBF) || (0xE1 <= s[0] <= 0xEC && Continuation(s[1])) ||
       (s[0] == 0xED && 0x80 <= s[1] <= 0x9F) || (0xEE <= s[0] <= 0xEF && Continuation(s[1]))) then 3
    else if |s| >= 4 && Continuation(s[2]) && Continuation(s[3]) &&
      ((s[0] == 0xF0 && 0x90 <= s[1] <= 0xBF) || (0xF1 <= s[0] <= 0xF3 && Continuation(s[1])) ||
       (s[0] == 0xF4 && 0x80 <= s[1] <= 0x8F)) then 4
    else 0
  }

  predicate ValidUtf8(s: seq<byte>)
    decreases |s|
  {
    s == [] || (CharLength(s) > 0 && ValidUtf8(s[CharLength(s)..]))
  }

  /** The encoding of one character: one byte, or a lead byte and continuations of six bits each. */
  function Utf8Char(c: char): seq<byte> {
    var n := c as int;
    if n < 0x80 then [n]
    else if n < 0x800 then [0xC0 + n / 64, 0x80 + n % 64]
    else if n < 0x1_0000 then [0xE0 + n / 4096, 0x80 + n / 64 % 64, 0x80 + n % 64]
    else [0xF0 + n / 262144, 0x80 + n / 4096 % 64, 0x80 + n / 64 % 64, 0x80 + n % 64]
  }

  function Utf8(text: string): seq<byte> {
    if text == [] then [] else Utf8Char(text[0]) + Utf8(text[1..])
  }

  lemma {:induction false} CharLengthOf(c: char, rest: seq<byte>)
    ensures CharLength(Utf8Char(c) + rest) == |Utf8Char(c)| > 0
  {
  }

  lemma {:induction false} TwoBytes(a: nat, b: nat) returns (c: char)
    requires 2 <= a < 32 && b < 64
    ensures Utf8Char(c) == [0xC0 + a, 0x80 + b]
  {
    var n := a * 64 + b;
    assert n / 64 == a && n % 64 == b;
    c := n as char;
  }

  lemma {:induction false} ThreeBytes(a: nat, b: nat, d: nat) returns (c: char)
    requires a < 16 && b < 64 && d < 64 && (a == 0 ==> b >= 32) && (a == 13 ==> b < 32)
    ensures Utf8Char(c) == [0xE0 + a, 0x80 + b, 0x80 + d]
  {
    var n := a * 4096 + b * 64 + d;
    assert n / 4096 == a && n / 64 == a * 64 + b && n % 64 == d;
    assert (a * 64 + b) % 64 == b;
    c := n as char;
  }

  lemma {:induction false} FourBytes(a: nat, b: nat, d: nat, e: nat) returns (c: char)
    requires a <= 4 && b < 64 && d < 64 && e < 64 && (a == 0 ==> b >= 16) && (a == 4 ==> b < 16)
    ensures Utf8Char(c) == [0xF0 + a, 0x80 + b, 0x80 + d, 0x80 + e]
  {
    var n := a * 262144 + b * 4096 + d * 64 + e;
    assert n / 262144 == a && n / 4096 == a * 64 + b && n / 64 == a * 4096 + b * 64 + d && n % 64 == e;
    assert (a * 64 + b) % 64 == b && (a * 4096 + b * 64 + d) % 64 == d;
    c := n as char;
  }

  /** The character that a well-formed start encodes. */
  lemma {:induction false} CharAt(s: seq<byte>) returns (c: char)
    requires CharLength(s) > 0
    ensures Utf8Char(c) == s[..CharLength(s)]
  {
    hide Utf8Char;
    var n := CharLength(s);
    if n == 1 {
      OneByte(s[0]);
      c := s[0] as char;
    } else if n == 2 {
      c := TwoBytes(s[0] - 0xC0, s[1] - 0x80);
    } else if n == 3 {
      c := ThreeBytes(s[0] - 0xE0, s[1] - 0x80, s[2] - 0x80);
    } else {
      c := FourBytes(s[0] - 0xF0, s[1] - 0x80, s[2] - 0x80, s[3] - 0x80);
    }
  }

  lemma {:induction false} OneByte(a: byte)
    requires a < 0x80
    ensures Utf8Char(a as char) == [a]
  {
  }

  lemma {:induction false} Utf8Valid(text: string)
    ensures ValidUtf8(Utf8(text))
  {
    if text != [] {
      Utf8Valid(text[1..]);
      CharLengthOf(text[0], Utf8(text[1..]));
      ConcatSplit(Utf8Char(text[0]), Utf8(text[1..]));
    }
  }

  lemma {:induction false} Utf8Text(s: seq<byte>) returns (text: string)
    requires ValidUtf8(s)
    ensures Utf8(text) == s
    decreases |s|
  {
    if s == [] {
      text := [];
    } else {
      var c := CharAt(s);
      var rest := Utf8Text(s[CharLength(s)..]);
      text := [c] + rest;
      assert text[1..] == rest;
      assert s == s[..CharLength(s)] + s[CharLength(s)..];
    }
  }

  /** The bytes accepted as text are exactly the encodings of texts. */
  lemma {:induction false} Utf8Exactly(s: seq<byte>)
    ensures ValidUtf8(s) <==> exists text :: Utf8(text) == s
  {
    if ValidUtf8(s) {
      var text := Utf8Text(s);
    }
    if text :| Utf8(text) == s {
      Utf8Valid(text);
    }
  }

  // ---------------------------------------------------------------- the datagram codec

  function DecodeUdp(datagram: seq<byte>): Result<UdpDatagram, ClientError> {
    if |datagram| < 4 || datagram[0] != 0 || datagram[1] != 0 || datagram[2] != 0 then Err(InvalidSocks5Request)
    else if datagram[3] == 1 then
      if |datagram| < 10 then Err(InvalidSocks5Request)
      else Ok(UdpDatagram(IpTarget(SocketAddr(V4(datagram[4..8]), FromBigEndian(datagram[8], datagram[9]))),
                          datagram[10..]))
    else if datagram[3] == 3 then
      if |datagram| <= 4 then Err(InvalidSocks5Request)
      else
        var end: nat := 5 + datagram[4] as int;
        if datagram[4] == 0 || |datagram| < end + 2 then Err(InvalidSocks5Request)
        else if !ValidUtf8(datagram[5..end]) then Err(InvalidSocks5Request)
        else Ok(UdpDatagram(DomainTarget(datagram[5..end], FromBigEndian(datagram[end], datagram[end + 1])),
                            datagram[end + 2..]))
    else if datagram[3] == 4 then
      if |datagram| < 22 then Err(InvalidSocks5Request)
      else Ok(UdpDatagram(IpTarget(SocketAddr(V6(datagram[4..20]), FromBigEndian(datagram[20], datagram[21]))),
                          datagram[22..]))
    else Err(InvalidSocks5Request)
  }

  function EncodeUdp(target: SocketAddr, payload: seq<byte>): seq<byte> {
    [0, 0, 0] +
    (match target.ip case V4(octets) => [1] + octets case V6(octets) => [4] + octets) +
    U16Bytes(target.port) + payload
  }

  /** Whatever is wrong with a datagram, the error is the same. */
  lemma {:induction false} DecodeUdpError(datagram: seq<byte>)
    ensures DecodeUdp(datagram).Err? ==> DecodeUdp(datagram).error == InvalidSocks5Request
  {
  }

  /** A relayed answer decodes to the address and payload it was made from. */
  lemma {:induction false} UdpDecodes(target: SocketAddr, payload: seq<byte>)
    ensures DecodeUdp(EncodeUdp(target, payload)) == Ok(UdpDatagram(IpTarget(target), payload))
  {
    var datagram := EncodeUdp(target, payload);
    BigEndianRoundTrip(target.port, 0, 0);
    match target.ip {
      case V4(octets) =>
        assert datagram[4..8] == octets;
        assert datagram[10..] == payload;
      case V6(octets) =>
        assert datagram[4..20] == octets;
        assert datagram[22..] == payload;
    }
  }

  /** A datagram for an address is the only one that decodes to that address and payload. */
  lemma {:induction false} UdpReencodes(datagram: seq<byte>)
    requires DecodeUdp(datagram).Ok? && DecodeUdp(datagram).value.target.IpTarget?
    ensures EncodeUdp(DecodeUdp(datagram).value.target.addr, DecodeUdp(datagram).value.payload) == datagram
  {
    var decoded := DecodeUdp(datagram).value;
    if datagram[3] == 1 {
      BigEndianRoundTrip(decoded.target.addr.port, datagram[8], datagram[9]);
      assert datagram == [0, 0, 0] + ([1] + datagram[4..8]) + [datagram[8], datagram[9]] + datagram[10..];
    } else {
      BigEndianRoundTrip(decoded.target.addr.port, datagram[20], datagram[21]);
      assert datagram == [0, 0, 0] + ([4] + datagram[4..20]) + [datagram[20], datagram[21]] + datagram[22..];
    }
  }

  /** A domain request with a non-empty valid name of at most 255 bytes, as a client writes it. */
  function DomainRequest(domain: seq<byte>, port: u16, payload: seq<byte>): seq<byte>
    requires 0 < |domain| <= 255
  {
    [0, 0, 0, 3, |domain|] + domain + U16Bytes(port) + payload
  }

  /** Domain requests are accepted exactly when the name is valid text. */
  lemma {:induction false} DomainRequestDecodes(domain: seq<byte>, port: u16, payload: seq<byte>)
    requires 0 < |domain| <= 255
    ensures DecodeUdp(DomainRequest(domain, port, payload))
         == if ValidUtf8(domain) then Ok(UdpDatagram(DomainTarget(domain, port), payload))
            else Err(InvalidSocks5Request)
  {
    var datagram := DomainRequest(domain, port, payload);
    BigEndianRoundTrip(port, 0, 0);
    assert datagram[5..5 + |domain|] == domain;
    assert datagram[7 + |domain|..] == payload;
  }

  lemma {:induction false} DomainParts(datagram: seq<byte>)
    requires DecodeUdp(datagram).Ok? && DecodeUdp(datagram).value.target.DomainTarget?
    ensures |datagram| > 4 && datagram[..5] == [0, 0, 0, 3, datagram[4]] && datagram[4] > 0
    ensures var decoded, end := DecodeUdp(datagram).value, 5 + datagram[4] as int;
            && end + 2 <= |datagram|
            && decoded.target.domain == datagram[5..end] && ValidUtf8(decoded.target.domain)
            && decoded.target.port == FromBigEndian(datagram[end], datagram[end + 1])
            && decoded.payload == datagram[end + 2..]
  {
    hide ValidUtf8, FromBigEndian;
  }

  /** A datagram for a domain is the only one that decodes to that name, port and payload. */
  lemma {:induction false} DomainReencodes(datagram: seq<byte>)
    requires DecodeUdp(datagram).Ok? && DecodeUdp(datagram).value.target.DomainTarget?
    ensures var decoded := DecodeUdp(datagram).value;
            && 0 < |decoded.target.domain| <= 255 && ValidUtf8(decoded.target.domain)
            && DomainRequest(decoded.target.domain, decoded.target.port, decoded.payload) == datagram
  {
    hide ValidUtf8, DecodeUdp;
    DomainParts(datagram);
    var end: nat := 5 + datagram[4] as int;
    BigEndianRoundTrip(0, datagram[end], datagram[end + 1]);
    CutInFour(datagram, 5, end, end + 2);
    assert datagram[end..end + 2] == [datagram[end], datagram[end + 1]];
  }

  /** The bytes of a relayed answer by their places: zeros, type, address, port with its high byte first, payload. */
  lemma {:induction false} UdpLayout(target: SocketAddr, payload: seq<byte>)
    ensures var bytes := EncodeUdp(target, payload);
            var at := if target.ip.V4? then 8 else 20;
            && |bytes| == at + 2 + |payload| && bytes[..3] == [0, 0, 0]
            && bytes[3] == (if target.ip.V4? then 1 else 4)
            && bytes[4..at] == (if target.ip.V4? then target.ip.v4octets else target.ip.v6octets)
            && bytes[at] as int * 256 + bytes[at + 1] == target.port
            && bytes[at + 2..] == payload
  {
    var bytes := EncodeUdp(target, payload);
    if target.ip.V4? {
      assert bytes[4..8] == target.ip.v4octets;
      assert bytes[10..] == payload;
    } else {
      assert bytes[4..20] == target.ip.v6octets;
      assert bytes[22..] == payload;
    }
  }
}
