/**
  * The wire codecs of the Juicity protocol: runtime target metadata, proxy headers, UDP-over-stream
  * frames and authentication requests.
  */
module Wire {
  import opened Core

  const VERSION_0: byte := 0
  const CMD_AUTHENTICATION: byte := 0
  const NETWORK_TCP: byte := 1
  const NETWORK_UDP: byte := 3
  const RUNTIME_ADDR_TYPE_IPV4: byte := 1
  const RUNTIME_ADDR_TYPE_DOMAIN: byte := 3
  const RUNTIME_ADDR_TYPE_IPV6: byte := 4
  const UDP_PAYLOAD_LENGTH_LEN: nat := 2
  const AUTHENTICATION_FRAME_LEN: nat := 50

  type u16 = x: int | 0 <= x < 0x1_0000
  type Octets4 = s: seq<byte> | |s| == 4 witness [0, 0, 0, 0]
  type Octets16 = s: seq<byte> | |s| == 16 witness [0, 0, 0, 0, 0, 0, 0, 0, 0, 0, 0, 0, 0, 0, 0, 0]
  type Octets32 = s: seq<byte> | |s| == 32 witness seq(32, _ => 0)

  datatype Network = Tcp | Udp

  datatype ProxyAddress = Ipv4(v4: Octets4) | Ipv6(v6: Octets16) | Domain(name: seq<byte>)

  datatype ProxyHeader = ProxyHeader(network: Network, address: ProxyAddress, port: u16)

  datatype ProtocolError =
    | UnknownNetwork(value: byte)
    | UnknownRuntimeAddrType(value: byte)
    | UnexpectedVersion(value: byte)
    | UnexpectedCommandType(value: byte)
    | DomainTooLong(length: nat)
    | UdpPayloadTooLong(length: nat)
    | Truncated(needed: nat, available: nat)

  // ---------------------------------------------------------------- integers

  function U16Bytes(x: u16): (bytes: seq<byte>)
    ensures |bytes| == 2
  {
    [x / 256, x % 256]
  }

  function FromBigEndian(high: byte, low: byte): u16 {
    high * 256 + low
  }

  lemma {:induction false} BigEndianRoundTrip(x: u16, high: byte, low: byte)
    ensures FromBigEndian(U16Bytes(x)[0], U16Bytes(x)[1]) == x
    ensures U16Bytes(FromBigEndian(high, low)) == [high, low]
  {
  }

  // ---------------------------------------------------------------- encodings

  function NetworkByte(network: Network): byte {
    match network case Tcp => NETWORK_TCP case Udp => NETWORK_UDP
  }

  /** The length of the target metadata, without the network byte. */
  function RuntimeMetadataLen(address: ProxyAddress): nat {
    match address
    case Ipv4(_) => 1 + 4 + 2
    case Ipv6(_) => 1 + 16 + 2
    case Domain(name) => 1 + 1 + |name| + 2
  }

  function EncodedLen(header: ProxyHeader): nat {
    1 + RuntimeMetadataLen(header.address)
  }

  /** A target that has an encoding: its domain fits the one-byte length. */
  predicate Encodable(address: ProxyAddress) {
    address.Domain? ==> |address.name| <= 255
  }

  /** The target metadata on the wire. */
  function MetadataBytes(address: ProxyAddress, port: u16): (bytes: seq<byte>)
    requires Encodable(address)
    ensures |bytes| == RuntimeMetadataLen(address)
  {
    (match address
     case Ipv4(v4) => [RUNTIME_ADDR_TYPE_IPV4] + v4
     case Ipv6(v6) => [RUNTIME_ADDR_TYPE_IPV6] + v6
     case Domain(name) => [RUNTIME_ADDR_TYPE_DOMAIN, |name|] + name) + U16Bytes(port)
  }

  function HeaderBytes(header: ProxyHeader): (bytes: seq<byte>)
    requires Encodable(header.address)
    ensures |bytes| == EncodedLen(header)
  {
    [NetworkByte(header.network)] + MetadataBytes(header.address, header.port)
  }

  /** One UDP-over-stream packet: its target and its payload. */
  datatype UdpFrame = UdpFrame(address: ProxyAddress, port: u16, payload: seq<byte>)

  predicate EncodableFrame(frame: UdpFrame) {
    Encodable(frame.address) && |frame.payload| <= 0xFFFF
  }

  function FrameBytes(frame: UdpFrame): (bytes: seq<byte>)
    requires EncodableFrame(frame)
    ensures |bytes| == RuntimeMetadataLen(frame.address) + UDP_PAYLOAD_LENGTH_LEN + |frame.payload|
  {
    MetadataBytes(frame.address, frame.port) + (U16Bytes(|frame.payload|) + frame.payload)
  }

  datatype AuthenticationRequest = AuthenticationRequest(uuid: Octets16, token: Octets32)

  function AuthenticationBytes(request: AuthenticationRequest): (bytes: seq<byte>)
    ensures |bytes| == AUTHENTICATION_FRAME_LEN
  {
    [VERSION_0, CMD_AUTHENTICATION] + request.uuid + request.token
  }

  // ---------------------------------------------------------------- encoders writing to a buffer

  class Buffer {
    var data: seq<byte>

    constructor ()
      ensures data == []
    {
      data := [];
    }

    method PutU8(value: byte)
      modifies this
      ensures data == old(data) + [value]
    {
      data := data + [value];
    }

    method PutU16(value: u16)
      modifies this
      ensures data == old(data) + U16Bytes(value)
    {
      data := data + U16Bytes(value);
    }

    method PutSlice(bytes: seq<byte>)
      modifies this
      ensures data == old(data) + bytes
    {
      data := data + bytes;
    }
  }

  method EncodeRuntimeMetadata(address: ProxyAddress, port: u16, dst: Buffer) returns (r: Result<(), ProtocolError>)
    modifies dst
    ensures Encodable(address) ==> r == Ok(()) && dst.data == old(dst.data) + MetadataBytes(address, port)
    ensures !Encodable(address) ==> r == Err(DomainTooLong(|address.name|)) && dst.data == old(dst.data)
  {
    match address {
      case Ipv4(v4) =>
        dst.PutU8(RUNTIME_ADDR_TYPE_IPV4);
        dst.PutSlice(v4);
      case Ipv6(v6) =>
        dst.PutU8(RUNTIME_ADDR_TYPE_IPV6);
        dst.PutSlice(v6);
      case Domain(name) =>
        if |name| > 255 {
          return Err(DomainTooLong(|name|));
        }
        dst.PutU8(RUNTIME_ADDR_TYPE_DOMAIN);
        dst.PutU8(|name|);
        dst.PutSlice(name);
    }
    dst.PutU16(port);
    r := Ok(());
  }

  /** On a refused domain the network byte has already been written. */
  method EncodeHeaderTo(header: ProxyHeader, dst: Buffer) returns (r: Result<(), ProtocolError>)
    modifies dst
    ensures Encodable(header.address) ==> r == Ok(()) && dst.data == old(dst.data) + HeaderBytes(header)
    ensures !Encodable(header.address) ==>
      r == Err(DomainTooLong(|header.address.name|)) && dst.data == old(dst.data) + [NetworkByte(header.network)]
  {
    dst.PutU8(NetworkByte(header.network));
    r := EncodeRuntimeMetadata(header.address, header.port, dst);
  }

  /** On every refusal the buffer is untouched. */
  method EncodeUdpDatagram(header: ProxyHeader, payload: seq<byte>, dst: Buffer) returns (r: Result<(), ProtocolError>)
    modifies dst
    ensures |payload| > 0xFFFF ==> r == Err(UdpPayloadTooLong(|payload|))
    ensures |payload| <= 0xFFFF && !Encodable(header.address) ==> r == Err(DomainTooLong(|header.address.name|))
    ensures r.Err? ==> dst.data == old(dst.data)
    ensures EncodableFrame(UdpFrame(header.address, header.port, payload)) ==>
      r == Ok(()) && dst.data == old(dst.data) + FrameBytes(UdpFrame(header.address, header.port, payload))
  {
    if |payload| > 0xFFFF {
      return Err(UdpPayloadTooLong(|payload|));
    }
    r := EncodeRuntimeMetadata(header.address, header.port, dst);
    if r.Err? {
      return;
    }
    dst.PutU16(|payload|);
    dst.PutSlice(payload);
  }

  method EncodeAuthentication(request: AuthenticationRequest, dst: Buffer)
    modifies dst
    ensures dst.data == old(dst.data) + AuthenticationBytes(request)
  {
    dst.PutU8(VERSION_0);
    dst.PutU8(CMD_AUTHENTICATION);
    dst.PutSlice(request.uuid);
    dst.PutSlice(request.token);
  }

  // ---------------------------------------------------------------- decoders

  function NetworkFrom(value: byte): Result<Network, ProtocolError> {
    if value == NETWORK_TCP then Ok(Tcp) else if value == NETWORK_UDP then Ok(Udp) else Err(UnknownNetwork(value))
  }

  /** A decoded target and the number of bytes it took. */
  datatype Metadata = Metadata(address: ProxyAddress, port: u16, consumed: nat)

  function DecodeRuntimeMetadata(input: seq<byte>): Result<Metadata, ProtocolError> {
    if |input| < 1 then Err(Truncated(1, |input|))
    else if input[0] == RUNTIME_ADDR_TYPE_IPV4 then
      if |input| < 7 then Err(Truncated(7, |input|))
      else Ok(Metadata(Ipv4(input[1..5]), FromBigEndian(input[5], input[6]), 7))
    else if input[0] == RUNTIME_ADDR_TYPE_IPV6 then
      if |input| < 19 then Err(Truncated(19, |input|))
      else Ok(Metadata(Ipv6(input[1..17]), FromBigEndian(input[17], input[18]), 19))
    else if input[0] == RUNTIME_ADDR_TYPE_DOMAIN then
      if |input| < 2 then Err(Truncated(2, |input|))
      else
        var end: nat := 2 + input[1] as int;
        if |input| < end + 2 then Err(Truncated(end + 2, |input|))
        else Ok(Metadata(Domain(input[2..end]), FromBigEndian(input[end], input[end + 1]), end + 2))
    else Err(UnknownRuntimeAddrType(input[0]))
  }

  function DecodeHeader(input: seq<byte>): Result<(ProxyHeader, seq<byte>), ProtocolError> {
    if |input| < 2 then Err(Truncated(2, |input|))
    else
      var network := NetworkFrom(input[0]);
      if network.Err? then Err(network.error)
      else
        var metadata := DecodeRuntimeMetadata(input[1..]);
        if metadata.Err? then Err(metadata.error)
        else
          MetadataWithin(input[1..]);
          Ok((ProxyHeader(network.value, metadata.value.address, metadata.value.port),
              input[1 + metadata.value.consumed..]))
  }

  function DecodeUdpDatagram(input: seq<byte>): Result<(UdpFrame, seq<byte>), ProtocolError> {
    var metadata := DecodeRuntimeMetadata(input);
    if metadata.Err? then Err(metadata.error)
    else
      MetadataWithin(input);
      var rest := input[metadata.value.consumed..];
      if |rest| < UDP_PAYLOAD_LENGTH_LEN then Err(Truncated(UDP_PAYLOAD_LENGTH_LEN, |rest|))
      else
        var frameLen := UDP_PAYLOAD_LENGTH_LEN + FromBigEndian(rest[0], rest[1]);
        if |rest| < frameLen then Err(Truncated(frameLen, |rest|))
        else Ok((UdpFrame(metadata.value.address, metadata.value.port, rest[UDP_PAYLOAD_LENGTH_LEN..frameLen]),
                 rest[frameLen..]))
  }

  function DecodeAuthentication(input: seq<byte>): Result<(AuthenticationRequest, seq<byte>), ProtocolError> {
    if |input| < AUTHENTICATION_FRAME_LEN then Err(Truncated(AUTHENTICATION_FRAME_LEN, |input|))
    else if input[0] != VERSION_0 then Err(UnexpectedVersion(input[0]))
    else if input[1] != CMD_AUTHENTICATION then Err(UnexpectedCommandType(input[1]))
    else Ok((AuthenticationRequest(input[2..18], input[18..50]), input[50..]))
  }

  // ---------------------------------------------------------------- metadata

  lemma {:induction false} MetadataWithin(input: seq<byte>)
    ensures DecodeRuntimeMetadata(input).Ok? ==> DecodeRuntimeMetadata(input).value.consumed <= |input|
  {
  }

  /** Decoding an encoded target followed by anything returns the target and its length. */
  lemma {:induction false} MetadataDecodes(address: ProxyAddress, port: u16, rest: seq<byte>)
    requires Encodable(address)
    ensures DecodeRuntimeMetadata(MetadataBytes(address, port) + rest)
         == Ok(Metadata(address, port, RuntimeMetadataLen(address)))
  {
    var input := MetadataBytes(address, port) + rest;
    BigEndianRoundTrip(port, 0, 0);
    match address {
      case Ipv4(v4) =>
        ConcatAssociative([RUNTIME_ADDR_TYPE_IPV4] + v4, U16Bytes(port), rest);
        Middle([RUNTIME_ADDR_TYPE_IPV4], v4, U16Bytes(port) + rest);
      case Ipv6(v6) =>
        ConcatAssociative([RUNTIME_ADDR_TYPE_IPV6] + v6, U16Bytes(port), rest);
        Middle([RUNTIME_ADDR_TYPE_IPV6], v6, U16Bytes(port) + rest);
      case Domain(name) =>
        ConcatAssociative([RUNTIME_ADDR_TYPE_DOMAIN, |name|] + name, U16Bytes(port), rest);
        Middle([RUNTIME_ADDR_TYPE_DOMAIN, |name|], name, U16Bytes(port) + rest);
    }
  }

  /** A decoded target encodes to exactly the bytes it was decoded from. */
  lemma {:induction false} MetadataReencodes(input: seq<byte>)
    requires DecodeRuntimeMetadata(input).Ok?
    ensures var m := DecodeRuntimeMetadata(input).value;
            && Encodable(m.address) && m.consumed == RuntimeMetadataLen(m.address) <= |input|
            && MetadataBytes(m.address, m.port) == input[..m.consumed]
  {
    var m := DecodeRuntimeMetadata(input).value;
    BigEndianRoundTrip(m.port, input[m.consumed - 2], input[m.consumed - 1]);
  }

  /** A decoded target does not depend on the bytes after it. */
  lemma {:induction false} MetadataExtends(input: seq<byte>, more: seq<byte>)
    requires DecodeRuntimeMetadata(input).Ok?
    ensures DecodeRuntimeMetadata(input + more) == DecodeRuntimeMetadata(input)
  {
    MetadataReencodes(input);
    var m := DecodeRuntimeMetadata(input).value;
    assert input + more == MetadataBytes(m.address, m.port) + (input[m.consumed..] + more);
    MetadataDecodes(m.address, m.port, input[m.consumed..] + more);
  }

  /** A cut encoding asks for the type, then for a domain's length, then for the whole encoding. */
  lemma {:induction false} MetadataTruncates(address: ProxyAddress, port: u16, k: nat)
    requires Encodable(address) && k < RuntimeMetadataLen(address)
    ensures DecodeRuntimeMetadata(MetadataBytes(address, port)[..k]) == Err(CutAt(address, k))
  {
  }

  /** What is said of a target's encoding that is cut after `k` bytes. */
  function CutAt(address: ProxyAddress, k: nat): (error: ProtocolError)
    requires k < RuntimeMetadataLen(address)
    ensures error.Truncated? && error.available == k < error.needed <= RuntimeMetadataLen(address)
  {
    if k == 0 then Truncated(1, 0)
    else if address.Domain? && k == 1 then Truncated(2, 1)
    else Truncated(RuntimeMetadataLen(address), k)
  }

  /** Only an unknown type is refused for good: every other input has a target or lacks the end of one. */
  lemma {:induction false} MetadataRefused(input: seq<byte>) returns (more: seq<byte>)
    ensures var r := DecodeRuntimeMetadata(input);
            if input != [] && input[0] !in {1, 3, 4} then r == Err(UnknownRuntimeAddrType(input[0]))
            else (more == [] <==> r.Ok?) && DecodeRuntimeMetadata(input + more).Ok?
  {
    var zeros: seq<byte> := seq(260, _ => 0);
    if input == [] {
      more := [1] + zeros;
    } else if input[0] !in {1, 3, 4} || DecodeRuntimeMetadata(input).Ok? {
      more := [];
      ConcatEmpty(input);
    } else {
      more := zeros;
      assert (input + more)[0] == input[0];
      assert input[0] == 3 && |input| >= 2 ==> (input + more)[1] == input[1];
    }
  }

  /** The number of bytes a truncation asks for on top of those it saw. */
  function Shortfall(error: ProtocolError): int
    requires error.Truncated?
  {
    error.needed - error.available
  }

  /** A cut input is recognised as such, and the bytes asked for do not exceed the bytes missing. */
  predicate AsksForMissing<T>(r: Result<T, ProtocolError>, missing: nat) {
    r.Err? && r.error.Truncated? && 0 < Shortfall(r.error) <= missing
  }

  // ---------------------------------------------------------------- proxy headers

  lemma {:induction false} HeaderDecodes(header: ProxyHeader, rest: seq<byte>)
    requires Encodable(header.address)
    ensures DecodeHeader(HeaderBytes(header) + rest) == Ok((header, rest))
  {
    var metadata := MetadataBytes(header.address, header.port);
    var input := HeaderBytes(header) + rest;
    assert input[1..] == metadata + rest;
    MetadataDecodes(header.address, header.port, rest);
    assert input[1 + |metadata|..] == rest;
  }

  lemma {:induction false} HeaderReencodes(input: seq<byte>)
    requires DecodeHeader(input).Ok?
    ensures var (header, rest) := DecodeHeader(input).value;
            Encodable(header.address) && HeaderBytes(header) + rest == input
  {
    MetadataReencodes(input[1..]);
    assert input == [input[0]] + input[1..];
  }

  lemma {:induction false} HeaderExtends(input: seq<byte>, more: seq<byte>)
    requires DecodeHeader(input).Ok?
    ensures var (header, rest) := DecodeHeader(input).value;
            DecodeHeader(input + more) == Ok((header, rest + more))
  {
    var (header, rest) := DecodeHeader(input).value;
    HeaderReencodes(input);
    ConcatAssociative(HeaderBytes(header), rest, more);
    HeaderDecodes(header, rest + more);
  }

  lemma {:induction false} HeaderRefused(input: seq<byte>)
    requires |input| >= 2
    ensures input[0] !in {1, 3} ==> DecodeHeader(input) == Err(UnknownNetwork(input[0]))
    ensures input[0] in {1, 3} && DecodeRuntimeMetadata(input[1..]).Err? ==>
      DecodeHeader(input) == Err(DecodeRuntimeMetadata(input[1..]).error)
  {
  }

  lemma {:induction false} HeaderTruncates(header: ProxyHeader, k: nat)
    requires Encodable(header.address) && k < EncodedLen(header)
    ensures DecodeHeader(HeaderBytes(header)[..k])
         == Err(if k < 2 then Truncated(2, k) else CutAt(header.address, k - 1))
    ensures AsksForMissing(DecodeHeader(HeaderBytes(header)[..k]), EncodedLen(header) - k)
  {
    var input := HeaderBytes(header)[..k];
    if k >= 2 {
      assert input[1..] == MetadataBytes(header.address, header.port)[..k - 1];
      MetadataTruncates(header.address, header.port, k - 1);
    }
  }

  // ---------------------------------------------------------------- UDP frames

  lemma {:induction false} FrameDecodes(frame: UdpFrame, rest: seq<byte>)
    requires EncodableFrame(frame)
    ensures DecodeUdpDatagram(FrameBytes(frame) + rest) == Ok((frame, rest))
  {
    var metadata, length := MetadataBytes(frame.address, frame.port), U16Bytes(|frame.payload|);
    var tail := (length + frame.payload) + rest;
    ConcatAssociative(metadata, length + frame.payload, rest);
    MetadataDecodes(frame.address, frame.port, tail);
    ConcatSplit(metadata, tail);
    BigEndianRoundTrip(|frame.payload|, 0, 0);
    assert tail[2..2 + |frame.payload|] == frame.payload;
    assert tail[2 + |frame.payload|..] == rest;
  }

  lemma {:induction false} FrameReencodes(input: seq<byte>)
    requires DecodeUdpDatagram(input).Ok?
    ensures var (frame, rest) := DecodeUdpDatagram(input).value;
            EncodableFrame(frame) && FrameBytes(frame) + rest == input
  {
    MetadataReencodes(input);
    var consumed := DecodeRuntimeMetadata(input).value.consumed;
    var body := input[consumed..];
    var (frame, rest) := DecodeUdpDatagram(input).value;
    BigEndianRoundTrip(|frame.payload|, body[0], body[1]);
    assert U16Bytes(|frame.payload|) == [body[0], body[1]];
    assert body == (U16Bytes(|frame.payload|) + frame.payload) + rest;
    assert input == input[..consumed] + body;
    ConcatAssociative(input[..consumed], U16Bytes(|frame.payload|) + frame.payload, rest);
  }

  lemma {:induction false} FrameExtends(input: seq<byte>, more: seq<byte>)
    requires DecodeUdpDatagram(input).Ok?
    ensures var (frame, rest) := DecodeUdpDatagram(input).value;
            DecodeUdpDatagram(input + more) == Ok((frame, rest + more))
  {
    var (frame, rest) := DecodeUdpDatagram(input).value;
    FrameReencodes(input);
    ConcatAssociative(FrameBytes(frame), rest, more);
    FrameDecodes(frame, rest + more);
  }

  lemma {:induction false} FrameTruncates(frame: UdpFrame, k: nat)
    requires EncodableFrame(frame) && k < |FrameBytes(frame)|
    ensures var at := RuntimeMetadataLen(frame.address);
            DecodeUdpDatagram(FrameBytes(frame)[..k])
            == Err(if k < at then CutAt(frame.address, k)
                   else if k < at + 2 then Truncated(2, k - at)
                   else Truncated(2 + |frame.payload|, k - at))
    ensures AsksForMissing(DecodeUdpDatagram(FrameBytes(frame)[..k]), |FrameBytes(frame)| - k)
  {
    var metadata := MetadataBytes(frame.address, frame.port);
    var body := U16Bytes(|frame.payload|) + frame.payload;
    var input := FrameBytes(frame)[..k];
    if k < |metadata| {
      assert input == metadata[..k];
      MetadataTruncates(frame.address, frame.port, k);
    } else {
      assert input == metadata + body[..k - |metadata|];
      MetadataDecodes(frame.address, frame.port, body[..k - |metadata|]);
      ConcatSplit(metadata, body[..k - |metadata|]);
      BigEndianRoundTrip(|frame.payload|, 0, 0);
    }
  }

  /** The bytes of a header by their places: network, type, address or name, and the port's high byte first. */
  lemma {:induction false} HeaderLayout(header: ProxyHeader)
    requires Encodable(header.address)
    ensures var bytes := HeaderBytes(header);
            var n := |bytes|;
            && bytes[0] == (if header.network.Tcp? then 1 else 3)
            && bytes[n - 2] as int * 256 + bytes[n - 1] == header.port
            && match header.address {
                 case Ipv4(v4) => n == 8 && bytes[1] == 1 && bytes[2..6] == v4
                 case Ipv6(v6) => n == 20 && bytes[1] == 4 && bytes[2..18] == v6
                 case Domain(name) => n == |name| + 5 && bytes[1] == 3 && bytes[2] == |name| && bytes[3..n - 2] == name
               }
  {
    var bytes := HeaderBytes(header);
    match header.address {
      case Ipv4(v4) =>
        assert bytes[2..6] == v4;
      case Ipv6(v6) =>
        assert bytes[2..18] == v6;
      case Domain(name) =>
        assert bytes[3..|bytes| - 2] == name;
    }
  }

  /** A frame is a header without its network byte, the payload's length, high byte first, and the payload. */
  lemma {:induction false} FrameLayout(frame: UdpFrame)
    requires EncodableFrame(frame)
    ensures var bytes, at := FrameBytes(frame), RuntimeMetadataLen(frame.address);
            && bytes[..at] == HeaderBytes(ProxyHeader(Udp, frame.address, frame.port))[1..]
            && bytes[at] as int * 256 + bytes[at + 1] == |frame.payload|
            && bytes[at + 2..] == frame.payload
  {
    var bytes, at := FrameBytes(frame), RuntimeMetadataLen(frame.address);
    assert bytes[at + 2..] == frame.payload;
  }

  // ---------------------------------------------------------------- streams of frames

  datatype FrameList = NoFrames | Frames(first: UdpFrame, rest: FrameList)

  function JoinFrames(a: FrameList, b: FrameList): FrameList {
    match a
    case NoFrames => b
    case Frames(first, rest) => Frames(first, JoinFrames(rest, b))
  }

  predicate EncodableFrames(frames: FrameList) {
    match frames
    case NoFrames => true
    case Frames(first, rest) => EncodableFrame(first) && EncodableFrames(rest)
  }

  /** The frames written one after the other. */
  function StreamBytes(frames: FrameList): seq<byte>
    requires EncodableFrames(frames)
  {
    match frames
    case NoFrames => []
    case Frames(first, rest) => FrameBytes(first) + StreamBytes(rest)
  }

  /** Decodes frame after frame as long as a whole one is available; returns the bytes left over. */
  function DecodeStream(input: seq<byte>): (FrameList, seq<byte>)
    decreases |input|
  {
    var r := DecodeUdpDatagram(input);
    if r.Err? then (NoFrames, input)
    else
      FrameReencodes(input);
      var later := DecodeStream(r.value.1);
      (Frames(r.value.0, later.0), later.1)
  }

  /** Decoding a concatenation of encoded frames returns exactly those frames and what follows them. */
  lemma {:induction false} StreamDecodes(frames: FrameList, rest: seq<byte>)
    requires EncodableFrames(frames) && DecodeUdpDatagram(rest).Err?
    ensures DecodeStream(StreamBytes(frames) + rest) == (frames, rest)
  {
    match frames {
      case NoFrames =>
        ConcatEmpty(rest);
      case Frames(first, later) =>
        ConcatAssociative(FrameBytes(first), StreamBytes(later), rest);
        FrameDecodes(first, StreamBytes(later) + rest);
        StreamDecodes(later, rest);
    }
  }

  /** Whatever was decoded encodes, with the bytes left over, to exactly the input. */
  lemma {:induction false} StreamReencodes(input: seq<byte>)
    ensures EncodableFrames(DecodeStream(input).0)
    ensures StreamBytes(DecodeStream(input).0) + DecodeStream(input).1 == input
    decreases |input|
  {
    var r := DecodeUdpDatagram(input);
    if r.Err? {
      ConcatEmpty(input);
    } else {
      FrameReencodes(input);
      StreamReencodes(r.value.1);
      var later := DecodeStream(r.value.1);
      ConcatAssociative(FrameBytes(r.value.0), StreamBytes(later.0), later.1);
    }
  }

  /** Feeding a stream in two parts, wherever it is cut, decodes the same frames as feeding it at once. */
  lemma {:induction false} StreamIsIncremental(a: seq<byte>, b: seq<byte>)
    ensures var (early, rest) := DecodeStream(a);
            var (late, left) := DecodeStream(rest + b);
            DecodeStream(a + b) == (JoinFrames(early, late), left)
    decreases |a|
  {
    var r := DecodeUdpDatagram(a);
    if r.Ok? {
      FrameReencodes(a);
      FrameExtends(a, b);
      StreamIsIncremental(r.value.1, b);
    }
  }

  // ---------------------------------------------------------------- authentication

  /** The frame's bytes by their places. */
  lemma {:induction false} AuthenticationLayout(request: AuthenticationRequest)
    ensures var bytes := AuthenticationBytes(request);
            |bytes| == 50 && bytes[..2] == [0, 0] && bytes[2..18] == request.uuid && bytes[18..] == request.token
  {
    var bytes := AuthenticationBytes(request);
    assert bytes[2..18] == request.uuid;
    assert bytes[18..] == request.token;
  }

  /** Whole frames are refused for their version first, then for their command. */
  lemma {:induction false} AuthenticationRefused(input: seq<byte>)
    requires |input| >= 50
    ensures input[0] != 0 ==> DecodeAuthentication(input) == Err(UnexpectedVersion(input[0]))
    ensures input[0] == 0 && input[1] != 0 ==> DecodeAuthentication(input) == Err(UnexpectedCommandType(input[1]))
  {
  }

  lemma {:induction false} AuthenticationDecodes(request: AuthenticationRequest, rest: seq<byte>)
    ensures DecodeAuthentication(AuthenticationBytes(request) + rest) == Ok((request, rest))
  {
    var input := AuthenticationBytes(request) + rest;
    assert input[2..18] == request.uuid;
    assert input[18..50] == request.token;
    assert input[50..] == rest;
  }

  lemma {:induction false} AuthenticationReencodes(input: seq<byte>)
    requires DecodeAuthentication(input).Ok?
    ensures var (request, rest) := DecodeAuthentication(input).value;
            AuthenticationBytes(request) + rest == input
  {
    assert input == [input[0], input[1]] + input[2..18] + input[18..50] + input[50..];
  }

  /** More input only extends the rest. */
  lemma {:induction false} AuthenticationExtends(input: seq<byte>, more: seq<byte>)
    requires DecodeAuthentication(input).Ok?
    ensures DecodeAuthentication(input + more)
         == Ok((DecodeAuthentication(input).value.0, DecodeAuthentication(input).value.1 + more))
  {
    assert (input + more)[2..18] == input[2..18] && (input + more)[18..50] == input[18..50];
    assert (input + more)[50..] == input[50..] + more;
  }

  lemma {:induction false} AuthenticationTruncates(request: AuthenticationRequest, k: nat)
    requires k < AUTHENTICATION_FRAME_LEN
    ensures DecodeAuthentication(AuthenticationBytes(request)[..k]) == Err(Truncated(50, k))
  {
  }
}
