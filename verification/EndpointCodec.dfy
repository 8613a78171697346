/** The binary form of an endpoint: a byte of flags, the port with its low byte first, and the address. */
module EndpointCodec {
  import opened Wrappers

  type Bytes = seq<bv8>

  datatype Protocol = Tcp | Quic | Ext(code: bv8)

  datatype Area = Lan | ServerReflexive | Wan | Mapped

  type Octets4 = s: Bytes | |s| == 4 witness [0, 0, 0, 0]
  type Octets16 = s: Bytes | |s| == 16 witness [0, 0, 0, 0, 0, 0, 0, 0, 0, 0, 0, 0, 0, 0, 0, 0]

  datatype Address = V4(ip4: Octets4, port: bv16) | V6(ip6: Octets16, port: bv16, flow: nat, scope: nat)

  datatype Endpoint = Endpoint(area: Area, protocol: Protocol, addr: Address)

  const MIN_BYTES: nat := 7

  const PROTOCOL_MASK: bv8 := 0x0f
  const VERSION_MASK: bv8 := 0x10
  const AREA_MASK: bv8 := 0x60

  function ProtocolBits(p: Protocol): bv8 {
    match p case Tcp => 0 case Quic => 1 case Ext(code) => code
  }

  function AreaBits(a: Area): bv8 {
    match a case Lan => 0 case ServerReflexive => 0x20 case Wan => 0x40 case Mapped => 0x60
  }

  function VersionBits(a: Address): bv8 { if a.V4? then 0 else 0x10 }

  function Flags(ep: Endpoint): bv8 { ProtocolBits(ep.protocol) | AreaBits(ep.area) | VersionBits(ep.addr) }

  predicate Encodable(p: Protocol) { p.Ext? ==> 8 <= p.code < 16 }

  function Measure(ep: Endpoint): nat { if ep.addr.V4? then 1 + 2 + 4 else 1 + 2 + 16 }

  function PortBytes(port: bv16): (b: Bytes)
    ensures |b| == 2
  {
    [(port & 0xff) as bv8, (port >> 8) as bv8]
  }

  function PortOf(lo: bv8, hi: bv8): bv16 { (hi as bv16 << 8) | lo as bv16 }

  function AddressBytes(a: Address): (b: Bytes)
    ensures |b| == if a.V4? then 4 else 16
  {
    if a.V4? then a.ip4 else a.ip6
  }

  function Encode(ep: Endpoint): (b: Bytes)
    ensures |b| == Measure(ep)
  {
    [Flags(ep)] + PortBytes(ep.addr.port) + AddressBytes(ep.addr)
  }

  function DecodeProtocol(flags: bv8): Option<Protocol> {
    var n := flags & PROTOCOL_MASK;
    if n == 0 then Some(Tcp) else if n == 1 then Some(Quic) else if n < 8 || n >= 16 then None else Some(Ext(n))
  }

  function DecodeArea(flags: bv8): Area {
    var n := flags & AREA_MASK;
    if n == 0x20 then ServerReflexive else if n == 0x40 then Wan else if n == 0x60 then Mapped else Lan
  }

  datatype Decoded = Decoded(ep: Endpoint, rest: Bytes)

  function Decode(b: Bytes): Option<Decoded> {
    if |b| < MIN_BYTES then None
    else
      var flags := b[0];
      var protocol := DecodeProtocol(flags);
      if protocol.None? then None
      else
        var port := PortOf(b[1], b[2]);
        if flags & VERSION_MASK == 0x10 then
          if |b| < 19 then None
          else Some(Decoded(Endpoint(DecodeArea(flags), protocol.value, V6(b[3..19], port, 0, 0)), b[19..]))
        else Some(Decoded(Endpoint(DecodeArea(flags), protocol.value, V4(b[3..7], port)), b[7..]))
  }

  // ---------------------------------------------------------------- round trips

  lemma FlagsRoundTrip(ep: Endpoint)
    requires Encodable(ep.protocol)
    ensures DecodeProtocol(Flags(ep)) == Some(ep.protocol) && DecodeArea(Flags(ep)) == ep.area
    ensures Flags(ep) & VERSION_MASK == VersionBits(ep.addr)
  {
  }

  lemma PortRoundTrip(port: bv16)
    ensures PortOf(PortBytes(port)[0], PortBytes(port)[1]) == port
  {
  }

  lemma PortBytesOf(lo: bv8, hi: bv8)
    ensures PortBytes(PortOf(lo, hi)) == [lo, hi]
  {
  }

  lemma FlagsOfDecoded(flags: bv8, ep: Endpoint)
    requires DecodeProtocol(flags) == Some(ep.protocol) && DecodeArea(flags) == ep.area
    requires ep.addr.V6? <==> flags & VERSION_MASK == 0x10
    ensures Flags(ep) == flags & 0x7f && Encodable(ep.protocol)
  {
  }

  /** The encoding has no place for the flow and scope of an IPv6 address. */
  function WithoutScope(ep: Endpoint): Endpoint {
    if ep.addr.V4? then ep else ep.(addr := ep.addr.(flow := 0, scope := 0))
  }

  /** Decoding reads back the endpoint without flow and scope, and leaves exactly what follows it. */
  lemma DecodesEncoded(ep: Endpoint, rest: Bytes)
    requires Encodable(ep.protocol)
    ensures Decode(Encode(ep) + rest) == Some(Decoded(WithoutScope(ep), rest))
  {
    var b := Encode(ep) + rest;
    var n := Measure(ep);
    FlagsRoundTrip(ep);
    PortRoundTrip(ep.addr.port);
    assert b[0] == Flags(ep) && b[1] == PortBytes(ep.addr.port)[0] && b[2] == PortBytes(ep.addr.port)[1];
    assert b[3..n] == AddressBytes(ep.addr);
    assert b[n..] == rest;
  }

  /** Encoding what was decoded gives back the bytes that were read, with the unused top flag bit cleared. */
  lemma EncodesDecoded(b: Bytes)
    requires Decode(b).Some?
    ensures var d := Decode(b).value;
      Encodable(d.ep.protocol) && WithoutScope(d.ep) == d.ep && Encode(d.ep) + d.rest == b[0 := b[0] & 0x7f]
  {
    var d := Decode(b).value;
    var n := Measure(d.ep);
    FlagsOfDecoded(b[0], d.ep);
    PortBytesOf(b[1], b[2]);
    assert b[3..n] == AddressBytes(d.ep.addr) && b[n..] == d.rest;
    assert b[0 := b[0] & 0x7f] == [b[0] & 0x7f] + [b[1], b[2]] + b[3..n] + b[n..];
  }

  /** The low bits of the first byte. */
  lemma FlagBits(ep: Endpoint)
    requires Encodable(ep.protocol)
    ensures Flags(ep) & 0x0f == (match ep.protocol case Tcp => 0 case Quic => 1 case Ext(code) => code)
    ensures Flags(ep) & 0x10 == if ep.addr.V6? then 0x10 else 0
    ensures Flags(ep) & 0x60 == (match ep.area case Lan => 0 case ServerReflexive => 0x20 case Wan => 0x40 case Mapped => 0x60)
    ensures Flags(ep) & 0x80 == 0
  {
  }

  lemma PortBits(port: bv16)
    ensures PortBytes(port)[1] as bv16 * 256 + PortBytes(port)[0] as bv16 == port
  {
  }

  /** The bytes of an endpoint: protocol (TCP 0, QUIC 1, others 8 to 15) in bits 0 to 3, IPv6 in bit 4, the area in bits
      5 and 6 (LAN 0, server reflexive 1, WAN 2, mapped 3); the port, low byte first; and 4 or 16 bytes of address. */
  lemma EncodedBytes(ep: Endpoint)
    requires Encodable(ep.protocol)
    ensures var b := Encode(ep);
      && |b| == (if ep.addr.V4? then 7 else 19)
      && b[0] & 0x0f == (match ep.protocol case Tcp => 0 case Quic => 1 case Ext(code) => code)
      && b[0] & 0x10 == (if ep.addr.V6? then 0x10 else 0)
      && b[0] & 0x60 == (match ep.area case Lan => 0 case ServerReflexive => 0x20 case Wan => 0x40 case Mapped => 0x60)
      && b[0] & 0x80 == 0
      && b[2] as bv16 * 256 + b[1] as bv16 == ep.addr.port
      && b[3..] == if ep.addr.V4? then ep.addr.ip4 else ep.addr.ip6
  {
    FlagBits(ep);
    PortBits(ep.addr.port);
  }

  /** Protocols outside TCP, QUIC and 8 to 15 have no encoding; 2 to 7 are refused when decoding. */
  lemma ProtocolCodes(p: Protocol, flags: bv8)
    ensures Encodable(p) <==> p == Tcp || p == Quic || (8 <= p.code <= 15)
    ensures DecodeProtocol(flags).None? <==> 2 <= flags & 0x0f <= 7
  {
  }

  /** Apart from flow and scope an encoding determines its endpoint, and none is the start of another. */
  lemma EncodingIsPrefixFree(a: Endpoint, b: Endpoint, r: Bytes, s: Bytes)
    requires Encodable(a.protocol) && Encodable(b.protocol) && Encode(a) + r == Encode(b) + s
    ensures WithoutScope(a) == WithoutScope(b) && r == s
  {
    DecodesEncoded(a, r);
    DecodesEncoded(b, s);
  }

  // ---------------------------------------------------------------- writing into a buffer

  method CopyInto(buf: array<bv8>, at: nat, source: Bytes)
    requires at + |source| <= buf.Length
    modifies buf
    ensures buf[..] == old(buf[..at]) + source + old(buf[at + |source|..])
  {
    var i := 0;
    while i < |source|
      invariant i <= |source|
      invariant forall k :: 0 <= k < buf.Length ==> buf[k] == if at <= k < at + i then source[k - at] else old(buf[k])
    {
      buf[at + i] := source[i];
      i := i + 1;
    }
  }

  method ComputeFlags(ep: Endpoint) returns (flags: bv8)
    ensures flags == Flags(ep)
    ensures Encodable(ep.protocol) ==>
      && flags & PROTOCOL_MASK == ProtocolBits(ep.protocol) && flags & AREA_MASK == AreaBits(ep.area)
      && flags & VERSION_MASK == VersionBits(ep.addr) && flags & 0x80 == 0
  {
    flags := 0;
    flags := flags | ProtocolBits(ep.protocol);
    flags := flags | AreaBits(ep.area);
    flags := flags | VersionBits(ep.addr);
  }

  lemma HeadWritten(ep: Endpoint, was: Bytes, now: Bytes)
    requires |was| >= MIN_BYTES
    requires now == was[0 := Flags(ep)][..1] + PortBytes(ep.addr.port) + was[0 := Flags(ep)][3..]
    ensures now == Encode(ep)[..3] + was[3..]
  {
    assert was[0 := Flags(ep)][..1] == [Flags(ep)] && was[0 := Flags(ep)][3..] == was[3..];
    assert Encode(ep)[..3] == [Flags(ep)] + PortBytes(ep.addr.port);
  }

  lemma AddressWritten(ep: Endpoint, was: Bytes, head: Bytes, now: Bytes)
    requires |was| >= Measure(ep) && head == Encode(ep)[..3] + was[3..]
    requires now == head[..3] + AddressBytes(ep.addr) + head[3 + |AddressBytes(ep.addr)|..]
    ensures now == Encode(ep) + was[Measure(ep)..]
  {
    var a := AddressBytes(ep.addr);
    assert head[..3] == Encode(ep)[..3] && head[3 + |a|..] == was[3 + |a|..];
    assert Encode(ep) == Encode(ep)[..3] + a;
  }

  /** An IPv6 address that does not fit is noticed only after flags and port are written. */
  method RawEncode(ep: Endpoint, buf: array<bv8>) returns (ok: bool)
    modifies buf
    ensures ok <==> Encodable(ep.protocol) && buf.Length >= Measure(ep)
    ensures ok ==> buf[..] == Encode(ep) + old(buf[Measure(ep)..])
    ensures !ok && Encodable(ep.protocol) && buf.Length >= MIN_BYTES ==> buf[..] == Encode(ep)[..3] + old(buf[3..])
    ensures !ok && !(Encodable(ep.protocol) && buf.Length >= MIN_BYTES) ==> buf[..] == old(buf[..])
  {
    if ep.protocol.Ext? && (ep.protocol.code < 8 || ep.protocol.code >= 16) { return false; }
    if buf.Length < MIN_BYTES { return false; }
    ghost var was := buf[..];
    buf[0] := ComputeFlags(ep);
    assert buf[..] == was[0 := Flags(ep)];
    CopyInto(buf, 1, PortBytes(ep.addr.port));
    HeadWritten(ep, was, buf[..]);
    if buf.Length < Measure(ep) { return false; }
    ghost var written := buf[..];
    CopyInto(buf, 3, AddressBytes(ep.addr));
    AddressWritten(ep, was, written, buf[..]);
    ok := true;
  }
}
