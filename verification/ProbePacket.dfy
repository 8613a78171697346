/** The fixed-size packets of the NAT probe protocol and the byte strings their signatures cover. */
module ProbePacket {
  import opened Wrappers

  type byte = x: int | 0 <= x < 256
  type Bytes = seq<byte>

  const TOKEN_LEN: nat := 16
  const TOKEN_OFFSET: nat := 8
  const IPV4_OFFSET: nat := 24
  const PORT_OFFSET: nat := 28
  const SIGNATURE_LEN_OFFSET: nat := 30
  const SIGNATURE_OFFSET: nat := 32
  const PACKET_LEN: nat := 1200
  const MAX_SIGNATURE_LEN: nat := PACKET_LEN - SIGNATURE_OFFSET
  const VERSION: byte := 2
  const REQUEST: byte := 1
  const RESPONSE: byte := 2

  /** "PNAT" */
  const Magic: Bytes := [80, 78, 65, 84]

  function Zeros(n: nat): (z: Bytes)
    ensures |z| == n && forall i :: 0 <= i < n ==> z[i] == 0
  {
    Repeat(0, n)
  }

  /** A 16-bit number, high byte first. */
  function Big(n: nat): (b: Bytes)
    requires n < 65536
    ensures |b| == 2
  {
    [n / 256, n % 256]
  }

  function FromBig(hi: byte, lo: byte): (n: nat)
    ensures n < 65536
  {
    hi * 256 + lo
  }

  function Header(kind: byte): (h: Bytes)
    ensures |h| == TOKEN_OFFSET
  {
    Magic + [VERSION, kind, 0, 0]
  }

  // ---------------------------------------------------------------- encoding

  function EncodeRequest(token: Bytes): (p: Bytes)
    requires |token| == TOKEN_LEN
    ensures |p| == PACKET_LEN
  {
    Header(REQUEST) + token + Zeros(PACKET_LEN - IPV4_OFFSET)
  }

  /** The address a reflector saw: the protocol has a place for IPv4 only. */
  datatype Address = V4(ip: Bytes, port: nat) | V6

  predicate GoodAddress(a: Address) {
    a.V4? && |a.ip| == 4 && a.ip != [0, 0, 0, 0] && 0 < a.port < 65536
  }

  predicate GoodLength(n: nat) { 0 < n <= MAX_SIGNATURE_LEN }

  datatype Response = Response(token: Bytes, observed: Address, signature: Bytes)

  predicate Encodable(r: Response) {
    |r.token| == TOKEN_LEN && GoodAddress(r.observed) && GoodLength(|r.signature|)
  }

  /** The bytes before the signature, which the signature covers. */
  function Fields(token: Bytes, observed: Address, length: nat): (f: Bytes)
    requires |token| == TOKEN_LEN && GoodAddress(observed) && GoodLength(length)
    ensures |f| == SIGNATURE_OFFSET
  {
    Header(RESPONSE) + token + observed.ip + Big(observed.port) + Big(length)
  }

  function EncodeResponse(r: Response): (p: Bytes)
    requires Encodable(r)
    ensures |p| == PACKET_LEN
  {
    Fields(r.token, r.observed, |r.signature|) + r.signature + Zeros(MAX_SIGNATURE_LEN - |r.signature|)
  }

  // ---------------------------------------------------------------- decoding

  predicate ValidHeader(p: Bytes, kind: byte) {
    |p| == PACKET_LEN && p[..4] == Magic && p[4] == VERSION && p[5] == kind && p[6] == 0 && p[7] == 0
  }

  predicate ZeroFrom(p: Bytes, i: nat) { forall k :: i <= k < |p| ==> p[k] == 0 }

  function Token(p: Bytes): Bytes
    requires |p| == PACKET_LEN
  {
    p[TOKEN_OFFSET..TOKEN_OFFSET + TOKEN_LEN]
  }

  function DecodeRequest(p: Bytes): Option<Bytes> {
    if !ValidHeader(p, REQUEST) || !ZeroFrom(p, IPV4_OFFSET) then None else Some(Token(p))
  }

  function DecodeResponse(p: Bytes): Option<Response> {
    if !ValidHeader(p, RESPONSE) then None
    else
      var ip := p[IPV4_OFFSET..PORT_OFFSET];
      var port := FromBig(p[PORT_OFFSET], p[PORT_OFFSET + 1]);
      var length := FromBig(p[SIGNATURE_LEN_OFFSET], p[SIGNATURE_LEN_OFFSET + 1]);
      if ip == [0, 0, 0, 0] || port == 0 then None
      else if !GoodLength(length) then None
      else if !ZeroFrom(p, SIGNATURE_OFFSET + length) then None
      else Some(Response(Token(p), V4(ip, port), p[SIGNATURE_OFFSET..SIGNATURE_OFFSET + length]))
  }

  // ---------------------------------------------------------------- packets are canonical

  lemma BigRoundTrip(n: nat)
    requires n < 65536
    ensures FromBig(Big(n)[0], Big(n)[1]) == n
  {
  }

  lemma BigOfBytes(hi: byte, lo: byte)
    ensures Big(FromBig(hi, lo)) == [hi, lo]
  {
  }

  lemma HeaderMeans(p: Bytes, kind: byte)
    requires |p| == PACKET_LEN
    ensures ValidHeader(p, kind) <==> p[..TOKEN_OFFSET] == Header(kind)
  {
    var h := p[..8];
    assert h[..4] == p[..4] && Header(kind)[..4] == Magic;
    if ValidHeader(p, kind) {
      assert h == h[..4] + [h[4], h[5], h[6], h[7]];
    }
  }

  /** A packet is a request exactly when it is the encoding of the token read from it. */
  lemma RequestsAreCanonical(p: Bytes, token: Bytes)
    requires |token| == TOKEN_LEN
    ensures DecodeRequest(p) == Some(token) <==> p == EncodeRequest(token)
  {
    if |p| == PACKET_LEN {
      HeaderMeans(p, REQUEST);
      assert p == p[..8] + p[8..24] + p[24..];
      var z := Zeros(PACKET_LEN - IPV4_OFFSET);
      if ZeroFrom(p, 24) { assert p[24..] == z; }
      if p == EncodeRequest(token) {
        var e := Header(REQUEST) + token + z;
        assert e[..8] == Header(REQUEST) && e[8..24] == token && e[24..] == z;
        forall k | 24 <= k < |p| ensures p[k] == 0 { assert p[24..][k - 24] == 0; }
      }
    }
  }

  /** The places of the fields in an encoded response. */
  lemma ResponseLayout(r: Response, p: Bytes)
    requires Encodable(r) && |p| == PACKET_LEN
    ensures p == EncodeResponse(r) <==>
      && p[..8] == Header(RESPONSE) && p[8..24] == r.token && p[24..28] == r.observed.ip
      && p[28..30] == Big(r.observed.port) && p[30..32] == Big(|r.signature|)
      && p[32..32 + |r.signature|] == r.signature && ZeroFrom(p, 32 + |r.signature|)
  {
    var n := |r.signature|;
    var e := EncodeResponse(r);
    var z := Zeros(MAX_SIGNATURE_LEN - n);
    assert e[..8] == Header(RESPONSE) && e[8..24] == r.token && e[24..28] == r.observed.ip;
    assert e[28..30] == Big(r.observed.port) && e[30..32] == Big(n);
    assert e[32..32 + n] == r.signature && e[32 + n..] == z;
    if p == e {
      forall k | 32 + n <= k < |p| ensures p[k] == 0 { assert p[32 + n..][k - 32 - n] == 0; }
    } else if ZeroFrom(p, 32 + n) {
      assert p[32 + n..] == z;
      assert p == p[..8] + p[8..24] + p[24..28] + p[28..30] + p[30..32] + p[32..32 + n] + p[32 + n..];
    }
  }

  lemma ResponseRoundTrip(r: Response)
    requires Encodable(r)
    ensures DecodeResponse(EncodeResponse(r)) == Some(r)
  {
    var p := EncodeResponse(r);
    ResponseLayout(r, p);
    HeaderMeans(p, RESPONSE);
    BigRoundTrip(r.observed.port);
    BigRoundTrip(|r.signature|);
    assert p[28] == p[28..30][0] && p[29] == p[28..30][1] && p[30] == p[30..32][0] && p[31] == p[30..32][1];
  }

  lemma ResponseReencodes(p: Bytes)
    requires DecodeResponse(p).Some?
    ensures Encodable(DecodeResponse(p).value) && p == EncodeResponse(DecodeResponse(p).value)
  {
    var r := DecodeResponse(p).value;
    HeaderMeans(p, RESPONSE);
    BigOfBytes(p[28], p[29]);
    BigOfBytes(p[30], p[31]);
    assert p[28..30] == [p[28], p[29]] && p[30..32] == [p[30], p[31]];
    ResponseLayout(r, p);
  }

  /** A packet decodes to a response exactly when it is the encoding of that response. */
  lemma ResponsesAreCanonical(p: Bytes, r: Response)
    ensures DecodeResponse(p) == Some(r) <==> Encodable(r) && p == EncodeResponse(r)
  {
    if DecodeResponse(p) == Some(r) { ResponseReencodes(p); }
    if Encodable(r) { ResponseRoundTrip(r); }
  }

  // ---------------------------------------------------------------- the bytes on the wire

  /** The codes of plain characters. */
  function Ascii(text: string): (b: Bytes)
    requires forall i :: 0 <= i < |text| ==> text[i] as int < 256
    ensures |b| == |text| && forall i :: 0 <= i < |text| ==> b[i] == text[i] as int
  {
    seq(|text|, i requires 0 <= i < |text| => text[i] as int)
  }

  lemma HeaderBytes(kind: byte)
    ensures Header(kind)[..4] == Ascii("PNAT") && Header(kind)[4..] == [2, kind, 0, 0]
  {
    assert Header(kind)[..4] == Magic;
    assert Magic == Ascii("PNAT");
  }

  /** A request is 1200 bytes: the letters PNAT, version 2, kind 1, two zeros, the token, and zeros. */
  lemma RequestBytes(token: Bytes)
    requires |token| == 16
    ensures var p := EncodeRequest(token);
      && |p| == 1200 && p[..4] == Ascii("PNAT") && p[4..8] == [2, 1, 0, 0] && p[8..24] == token
      && forall k :: 24 <= k < 1200 ==> p[k] == 0
  {
    var p := EncodeRequest(token);
    HeaderBytes(REQUEST);
    assert p[..4] == Header(REQUEST)[..4] && p[4..8] == Header(REQUEST)[4..];
    assert p[24..] == Zeros(PACKET_LEN - IPV4_OFFSET);
    forall k | 24 <= k < 1200 ensures p[k] == 0 { assert p[k] == p[24..][k - 24]; }
  }

  /** Which responses can be sent: an IPv4 address that is not all zero, a port, and a signature of 1 to 1168 bytes. */
  lemma EncodableMeans(r: Response)
    ensures Encodable(r) <==>
      && |r.token| == 16 && r.observed.V4? && |r.observed.ip| == 4
      && (exists i :: 0 <= i < 4 && r.observed.ip[i] != 0) && 1 <= r.observed.port <= 65535 && 1 <= |r.signature| <= 1168
  {
    if r.observed.V4? && |r.observed.ip| == 4 && forall i :: 0 <= i < 4 ==> r.observed.ip[i] == 0 {
      assert r.observed.ip == [0, 0, 0, 0];
    }
  }

  /** A response has kind 2; behind the token the address, the port and the length of the signature, high bytes first,
      the signature, and zeros up to 1200 bytes. */
  lemma ResponseBytes(r: Response)
    requires Encodable(r)
    ensures var p := EncodeResponse(r); var n := |r.signature|;
      && |p| == 1200 && p[..4] == Ascii("PNAT") && p[4..8] == [2, 2, 0, 0] && p[8..24] == r.token
      && p[24..28] == r.observed.ip && r.observed.port == p[28] as int * 256 + p[29] as int && n == p[30] as int * 256 + p[31] as int
      && p[32..32 + n] == r.signature && forall k :: 32 + n <= k < 1200 ==> p[k] == 0
  {
    var p := EncodeResponse(r);
    ResponseLayout(r, p);
    HeaderBytes(RESPONSE);
    assert p[..4] == p[..8][..4] && p[4..8] == p[..8][4..];
    assert p[28] == p[28..30][0] && p[29] == p[28..30][1] && p[30] == p[30..32][0] && p[31] == p[30..32][1];
  }

  // ---------------------------------------------------------------- signatures

  /** "CYFS-P2P/PNAT/RESPONSE/V2" and a zero byte. */
  const Domain: Bytes :=
    [67, 89, 70, 83, 45, 80, 50, 80, 47, 80, 78, 65, 84, 47, 82, 69, 83, 80, 79, 78, 83, 69, 47, 86, 50, 0]

  /** "CYFS-P2P/PNAT/SIGNATURE-LENGTH/V2" and a zero byte. */
  const CalibrationDomain: Bytes :=
    [67, 89, 70, 83, 45, 80, 50, 80, 47, 80, 78, 65, 84, 47, 83, 73, 71, 78, 65, 84, 85, 82, 69, 45,
     76, 69, 78, 71, 84, 72, 47, 86, 50, 0]

  function Preimage(signer: Bytes, fields: Bytes): Option<Bytes> {
    if |fields| != SIGNATURE_OFFSET || |signer| >= 65536 then None
    else Some(Domain + Big(|signer|) + signer + fields)
  }

  function CalibrationPreimage(signer: Bytes): Option<Bytes> {
    if |signer| >= 65536 then None else Some(CalibrationDomain + Big(|signer|) + signer)
  }

  /** What is signed: a text that names the use, a zero, the length of the signer's id in two bytes, high byte first, the
      id, and for a response the 32 bytes before the signature. */
  lemma PreimageBytes(signer: Bytes, fields: Bytes)
    ensures Preimage(signer, fields).Some? <==> |fields| == 32 && |signer| <= 65535
    ensures CalibrationPreimage(signer).Some? <==> |signer| <= 65535
    ensures Preimage(signer, fields).Some? ==>
      Preimage(signer, fields).value
        == Ascii("CYFS-P2P/PNAT/RESPONSE/V2") + [0] + [|signer| / 256, |signer| % 256] + signer + fields
    ensures |signer| <= 65535 ==>
      CalibrationPreimage(signer).value
        == Ascii("CYFS-P2P/PNAT/SIGNATURE-LENGTH/V2") + [0] + [|signer| / 256, |signer| % 256] + signer
  {
    DomainText();
    CalibrationText();
  }

  lemma DomainText()
    ensures Domain == Ascii("CYFS-P2P/PNAT/RESPONSE/V2") + [0]
  {
  }

  lemma CalibrationText()
    ensures CalibrationDomain == Ascii("CYFS-P2P/PNAT/SIGNATURE-LENGTH/V2") + [0]
  {
  }

  lemma PreimageInjective(s1: Bytes, f1: Bytes, s2: Bytes, f2: Bytes)
    requires Preimage(s1, f1).Some? && Preimage(s1, f1) == Preimage(s2, f2)
    ensures s1 == s2 && f1 == f2
  {
    var a, b := Domain + Big(|s1|) + s1 + f1, Domain + Big(|s2|) + s2 + f2;
    var n := |Domain|;
    assert a == b;
    assert a[n + 2..] == s1 + f1 && b[n + 2..] == s2 + f2;
    assert |s1| == |s2|;
    assert (s1 + f1)[..|s1|] == s1 && (s2 + f2)[..|s1|] == s2;
    assert (s1 + f1)[|s1|..] == f1 && (s2 + f2)[|s1|..] == f2;
  }

  /** No signature made for calibration can be passed off as one over a response. */
  lemma DomainsSeparate(s1: Bytes, fields: Bytes, s2: Bytes)
    requires Preimage(s1, fields).Some? && CalibrationPreimage(s2).Some?
    ensures Preimage(s1, fields) != CalibrationPreimage(s2)
  {
    var a, b := Preimage(s1, fields).value, CalibrationPreimage(s2).value;
    assert a[14] == Domain[14] == 82;
    assert b[14] == CalibrationDomain[14] == 83;
  }

  /** What a verifier computes from a packet is what the signer signed. */
  lemma VerifierSeesSignedBytes(r: Response, signer: Bytes)
    requires Encodable(r)
    ensures DecodeResponse(EncodeResponse(r)) == Some(r)
    ensures Preimage(signer, EncodeResponse(r)[..SIGNATURE_OFFSET])
      == Preimage(signer, Fields(r.token, r.observed, |r.signature|))
  {
    ResponseRoundTrip(r);
    assert EncodeResponse(r)[..SIGNATURE_OFFSET] == Fields(r.token, r.observed, |r.signature|);
  }

  /** Accepted packets whose signatures cover the same bytes agree on signer, token, address and length. */
  lemma SignatureBindsResponse(p1: Bytes, s1: Bytes, p2: Bytes, s2: Bytes)
    requires DecodeResponse(p1).Some? && DecodeResponse(p2).Some?
    requires Preimage(s1, p1[..SIGNATURE_OFFSET]).Some?
    requires Preimage(s1, p1[..SIGNATURE_OFFSET]) == Preimage(s2, p2[..SIGNATURE_OFFSET])
    ensures var r1, r2 := DecodeResponse(p1).value, DecodeResponse(p2).value;
      s1 == s2 && r1.token == r2.token && r1.observed == r2.observed && |r1.signature| == |r2.signature|
  {
    PreimageInjective(s1, p1[..SIGNATURE_OFFSET], s2, p2[..SIGNATURE_OFFSET]);
    var f := p1[..32];
    assert f == p2[..32];
    assert f[8..24] == p1[8..24] == p2[8..24];
    assert f[24..28] == p1[24..28] == p2[24..28];
    assert f[28] == p1[28] == p2[28] && f[29] == p1[29] == p2[29];
    assert f[30] == p1[30] == p2[30] && f[31] == p1[31] == p2[31];
  }

  /** No packet is both a request and a response. */
  lemma KindsExclude(p: Bytes)
    ensures DecodeRequest(p).None? || DecodeResponse(p).None?
  {
  }

  // ---------------------------------------------------------------- filling the buffer

  method CopyFromSlice(packet: array<byte>, offset: nat, source: Bytes)
    requires offset + |source| <= packet.Length
    modifies packet
    ensures packet[..] == old(packet[..offset]) + source + old(packet[offset + |source|..])
  {
    var i := 0;
    while i < |source|
      invariant i <= |source|
      invariant forall k :: 0 <= k < packet.Length ==>
        packet[k] == if offset <= k < offset + i then source[k - offset] else old(packet[k])
    {
      packet[offset + i] := source[i];
      i := i + 1;
    }
  }

  function KindWritten(b: Bytes, kind: byte): Bytes
    requires |b| == PACKET_LEN
  {
    var v: Bytes := b[4 := VERSION];
    v[5 := kind]
  }

  lemma HeaderWritten(kind: byte, b: Bytes)
    requires b == Zeros(PACKET_LEN)[..0] + Magic + Zeros(PACKET_LEN)[4..]
    ensures KindWritten(b, kind) == Header(kind) + Zeros(PACKET_LEN - TOKEN_OFFSET)
  {
    assert |b| == PACKET_LEN && b[..4] == Magic;
    assert forall k :: 4 <= k < PACKET_LEN ==> b[k] == 0;
  }

  lemma TokenWritten(kind: byte, token: Bytes, b: Bytes, now: Bytes)
    requires |token| == TOKEN_LEN && b == Header(kind) + Zeros(PACKET_LEN - TOKEN_OFFSET)
    requires now == b[..TOKEN_OFFSET] + token + b[TOKEN_OFFSET + TOKEN_LEN..]
    ensures now == Header(kind) + token + Zeros(PACKET_LEN - IPV4_OFFSET)
  {
    assert b[..TOKEN_OFFSET] == Header(kind) && b[IPV4_OFFSET..] == Zeros(PACKET_LEN - IPV4_OFFSET);
  }

  method WriteRequest(token: Bytes) returns (packet: array<byte>)
    requires |token| == TOKEN_LEN
    ensures fresh(packet) && packet[..] == EncodeRequest(token)
  {
    packet := new byte[PACKET_LEN](_ => 0);
    assert packet[..] == Zeros(PACKET_LEN);
    CopyFromSlice(packet, 0, Magic);
    ghost var magic := packet[..];
    packet[4] := VERSION;
    packet[5] := REQUEST;
    assert packet[..] == KindWritten(magic, REQUEST);
    HeaderWritten(REQUEST, magic);
    ghost var header := packet[..];
    CopyFromSlice(packet, TOKEN_OFFSET, token);
    TokenWritten(REQUEST, token, header, packet[..]);
  }

  /** The packet before it is signed: the fields, and zeros where the signature will be. */
  method WriteResponseFields(token: Bytes, observed: Address, length: nat) returns (packet: Option<array<byte>>)
    requires |token| == TOKEN_LEN && (observed.V4? ==> |observed.ip| == 4 && observed.port < 65536)
    ensures packet.Some? <==> GoodLength(length) && GoodAddress(observed)
    ensures packet.Some? ==> fresh(packet.value)
    ensures packet.Some? ==> packet.value[..] == Fields(token, observed, length) + Zeros(MAX_SIGNATURE_LEN)
  {
    if length == 0 || length > MAX_SIGNATURE_LEN { return None; }
    var buffer := new byte[PACKET_LEN](_ => 0);
    assert buffer[..] == Zeros(PACKET_LEN);
    CopyFromSlice(buffer, 0, Magic);
    ghost var magic := buffer[..];
    buffer[4] := VERSION;
    buffer[5] := RESPONSE;
    assert buffer[..] == KindWritten(magic, RESPONSE);
    HeaderWritten(RESPONSE, magic);
    ghost var header := buffer[..];
    CopyFromSlice(buffer, TOKEN_OFFSET, token);
    TokenWritten(RESPONSE, token, header, buffer[..]);
    if observed.V6? { return None; }
    if observed.ip == [0, 0, 0, 0] || observed.port == 0 { return None; }
    CopyFromSlice(buffer, IPV4_OFFSET, observed.ip);
    assert buffer[..] == Header(RESPONSE) + token + observed.ip + Zeros(PACKET_LEN - PORT_OFFSET);
    CopyFromSlice(buffer, PORT_OFFSET, Big(observed.port));
    assert buffer[..] == Header(RESPONSE) + token + observed.ip + Big(observed.port) + Zeros(PACKET_LEN - SIGNATURE_LEN_OFFSET);
    CopyFromSlice(buffer, SIGNATURE_LEN_OFFSET, Big(length));
    assert buffer[..] == Fields(token, observed, length) + Zeros(MAX_SIGNATURE_LEN);
    packet := Some(buffer);
  }

  /** Places a signature of the expected length; one that drifted is refused. */
  method PlaceSignature(packet: array<byte>, token: Bytes, observed: Address, expected: nat, signature: Bytes)
    returns (ok: bool)
    requires |token| == TOKEN_LEN && GoodAddress(observed) && GoodLength(expected)
    requires packet[..] == Fields(token, observed, expected) + Zeros(MAX_SIGNATURE_LEN)
    modifies packet
    ensures ok <==> |signature| == expected
    ensures ok ==> packet[..] == EncodeResponse(Response(token, observed, signature))
    ensures !ok ==> packet[..] == old(packet[..])
  {
    if !GoodLength(|signature|) || |signature| != expected { return false; }
    CopyFromSlice(packet, SIGNATURE_OFFSET, signature);
    ok := true;
  }
}
