/**
  The PROXY protocol version 2 header written to a backend before any forwarded byte
  (section 2.2, "Binary header format (version 2)", of HAProxy's PROXY protocol specification),
  and a receiver that inverts it.
*/
module ProxyProtocol {
  import opened Net

  const V2_SIG: seq<byte> := [0x0D, 0x0A, 0x0D, 0x0A, 0x00, 0x0D, 0x0A, 0x51, 0x55, 0x49, 0x54, 0x0A]

  /** Network byte order. */
  function U16(v: nat): (r: seq<byte>)
    requires v < 0x1_0000
  {
    [(v / 256) as byte, (v % 256) as byte]
  }

  function FromU16(hi: byte, lo: byte): (v: nat)
    ensures v < 0x1_0000
  {
    hi as nat * 256 + lo as nat
  }

  predicate SameFamily(src: SocketAddr, dst: SocketAddr) {
    src.ip.V4? == dst.ip.V4?
  }

  // ----- The writer ---------------------------------------------------------------------

  function Header(src: SocketAddr, dst: SocketAddr): seq<byte> {
    var preamble := V2_SIG + [0x21];
    match (src.ip, dst.ip)
    case (V4(s), V4(d)) => preamble + [0x11] + U16(12) + s + d + U16(src.port) + U16(dst.port)
    case (V6(s), V6(d)) => preamble + [0x21] + U16(36) + s + d + U16(src.port) + U16(dst.port)
    case _ => preamble + [0x20] + [0x00] + U16(0)
  }

  /** The bytes of a header, field by field. */
  ghost predicate LaidOut(buf: seq<byte>, src: SocketAddr, dst: SocketAddr) {
    && |buf| > 16
    && buf[..13] == [0x0D, 0x0A, 0x0D, 0x0A, 0x00, 0x0D, 0x0A, 0x51, 0x55, 0x49, 0x54, 0x0A, 0x21]
    && match (src.ip, dst.ip)
       case (V4(s), V4(d)) =>
         && |buf| == 28 && buf[13..16] == [0x11, 0x00, 12] && buf[16..20] == s && buf[20..24] == d
         && buf[24] as nat * 256 + buf[25] as nat == src.port && buf[26] as nat * 256 + buf[27] as nat == dst.port
       case (V6(s), V6(d)) =>
         && |buf| == 52 && buf[13..16] == [0x21, 0x00, 36] && buf[16..32] == s && buf[32..48] == d
         && buf[48] as nat * 256 + buf[49] as nat == src.port && buf[50] as nat * 256 + buf[51] as nat == dst.port
       case _ => buf[13..] == [0x20, 0x00, 0x00, 0x00]
  }

  lemma HeaderIsLaidOut(src: SocketAddr, dst: SocketAddr)
    ensures LaidOut(Header(src, dst), src, dst)
  {
  }

  /** Byte by byte, as written: a header for a same-family pair is one a receiver decodes, whatever follows it. */
  method CreateV2Header(src: SocketAddr, dst: SocketAddr) returns (buf: seq<byte>)
    ensures buf == Header(src, dst) && LaidOut(buf, src, dst)
    ensures SameFamily(src, dst) ==> forall payload :: Decode(buf + payload) == Proxied(src, dst, payload)
  {
    buf := V2_SIG;
    buf := buf + [0x21];
    match (src.ip, dst.ip) {
      case (V4(s), V4(d)) =>
        buf := buf + [0x11];
        buf := buf + U16(12);
        buf := buf + s;
        buf := buf + d;
        buf := buf + U16(src.port);
        buf := buf + U16(dst.port);
      case (V6(s), V6(d)) =>
        buf := buf + [0x21];
        buf := buf + U16(36);
        buf := buf + s;
        buf := buf + d;
        buf := buf + U16(src.port);
        buf := buf + U16(dst.port);
      case _ =>
        buf := buf + [0x20];
        buf := buf + [0x00];
        buf := buf + U16(0);
    }
    HeaderIsLaidOut(src, dst);
    forall payload | SameFamily(src, dst)
      ensures Decode(buf + payload) == Proxied(src, dst, payload)
    {
      RoundTrip(src, dst, payload);
    }
  }

  // ----- The receiver -------------------------------------------------------------------

  datatype Frame = NoFrame | Frame(verCmd: byte, famProto: byte, body: seq<byte>, rest: seq<byte>)

  /** Split a byte stream at the declared length. */
  function Split(s: seq<byte>): Frame {
    if |s| < 16 || s[..12] != V2_SIG then
      NoFrame
    else
      var len := FromU16(s[14], s[15]);
      if |s| < 16 + len then NoFrame else Frame(s[12], s[13], s[16..16 + len], s[16 + len..])
  }

  datatype Decoded =
    | Malformed
    | Local(rest: seq<byte>)
    | Unspecified(rest: seq<byte>)
    | Proxied(src: SocketAddr, dst: SocketAddr, rest: seq<byte>)

  function Decode(s: seq<byte>): Decoded {
    var f := Split(s);
    if f.NoFrame? || f.verCmd / 16 != 2 || f.verCmd % 16 > 1 then
      Malformed
    else if f.verCmd % 16 == 0 then
      Local(f.rest)
    else if f.famProto == 0x11 && |f.body| >= 12 then
      var b := f.body;
      Proxied(SocketAddr(V4(b[..4]), FromU16(b[8], b[9])), SocketAddr(V4(b[4..8]), FromU16(b[10], b[11])), f.rest)
    else if f.famProto == 0x21 && |f.body| >= 36 then
      var b := f.body;
      Proxied(SocketAddr(V6(b[..16]), FromU16(b[32], b[33])), SocketAddr(V6(b[16..32]), FromU16(b[34], b[35])), f.rest)
    else
      Unspecified(f.rest)
  }

  // ----- Theorems -----------------------------------------------------------------------

  lemma Regroup(h: seq<byte>, f: seq<byte>, l: seq<byte>, s: seq<byte>, d: seq<byte>, p: seq<byte>, q: seq<byte>)
    ensures h + f + l + s + d + p + q == h + (f + l + (s + d + p + q))
  {
  }

  /** A stream that announces the length of its body splits into body and rest. */
  lemma SplitAssembled(verCmd: byte, famProto: byte, body: seq<byte>, rest: seq<byte>)
    requires |body| < 0x1_0000
    ensures Split(V2_SIG + [verCmd] + ([famProto] + U16(|body|) + body) + rest) == Frame(verCmd, famProto, body, rest)
  {
    var s := V2_SIG + [verCmd] + ([famProto] + U16(|body|) + body) + rest;
    assert s[..12] == V2_SIG;
    assert s[12] == verCmd && s[13] == famProto;
    assert s[14] == U16(|body|)[0] && s[15] == U16(|body|)[1];
    assert FromU16(s[14], s[15]) == |body|;
    assert s[16..16 + |body|] == body;
    assert s[16 + |body|..] == rest;
  }

  /** The four fields can be read back from the body. */
  lemma BodyFields(s: seq<byte>, d: seq<byte>, sp: Port, dp: Port)
    requires |s| == |d|
    ensures var body, k := s + d + U16(sp) + U16(dp), |s|;
            && |body| == 2 * k + 4
            && body[..k] == s && body[k..2 * k] == d
            && FromU16(body[2 * k], body[2 * k + 1]) == sp
            && FromU16(body[2 * k + 2], body[2 * k + 3]) == dp
  {
  }

  lemma RoundTripV4(s: Ipv4, sp: Port, d: Ipv4, dp: Port, payload: seq<byte>)
    ensures var src, dst := SocketAddr(V4(s), sp), SocketAddr(V4(d), dp);
            Decode(Header(src, dst) + payload) == Proxied(src, dst, payload)
  {
    Regroup(V2_SIG + [0x21], [0x11], U16(12), s, d, U16(sp), U16(dp));
    BodyFields(s, d, sp, dp);
    SplitAssembled(0x21, 0x11, s + d + U16(sp) + U16(dp), payload);
  }

  lemma RoundTripV6(s: Ipv6, sp: Port, d: Ipv6, dp: Port, payload: seq<byte>)
    ensures var src, dst := SocketAddr(V6(s), sp), SocketAddr(V6(d), dp);
            Decode(Header(src, dst) + payload) == Proxied(src, dst, payload)
  {
    Regroup(V2_SIG + [0x21], [0x21], U16(36), s, d, U16(sp), U16(dp));
    BodyFields(s, d, sp, dp);
    SplitAssembled(0x21, 0x21, s + d + U16(sp) + U16(dp), payload);
  }

  /** For every same-family pair and every payload, the receiver recovers both endpoints and exactly the payload. */
  lemma RoundTrip(src: SocketAddr, dst: SocketAddr, payload: seq<byte>)
    requires SameFamily(src, dst)
    ensures Decode(Header(src, dst) + payload) == Proxied(src, dst, payload)
  {
    match (src.ip, dst.ip) {
      case (V4(s), V4(d)) => RoundTripV4(s, src.port, d, dst.port, payload);
      case (V6(s), V6(d)) => RoundTripV6(s, src.port, d, dst.port, payload);
    }
  }

  /** The command byte 0x20 sits where the family byte belongs, so everything after it is read one byte early. */
  lemma ShiftOneByte(h: seq<byte>, a: seq<byte>, z: seq<byte>, payload: seq<byte>)
    requires |a| == |z| == 1
    ensures h + a + z + (z + z) + payload == h + (a + (z + z) + []) + (z + payload)
  {
    assert z + z + payload == (z + z) + payload;
    assert z + (z + z) == (z + z) + z;
  }

  lemma MixedFamilySplit(payload: seq<byte>)
    ensures Split(V2_SIG + [0x21] + [0x20] + [0x00] + U16(0) + payload) == Frame(0x21, 0x20, [], [0x00] + payload)
  {
    ShiftOneByte(V2_SIG + [0x21], [0x20], [0x00], payload);
    assert U16(0) == [0x00] + [0x00];
    SplitAssembled(0x21, 0x20, [], [0x00] + payload);
  }

  lemma DecodeUnspecified(s: seq<byte>, rest: seq<byte>)
    requires Split(s) == Frame(0x21, 0x20, [], rest)
    ensures Decode(s) == Unspecified(rest)
  {
  }

  lemma MixedFamilyHeader(src: SocketAddr, dst: SocketAddr)
    requires !SameFamily(src, dst)
    ensures Header(src, dst) == V2_SIG + [0x21] + [0x20] + [0x00] + U16(0)
    ensures |Header(src, dst)| == 17
  {
  }

  /**
    A mixed-family pair yields 17 bytes that frame as a PROXY command, not a LOCAL one, with an empty body:
    the receiver takes the last header byte for payload.
  */
  lemma MixedFamilyLeaksOneByte(src: SocketAddr, dst: SocketAddr, payload: seq<byte>)
    requires !SameFamily(src, dst)
    ensures |Header(src, dst)| == 17
    ensures Split(Header(src, dst) + payload) == Frame(0x21, 0x20, [], [0x00] + payload)
    ensures Decode(Header(src, dst) + payload) == Unspecified([0x00] + payload)
  {
    MixedFamilyHeader(src, dst);
    MixedFamilySplit(payload);
    DecodeUnspecified(Header(src, dst) + payload, [0x00] + payload);
  }

  /** The payload survives framing exactly when the two families agree. */
  lemma PayloadSurvivesIffSameFamily(src: SocketAddr, dst: SocketAddr, payload: seq<byte>)
    ensures Split(Header(src, dst) + payload).Frame?
    ensures Split(Header(src, dst) + payload).rest == payload <==> SameFamily(src, dst)
  {
    if SameFamily(src, dst) {
      RoundTrip(src, dst, payload);
    } else {
      MixedFamilyLeaksOneByte(src, dst, payload);
      assert |[0x00 as byte] + payload| != |payload|;
    }
  }

  /** Two streams with equal bytes carry the same endpoints and payload; so no header is a proper prefix of another. */
  lemma UniquelyDecodable(src: SocketAddr, dst: SocketAddr, x: seq<byte>,
                          src': SocketAddr, dst': SocketAddr, y: seq<byte>)
    requires Header(src, dst) + x == Header(src', dst') + y
    ensures x == y
    ensures SameFamily(src, dst) == SameFamily(src', dst')
    ensures SameFamily(src, dst) ==> src == src' && dst == dst'
  {
    if SameFamily(src, dst) { RoundTrip(src, dst, x); } else { MixedFamilyLeaksOneByte(src, dst, x); }
    if SameFamily(src', dst') { RoundTrip(src', dst', y); } else { MixedFamilyLeaksOneByte(src', dst', y); }
    if !SameFamily(src, dst) {
      assert ([0x00 as byte] + x)[1..] == x && ([0x00 as byte] + y)[1..] == y;
    }
  }
}
