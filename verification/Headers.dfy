/** Pseudo headers, and the UDP, IPv4 and ICMP messages whose checksums are filled in place. */
module Headers {
  import opened Words
  import opened Checksum
  import opened Wire

  // ---------------------------------------------------------------------------------------------
  // Pseudo headers
  // ---------------------------------------------------------------------------------------------

  datatype Ends = V4(src: seq<byte>, dst: seq<byte>) | V6(src: seq<byte>, dst: seq<byte>)

  predicate EndsOk(e: Ends) {
    var size := if e.V4? then 4 else 16;
    |e.src| == size && |e.dst| == size
  }

  /** What a receiver puts in front of the segment: section 3.1 of RFC 9293, section 8.1 of RFC 8200. */
  function PseudoHeader(e: Ends, proto: byte, len: u16): seq<byte> {
    e.src + e.dst + if e.V4? then [0, proto] + Be16(len) else [0, 0] + Be16(len) + [0, 0, 0, proto]
  }

  lemma PseudoHeaderSum(e: Ends, proto: byte, len: u16)
    requires EndsOk(e)
    ensures |PseudoHeader(e, proto, len)| % 2 == 0
    ensures Sum(PseudoHeader(e, proto, len)) == Sum(e.src) + Sum(e.dst) + proto + len
  {
    var tail := if e.V4? then [0, proto] + Be16(len) else [0, 0] + Be16(len) + [0, 0, 0, proto];
    SumConcatEven(e.src, e.dst);
    SumConcatEven(e.src + e.dst, tail);
    PseudoTail(e.V4?, proto, len);
  }

  lemma PseudoTail(v4: bool, proto: byte, len: u16)
    ensures Sum(if v4 then [0, proto] + Be16(len) else [0, 0] + Be16(len) + [0, 0, 0, proto]) == proto + len
  {
    FourBytes([0, proto] + Be16(len));
    SumField([0, 0], len, [0, 0, 0, proto]);
    FourBytes([0, 0, 0, proto]);
    assert [0, 0][2..] == [];
  }

  method PseudoV4(src: seq<byte>, dst: seq<byte>, proto: byte, len: u16) returns (sum: u32)
    requires |src| == 4 && |dst| == 4
    ensures sum == Sum(PseudoHeader(V4(src, dst), proto, len)) && sum <= 6 * 0xffff
  {
    PseudoHeaderSum(V4(src, dst), proto, len);
    FourBytes(src);
    FourBytes(dst);
    sum := Word(src[0], src[1]) as int + Word(src[2], src[3]) + Word(dst[0], dst[1]) + Word(dst[2], dst[3])
           + proto + len;
  }

  lemma FourBytes(a: seq<byte>)
    requires |a| == 4
    ensures Sum(a) == Word(a[0], a[1]) as int + Word(a[2], a[3])
  {
    assert Sum(a[2..]) == Word(a[2], a[3]) by { assert a[2..][2..] == []; }
  }

  method PseudoV6(src: seq<byte>, dst: seq<byte>, proto: byte, len: u16) returns (sum: u32)
    requires |src| == 16 && |dst| == 16
    ensures sum == Sum(PseudoHeader(V6(src, dst), proto, len)) && sum <= 18 * 0xffff
  {
    PseudoHeaderSum(V6(src, dst), proto, len);
    SumConcatEven(src, dst);
    var segs := src + dst;
    SumBound(segs);
    sum := proto as int + len;
    var i := 0;
    while i < 16
      invariant 0 <= i <= 16
      invariant sum + Sum(segs[2 * i..]) == proto + len + Sum(segs)
      invariant sum <= (2 + i) * 0xffff
    {
      assert segs[2 * i..][2..] == segs[2 * (i + 1)..];
      sum := sum + Word(segs[2 * i], segs[2 * i + 1]);
      i := i + 1;
    }
    assert segs[32..] == [];
  }

  method PseudoSum(e: Ends, proto: byte, len: u16) returns (sum: u32)
    requires EndsOk(e)
    ensures sum == Sum(PseudoHeader(e, proto, len)) && sum <= 18 * 0xffff
  {
    match e
    case V4(src, dst) => sum := PseudoV4(src, dst, proto, len);
    case V6(src, dst) => sum := PseudoV6(src, dst, proto, len);
  }

  /** Checking against the pseudo sum is checking the pseudo header and the segment in one. */
  lemma PseudoChecks(e: Ends, proto: byte, len: u16, segment: seq<byte>)
    requires EndsOk(e)
    ensures Check(PseudoHeader(e, proto, len) + segment, 0) == Check(segment, Sum(PseudoHeader(e, proto, len)))
  {
    PseudoHeaderSum(e, proto, len);
    SumConcatEven(PseudoHeader(e, proto, len), segment);
  }

  // ---------------------------------------------------------------------------------------------
  // A TCP segment whose payload stays in the ring
  // ---------------------------------------------------------------------------------------------

  const PROTO_TCP: byte := 6

  function TcpPseudo(e: Ends, options: seq<byte>, a: seq<byte>, b: seq<byte>): seq<byte>
    requires TCP_HDR_LEN + |options| + |a| + |b| < TWO16
  {
    PseudoHeader(e, PROTO_TCP, TCP_HDR_LEN + |options| + |a| + |b|)
  }

  /** The checksum field of a segment whose payload lies in two parts, from the 16 bytes in front of it. */
  function TcpField(e: Ends, front: seq<byte>, options: seq<byte>, a: seq<byte>, b: seq<byte>, offload: bool): int
    requires TCP_HDR_LEN + |options| + |a| + |b| < TWO16
  {
    TcpChecksum(front, options, [], Sum(TcpPseudo(e, options, a, b)) + if offload then 0 else Sum2(a, b), offload)
  }

  /**
    Without offload the receiver's check over pseudo header, header and payload comes to zero; with it,
    the device that adds up header and payload and stores the complement stores what software would have.
   */
  ghost predicate ChecksumsHold(e: Ends, front: seq<byte>, options: seq<byte>, a: seq<byte>, b: seq<byte>)
    requires TCP_HDR_LEN + |options| + |a| + |b| < TWO16
  {
    var software := TcpField(e, front, options, a, b, false);
    var partial := TcpField(e, front, options, a, b, true);
    && 0 <= software < TWO16 && 0 <= partial < TWO16
    && Check(TcpPseudo(e, options, a, b) + (Headed(front, software, UrgentAnd(options)) + a + b), 0) == 0
    && Check(Headed(front, partial, UrgentAnd(options)) + a + b, 0) == software
  }

  /** Both hold for any addresses, any header in front of the field, any options and any split of the payload. */
  lemma SegmentVerifies(e: Ends, front: seq<byte>, options: seq<byte>, a: seq<byte>, b: seq<byte>)
    requires EndsOk(e) && |front| == 16 && |options| % 4 == 0 && TCP_HDR_LEN + |options| + |a| + |b| < TWO16
    ensures ChecksumsHold(e, front, options, a, b)
  {
    var pseudo := Sum(TcpPseudo(e, options, a, b));
    TcpVerifies(front, options, a, b, pseudo);
    var software := TcpField(e, front, options, a, b, false);
    var segment := Headed(front, software, UrgentAnd(options)) + a + b;
    PseudoChecks(e, PROTO_TCP, TCP_HDR_LEN + |options| + |a| + |b|, segment);
  }

  /** What goes into the checksum besides the header. */
  method SegmentSum(e: Ends, options: seq<byte>, a: seq<byte>, b: seq<byte>, offload: bool) returns (init: u32)
    requires EndsOk(e) && TCP_HDR_LEN + |options| + |a| + |b| < TWO16
    ensures init == Sum(TcpPseudo(e, options, a, b)) + if offload then 0 else Sum2(a, b)
    ensures init + 0xffff * 30 < TWO32
  {
    init := PseudoSum(e, PROTO_TCP, TCP_HDR_LEN + |options| + |a| + |b|);
    if !offload {
      Sum2Bound(a, b);
      var payload := ComputeSum2(a, b);
      init := init + payload;
    }
  }

  /** Writes the header of such a segment; no intermediate sum leaves 32 bits. */
  method FrameTcp(hdr: array<byte>, e: Ends, f: TcpFields, options: seq<byte>, a: seq<byte>, b: seq<byte>,
                  offload: bool)
    requires EndsOk(e) && |options| <= 40 && |options| % 4 == 0 && hdr.Length == TCP_HDR_LEN + |options|
    requires hdr.Length + |a| + |b| < TWO16
    modifies hdr
    ensures var c := TcpField(e, TcpFront(f, options), options, a, b, offload);
            0 <= c < TWO16 && hdr[..] == TcpHeader(f, options, c)
  {
    var init := SegmentSum(e, options, a, b, offload);
    ghost var rest := hdr[TCP_HDR_LEN + |options|..];
    assert rest == [];
    WriteTcp(hdr, f, options, init, offload);
    assert hdr[..] == hdr[..] + rest;
  }

  lemma Sum2Bound(a: seq<byte>, b: seq<byte>)
    ensures Sum2(a, b) <= 0xffff * ((|a| + 1) / 2 + (|b| + 1) / 2)
  {
    SumBound(a);
    SumBound(b);
    SwapBound(Sum(b));
  }

  /** Fill a zeroed checksum field so that the whole buffer checks to zero. */
  method Seal(out: array<byte>, at: nat, init: u32, ghost pre: seq<byte>, ghost post: seq<byte>)
    requires |pre| == at && at % 2 == 0 && out[..] == pre + Be16(0) + post
    requires init + 0xffff * ((out.Length + 1) / 2) < TWO32
    modifies out
    ensures Check(out[..], init) == 0
    ensures exists c: u16 :: out[..] == pre + Be16(c) + post
  {
    SumBound(out[..]);
    var csum := ComputeCheck(out[..], init);
    FieldVerifies(pre, post, init, csum);
    PutField(out, at, csum, pre, post);
  }

  // ---------------------------------------------------------------------------------------------
  // UDP
  // ---------------------------------------------------------------------------------------------

  const UDP_HDR_LEN: nat := 8

  function UdpHeader(srcPort: u16, dstPort: u16, len: u16, csum: u16): seq<byte> {
    Be16(srcPort) + Be16(dstPort) + Be16(len) + Be16(csum)
  }

  datatype UdpFields = UdpFields(srcPort: u16, dstPort: u16, len: u16)

  /** Reads a header; a datagram shorter than its header, or one that says so, is malformed. */
  function ParseUdp(b: seq<byte>): Option<UdpFields> {
    if |b| < UDP_HDR_LEN || FromBe16(b[4..6]) < UDP_HDR_LEN then None
    else Some(UdpFields(FromBe16(b[0..2]), FromBe16(b[2..4]), FromBe16(b[4..6])))
  }

  /** Parsing a written header recovers its fields. */
  lemma UdpRoundTrip(srcPort: u16, dstPort: u16, len: u16, csum: u16, payload: seq<byte>)
    ensures ParseUdp(UdpHeader(srcPort, dstPort, len, csum) + payload)
            == if len < UDP_HDR_LEN then None else Some(UdpFields(srcPort, dstPort, len))
  {
    var b := UdpHeader(srcPort, dstPort, len, csum) + payload;
    assert b[0..2] == Be16(srcPort) && b[2..4] == Be16(dstPort) && b[4..6] == Be16(len);
    Be16RoundTrip(srcPort);
    Be16RoundTrip(dstPort);
    Be16RoundTrip(len);
  }

  /** A computed zero is sent as all ones, for zero means that there is no checksum. */
  function NonZero(c: int): int { if c == 0 then 0xffff else c }

  function UdpChecksum(srcPort: u16, dstPort: u16, payload: seq<byte>, pseudo: nat, offload: bool): int
    requires UDP_HDR_LEN + |payload| < TWO16
  {
    if offload then Fold(pseudo)
    else NonZero(Check(UdpHeader(srcPort, dstPort, UDP_HDR_LEN + |payload|, 0) + payload, pseudo))
  }

  /** The software checksum verifies and is never zero, and a device completing the other form agrees with it. */
  lemma UdpVerifies(srcPort: u16, dstPort: u16, payload: seq<byte>, pseudo: nat)
    requires UDP_HDR_LEN + |payload| < TWO16
    ensures var len := UDP_HDR_LEN + |payload|;
            var software := UdpChecksum(srcPort, dstPort, payload, pseudo, false);
            var partial := UdpChecksum(srcPort, dstPort, payload, pseudo, true);
            && 0 < software < TWO16 && 0 <= partial < TWO16
            && Check(UdpHeader(srcPort, dstPort, len, software) + payload, pseudo) == 0
            && NonZero(Check(UdpHeader(srcPort, dstPort, len, partial) + payload, 0)) == software
  {
    NonZeroVerifies(Be16(srcPort) + Be16(dstPort) + Be16(UDP_HDR_LEN + |payload|), payload, pseudo);
  }

  lemma NonZeroVerifies(front: seq<byte>, payload: seq<byte>, pseudo: nat)
    requires |front| % 2 == 0
    ensures var software, partial := NonZero(Check(front + Be16(0) + payload, pseudo)), Fold(pseudo);
            && 0 < software < TWO16 && 0 <= partial < TWO16
            && Check(front + Be16(software) + payload, pseudo) == 0
            && NonZero(Check(front + Be16(partial) + payload, 0)) == software
  {
    FoldSame(pseudo);
    FoldSame(pseudo + Sum(front + Be16(0) + payload));
    FieldVerifies(front, payload, pseudo, NonZero(Check(front + Be16(0) + payload, pseudo)));
    OffloadAgrees(front, payload, pseudo);
  }

  /**
    Writes the header in front of the payload that the buffer already holds: a receiver reads the ports and the
    length of the whole datagram from it, and the software checksum verifies.
   */
  method WriteUdp(out: array<byte>, srcPort: u16, dstPort: u16, pseudo: u32, offload: bool)
    requires UDP_HDR_LEN <= out.Length < TWO16
    requires pseudo + 0xffff * ((out.Length + 1) / 2) < TWO32
    modifies out
    ensures out[UDP_HDR_LEN..] == old(out[UDP_HDR_LEN..])
    ensures ParseUdp(out[..]) == Some(UdpFields(srcPort, dstPort, out.Length))
    ensures !offload ==> Check(out[..], pseudo) == 0 && FromBe16(out[6..8]) != 0
    ensures var payload := old(out[UDP_HDR_LEN..]);
            var c := UdpChecksum(srcPort, dstPort, payload, pseudo, offload);
            0 <= c < TWO16 && out[..] == UdpHeader(srcPort, dstPort, out.Length, c) + payload
  {
    ghost var payload := out[UDP_HDR_LEN..];
    UdpVerifies(srcPort, dstPort, payload, pseudo);
    Put(out, 0, Be16(srcPort));
    Put(out, 2, Be16(dstPort));
    Put(out, 4, Be16(out.Length));
    ghost var front := out[..6];
    Put(out, 6, Be16(0));
    assert out[UDP_HDR_LEN..] == payload;
    assert out[..] == front + Be16(0) + payload;
    assert front == Be16(srcPort) + Be16(dstPort) + Be16(out.Length);
    SumBound(out[..]);
    var csum: u16;
    if offload {
      csum := ComputeFold(pseudo);
    } else {
      csum := ComputeCheck(out[..], pseudo);
      if csum == 0 {
        csum := 0xffff;
      }
    }
    PutField(out, 6, csum, front, payload);
    assert out[..] == UdpHeader(srcPort, dstPort, out.Length, csum) + payload;
    Written(out[..], srcPort, dstPort, csum, payload);
  }

  lemma Written(b: seq<byte>, srcPort: u16, dstPort: u16, csum: u16, payload: seq<byte>)
    requires UDP_HDR_LEN <= |b| < TWO16 && b == UdpHeader(srcPort, dstPort, |b|, csum) + payload
    ensures b[UDP_HDR_LEN..] == payload && ParseUdp(b) == Some(UdpFields(srcPort, dstPort, |b|))
    ensures FromBe16(b[6..8]) == csum
  {
    UdpRoundTrip(srcPort, dstPort, |b|, csum, payload);
    assert b[6..8] == Be16(csum);
    Be16RoundTrip(csum);
  }

  // ---------------------------------------------------------------------------------------------
  // IPv4
  // ---------------------------------------------------------------------------------------------

  const IPV4_HDR_LEN: nat := 20

  function Ipv4Front(proto: byte, payloadLen: nat): seq<byte>
    requires IPV4_HDR_LEN + payloadLen < TWO16
  {
    [0x45, 0] + Be16(IPV4_HDR_LEN + payloadLen) + [0, 0, 0x40, 0, 64, proto]
  }

  datatype Ipv4Fields = Ipv4Fields(src: seq<byte>, dst: seq<byte>, proto: byte, headerLen: nat, totalLen: u16)

  /** Reads a header; fragments are turned away, since their payload need not start with another header. */
  function ParseIpv4(b: seq<byte>): Option<Ipv4Fields> {
    if |b| < IPV4_HDR_LEN || b[0] / 16 != 4 then None
    else
      var headerLen := b[0] % 16 * 4;
      if headerLen < IPV4_HDR_LEN || |b| < headerLen || b[6] % 0x40 != 0 || b[7] != 0 then None
      else Some(Ipv4Fields(b[12..16], b[16..20], b[9], headerLen, FromBe16(b[2..4])))
  }

  lemma Ipv4Reads(b: seq<byte>, src: seq<byte>, dst: seq<byte>, proto: byte, payloadLen: nat)
    requires |b| == IPV4_HDR_LEN && |src| == 4 && |dst| == 4 && IPV4_HDR_LEN + payloadLen < TWO16
    requires b[..10] == Ipv4Front(proto, payloadLen) && b[12..16] == src && b[16..] == dst
    ensures ParseIpv4(b) == Some(Ipv4Fields(src, dst, proto, IPV4_HDR_LEN, IPV4_HDR_LEN + payloadLen))
  {
    var front := Ipv4Front(proto, payloadLen);
    assert forall i :: 0 <= i < 10 ==> b[i] == b[..10][i] == front[i];
    assert b[2..4] == front[2..4] == Be16(IPV4_HDR_LEN + payloadLen);
    assert b[16..20] == b[16..];
    Be16RoundTrip(IPV4_HDR_LEN + payloadLen);
  }

  /**
    Fills a 20-byte header in front of `payloadLen` bytes: the header checks to zero, and a receiver reads the
    addresses, the protocol and the length of the whole packet from it.
   */
  method WriteIpv4(out: array<byte>, src: seq<byte>, dst: seq<byte>, proto: byte, payloadLen: nat)
    requires out.Length == IPV4_HDR_LEN && |src| == 4 && |dst| == 4
    requires IPV4_HDR_LEN + payloadLen < TWO16
    modifies out
    ensures Check(out[..], 0) == 0
    ensures ParseIpv4(out[..]) == Some(Ipv4Fields(src, dst, proto, IPV4_HDR_LEN, IPV4_HDR_LEN + payloadLen))
    ensures out[..10] == Ipv4Front(proto, payloadLen) && out[12..16] == src && out[16..] == dst
  {
    ghost var front := Ipv4Front(proto, payloadLen);
    Put(out, 0, Ipv4Front(proto, payloadLen));
    assert out[..10] == front;
    Put(out, 10, Be16(0));
    Put(out, 12, src);
    Put(out, 16, dst);
    assert out[..] == out[..20] == front + Be16(0) + src + dst;
    assert out[..] == front + Be16(0) + (src + dst);
    Seal(out, 10, 0, front, src + dst);
    ghost var c: u16 :| out[..] == front + Be16(c) + (src + dst);
    assert out[10..12] == Be16(c);
    assert out[..][..10] == front && out[..][12..16] == src && out[..][16..] == dst;
    Ipv4Reads(out[..], src, dst, proto, payloadLen);
  }

  // ---------------------------------------------------------------------------------------------
  // ICMP
  // ---------------------------------------------------------------------------------------------

  const ICMP_HDR_LEN: nat := 8

  datatype Echo = Echo(icmpType: byte, id: u16)

  /** Reads an echo header; only messages with code 0 are echoes. */
  function ParseEcho(b: seq<byte>): Option<Echo> {
    if |b| < ICMP_HDR_LEN || b[1] != 0 then None else Some(Echo(b[0], FromBe16(b[4..6])))
  }

  /** Checksum a message whose checksum field is still zero. */
  method SealIcmp(msg: array<byte>, pseudo: u32)
    requires ICMP_HDR_LEN <= msg.Length && msg[2..4] == Be16(0)
    requires pseudo + 0xffff * ((msg.Length + 1) / 2) < TWO32
    modifies msg
    ensures Check(msg[..], pseudo) == 0
    ensures msg[..2] == old(msg[..2]) && msg[4..] == old(msg[4..])
  {
    ghost var front, rest := msg[..2], msg[4..];
    assert msg[..] == front + Be16(0) + rest;
    Seal(msg, 2, pseudo, front, rest);
    ghost var c: u16 :| msg[..] == front + Be16(c) + rest;
    assert msg[..2] == front && msg[4..] == rest;
  }

  /** The echo identifier becomes `id`, nothing else but the checksum changes, and the checksum verifies. */
  method PatchId(msg: array<byte>, id: u16, pseudo: u32)
    requires ICMP_HDR_LEN <= msg.Length
    requires pseudo + 0xffff * ((msg.Length + 1) / 2) < TWO32
    modifies msg
    ensures Check(msg[..], pseudo) == 0
    ensures msg[..2] == old(msg[..2]) && msg[6..] == old(msg[6..])
    ensures ParseEcho(msg[..]) == if old(msg[1]) != 0 then None else Some(Echo(old(msg[0]), id))
  {
    ghost var front, rest := msg[..2], msg[6..];
    Put(msg, 4, Be16(id));
    assert msg[4..6] == msg[..6][4..] == Be16(id) && msg[..2] == msg[..6][..2];
    Put(msg, 2, Be16(0));
    assert msg[..2] == msg[..4][..2] == front;
    assert msg[2..4] == msg[..4][2..] == Be16(0);
    assert msg[4..] == Be16(id) + rest;
    SealIcmp(msg, pseudo);
    assert msg[4..6] == msg[4..][..2] && msg[6..] == msg[4..][2..];
    assert msg[..][4..6] == Be16(id) && msg[..2] == front && msg[0] == front[0] && msg[1] == front[1];
    Be16RoundTrip(id);
  }

  /** The header of an error message whose excerpt the buffer already holds. */
  method WriteUnreachable(msg: array<byte>, icmpType: byte, code: byte, pseudo: u32)
    requires ICMP_HDR_LEN <= msg.Length
    requires pseudo + 0xffff * ((msg.Length + 1) / 2) < TWO32
    modifies msg
    ensures Check(msg[..], pseudo) == 0
    ensures msg[..2] == [icmpType, code] && msg[4..8] == [0, 0, 0, 0] && msg[8..] == old(msg[8..])
  {
    ghost var excerpt := msg[8..];
    Put(msg, 0, [icmpType, code, 0, 0, 0, 0, 0, 0]);
    assert msg[..2] == msg[..8][..2] && msg[2..4] == msg[..8][2..4];
    assert msg[4..] == [0, 0, 0, 0] + excerpt;
    SealIcmp(msg, pseudo);
    assert msg[4..8] == msg[4..][..4] && msg[8..] == msg[4..][4..];
  }
}
