/** TCP, UDP and IPv4 headers on the wire: what is written, what is parsed back, and that checksums verify. */
module Wire {
  import opened Words
  import opened Checksum
  import opened TcpModel

  function Be32(x: u32): seq<byte> { Be16(x / 0x1_0000) + Be16(x % 0x1_0000) }

  function FromBe16(b: seq<byte>): u16
    requires |b| == 2
  {
    Word(b[0], b[1])
  }

  function FromBe32(b: seq<byte>): u32
    requires |b| == 4
  {
    var hi: int, lo: int := FromBe16(b[..2]), FromBe16(b[2..]);
    hi * 0x1_0000 + lo
  }

  lemma Be16RoundTrip(x: u16)
    ensures FromBe16(Be16(x)) == x
  {
  }

  lemma Be32RoundTrip(x: u32)
    ensures FromBe32(Be32(x)) == x
  {
    assert Be32(x)[..2] == Be16(x / 0x1_0000) && Be32(x)[2..] == Be16(x % 0x1_0000);
  }

  // ---------------------------------------------------------------------------------------------
  // TCP
  // ---------------------------------------------------------------------------------------------

  const TCP_HDR_LEN: nat := 20

  datatype TcpFields = TcpFields(srcPort: u16, dstPort: u16, seqno: u32, ackno: u32, flags: byte, window: u16)

  /** The bytes in front of the checksum field. */
  function TcpFront(f: TcpFields, options: seq<byte>): seq<byte>
    requires |options| <= 40
  {
    Be16(f.srcPort) + Be16(f.dstPort) + Be32(f.seqno) + Be32(f.ackno)
    + [(TCP_HDR_LEN + |options|) / 4 * 16, f.flags] + Be16(f.window)
  }

  /** What follows the checksum field: a zero urgent pointer and the options. */
  function UrgentAnd(options: seq<byte>): seq<byte> { [0, 0] + options }

  function TcpHeader(f: TcpFields, options: seq<byte>, csum: u16): seq<byte>
    requires |options| <= 40
  {
    Headed(TcpFront(f, options), csum, UrgentAnd(options))
  }

  lemma TcpFrontLen(f: TcpFields, options: seq<byte>)
    requires |options| <= 40
    ensures |TcpFront(f, options)| == 16
  {
  }

  /** The checksum field: complete, or the folded pseudo sum for the device to complete. */
  function TcpChecksum(front: seq<byte>, options: seq<byte>, rest: seq<byte>, pseudo: nat, offload: bool): int {
    if offload then Fold(pseudo) else Check(Headed(front, 0, UrgentAnd(options)) + rest, pseudo)
  }

  lemma SoftwareForm(front: seq<byte>, options: seq<byte>, init: nat)
    ensures TcpChecksum(front, options, [], init, false) == Check(Headed(front, 0, UrgentAnd(options)), init)
  {
    assert Headed(front, 0, UrgentAnd(options)) + [] == Headed(front, 0, UrgentAnd(options));
  }

  /**
    The software checksum of a segment whose payload lies in two parts, computed from the header and
    the payload's split sum, makes the contiguous segment check to zero against the pseudo sum; and a
    device that completes the offloaded field writes the very value that software computes. Both hold
    whatever the 16 bytes in front of the field say.
   */
  lemma TcpVerifies(front: seq<byte>, options: seq<byte>, a: seq<byte>, b: seq<byte>, pseudo: nat)
    requires |front| == 16 && |options| % 4 == 0
    ensures var software := TcpChecksum(front, options, [], pseudo + Sum2(a, b), false);
            var partial := TcpChecksum(front, options, [], pseudo, true);
            && 0 <= software < TWO16 && 0 <= partial < TWO16
            && Check(Headed(front, software, UrgentAnd(options)) + a + b, pseudo) == 0
            && Check(Headed(front, partial, UrgentAnd(options)) + a + b, 0) == software
  {
    SoftwareForm(front, options, pseudo + Sum2(a, b));
    SplitField(front, UrgentAnd(options), a, b, pseudo);
  }

  // ---------------------------------------------------------------------------------------------
  // Parsing
  // ---------------------------------------------------------------------------------------------

  /** What the parser keeps of the options. */
  datatype Offers = Offers(mss: Option<u16>, wscale: Option<byte>)

  function TakeOption(o: Offers, opt: seq<byte>): Offers
    requires opt != []
  {
    if opt[0] == 2 && |opt| == 4 then o.(mss := Some(FromBe16(opt[2..])))
    else if opt[0] == 3 && |opt| == 3 then o.(wscale := Some(opt[2]))
    else o
  }

  /** Options up to the end marker; a length byte below two counts as two. */
  function ParseOptions(opts: seq<byte>, o: Offers): Option<Offers>
    decreases |opts|
  {
    if opts == [] || opts[0] == 0 then Some(o)
    else if opts[0] == 1 then ParseOptions(opts[1..], o)
    else if |opts| < 2 || Max(opts[1], 2) > |opts| then None
    else ParseOptions(opts[Max(opts[1], 2)..], TakeOption(o, opts[..Max(opts[1], 2)]))
  }

  datatype TcpView = TcpView(fields: TcpFields, headerLen: nat, offers: Offers)

  function ParseFields(b: seq<byte>): TcpFields
    requires |b| >= TCP_HDR_LEN
  {
    TcpFields(FromBe16(b[0..2]), FromBe16(b[2..4]), FromBe32(b[4..8]), FromBe32(b[8..12]), b[13], FromBe16(b[14..16]))
  }

  function ParseTcp(b: seq<byte>): Option<TcpView> {
    if |b| < TCP_HDR_LEN then None
    else
      var headerLen := b[12] / 16 * 4;
      if headerLen < TCP_HDR_LEN || |b| < headerLen then None
      else
        match ParseOptions(b[TCP_HDR_LEN..headerLen], Offers(None, None))
        case None => None
        case Some(offers) => Some(TcpView(ParseFields(b), headerLen, offers))
  }

  /** The loop over the options; it terminates on every input. */
  method ScanOptions(options: seq<byte>) returns (r: Option<Offers>)
    ensures r == ParseOptions(options, Offers(None, None))
  {
    var opts, offers := options, Offers(None, None);
    while opts != []
      invariant ParseOptions(opts, offers) == ParseOptions(options, Offers(None, None))
      decreases |opts|
    {
      var kind := opts[0];
      if kind == 0 {
        break;
      }
      if kind == 1 {
        opts := opts[1..];
        continue;
      }
      if |opts| < 2 {
        return None;
      }
      var len := Max(opts[1], 2);
      if len > |opts| {
        return None;
      }
      offers := TakeOption(offers, opts[..len]);
      opts := opts[len..];
    }
    r := Some(offers);
  }

  /** An option as RFC 9293 has it; options other than MSS and window scale are skipped by their length. */
  datatype TcpOption = Nop | Mss(value: u16) | WindowScale(shift: byte) | Other(kind: byte, data: seq<byte>)

  predicate WellFormed(o: TcpOption) {
    o.Other? ==>
      2 <= o.kind && |o.data| <= 253 && !(o.kind == 2 && |o.data| == 2) && !(o.kind == 3 && |o.data| == 1)
  }

  function EncodeOption(o: TcpOption): seq<byte>
    requires WellFormed(o)
  {
    match o
    case Nop => [1]
    case Mss(value) => [2, 4] + Be16(value)
    case WindowScale(shift) => [3, 3, shift]
    case Other(kind, data) => [kind, 2 + |data|] + data
  }

  function EncodeOptions(os: seq<TcpOption>): seq<byte>
    requires forall i :: 0 <= i < |os| ==> WellFormed(os[i])
  {
    if os == [] then [] else EncodeOption(os[0]) + EncodeOptions(os[1..])
  }

  /** The last MSS and the last window scale win. */
  function Offered(os: seq<TcpOption>, o: Offers): Offers {
    if os == [] then o
    else
      match os[0]
      case Mss(value) => Offered(os[1..], o.(mss := Some(value)))
      case WindowScale(shift) => Offered(os[1..], o.(wscale := Some(shift)))
      case _ => Offered(os[1..], o)
  }

  lemma OptionParses(o: TcpOption, rest: seq<byte>, offers: Offers)
    requires WellFormed(o)
    ensures ParseOptions(EncodeOption(o) + rest, offers) == ParseOptions(rest, Offered([o], offers))
  {
    var enc := EncodeOption(o);
    assert (enc + rest)[|enc|..] == rest;
    assert (enc + rest)[..|enc|] == enc;
    assert [o][1..] == [];
    if o.Mss? { assert enc[2..] == Be16(o.value); }
  }

  /** Parsing a well-formed option list, ended by the header or by an end marker, recovers what it offers. */
  lemma {:induction false} OptionsRoundTrip(os: seq<TcpOption>, tail: seq<byte>, offers: Offers)
    requires forall i :: 0 <= i < |os| ==> WellFormed(os[i])
    requires tail == [] || tail[0] == 0
    ensures ParseOptions(EncodeOptions(os) + tail, offers) == Some(Offered(os, offers))
    decreases |os|
  {
    if os == [] {
      assert EncodeOptions(os) + tail == tail;
    } else {
      var rest := EncodeOptions(os[1..]) + tail;
      assert EncodeOptions(os) + tail == EncodeOption(os[0]) + rest;
      OptionParses(os[0], rest, offers);
      OptionsRoundTrip(os[1..], tail, Offered([os[0]], offers));
      assert [os[0]][1..] == [];
    }
  }

  lemma TcpFrontFields(f: TcpFields, options: seq<byte>)
    requires |options| <= 40
    ensures var b := TcpFront(f, options);
            && |b| == 16 && b[0..2] == Be16(f.srcPort) && b[2..4] == Be16(f.dstPort) && b[4..8] == Be32(f.seqno)
            && b[8..12] == Be32(f.ackno) && b[12] == (TCP_HDR_LEN + |options|) / 4 * 16 && b[13] == f.flags
            && b[14..16] == Be16(f.window)
  {
  }

  lemma TcpHeaderSlices(front: seq<byte>, csum: u16, options: seq<byte>, payload: seq<byte>)
    requires |front| == 16
    ensures var b := front + Be16(csum) + ([0, 0] + options) + payload;
            b[..16] == front && b[20..20 + |options|] == options
  {
  }

  lemma FieldsRoundTrip(f: TcpFields, options: seq<byte>, b: seq<byte>)
    requires |options| <= 40 && |b| >= TCP_HDR_LEN && b[..16] == TcpFront(f, options)
    ensures ParseFields(b) == f && b[12] == (TCP_HDR_LEN + |options|) / 4 * 16
  {
    var front := TcpFront(f, options);
    TcpFrontFields(f, options);
    Prefixed(b, front, 0, 2);
    Prefixed(b, front, 2, 4);
    Prefixed(b, front, 4, 8);
    Prefixed(b, front, 8, 12);
    Prefixed(b, front, 14, 16);
    assert b[12] == b[..16][12] && b[13] == b[..16][13];
    Be16RoundTrip(f.srcPort);
    Be16RoundTrip(f.dstPort);
    Be32RoundTrip(f.seqno);
    Be32RoundTrip(f.ackno);
    Be16RoundTrip(f.window);
  }

  /** The data offset counts words in the high half of its byte. */
  lemma DataOffset(len: nat)
    requires len % 4 == 0
    ensures len / 4 * 16 / 16 * 4 == len
  {
  }

  lemma TcpHeaderParts(f: TcpFields, options: seq<byte>, csum: u16, payload: seq<byte>)
    requires |options| <= 40 && |options| % 4 == 0
    ensures var b, len := TcpHeader(f, options, csum) + payload, TCP_HDR_LEN + |options|;
            |b| >= len && b[12] / 16 * 4 == len && b[TCP_HDR_LEN..len] == options && ParseFields(b) == f
  {
    TcpFrontLen(f, options);
    TcpHeaderSlices(TcpFront(f, options), csum, options, payload);
    FieldsRoundTrip(f, options, TcpHeader(f, options, csum) + payload);
    DataOffset(TCP_HDR_LEN + |options|);
  }

  /** Parsing a written header recovers every field and the options it was written with. */
  lemma TcpRoundTrip(f: TcpFields, os: seq<TcpOption>, tail: seq<byte>, csum: u16, payload: seq<byte>)
    requires forall i :: 0 <= i < |os| ==> WellFormed(os[i])
    requires tail == [] || tail[0] == 0
    requires var options := EncodeOptions(os) + tail; |options| <= 40 && |options| % 4 == 0
    ensures var options := EncodeOptions(os) + tail;
            ParseTcp(TcpHeader(f, options, csum) + payload)
            == Some(TcpView(f, TCP_HDR_LEN + |options|, Offered(os, Offers(None, None))))
  {
    var options := EncodeOptions(os) + tail;
    var b := TcpHeader(f, options, csum) + payload;
    TcpHeaderParts(f, options, csum, payload);
    OptionsRoundTrip(os, tail, Offers(None, None));
  }

  lemma Prefixed(b: seq<byte>, front: seq<byte>, lo: nat, hi: nat)
    requires lo <= hi <= |front| <= |b| && b[..|front|] == front
    ensures b[lo..hi] == front[lo..hi]
  {
    forall i | lo <= i < hi ensures b[i] == front[i] {
      assert b[..|front|][i] == b[i];
    }
  }

  /** What a guest reads from the options of the SYN-ACK. */
  lemma SynAckParses(scaled: bool)
    ensures ParseOptions(SynAckOptions(scaled), Offers(None, None))
            == Some(Offers(Some(65495), if scaled then Some(7) else None))
  {
    var shift, plain := [WindowScale(7)], [Mss(65495)];
    var os := if scaled then plain + ([Nop] + shift) else plain;
    assert EncodeOptions(shift) == [3, 3, 7] by { assert shift[1..] == []; }
    assert EncodeOptions([Nop] + shift) == [1, 3, 3, 7] by { assert ([Nop] + shift)[1..] == shift; }
    assert Be16(65495) == [0xff, 0xd7];
    assert os[1..] == if scaled then [Nop] + shift else [];
    OptionsRoundTrip(os, [], Offers(None, None));
    assert EncodeOptions(os) + [] == SynAckOptions(scaled);
    assert Offered(os, Offers(None, None)) == Offered(os[1..], Offers(Some(65495), None));
    if scaled {
      assert ([Nop] + shift)[1..] == shift && shift[1..] == [];
      assert Offered([Nop] + shift, Offers(Some(65495), None)) == Offered(shift, Offers(Some(65495), None));
    }
  }

  method ParseHeader(b: seq<byte>) returns (r: Option<TcpView>)
    ensures r == ParseTcp(b)
  {
    if |b| < TCP_HDR_LEN {
      return None;
    }
    var headerLen := b[12] / 16 * 4;
    if headerLen < TCP_HDR_LEN || |b| < headerLen {
      return None;
    }
    var offers := ScanOptions(b[TCP_HDR_LEN..headerLen]);
    r := if offers.None? then None else Some(TcpView(ParseFields(b), headerLen, offers.value));
  }

  // ---------------------------------------------------------------------------------------------
  // Writing in place
  // ---------------------------------------------------------------------------------------------

  /** Copy `b` into the buffer at offset `at`. */
  method Put(out: array<byte>, at: nat, b: seq<byte>)
    requires at + |b| <= out.Length
    modifies out
    ensures out[..at + |b|] == old(out[..at]) + b
    ensures forall i :: at + |b| <= i < out.Length ==> out[i] == old(out[i])
  {
    forall i | 0 <= i < |b| {
      out[at + i] := b[i];
    }
  }

  /** Writes a header in front of whatever payload the buffer already holds behind it. */
  method WriteTcp(out: array<byte>, f: TcpFields, options: seq<byte>, pseudo: u32, offload: bool)
    requires |options| <= 40 && |options| % 4 == 0 && TCP_HDR_LEN + |options| <= out.Length
    requires pseudo + 0xffff * ((out.Length + 1) / 2) < TWO32
    modifies out
    ensures var rest := old(out[TCP_HDR_LEN + |options|..]);
            var c := TcpChecksum(TcpFront(f, options), options, rest, pseudo, offload);
            0 <= c < TWO16 && out[..] == TcpHeader(f, options, c) + rest
  {
    ghost var rest := out[TCP_HDR_LEN + |options|..];
    WriteFront(out, f, options);
    WriteRest(out, options);
    TcpFrontLen(f, options);
    FillChecksum(out, TcpFront(f, options), options, rest, pseudo, offload);
  }

  method WriteFront(out: array<byte>, f: TcpFields, options: seq<byte>)
    requires |options| <= 40 && TCP_HDR_LEN + |options| <= out.Length
    modifies out
    ensures out[..16] == TcpFront(f, options)
    ensures forall i :: 16 <= i < out.Length ==> out[i] == old(out[i])
  {
    Put(out, 0, Be16(f.srcPort));
    Put(out, 2, Be16(f.dstPort));
    Put(out, 4, Be32(f.seqno));
    Put(out, 8, Be32(f.ackno));
    Put(out, 12, [(TCP_HDR_LEN + |options|) / 4 * 16, f.flags]);
    Put(out, 14, Be16(f.window));
  }

  /** A zero checksum, a zero urgent pointer and the options. */
  method WriteRest(out: array<byte>, options: seq<byte>)
    requires TCP_HDR_LEN + |options| <= out.Length
    modifies out
    ensures out[..] == Headed(old(out[..16]), 0, UrgentAnd(options)) + old(out[TCP_HDR_LEN + |options|..])
  {
    ghost var front, rest := out[..16], out[TCP_HDR_LEN + |options|..];
    Put(out, 16, [0, 0, 0, 0]);
    Put(out, TCP_HDR_LEN, options);
    assert out[..] == out[..TCP_HDR_LEN + |options|] + out[TCP_HDR_LEN + |options|..];
    assert out[TCP_HDR_LEN + |options|..] == rest;
    assert Headed(front, 0, UrgentAnd(options)) == front + [0, 0, 0, 0] + options;
  }

  method FillChecksum(out: array<byte>, ghost front: seq<byte>, ghost options: seq<byte>, ghost rest: seq<byte>,
                      pseudo: u32, offload: bool)
    requires |front| == 16 && out[..] == Headed(front, 0, UrgentAnd(options)) + rest
    requires pseudo + 0xffff * ((out.Length + 1) / 2) < TWO32
    modifies out
    ensures var c := TcpChecksum(front, options, rest, pseudo, offload);
            0 <= c < TWO16 && out[..] == Headed(front, c, UrgentAnd(options)) + rest
  {
    SumBound(out[..]);
    var csum: u16;
    if offload {
      csum := ComputeFold(pseudo);
    } else {
      csum := ComputeCheck(out[..], pseudo);
    }
    HeadedParts(front, 0, options, rest);
    HeadedParts(front, csum, options, rest);
    PutField(out, 16, csum, front, [0, 0] + options + rest);
  }

  lemma HeadedParts(front: seq<byte>, csum: u16, options: seq<byte>, rest: seq<byte>)
    ensures Headed(front, csum, UrgentAnd(options)) + rest == front + Be16(csum) + ([0, 0] + options + rest)
  {
  }

  /** Fill in a zeroed 16-bit field. */
  method PutField(out: array<byte>, at: nat, x: u16, ghost pre: seq<byte>, ghost post: seq<byte>)
    requires |pre| == at && out[..] == pre + Be16(0) + post
    modifies out
    ensures out[..] == pre + Be16(x) + post
  {
    assert out[..at] == pre && out[at + 2..] == post;
    Put(out, at, Be16(x));
    assert out[at + 2..] == post;
    assert out[..] == out[..at + 2] + out[at + 2..];
  }
}
