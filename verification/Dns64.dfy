/** Discovery of the NAT64 prefix from a DNS response (RFC 7050), and embedding into it (RFC 6052). */
module Dns64 {
  import opened Words
  import opened Checksum
  import opened Wire

  // ---------------------------------------------------------------------------------------------
  // The parser
  // ---------------------------------------------------------------------------------------------

  /** Where a name ends: behind its root label, or behind a compression pointer. */
  function SkipName(b: seq<byte>, i: nat): Option<nat>
    decreases |b| - i
  {
    if i >= |b| then None
    else if b[i] >= 0xc0 then Some(i + 2)
    else if b[i] == 0 then Some(i + 1)
    else SkipName(b, i + 1 + b[i])
  }

  function SkipQuestions(b: seq<byte>, i: nat, count: nat): Option<nat>
    decreases count
  {
    if count == 0 then Some(i)
    else
      match SkipName(b, i)
      case None => None
      case Some(j) => SkipQuestions(b, j + 4, count - 1)
  }

  /** 192.0.0.170 and 192.0.0.171 */
  predicate WellKnown(v4: seq<byte>) {
    |v4| == 4 && v4[0] == 192 && v4[1] == 0 && v4[2] == 0 && (v4[3] == 170 || v4[3] == 171)
  }

  datatype Answer = Answer(rtype: u16, rdata: seq<byte>)

  /** Type and data of the record whose name ends at `j`. */
  function ReadAnswer(b: seq<byte>, j: nat): Option<Answer> {
    if |b| < j + 10 then None
    else
      var rdlen := FromBe16(b[j + 8..j + 10]);
      if |b| < j + 10 + rdlen then None
      else Some(Answer(FromBe16(b[j..j + 2]), b[j + 10..j + 10 + rdlen]))
  }

  predicate Slash96(prefix: seq<byte>) {
    |prefix| == 16 && prefix[12] == 0 && prefix[13] == 0 && prefix[14] == 0 && prefix[15] == 0
  }

  /** The prefix around a well-known address in an AAAA record. */
  function PrefixIn(a: Answer): (r: Option<seq<byte>>)
    ensures r.Some? ==> Slash96(r.value)
  {
    if a.rtype == 28 && |a.rdata| == 16 && WellKnown(a.rdata[12..]) then Some(a.rdata[..12] + [0, 0, 0, 0])
    else None
  }

  function ScanAnswers(b: seq<byte>, i: nat, count: nat): (r: Option<seq<byte>>)
    ensures r.Some? ==> Slash96(r.value)
    decreases count
  {
    if count == 0 then None
    else
      match SkipName(b, i)
      case None => None
      case Some(j) =>
        match ReadAnswer(b, j)
        case None => None
        case Some(a) =>
          if PrefixIn(a).Some? then PrefixIn(a) else ScanAnswers(b, j + 10 + |a.rdata|, count - 1)
  }

  /** Whatever the input, only a /96 prefix is ever discovered. */
  function ParsePrefix(b: seq<byte>): (r: Option<seq<byte>>)
    ensures r.Some? ==> Slash96(r.value)
  {
    if |b| < 8 then None
    else
      match SkipQuestions(b, 12, FromBe16(b[4..6]))
      case None => None
      case Some(i) => ScanAnswers(b, i, FromBe16(b[6..8]))
  }

  // ---------------------------------------------------------------------------------------------
  // The loops
  // ---------------------------------------------------------------------------------------------

  method SkipNameAt(b: seq<byte>, start: nat) returns (r: Option<nat>)
    ensures r == SkipName(b, start)
  {
    var i := start;
    while i < |b|
      invariant SkipName(b, i) == SkipName(b, start)
    {
      var len := b[i];
      if len >= 0xc0 {
        return Some(i + 2);
      }
      if len == 0 {
        return Some(i + 1);
      }
      i := i + 1 + len;
    }
    r := None;
  }

  method SkipQuestionsAt(b: seq<byte>, start: nat, count: nat) returns (r: Option<nat>)
    ensures r == SkipQuestions(b, start, count)
  {
    var i := start;
    for k := 0 to count
      invariant SkipQuestions(b, i, count - k) == SkipQuestions(b, start, count)
    {
      var j := SkipNameAt(b, i);
      if j.None? {
        return None;
      }
      i := j.value + 4;
    }
    r := Some(i);
  }

  lemma ScanStep(b: seq<byte>, i: nat, count: nat, j: nat, a: Answer)
    requires count > 0 && SkipName(b, i) == Some(j) && ReadAnswer(b, j) == Some(a)
    ensures ScanAnswers(b, i, count)
            == if PrefixIn(a).Some? then PrefixIn(a) else ScanAnswers(b, j + 10 + |a.rdata|, count - 1)
  {
  }

  /** One turn of the loop over the answers: the result, or where the next record starts. */
  method ScanOne(b: seq<byte>, i: nat, ghost count: nat) returns (done: bool, r: Option<seq<byte>>, next: nat)
    requires count > 0
    ensures done ==> r == ScanAnswers(b, i, count)
    ensures !done ==> ScanAnswers(b, i, count) == ScanAnswers(b, next, count - 1)
  {
    var j := SkipNameAt(b, i);
    if j.None? {
      return true, None, 0;
    }
    var a := ReadAnswer(b, j.value);
    if a.None? {
      return true, None, 0;
    }
    ScanStep(b, i, count, j.value, a.value);
    r := PrefixIn(a.value);
    done, next := r.Some?, j.value + 10 + |a.value.rdata|;
  }

  method ScanAnswersAt(b: seq<byte>, start: nat, count: nat) returns (r: Option<seq<byte>>)
    ensures r == ScanAnswers(b, start, count)
  {
    var i: nat := start;
    for k := 0 to count
      invariant ScanAnswers(b, i, count - k) == ScanAnswers(b, start, count)
    {
      var done, prefix, next := ScanOne(b, i, count - k);
      if done {
        return prefix;
      }
      i := next;
    }
    r := None;
  }

  method FindPrefix(b: seq<byte>) returns (r: Option<seq<byte>>)
    ensures r == ParsePrefix(b)
  {
    if |b| < 8 {
      return None;
    }
    var i := SkipQuestionsAt(b, 12, FromBe16(b[4..6]));
    if i.None? {
      return None;
    }
    r := ScanAnswersAt(b, i.value, FromBe16(b[6..8]));
  }

  // ---------------------------------------------------------------------------------------------
  // Responses
  // ---------------------------------------------------------------------------------------------

  /** Labels of 1 to 63 bytes, then the root label or a compression pointer. */
  datatype Name = Name(labels: seq<seq<byte>>, pointer: Option<u16>)
  datatype Question = Question(name: Name, qtype: u16, qclass: u16)
  datatype Record = Record(name: Name, rtype: u16, rclass: u16, ttl: u32, rdata: seq<byte>)
  datatype Response = Response(id: u16, flags: u16, questions: seq<Question>, answers: seq<Record>, rest: seq<byte>,
                               nscount: u16, arcount: u16)

  predicate NameOk(n: Name) {
    && (forall k :: 0 <= k < |n.labels| ==> 1 <= |n.labels[k]| <= 63)
    && (n.pointer.Some? ==> n.pointer.value < 0x4000)
  }

  predicate RecordOk(r: Record) { NameOk(r.name) && |r.rdata| < TWO16 }

  predicate QuestionsOk(qs: seq<Question>) { forall k :: 0 <= k < |qs| ==> NameOk(qs[k].name) }

  predicate RecordsOk(rs: seq<Record>) { forall k :: 0 <= k < |rs| ==> RecordOk(rs[k]) }

  predicate ResponseOk(m: Response) {
    QuestionsOk(m.questions) && RecordsOk(m.answers) && |m.questions| < TWO16 && |m.answers| < TWO16
  }

  // Each part is encoded in front of the rest of the message.

  function EncodeLabels(labels: seq<seq<byte>>, rest: seq<byte>): seq<byte>
    requires forall k :: 0 <= k < |labels| ==> 1 <= |labels[k]| <= 63
  {
    if labels == [] then rest else [|labels[0]|] + (labels[0] + EncodeLabels(labels[1..], rest))
  }

  function NameEnd(pointer: Option<u16>): seq<byte>
    requires pointer.Some? ==> pointer.value < 0x4000
  {
    if pointer.None? then [0] else Be16(0xc000 + pointer.value)
  }

  function EncodeName(n: Name, rest: seq<byte>): seq<byte>
    requires NameOk(n)
  {
    EncodeLabels(n.labels, NameEnd(n.pointer) + rest)
  }

  function EncodeQuestions(qs: seq<Question>, rest: seq<byte>): seq<byte>
    requires QuestionsOk(qs)
  {
    if qs == [] then rest
    else EncodeName(qs[0].name, Be16(qs[0].qtype) + Be16(qs[0].qclass) + EncodeQuestions(qs[1..], rest))
  }

  /** Type, class, time to live and length, in front of the data. */
  function RecordHead(r: Record): seq<byte>
    requires RecordOk(r)
  {
    Be16(r.rtype) + Be16(r.rclass) + Be32(r.ttl) + Be16(|r.rdata|)
  }

  function EncodeRecords(rs: seq<Record>, rest: seq<byte>): seq<byte>
    requires RecordsOk(rs)
  {
    if rs == [] then rest
    else EncodeName(rs[0].name, RecordHead(rs[0]) + (rs[0].rdata + EncodeRecords(rs[1..], rest)))
  }

  function EncodeHeader(m: Response): seq<byte>
    requires ResponseOk(m)
  {
    Be16(m.id) + Be16(m.flags) + Be16(|m.questions|) + Be16(|m.answers|) + Be16(m.nscount) + Be16(m.arcount)
  }

  /** `rest` is whatever follows the answers: the authority and additional sections. */
  function Encode(m: Response): seq<byte>
    requires ResponseOk(m)
  {
    EncodeHeader(m) + EncodeQuestions(m.questions, EncodeRecords(m.answers, m.rest))
  }

  // ---------------------------------------------------------------------------------------------
  // What discovery promises
  // ---------------------------------------------------------------------------------------------

  predicate Synthesized(r: Record) { r.rtype == 28 && |r.rdata| == 16 && WellKnown(r.rdata[12..]) }

  /** The prefix of the first AAAA record that embeds a well-known address. */
  function FirstPrefix(rs: seq<Record>): Option<seq<byte>> {
    if rs == [] then None
    else if Synthesized(rs[0]) then Some(rs[0].rdata[..12] + [0, 0, 0, 0])
    else FirstPrefix(rs[1..])
  }

  /** From `i` on, `b` holds `x`. */
  ghost predicate At(b: seq<byte>, i: nat, x: seq<byte>) { i <= |b| && b[i..] == x }

  lemma Past(b: seq<byte>, i: nat, x: seq<byte>, y: seq<byte>)
    requires At(b, i, x + y)
    ensures At(b, i + |x|, y) && b[i..i + |x|] == x
  {
    assert b[i..][|x|..] == y && b[i..][..|x|] == x;
    assert b[i + |x|..] == b[i..][|x|..];
  }

  lemma {:induction false} NameSkipped(b: seq<byte>, i: nat, labels: seq<seq<byte>>, pointer: Option<u16>,
                                       rest: seq<byte>)
      returns (j: nat)
    requires NameOk(Name(labels, pointer)) && At(b, i, EncodeLabels(labels, NameEnd(pointer) + rest))
    ensures SkipName(b, i) == Some(j) && At(b, j, rest)
    decreases |labels|
  {
    if labels == [] {
      EndSkipped(b, i, pointer, rest);
      j := i + |NameEnd(pointer)|;
    } else {
      var tail := EncodeLabels(labels[1..], NameEnd(pointer) + rest);
      LabelSkipped(b, i, labels[0], tail);
      j := NameSkipped(b, i + 1 + |labels[0]|, labels[1..], pointer, rest);
    }
  }

  lemma EndSkipped(b: seq<byte>, i: nat, pointer: Option<u16>, rest: seq<byte>)
    requires (pointer.Some? ==> pointer.value < 0x4000) && At(b, i, NameEnd(pointer) + rest)
    ensures SkipName(b, i) == Some(i + |NameEnd(pointer)|) && At(b, i + |NameEnd(pointer)|, rest)
  {
    Past(b, i, NameEnd(pointer), rest);
    assert b[i] == b[i..i + |NameEnd(pointer)|][0];
  }

  lemma LabelSkipped(b: seq<byte>, i: nat, text: seq<byte>, rest: seq<byte>)
    requires 1 <= |text| <= 63 && At(b, i, [|text|] + (text + rest))
    ensures SkipName(b, i) == SkipName(b, i + 1 + |text|) && At(b, i + 1 + |text|, rest)
  {
    Past(b, i, [|text|], text + rest);
    Past(b, i + 1, text, rest);
    assert b[i] == b[i..i + 1][0];
  }

  lemma {:induction false} QuestionsSkipped(b: seq<byte>, i: nat, qs: seq<Question>, rest: seq<byte>) returns (j: nat)
    requires QuestionsOk(qs) && At(b, i, EncodeQuestions(qs, rest))
    ensures SkipQuestions(b, i, |qs|) == Some(j) && At(b, j, rest)
    decreases |qs|
  {
    if qs == [] {
      j := i;
    } else {
      var kind, tail := Be16(qs[0].qtype) + Be16(qs[0].qclass), EncodeQuestions(qs[1..], rest);
      var k := NameSkipped(b, i, qs[0].name.labels, qs[0].name.pointer, kind + tail);
      Past(b, k, kind, tail);
      j := QuestionsSkipped(b, k + 4, qs[1..], rest);
    }
  }

  /** The fields of a record are read back where they were put. */
  lemma RecordRead(b: seq<byte>, j: nat, r: Record, rest: seq<byte>)
    requires RecordOk(r) && At(b, j, RecordHead(r) + (r.rdata + rest))
    ensures At(b, j + 10 + |r.rdata|, rest) && ReadAnswer(b, j) == Some(Answer(r.rtype, r.rdata))
  {
    Past(b, j, RecordHead(r), r.rdata + rest);
    Past(b, j + 10, r.rdata, rest);
    HeadRead(b, j, r);
  }

  lemma HeadRead(b: seq<byte>, j: nat, r: Record)
    requires RecordOk(r) && j + 10 <= |b| && b[j..j + 10] == RecordHead(r)
    ensures FromBe16(b[j..j + 2]) == r.rtype && FromBe16(b[j + 8..j + 10]) == |r.rdata|
  {
    Be16RoundTrip(r.rtype);
    Be16RoundTrip(|r.rdata|);
    assert b[j..j + 2] == b[j..j + 10][..2] == Be16(r.rtype);
    assert b[j + 8..j + 10] == b[j..j + 10][8..] == Be16(|r.rdata|);
  }

  lemma RecordScanned(b: seq<byte>, i: nat, r: Record, rest: seq<byte>) returns (j: nat)
    requires RecordOk(r) && At(b, i, EncodeName(r.name, RecordHead(r) + (r.rdata + rest)))
    ensures SkipName(b, i) == Some(j) && ReadAnswer(b, j) == Some(Answer(r.rtype, r.rdata))
    ensures At(b, j + 10 + |r.rdata|, rest)
  {
    j := NameSkipped(b, i, r.name.labels, r.name.pointer, RecordHead(r) + (r.rdata + rest));
    RecordRead(b, j, r, rest);
  }

  lemma FirstStep(rs: seq<Record>)
    requires rs != []
    ensures var first := PrefixIn(Answer(rs[0].rtype, rs[0].rdata));
            FirstPrefix(rs) == if first.Some? then first else FirstPrefix(rs[1..])
  {
  }

  lemma {:induction false} AnswersScanned(b: seq<byte>, i: nat, rs: seq<Record>, rest: seq<byte>)
    requires RecordsOk(rs) && At(b, i, EncodeRecords(rs, rest))
    ensures ScanAnswers(b, i, |rs|) == FirstPrefix(rs)
    decreases |rs|
  {
    if rs != [] {
      var r := rs[0];
      var j := RecordScanned(b, i, r, EncodeRecords(rs[1..], rest));
      ScanStep(b, i, |rs|, j, Answer(r.rtype, r.rdata));
      FirstStep(rs);
      AnswersScanned(b, j + 10 + |r.rdata|, rs[1..], rest);
    }
  }

  lemma CountsRead(m: Response)
    requires ResponseOk(m)
    ensures var b := Encode(m); |b| >= 12 && FromBe16(b[4..6]) == |m.questions| && FromBe16(b[6..8]) == |m.answers|
  {
    var b, header := Encode(m), EncodeHeader(m);
    Be16RoundTrip(|m.questions|);
    Be16RoundTrip(|m.answers|);
    assert header[4..6] == Be16(|m.questions|) && header[6..8] == Be16(|m.answers|);
    assert b[4..6] == header[4..6] && b[6..8] == header[6..8];
  }

  /** Parsing an encoded response finds the prefix of its first synthesized AAAA record, or nothing. */
  lemma DiscoveryFindsFirst(m: Response)
    requires ResponseOk(m)
    ensures ParsePrefix(Encode(m)) == FirstPrefix(m.answers)
  {
    var b, answers := Encode(m), EncodeRecords(m.answers, m.rest);
    CountsRead(m);
    assert b[0..] == b;
    Past(b, 0, EncodeHeader(m), EncodeQuestions(m.questions, answers));
    var i := QuestionsSkipped(b, 12, m.questions, answers);
    AnswersScanned(b, i, m.answers, m.rest);
  }

  // ---------------------------------------------------------------------------------------------
  // Embedding
  // ---------------------------------------------------------------------------------------------

  datatype Address = Ip4(octets: seq<byte>) | Ip6(octets: seq<byte>)

  /** Where the host socket connects: loopback and IPv6 destinations are left alone. */
  function Nat64Target(prefix: Option<seq<byte>>, dst: Address): Address
    requires prefix.Some? ==> |prefix.value| == 16
    requires dst.Ip4? ==> |dst.octets| == 4
  {
    if prefix.Some? && dst.Ip4? && dst.octets[0] != 127 then Ip6(prefix.value[..12] + dst.octets) else dst
  }

  /** The IPv4 address that an address under a prefix stands for: section 2.2 of RFC 6052, for 96-bit prefixes. */
  function Extracted(prefix: seq<byte>, a: Address): Option<seq<byte>>
    requires |prefix| == 16
  {
    if a.Ip6? && |a.octets| == 16 && a.octets[..12] == prefix[..12] then Some(a.octets[12..]) else None
  }

  /**
    Every IPv4 destination is reached under the prefix, from which it can be read off again, except loopback
    addresses; those, IPv6 destinations, and everything without a prefix are reached as they are.
   */
  lemma TargetOfEvery(prefix: Option<seq<byte>>, dst: Address)
    requires prefix.Some? ==> |prefix.value| == 16
    requires dst.Ip4? ==> |dst.octets| == 4
    ensures var target := Nat64Target(prefix, dst);
            if prefix.Some? && dst.Ip4? && dst.octets[0] != 127
            then Extracted(prefix.value, target) == Some(dst.octets)
            else target == dst
  {
    if prefix.Some? && dst.Ip4? && dst.octets[0] != 127 {
      var octets := Nat64Target(prefix, dst).octets;
      assert octets[..12] == prefix.value[..12] && octets[12..] == dst.octets;
    }
  }

  /**
    A record holding what the embedding makes of a well-known address, behind records that embed none,
    gives back the prefix it was made with.
   */
  lemma {:induction false} DiscoveryInvertsEmbedding(m: Response, prefix: seq<byte>, v4: seq<byte>, k: nat)
    requires ResponseOk(m) && Slash96(prefix) && WellKnown(v4)
    requires k < |m.answers| && forall i :: 0 <= i < k ==> !Synthesized(m.answers[i])
    requires m.answers[k].rtype == 28 && m.answers[k].rdata == Nat64Target(Some(prefix), Ip4(v4)).octets
    ensures ParsePrefix(Encode(m)) == Some(prefix)
  {
    DiscoveryFindsFirst(m);
    assert m.answers[k].rdata[12..] == v4 && m.answers[k].rdata[..12] == prefix[..12];
    assert prefix == prefix[..12] + [0, 0, 0, 0];
    FirstAt(m.answers, k);
  }

  lemma {:induction false} FirstAt(rs: seq<Record>, k: nat)
    requires k < |rs| && Synthesized(rs[k]) && forall i :: 0 <= i < k ==> !Synthesized(rs[i])
    ensures FirstPrefix(rs) == Some(rs[k].rdata[..12] + [0, 0, 0, 0])
    decreases k
  {
    if k > 0 {
      forall i | 0 <= i < k - 1 ensures !Synthesized(rs[1..][i]) {
        assert rs[1..][i] == rs[i + 1];
      }
      FirstAt(rs[1..], k - 1);
    }
  }
}
