/** What every handler keeps, whatever the guest, the host socket and the timer do. */
module TcpInvariant {
  import opened Words
  import opened Buffers
  import opened TcpModel

  // ---------------------------------------------------------------------------------------------
  // The invariant
  // ---------------------------------------------------------------------------------------------

  /** Bounds of the protocol fields; a FIN towards the guest means EOF with nothing left to deliver. */
  ghost predicate Shape(t: Tcp) {
    && t.sentUnacked <= |t.queue| <= FRAME
    && MIN_MSS <= t.guestMss < TWO16
    && (t.guestWscale.Some? ==> t.guestWscale.value <= 14)
    && t.guestWindow < TWO32
    && t.dupAcks < 3
    && (!t.hostFin.NotSent? ==> t.hostEof && t.queue == [])
    && (t.state.Connecting? ==> t.queue == [] && !t.hostEof && !t.guestFin && !t.ackDeferred)
  }

  /** The queue is the unacknowledged tail of what was read from the host. */
  ghost predicate Tail(queue: seq<byte>, stream: seq<byte>) {
    |queue| <= |stream| && queue == stream[|stream| - |queue|..]
  }

  /** `seqFromGuest` counts the bytes the host socket took, and the guest's FIN once shut down. */
  ghost predicate UploadOk(c: Conn) {
    && c.t.seqFromGuest == Wrap32(c.io.guestIsn + 1 + |c.io.toHost| + if c.t.guestFin then 1 else 0)
    && c.io.shutAt == if c.t.guestFin then Some(|c.io.toHost|) else None
  }

  /** The latest position is acked on the tap, or that ack is marked as deferred, and at most one frame waits for it. */
  ghost predicate AckOwedOk(c: Conn) {
    && c.io.quiet <= (if c.t.ackDeferred then 1 else 0)
    && (c.t.state.Established? ==>
          c.io.tap != [] && (c.t.ackDeferred || c.io.tap[|c.io.tap| - 1].ackno == c.t.seqFromGuest))
  }

  /** A segment's payload is the host stream at the segment's offset; a FIN sits at the stream's end. */
  ghost predicate Authentic(s: Segment, stream: seq<byte>, eof: bool) {
    && (s.payload != [] ==>
          0 <= s.at && s.at + |s.payload| <= |stream| && s.payload == stream[s.at..s.at + |s.payload|])
    && (s.flags.fin ==> eof && s.at == |stream|)
  }

  /** Header and payload fit the 16-bit IPv4 total length, hence also the IPv6 payload length. */
  ghost predicate Fits(s: Segment) {
    |s.options| % 4 == 0 && |s.options| <= 40 && 20 + 20 + |s.options| + |s.payload| <= 65535
  }

  ghost predicate TapOk(tap: seq<Segment>, stream: seq<byte>, eof: bool) {
    forall s :: s in tap ==> Authentic(s, stream, eof) && Fits(s)
  }

  /** A FIN counts as sent exactly if one went to the tap. */
  ghost predicate FinLogged(fin: FinState, tap: seq<Segment>) {
    fin.NotSent? <==> NoFin(tap)
  }

  ghost predicate NoFin(segs: seq<Segment>) { forall s :: s in segs ==> !s.flags.fin }

  /** Everything but the ack bookkeeping, which a handler may leave open until it sends. */
  ghost predicate Core(c: Conn) {
    && Shape(c.t) && Tail(c.t.queue, c.io.fromHost) && UploadOk(c)
    && TapOk(c.io.tap, c.io.fromHost, c.t.hostEof) && FinLogged(c.t.hostFin, c.io.tap)
  }

  ghost predicate Inv(c: Conn) { Core(c) && AckOwedOk(c) }

  // ---------------------------------------------------------------------------------------------
  // The send loop
  // ---------------------------------------------------------------------------------------------

  /** `s` is a frame of at most `how.chunk` bytes cut from `data`, which starts at offset `at`. */
  ghost predicate Slice(s: Segment, data: seq<byte>, how: Framing, at: int) {
    && 0 < |s.payload| <= how.chunk
    && at <= s.at && s.at + |s.payload| <= at + |data|
    && s.payload == data[s.at - at..s.at - at + |s.payload|]
    && s == DataSegment(how, s.payload, s.at)
  }

  /** A frame cut from the rest of `data` is a frame cut from `data`. */
  lemma SliceOfRest(s: Segment, data: seq<byte>, len: nat, how: Framing, at: int)
    requires len <= |data| && Slice(s, data[len..], how, at + len)
    ensures Slice(s, data, how, at)
  {
    var k, n := s.at - (at + len), |s.payload|;
    assert data[len..][k..k + n] == data[len + k..len + k + n];
  }

  ghost predicate Slices(segs: seq<Segment>, data: seq<byte>, how: Framing, at: int) {
    forall s :: s in segs ==> Slice(s, data, how, at)
  }

  lemma SlicesOfRest(segs: seq<Segment>, data: seq<byte>, len: nat, how: Framing, at: int)
    requires len <= |data| && Slices(segs, data[len..], how, at + len)
    ensures Slices(segs, data, how, at)
  {
    forall s | s in segs ensures Slice(s, data, how, at) {
      SliceOfRest(s, data, len, how, at);
    }
  }

  lemma FirstSlice(data: seq<byte>, len: nat, how: Framing, at: int)
    requires 0 < len <= |data| && len <= how.chunk
    ensures Slice(DataSegment(how, data[..len], at), data, how, at)
  {
  }

  lemma SlicesCons(first: Segment, rest: seq<Segment>, data: seq<byte>, how: Framing, at: int)
    requires Slice(first, data, how, at) && Slices(rest, data, how, at)
    ensures Slices([first] + rest, data, how, at)
  {
  }

  lemma {:induction false} CutSlices(data: seq<byte>, how: Framing, at: int)
    requires how.chunk > 0
    ensures Slices(Cut(data, how, at), data, how, at)
    decreases |data|
  {
    if data != [] {
      var len := Min(how.chunk, |data|);
      var first, rest := DataSegment(how, data[..len], at), Cut(data[len..], how, at + len);
      CutSlices(data[len..], how, at + len);
      SlicesOfRest(rest, data, len, how, at);
      FirstSlice(data, len, how, at);
      SlicesCons(first, rest, data, how, at);
    }
  }

  /** The payloads of consecutive segments, joined. */
  function Joined(segs: seq<Segment>): seq<byte> {
    if segs == [] then [] else segs[0].payload + Joined(segs[1..])
  }

  /** Each segment starts where the one before it ends. */
  ghost predicate Contiguous(segs: seq<Segment>, at: int) {
    segs == [] || (segs[0].at == at && Contiguous(segs[1..], at + |segs[0].payload|))
  }

  /** Contiguous frames from offset `at` on that carry exactly `data`. */
  ghost predicate Tiles(segs: seq<Segment>, data: seq<byte>, at: int) {
    Joined(segs) == data && Contiguous(segs, at)
  }

  lemma {:induction false} CutTiles(data: seq<byte>, how: Framing, at: int)
    requires how.chunk > 0
    ensures Tiles(Cut(data, how, at), data, at)
    decreases |data|
  {
    if data != [] {
      var len := Min(how.chunk, |data|);
      var first, rest := DataSegment(how, data[..len], at), Cut(data[len..], how, at + len);
      CutTiles(data[len..], how, at + len);
      TilesCons(first, rest, data, len, at);
    }
  }

  lemma TilesCons(first: Segment, rest: seq<Segment>, data: seq<byte>, len: nat, at: int)
    requires len <= |data| && first.payload == data[..len] && first.at == at && Tiles(rest, data[len..], at + len)
    ensures Tiles([first] + rest, data, at)
  {
    assert ([first] + rest)[1..] == rest;
    assert data[..len] + data[len..] == data;
  }

  // ---------------------------------------------------------------------------------------------
  // Preservation, function by function
  // ---------------------------------------------------------------------------------------------

  /** A control segment carries the current ack number, so it settles whatever is owed. */
  lemma ControlKeeps(c: Conn, flags: Flags)
    requires Core(c)
    requires flags.fin ==> c.t.hostEof && c.t.queue == []
    ensures !flags.fin || !c.t.hostFin.NotSent? ==> Inv(SendControl(c, flags))
    ensures flags.fin ==> Inv(SendControl(c, flags).(t := c.t.(hostFin := Sent)))
  {
    if !flags.fin || !c.t.hostFin.NotSent? { FinLoggedGrows(c.t.hostFin, c.io.tap, [Control(c, flags)]); }
    assert Control(c, flags) in SendControl(c, flags).io.tap;
  }

  lemma FinLoggedGrows(fin: FinState, tap: seq<Segment>, segs: seq<Segment>)
    requires FinLogged(fin, tap) && (fin.NotSent? ==> NoFin(segs))
    ensures FinLogged(fin, tap + segs)
  {
    if !fin.NotSent? {
      var s :| s in tap && s.flags.fin;
      assert s in tap + segs;
    }
  }

  lemma {:induction false} ShiftMonotone(a: nat, b: nat)
    requires a <= b
    ensures 1 <= Shift(a) <= Shift(b)
    decreases b
  {
    if a < b { ShiftMonotone(a, b - 1); } else if a > 0 { ShiftMonotone(a - 1, b - 1); }
  }

  /** A scaled window is below 2^30, so the shift never leaves 32 bits. */
  lemma WindowBound(t: Tcp, window: u16)
    requires t.guestWscale.Some? ==> t.guestWscale.value <= 14
    ensures ScaledWindow(t, window) <= 65535 * 16384 < TWO32
  {
    var scale := if t.guestWscale.Some? then t.guestWscale.value else 0;
    ShiftMonotone(scale, 14);
    assert Shift(14) == 16384;
    assert window * Shift(scale) <= 65535 * Shift(scale) <= 65535 * 16384;
  }

  lemma AckShape(t: Tcp, h: Header, payloadEmpty: bool, now: nat)
    requires Shape(t) && t.state.Established?
    ensures Shape(AckFromGuest(t, h, payloadEmpty, now))
  {
    WindowBound(t, h.window);
  }

  /** An ack takes a prefix off the queue and leaves the upload side alone. */
  lemma AckFrame(t: Tcp, h: Header, payloadEmpty: bool, now: nat) returns (n: nat)
    requires t.sentUnacked <= |t.queue|
    ensures var r := AckFromGuest(t, h, payloadEmpty, now);
            && n <= |t.queue| && r.queue == t.queue[n..]
            && r.seqFromGuest == t.seqFromGuest && r.guestFin == t.guestFin && r.ackDeferred == t.ackDeferred
            && r.state == t.state && r.hostEof == t.hostEof && r.pollArmed == t.pollArmed
            && (t.hostFin.NotSent? ==> r.hostFin.NotSent?)
            && (r.hostFin.Acked? || (r.hostFin == t.hostFin && r.seqUna == Wrap32(t.seqUna + n)))
  {
    var advance := Wrap32(h.ackno - t.seqUna);
    if 0 < advance <= MaxAdvance(t) {
      n := Min(advance, t.sentUnacked);
      AdvanceFrame(t.(guestWindow := ScaledWindow(t, h.window)), advance, now);
    } else {
      n := 0;
    }
  }

  lemma AdvanceFrame(t: Tcp, advance: nat, now: nat)
    requires t.sentUnacked <= |t.queue| && 0 < advance <= MaxAdvance(t)
    ensures var r, n := Advance(t, advance, now), Min(advance, t.sentUnacked);
            && r.queue == t.queue[n..]
            && r.seqFromGuest == t.seqFromGuest && r.guestFin == t.guestFin && r.ackDeferred == t.ackDeferred
            && r.state == t.state && r.hostEof == t.hostEof && r.pollArmed == t.pollArmed
            && (t.hostFin.NotSent? ==> r.hostFin.NotSent?)
            && (r.hostFin.Acked? || (r.hostFin == t.hostFin && r.seqUna == Wrap32(t.seqUna + n)))
  {
  }

  lemma TailDrop(queue: seq<byte>, stream: seq<byte>, n: nat)
    requires Tail(queue, stream) && n <= |queue|
    ensures Tail(queue[n..], stream)
  {
  }

  /** A record that differs only in its send state, over a shorter queue, keeps the invariant. */
  lemma ReplaceRecord(c: Conn, t: Tcp, n: nat)
    requires Inv(c) && Shape(t) && n <= |c.t.queue| && t.queue == c.t.queue[n..]
    requires t.seqFromGuest == c.t.seqFromGuest && t.guestFin == c.t.guestFin && t.ackDeferred == c.t.ackDeferred
    requires t.state == c.t.state && t.hostEof == c.t.hostEof && (c.t.hostFin.NotSent? <==> t.hostFin.NotSent?)
    ensures Inv(c.(t := t))
  {
    TailDrop(c.t.queue, c.io.fromHost, n);
  }

  lemma AckKeeps(c: Conn, h: Header, payloadEmpty: bool, now: nat)
    requires Inv(c) && c.t.state.Established?
    ensures Inv(c.(t := AckFromGuest(c.t, h, payloadEmpty, now)))
  {
    AckShape(c.t, h, payloadEmpty, now);
    var n := AckFrame(c.t, h, payloadEmpty, now);
    ReplaceRecord(c, AckFromGuest(c.t, h, payloadEmpty, now), n);
  }

  /** Host bytes are appended at the end of the stream, so the tap's segments keep their bytes. */
  lemma TapGrows(tap: seq<Segment>, stream: seq<byte>, bytes: seq<byte>, eof: bool)
    requires TapOk(tap, stream, false)
    ensures TapOk(tap, stream + bytes, eof)
  {
    forall s | s in tap ensures Authentic(s, stream + bytes, eof) {
      assert Authentic(s, stream, false);
    }
  }

  lemma TailGrows(queue: seq<byte>, stream: seq<byte>, bytes: seq<byte>)
    requires Tail(queue, stream)
    ensures Tail(queue + bytes, stream + bytes)
  {
  }

  lemma FillKeeps(c: Conn, recv: Recv)
    requires Inv(c) && c.t.state.Established? && c.t.hostFin.NotSent?
    ensures Inv(Fill(c, recv).0)
  {
    if !c.t.hostEof && |c.t.queue| < FRAME {
      match Read(recv, FRAME - |c.t.queue|)
      case Again =>
      case Failed => ControlKeeps(c, RST_ACK);
      case Eof =>
        TapGrows(c.io.tap, c.io.fromHost, [], true);
        assert c.io.fromHost + [] == c.io.fromHost;
      case Data(bytes) =>
        TapGrows(c.io.tap, c.io.fromHost, bytes, false);
        TailGrows(c.t.queue, c.io.fromHost, bytes);
    }
  }

  /** A read changes the queue (which only grows) and the EOF flag, nothing else. */
  lemma FillFrame(c: Conn, recv: Recv)
    ensures var c' := Fill(c, recv).0;
            && c'.t == c.t.(queue := c'.t.queue, hostEof := c'.t.hostEof) && c.t.queue <= c'.t.queue
            && c'.io == c.io.(fromHost := c'.io.fromHost, tap := c'.io.tap, quiet := c'.io.quiet)
  {
  }

  /** Slices of the queue are slices of the host stream, and short enough for the IP length field. */
  lemma SlicesOk(queue: seq<byte>, stream: seq<byte>, sent: nat, len: nat, how: Framing, eof: bool)
    requires Tail(queue, stream) && sent + len <= |queue| && 0 < how.chunk <= MAX_PAYLOAD
    ensures TapOk(Cut(queue[sent..sent + len], how, |stream| - |queue| + sent), stream, eof)
  {
    var at := |stream| - |queue| + sent;
    var data := queue[sent..sent + len];
    CutSlices(data, how, at);
    assert data == stream[at..at + len];
    forall s | s in Cut(data, how, at) ensures Authentic(s, stream, eof) && Fits(s) {
      SliceOk(s, data, how, at, stream, eof);
    }
  }

  lemma SliceOk(s: Segment, data: seq<byte>, how: Framing, at: int, stream: seq<byte>, eof: bool)
    requires Slice(s, data, how, at) && how.chunk <= MAX_PAYLOAD
    requires 0 <= at && at + |data| <= |stream| && data == stream[at..at + |data|]
    ensures Authentic(s, stream, eof) && Fits(s)
  {
    SliceOfSlice(stream, at, |data|, s.at - at, |s.payload|);
  }

  lemma NewSegmentsOk(c: Conn, budget: nat, tso: bool)
    requires Core(c) && c.t.sentUnacked < |c.t.queue| && budget > 0
    ensures TapOk(NewSegments(c, budget, tso), c.io.fromHost, c.t.hostEof)
    ensures NewSegments(c, budget, tso) != [] && NoFin(NewSegments(c, budget, tso))
    ensures forall s :: s in NewSegments(c, budget, tso) ==> s.ackno == c.t.seqFromGuest
  {
    var sent, len := c.t.sentUnacked, SendLen(c.t, budget);
    var how := FramingOf(c, len, tso);
    SlicesOk(c.t.queue, c.io.fromHost, sent, len, how, c.t.hostEof);
    CutSlices(c.t.queue[sent..sent + len], how, SendOffset(c));
  }

  /** Segments that carry the current ack number may follow at any time. */
  lemma EmitKeeps(c: Conn, segs: seq<Segment>)
    requires Core(c) && TapOk(segs, c.io.fromHost, c.t.hostEof) && segs != [] && NoFin(segs)
    requires forall s :: s in segs ==> s.ackno == c.t.seqFromGuest
    ensures Inv(Emit(c, segs))
  {
    FinLoggedGrows(c.t.hostFin, c.io.tap, segs);
    assert segs[|segs| - 1] in segs;
    assert (c.io.tap + segs)[|c.io.tap| + |segs| - 1] == segs[|segs| - 1];
  }

  lemma SendNewKeeps(c: Conn, budget: nat, drained: bool, tso: bool, now: nat)
    requires Inv(c) && c.t.state.Established? && c.t.hostFin.NotSent?
    requires c.t.sentUnacked < |c.t.queue| && budget > 0
    ensures Inv(SendNew(c, budget, drained, tso, now))
  {
    NewSegmentsOk(c, budget, tso);
    EmitKeeps(c, NewSegments(c, budget, tso));
    assert c.t.queue[0..] == c.t.queue;
    var t := c.t.(sentUnacked := c.t.sentUnacked + SendLen(c.t, budget), lastProgress := now);
    ReplaceRecord(Emit(c, NewSegments(c, budget, tso)), t, 0);
  }

  lemma SendNothingKeeps(c: Conn, drained: bool, now: nat)
    requires Inv(c) && c.t.state.Established? && |c.t.queue| == c.t.sentUnacked
    ensures Inv(SendNothing(c, drained, now))
  {
    if c.t.hostEof && c.t.sentUnacked == 0 { ControlKeeps(c, FIN_ACK); }
  }

  lemma ForwardKeeps(c: Conn, budget: nat, drained: bool, tso: bool, now: nat)
    requires Inv(c) && c.t.state.Established? && c.t.hostFin.NotSent? && budget > 0
    ensures Inv(Forward(c, budget, drained, tso, now))
  {
    if |c.t.queue| == c.t.sentUnacked {
      SendNothingKeeps(c, drained, now);
    } else {
      SendNewKeeps(c, budget, drained, tso, now);
    }
  }

  lemma AfterFillKeeps(c: Conn, budget: nat, drained: bool, tso: bool, now: nat)
    requires Inv(c) && c.t.state.Established? && c.t.hostFin.NotSent? && budget > 0
    ensures Inv(AfterFill(c, budget, drained, tso, now))
  {
    if c.gone.None? { ForwardKeeps(c, budget, drained, tso, now); }
  }

  lemma DataToGuestKeeps(c: Conn, recv: Recv, tso: bool, now: nat)
    requires Inv(c)
    ensures Inv(DataToGuest(c, recv, tso, now))
  {
    if MaySend(c.t) {
      FillKeeps(c, recv);
      FillFrame(c, recv);
      var c1, drained := Fill(c, recv).0, Fill(c, recv).1;
      assert Inv(c1);
      AfterFillKeeps(c1, c.t.guestWindow - c.t.sentUnacked, drained, tso, now);
      assert DataToGuest(c, recv, tso, now) == AfterFill(c1, c.t.guestWindow - c.t.sentUnacked, drained, tso, now);
    }
  }

  /** What sending host bytes never touches: the upload side, the ack position, the window and the handshake. */
  datatype Rest = Rest(
    state: TcpState, seqFromGuest: u32, seqUna: u32, guestWindow: nat, dupAcks: nat, guestWscale: Option<nat>,
    guestMss: nat, guestFin: bool, ackDeferred: bool, guestIsn: u32, toHost: seq<byte>, shutAt: Option<nat>)

  function RestOf(c: Conn): Rest {
    Rest(c.t.state, c.t.seqFromGuest, c.t.seqUna, c.t.guestWindow, c.t.dupAcks, c.t.guestWscale,
         c.t.guestMss, c.t.guestFin, c.t.ackDeferred, c.io.guestIsn, c.io.toHost, c.io.shutAt)
  }

  ghost predicate OnlyDownload(c: Conn, c': Conn) { RestOf(c') == RestOf(c) }

  lemma FillOnly(c: Conn, recv: Recv)
    ensures OnlyDownload(c, Fill(c, recv).0)
  {
    FillFrame(c, recv);
  }

  lemma ForwardFrame(c: Conn, budget: nat, drained: bool, tso: bool, now: nat)
    requires c.t.sentUnacked <= |c.t.queue| && c.t.guestMss > 0 && budget > 0
    ensures OnlyDownload(c, AfterFill(c, budget, drained, tso, now))
  {
  }

  lemma DataToGuestFrame(c: Conn, recv: Recv, tso: bool, now: nat)
    requires c.t.sentUnacked <= |c.t.queue| && c.t.guestMss > 0
    ensures OnlyDownload(c, DataToGuest(c, recv, tso, now))
  {
    if MaySend(c.t) {
      FillFrame(c, recv);
      FillOnly(c, recv);
      var c', budget := Fill(c, recv).0, c.t.guestWindow - c.t.sentUnacked;
      ForwardFrame(c', budget, Fill(c, recv).1, tso, now);
    }
  }

  lemma TakePayloadKeeps(c: Conn, h: Header, payload: seq<byte>, accept: nat)
    requires Core(c)
    ensures Core(TakePayload(c, payload, Accepted(c, h, payload, accept)))
  {
    WrapAdd(c.io.guestIsn + 1 + |c.io.toHost| + if c.t.guestFin then 1 else 0, Accepted(c, h, payload, accept));
  }

  lemma TakeFinKeeps(c: Conn, h: Header, payload: seq<byte>)
    requires Core(c) && c.t.state.Established?
    ensures Core(TakeFin(c, h, payload))
  {
    WrapAdd(c.io.guestIsn + 1 + |c.io.toHost|, 1);
  }

  /** A frame whose ack is left to the next one, or that needs none. */
  lemma UploadQuiet(c: Conn, h: Header, payload: seq<byte>, n: nat)
    requires Inv(c) && n <= |payload| && (payload == [] || MayDefer(c, h, payload, n))
    ensures var c1 := TakePayload(c, payload, n);
            AckOwedOk(if payload == [] then c1 else c1.(t := c1.t.(ackDeferred := true)))
  {
  }

  /** Everything but the ack bookkeeping, before the ack goes out. */
  lemma UploadCore(c: Conn, h: Header, payload: seq<byte>, accept: nat, defer: bool, fin: bool)
    requires Core(c) && c.t.state.Established?
    ensures var c1 := TakePayload(c, payload, Accepted(c, h, payload, accept));
            var c2 := if defer then c1.(t := c1.t.(ackDeferred := true)) else c1;
            Core(if fin then TakeFin(c2, h, payload) else c2)
  {
    TakePayloadKeeps(c, h, payload, accept);
    var c1 := TakePayload(c, payload, Accepted(c, h, payload, accept));
    var c2 := if defer then c1.(t := c1.t.(ackDeferred := true)) else c1;
    assert Core(c2);
    if fin { TakeFinKeeps(c2, h, payload); }
  }

  lemma UploadKeeps(c: Conn, h: Header, payload: seq<byte>, accept: nat)
    requires Inv(c) && c.t.state.Established?
    ensures Inv(Upload(c, h, payload, accept))
  {
    var n := Accepted(c, h, payload, accept);
    var fin := h.flags.fin && n == |payload|;
    var defer := payload != [] && MayDefer(c, h, payload, n);
    UploadCore(c, h, payload, accept, defer, fin);
    var c1 := TakePayload(c, payload, n);
    var c2 := if defer then c1.(t := c1.t.(ackDeferred := true)) else c1;
    var c3 := if fin then TakeFin(c2, h, payload) else c2;
    if fin || (payload != [] && !defer) {
      ControlKeeps(c3.(t := c3.t.(ackDeferred := false)), ACK);
    } else {
      UploadQuiet(c, h, payload, n);
    }
  }

  lemma SynAckKeeps(c: Conn)
    requires Core(c)
    ensures Inv(SendSynAck(c))
  {
    var seg := Segment(ISN, c.t.seqFromGuest, SYN_ACK, SynAckOptions(c.t.guestWscale.Some?), [], None, -1);
    EmitKeeps(c, [seg]);
  }

  lemma MaybeCloseKeeps(c: Conn)
    requires Inv(c)
    ensures Inv(MaybeClose(c))
  {
  }

  lemma RefillKeeps(c: Conn, recv: Recv, tso: bool, now: nat)
    requires Inv(c)
    ensures Inv(MaybeClose(DataToGuest(c, recv, tso, now)))
  {
    DataToGuestKeeps(c, recv, tso, now);
    MaybeCloseKeeps(DataToGuest(c, recv, tso, now));
  }

  lemma DeliverKeeps(c: Conn, h: Header, payload: seq<byte>, accept: nat, recv: Recv, tso: bool, now: nat)
    requires Inv(c) && c.t.state.Established?
    ensures Inv(MaybeClose(DataToGuest(Upload(c, h, payload, accept), recv, tso, now)))
  {
    UploadKeeps(c, h, payload, accept);
    RefillKeeps(Upload(c, h, payload, accept), recv, tso, now);
  }

  lemma SynKeeps(c: Conn)
    requires Inv(c) && c.t.state.Established?
    ensures Inv(HandleSyn(c))
  {
    SynAckKeeps(c.(t := c.t.(sentUnacked := 0, dupAcks := 0)));
  }

  lemma GuestKeeps(c: Conn, h: Header, payload: seq<byte>, accept: nat, recv: Recv, tso: bool, now: nat)
    requires Inv(c)
    ensures Inv(HandleGuest(c, h, payload, accept, recv, tso, now))
  {
    if !h.flags.rst && c.t.state.Established? {
      if h.flags.syn {
        SynKeeps(c);
      } else if h.flags.ack {
        AckKeeps(c, h, payload == [], now);
        AckKeepsState(c.t, h, payload == [], now);
        DeliverKeeps(c.(t := AckFromGuest(c.t, h, payload == [], now)), h, payload, accept, recv, tso, now);
      } else {
        DeliverKeeps(c, h, payload, accept, recv, tso, now);
      }
    }
  }

  lemma AckKeepsState(t: Tcp, h: Header, payloadEmpty: bool, now: nat)
    requires t.sentUnacked <= |t.queue|
    ensures AckFromGuest(t, h, payloadEmpty, now).state == t.state
  {
  }

  lemma ResetKeeps(c: Conn)
    requires Core(c)
    ensures Inv(Reset(c))
  {
    ControlKeeps(c, RST_ACK);
  }

  lemma ConnectedKeeps(c: Conn)
    requires Core(c)
    ensures Inv(Arm(SendSynAck(c.(t := c.t.(state := Established)))))
  {
    SynAckKeeps(c.(t := c.t.(state := Established)));
  }

  lemma ReadyKeeps(c: Conn, pollErr: bool, pollHup: bool, sockErr: bool, recv: Recv, tso: bool, now: nat)
    requires Inv(c)
    ensures Inv(HandleReady(c, pollErr, pollHup, sockErr, recv, tso, now))
  {
    var c1 := c.(t := c.t.(pollArmed := false));
    ResetKeeps(c1);
    if c.t.state.Connecting? { ConnectedKeeps(c1); } else { RefillKeeps(c1, recv, tso, now); }
  }

  lemma FlushKeeps(c: Conn)
    requires Inv(c)
    ensures Inv(FlushAck(c))
  {
    if c.t.ackDeferred { ControlKeeps(c.(t := c.t.(ackDeferred := false)), ACK); }
  }

  lemma RewindKeeps(c: Conn, recv: Recv, tso: bool, now: nat)
    requires Inv(c) && c.t.sentUnacked > 0
    ensures Inv(DataToGuest(Rewind(c, now), recv, tso, now))
  {
    DataToGuestKeeps(Rewind(c, now), recv, tso, now);
  }

  lemma StaleKeeps(c: Conn, recv: Recv, tso: bool, now: nat)
    requires Inv(c)
    ensures Inv(HandleStale(c, recv, tso, now))
  {
    if c.t.sentUnacked > 0 {
      RewindKeeps(c, recv, tso, now);
    } else if c.t.hostFin.Sent? {
      ControlKeeps(c.(t := c.t.(lastProgress := now)), FIN_ACK);
    } else {
      ProbeKeeps(c.(t := c.t.(lastProgress := now)));
    }
  }

  lemma TimerKeeps(c: Conn, recv: Recv, tso: bool, now: nat)
    requires Inv(c)
    ensures Inv(HandleTimer(c, recv, tso, now))
  {
    FlushKeeps(c);
    StaleKeeps(FlushAck(c), recv, tso, now);
  }

  lemma ProbeKeeps(c: Conn)
    requires Inv(c)
    ensures Inv(SendProbe(c))
  {
    EmitKeeps(c, [Segment(Wrap32(c.t.seqUna - 1), c.t.seqFromGuest, ACK, [], [], None, AckedBytes(c) - 1)]);
  }

  /** Every event keeps the invariant. */
  lemma StepKeeps(c: Conn, tso: bool, e: Event)
    requires Inv(c)
    ensures Inv(Step(c, tso, e))
  {
    match e
    case FromGuest(h, payload, accept, recv, now) => GuestKeeps(c, h, payload, accept, recv, tso, now);
    case SocketReady(pollErr, pollHup, sockErr, recv, now) =>
      ReadyKeeps(c, pollErr, pollHup, sockErr, recv, tso, now);
    case PollFailed => ControlKeeps(c, RST_ACK);
    case TimerTick(recv, now) => TimerKeeps(c, recv, tso, now);
  }

  // ---------------------------------------------------------------------------------------------
  // Runs
  // ---------------------------------------------------------------------------------------------

  /** Every flow starts out well. */
  function Opened(seqno: u32, window: u16, mss: Option<u16>, wscale: Option<byte>, now: nat): (c: Conn)
    ensures Inv(c)
  {
    Open(seqno, window, mss, wscale, now)
  }

  /** The state after a list of events: the invariant holds in every state of every run. */
  function Run(c: Conn, tso: bool, events: seq<Event>): (r: Conn)
    requires Inv(c)
    ensures Inv(r)
    decreases |events|
  {
    if events == [] then c
    else
      var before := Run(c, tso, events[..|events| - 1]);
      StepKeeps(before, tso, events[|events| - 1]);
      Step(before, tso, events[|events| - 1])
  }
}
