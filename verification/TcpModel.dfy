/**
  One TCP flow between the guest and a host socket, as a state machine on values.

  Every handler of the event loop that touches a flow's `Tcp` record is a function here, with the
  branches of the source.  Two things differ from the record in `src/flow.rs`: the buffered host
  bytes are the plain sequence `queue` (class `Connection` shows that the ring buffer implements it),
  and `Io` keeps the history of what crossed the host socket and the tap.
 */
module TcpModel {
  import opened Words
  import opened Buffers

  /** Where our sequence numbers start. */
  const ISN: u32 := 0x0001_0000
  /** Fallback and floor of the guest's MSS. */
  const MIN_MSS: nat := 536
  /** Largest payload of one frame: the IP length field also covers the headers. */
  const MAX_PAYLOAD: nat := 65535 - 60
  /** Retransmission timeout, in milliseconds. */
  const RTO: nat := 500

  datatype TcpState = Connecting | Established
  datatype FinState = NotSent | Sent | Acked

  datatype Flags = Flags(syn: bool, ack: bool, fin: bool, rst: bool, psh: bool)

  const ACK := Flags(false, true, false, false, false)
  const FIN_ACK := Flags(false, true, true, false, false)
  const RST_ACK := Flags(false, true, false, true, false)
  const SYN_ACK := Flags(true, true, false, false, false)

  /** The fields of a guest segment's header that an existing flow looks at. */
  datatype Header = Header(seqno: u32, ackno: u32, flags: Flags, window: u16)

  /**
    A segment handed to the tap.  `at` is not on the wire: it records the unbounded host-stream
    offset of the first payload byte (or of the send position, without payload).
   */
  datatype Segment = Segment(
    seqno: u32, ackno: u32, flags: Flags, options: seq<byte>, payload: seq<byte>, gso: Option<nat>, at: int)

  /** The `Tcp` record, with the ring replaced by the bytes it holds. */
  datatype Tcp = Tcp(
    state: TcpState,
    seqFromGuest: u32,
    seqUna: u32,
    sentUnacked: nat,
    queue: seq<byte>,
    lastProgress: nat,
    hostEof: bool,
    guestWindow: nat,
    dupAcks: nat,
    guestWscale: Option<nat>,
    guestMss: nat,
    hostFin: FinState,
    guestFin: bool,
    ackDeferred: bool,
    pollArmed: bool)

  /**
    What crossed the flow's boundary so far: bytes read from and accepted by the host socket, the
    length of `toHost` when the socket was shut down for writing, the segments given to the tap (any
    of which the tap may lose), the data-bearing guest frames since the last of those segments, and
    the number of polls submitted.
   */
  datatype Io = Io(
    guestIsn: u32,
    fromHost: seq<byte>,
    toHost: seq<byte>,
    shutAt: Option<nat>,
    tap: seq<Segment>,
    quiet: nat,
    polls: nat)

  /** Why a flow left the table: a guest RST, an error, or both directions closed. */
  datatype Removal = ByGuest | ByError | ByClose

  datatype Conn = Conn(t: Tcp, io: Io, gone: Option<Removal>)

  /** What the host socket answers to one non-blocking read. */
  datatype Recv = Again | Failed | Eof | Data(waiting: seq<byte>)

  /** A completion, a guest frame or a timer tick, with what the host socket does meanwhile. */
  datatype Event =
    | FromGuest(header: Header, payload: seq<byte>, accept: nat, recv: Recv, now: nat)
    | SocketReady(pollErr: bool, pollHup: bool, sockErr: bool, recv: Recv, now: nat)
    | PollFailed
    | TimerTick(recv: Recv, now: nat)

  // ---------------------------------------------------------------------------------------------
  // Positions
  // ---------------------------------------------------------------------------------------------

  /** Host bytes the guest has acknowledged: everything read that is no longer buffered. */
  function AckedBytes(c: Conn): int { |c.io.fromHost| - |c.t.queue| }

  /** Host-stream offset of the next byte to send. */
  function SendOffset(c: Conn): int { AckedBytes(c) + c.t.sentUnacked }

  // ---------------------------------------------------------------------------------------------
  // Segments towards the guest
  // ---------------------------------------------------------------------------------------------

  function Logged(io: Io, segs: seq<Segment>): Io {
    io.(tap := io.tap + segs, quiet := if segs == [] then io.quiet else 0)
  }

  function Emit(c: Conn, segs: seq<Segment>): Conn { c.(io := Logged(c.io, segs)) }

  function Control(c: Conn, flags: Flags): Segment {
    Segment(Wrap32(c.t.seqUna + c.t.sentUnacked), c.t.seqFromGuest, flags, [], [], None, SendOffset(c))
  }

  function SendControl(c: Conn, flags: Flags): Conn { Emit(c, [Control(c, flags)]) }

  /** A byte left of the window edge, so that the guest answers with its current window. */
  function SendProbe(c: Conn): Conn {
    Emit(c, [Segment(Wrap32(c.t.seqUna - 1), c.t.seqFromGuest, ACK, [], [], None, AckedBytes(c) - 1)])
  }

  /** MSS 65495, and window scale 7 when the guest offered scaling. */
  function SynAckOptions(scaled: bool): seq<byte> {
    [2, 4, 0xff, 0xd7] + if scaled then [1, 3, 3, 7] else []
  }

  function SendSynAck(c: Conn): Conn {
    var seg := Segment(ISN, c.t.seqFromGuest, SYN_ACK, SynAckOptions(c.t.guestWscale.Some?), [], None, -1);
    var c' := Emit(c, [seg]);
    c'.(t := c'.t.(seqUna := Wrap32(ISN + 1)))
  }

  /**
    What the frames of one send have in common: their largest payload, the difference between sequence
    numbers and stream offsets, the ack number and the segment size for resegmentation.
   */
  datatype Framing = Framing(chunk: nat, base: int, ackno: u32, gso: Option<nat>)

  function DataSegment(how: Framing, payload: seq<byte>, at: int): Segment {
    Segment(Wrap32(how.base + at), how.ackno, ACK, [], payload, how.gso, at)
  }

  /** The send loop: `data`, which starts at offset `at`, cut into frames of at most `how.chunk` bytes. */
  function Cut(data: seq<byte>, how: Framing, at: int): (segs: seq<Segment>)
    requires how.chunk > 0
    decreases |data|
  {
    if data == [] then []
    else
      var len := Min(how.chunk, |data|);
      [DataSegment(how, data[..len], at)] + Cut(data[len..], how, at + len)
  }

  // ---------------------------------------------------------------------------------------------
  // Opening and removal
  // ---------------------------------------------------------------------------------------------

  /** The flow a guest SYN creates, once its connect poll is submitted. */
  function Open(seqno: u32, window: u16, mss: Option<u16>, wscale: Option<byte>, now: nat): Conn {
    Conn(
      Tcp(Connecting, Wrap32(seqno + 1), ISN, 0, [], now, false, window, 0,
          if wscale.Some? then Some(Min(wscale.value, 14)) else None,
          Max(if mss.Some? then mss.value else MIN_MSS, MIN_MSS),
          NotSent, false, false, true),
      Io(seqno, [], [], None, [], 0, 1),
      None)
  }

  function Arm(c: Conn): Conn {
    c.(t := c.t.(pollArmed := true), io := c.io.(polls := c.io.polls + 1))
  }

  function Remove(c: Conn, why: Removal): Conn { c.(gone := Some(why)) }

  function Reset(c: Conn): Conn { Remove(SendControl(c, RST_ACK), ByError) }

  function MaybeClose(c: Conn): Conn {
    if c.gone.None? && c.t.hostFin.Acked? && c.t.guestFin then Remove(c, ByClose) else c
  }

  // ---------------------------------------------------------------------------------------------
  // Acknowledgements from the guest
  // ---------------------------------------------------------------------------------------------

  function Shift(scale: nat): nat { if scale == 0 then 1 else 2 * Shift(scale - 1) }

  function Scaled(window: u16, wscale: Option<nat>): nat {
    window * Shift(if wscale.Some? then wscale.value else 0)
  }

  function ScaledWindow(t: Tcp, window: u16): nat { Scaled(window, t.guestWscale) }

  function MaxAdvance(t: Tcp): nat { t.sentUnacked + if t.hostFin.NotSent? then 0 else 1 }

  /** The guest acked `n` bytes in flight. */
  function AckData(t: Tcp, n: nat, now: nat): Tcp
    requires n <= t.sentUnacked <= |t.queue|
  {
    t.(dupAcks := 0, lastProgress := now, sentUnacked := t.sentUnacked - n, seqUna := Wrap32(t.seqUna + n),
       queue := t.queue[n..])
  }

  /** The guest acked the FIN's sequence number. */
  function AckFin(t: Tcp): Tcp { t.(seqUna := Wrap32(t.seqUna + 1), hostFin := Acked) }

  /** The guest acked `advance` sequence numbers: bytes in flight, and the FIN behind the last of them. */
  function Advance(t: Tcp, advance: nat, now: nat): Tcp
    requires t.sentUnacked <= |t.queue| && 0 < advance <= MaxAdvance(t)
  {
    var n := Min(advance, t.sentUnacked);
    if advance > n then AckFin(AckData(t, n, now)) else AckData(t, n, now)
  }

  /** The third duplicate ack in a row rewinds everything in flight. */
  function Duplicate(t: Tcp): Tcp {
    if t.dupAcks + 1 >= 3 then t.(dupAcks := 0, sentUnacked := 0) else t.(dupAcks := t.dupAcks + 1)
  }

  /** Same ack, no data, no FIN, no window change, something in flight. */
  predicate IsDuplicate(t: Tcp, h: Header, payloadEmpty: bool) {
    && Wrap32(h.ackno - t.seqUna) == 0 && payloadEmpty && !h.flags.fin
    && t.sentUnacked > 0 && ScaledWindow(t, h.window) == t.guestWindow
  }

  function AckFromGuest(t: Tcp, h: Header, payloadEmpty: bool, now: nat): (r: Tcp)
    requires t.sentUnacked <= |t.queue|
    ensures r.sentUnacked <= |r.queue| && r.guestMss == t.guestMss
  {
    var t1 := t.(guestWindow := ScaledWindow(t, h.window));
    var advance := Wrap32(h.ackno - t.seqUna);
    if 0 < advance <= MaxAdvance(t) then Advance(t1, advance, now)
    else if IsDuplicate(t, h, payloadEmpty) then Duplicate(t1)
    else t1
  }

  // ---------------------------------------------------------------------------------------------
  // Host bytes to the guest
  // ---------------------------------------------------------------------------------------------

  /** What one read into `free > 0` bytes of space returns: at most `free` of the waiting bytes. */
  function Read(recv: Recv, free: nat): Recv {
    match recv
    case Data(waiting) => if waiting == [] then Again else Data(waiting[..Min(free, |waiting|)])
    case _ => recv
  }

  /** Top up the queue; the second component tells whether the socket was drained. */
  function Fill(c: Conn, recv: Recv): (Conn, bool) {
    if c.t.hostEof || |c.t.queue| >= FRAME then (c, false)
    else
      var free := FRAME - |c.t.queue|;
      match Read(recv, free)
      case Again => (c, true)
      case Failed => (Reset(c), false)
      case Eof => (c.(t := c.t.(hostEof := true)), false)
      case Data(bytes) =>
        (c.(t := c.t.(queue := c.t.queue + bytes), io := c.io.(fromHost := c.io.fromHost + bytes)), |bytes| < free)
  }

  /** Payload bytes per frame. */
  function Chunk(sendLen: nat, mss: nat, gso: bool): nat {
    if gso then Min(sendLen, MAX_PAYLOAD) else Min(Min(sendLen, mss), MAX_PAYLOAD)
  }

  /** Unsent bytes that fit into the guest's window. */
  function SendLen(t: Tcp, budget: nat): int { Min(|t.queue| - t.sentUnacked, budget) }

  /** Super-frames with TSO, MSS-sized frames otherwise. */
  function FramingOf(c: Conn, len: nat, tso: bool): Framing {
    var gso := tso && len > c.t.guestMss;
    Framing(Chunk(len, c.t.guestMss, gso), c.t.seqUna + c.t.sentUnacked - SendOffset(c), c.t.seqFromGuest,
            if gso then Some(c.t.guestMss) else None)
  }

  /** The unsent bytes that fit into `budget`, as frames. */
  function NewSegments(c: Conn, budget: nat, tso: bool): seq<Segment>
    requires c.t.sentUnacked < |c.t.queue| && budget > 0 && c.t.guestMss > 0
  {
    var sent, len := c.t.sentUnacked, SendLen(c.t, budget);
    Cut(c.t.queue[sent..sent + len], FramingOf(c, len, tso), SendOffset(c))
  }

  /** Send what fits into `budget`. */
  function SendBurst(c: Conn, budget: nat, tso: bool, now: nat): Conn
    requires c.t.sentUnacked < |c.t.queue| && budget > 0 && c.t.guestMss > 0
  {
    var c' := Emit(c, NewSegments(c, budget, tso));
    c'.(t := c'.t.(sentUnacked := c'.t.sentUnacked + SendLen(c.t, budget), lastProgress := now))
  }

  /** Once everything is sent and the socket is drained, wait for the socket. */
  function SendNew(c: Conn, budget: nat, drained: bool, tso: bool, now: nat): Conn
    requires c.t.sentUnacked < |c.t.queue| && budget > 0 && c.t.guestMss > 0
  {
    var c' := SendBurst(c, budget, tso, now);
    if drained && c'.t.sentUnacked == |c'.t.queue| && !c'.t.pollArmed then Arm(c') else c'
  }

  /** Nothing is left to send: forward the host's FIN, or wait for the socket. */
  function SendNothing(c: Conn, drained: bool, now: nat): Conn {
    if c.t.hostEof && c.t.sentUnacked == 0 then
      var c' := SendControl(c, FIN_ACK);
      c'.(t := c'.t.(hostFin := Sent, lastProgress := now))
    else if drained && !c.t.pollArmed then Arm(c)
    else c
  }

  /** After a read: send the unsent bytes, or deal with there being none. */
  function Forward(c: Conn, budget: nat, drained: bool, tso: bool, now: nat): Conn
    requires c.t.sentUnacked <= |c.t.queue| && c.t.guestMss > 0 && budget > 0
  {
    if |c.t.queue| == c.t.sentUnacked then SendNothing(c, drained, now) else SendNew(c, budget, drained, tso, now)
  }

  /** After a read that did not end the flow. */
  function AfterFill(c: Conn, budget: nat, drained: bool, tso: bool, now: nat): Conn
    requires c.t.sentUnacked <= |c.t.queue| && c.t.guestMss > 0 && budget > 0
  {
    if c.gone.Some? then c else Forward(c, budget, drained, tso, now)
  }

  /** Whether host bytes, or the host's FIN, may go out now. */
  predicate MaySend(t: Tcp) {
    && t.state.Established? && t.hostFin.NotSent?
    && !(t.pollArmed && |t.queue| == t.sentUnacked && !t.hostEof)
    && t.guestWindow > t.sentUnacked
  }

  function DataToGuest(c: Conn, recv: Recv, tso: bool, now: nat): Conn
    requires c.t.sentUnacked <= |c.t.queue| && c.t.guestMss > 0
  {
    if !MaySend(c.t) then c
    else AfterFill(Fill(c, recv).0, c.t.guestWindow - c.t.sentUnacked, Fill(c, recv).1, tso, now)
  }

  // ---------------------------------------------------------------------------------------------
  // Guest bytes to the host
  // ---------------------------------------------------------------------------------------------

  /** Bytes the socket takes of an in-order payload; none after the write side was shut down. */
  function Accepted(c: Conn, h: Header, payload: seq<byte>, accept: nat): nat {
    if h.seqno != c.t.seqFromGuest || c.io.shutAt.Some? then 0 else Min(accept, |payload|)
  }

  function TakePayload(c: Conn, payload: seq<byte>, n: nat): Conn
    requires n <= |payload|
  {
    c.(t := c.t.(seqFromGuest := Wrap32(c.t.seqFromGuest + n)),
       io := c.io.(toHost := c.io.toHost + payload[..n], quiet := c.io.quiet + if payload == [] then 0 else 1))
  }

  /** Only a fully accepted frame without PSH may leave its ack to the next one. */
  predicate MayDefer(c: Conn, h: Header, payload: seq<byte>, n: nat) {
    n == |payload| && !h.flags.psh && !c.t.ackDeferred
  }

  function TakeFin(c: Conn, h: Header, payload: seq<byte>): Conn {
    if !c.t.guestFin && Wrap32(h.seqno + |payload|) == c.t.seqFromGuest then
      c.(t := c.t.(guestFin := true, seqFromGuest := Wrap32(c.t.seqFromGuest + 1)),
         io := c.io.(shutAt := Some(|c.io.toHost|)))
    else c
  }

  /** The whole upload side; it leaves the download side alone. */
  function Upload(c: Conn, h: Header, payload: seq<byte>, accept: nat): (r: Conn)
    ensures r.t.queue == c.t.queue && r.t.sentUnacked == c.t.sentUnacked && r.t.guestMss == c.t.guestMss
  {
    var n := Accepted(c, h, payload, accept);
    var fin := h.flags.fin && n == |payload|;
    var defer := payload != [] && MayDefer(c, h, payload, n);
    var c1 := TakePayload(c, payload, n);
    var c2 := if defer then c1.(t := c1.t.(ackDeferred := true)) else c1;
    var c3 := if fin then TakeFin(c2, h, payload) else c2;
    if fin || (payload != [] && !defer) then SendControl(c3.(t := c3.t.(ackDeferred := false)), ACK) else c3
  }

  // ---------------------------------------------------------------------------------------------
  // Handlers
  // ---------------------------------------------------------------------------------------------

  function HandleSyn(c: Conn): Conn {
    SendSynAck(c.(t := c.t.(sentUnacked := 0, dupAcks := 0)))
  }

  function HandleGuest(c: Conn, h: Header, payload: seq<byte>, accept: nat, recv: Recv, tso: bool, now: nat): Conn
    requires c.t.sentUnacked <= |c.t.queue| && c.t.guestMss > 0
  {
    if h.flags.rst then Remove(c, ByGuest)
    else if c.t.state.Connecting? then c
    else if h.flags.syn then HandleSyn(c)
    else
      var c1 := if h.flags.ack then c.(t := AckFromGuest(c.t, h, payload == [], now)) else c;
      MaybeClose(DataToGuest(Upload(c1, h, payload, accept), recv, tso, now))
  }

  function HandleReady(c: Conn, pollErr: bool, pollHup: bool, sockErr: bool, recv: Recv, tso: bool, now: nat): Conn
    requires c.t.sentUnacked <= |c.t.queue| && c.t.guestMss > 0
  {
    var c1 := c.(t := c.t.(pollArmed := false));
    match c.t.state
    case Connecting =>
      if pollErr || pollHup || sockErr then Reset(c1)
      else Arm(SendSynAck(c1.(t := c1.t.(state := Established))))
    case Established =>
      if pollErr || sockErr then Reset(c1) else MaybeClose(DataToGuest(c1, recv, tso, now))
  }

  /** The flows the timer looks at. */
  predicate TimerDue(t: Tcp, cutoff: nat) {
    t.ackDeferred
    || (t.lastProgress < cutoff
        && (t.sentUnacked > 0 || t.hostFin.Sent? || (t.guestWindow == 0 && t.state.Established?)))
  }

  function FlushAck(c: Conn): Conn {
    if c.t.ackDeferred then SendControl(c.(t := c.t.(ackDeferred := false)), ACK) else c
  }

  /** Everything in flight counts as lost. */
  function Rewind(c: Conn, now: nat): Conn {
    c.(t := c.t.(sentUnacked := 0, dupAcks := 0, lastProgress := now))
  }

  /** No progress for a timeout: resend everything in flight, or the FIN, or probe a closed window. */
  function HandleStale(c: Conn, recv: Recv, tso: bool, now: nat): Conn
    requires c.t.sentUnacked <= |c.t.queue| && c.t.guestMss > 0
  {
    if c.t.sentUnacked > 0 then DataToGuest(Rewind(c, now), recv, tso, now)
    else if c.t.hostFin.Sent? then SendControl(c.(t := c.t.(lastProgress := now)), FIN_ACK)
    else if c.t.guestWindow == 0 && c.t.state.Established? then SendProbe(c.(t := c.t.(lastProgress := now)))
    else c
  }

  function HandleDue(c: Conn, cutoff: nat, recv: Recv, tso: bool, now: nat): Conn
    requires c.t.sentUnacked <= |c.t.queue| && c.t.guestMss > 0
  {
    if c.t.lastProgress >= cutoff then FlushAck(c) else HandleStale(FlushAck(c), recv, tso, now)
  }

  function HandleTimer(c: Conn, recv: Recv, tso: bool, now: nat): Conn
    requires c.t.sentUnacked <= |c.t.queue| && c.t.guestMss > 0
  {
    if now < RTO || !TimerDue(c.t, now - RTO) then c else HandleDue(c, now - RTO, recv, tso, now)
  }

  function Step(c: Conn, tso: bool, e: Event): Conn
    requires c.t.sentUnacked <= |c.t.queue| && c.t.guestMss > 0
  {
    if c.gone.Some? then c
    else
      match e
      case FromGuest(h, payload, accept, recv, now) => HandleGuest(c, h, payload, accept, recv, tso, now)
      case SocketReady(pollErr, pollHup, sockErr, recv, now) =>
        HandleReady(c, pollErr, pollHup, sockErr, recv, tso, now)
      case PollFailed => Reset(c)
      case TimerTick(recv, now) => HandleTimer(c, recv, tso, now)
  }
}
