/** UDP super-frames: datagrams drained from a socket towards the guest, and split again coming from it. */
module UdpCoalescing {
  import opened Words
  import opened Buffers
  import opened Wire

  type Datagram = seq<byte>

  /** A frame on the tap; with a segment size its payload stands for several datagrams. */
  datatype Frame = Frame(payload: seq<byte>, gso: Option<nat>)

  const MAX_PAYLOAD: nat := 65507 // 65535 - 20 - 8: the IPv4 total length bounds a super-frame

  // ---------------------------------------------------------------------------------------------
  // Splitting
  // ---------------------------------------------------------------------------------------------

  function Split(payload: seq<byte>, seg: nat): seq<Datagram>
    requires seg > 0
    decreases |payload|
  {
    if payload == [] then []
    else if |payload| <= seg then [payload]
    else [payload[..seg]] + Split(payload[seg..], seg)
  }

  predicate FrameOk(f: Frame) { f.gso.Some? ==> f.gso.value > 0 }

  predicate FramesOk(fs: seq<Frame>) { forall i :: 0 <= i < |fs| ==> FrameOk(fs[i]) }

  /** The datagrams that a frame stands for. */
  function Datagrams(f: Frame): seq<Datagram>
    requires FrameOk(f)
  {
    if f.gso.None? then [f.payload] else Split(f.payload, f.gso.value)
  }

  function AllDatagrams(fs: seq<Frame>): seq<Datagram>
    requires FramesOk(fs)
  {
    if fs == [] then [] else Datagrams(fs[0]) + AllDatagrams(fs[1..])
  }

  function Concat(ds: seq<Datagram>): seq<byte> {
    if ds == [] then [] else ds[0] + Concat(ds[1..])
  }

  /** Datagrams that may share a super-frame: all of one size but for a shorter last one. */
  predicate Uniform(ds: seq<Datagram>, seg: nat) {
    && (forall i :: 0 <= i < |ds| ==> 0 < |ds[i]| <= seg)
    && (forall i :: 0 <= i < |ds| - 1 ==> |ds[i]| == seg)
  }

  /** Splitting inverts joining ... */
  lemma {:induction false} SplitConcat(ds: seq<Datagram>, seg: nat)
    requires seg > 0 && Uniform(ds, seg)
    ensures Split(Concat(ds), seg) == ds
    decreases |ds|
  {
    if |ds| == 1 {
      assert ds[1..] == [];
      assert Concat(ds) == ds[0];
      assert ds == [ds[0]];
    } else if |ds| > 1 {
      assert Uniform(ds[1..], seg);
      SplitConcat(ds[1..], seg);
      var rest := Concat(ds[1..]);
      assert ds[1..][0] == ds[1];
      assert |rest| > 0;
      assert (ds[0] + rest)[..seg] == ds[0] && (ds[0] + rest)[seg..] == rest;
      assert ds == [ds[0]] + ds[1..];
    }
  }

  /** ... and joining inverts splitting, whose pieces may always share a frame. */
  lemma {:induction false} ConcatSplit(payload: seq<byte>, seg: nat)
    requires seg > 0
    ensures Concat(Split(payload, seg)) == payload && Uniform(Split(payload, seg), seg)
    decreases |payload|
  {
    if payload != [] && |payload| <= seg {
      assert [payload][1..] == [];
    } else if |payload| > seg {
      var rest := payload[seg..];
      ConcatSplit(rest, seg);
      var ds := Split(rest, seg);
      assert ([payload[..seg]] + ds)[1..] == ds;
      assert payload == payload[..seg] + rest;
    }
  }

  /** The loop over a guest's super-frame: what is forwarded are its datagrams in order. */
  method SplitFromGuest(payload: seq<byte>, gso: Option<nat>) returns (forwarded: seq<Datagram>)
    requires gso.Some? ==> gso.value > 0
    ensures forwarded == Datagrams(Frame(payload, gso))
  {
    if gso.None? {
      return [payload];
    }
    var seg, off := gso.value, 0;
    forwarded := [];
    while off < |payload|
      invariant 0 <= off <= |payload|
      invariant forwarded + Split(payload[off..], seg) == Split(payload, seg)
    {
      var end := Min(off + seg, |payload|);
      SplitAt(payload, off, end, seg, forwarded);
      forwarded := forwarded + [payload[off..end]];
      off := end;
    }
  }

  lemma SplitStep(p: seq<byte>, seg: nat)
    requires seg > 0 && p != []
    ensures Split(p, seg) == [p[..Min(seg, |p|)]] + Split(p[Min(seg, |p|)..], seg)
  {
    if |p| <= seg { assert p[..|p|] == p && p[|p|..] == []; }
  }

  lemma SplitAt(payload: seq<byte>, off: nat, end: nat, seg: nat, before: seq<Datagram>)
    requires seg > 0 && off < |payload| && end == Min(off + seg, |payload|)
    ensures before + Split(payload[off..], seg) == before + [payload[off..end]] + Split(payload[end..], seg)
  {
    var p := payload[off..];
    SplitStep(p, seg);
    assert p[..end - off] == payload[off..end] && p[end - off..] == payload[end..];
  }

  // ---------------------------------------------------------------------------------------------
  // Coalescing
  // ---------------------------------------------------------------------------------------------

  datatype Drained = Drained(frames: seq<Frame>, left: seq<Datagram>)

  /** A single datagram carries no segment size. */
  function FrameOf(payload: seq<byte>, seg: nat): Frame {
    Frame(payload, if |payload| > seg then Some(seg) else None)
  }

  /** Drain the queue behind a super-frame under construction. */
  function Drain(payload: seq<byte>, seg: nat, queue: seq<Datagram>): Drained
    decreases |queue|
  {
    if queue == [] then Drained([FrameOf(payload, seg)], [])
    else
      var d, rest := queue[0], queue[1..];
      if d == [] then Drained([FrameOf(payload, seg), Frame([], None)], rest)
      else if |d| <= seg && |payload| + |d| <= MAX_PAYLOAD then
        if |d| < seg then Drained([FrameOf(payload + d, seg)], rest) else Drain(payload + d, seg, rest)
      else
        var next := Drain(d, |d|, rest);
        next.(frames := [FrameOf(payload, seg)] + next.frames)
  }

  function Coalesce(first: Datagram, queue: seq<Datagram>, offload: bool): Drained {
    if !offload || first == [] then Drained([Frame(first, None)], queue) else Drain(first, |first|, queue)
  }

  /** A payload of whole segments. */
  predicate Whole(payload: seq<byte>, seg: nat)
    requires seg > 0
    decreases |payload|
  {
    payload == [] || (|payload| >= seg && Whole(payload[seg..], seg))
  }

  lemma {:induction false} SplitAppend(p: seq<byte>, d: Datagram, seg: nat)
    requires seg > 0 && Whole(p, seg) && 0 < |d| <= seg
    ensures Split(p + d, seg) == Split(p, seg) + [d]
    ensures |d| == seg ==> Whole(p + d, seg)
    decreases |p|
  {
    if p == [] {
      assert p + d == d;
      assert |d| == seg ==> d[seg..] == [];
    } else {
      SplitAppend(p[seg..], d, seg);
      assert (p + d)[seg..] == p[seg..] + d && (p + d)[..seg] == p[..seg];
      SplitStep(p, seg);
      SplitStep(p + d, seg);
    }
  }

  lemma FrameOfDatagrams(p: seq<byte>, seg: nat)
    requires seg > 0 && p != []
    ensures FrameOk(FrameOf(p, seg)) && Datagrams(FrameOf(p, seg)) == Split(p, seg)
  {
  }

  ghost predicate Preserved(r: Drained, ds: seq<Datagram>) {
    FramesOk(r.frames) && AllDatagrams(r.frames) + r.left == ds
  }

  lemma Prepend(f: Frame, r: Drained, ds: seq<Datagram>)
    requires FrameOk(f) && Preserved(r, ds)
    ensures Preserved(r.(frames := [f] + r.frames), Datagrams(f) + ds)
  {
    var fs := [f] + r.frames;
    assert fs[1..] == r.frames;
    assert Datagrams(f) + AllDatagrams(r.frames) + r.left == Datagrams(f) + (AllDatagrams(r.frames) + r.left);
  }

  lemma Single(f: Frame, left: seq<Datagram>)
    requires FrameOk(f)
    ensures Preserved(Drained([f], left), Datagrams(f) + left)
  {
    Prepend(f, Drained([], left), left);
    assert [f] + [] == [f];
  }

  /**
    Resegmenting the emitted frames gives back exactly the drained datagrams, in order and with their
    boundaries, and what was not drained is still queued.
   */
  lemma {:induction false} DrainPreserves(payload: seq<byte>, seg: nat, queue: seq<Datagram>)
    requires seg > 0 && payload != [] && Whole(payload, seg)
    ensures Preserved(Drain(payload, seg, queue), Split(payload, seg) + queue)
    decreases |queue|, 1
  {
    FrameOfDatagrams(payload, seg);
    if queue == [] {
      Single(FrameOf(payload, seg), []);
    } else if queue[0] == [] {
      var empty := Frame([], None);
      Single(empty, queue[1..]);
      Prepend(FrameOf(payload, seg), Drained([empty], queue[1..]), [[]] + queue[1..]);
      assert queue == [[]] + queue[1..];
      assert [FrameOf(payload, seg)] + [empty] == [FrameOf(payload, seg), empty];
    } else if |queue[0]| <= seg && |payload| + |queue[0]| <= MAX_PAYLOAD {
      JoinPreserves(payload, seg, queue[0], queue[1..], queue);
    } else {
      var d, rest := queue[0], queue[1..];
      assert Whole(d, |d|) by { assert d[|d|..] == []; }
      DrainPreserves(d, |d|, rest);
      assert Split(d, |d|) + rest == queue;
      Prepend(FrameOf(payload, seg), Drain(d, |d|, rest), queue);
    }
  }

  lemma {:induction false} JoinPreserves(payload: seq<byte>, seg: nat, d: Datagram, rest: seq<Datagram>,
                                         queue: seq<Datagram>)
    requires seg > 0 && payload != [] && Whole(payload, seg)
    requires 0 < |d| <= seg && |payload| + |d| <= MAX_PAYLOAD && queue == [d] + rest
    ensures Preserved(Drain(payload, seg, queue), Split(payload, seg) + queue)
    decreases |queue|, 0
  {
    SplitAppend(payload, d, seg);
    assert queue[1..] == rest;
    assert Split(payload, seg) + queue == Split(payload + d, seg) + rest;
    if |d| < seg {
      FrameOfDatagrams(payload + d, seg);
      Single(FrameOf(payload + d, seg), rest);
    } else {
      DrainPreserves(payload + d, seg, rest);
    }
  }

  /** No datagram is lost, invented, merged, cut or reordered. */
  lemma CoalescePreserves(first: Datagram, queue: seq<Datagram>, offload: bool)
    ensures var r := Coalesce(first, queue, offload);
            FramesOk(r.frames) && AllDatagrams(r.frames) + r.left == [first] + queue
  {
    Single(Frame(first, None), queue);
    if offload && first != [] {
      assert first[|first|..] == [];
      DrainPreserves(first, |first|, queue);
    }
  }

  /** A frame that fits: UDP header and payload in 16 bits, a super-frame within the IPv4 limit as well. */
  predicate Fits(f: Frame) {
    && 8 + |f.payload| <= 65535
    && (f.gso.Some? ==> 0 < f.gso.value < |f.payload| <= MAX_PAYLOAD)
  }

  predicate AllFit(fs: seq<Frame>) { forall i :: 0 <= i < |fs| ==> Fits(fs[i]) }

  predicate Sendable(ds: seq<Datagram>) { forall i :: 0 <= i < |ds| ==> |ds[i]| <= 65527 }

  lemma {:induction false} DrainFits(payload: seq<byte>, seg: nat, queue: seq<Datagram>)
    requires Sendable(queue) && seg > 0 && seg <= |payload| <= 65527 && (|payload| > seg ==> |payload| <= MAX_PAYLOAD)
    ensures AllFit(Drain(payload, seg, queue).frames)
    decreases |queue|
  {
    if queue != [] {
      var d, rest := queue[0], queue[1..];
      if d != [] {
        if |d| == seg && |payload| + |d| <= MAX_PAYLOAD {
          DrainFits(payload + d, seg, rest);
        } else if |d| > seg || |payload| + |d| > MAX_PAYLOAD {
          DrainFits(d, |d|, rest);
        }
      }
    }
  }

  /** Every emitted frame fits its 16-bit length fields, and every segment size fits its field. */
  lemma CoalesceFits(first: Datagram, queue: seq<Datagram>, offload: bool)
    requires |first| <= 65527 && Sendable(queue)
    ensures AllFit(Coalesce(first, queue, offload).frames)
  {
    if offload && first != [] { DrainFits(first, |first|, queue); }
  }

  /** Datagrams of one size leave in one frame as long as they fit one. */
  lemma {:induction false} RunIsOneFrame(payload: seq<byte>, seg: nat, queue: seq<Datagram>)
    requires seg > 0 && payload != []
    requires forall i :: 0 <= i < |queue| ==> |queue[i]| == seg
    requires |payload| + |Concat(queue)| <= MAX_PAYLOAD
    ensures Drain(payload, seg, queue) == Drained([FrameOf(payload + Concat(queue), seg)], [])
    decreases |queue|
  {
    if queue == [] {
      assert payload + Concat(queue) == payload;
    } else {
      var d, rest := queue[0], queue[1..];
      assert payload + Concat(queue) == payload + d + Concat(rest);
      RunIsOneFrame(payload + d, seg, rest);
    }
  }

  // ---------------------------------------------------------------------------------------------
  // The drain loop
  // ---------------------------------------------------------------------------------------------

  /** A non-blocking receive into the buffer behind `at`; what does not fit would be cut off. */
  method Receive(buf: array<byte>, at: nat, d: Datagram) returns (n: nat)
    requires at <= buf.Length
    modifies buf
    ensures n == Min(|d|, buf.Length - at)
    ensures buf[..at + n] == old(buf[..at]) + d[..n]
  {
    n := Min(|d|, buf.Length - at);
    Put(buf, at, d[..n]);
  }

  /** There is always room for a whole datagram behind the payload. */
  method ReceiveBehind(buf: array<byte>, total: nat, d: Datagram) returns (n: nat)
    requires buf.Length == BUF_SIZE && total <= 65527 && |d| <= 65527
    modifies buf
    ensures n == |d| && buf[HEADROOM..HEADROOM + total] == old(buf[HEADROOM..HEADROOM + total])
    ensures buf[HEADROOM + total..HEADROOM + total + n] == d
    ensures buf[HEADROOM..HEADROOM + total + n] == old(buf[HEADROOM..HEADROOM + total]) + d
  {
    ghost var before := buf[..HEADROOM + total];
    assert before[HEADROOM..] == buf[HEADROOM..HEADROOM + total];
    n := Receive(buf, HEADROOM + total, d);
    assert d[..n] == d;
    Appended(buf[..], before, d, HEADROOM);
  }

  lemma Appended(s: seq<byte>, before: seq<byte>, d: seq<byte>, from: nat)
    requires from <= |before| && |before| + |d| <= |s| && s[..|before| + |d|] == before + d
    ensures s[from..|before|] == before[from..] && s[|before|..|before| + |d|] == d
    ensures s[from..|before| + |d|] == before[from..] + d
  {
    var all := before + d;
    assert s[from..|before| + |d|] == all[from..] && s[from..|before|] == all[from..|before|];
    assert s[|before|..|before| + |d|] == all[|before|..];
  }

  /** Move what lies behind the payload to the front of it. */
  method CopyDown(buf: array<byte>, total: nat, n: nat)
    requires HEADROOM + total + n <= buf.Length
    modifies buf
    ensures buf[HEADROOM..HEADROOM + n] == old(buf[HEADROOM + total..HEADROOM + total + n])
  {
    var moved := buf[HEADROOM + total..HEADROOM + total + n];
    Put(buf, HEADROOM, moved);
    assert buf[HEADROOM..HEADROOM + n] == buf[..HEADROOM + n][HEADROOM..];
  }

  /** What is left to emit is the rest of what was to be emitted. */
  ghost predicate Towards(goal: Drained, frames: seq<Frame>, r: Drained) {
    goal == Drained(frames + r.frames, r.left)
  }

  lemma Emitted(goal: Drained, frames: seq<Frame>, f: Frame, r: Drained)
    requires Towards(goal, frames, r.(frames := [f] + r.frames))
    ensures Towards(goal, frames + [f], r)
  {
    assert frames + [f] + r.frames == frames + ([f] + r.frames);
  }

  /** Drain the socket behind the `len` bytes of the first datagram, into the same buffer. */
  method DrainSocket(buf: array<byte>, len: nat, queue: seq<Datagram>)
      returns (frames: seq<Frame>, left: seq<Datagram>)
    requires buf.Length == BUF_SIZE && 0 < len <= 65527 && Sendable(queue)
    modifies buf
    ensures Drained(frames, left) == Drain(old(buf[HEADROOM..HEADROOM + len]), len, queue)
  {
    frames, left := [], queue;
    var seg, total := len, len;
    ghost var goal := Drain(buf[HEADROOM..HEADROOM + len], len, queue);
    while left != []
      invariant 0 < seg <= total <= 65527 && Sendable(left)
      invariant Towards(goal, frames, Drain(buf[HEADROOM..HEADROOM + total], seg, left))
      decreases |left|
    {
      ghost var payload := buf[HEADROOM..HEADROOM + total];
      ghost var d := left[0];
      var n := ReceiveBehind(buf, total, left[0]);
      left := left[1..];
      if n == 0 {
        frames := frames + [FrameOf(buf[HEADROOM..HEADROOM + total], seg), Frame([], None)];
        return;
      }
      if n <= seg && total + n <= MAX_PAYLOAD {
        total := total + n;
        if n < seg {
          break;
        }
      } else {
        Emitted(goal, frames, FrameOf(payload, seg), Drain(d, n, left));
        frames := frames + [FrameOf(buf[HEADROOM..HEADROOM + total], seg)];
        CopyDown(buf, total, n);
        seg, total := n, n;
      }
    }
    frames := frames + [FrameOf(buf[HEADROOM..HEADROOM + total], seg)];
  }

  /**
    Deliver the datagram of `len` bytes in the buffer, and what the socket has behind it.  `queue` is what the
    socket yields before it would block or fail.  No datagram is truncated.
   */
  method ToGuest(buf: array<byte>, len: nat, queue: seq<Datagram>, offload: bool)
      returns (frames: seq<Frame>, left: seq<Datagram>)
    requires buf.Length == BUF_SIZE && len <= 65527 && Sendable(queue)
    modifies buf
    ensures Drained(frames, left) == Coalesce(old(buf[HEADROOM..HEADROOM + len]), queue, offload)
  {
    if !offload || len == 0 {
      return [Frame(buf[HEADROOM..HEADROOM + len], None)], queue;
    }
    frames, left := DrainSocket(buf, len, queue);
  }
}
