/** The checksums of the segments that a flow hands to the tap. */
module TapChecksums {
  import opened Words
  import opened TcpModel
  import opened TcpInvariant
  import opened Wire
  import opened Headers

  /**
    In every state of every run, every segment on the tap is short enough for its length fields, so
    wherever its payload wraps around the ring, the checksum written into its header verifies at the
    receiver, and the offloaded form completes to the same value.
   */
  lemma TapSegmentsVerify(c: Conn, s: Segment, split: nat, e: Ends, f: TcpFields)
    requires Inv(c) && s in c.io.tap && split <= |s.payload| && EndsOk(e)
    ensures var a, b := s.payload[..split], s.payload[split..];
            && TCP_HDR_LEN + |s.options| + |s.payload| < TWO16
            && |s.options| % 4 == 0
            && ChecksumsHold(e, TcpFront(f, s.options), s.options, a, b)
  {
    assert Fits(s);
    TcpFrontLen(f, s.options);
    SegmentVerifies(e, TcpFront(f, s.options), s.options, s.payload[..split], s.payload[split..]);
  }
}
