/** The flow's buffer used as a ring: which bytes it holds, and what moving its ends does to them. */
module Ring {
  import opened Words
  import opened Buffers

  /** Ring position `i` bytes past position `at`. */
  function Slot(at: nat, i: nat): nat { (at + i) % FRAME }

  lemma SlotSum(at: nat, i: nat, j: nat)
    ensures Slot(Slot(at, i), j) == Slot(at, i + j)
    ensures Slot(at, i + FRAME) == Slot(at, i)
  {
  }

  /** The `n` bytes from position `head` on, wherever they wrap. */
  function Held(ring: seq<byte>, head: nat, n: nat): (q: seq<byte>)
    requires |ring| == FRAME
    ensures |q| == n
  {
    seq(n, i requires 0 <= i < n => ring[Slot(head, i)])
  }

  /** Advancing the head drops the oldest bytes. */
  lemma HeldDrop(ring: seq<byte>, head: nat, n: nat, k: nat)
    requires |ring| == FRAME && head < FRAME && k <= n
    ensures Held(ring, Slot(head, k), n - k) == Held(ring, head, n)[k..]
  {
    forall i | 0 <= i < n - k ensures Held(ring, Slot(head, k), n - k)[i] == Held(ring, head, n)[k..][i] {
      SlotSum(head, k, i);
    }
  }

  /** A stretch of the held bytes is one slice of the ring, or two when it wraps. */
  lemma HeldSlice(ring: seq<byte>, head: nat, n: nat, from: nat, len: nat)
    requires |ring| == FRAME && head < FRAME && n <= FRAME && from + len <= n
    ensures var pos := Slot(head, from);
            var first := Min(len, FRAME - pos);
            Held(ring, head, n)[from..from + len] == ring[pos..pos + first] + ring[..len - first]
  {
    var pos := Slot(head, from);
    var first := Min(len, FRAME - pos);
    var held, cut := Held(ring, head, n)[from..from + len], ring[pos..pos + first] + ring[..len - first];
    forall i | 0 <= i < len ensures held[i] == cut[i] {
      SlotWraps(head, from, i);
      assert held[i] == Held(ring, head, n)[from + i] == ring[Slot(head, from + i)];
      if i < first {
        assert cut[i] == ring[pos..pos + first][i] == ring[pos + i];
      } else {
        assert cut[i] == ring[..len - first][i - first] == ring[i - first];
      }
    }
  }

  lemma SlotWraps(at: nat, from: nat, i: nat)
    requires i < FRAME
    ensures var pos := Slot(at, from); Slot(at, from + i) == if pos + i < FRAME then pos + i else pos + i - FRAME
  {
  }

  lemma SliceInMemory(mem: seq<byte>, base: nat, head: nat, n: nat, from: nat, len: nat)
    requires base + FRAME <= |mem| && head < FRAME && n <= FRAME && from + len <= n
    ensures var pos := Slot(head, from);
            var first := Min(len, FRAME - pos);
            Held(Window(mem, base), head, n)[from..from + len]
            == mem[base + pos..base + pos + first] + mem[base..base + (len - first)]
  {
    var pos := Slot(head, from);
    var first := Min(len, FRAME - pos);
    HeldSlice(Window(mem, base), head, n, from, len);
    SliceOfSlice(mem, base, FRAME, pos, first);
    SliceOfSlice(mem, base, FRAME, 0, len - first);
    assert Window(mem, base)[0..len - first] == Window(mem, base)[..len - first];
  }

  /** `bytes` were written from position `pos` on, around the end, and nothing else changed. */
  ghost predicate Written(ring: seq<byte>, ring': seq<byte>, pos: nat, bytes: seq<byte>)
    requires |ring| == FRAME
  {
    && |ring'| == FRAME
    && (forall i :: 0 <= i < |bytes| ==> ring'[Slot(pos, i)] == bytes[i])
    && (forall i :: |bytes| <= i < FRAME ==> ring'[Slot(pos, i)] == ring[Slot(pos, i)])
  }

  /** What does not fit before the end of the ring is written from its start on. */
  lemma WrittenParts(ring: seq<byte>, ring': seq<byte>, pos: nat, bytes: seq<byte>)
    requires |ring| == |ring'| == FRAME && pos < FRAME && |bytes| <= FRAME
    requires var first := Min(|bytes|, FRAME - pos);
             && (forall i :: pos <= i < pos + first ==> ring'[i] == bytes[i - pos])
             && (forall i :: 0 <= i < |bytes| - first ==> ring'[i] == bytes[first + i])
             && (forall i :: |bytes| - first <= i < pos ==> ring'[i] == ring[i])
             && (forall i :: pos + first <= i < FRAME && |bytes| - first <= i ==> ring'[i] == ring[i])
    ensures Written(ring, ring', pos, bytes)
  {
    var first := Min(|bytes|, FRAME - pos);
    forall i | 0 <= i < FRAME
      ensures ring'[Slot(pos, i)] == if i < |bytes| then bytes[i] else ring[Slot(pos, i)]
    {
      var k := if pos + i < FRAME then pos + i else pos + i - FRAME;
      assert Slot(pos, i) == k;
      if pos + i >= FRAME && i < |bytes| { assert ring'[k] == bytes[first + k]; }
    }
  }

  /** Writing behind the held bytes, into no more than the free space, appends them. */
  lemma HeldAppend(ring: seq<byte>, ring': seq<byte>, head: nat, n: nat, bytes: seq<byte>)
    requires |ring| == FRAME && head < FRAME && n + |bytes| <= FRAME
    requires Written(ring, ring', Slot(head, n), bytes)
    ensures Held(ring', head, n + |bytes|) == Held(ring, head, n) + bytes
  {
    var held, sum := Held(ring', head, n + |bytes|), Held(ring, head, n) + bytes;
    forall i | 0 <= i < n + |bytes| ensures held[i] == sum[i] {
      var j := if i < n then i + FRAME - n else i - n;
      SlotSum(head, n, j);
      SlotSum(head, i, 0);
      assert Slot(Slot(head, n), j) == Slot(head, i);
    }
  }

  // ---------------------------------------------------------------------------------------------
  // A ring within a larger memory
  // ---------------------------------------------------------------------------------------------

  /** The ring that starts at `base`. */
  function Window(mem: seq<byte>, base: nat): (ring: seq<byte>)
    requires base + FRAME <= |mem|
    ensures |ring| == FRAME
  {
    mem[base..base + FRAME]
  }

  /** Nothing changed but the ring that starts at `base`. */
  ghost predicate OnlyWindow(mem: seq<byte>, mem': seq<byte>, base: nat) {
    |mem'| == |mem| && forall i :: 0 <= i < |mem| && !(base <= i < base + FRAME) ==> mem'[i] == mem[i]
  }

  /** Write `bytes` from ring position `pos` on; what does not fit before the end goes to the start. */
  method WriteAround(mem: array<byte>, base: nat, pos: nat, bytes: seq<byte>)
    requires base + FRAME <= mem.Length && pos < FRAME && |bytes| <= FRAME
    modifies mem
    ensures Written(Window(old(mem[..]), base), Window(mem[..], base), pos, bytes)
    ensures OnlyWindow(old(mem[..]), mem[..], base)
  {
    var first := Min(|bytes|, FRAME - pos);
    CopyInto(mem, base + pos, bytes[..first]);
    CopyInto(mem, base, bytes[first..]);
    WrittenParts(Window(old(mem[..]), base), Window(mem[..], base), pos, bytes);
  }

  method CopyInto(mem: array<byte>, pos: nat, bytes: seq<byte>)
    requires pos + |bytes| <= mem.Length
    modifies mem
    ensures forall i :: 0 <= i < mem.Length ==>
              mem[i] == if pos <= i < pos + |bytes| then bytes[i - pos] else old(mem[i])
  {
    forall i | 0 <= i < |bytes| { mem[pos + i] := bytes[i]; }
  }

  /** A flow's part of the pool's memory, with the two counters that say which part of it is in use. */
  class RingBuffer {
    const mem: array<byte>
    /** Where the ring starts. */
    const base: nat
    /** Ring position of the oldest byte. */
    var head: nat
    /** Number of bytes held. */
    var len: nat
    /** The bytes held. */
    ghost var queue: seq<byte>

    ghost predicate Valid()
      reads this, mem
    {
      base + FRAME <= mem.Length && head < FRAME && len <= FRAME && queue == Held(Window(mem[..], base), head, len)
    }

    constructor (mem: array<byte>, base: nat)
      requires base + FRAME <= mem.Length
      ensures Valid() && this.mem == mem && this.base == base && queue == []
    {
      this.mem, this.base := mem, base;
      head, len, queue := 0, 0, [];
      new;
      assert Held(Window(mem[..], base), head, len) == [];
    }

    /** Drop the oldest `n` bytes by moving the head; no data moves. */
    method Release(n: nat)
      requires Valid() && n <= len
      modifies this
      ensures Valid() && queue == old(queue)[n..]
    {
      HeldDrop(Window(mem[..], base), head, len, n);
      len := len - n;
      head := (head + n) % FRAME;
      queue := queue[n..];
    }

    /** Append the bytes of one read, in two parts if they wrap; no other memory changes. */
    method Store(bytes: seq<byte>)
      requires Valid() && len + |bytes| <= FRAME
      modifies this, mem
      ensures Valid() && queue == old(queue) + bytes
      ensures OnlyWindow(old(mem[..]), mem[..], base)
    {
      WriteAround(mem, base, (head + len) % FRAME, bytes);
      HeldAppend(Window(old(mem[..]), base), Window(mem[..], base), head, len, bytes);
      len := len + |bytes|;
      queue := queue + bytes;
    }

    /** Held bytes `from..from + n` as the two slices of the ring they occupy. */
    method Slices(from: nat, n: nat) returns (payload: seq<byte>, payload2: seq<byte>)
      requires Valid() && from + n <= len
      ensures payload + payload2 == queue[from..from + n]
    {
      var pos := (head + from) % FRAME;
      var first := Min(n, FRAME - pos);
      SliceInMemory(mem[..], base, head, len, from, n);
      payload, payload2 := mem[base + pos..base + pos + first], mem[base..base + (n - first)];
    }
  }
}
