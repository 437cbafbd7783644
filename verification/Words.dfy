/** Machine words as integers, and the wrap-around arithmetic the source uses on them. */
module Words {

  const TWO16: int := 0x1_0000
  const TWO32: int := 0x1_0000_0000

  type byte = x: int | 0 <= x < 0x100
  type u16 = x: int | 0 <= x < 0x1_0000
  type u32 = x: int | 0 <= x < 0x1_0000_0000

  datatype Option<+T> = None | Some(value: T)

  function Min(a: int, b: int): int { if a <= b then a else b }
  function Max(a: int, b: int): int { if a <= b then b else a }

  /** The value a `wrapping_add` or `wrapping_sub` on `u32` leaves. */
  function Wrap32(x: int): u32 { x % 0x1_0000_0000 }

  /** Wrapping twice is wrapping once. */
  lemma WrapAdd(x: int, y: int)
    ensures Wrap32(Wrap32(x) + y) == Wrap32(x + y)
    ensures Wrap32(y - Wrap32(x)) == Wrap32(y - x)
  {
  }

  /** Two positions less than one sequence space apart are told apart by their sequence numbers. */
  lemma WrapInjective(x: int, y: int)
    requires -0x1_0000_0000 < x - y < 0x1_0000_0000
    ensures Wrap32(x) == Wrap32(y) <==> x == y
  {
  }

  /** The same condition, handed on as it stands: it is neither taken apart nor proved again clause by clause. */
  ghost predicate AsOne(p: bool) { p <==> true }

  /** A part of a part. */
  lemma SliceOfSlice(stream: seq<byte>, at: nat, n: nat, from: nat, len: nat)
    requires at + n <= |stream| && from + len <= n
    ensures stream[at..at + n][from..from + len] == stream[at + from..at + from + len]
  {
    var whole, wanted := stream[at..at + n], stream[at + from..at + from + len];
    var part := whole[from..from + len];
    forall i | 0 <= i < len ensures part[i] == wanted[i] {
      assert part[i] == whole[from + i];
    }
  }
}
