/** The internet checksum of RFC 1071: one's complement sums over whole and split data. */
module Checksum {
  import opened Words

  function Word(hi: byte, lo: byte): u16 { hi * 256 + lo }

  /** Unfolded sum of the big-endian 16-bit words of `data`, an odd last byte padded with zero. */
  function Sum(data: seq<byte>): nat {
    if |data| == 0 then 0
    else if |data| == 1 then Word(data[0], 0)
    else Word(data[0], data[1]) + Sum(data[2..])
  }

  /** Add the carries back until 16 bits are left. */
  function Fold(s: nat): nat
    decreases s
  {
    if s > 0xffff then Fold(s % 0x1_0000 + s / 0x1_0000) else s
  }

  function Swap(s: nat): nat { s / 256 + s % 256 * 256 }

  /** Sum over data split in two; behind an odd first part the second contributes byte-swapped. */
  function Sum2(a: seq<byte>, b: seq<byte>): nat {
    Sum(a) + if |a| % 2 == 1 then Swap(Fold(Sum(b))) else Sum(b)
  }

  function Check(data: seq<byte>, init: nat): int { 0xffff - Fold(init + Sum(data)) }

  // ---------------------------------------------------------------------------------------------
  // Folding is reduction modulo 0xffff, except that only zero folds to zero
  // ---------------------------------------------------------------------------------------------

  lemma {:induction false} FoldValue(s: nat)
    ensures Fold(s) == if s == 0 then 0 else (s - 1) % 0xffff + 1
    decreases s
  {
    if s > 0xffff {
      var q, r := s / 0x1_0000, s % 0x1_0000;
      FoldValue(r + q);
      assert s - 1 == 0xffff * q + (r + q - 1);
      ModAdd(r + q - 1, q);
    }
  }

  lemma ModAdd(x: nat, k: nat)
    ensures (0xffff * k + x) % 0xffff == x % 0xffff
  {
  }

  /** Sums that agree modulo 0xffff and in being zero or not fold to the same value. */
  ghost predicate SameSum(s: nat, t: nat) { s % 0xffff == t % 0xffff && (s == 0 <==> t == 0) }

  lemma SameFold(s: nat, t: nat)
    requires SameSum(s, t)
    ensures Fold(s) == Fold(t)
  {
    FoldValue(s);
    FoldValue(t);
    if s != 0 { PredMod(s); PredMod(t); }
  }

  lemma PredMod(s: nat)
    requires s > 0
    ensures (s - 1) % 0xffff + 1 == if s % 0xffff == 0 then 0xffff else s % 0xffff
  {
  }

  lemma FoldSame(s: nat)
    ensures SameSum(Fold(s), s) && Fold(s) <= 0xffff
  {
    FoldValue(s);
    if s != 0 { PredMod(s); }
  }

  lemma SameAdd(s: nat, t: nat, x: nat)
    requires SameSum(s, t)
    ensures SameSum(s + x, t + x)
  {
  }

  // ---------------------------------------------------------------------------------------------
  // Split sums
  // ---------------------------------------------------------------------------------------------

  /** The same bytes at odd offsets: high and low bytes change places. */
  function OddSum(data: seq<byte>): nat {
    if |data| == 0 then 0
    else if |data| == 1 then data[0]
    else Word(data[1], data[0]) + OddSum(data[2..])
  }

  lemma {:induction false} SumConcatEven(a: seq<byte>, b: seq<byte>)
    requires |a| % 2 == 0
    ensures Sum(a + b) == Sum(a) + Sum(b)
    decreases |a|
  {
    if a == [] {
      assert a + b == b;
    } else {
      SumConcatEven(a[2..], b);
      assert (a + b)[2..] == a[2..] + b;
    }
  }

  lemma {:induction false} SumShift(x: byte, b: seq<byte>)
    ensures Sum([x] + b) == Word(x, 0) + OddSum(b)
    decreases |b|
  {
    if |b| == 1 {
      assert ([x] + b)[2..] == [];
    } else if |b| > 1 {
      SumShift(b[1], b[2..]);
      assert ([x] + b)[2..] == [b[1]] + b[2..];
    }
  }

  lemma {:induction false} SumConcatOdd(a: seq<byte>, b: seq<byte>)
    requires |a| % 2 == 1
    ensures Sum(a + b) == Sum(a) + OddSum(b)
    decreases |a|
  {
    if |a| == 1 {
      SumShift(a[0], b);
      assert a == [a[0]];
    } else {
      SumConcatOdd(a[2..], b);
      assert (a + b)[2..] == a[2..] + b;
    }
  }

  /** Swapping the bytes of every word multiplies the sum by 256, modulo 0xffff. */
  lemma {:induction false} OddSumMod(b: seq<byte>) returns (k: nat)
    ensures 256 * Sum(b) == OddSum(b) + 0xffff * k
    ensures Sum(b) == 0 <==> OddSum(b) == 0
    decreases |b|
  {
    k := 0;
    if |b| == 1 {
      k := b[0];
    } else if |b| > 1 {
      var rest := OddSumMod(b[2..]);
      k := b[0] + rest;
    }
  }

  lemma SwapMod(s: nat)
    requires s <= 0xffff
    ensures 256 * s == Swap(s) + 0xffff * (s / 256) && (Swap(s) == 0 <==> s == 0)
  {
  }

  lemma SameTimes256(s: nat, t: nat)
    requires SameSum(s, t)
    ensures (256 * s) % 0xffff == (256 * t) % 0xffff
  {
    var q, r := s / 0xffff, t / 0xffff;
    assert 256 * s == 0xffff * (256 * q) + 256 * (s % 0xffff);
    assert 256 * t == 0xffff * (256 * r) + 256 * (t % 0xffff);
    ModAdd(256 * (s % 0xffff), 256 * q);
    ModAdd(256 * (t % 0xffff), 256 * r);
  }

  lemma SwappedSame(b: seq<byte>)
    ensures SameSum(Swap(Fold(Sum(b))), OddSum(b))
  {
    var s := Sum(b);
    FoldSame(s);
    SwapMod(Fold(s));
    SameTimes256(Fold(s), s);
    var k := OddSumMod(b);
    ModAdd(OddSum(b), k);
    ModAdd(Swap(Fold(s)), Fold(s) / 256);
  }

  /** A split sum stands for the contiguous one, odd splits included. */
  lemma Sum2Same(a: seq<byte>, b: seq<byte>)
    ensures SameSum(Sum2(a, b), Sum(a + b))
  {
    if |a| % 2 == 0 {
      SumConcatEven(a, b);
    } else {
      SumConcatOdd(a, b);
      SwappedSame(b);
      SameAdd(Swap(Fold(Sum(b))), OddSum(b), Sum(a));
    }
  }

  /** Folding the split sum gives exactly the fold of the contiguous sum. */
  lemma SplitSumFolds(a: seq<byte>, b: seq<byte>)
    ensures Fold(Sum2(a, b)) == Fold(Sum(a + b))
  {
    Sum2Same(a, b);
    SameFold(Sum2(a, b), Sum(a + b));
  }

  // ---------------------------------------------------------------------------------------------
  // No overflow
  // ---------------------------------------------------------------------------------------------

  lemma {:induction false} SumBound(data: seq<byte>)
    ensures Sum(data) <= 0xffff * ((|data| + 1) / 2)
    decreases |data|
  {
    if |data| > 1 { SumBound(data[2..]); }
  }

  /** The sum of up to 131072 bytes fits 32 bits. */
  lemma SumFits(data: seq<byte>)
    requires |data| <= 0x2_0000
    ensures Sum(data) < TWO32
  {
    SumBound(data);
  }

  // ---------------------------------------------------------------------------------------------
  // The loops
  // ---------------------------------------------------------------------------------------------

  method ComputeSum(data: seq<byte>) returns (sum: u32)
    requires Sum(data) < TWO32
    ensures sum == Sum(data)
  {
    sum := 0;
    var i := 0;
    while i + 1 < |data|
      invariant 0 <= i <= |data|
      invariant sum + Sum(data[i..]) == Sum(data)
    {
      assert data[i..][2..] == data[i + 2..];
      sum := sum + Word(data[i], data[i + 1]);
      i := i + 2;
    }
    if i < |data| {
      sum := sum + Word(data[i], 0);
    }
  }

  method ComputeFold(s: u32) returns (r: u16)
    ensures r == Fold(s)
  {
    var sum := s;
    while sum > 0xffff
      invariant Fold(sum) == Fold(s)
    {
      sum := sum % 0x1_0000 + sum / 0x1_0000;
    }
    r := sum;
  }

  method ComputeSum2(a: seq<byte>, b: seq<byte>) returns (sum: u32)
    requires |a| + |b| <= 0x1_fffe
    ensures sum == Sum2(a, b)
  {
    SumBound(a);
    SumBound(b);
    FoldSame(Sum(b));
    var s2 := ComputeSum(b);
    if |a| % 2 == 1 {
      SwapBound(Sum(b));
      var folded := ComputeFold(s2);
      s2 := folded / 256 + folded % 256 * 256;
    }
    var s := ComputeSum(a);
    sum := s + s2;
  }

  /** What replaces the second sum is no larger than it would be allowed to be. */
  lemma SwapBound(s: nat)
    ensures Swap(Fold(s)) <= 0xffff && (s == 0 ==> Swap(Fold(s)) == 0)
  {
    FoldSame(s);
  }

  method ComputeCheck(data: seq<byte>, init: u32) returns (csum: u16)
    requires init + Sum(data) < TWO32
    ensures csum == Check(data, init)
  {
    var s := ComputeSum(data);
    var folded := ComputeFold(init + s);
    csum := 0xffff - folded;
  }

  // ---------------------------------------------------------------------------------------------
  // A checksum field verifies
  // ---------------------------------------------------------------------------------------------

  function Be16(x: u16): seq<byte> { [x / 256, x % 256] }

  lemma SumField(pre: seq<byte>, x: u16, post: seq<byte>)
    requires |pre| % 2 == 0
    ensures Sum(pre + Be16(x) + post) == Sum(pre) + x + Sum(post)
  {
    SumConcatEven(pre + Be16(x), post);
    SumConcatEven(pre, Be16(x));
    assert Be16(x)[2..] == [];
  }

  lemma CheckField(pre: seq<byte>, x: u16, post: seq<byte>, init: nat, s: nat)
    requires |pre| % 2 == 0 && s == init + Sum(pre) + Sum(post)
    ensures Check(pre + Be16(x) + post, init) == 0xffff - Fold(s + x)
  {
    SumField(pre, x, post);
    assert init + Sum(pre + Be16(x) + post) == s + x;
  }

  lemma {:induction false} FoldMultiple(s: nat) returns (k: nat)
    ensures s == Fold(s) + 0xffff * k
    decreases s
  {
    k := 0;
    if s > 0xffff {
      var rest := FoldMultiple(s % 0x1_0000 + s / 0x1_0000);
      k := rest + s / 0x1_0000;
    }
  }

  lemma FoldOfMultiple(k: nat)
    requires k > 0
    ensures Fold(0xffff * k) == 0xffff
  {
    FoldValue(0xffff * k);
    ModAdd(0xfffe, k - 1);
    assert 0xffff * k - 1 == 0xffff * (k - 1) + 0xfffe;
  }

  lemma CheckZero(s: nat, c: nat)
    requires c == 0xffff - Fold(s) || (Fold(s) == 0xffff && c == 0xffff)
    ensures Fold(s + c) == 0xffff
  {
    var k := FoldMultiple(s);
    FoldOfMultiple(k + 1);
    FoldOfMultiple(k + 2);
  }

  /**
    A field computed over data in which it is zero makes the data with it check to zero; so does
    0xffff in place of a zero result, as UDP writes it.
   */
  lemma FieldVerifies(pre: seq<byte>, post: seq<byte>, init: nat, c: u16)
    requires |pre| % 2 == 0
    requires var zeroed := Check(pre + Be16(0) + post, init); c == zeroed || (zeroed == 0 && c == 0xffff)
    ensures Check(pre + Be16(c) + post, init) == 0
  {
    var s := init + Sum(pre) + Sum(post);
    CheckField(pre, 0, post, init, s);
    CheckField(pre, c, post, init, s);
    CheckZero(s, c);
  }

  lemma FoldAdd(s: nat, x: nat)
    ensures Fold(x + Fold(s)) == Fold(s + x)
  {
    FoldSame(s);
    SameAdd(Fold(s), s, x);
    SameFold(Fold(s) + x, s + x);
  }

  /** Completing a field that holds the folded pseudo sum gives what software computes from that sum. */
  lemma OffloadAgrees(pre: seq<byte>, post: seq<byte>, pseudo: nat)
    requires |pre| % 2 == 0 && Fold(pseudo) <= 0xffff
    ensures Check(pre + Be16(Fold(pseudo)) + post, 0) == Check(pre + Be16(0) + post, pseudo)
  {
    var s := Sum(pre) + Sum(post);
    CheckField(pre, 0, post, pseudo, pseudo + s);
    CheckField(pre, Fold(pseudo), post, 0, s);
    FoldAdd(pseudo, s);
  }

  /** A checksum over a header with the payload's split sum folded in is the one over the whole segment. */
  lemma SplitChecks(header: seq<byte>, a: seq<byte>, b: seq<byte>, init: nat)
    requires |header| % 2 == 0
    ensures Check(header, init + Sum2(a, b)) == Check(header + a + b, init)
  {
    assert header + a + b == header + (a + b);
    SumConcatEven(header, a + b);
    Sum2Same(a, b);
    SameAdd(Sum2(a, b), Sum(a + b), init + Sum(header));
    SameFold(Sum2(a, b) + (init + Sum(header)), Sum(a + b) + (init + Sum(header)));
  }

  /** A header around its checksum field. */
  function Headed(pre: seq<byte>, x: u16, post: seq<byte>): seq<byte> { pre + Be16(x) + post }

  lemma Regroup(pre: seq<byte>, x: u16, post: seq<byte>, a: seq<byte>, b: seq<byte>)
    ensures Headed(pre, x, post) + a + b == pre + Be16(x) + (post + a + b)
  {
  }

  lemma SplitField(pre: seq<byte>, post: seq<byte>, a: seq<byte>, b: seq<byte>, init: nat)
    requires |pre| % 2 == 0 && |post| % 2 == 0
    ensures var c := Check(Headed(pre, 0, post), init + Sum2(a, b));
            && 0 <= c < TWO16 && Check(Headed(pre, c, post) + a + b, init) == 0
            && 0 <= Fold(init) < TWO16 && Check(Headed(pre, Fold(init), post) + a + b, 0) == c
  {
    var c := Check(Headed(pre, 0, post), init + Sum2(a, b));
    FoldSame(init);
    FoldSame(init + Sum2(a, b) + Sum(Headed(pre, 0, post)));
    SplitChecks(Headed(pre, 0, post), a, b, init);
    Regroup(pre, 0, post, a, b);
    Regroup(pre, c, post, a, b);
    Regroup(pre, Fold(init), post, a, b);
    FieldVerifies(pre, post + a + b, init, c);
    OffloadAgrees(pre, post + a + b, init);
  }
}
