/** Machine integers, byte order, alignment and padding: the vocabulary every wire format here shares. */
module Bytes {

  type byte = b: int | 0 <= b < 0x100
  type u8 = byte
  type u16 = x: int | 0 <= x < 0x1_0000
  type u32 = x: int | 0 <= x < 0x1_0000_0000
  type u64 = x: int | 0 <= x < 0x1_0000_0000_0000_0000

  datatype Option<+T> = None | Some(value: T)

  datatype Result<+T, +E> = Ok(value: T) | Err(error: E) {
    predicate IsFailure() { Err? }

    function PropagateFailure<U>(): Result<U, E>
      requires Err?
    {
      Err(error)
    }

    function Extract(): T
      requires Ok?
    {
      value
    }
  }

  /** 256^n, the number of values n bytes can carry. */
  function Pow256(n: nat): (r: nat)
    ensures r > 0
  {
    if n == 0 then 1 else 256 * Pow256(n - 1)
  }

  lemma WordSizes()
    ensures Pow256(1) == 0x100 && Pow256(2) == 0x1_0000 && Pow256(4) == 0x1_0000_0000
    ensures Pow256(8) == 0x1_0000_0000_0000_0000
  {
  }

  // ---- Network byte order ----

  function BE(v: nat, width: nat): (s: seq<byte>)
    ensures |s| == width
  {
    if width == 0 then [] else BE(v / 256, width - 1) + [v % 256]
  }

  function FromBE(s: seq<byte>): nat {
    if s == [] then 0 else 256 * FromBE(s[..|s| - 1]) + s[|s| - 1]
  }

  lemma {:induction false} FromBEofBE(v: nat, width: nat)
    requires v < Pow256(width)
    ensures FromBE(BE(v, width)) == v
  {
    if width > 0 {
      var high, low := BE(v / 256, width - 1), v % 256;
      var s := high + [low];
      assert s[..|s| - 1] == high && s[|s| - 1] == low;
      FromBEofBE(v / 256, width - 1);
    }
  }

  lemma {:induction false} BEofFromBE(s: seq<byte>)
    ensures FromBE(s) < Pow256(|s|)
    ensures BE(FromBE(s), |s|) == s
  {
    if s != [] {
      BEofFromBE(s[..|s| - 1]);
      assert s == s[..|s| - 1] + [s[|s| - 1]];
    }
  }

  // ---- Little-endian order ----

  function LE(v: nat, width: nat): (s: seq<byte>)
    ensures |s| == width
  {
    if width == 0 then [] else [v % 256] + LE(v / 256, width - 1)
  }

  function FromLE(s: seq<byte>): nat {
    if s == [] then 0 else s[0] + 256 * FromLE(s[1..])
  }

  lemma {:induction false} FromLEofLE(v: nat, width: nat)
    requires v < Pow256(width)
    ensures FromLE(LE(v, width)) == v
  {
    if width > 0 {
      var s := LE(v, width);
      assert s[1..] == LE(v / 256, width - 1);
      FromLEofLE(v / 256, width - 1);
    }
  }

  // ---- The host's own order, which is a parameter of everything that reads it ----

  datatype Endian = Little | Big

  function Native(host: Endian, v: nat, width: nat): (s: seq<byte>)
    ensures |s| == width
  {
    if host.Little? then LE(v, width) else BE(v, width)
  }

  function FromNative(host: Endian, s: seq<byte>): nat {
    if host.Little? then FromLE(s) else FromBE(s)
  }

  /** Whatever the host's order, a header integer reads back as it was written. */
  lemma FromNativeOfNative(host: Endian, v: nat, width: nat)
    requires v < Pow256(width)
    ensures FromNative(host, Native(host, v, width)) == v
  {
    FromLEofLE(v, width);
    FromBEofBE(v, width);
  }

  /** Which end the weight is at: byte `i` counts 256^i from the end in network order, from the start in little-endian. */
  lemma {:induction false} WeightOfBytes(s: seq<byte>, i: nat)
    requires i < |s| && forall k :: 0 <= k < |s| && k != i ==> s[k] == 0
    ensures FromBE(s) == s[i] * Pow256(|s| - 1 - i)
    ensures FromLE(s) == s[i] * Pow256(i)
  {
    var last := |s| - 1;
    if i == last {
      AllZero(s[..last]);
    } else {
      WeightOfBytes(s[..last], i);
      WeightStep(s[i], Pow256(last - 1 - i));
    }
    if i == 0 {
      AllZero(s[1..]);
    } else {
      WeightOfBytes(s[1..], i - 1);
      WeightStep(s[i], Pow256(i - 1));
    }
  }

  lemma WeightStep(b: nat, p: nat)
    ensures 256 * (b * p) == b * (256 * p)
  {
  }

  lemma {:induction false} AllZero(s: seq<byte>)
    requires forall k :: 0 <= k < |s| ==> s[k] == 0
    ensures FromBE(s) == 0 && FromLE(s) == 0
  {
    if s != [] {
      AllZero(s[..|s| - 1]);
      AllZero(s[1..]);
    }
  }

  // ---- Alignment and padding ----

  /** The least multiple of `alignment` that is not below `value`. */
  function AlignUp(value: nat, alignment: nat): (r: nat)
    requires alignment > 0
    ensures value <= r < value + alignment
    ensures r % alignment == 0
  {
    var q := (value + alignment - 1) / alignment;
    MultipleHasNoRemainder(q, alignment);
    q * alignment
  }

  /** Padding a region that starts aligned is the same whether one aligns its end or its length. */
  lemma AlignTogether(start: nat, len: nat, a: nat)
    requires a == 1 || a == 4
    requires start % a == 0
    ensures AlignUp(start + len, a) == start + AlignUp(len, a)
    ensures (start + AlignUp(len, a)) % a == 0
  {
    hide AlignUp;
    if a == 4 {
      SumOfMultiples(start, AlignUp(len, 4));
      AlignUpIsUnique(start + len, 4, start + AlignUp(len, 4));
    }
  }

  lemma SumOfMultiples(x: nat, y: nat)
    requires x % 4 == 0 && y % 4 == 0
    ensures (x + y) % 4 == 0
  {
  }

  lemma AlignUpIsUnique(value: nat, a: nat, r: nat)
    requires a == 4 && value <= r < value + a && r % a == 0
    ensures AlignUp(value, a) == r
  {
    hide AlignUp;
  }

  lemma MultipleHasNoRemainder(q: nat, d: nat)
    requires d > 0
    ensures (q * d) % d == 0
  {
    DivModUnique(q * d, d, q, 0);
  }

  /** Quotient and remainder are determined by the division equation. */
  lemma DivModUnique(n: int, d: int, q: int, r: int)
    requires 0 <= r < d
    requires n == q * d + r
    ensures n / d == q && n % d == r
  {
    var p := n / d;
    assert n == p * d + n % d;
    if p > q {
      MulIsMonotone(q + 1, p, d);
    } else if p < q {
      MulIsMonotone(p + 1, q, d);
    }
  }

  function Quotient(x: nat, d: nat): nat
    requires d > 0
  {
    x / d
  }

  lemma MulIsMonotone(a: int, b: int, d: int)
    requires a <= b && 0 <= d
    ensures a * d <= b * d
    ensures (a - 1) * d == a * d - d
  {
  }

  function Zeros(n: nat): (s: seq<byte>)
    ensures |s| == n
    ensures forall i :: 0 <= i < n ==> s[i] == 0
  {
    seq(n, _ => 0)
  }

  // ---- Slices of concatenations ----

  lemma SliceOfLeft<T>(p: seq<T>, q: seq<T>, a: nat, b: nat)
    requires a <= b <= |p|
    ensures (p + q)[a..b] == p[a..b]
  {
  }

  lemma SliceOfRight<T>(p: seq<T>, q: seq<T>)
    ensures (p + q)[|p|..] == (p + q)[|p|..|p| + |q|] == q
  {
  }

  lemma SliceOfSlice<T>(s: seq<T>, a: nat, b: nat, i: nat, j: nat)
    requires a <= b <= |s| && i <= j <= b - a
    ensures s[a..b][i..j] == s[a + i..a + j]
  {
    var l, r := s[a..b][i..j], s[a + i..a + j];
    forall k | 0 <= k < |l|
      ensures l[k] == r[k]
    {
      assert l[k] == s[a..b][i + k] == s[a + i + k];
    }
  }

  lemma SliceOfTail<T>(s: seq<T>, at: nat, i: nat, j: nat)
    requires at <= |s| && i <= j <= |s| - at
    ensures s[at..][i..j] == s[at + i..at + j]
  {
    SliceOfSlice(s, at, |s|, i, j);
    assert s[at..] == s[at..|s|];
  }

  // ---- A run of chunks, laid end to end ----

  /** Where chunk `n` starts. */
  function FlatLen(chunks: seq<seq<byte>>, n: nat): nat
    requires n <= |chunks|
  {
    if n == 0 then 0 else FlatLen(chunks, n - 1) + |chunks[n - 1]|
  }

  /** The first `n` chunks. */
  function Flat(chunks: seq<seq<byte>>, n: nat): (s: seq<byte>)
    requires n <= |chunks|
    ensures |s| == FlatLen(chunks, n)
  {
    if n == 0 then [] else Flat(chunks, n - 1) + chunks[n - 1]
  }

  lemma FlatStart(before: seq<byte>, chunks: seq<seq<byte>>)
    ensures before + Flat(chunks, 0) == before
    ensures FlatLen(chunks, 0) == 0
  {
  }

  lemma FlatStep(before: seq<byte>, chunks: seq<seq<byte>>, n: nat)
    requires n < |chunks|
    ensures before + Flat(chunks, n) + chunks[n] == before + Flat(chunks, n + 1)
    ensures FlatLen(chunks, n + 1) == FlatLen(chunks, n) + |chunks[n]|
  {
  }

  lemma {:induction false} FlatLenIsMonotone(chunks: seq<seq<byte>>, i: nat, n: nat)
    requires i <= n <= |chunks|
    ensures FlatLen(chunks, i) <= FlatLen(chunks, n)
  {
    if i < n {
      FlatLenIsMonotone(chunks, i, n - 1);
    }
  }

  /** Chunk `i` is found exactly where its predecessors end. */
  lemma {:induction false} ChunkAtItsOffset(chunks: seq<seq<byte>>, n: nat, i: nat)
    requires i < n <= |chunks|
    ensures FlatLen(chunks, i) <= FlatLen(chunks, i + 1) <= FlatLen(chunks, n)
    ensures Flat(chunks, n)[FlatLen(chunks, i)..FlatLen(chunks, i + 1)] == chunks[i]
  {
    var before, last := Flat(chunks, n - 1), chunks[n - 1];
    if i < n - 1 {
      ChunkAtItsOffset(chunks, n - 1, i);
      SliceOfLeft(before, last, FlatLen(chunks, i), FlatLen(chunks, i + 1));
    } else {
      SliceOfRight(before, last);
    }
  }

  lemma {:induction false} FlatOfPrefix(chunks: seq<seq<byte>>, more: seq<seq<byte>>, n: nat)
    requires n <= |chunks|
    ensures Flat(chunks + more, n) == Flat(chunks, n)
    ensures FlatLen(chunks + more, n) == FlatLen(chunks, n)
  {
    if n > 0 {
      FlatOfPrefix(chunks, more, n - 1);
    }
  }

  /** Chunks of one size. */
  lemma {:induction false} UniformChunks(chunks: seq<seq<byte>>, size: nat, n: nat)
    requires n <= |chunks|
    requires forall i :: 0 <= i < n ==> |chunks[i]| == size
    ensures FlatLen(chunks, n) == n * size
  {
    if n > 0 {
      UniformChunks(chunks, size, n - 1);
      MulIsMonotone(n, n, size);
    }
  }

  // ---- Overwriting part of a buffer ----

  /** `s` with `bytes` written over it at `at`; everything else is as it was. */
  function Splice(s: seq<byte>, at: nat, bytes: seq<byte>): (r: seq<byte>)
    requires at + |bytes| <= |s|
    ensures |r| == |s|
  {
    s[..at] + bytes + s[at + |bytes|..]
  }

  lemma SpliceNothing(s: seq<byte>, at: nat)
    requires at <= |s|
    ensures Splice(s, at, []) == s
  {
  }

  /** Two adjacent writes are one. */
  lemma SpliceTwice(s: seq<byte>, at: nat, a: seq<byte>, b: seq<byte>)
    requires at + |a| + |b| <= |s|
    ensures Splice(Splice(s, at, a), at + |a|, b) == Splice(s, at, a + b)
  {
    var mid := Splice(s, at, a);
    assert mid[..at + |a|] == s[..at] + a;
    assert mid[at + |a| + |b|..] == s[at + |a| + |b|..];
  }

  /** Writing at the end of a region extends it. */
  lemma SpliceExtends(s: seq<byte>, from: nat, at: nat, bytes: seq<byte>)
    requires from <= at && at + |bytes| <= |s|
    ensures Splice(s, at, bytes)[from..at + |bytes|] == s[from..at] + bytes
  {
  }

  /** Writing inside a region changes just that part of it. */
  lemma SpliceInside(s: seq<byte>, from: nat, at: nat, bytes: seq<byte>, to: nat)
    requires from <= at && at + |bytes| <= to <= |s|
    ensures Splice(s, at, bytes)[from..to] == Splice(s[from..to], at - from, bytes)
  {
  }

  /** `copy_from_slice`: overwrite `buf[at..at + |bytes|]`. */
  method CopyFromSlice(buf: array<byte>, at: nat, bytes: seq<byte>)
    requires at + |bytes| <= buf.Length
    modifies buf
    ensures buf[..] == Splice(old(buf[..]), at, bytes)
  {
    ghost var was := buf[..];
    for i := 0 to |bytes|
      invariant forall k :: 0 <= k < buf.Length ==> buf[k] == if at <= k < at + i then bytes[k - at] else was[k]
    {
      buf[at + i] := bytes[i];
    }
    forall k | 0 <= k < buf.Length
      ensures buf[..][k] == Splice(was, at, bytes)[k]
    {
    }
  }
}
