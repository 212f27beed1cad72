/** Big-endian integers on bytes, as encoding/binary writes and reads them. */
module Bytes {
  import opened Base

  function Pow256(k: nat): (p: nat)
    ensures p > 0
  {
    if k == 0 then 1 else 256 * Pow256(k - 1)
  }

  /** The low `k` bytes of `n`, most significant first. */
  function BE(n: nat, k: nat): (s: seq<Byte>)
    ensures |s| == k
    decreases k
  {
    if k == 0 then [] else BE(n / 256, k - 1) + [n % 256]
  }

  /** The number a byte string denotes, most significant byte first. */
  function Value(s: seq<Byte>): nat {
    if s == [] then 0 else 256 * Value(s[..|s| - 1]) + s[|s| - 1]
  }

  lemma {:induction false} ValueBound(s: seq<Byte>)
    ensures Value(s) < Pow256(|s|)
  {
    if s != [] {
      ValueBound(s[..|s| - 1]);
    }
  }

  /** Reading back what was written gives the number, when it fits. */
  lemma {:induction false} ValueOfBE(n: nat, k: nat)
    requires n < Pow256(k)
    ensures Value(BE(n, k)) == n
    decreases k
  {
    if k > 0 {
      ValueOfBE(n / 256, k - 1);
      assert BE(n, k)[..k - 1] == BE(n / 256, k - 1);
    }
  }

  /** Writing what was read gives the bytes back. */
  lemma {:induction false} BEOfValue(s: seq<Byte>)
    ensures BE(Value(s), |s|) == s
  {
    if s != [] {
      BEOfValue(s[..|s| - 1]);
      assert Value(s) / 256 == Value(s[..|s| - 1]);
      assert s == s[..|s| - 1] + [s[|s| - 1]];
    }
  }

  /** On strings of one length the number determines the string. */
  lemma ValueInjective(a: seq<Byte>, b: seq<Byte>)
    requires |a| == |b| && Value(a) == Value(b)
    ensures a == b
  {
    BEOfValue(a);
    BEOfValue(b);
  }

  lemma Pow256Values()
    ensures Pow256(1) == 0x100 && Pow256(2) == UINT16 && Pow256(4) == UINT32 && Pow256(8) == UINT64
  {
    assert Pow256(2) == 256 * Pow256(1);
    assert Pow256(3) == 256 * Pow256(2);
    assert Pow256(4) == 256 * Pow256(3);
    assert Pow256(5) == 256 * Pow256(4);
    assert Pow256(6) == 256 * Pow256(5);
    assert Pow256(7) == 256 * Pow256(6);
    assert Pow256(8) == 256 * Pow256(7);
  }

  /** What PutUint16/32/64 leave in a buffer: `width` bytes at `at` are overwritten, the rest stays. */
  function Put(s: seq<Byte>, at: nat, n: nat, width: nat): (r: seq<Byte>)
    requires at + width <= |s|
    ensures |r| == |s|
  {
    s[..at] + BE(n, width) + s[at + width..]
  }

  method PutUint(a: array<Byte>, at: nat, n: nat, width: nat)
    requires at + width <= a.Length
    modifies a
    ensures a[..] == Put(old(a[..]), at, n, width)
  {
    var v, i := n, width;
    while i > 0
      invariant 0 <= i <= width
      invariant a[..at + i] == old(a[..at + i])
      invariant BE(v, i) + a[at + i..at + width] == BE(n, width)
      invariant a[at + width..] == old(a[at + width..])
    {
      ghost var tail := a[at + i..at + width];
      i := i - 1;
      a[at + i] := v % 256;
      assert a[at + i..at + width] == [v % 256] + tail;
      v := v / 256;
      assert BE(v, i) + a[at + i..at + width] == (BE(v, i) + [a[at + i]]) + tail;
    }
    assert a[..] == a[..at] + a[at..at + width] + a[at + width..];
    assert a[at..at + width] == BE(n, width);
  }
}
