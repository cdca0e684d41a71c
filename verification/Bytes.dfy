/** Little-endian byte buffers, as gpt.rs reads and patches them. */
module Bytes {

  type byte = x: int | 0 <= x < 256

  const U32 := 0x1_0000_0000
  const U64 := 0x1_0000_0000_0000_0000

  function Pow256(k: nat): (n: nat)
    ensures n > 0
  {
    if k == 0 then 1 else 0x100 * Pow256(k - 1)
  }

  /** The number in the `k` bytes from `o` on. */
  function LeAt(b: seq<byte>, o: nat, k: nat): (n: nat)
    requires o + k <= |b|
    ensures n < Pow256(k)
    decreases k, o, b
  {
    if k == 0 then 0 else (b[o] as int) + 0x100 * LeAt(b, o + 1, k - 1)
  }

  /** A number as `k` bytes. */
  function Le(n: nat, k: nat): (s: seq<byte>)
    ensures |s| == k
    decreases k, n
  {
    if k == 0 then [] else [n % 0x100] + Le(n / 0x100, k - 1)
  }

  function U16At(b: seq<byte>, o: nat): nat
    requires o + 2 <= |b|
  {
    LeAt(b, o, 2)
  }

  function U32At(b: seq<byte>, o: nat): (n: nat)
    requires o + 4 <= |b|
    ensures n < U32
  {
    assert Pow256(4) == U32;
    LeAt(b, o, 4)
  }

  function U64At(b: seq<byte>, o: nat): (n: nat)
    requires o + 8 <= |b|
    ensures n < U64
  {
    assert Pow256(8) == U64;
    LeAt(b, o, 8)
  }

  /** `b` with the bytes from `o` on replaced by `patch`. */
  function Splice(b: seq<byte>, o: nat, patch: seq<byte>): (s: seq<byte>)
    requires o + |patch| <= |b|
    ensures |s| == |b|
  {
    b[..o] + patch + b[o + |patch|..]
  }

  function Put32(b: seq<byte>, o: nat, n: nat): (s: seq<byte>)
    requires o + 4 <= |b| && n < U32
    ensures |s| == |b|
  {
    Splice(b, o, Le(n, 4))
  }

  function Put64(b: seq<byte>, o: nat, n: nat): (s: seq<byte>)
    requires o + 8 <= |b| && n < U64
    ensures |s| == |b|
  {
    Splice(b, o, Le(n, 8))
  }

  function Zeros(n: nat): (s: seq<byte>)
    ensures |s| == n
  {
    seq(n, _ => 0)
  }

  /** Two buffers agree on the bytes from `lo` up to `hi`. */
  predicate Same(a: seq<byte>, b: seq<byte>, lo: nat, hi: nat)
    requires lo <= hi <= |a| && hi <= |b|
  {
    forall i :: lo <= i < hi ==> a[i] == b[i]
  }

  lemma {:induction false} LeAtSame(a: seq<byte>, b: seq<byte>, o: nat, p: nat, k: nat)
    requires o + k <= |a| && p + k <= |b|
    requires a[o..o + k] == b[p..p + k]
    ensures LeAt(a, o, k) == LeAt(b, p, k)
    decreases k
  {
    if k > 0 {
      assert a[o] == a[o..o + k][0] && b[p] == b[p..p + k][0];
      assert a[o + 1..o + k] == a[o..o + k][1..] && b[p + 1..p + k] == b[p..p + k][1..];
      LeAtSame(a, b, o + 1, p + 1, k - 1);
    }
  }

  /** The lowest byte comes first. */
  lemma LittleEndian(b: seq<byte>, o: nat)
    requires o + 8 <= |b|
    ensures U16At(b, o) == (b[o] as int) + 0x100 * (b[o + 1] as int)
    ensures U32At(b, o) == U16At(b, o) + 0x1_0000 * U16At(b, o + 2)
    ensures U64At(b, o) == U32At(b, o) + U32 * U32At(b, o + 4)
  {
    Halves(b, o, 1, 1);
    Halves(b, o, 2, 2);
    Halves(b, o, 4, 4);
    assert Pow256(1) == 0x100 && Pow256(2) == 0x1_0000 && Pow256(4) == U32;
    assert LeAt(b, o, 1) == b[o] as int && LeAt(b, o + 1, 1) == b[o + 1] as int;
  }

  lemma {:induction false} Halves(b: seq<byte>, o: nat, j: nat, k: nat)
    requires o + j + k <= |b|
    ensures LeAt(b, o, j + k) == LeAt(b, o, j) + Pow256(j) * LeAt(b, o + j, k)
    decreases j
  {
    if j > 0 {
      Halves(b, o + 1, j - 1, k);
      Spread(0x100, Pow256(j - 1), LeAt(b, o + 1, j - 1), LeAt(b, o + j, k));
    }
  }

  lemma Spread(a: int, p: int, x: int, y: int)
    ensures a * (x + p * y) == a * x + a * p * y
  {
  }

  /** Reading back what was written. */
  lemma {:induction false} LeValue(n: nat, k: nat)
    requires n < Pow256(k)
    ensures LeAt(Le(n, k), 0, k) == n
    decreases k
  {
    if k > 0 {
      var s := Le(n / 0x100, k - 1);
      LeValue(n / 0x100, k - 1);
      assert Le(n, k)[1..k] == s[0..k - 1];
      LeAtSame(Le(n, k), s, 1, 0, k - 1);
    }
  }

  /** Writing what was read changes nothing. */
  lemma {:induction false} LeInverse(b: seq<byte>, o: nat, k: nat)
    requires o + k <= |b|
    ensures Le(LeAt(b, o, k), k) == b[o..o + k]
    decreases k
  {
    if k > 0 {
      LeInverse(b, o + 1, k - 1);
      assert b[o..o + k] == [b[o]] + b[o + 1..o + k];
    }
  }

  /** A field has the same value in two buffers exactly when it has the same bytes. */
  lemma LeBytes(a: seq<byte>, b: seq<byte>, o: nat, k: nat)
    requires o + k <= |a| && o + k <= |b|
    ensures LeAt(a, o, k) == LeAt(b, o, k) <==> Same(a, b, o, o + k)
  {
    if LeAt(a, o, k) == LeAt(b, o, k) {
      LeInverse(a, o, k);
      LeInverse(b, o, k);
      assert forall i :: o <= i < o + k ==> a[i] == a[o..o + k][i - o] && b[i] == b[o..o + k][i - o];
    }
    if Same(a, b, o, o + k) {
      assert a[o..o + k] == b[o..o + k];
      LeAtSame(a, b, o, o, k);
    }
  }

  lemma U32Bytes(a: seq<byte>, b: seq<byte>, o: nat)
    requires o + 4 <= |a| && o + 4 <= |b|
    ensures U32At(a, o) == U32At(b, o) <==> Same(a, b, o, o + 4)
  {
    LeBytes(a, b, o, 4);
  }

  lemma U64Bytes(a: seq<byte>, b: seq<byte>, o: nat)
    requires o + 8 <= |a| && o + 8 <= |b|
    ensures U64At(a, o) == U64At(b, o) <==> Same(a, b, o, o + 8)
  {
    LeBytes(a, b, o, 8);
  }

  lemma SpliceReads(b: seq<byte>, o: nat, n: nat, k: nat)
    requires o + k <= |b| && n < Pow256(k)
    ensures LeAt(Splice(b, o, Le(n, k)), o, k) == n
    ensures forall i :: 0 <= i < |b| && !(o <= i < o + k) ==> Splice(b, o, Le(n, k))[i] == b[i]
  {
    var s := Splice(b, o, Le(n, k));
    LeValue(n, k);
    assert s[o..o + k] == Le(n, k)[0..k];
    LeAtSame(s, Le(n, k), o, 0, k);
  }

  /** What a four-byte patch changes, and what it leaves alone. */
  lemma Put32Reads(b: seq<byte>, o: nat, n: nat)
    requires o + 4 <= |b| && n < U32
    ensures U32At(Put32(b, o, n), o) == n
    ensures forall i :: 0 <= i < |b| && !(o <= i < o + 4) ==> Put32(b, o, n)[i] == b[i]
  {
    assert Pow256(4) == U32;
    SpliceReads(b, o, n, 4);
  }

  /** What an eight-byte patch changes, and what it leaves alone. */
  lemma Put64Reads(b: seq<byte>, o: nat, n: nat)
    requires o + 8 <= |b| && n < U64
    ensures U64At(Put64(b, o, n), o) == n
    ensures forall i :: 0 <= i < |b| && !(o <= i < o + 8) ==> Put64(b, o, n)[i] == b[i]
  {
    assert Pow256(8) == U64;
    SpliceReads(b, o, n, 8);
  }

  /** `copy_from_slice(&n.to_le_bytes())`, for a number of `k` bytes. */
  method WriteLe(a: array<byte>, o: nat, n: nat, k: nat)
    requires o + k <= a.Length
    modifies a
    ensures a[..] == Splice(old(a[..]), o, Le(n, k))
  {
    var i, rest := 0, n;
    while i < k
      invariant 0 <= i <= k
      invariant Le(n, k)[i..] == Le(rest, k - i)
      invariant forall j :: 0 <= j < i ==> a[o + j] == Le(n, k)[j]
      invariant forall j :: 0 <= j < a.Length && !(o <= j < o + i) ==> a[j] == old(a[j])
    {
      assert Le(n, k)[i] == Le(n, k)[i..][0] && Le(n, k)[i + 1..] == Le(n, k)[i..][1..];
      a[o + i] := rest % 0x100;
      rest := rest / 0x100;
      i := i + 1;
    }
    assert forall j :: o <= j < o + k ==> a[j] == a[o + (j - o)];
  }
}
