/** What a CRC-32 is, by long division of polynomials over GF(2), and the proof that the register of gpt.rs computes it.
    Nothing in the first part knows of the register. */
module CrcDivision {
  import opened Bytes
  import opened Crc32

  // A polynomial is the list of its coefficients, highest power first.

  type poly = seq<bool>

  /** x^32 + x^26 + x^23 + x^22 + x^16 + x^12 + x^11 + x^10 + x^8 + x^7 + x^5 + x^4 + x^2 + x + 1. */
  predicate Term(power: int) {
    || power == 32 || power == 26 || power == 23 || power == 22 || power == 16 || power == 12 || power == 11
    || power == 10 || power == 8 || power == 7 || power == 5 || power == 4 || power == 2 || power == 1 || power == 0
  }

  function Generator(): poly {
    seq(33, i => Term(32 - i))
  }

  function Zeros(n: nat): poly {
    seq(n, _ => false)
  }

  function Sum(p: poly, q: poly): poly
    requires |p| == |q|
  {
    seq(|p|, i requires 0 <= i < |p| => p[i] != q[i])
  }

  /** The generator times `on`, shifted up to the degree of a polynomial of `n` coefficients. */
  function Multiple(on: bool, n: nat): poly
    requires n >= 33
  {
    if on then Generator() + Zeros(n - 33) else Zeros(n)
  }

  /** The product of `q` and the generator. */
  function Product(q: poly): (p: poly)
    ensures |p| == |q| + 32
  {
    if q == [] then Zeros(32) else Sum(Multiple(q[0], |q| + 32), [false] + Product(q[1..]))
  }

  function Remainder(p: poly): (r: poly)
    requires |p| >= 32
    ensures |r| == 32
    decreases |p|
  {
    if |p| == 32 then p else Remainder(Sum(p, Multiple(p[0], |p|))[1..])
  }

  /** Every polynomial is a product with the generator and its remainder of degree under 32. */
  lemma {:induction false} DivisionLaw(p: poly) returns (q: poly)
    requires |p| >= 32
    ensures |q| == |p| - 32
    ensures p == Sum(Product(q), Zeros(|p| - 32) + Remainder(p))
    decreases |p|
  {
    if |p| == 32 {
      q := [];
    } else {
      var m := Multiple(p[0], |p|);
      var t := DivisionLaw(Sum(p, m)[1..]);
      q := [p[0]] + t;
      assert q[1..] == t;
      BringDown(p, m, Product(t), Remainder(p));
    }
  }

  lemma BringDown(p: poly, m: poly, t: poly, r: poly)
    requires |p| == |m| == |t| + 1 > 32 && m[0] == p[0] && |r| == 32
    requires Sum(p, m)[1..] == Sum(t, Zeros(|t| - 32) + r)
    ensures p == Sum(Sum(m, [false] + t), Zeros(|p| - 32) + r)
  {
    forall i | 0 < i < |p| ensures p[i] == Sum(Sum(m, [false] + t), Zeros(|p| - 32) + r)[i] {
      assert Sum(p, m)[1..][i - 1] == Sum(t, Zeros(|t| - 32) + r)[i - 1];
    }
  }

  /** Bit `i` of a number, from the lowest. */
  predicate BitOf(n: nat, i: nat) {
    if i == 0 then n % 2 == 1 else BitOf(n / 2, i - 1)
  }

  /** A buffer as a polynomial: the lowest bit of the first byte is the highest coefficient. Then 32 coefficients more,
      and the first 32 of all inverted. */
  function Message(b: seq<byte>): (p: poly)
    ensures |p| == 8 * |b| + 32
  {
    Sum(Reflected(b) + Zeros(32), Ones(8 * |b| + 32))
  }

  function Ones(n: nat): poly
    requires n >= 32
  {
    seq(n, i => i < 32)
  }

  function Reflected(b: seq<byte>): poly {
    seq(8 * |b|, i requires 0 <= i < 8 * |b| => BitOf(b[i / 8], i % 8))
  }

  // The register, bit by bit.

  predicate Low(c: bv32) {
    c & 1 == 1
  }

  predicate Bit(c: bv32, i: nat) {
    Low(Iterate(Half, c, i))
  }

  /** A register taken apart into its upper 31 bits and the lowest. */
  lemma Apart(c: bv32) returns (h: bv31, b: bv1)
    ensures c == ((h as bv32) << 1) | (b as bv32)
  {
    h, b := (c >> 1) as bv31, (c & 1) as bv1;
  }

  lemma Parts(c: bv32, h: bv31, b: bv1)
    requires c == ((h as bv32) << 1) | (b as bv32)
    ensures Half(c) == h as bv32 && (Low(c) <==> b == 1)
  {
  }

  lemma JoinValue(h: bv31, b: bv1)
    ensures (((h as bv32) << 1) | (b as bv32)) as int == 2 * (h as int) + (b as int)
  {
  }

  lemma UpperValue(h: bv31)
    ensures (h as bv32) as int == h as int
  {
  }

  lemma LowestValue(b: bv1)
    ensures b as int == if b == 1 then 1 else 0
  {
  }

  lemma ValueOf(c: bv32, h: bv31, b: bv1)
    requires c == ((h as bv32) << 1) | (b as bv32)
    ensures c as int == 2 * (h as int) + (b as int)
  {
    JoinValue(h, b);
  }

  lemma HalfValue(c: bv32, h: bv31, b: bv1)
    requires c == ((h as bv32) << 1) | (b as bv32)
    ensures Half(c) as int == h as int
  {
    Parts(c, h, b);
    UpperValue(h);
  }

  lemma Halving(c: bv32)
    ensures Half(c) as int == (c as int) / 2
    ensures Low(c) <==> (c as int) % 2 == 1
  {
    var h, b := Apart(c);
    ValueOf(c, h, b);
    HalfValue(c, h, b);
    Parts(c, h, b);
    LowestValue(b);
  }

  lemma {:induction false} BitsAgree(c: bv32, i: nat)
    ensures Bit(c, i) <==> BitOf(c as int, i)
  {
    Halving(c);
    if i > 0 {
      BitsAgree(Half(c), i - 1);
    }
  }

  function Pow2(k: nat): nat {
    if k == 0 then 1 else 2 * Pow2(k - 1)
  }

  lemma {:induction false} PowersAdd(k: nat, j: nat)
    ensures Pow2(k + j) == Pow2(k) * Pow2(j)
    decreases j
  {
    if j > 0 {
      PowersAdd(k, j - 1);
    }
  }

  lemma ThirtyTwo()
    ensures Pow2(32) == 0x1_0000_0000
  {
    PowersAdd(8, 8);
    PowersAdd(16, 16);
  }

  lemma {:induction false} NoHighBit(n: nat, k: nat, i: nat)
    requires n < Pow2(k) && k <= i
    ensures !BitOf(n, i)
    decreases i
  {
    if i > 0 {
      NoHighBit(n / 2, if k == 0 then 0 else k - 1, i - 1);
    }
  }

  lemma LowMixes(a: bv32, b: bv32)
    ensures Low(Mix(a, b)) <==> Low(a) != Low(b)
  {
  }

  lemma {:induction false} HalvesMix(a: bv32, b: bv32, i: nat)
    ensures Iterate(Half, Mix(a, b), i) == Mix(Iterate(Half, a, i), Iterate(Half, b, i))
    decreases i
  {
    if i > 0 {
      HalfMixes(a, b);
      HalvesMix(Half(a), Half(b), i - 1);
    }
  }

  lemma MixBit(a: bv32, b: bv32, i: nat)
    ensures Bit(Mix(a, b), i) <==> Bit(a, i) != Bit(b, i)
  {
    HalvesMix(a, b, i);
    LowMixes(Iterate(Half, a, i), Iterate(Half, b, i));
  }

  lemma {:induction false} NoBit(i: nat)
    ensures !Bit(0, i)
  {
    if i > 0 {
      assert Half(0) == 0;
      NoBit(i - 1);
    }
  }

  /** The bits of `c` are the coefficients of the generator below the power `k`, from the highest. */
  predicate Coefficients(c: bv32, k: nat) {
    k > 0 ==> (Low(c) <==> Term(k - 1)) && Coefficients(Half(c), k - 1)
  }

  lemma {:induction false} CoefficientAt(c: bv32, k: nat, i: nat)
    requires Coefficients(c, k) && i < k
    ensures Bit(c, i) <==> Term(k - 1 - i)
    decreases i
  {
    if i > 0 {
      CoefficientAt(Half(c), k - 1, i - 1);
    }
  }

  lemma UpperTap()
    ensures Coefficients(0xedb8, 16)
  {
    assert Coefficients(3, 2);
    assert Coefficients(0xe, 4);
    assert Coefficients(0xed, 8);
    assert Coefficients(0xedb, 12);
  }

  lemma TapIsGenerator()
    ensures Coefficients(0xedb88320, 32)
  {
    UpperTap();
    assert Coefficients(0xedb88, 20);
    assert Coefficients(0xedb883, 24);
    assert Coefficients(0xedb8832, 28);
  }

  predicate AllOnes(c: bv32, k: nat) {
    k > 0 ==> Low(c) && AllOnes(Half(c), k - 1)
  }

  lemma {:induction false} OneAt(c: bv32, k: nat, i: nat)
    requires AllOnes(c, k) && i < k
    ensures Bit(c, i)
    decreases i
  {
    if i > 0 {
      OneAt(Half(c), k - 1, i - 1);
    }
  }

  lemma Filled()
    ensures AllOnes(0xffff_ffff, 32)
  {
    assert AllOnes(0xffff, 16);
  }

  // The division, with the register held against the coefficients that are next.

  function Front(c: bv32, n: nat): poly {
    seq(n, i requires 0 <= i => i < 32 && Bit(c, i))
  }

  function Rest(c: bv32, m: poly): poly
    requires |m| >= 32
  {
    Remainder(Sum(m, Front(c, |m|)))
  }

  lemma HighBit(c: bv32)
    ensures !Bit(c, 32)
  {
    BitsAgree(c, 32);
    ThirtyTwo();
    NoHighBit(c as int, 32, 32);
  }

  /** A shift of the register carries each bit down and adds the generator below its highest power if one fell out. */
  lemma ShiftBit(c: bv32, i: nat)
    requires i < 32
    ensures Bit(Shift(c), i) <==> (i < 31 && Bit(c, i + 1)) != (Bit(c, 0) && Term(31 - i))
  {
    MixBit(Half(c), Tap(c), i);
    assert Bit(Half(c), i) == Bit(c, i + 1);
    HighBit(c);
    TapBit(c, i);
  }

  lemma TapBit(c: bv32, i: nat)
    requires i < 32
    ensures Bit(Tap(c), i) <==> Bit(c, 0) && Term(31 - i)
  {
    NoBit(i);
    TapIsGenerator();
    CoefficientAt(0xedb88320, 32, i);
  }

  lemma OneShift(c: bv32, m: poly)
    requires |m| >= 32
    ensures Rest(c, [false] + m) == Rest(Shift(c), m)
  {
    var p := Sum([false] + m, Front(c, |m| + 1));
    forall i | 0 <= i < |m|
      ensures Sum(p, Multiple(p[0], |p|))[1..][i] == Sum(m, Front(Shift(c), |m|))[i]
    {
      if i < 32 {
        ShiftBit(c, i);
      }
    }
    assert Sum(p, Multiple(p[0], |p|))[1..] == Sum(m, Front(Shift(c), |m|));
  }

  lemma {:induction false} Shifts(c: bv32, m: poly, k: nat)
    requires |m| >= 32
    ensures Rest(c, Zeros(k) + m) == Rest(Iterate(Shift, c, k), m)
    decreases k
  {
    if k == 0 {
      assert Zeros(0) + m == m;
    } else {
      assert Zeros(k) + m == [false] + (Zeros(k - 1) + m);
      OneShift(c, Zeros(k - 1) + m);
      Shifts(Shift(c), m, k - 1);
    }
  }

  function OctetBits(x: byte): poly {
    seq(8, i requires 0 <= i => BitOf(x, i))
  }

  lemma OctetBit(x: byte, i: nat)
    ensures Bit(Octet(x), i) <==> i < 8 && BitOf(x, i)
  {
    OctetValue(x);
    BitsAgree(Octet(x), i);
    if i >= 8 {
      assert Pow2(8) == 256;
      NoHighBit(x, 8, i);
    }
  }

  lemma OctetValue(x: byte)
    ensures Octet(x) as int == x
  {
    ByteRoundTrip(x);
    Widened(x as bv8);
  }

  lemma Widened(v: bv8)
    ensures (v as bv32) as int == v as int
  {
  }

  lemma OneOctet(c: bv32, x: byte, m: poly)
    requires |m| >= 32
    ensures Rest(c, OctetBits(x) + m) == Rest(Feed(c, x), m)
  {
    var mixed := Mix(c, Octet(x));
    forall i: nat ensures Bit(mixed, i) <==> Bit(c, i) != (i < 8 && BitOf(x, i)) {
      MixBit(c, Octet(x), i);
      OctetBit(x, i);
    }
    MovedToFront(c, mixed, x, m);
    Shifts(mixed, m, 8);
  }

  lemma MovedToFront(c: bv32, mixed: bv32, x: byte, m: poly)
    requires forall i: nat :: Bit(mixed, i) <==> Bit(c, i) != (i < 8 && BitOf(x, i))
    ensures Sum(OctetBits(x) + m, Front(c, |m| + 8)) == Sum(Zeros(8) + m, Front(mixed, |m| + 8))
  {
  }

  lemma {:induction false} Fed(c: bv32, b: seq<byte>, n: nat)
    requires n <= |b|
    ensures Rest(c, Reflected(b) + Zeros(32)) == Rest(Fold(Feed, c, b, n), Reflected(b)[8 * n..] + Zeros(32))
    decreases n
  {
    if n == 0 {
      assert Reflected(b)[0..] == Reflected(b);
    } else {
      Fed(c, b, n - 1);
      var m := NextOctet(b, n - 1);
      OneOctet(Fold(Feed, c, b, n - 1), b[n - 1], m);
    }
  }

  lemma NextOctet(b: seq<byte>, k: nat) returns (m: poly)
    requires k < |b|
    ensures m == Reflected(b)[8 * (k + 1)..] + Zeros(32) && |m| >= 32
    ensures Reflected(b)[8 * k..] + Zeros(32) == OctetBits(b[k]) + m
  {
    m := Reflected(b)[8 * (k + 1)..] + Zeros(32);
    assert Reflected(b)[8 * k..] == OctetBits(b[k]) + Reflected(b)[8 * (k + 1)..];
  }

  /** The checksum of gpt.rs is CRC-32: the complement of the remainder of the message, highest coefficient lowest. */
  lemma CrcIsRemainder(b: seq<byte>, i: nat)
    requires i < 32
    ensures BitOf(Crc(b), i) <==> !Remainder(Message(b))[i]
  {
    var c := Register(b);
    Inverted(c, i);
    BitsAgree(!c, i);
  }

  lemma Register(b: seq<byte>) returns (c: bv32)
    ensures c == Fold(Feed, 0xffff_ffff, b, |b|)
    ensures Remainder(Message(b)) == Front(c, 32)
  {
    c := Fold(Feed, 0xffff_ffff, b, |b|);
    Fed(0xffff_ffff, b, |b|);
    Preset(b);
    assert Reflected(b)[8 * |b|..] + Zeros(32) == Zeros(32);
    assert Sum(Zeros(32), Front(c, 32)) == Front(c, 32);
  }

  lemma Preset(b: seq<byte>)
    ensures Remainder(Message(b)) == Rest(0xffff_ffff, Reflected(b) + Zeros(32))
  {
    Filled();
    forall i: nat | i < 32 ensures Bit(0xffff_ffff, i) {
      OneAt(0xffff_ffff, 32, i);
    }
    assert Front(0xffff_ffff, 8 * |b| + 32) == Ones(8 * |b| + 32);
  }

  lemma Inverted(c: bv32, i: nat)
    requires i < 32
    ensures Bit(!c, i) <==> !Bit(c, i)
  {
    NotIsMix(c);
    MixBit(c, 0xffff_ffff, i);
    Filled();
    OneAt(0xffff_ffff, 32, i);
  }

  lemma NotIsMix(c: bv32)
    ensures !c == Mix(c, 0xffff_ffff)
  {
  }

  // The check value.

  lemma EightShifts(c: bv32, o: bv32, x: byte)
    requires Octet(x) == o
    ensures Feed(c, x) == Shift(Shift(Shift(Shift(Shift(Shift(Shift(Shift(Mix(c, o)))))))))
  {
    var d := Mix(c, o);
    assert Iterate(Shift, d, 8) == Iterate(Shift, Shift(Shift(Shift(Shift(d)))), 4);
  }

  lemma FoldNine<S>(f: (S, byte) -> S, s: seq<byte>, c: seq<S>)
    requires |s| == 9 && |c| == 10
    requires f(c[0], s[0]) == c[1] && f(c[1], s[1]) == c[2] && f(c[2], s[2]) == c[3] && f(c[3], s[3]) == c[4]
    requires f(c[4], s[4]) == c[5] && f(c[5], s[5]) == c[6] && f(c[6], s[6]) == c[7] && f(c[7], s[7]) == c[8]
    requires f(c[8], s[8]) == c[9]
    ensures Fold(f, c[0], s, 9) == c[9]
  {
    FoldStep(f, c[0], s, 0);
    FoldStep(f, c[0], s, 1);
    FoldStep(f, c[0], s, 2);
    FoldStep(f, c[0], s, 3);
    FoldStep(f, c[0], s, 4);
    FoldStep(f, c[0], s, 5);
    FoldStep(f, c[0], s, 6);
    FoldStep(f, c[0], s, 7);
    FoldStep(f, c[0], s, 8);
  }

  lemma Digits1()
    ensures Feed(0xffffffff, 49) == 0x7c231048
    ensures Feed(0x7c231048, 50) == 0xb0acbb32
    ensures Feed(0xb0acbb32, 51) == 0x77b79c2d
  {
    EightShifts(0xffffffff, 49, 49);
    EightShifts(0x7c231048, 50, 50);
    EightShifts(0xb0acbb32, 51, 51);
  }

  lemma Digits2()
    ensures Feed(0x77b79c2d, 52) == 0x641c1f5c
    ensures Feed(0x641c1f5c, 53) == 0x340ac5e3
    ensures Feed(0x340ac5e3, 54) == 0xf68d2c9e
  {
    EightShifts(0x77b79c2d, 52, 52);
    EightShifts(0x641c1f5c, 53, 53);
    EightShifts(0x340ac5e3, 54, 54);
  }

  lemma Digits3()
    ensures Feed(0xf68d2c9e, 55) == 0xaffc9660
    ensures Feed(0xaffc9660, 56) == 0x651f2550
    ensures Feed(0x651f2550, 57) == 0x340bc6d9
  {
    EightShifts(0xf68d2c9e, 55, 55);
    EightShifts(0xaffc9660, 56, 56);
    EightShifts(0x651f2550, 57, 57);
  }

  /** The digits 1 to 9 have the checksum that catalogues of CRCs give for CRC-32. */
  lemma CheckValue(s: seq<byte>)
    requires s == [49, 50, 51, 52, 53, 54, 55, 56, 57]
    ensures Crc(s) == 0xCBF43926
  {
    Digits1();
    Digits2();
    Digits3();
    FoldNine(Feed, s, [0xffffffff, 0x7c231048, 0xb0acbb32, 0x77b79c2d, 0x641c1f5c,
                       0x340ac5e3, 0xf68d2c9e, 0xaffc9660, 0x651f2550, 0x340bc6d9]);
  }
}
