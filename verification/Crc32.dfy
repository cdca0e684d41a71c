/** The bitwise CRC-32 of gpt.rs, and the damage it is certain to notice. */
module Crc32 {
  import opened Bytes

  // The register and its operations.

  function Mix(a: bv32, b: bv32): bv32 {
    a ^ b
  }

  function Half(c: bv32): bv32 {
    c >> 1
  }

  function Tap(c: bv32): bv32 {
    if c & 1 != 0 then 0xedb88320 else 0
  }

  function Shift(c: bv32): bv32 {
    Mix(Half(c), Tap(c))
  }

  function Octet(x: byte): bv32 {
    (x as bv8) as bv32
  }

  function Iterate<S>(g: S -> S, c: S, k: nat): S {
    if k == 0 then c else Iterate(g, g(c), k - 1)
  }

  /** The register after one more byte. */
  function Feed(c: bv32, x: byte): bv32 {
    Iterate(Shift, Mix(c, Octet(x)), 8)
  }

  /** Running any byte automaton over the first `n` bytes of a buffer. */
  function Fold<S>(f: (S, byte) -> S, c: S, s: seq<byte>, n: nat): S
    requires n <= |s|
    decreases n, s
  {
    if n == 0 then c else f(Fold(f, c, s, n - 1), s[n - 1])
  }

  function Crc(s: seq<byte>): (n: nat)
    ensures n < U32
  {
    (!Fold(Feed, 0xffff_ffff, s, |s|)) as int
  }

  method Compute(b: seq<byte>) returns (n: nat)
    ensures n == Crc(b)
  {
    var c: bv32 := 0xffff_ffff;
    var i := 0;
    while i < |b|
      invariant 0 <= i <= |b|
      invariant c == Fold(Feed, 0xffff_ffff, b, i)
    {
      FoldStep(Feed, 0xffff_ffff, b, i);
      c := ComputeByte(c, b[i]);
      i := i + 1;
    }
    n := (!c) as int;
  }

  method ComputeByte(c0: bv32, x: byte) returns (c: bv32)
    ensures c == Feed(c0, x)
  {
    c := Mix(c0, Octet(x));
    var k := 0;
    while k < 8
      invariant 0 <= k <= 8
      invariant Iterate(Shift, c, 8 - k) == Feed(c0, x)
    {
      c := Shift(c);
      k := k + 1;
    }
  }

  // Automata in general.

  lemma FoldStep<S>(f: (S, byte) -> S, c: S, s: seq<byte>, n: nat)
    requires n < |s|
    ensures Fold(f, c, s, n + 1) == f(Fold(f, c, s, n), s[n])
  {
  }

  lemma {:induction false} FoldConcat<S>(f: (S, byte) -> S, c: S, s: seq<byte>, t: seq<byte>, n: nat)
    requires n <= |s| + |t|
    ensures Fold(f, c, s + t, n) ==
      if n <= |s| then Fold(f, c, s, n) else Fold(f, Fold(f, c, s, |s|), t, n - |s|)
    decreases n
  {
    if n > 0 {
      FoldConcat(f, c, s, t, n - 1);
    }
  }

  /** An automaton whose every step keeps distinct states apart never forgets a difference. */
  lemma {:induction false} FoldInjective<S(!new)>(f: (S, byte) -> S, c: S, d: S, s: seq<byte>, n: nat)
    requires forall a, b, x :: f(a, x) == f(b, x) ==> a == b
    requires n <= |s| && Fold(f, c, s, n) == Fold(f, d, s, n)
    ensures c == d
    decreases n
  {
    if n > 0 {
      FoldInjective(f, c, d, s, n - 1);
    }
  }

  lemma {:induction false} IterateInjective<S(!new)>(g: S -> S, a: S, b: S, k: nat)
    requires forall x, y :: g(x) == g(y) ==> x == y
    requires Iterate(g, a, k) == Iterate(g, b, k)
    ensures a == b
  {
    if k > 0 {
      IterateInjective(g, g(a), g(b), k - 1);
    }
  }

  /** Feeding four bytes one by one, with the later ones mixed in ahead of time instead. */
  lemma FourFeeds<S>(g: S -> S, mix: (S, S) -> S, y: S, b: S, d: S, d8: S, e: S, e8: S, e16: S, y1: S, y2: S, y3: S)
    requires g(y1) == mix(g(y), b)
    requires g(y2) == mix(g(y1), d8) && g(mix(g(y1), d8)) == mix(g(g(y1)), d)
    requires g(y3) == mix(g(y2), e16) && g(mix(g(y2), e16)) == mix(g(g(y2)), e8)
    requires g(mix(g(g(y2)), e8)) == mix(g(g(g(y2))), e)
    ensures g(mix(g(mix(g(mix(g(y), b)), d)), e)) == g(g(g(g(y3))))
  {
  }

  // This register: a step is a bijection of the register for a fixed byte, and
  // of the byte for a fixed register.

  lemma ShiftInjective(a: bv32, b: bv32)
    requires Shift(a) == Shift(b)
    ensures a == b
  {
  }

  lemma MixCancels(a: bv32, b: bv32, o: bv32)
    requires Mix(a, o) == Mix(b, o) || Mix(o, a) == Mix(o, b)
    ensures a == b
  {
  }

  lemma EightInjective(a: bv32, b: bv32)
    requires Iterate(Shift, a, 8) == Iterate(Shift, b, 8)
    ensures a == b
  {
    forall x, y | Shift(x) == Shift(y) ensures x == y {
      ShiftInjective(x, y);
    }
    IterateInjective(Shift, a, b, 8);
  }

  lemma FeedInjective(a: bv32, b: bv32, x: byte)
    requires Feed(a, x) == Feed(b, x)
    ensures a == b
  {
    EightInjective(Mix(a, Octet(x)), Mix(b, Octet(x)));
    MixCancels(a, b, Octet(x));
  }

  lemma MixAssociates(a: bv32, b: bv32, p: bv32)
    ensures Mix(Mix(a, b), p) == Mix(a, Mix(b, p))
  {
  }

  lemma MixCommutes(a: bv32, b: bv32)
    ensures Mix(a, b) == Mix(b, a)
  {
  }

  lemma HalfMixes(x: bv32, e: bv32)
    ensures Half(Mix(x, e)) == Mix(Half(x), Half(e))
  {
  }

  lemma TapKeeps(x: bv32, e: bv32)
    requires e & 1 == 0
    ensures Tap(Mix(x, e)) == Tap(x)
  {
  }

  /** A bit above the lowest is only carried down by a shift, never fed back. */
  lemma ShiftMixes(x: bv32, e: bv32)
    requires e & 1 == 0
    ensures Shift(Mix(x, e)) == Mix(Shift(x), Half(e))
  {
    HalfMixes(x, e);
    TapKeeps(x, e);
    MixAssociates(Half(x), Half(e), Tap(x));
    MixCommutes(Half(e), Tap(x));
    MixAssociates(Half(x), Tap(x), Half(e));
  }

  predicate Clear(e: bv32, k: nat) {
    k > 0 ==> e & 1 == 0 && Clear(Half(e), k - 1)
  }

  lemma {:induction false} ShiftsMix(x: bv32, e: bv32, k: nat)
    requires Clear(e, k)
    ensures Iterate(Shift, Mix(x, e), k) == Mix(Iterate(Shift, x, k), Iterate(Half, e, k))
    decreases k
  {
    if k > 0 {
      ShiftMixes(x, e);
      ShiftsMix(Shift(x), Half(e), k - 1);
    }
  }

  /** A byte sitting above the lowest one. */
  lemma LaneClear(b: bv32, e: bv32)
    requires b < 256 && (e == b << 8 || e == b << 16 || e == b << 24)
    ensures Clear(e, 8)
    ensures Iterate(Half, e, 8) == e >> 8
  {
    var e1 := Half(e);
    var e2 := Half(e1);
    var e3 := Half(e2);
    var e4 := Half(e3);
    var e5 := Half(e4);
    var e6 := Half(e5);
    var e7 := Half(e6);
    assert Clear(e7, 1) && Clear(e6, 2) && Clear(e5, 3) && Clear(e4, 4);
    assert Clear(e3, 5) && Clear(e2, 6) && Clear(e1, 7);
    assert Iterate(Half, e7, 1) == e >> 8;
    assert Iterate(Half, e6, 2) == e >> 8;
    assert Iterate(Half, e5, 3) == e >> 8;
    assert Iterate(Half, e4, 4) == e >> 8;
    assert Iterate(Half, e3, 5) == e >> 8;
    assert Iterate(Half, e2, 6) == e >> 8;
    assert Iterate(Half, e1, 7) == e >> 8;
  }

  function Eight(c: bv32): bv32 {
    Iterate(Shift, c, 8)
  }

  /** Eight shifts carry the byte `e` down to `down`. */
  predicate Lane(e: bv32, down: bv32) {
    Clear(e, 8) && Iterate(Half, e, 8) == down
  }

  lemma EightMixes(x: bv32, e: bv32, down: bv32)
    requires Lane(e, down)
    ensures Eight(Mix(x, e)) == Mix(Eight(x), down)
  {
    ShiftsMix(x, e, 8);
  }

  lemma LaneDown(b: bv32)
    requires b < 256
    ensures (b << 8) >> 8 == b && (b << 16) >> 8 == b << 8 && (b << 24) >> 8 == b << 16
  {
  }

  lemma Lanes(b: bv32)
    requires b < 256
    ensures Lane(b << 8, b) && Lane(b << 16, b << 8) && Lane(b << 24, b << 16)
  {
    LaneClear(b, b << 8);
    LaneClear(b, b << 16);
    LaneClear(b, b << 24);
    LaneDown(b);
  }

  function Word(a: bv32, b: bv32, d: bv32, e: bv32): bv32 {
    Mix(a, Mix(b << 8, Mix(d << 16, e << 24)))
  }

  lemma WordAssociates(x: bv32, a: bv32, b: bv32, d: bv32, e: bv32)
    ensures Mix(Mix(Mix(Mix(x, a), b << 8), d << 16), e << 24) == Mix(x, Word(a, b, d, e))
  {
    MixAssociates(Mix(Mix(x, a), b << 8), d << 16, e << 24);
    MixAssociates(Mix(x, a), b << 8, Mix(d << 16, e << 24));
    MixAssociates(x, a, Mix(b << 8, Mix(d << 16, e << 24)));
  }

  lemma WordInjective(a: bv32, b: bv32, d: bv32, e: bv32, a': bv32, b': bv32, d': bv32, e': bv32)
    requires a < 256 && b < 256 && d < 256 && e < 256
    requires a' < 256 && b' < 256 && d' < 256 && e' < 256
    requires Word(a, b, d, e) == Word(a', b', d', e')
    ensures a == a' && b == b' && d == d' && e == e'
  {
  }

  /** Four bytes go through the register exactly like one 32-bit word. */
  lemma FeedsLanes(y: bv32, b: bv32, b8: bv32, d: bv32, d8: bv32, d16: bv32, e: bv32, e8: bv32, e16: bv32, e24: bv32)
    requires Lane(b8, b) && Lane(d8, d) && Lane(d16, d8) && Lane(e8, e) && Lane(e16, e8) && Lane(e24, e16)
    ensures Eight(Mix(Eight(Mix(Eight(Mix(Eight(y), b)), d)), e))
         == Eight(Eight(Eight(Eight(Mix(Mix(Mix(y, b8), d16), e24)))))
  {
    var y1 := Mix(y, b8);
    var y2 := Mix(y1, d16);
    EightMixes(y, b8, b);
    EightMixes(y1, d16, d8);
    EightMixes(Eight(y1), d8, d);
    EightMixes(y2, e24, e16);
    EightMixes(Eight(y2), e16, e8);
    EightMixes(Eight(Eight(y2)), e8, e);
    FourFeeds(Eight, Mix, y, b, d, d8, e, e8, e16, y1, y2, Mix(y2, e24));
  }

  lemma FeedsWord(x: bv32, a: bv32, b: bv32, d: bv32, e: bv32)
    requires b < 256 && d < 256 && e < 256
    ensures Eight(Mix(Eight(Mix(Eight(Mix(Eight(Mix(x, a)), b)), d)), e))
         == Eight(Eight(Eight(Eight(Mix(x, Word(a, b, d, e))))))
  {
    Lanes(b);
    Lanes(d);
    Lanes(e);
    FeedsLanes(Mix(x, a), b, b << 8, d, d << 8, d << 16, e, e << 8, e << 16, e << 24);
    WordAssociates(x, a, b, d, e);
  }

  lemma Successor(v: bv8)
    requires v < 255
    ensures (v + 1) as int == v as int + 1
  {
  }

  lemma BackAgain(v: bv8)
    ensures (v as int) as bv8 == v
  {
  }

  lemma {:induction false} Represented(x: byte) returns (v: bv8)
    ensures v as int == x
  {
    if x == 0 {
      v := 0;
    } else {
      var u := Represented(x - 1);
      Successor(u);
      v := u + 1;
    }
  }

  lemma ByteRoundTrip(x: byte)
    ensures (x as bv8) as int == x
  {
    var v := Represented(x);
    BackAgain(v);
  }

  lemma Widen(a: bv8, b: bv8)
    ensures a as bv32 == b as bv32 ==> a == b
    ensures a as bv32 < 256
  {
  }

  lemma OctetInjective(x: byte, y: byte)
    requires Octet(x) == Octet(y)
    ensures x == y
  {
    ByteRoundTrip(x);
    ByteRoundTrip(y);
    Widen(x as bv8, y as bv8);
  }

  lemma NotInjective(a: bv32, b: bv32)
    requires !a == !b
    ensures a == b
  {
  }

  lemma ValueInjective(a: bv32, b: bv32)
    requires a as int == b as int
    ensures a == b
  {
    assert (a as int) as bv32 == a && (b as int) as bv32 == b;
  }

  lemma CrcInjective(s: seq<byte>, t: seq<byte>)
    requires Crc(s) == Crc(t)
    ensures Fold(Feed, 0xffff_ffff, s, |s|) == Fold(Feed, 0xffff_ffff, t, |t|)
  {
    var a, b := Fold(Feed, 0xffff_ffff, s, |s|), Fold(Feed, 0xffff_ffff, t, |t|);
    ValueInjective(!a, !b);
    NotInjective(a, b);
  }

  lemma OctetBound(x: byte)
    ensures Octet(x) < 256
  {
    Widen(x as bv8, x as bv8);
  }

  function Word4(s: seq<byte>): bv32
    requires |s| == 4
  {
    Word(Octet(s[0]), Octet(s[1]), Octet(s[2]), Octet(s[3]))
  }

  lemma FoldFour<S>(f: (S, byte) -> S, c: S, s: seq<byte>)
    requires |s| == 4
    ensures Fold(f, c, s, 4) == f(f(f(f(c, s[0]), s[1]), s[2]), s[3])
  {
    assert Fold(f, c, s, 1) == f(c, s[0]);
    assert Fold(f, c, s, 3) == f(Fold(f, c, s, 2), s[2]);
  }

  lemma FoldWord(c: bv32, s: seq<byte>)
    requires |s| == 4
    ensures Fold(Feed, c, s, 4) == Eight(Eight(Eight(Eight(Mix(c, Word4(s))))))
  {
    FoldFour(Feed, c, s);
    OctetBound(s[1]);
    OctetBound(s[2]);
    OctetBound(s[3]);
    FeedsWord(c, Octet(s[0]), Octet(s[1]), Octet(s[2]), Octet(s[3]));
  }

  lemma FourEights(a: bv32, b: bv32)
    requires Eight(Eight(Eight(Eight(a)))) == Eight(Eight(Eight(Eight(b))))
    ensures a == b
  {
    EightInjective(Eight(Eight(Eight(a))), Eight(Eight(Eight(b))));
    EightInjective(Eight(Eight(a)), Eight(Eight(b)));
    EightInjective(Eight(a), Eight(b));
    EightInjective(a, b);
  }

  lemma Word4Injective(s: seq<byte>, t: seq<byte>)
    requires |s| == |t| == 4 && Word4(s) == Word4(t)
    ensures s == t
  {
    forall k | 0 <= k < 4 ensures Octet(s[k]) < 256 && Octet(t[k]) < 256 {
      OctetBound(s[k]);
      OctetBound(t[k]);
    }
    WordInjective(Octet(s[0]), Octet(s[1]), Octet(s[2]), Octet(s[3]),
                  Octet(t[0]), Octet(t[1]), Octet(t[2]), Octet(t[3]));
    OctetInjective(s[0], t[0]);
    OctetInjective(s[1], t[1]);
    OctetInjective(s[2], t[2]);
    OctetInjective(s[3], t[3]);
  }

  lemma FoldFourInjective(c: bv32, s: seq<byte>, t: seq<byte>)
    requires |s| == |t| == 4 && Fold(Feed, c, s, 4) == Fold(Feed, c, t, 4)
    ensures s == t
  {
    FoldWord(c, s);
    FoldWord(c, t);
    FourEights(Mix(c, Word4(s)), Mix(c, Word4(t)));
    MixCancels(Word4(s), Word4(t), c);
    Word4Injective(s, t);
  }

  lemma FoldFeedInjective(c: bv32, d: bv32, s: seq<byte>)
    requires Fold(Feed, c, s, |s|) == Fold(Feed, d, s, |s|)
    ensures c == d
  {
    forall a, b, x | Feed(a, x) == Feed(b, x) ensures a == b {
      FeedInjective(a, b, x);
    }
    FoldInjective(Feed, c, d, s, |s|);
  }

  lemma FoldTwo<S>(f: (S, byte) -> S, c: S, s: seq<byte>, t: seq<byte>)
    ensures Fold(f, c, s + t, |s + t|) == Fold(f, Fold(f, c, s, |s|), t, |t|)
  {
    FoldConcat(f, c, s, t, |s| + |t|);
    if |t| == 0 { assert Fold(f, c, s + t, |s + t|) == Fold(f, c, s, |s|); }
  }

  lemma FoldThree<S>(f: (S, byte) -> S, c: S, p: seq<byte>, s: seq<byte>, q: seq<byte>)
    ensures Fold(f, c, p + s + q, |p + s + q|) == Fold(f, Fold(f, Fold(f, c, p, |p|), s, |s|), q, |q|)
  {
    FoldTwo(f, c, p + s, q);
    FoldTwo(f, c, p, s);
  }

  /** Any damage confined to four consecutive bytes changes the checksum. */
  lemma DetectsBurst(before: seq<byte>, s: seq<byte>, t: seq<byte>, after: seq<byte>)
    requires |s| == |t| == 4 && s != t
    ensures Crc(before + s + after) != Crc(before + t + after)
  {
    if Crc(before + s + after) == Crc(before + t + after) {
      var c := Fold(Feed, 0xffff_ffff, before, |before|);
      CrcInjective(before + s + after, before + t + after);
      FoldThree(Feed, 0xffff_ffff, before, s, after);
      FoldThree(Feed, 0xffff_ffff, before, t, after);
      FoldFeedInjective(Fold(Feed, c, s, 4), Fold(Feed, c, t, 4), after);
      FoldFourInjective(c, s, t);
    }
  }

  /** The same for one buffer seen before and after the damage. */
  lemma DetectsDamage(s: seq<byte>, t: seq<byte>, at: nat)
    requires |s| == |t| && s != t && at + 4 <= |s|
    requires forall i :: 0 <= i < |s| && !(at <= i < at + 4) ==> s[i] == t[i]
    ensures Crc(s) != Crc(t)
  {
    assert s == s[..at] + s[at..at + 4] + s[at + 4..];
    assert t[..at] == s[..at] && t[at + 4..] == s[at + 4..];
    assert t == s[..at] + t[at..at + 4] + s[at + 4..];
    DetectsBurst(s[..at], s[at..at + 4], t[at..at + 4], s[at + 4..]);
  }
}
