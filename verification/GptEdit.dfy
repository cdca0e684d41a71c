/** The transformations of gpt.rs as it runs them: fields patched in place, headers sealed again. */
module GptEdit {
  import opened Bytes
  import opened Crc32
  import opened Gpt
  import opened GptRepair
  import opened GptMove
  import opened GptCheck

  // Patching one sector of a larger buffer.

  lemma SpliceWithin(b: seq<byte>, at: nat, o: nat, patch: seq<byte>)
    requires at + 512 <= |b| && o + |patch| <= 512
    ensures Splice(b, at + o, patch) == Splice(b, at, Splice(b[at..at + 512], o, patch))
  {
    var h := b[at..at + 512];
    assert h[..o] == b[at..at + o] && h[o + |patch|..] == b[at + o + |patch|..at + 512];
  }

  lemma SpliceAgain(b: seq<byte>, at: nat, x: seq<byte>, y: seq<byte>)
    requires at + |x| <= |b| && |x| == |y|
    ensures Splice(Splice(b, at, x), at, y) == Splice(b, at, y)
    ensures Splice(b, at, x)[at..at + |x|] == x
  {
    var s := Splice(b, at, x);
    assert s[..at] == b[..at] && s[at + |x|..] == b[at + |x|..];
  }

  /** One field of the sector at `at`. */
  method WriteField(a: array<byte>, at: nat, o: nat, n: nat, k: nat)
    requires at + 512 <= a.Length && o + k <= 512
    modifies a
    ensures a[..] == Splice(old(a[..]), at, Splice(old(a[..])[at..at + 512], o, Le(n, k)))
  {
    SpliceWithin(a[..], at, o, Le(n, k));
    WriteLe(a, at + o, n, k);
  }

  /** The header at `at` gets its checksum back, the field counting as zero while it is summed. */
  method Seal(a: array<byte>, at: nat)
    requires at + 512 <= a.Length && Sized(a[..][at..at + 512])
    modifies a
    ensures a[..] == Splice(old(a[..]), at, Sealed(old(a[..])[at..at + 512]))
  {
    ghost var before := a[..];
    ghost var h := before[at..at + 512];
    ghost var z := Splice(h, 16, Le(0, 4));
    ZeroedIsBlanked(h);
    WriteField(a, at, 16, 0, 4);
    SpliceAgain(before, at, z, z);
    assert a[at..at + 512] == z;
    var size := U32At(a[at..at + 512], 12);
    U32Bytes(z, h, 12);
    assert a[at..at + size] == a[at..at + 512][..size];
    var c := Compute(a[at..at + size]);
    WriteField(a, at, 16, c, 4);
    SpliceAgain(before, at, z, Splice(z, 16, Le(c, 4)));
    SpliceAgain(h, 16, Le(0, 4), Le(c, 4));
  }

  lemma ZeroedIsBlanked(h: seq<byte>)
    requires |h| == 512
    ensures Splice(h, 16, Le(0, 4)) == Blanked(h)
    ensures Same(Blanked(h), h, 0, 16)
  {
    assert Le(0, 4) == [0, 0, 0, 0];
  }

  /** The header at `at` rewritten for another place, and sealed. */
  method Retarget(a: array<byte>, at: nat, current: nat, other: nat, entries: nat)
    requires at + 512 <= a.Length && Sized(a[..][at..at + 512])
    requires current < U64 && other < U64 && entries < U64
    modifies a
    ensures a[..] == Splice(old(a[..]), at, Retargeted(old(a[..])[at..at + 512], current, other, entries))
  {
    ghost var b := a[..];
    ghost var h := b[at..at + 512];
    ghost var h1 := Put64(h, 24, current);
    ghost var h2 := Put64(h1, 32, other);
    ghost var m := Moved(h, current, other, entries);
    WriteField(a, at, 24, current, 8);
    SpliceAgain(b, at, h1, h2);
    WriteField(a, at, 32, other, 8);
    SpliceAgain(b, at, h2, m);
    WriteField(a, at, 72, entries, 8);
    SpliceAgain(b, at, m, m);
    SealedMoved(h, current, other, entries);
    Seal(a, at);
    SpliceAgain(b, at, m, Sealed(m));
    RetargetedUnique(Sealed(m), h, current, other, entries);
  }

  /** The backup copy built from a finished primary. */
  method Backup(p: seq<byte>, sectors: nat) returns (t: seq<byte>)
    requires |p| == HEAD && Sized(Header(p)) && 33 <= sectors < U32
    ensures t == BackupOf(Header(p), Array(p), sectors)
  {
    var s := Array(p) + Header(p);
    var b := new byte[TAIL](i requires 0 <= i < TAIL => s[i]);
    assert b[..] == s;
    assert s[ENTRIES..ENTRIES + 512] == Header(p);
    Retarget(b, ENTRIES, sectors - 1, 1, sectors - 33);
    t := b[..];
  }

  // `require_k11c`.

  /** The UTF-16 unit at place `k` of a name. */
  function Unit(x: seq<byte>, i: nat, k: nat): (u: nat)
    requires |x| == ENTRIES && i < 128 && k < 36
  {
    U16At(x, 128 * i + 56 + 2 * k)
  }

  /** The units from place `k` up to the terminator. */
  function Units(x: seq<byte>, i: nat, k: nat): (s: seq<nat>)
    requires |x| == ENTRIES && i < 128 && k <= 36
    ensures |s| <= 36 - k
    ensures forall m :: k <= m < k + |s| ==> s[m - k] == Unit(x, i, m) && s[m - k] != 0
    ensures k + |s| < 36 ==> Unit(x, i, k + |s|) == 0
    decreases 36 - k
  {
    if k == 36 || Unit(x, i, k) == 0 then [] else [Unit(x, i, k)] + Units(x, i, k + 1)
  }

  function Codes(s: string): (r: seq<nat>)
    ensures |r| == |s|
  {
    seq(|s|, i requires 0 <= i < |s| => s[i] as nat)
  }

  predicate Plain(s: string) {
    |s| < 36 && forall k :: 0 <= k < |s| ==> s[k] as int != 0
  }

  lemma {:induction false} UnitsOfName(x: seq<byte>, i: nat, name: string, k: nat)
    requires |x| == ENTRIES && i < 128 && Plain(name) && Labelled(x, i, name) && k <= |name|
    ensures Units(x, i, k) == Codes(name)[k..]
    decreases |name| - k
  {
    if k < |name| {
      UnitsOfName(x, i, name, k + 1);
      assert Codes(name)[k..] == [Codes(name)[k]] + Codes(name)[k + 1..];
    }
  }

  lemma NameOfUnits(x: seq<byte>, i: nat, name: string)
    requires |x| == ENTRIES && i < 128 && Plain(name) && Units(x, i, 0) == Codes(name)
    ensures Labelled(x, i, name)
  {
    var u := Units(x, i, 0);
    assert Unit(x, i, 0 + |u|) == 0;
    forall k | 0 <= k < |name| ensures U16At(x, 128 * i + 56 + 2 * k) == name[k] as int {
      assert Unit(x, i, k) == u[k - 0] == Codes(name)[k];
    }
  }

  /** Decoding up to the terminator and comparing is the label test. */
  lemma UnitsDecide(x: seq<byte>, i: nat, name: string)
    requires |x| == ENTRIES && i < 128 && Plain(name)
    ensures Units(x, i, 0) == Codes(name) <==> Labelled(x, i, name)
  {
    if Units(x, i, 0) == Codes(name) {
      NameOfUnits(x, i, name);
    }
    if Labelled(x, i, name) {
      UnitsOfName(x, i, name, 0);
    }
  }

  lemma LabelsPlain()
    ensures |LABELS| == 8 && forall i :: 0 <= i < 8 ==> Plain(LABELS[i])
  {
  }

  method AllZero(x: seq<byte>, lo: nat, hi: nat) returns (zero: bool)
    requires lo <= hi <= |x|
    ensures zero <==> forall k :: lo <= k < hi ==> x[k] == 0
  {
    var k := lo;
    while k < hi
      invariant lo <= k <= hi
      invariant forall j :: lo <= j < k ==> x[j] == 0
    {
      if x[k] != 0 { return false; }
      k := k + 1;
    }
    return true;
  }

  predicate EntryAccepted(x: seq<byte>, i: nat)
    requires |x| == ENTRIES && i < 128
  {
    if i >= 8 then forall k :: 128 * i <= k < 128 * i + 128 ==> x[k] == 0
    else Labelled(x, i, LABELS[i]) && Start(x, i) >= 34816
  }

  lemma EntriesDecide(x: seq<byte>)
    requires |x| == ENTRIES
    ensures K11c(x) <==> (forall i :: 0 <= i < 128 ==> EntryAccepted(x, i)) && Start(x, 0) == 34816
  {
    if forall i :: 0 <= i < 128 ==> EntryAccepted(x, i) {
      forall k | 1024 <= k < ENTRIES ensures x[k] == 0 {
        assert EntryAccepted(x, k / 128);
      }
      forall i | 0 <= i < 8 ensures Labelled(x, i, LABELS[i]) && Start(x, i) >= 34816 {
        assert EntryAccepted(x, i);
      }
    }
    if K11c(x) {
      forall i | 0 <= i < 128 ensures EntryAccepted(x, i) {
      }
    }
  }

  method AcceptEntry(x: seq<byte>, i: nat) returns (ok: bool)
    requires |x| == ENTRIES && i < 128
    ensures ok <==> EntryAccepted(x, i)
  {
    if i >= 8 {
      ok := AllZero(x, 128 * i, 128 * i + 128);
    } else {
      LabelsPlain();
      UnitsDecide(x, i, LABELS[i]);
      ok := Units(x, i, 0) == Codes(LABELS[i]) && U64At(x, 128 * i + 32) >= 34816;
    }
  }

  method Layout11c(x: seq<byte>) returns (ok: bool)
    requires |x| == ENTRIES
    ensures ok <==> K11c(x)
  {
    EntriesDecide(x);
    var i := 0;
    while i < 128
      invariant 0 <= i <= 128
      invariant forall j :: 0 <= j < i ==> EntryAccepted(x, j)
    {
      ok := AcceptEntry(x, i);
      if !ok { return false; }
      i := i + 1;
    }
    return U64At(x, 32) == 34816;
  }

  method RequireK11c(p: seq<byte>, t: seq<byte>, sectors: nat) returns (r: Result<(seq<byte>, seq<byte>)>)
    requires sectors < U32
    ensures r == Verdict(p, t, sectors)
    ensures r.Ok? <==> Accepted(p, t, sectors)
  {
    var report := Check(p, t, sectors);
    if !report.Ok() { return Err("GPT_INVALID"); }
    var ok := Layout11c(Array(p));
    return if ok then Ok((p, t)) else Err("GPT_LAYOUT");
  }

  // `repaired`.

  method ComputeCopyValid(h: seq<byte>, x: seq<byte>, current: nat, other: nat, entries: nat, sectors: nat)
    returns (ok: bool)
    requires |h| == 512 && |x| == ENTRIES && sectors > 34849
    ensures ok <==> CopyValid(h, x, current, other, entries, sectors)
  {
    ok := ComputeHeaderOk(h, current, other, entries);
    if !ok { return; }
    var c := Compute(x);
    if c != U32At(h, 88) { return false; }
    var first, last := U64At(h, 40), U64At(h, 48);
    if first < 34 || last > sectors - 34 || first > last { return false; }
    var partitions, bounds, overlap := CheckLayout(x, first, last);
    return bounds && !overlap;
  }

  /** The primary copy rebuilt from the backup, the boot sector kept. */
  method Primary(p: seq<byte>, t: seq<byte>, sectors: nat) returns (q: seq<byte>)
    requires |p| == HEAD && |t| == TAIL && Sized(BackupHeader(t)) && 33 <= sectors < U32
    ensures q == PrimaryOf(p[..512], BackupHeader(t), BackupArray(t), sectors)
  {
    var s := p[..512] + BackupHeader(t) + BackupArray(t);
    var a := new byte[HEAD](i requires 0 <= i < HEAD => s[i]);
    assert a[..] == s;
    assert s[512..512 + 512] == BackupHeader(t) && s[..512] == p[..512] && s[512 + 512..] == BackupArray(t);
    Retarget(a, 512, 1, sectors - 1, 2);
    q := a[..];
  }

  method Repair(p: seq<byte>, t: seq<byte>, sectors: nat) returns (r: Result<(seq<byte>, seq<byte>)>)
    requires sectors < U32
    ensures r == Repaired(p, t, sectors)
  {
    if |p| != 34 * 512 || |t| != 33 * 512 || sectors <= 34849 { return Err("GPT_INVALID"); }
    var a, b := Header(p), BackupHeader(t);
    var av := ComputeCopyValid(a, Array(p), 1, sectors - 1, 2, sectors);
    var bv := ComputeCopyValid(b, BackupArray(t), sectors - 1, 1, sectors - 33, sectors);
    if !av && !bv { return Err("GPT_NO_VALID_COPY"); }
    BoundsSame(a, b);
    if av && bv && (Array(p) != BackupArray(t) || a[40..56] != b[40..56]) { return Err("GPT_AMBIGUOUS"); }
    if av {
      var u := Backup(p, sectors);
      r := RequireK11c(p, u, sectors);
    } else {
      var q := Primary(p, t, sectors);
      r := RequireK11c(q, t, sectors);
    }
  }

  lemma BoundsSame(a: seq<byte>, b: seq<byte>)
    requires |a| == |b| == 512
    ensures Same(a, b, 40, 56) <==> a[40..56] == b[40..56]
  {
    if a[40..56] == b[40..56] {
      assert forall i :: 40 <= i < 56 ==> a[i] == a[40..56][i - 40] && b[i] == b[40..56][i - 40];
    }
  }

  // `relocated`, `resized` and `resize_data_gpt`.

  lemma EntrySame(y: seq<byte>, x: seq<byte>, i: nat)
    requires |x| == |y| == ENTRIES && i < 128 && Same(y, x, 128 * i, 128 * i + 128)
    ensures Used(y, i) <==> Used(x, i)
    ensures Start(y, i) == Start(x, i) && Finish(y, i) == Finish(x, i)
  {
    U64Bytes(y, x, 128 * i + 32);
    U64Bytes(y, x, 128 * i + 40);
    assert forall k :: 128 * i <= k < 128 * i + 16 ==> y[k] == x[k];
  }

  lemma ShiftedEntryLocal(z: seq<byte>, y: seq<byte>, x: seq<byte>, i: nat)
    requires |x| == |y| == |z| == ENTRIES && i < 128
    requires Same(z, y, 128 * i, 128 * i + 128) && ShiftedEntry(y, x, i)
    ensures ShiftedEntry(z, x, i)
  {
    EntrySame(z, y, i);
  }

  function TwoPut(x: seq<byte>, o: nat, m: nat, n: nat): (y: seq<byte>)
    requires o + 16 <= |x| && m < U64 && n < U64
    ensures |y| == |x|
  {
    Put64(Put64(x, o, m), o + 8, n)
  }

  lemma TwoPutReads(x: seq<byte>, o: nat, m: nat, n: nat)
    requires o + 16 <= |x| && m < U64 && n < U64
    ensures var y := TwoPut(x, o, m, n);
      && U64At(y, o) == m && U64At(y, o + 8) == n
      && Same(y, x, 0, o) && Same(y, x, o + 16, |x|)
  {
    var z := Put64(x, o, m);
    var y := Put64(z, o + 8, n);
    Put64Reads(x, o, m);
    Put64Reads(z, o + 8, n);
    U64Bytes(y, z, o);
  }

  function EntryMoved(x: seq<byte>, i: nat): (y: seq<byte>)
    requires |x| == ENTRIES && i < 128
    requires Start(x, i) + SHIFT < U64 && Finish(x, i) + SHIFT < U64
    ensures |y| == ENTRIES
  {
    TwoPut(x, 128 * i + 32, Start(x, i) + SHIFT, Finish(x, i) + SHIFT)
  }

  /** One used entry moved along the disk: both of its addresses, and nothing else. */
  lemma EntryShifted(x: seq<byte>, i: nat)
    requires |x| == ENTRIES && i < 128 && Used(x, i)
    requires Start(x, i) + SHIFT < U64 && Finish(x, i) + SHIFT < U64
    ensures ShiftedEntry(EntryMoved(x, i), x, i)
    ensures Same(EntryMoved(x, i), x, 0, 128 * i) && Same(EntryMoved(x, i), x, 128 * i + 128, ENTRIES)
  {
    TwoPutReads(x, 128 * i + 32, Start(x, i) + SHIFT, Finish(x, i) + SHIFT);
  }

  method ShiftEntries(x: seq<byte>) returns (y: seq<byte>)
    requires |x| == ENTRIES
    requires forall i :: 0 <= i < 128 && Used(x, i) ==> Start(x, i) + SHIFT < U64 && Finish(x, i) + SHIFT < U64
    ensures |y| == ENTRIES && IsShifted(y, x)
  {
    var a := new byte[ENTRIES](i requires 0 <= i < ENTRIES => x[i]);
    assert a[..] == x;
    var i := 0;
    while i < 128
      invariant 0 <= i <= 128
      invariant forall j :: 0 <= j < i ==> ShiftedEntry(a[..], x, j)
      invariant Same(a[..], x, 128 * i, ENTRIES)
    {
      ghost var before := a[..];
      EntrySame(before, x, i);
      ShiftOne(a, i);
      assert ShiftedEntry(a[..], x, i) by {
        ShiftedFrom(a[..], before, x, i);
      }
      forall j | 0 <= j < i ensures ShiftedEntry(a[..], x, j) {
        ShiftedEntryLocal(a[..], before, x, j);
      }
      i := i + 1;
    }
    y := a[..];
  }

  lemma ShiftedFrom(y: seq<byte>, before: seq<byte>, x: seq<byte>, i: nat)
    requires |x| == |y| == |before| == ENTRIES && i < 128
    requires Same(before, x, 128 * i, 128 * i + 128) && ShiftedEntry(y, before, i)
    ensures ShiftedEntry(y, x, i)
  {
    EntrySame(before, x, i);
  }

  method ShiftOne(a: array<byte>, i: nat)
    requires a.Length == ENTRIES && i < 128
    requires Used(a[..], i) ==> Start(a[..], i) + SHIFT < U64 && Finish(a[..], i) + SHIFT < U64
    modifies a
    ensures ShiftedEntry(a[..], old(a[..]), i)
    ensures Same(a[..], old(a[..]), 0, 128 * i) && Same(a[..], old(a[..]), 128 * i + 128, ENTRIES)
  {
    var zero := TypeIsZero(a[..], i);
    if !zero {
      MoveEntry(a, i);
      EntryShifted(old(a[..]), i);
    }
  }

  method MoveEntry(a: array<byte>, i: nat)
    requires a.Length == ENTRIES && i < 128
    requires Start(a[..], i) + SHIFT < U64 && Finish(a[..], i) + SHIFT < U64
    modifies a
    ensures a[..] == EntryMoved(old(a[..]), i)
  {
    var start, finish := U64At(a[..], 128 * i + 32), U64At(a[..], 128 * i + 40);
    WriteTwo(a, 128 * i + 32, start + SHIFT, finish + SHIFT);
  }

  method WriteTwo(a: array<byte>, o: nat, m: nat, n: nat)
    requires o + 16 <= a.Length && m < U64 && n < U64
    modifies a
    ensures a[..] == TwoPut(old(a[..]), o, m, n)
  {
    WriteLe(a, o, m, 8);
    WriteLe(a, o + 8, n, 8);
  }

  function Adapted(h: seq<byte>, target: nat, arrayCrc: nat): (g: seq<byte>)
    requires |h| == 512 && 34 <= target < U32 && arrayCrc < U32
    ensures |g| == 512
  {
    Put32(Put64(Put64(h, 32, target - 1), 48, target - 34), 88, arrayCrc)
  }

  lemma AdaptedFields(h: seq<byte>, target: nat, arrayCrc: nat)
    requires Sized(h) && 34 <= target < U32 && arrayCrc < U32
    ensures var g := Adapted(h, target, arrayCrc);
      && Sized(g)
      && Same(g, h, 0, 32) && Same(g, h, 40, 48) && Same(g, h, 56, 88) && Same(g, h, 92, 512)
      && U64At(g, 32) == target - 1 && U64At(g, 48) == target - 34 && U32At(g, 88) == arrayCrc
  {
    var h1 := Put64(h, 32, target - 1);
    var h2 := Put64(h1, 48, target - 34);
    var g := Put32(h2, 88, arrayCrc);
    assert Same(h1, h, 0, 32) && Same(h1, h, 40, 512) && U64At(h1, 32) == target - 1 by {
      Put64Reads(h, 32, target - 1);
    }
    assert Same(h2, h1, 0, 48) && Same(h2, h1, 56, 512) && U64At(h2, 48) == target - 34 by {
      Put64Reads(h1, 48, target - 34);
    }
    assert Same(g, h2, 0, 88) && Same(g, h2, 92, 512) && U32At(g, 88) == arrayCrc by {
      Put32Reads(h2, 88, arrayCrc);
    }
    U64Bytes(g, h1, 32);
    U64Bytes(g, h2, 48);
    U32Bytes(g, h, 12);
  }

  lemma SealedAdapted(h: seq<byte>, target: nat, arrayCrc: nat)
    requires Sized(h) && 34 <= target < U32 && arrayCrc < U32
    ensures Sized(Adapted(h, target, arrayCrc))
    ensures IsAdapted(Sealed(Adapted(h, target, arrayCrc)), h, target, arrayCrc)
  {
    var g := Adapted(h, target, arrayCrc);
    AdaptedFields(h, target, arrayCrc);
    SealedKeeps(g);
    U64Bytes(Sealed(g), g, 32);
    U64Bytes(Sealed(g), g, 48);
    U32Bytes(Sealed(g), g, 88);
  }

  /** The primary header rewritten for a disk of `target` sectors, and sealed. */
  method Adapt(h: seq<byte>, target: nat, arrayCrc: nat) returns (g: seq<byte>)
    requires Sized(h) && 34 <= target < U32 && arrayCrc < U32
    ensures IsAdapted(g, h, target, arrayCrc)
  {
    SealedAdapted(h, target, arrayCrc);
    var a := new byte[512](i requires 0 <= i < 512 => h[i]);
    assert a[..] == h;
    WriteLe(a, 32, target - 1, 8);
    WriteLe(a, 48, target - 34, 8);
    WriteLe(a, 88, arrayCrc, 4);
    g := SealAll(a);
  }

  method SealAll(a: array<byte>) returns (g: seq<byte>)
    requires a.Length == 512 && Sized(a[..])
    modifies a
    ensures g == Sealed(old(a[..]))
  {
    assert a[..][0..0 + 512] == a[..];
    Seal(a, 0);
    g := a[..];
  }

  method ResizeMbr(mbr: seq<byte>, target: nat) returns (r: seq<byte>)
    requires |mbr| == 512 && 0 < target < U32
    ensures |r| == 512 && Same(r, mbr, 0, 458) && Same(r, mbr, 462, 512) && U32At(r, 458) == target - 1
  {
    Put32Reads(mbr, 458, target - 1);
    r := Put32(mbr, 458, target - 1);
  }

  lemma MbrInPlace(r: seq<byte>, p: seq<byte>, g: seq<byte>, y: seq<byte>, target: nat)
    requires |p| == HEAD && |r| == |g| == 512 && |y| == ENTRIES && target > 0
    requires Same(r, p[..512], 0, 458) && Same(r, p[..512], 462, 512) && U32At(r, 458) == target - 1
    ensures MbrResized(r + g + y, p, target)
    ensures Header(r + g + y) == g && Array(r + g + y) == y
  {
    var a := r + g + y;
    JoinedHead(r, g, y);
    assert a[458..462] == r[458..462];
    LeAtSame(a, r, 458, 458, 4);
    assert forall i :: 0 <= i < 512 ==> a[i] == r[i] && p[i] == p[..512][i];
  }

  /** The new primary copy: boot sector and header adapted, the given entry array. */
  method Rebuild(p: seq<byte>, y: seq<byte>, target: nat, arrayCrc: nat) returns (a: seq<byte>)
    requires |p| == HEAD && |y| == ENTRIES && Sized(Header(p)) && 34 <= target < U32 && arrayCrc < U32
    ensures |a| == HEAD && Array(a) == y && MbrResized(a, p, target)
    ensures IsAdapted(Header(a), Header(p), target, arrayCrc)
  {
    var mbr := ResizeMbr(p[..512], target);
    var g := Adapt(Header(p), target, arrayCrc);
    a := mbr + g + y;
    MbrInPlace(mbr, p, g, y, target);
  }

  /** No partition of a healthy disk can fail to fit once the target has the spare sectors. */
  lemma FitsUnlessSaturated(p: seq<byte>, t: seq<byte>, source: nat, target: nat)
    requires Healthy(p, t, source) && source + SHIFT <= target
    ensures Fits(Array(p), target)
  {
  }

  function Saturated(source: nat): nat {
    if source + SHIFT < U32 then source + SHIFT else U32 - 1
  }

  predicate SimpleMbr(p: seq<byte>, source: nat)
    requires |p| == HEAD && source > 0
  {
    U32At(p, 454) == 1 && U32At(p, 458) == source - 1 && forall k :: 462 <= k < 510 ==> p[k] == 0
  }

  predicate Relocatable(p: seq<byte>, t: seq<byte>, source: nat, target: nat) {
    && Healthy(p, t, source) && Start(Array(p), 0) == 2048
    && SimpleMbr(p, source) && target >= Saturated(source)
  }

  method RefuseRelocation(p: seq<byte>, t: seq<byte>, source: nat, target: nat) returns (error: string)
    requires source < U32
    ensures error == "" <==> Relocatable(p, t, source, target)
    ensures !Healthy(p, t, source) ==> error == "IMAGE_GPT"
    ensures Healthy(p, t, source) && Start(Array(p), 0) != 2048 ==> error == "IMAGE_LAYOUT"
    ensures Healthy(p, t, source) && Start(Array(p), 0) == 2048 && !SimpleMbr(p, source) ==> error == "IMAGE_GPT"
    ensures Healthy(p, t, source) && Start(Array(p), 0) == 2048 && SimpleMbr(p, source) && target < Saturated(source)
      ==> error == "CAPACITY"
  {
    var report := Check(p, t, source);
    if !report.Ok() { return "IMAGE_GPT"; }
    if U64At(Array(p), 32) != 2048 { return "IMAGE_LAYOUT"; }
    var zero := AllZero(p, 462, 510);
    if U32At(p, 454) != 1 || U32At(p, 458) != source - 1 || !zero { return "IMAGE_GPT"; }
    return if target < Saturated(source) then "CAPACITY" else "";
  }

  /** `relocated`: which inputs it refuses, and what it returns otherwise. */
  method Relocate(p: seq<byte>, t: seq<byte>, source: nat, target: nat) returns (r: Result<(seq<byte>, seq<byte>)>)
    requires source < U32 && target < U32
    ensures r.Ok? <==> Relocatable(p, t, source, target) && Fits(Array(p), target) && K11cSource(Array(p))
    ensures r.Ok? ==>
      && IsRelocated(r.value.0, p, target) && Mirrored(r.value.0, r.value.1, target)
      && Accepted(r.value.0, r.value.1, target)
  {
    var error := RefuseRelocation(p, t, source, target);
    if error != "" { return Err(error); }
    RelocatableEntries(p, t, source);
    var y := ShiftEntries(Array(p));
    var c := Compute(y);
    var a := Rebuild(p, y, target, c);
    var b := Backup(a, target);
    RelocatedVerdict(a, b, p, t, source, target);
    r := RequireK11c(a, b, target);
  }

  lemma RelocatableEntries(p: seq<byte>, t: seq<byte>, source: nat)
    requires Healthy(p, t, source)
    ensures Sized(Header(p))
    ensures forall i :: 0 <= i < 128 && Used(Array(p), i) ==>
      Start(Array(p), i) + SHIFT < U64 && Finish(Array(p), i) + SHIFT < U64
  {
  }

  lemma RelocatedVerdict(a: seq<byte>, b: seq<byte>, p: seq<byte>, t: seq<byte>, source: nat, target: nat)
    requires Healthy(p, t, source) && source <= target < U32 && IsRelocated(a, p, target)
    requires Sized(Header(a)) && b == BackupOf(Header(a), Array(a), target)
    ensures Mirrored(a, b, target)
    ensures Accepted(a, b, target) <==> Fits(Array(p), target) && K11cSource(Array(p))
  {
    RelocatedHealthy(a, p, t, source, target);
    K11cShifted(Array(a), Array(p));
  }

  /** `resized` refuses nothing but an unhealthy pair and a smaller disk. */
  method Resize(p: seq<byte>, t: seq<byte>, source: nat, target: nat) returns (r: Result<(seq<byte>, seq<byte>)>)
    requires source < U32 && target < U32
    ensures r.Ok? <==> source <= target && Healthy(p, t, source)
    ensures r.Err? ==> r == Err("FACTORY_FORMAT")
    ensures r.Ok? ==>
      && IsResized(r.value.0, p, target) && Mirrored(r.value.0, r.value.1, target)
      && Healthy(r.value.0, r.value.1, target)
  {
    var report := Check(p, t, source);
    if target < source || !report.Ok() { return Err("FACTORY_FORMAT"); }
    var a := Rebuild(p, Array(p), target, U32At(Header(p), 88));
    var b := Backup(a, target);
    ResizedHealthy(a, p, t, source, target);
    var again := Check(a, b, target);
    r := if again.Ok() then Ok((a, b)) else Err("FACTORY_FORMAT");
  }

  /** The data partition stretched to the end of a disk of `sectors`. */
  method GrowData(p: seq<byte>, sectors: nat) returns (a: seq<byte>)
    requires |p| == HEAD && Sized(Header(p)) && 34 <= sectors < U32
    ensures IsDataResized(a, p, sectors)
  {
    Put64Reads(Array(p), 7 * 128 + 40, sectors - 34);
    var y := Put64(Array(p), 7 * 128 + 40, sectors - 34);
    var c := Compute(y);
    a := Rebuild(p, y, sectors, c);
  }

  /** `resize_data_gpt`, on a table whose pair was healthy: it succeeds exactly when the caller's size adds up
      and the data partition is the last on the disk. */
  method ResizeData(p: seq<byte>, ghost t: seq<byte>, ghost source: nat, sectors: nat, dataBytes: nat)
    returns (r: Result<(seq<byte>, seq<byte>)>)
    requires Healthy(p, t, source) && Used(Array(p), 7)
    ensures r.Err? ==> r == Err("IMAGE_GPT")
    ensures r.Ok? <==>
      && 34849 < sectors < U32
      && sectors == Start(Array(p), 7) + dataBytes / 512 + 33
      && DataLast(Array(p), sectors)
    ensures r.Ok? ==>
      && IsDataResized(r.value.0, p, sectors) && Mirrored(r.value.0, r.value.1, sectors)
      && Healthy(r.value.0, r.value.1, sectors)
  {
    if sectors >= U32 || sectors != U64At(Array(p), 7 * 128 + 32) + dataBytes / 512 + 33 { return Err("IMAGE_GPT"); }
    DataStart(p, t, source);
    var a := GrowData(p, sectors);
    var b := Backup(a, sectors);
    DataResizedVerdict(a, b, p, t, source, sectors);
    var again := Check(a, b, sectors);
    r := if again.Ok() then Ok((a, b)) else Err("IMAGE_GPT");
  }

  lemma DataResizedVerdict(a: seq<byte>, b: seq<byte>, p: seq<byte>, t: seq<byte>, source: nat, sectors: nat)
    requires Healthy(p, t, source) && Used(Array(p), 7)
    requires 34 <= sectors < U32 && IsDataResized(a, p, sectors)
    requires Sized(Header(a)) && b == BackupOf(Header(a), Array(a), sectors)
    ensures Healthy(a, b, sectors) <==> 34849 < sectors && DataLast(Array(p), sectors)
    ensures Healthy(a, b, sectors) ==> Mirrored(a, b, sectors)
  {
    if 34849 < sectors {
      DataResizedHealthy(a, p, t, source, sectors);
    }
  }

  lemma DataStart(p: seq<byte>, t: seq<byte>, source: nat)
    requires Healthy(p, t, source) && Used(Array(p), 7)
    ensures Start(Array(p), 7) >= 34 && Sized(Header(p))
  {
  }
}
