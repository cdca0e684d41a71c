/** Moving and resizing a partition table: `relocated`, `resized` and `resize_data_gpt`. */
module GptMove {
  import opened Bytes
  import opened Crc32
  import opened Gpt
  import opened GptRepair

  const SHIFT := 32768  // 34816 - 2048: room for the K11C boot region

  // The header of a disk of another size.

  /** `g` is the primary header `h` rewritten for a disk of `target` sectors, and sealed again. */
  predicate IsAdapted(g: seq<byte>, h: seq<byte>, target: nat, arrayCrc: nat)
    requires |h| == 512 && target >= 34
  {
    && Sized(g)
    && Same(g, h, 0, 16) && Same(g, h, 20, 32) && Same(g, h, 40, 48) && Same(g, h, 56, 88) && Same(g, h, 92, 512)
    && U64At(g, 32) == target - 1 && U64At(g, 48) == target - 34 && U32At(g, 88) == arrayCrc
    && Checksum(g) == U32At(g, 16)
  }

  lemma AdaptedOk(g: seq<byte>, h: seq<byte>, source: nat, target: nat, arrayCrc: nat)
    requires source > 0 && target >= 34
    requires HeaderOk(h, 1, source - 1, 2) && IsAdapted(g, h, target, arrayCrc)
    ensures HeaderOk(g, 1, target - 1, 2) && U64At(g, 40) == U64At(h, 40)
  {
    ConstantSame(g, h);
    U64Bytes(g, h, 24);
    U64Bytes(g, h, 40);
    U64Bytes(g, h, 72);
  }

  // The boot sector.

  predicate MbrResized(a: seq<byte>, p: seq<byte>, target: nat)
    requires |a| == |p| == HEAD && target > 0
  {
    Same(a, p, 0, 458) && Same(a, p, 462, 512) && U32At(a, 458) == target - 1
  }

  lemma MbrStillProtective(a: seq<byte>, p: seq<byte>, target: nat)
    requires |a| == |p| == HEAD && target > 0 && MbrResized(a, p, target)
    ensures ProtectiveMbr(a) <==> ProtectiveMbr(p)
  {
    assert a[510] == p[510] && a[511] == p[511] && a[450] == p[450];
  }

  // Entries moved along the disk.

  predicate ShiftedEntry(y: seq<byte>, x: seq<byte>, i: nat)
    requires |x| == |y| == ENTRIES && i < 128
  {
    if Used(x, i) then
      && Same(y, x, 128 * i, 128 * i + 32) && Same(y, x, 128 * i + 48, 128 * i + 128)
      && Start(y, i) == Start(x, i) + SHIFT && Finish(y, i) == Finish(x, i) + SHIFT
    else
      Same(y, x, 128 * i, 128 * i + 128)
  }

  predicate IsShifted(y: seq<byte>, x: seq<byte>)
    requires |x| == |y| == ENTRIES
  {
    forall i :: 0 <= i < 128 ==> ShiftedEntry(y, x, i)
  }

  lemma ShiftedUsed(y: seq<byte>, x: seq<byte>, i: nat)
    requires |x| == |y| == ENTRIES && i < 128 && ShiftedEntry(y, x, i)
    ensures Used(y, i) <==> Used(x, i)
    ensures Start(y, i) == Start(x, i) + (if Used(x, i) then SHIFT else 0)
  {
    assert forall k :: 128 * i <= k < 128 * i + 16 ==> y[k] == x[k];
    if !Used(x, i) {
      U64Bytes(y, x, 128 * i + 32);
    }
  }

  /** Every partition still ends inside the disk after the move. */
  predicate Fits(x: seq<byte>, target: nat)
    requires |x| == ENTRIES
  {
    forall i :: 0 <= i < 128 && Used(x, i) ==> Finish(x, i) + SHIFT + 34 <= target
  }

  lemma ShiftedLayout(y: seq<byte>, x: seq<byte>, first: nat, last: nat, target: nat)
    requires |x| == |y| == ENTRIES && IsShifted(y, x) && target >= 34
    requires InBounds(x, first, last) && Disjoint(x)
    ensures Disjoint(y)
    ensures InBounds(y, first, target - 34) <==> Fits(x, target)
  {
    forall i | 0 <= i < 128 ensures (Used(y, i) <==> Used(x, i)) && ShiftedEntry(y, x, i) {
      ShiftedUsed(y, x, i);
    }
  }

  // `relocated`.

  predicate IsRelocated(a: seq<byte>, p: seq<byte>, target: nat)
    requires |p| == HEAD && target >= 34
  {
    && |a| == HEAD
    && MbrResized(a, p, target)
    && IsShifted(Array(a), Array(p))
    && IsAdapted(Header(a), Header(p), target, Crc(Array(a)))
  }

  lemma RelocatedHealthy(a: seq<byte>, p: seq<byte>, t: seq<byte>, source: nat, target: nat)
    requires Healthy(p, t, source) && source <= target < U32 && IsRelocated(a, p, target)
    ensures Sized(Header(a))
    ensures Healthy(a, BackupOf(Header(a), Array(a), target), target) <==> Fits(Array(p), target)
  {
    var h, g, x, y := Header(p), Header(a), Array(p), Array(a);
    AdaptedOk(g, h, source, target, Crc(y));
    ShiftedLayout(y, x, U64At(h, 40), U64At(h, 48), target);
    MbrStillProtective(a, p, target);
    if Fits(x, target) {
      BackupOfValid(a, target);
    }
  }

  /** Labels are untouched by a move, so the layout is K11C's exactly when the moved starts are. */
  predicate K11cSource(x: seq<byte>)
    requires |x| == ENTRIES
  {
    && (forall i :: 0 <= i < 8 ==>
          Labelled(x, i, LABELS[i]) && Start(x, i) + (if Used(x, i) then SHIFT else 0) >= 34816)
    && (forall k :: 1024 <= k < ENTRIES ==> x[k] == 0)
    && Start(x, 0) + (if Used(x, 0) then SHIFT else 0) == 34816
  }

  lemma LabelledSame(y: seq<byte>, x: seq<byte>, i: nat, name: string)
    requires |x| == |y| == ENTRIES && i < 128 && Same(y, x, 128 * i + 56, 128 * i + 128)
    ensures Labelled(y, i, name) <==> Labelled(x, i, name)
  {
    if |name| < 36 {
      forall k | 0 <= k <= |name|
        ensures U16At(y, 128 * i + 56 + 2 * k) == U16At(x, 128 * i + 56 + 2 * k)
      {
        LeBytes(y, x, 128 * i + 56 + 2 * k, 2);
      }
    }
  }

  lemma K11cShifted(y: seq<byte>, x: seq<byte>)
    requires |x| == |y| == ENTRIES && IsShifted(y, x)
    ensures K11c(y) <==> K11cSource(x)
  {
    forall i | 0 <= i < 128
      ensures Start(y, i) == Start(x, i) + (if Used(x, i) then SHIFT else 0)
      ensures Used(y, i) <==> Used(x, i)
      ensures i < 8 ==> (Labelled(y, i, LABELS[i]) <==> Labelled(x, i, LABELS[i]))
    {
      assert ShiftedEntry(y, x, i);
      ShiftedUsed(y, x, i);
      if i < 8 {
        LabelledSame(y, x, i, LABELS[i]);
      }
    }
    TailsZero(y, x);
  }

  lemma TailsZero(y: seq<byte>, x: seq<byte>)
    requires |x| == |y| == ENTRIES && IsShifted(y, x)
    ensures (forall k :: 1024 <= k < ENTRIES ==> y[k] == 0) <==> (forall k :: 1024 <= k < ENTRIES ==> x[k] == 0)
  {
    if forall k :: 1024 <= k < ENTRIES ==> x[k] == 0 {
      forall k | 1024 <= k < ENTRIES ensures y[k] == 0 {
        var i := k / 128;
        assert ShiftedEntry(y, x, i) && !Used(x, i);
      }
    }
    if forall k :: 1024 <= k < ENTRIES ==> y[k] == 0 {
      forall k | 1024 <= k < ENTRIES ensures x[k] == 0 {
        var i := k / 128;
        assert ShiftedEntry(y, x, i);
        ShiftedUsed(y, x, i);
        assert !Used(y, i);
      }
    }
  }

  // `resized`.

  predicate IsResized(a: seq<byte>, p: seq<byte>, target: nat)
    requires |p| == HEAD && target >= 34
  {
    && |a| == HEAD
    && MbrResized(a, p, target)
    && Array(a) == Array(p)
    && IsAdapted(Header(a), Header(p), target, U32At(Header(p), 88))
  }

  /** Growing a healthy disk can never fail the check that follows it. */
  lemma ResizedHealthy(a: seq<byte>, p: seq<byte>, t: seq<byte>, source: nat, target: nat)
    requires Healthy(p, t, source) && source <= target < U32 && IsResized(a, p, target)
    ensures Sized(Header(a))
    ensures Healthy(a, BackupOf(Header(a), Array(a), target), target)
  {
    AdaptedOk(Header(a), Header(p), source, target, U32At(Header(p), 88));
    MbrStillProtective(a, p, target);
    BackupOfValid(a, target);
  }

  // `resize_data_gpt`.

  predicate DataResized(y: seq<byte>, x: seq<byte>, sectors: nat)
    requires |x| == |y| == ENTRIES && sectors >= 34
  {
    Same(y, x, 0, 936) && Same(y, x, 944, ENTRIES) && Finish(y, 7) == sectors - 34
  }

  predicate IsDataResized(a: seq<byte>, p: seq<byte>, sectors: nat)
    requires |p| == HEAD && sectors >= 34
  {
    && |a| == HEAD
    && MbrResized(a, p, sectors)
    && DataResized(Array(a), Array(p), sectors)
    && IsAdapted(Header(a), Header(p), sectors, Crc(Array(a)))
  }

  lemma DataResizedReads(y: seq<byte>, x: seq<byte>, sectors: nat, i: nat)
    requires |x| == |y| == ENTRIES && sectors >= 34 && DataResized(y, x, sectors) && i < 128
    ensures Used(y, i) <==> Used(x, i)
    ensures Start(y, i) == Start(x, i)
    ensures i != 7 ==> Finish(y, i) == Finish(x, i)
  {
    assert forall k :: 128 * i <= k < 128 * i + 16 ==> y[k] == x[k];
    U64Bytes(y, x, 128 * i + 32);
    U64Bytes(y, x, 128 * i + 40);
  }

  /** Every other partition lies below the data partition, which is not left empty. */
  predicate DataLast(x: seq<byte>, sectors: nat)
    requires |x| == ENTRIES
  {
    && Start(x, 7) + 34 <= sectors
    && forall i :: 0 <= i < 128 && i != 7 && Used(x, i) ==> Finish(x, i) < Start(x, 7)
  }

  lemma DataResizedLayout(y: seq<byte>, x: seq<byte>, first: nat, last: nat, sectors: nat)
    requires |x| == |y| == ENTRIES && sectors >= 34 && DataResized(y, x, sectors)
    requires InBounds(x, first, last) && Disjoint(x) && Used(x, 7)
    ensures InBounds(y, first, sectors - 34) && Disjoint(y) <==> DataLast(x, sectors)
  {
    forall i | 0 <= i < 128
      ensures (Used(y, i) <==> Used(x, i)) && Start(y, i) == Start(x, i)
      ensures i != 7 ==> Finish(y, i) == Finish(x, i)
    {
      DataResizedReads(y, x, sectors, i);
    }
    if InBounds(y, first, sectors - 34) && Disjoint(y) {
      forall i | 0 <= i < 128 && i != 7 && Used(x, i) ensures Finish(x, i) < Start(x, 7) {
        assert Used(y, i) && Used(y, 7);
        assert i < 7 || 7 < i;
      }
    }
  }

  /** Composition succeeds exactly when the data partition is the last one on the disk. */
  lemma DataResizedHealthy(a: seq<byte>, p: seq<byte>, t: seq<byte>, source: nat, sectors: nat)
    requires Healthy(p, t, source) && Used(Array(p), 7)
    requires 34849 < sectors < U32 && IsDataResized(a, p, sectors)
    ensures Sized(Header(a))
    ensures Healthy(a, BackupOf(Header(a), Array(a), sectors), sectors) <==> DataLast(Array(p), sectors)
  {
    var h, g, x, y := Header(p), Header(a), Array(p), Array(a);
    AdaptedOk(g, h, source, sectors, Crc(y));
    DataResizedLayout(y, x, U64At(h, 40), U64At(h, 48), sectors);
    MbrStillProtective(a, p, sectors);
    if DataLast(x, sectors) {
      assert Start(x, 7) >= U64At(h, 40);
      BackupOfValid(a, sectors);
    }
  }
}
