/** `build`: every storage operation as write segments, and what the disk is once they are written. */
module Plan {
  import opened Common
  import opened Bytes
  import opened Gpt
  import opened GptRepair
  import opened GptMove
  import opened GptCheck
  import opened GptEdit
  import opened Disk
  import opened Archive
  import opened ArchiveFile

  const RESERVE := 17825792  // 34816 sectors: everything before the first partition
  const LIMIT := 34359738368

  /** The boot area and both tables as captured from the device. */
  datatype Snapshot = Snapshot(primary: seq<byte>, reserved: seq<byte>, tail: seq<byte>)

  predicate Shot(c: Snapshot) {
    |c.primary| == HEAD && |c.reserved| == RESERVE - HEAD && |c.tail| == TAIL
  }

  predicate TakenFrom(c: Snapshot, d: seq<byte>, sectors: nat) {
    && Shot(c) && sectors > 34849 && |d| == 512 * sectors
    && d[..HEAD] == c.primary && d[HEAD..RESERVE] == c.reserved && d[512 * (sectors - 33)..] == c.tail
  }

  datatype Work = Work(segments: seq<Segment>, primary: seq<byte>, tail: seq<byte>)

  /** Written onto the disk `d`, the work leaves exactly its own pair of tables. */
  predicate Settles(w: Work, d: seq<byte>, sectors: nat) {
    && sectors > 34849 && |d| == 512 * sectors && Inside(w.segments, |d|)
    && Laid(d, w.segments)[..HEAD] == w.primary
    && Laid(d, w.segments)[512 * (sectors - 33)..] == w.tail
  }

  /** A work settles when its tables survive whatever it writes after them. */
  lemma SettledBy(w: Work, d: seq<byte>, sectors: nat, i: nat, j: nat)
    requires sectors > 34849 && |d| == 512 * sectors && Inside(w.segments, |d|)
    requires i < |w.segments| && w.segments[i] == Segment(sectors - 33, w.tail) && |w.tail| == TAIL
    requires j < |w.segments| && w.segments[j] == Segment(0, w.primary) && |w.primary| == HEAD
    requires forall k :: i < k < |w.segments| ==> w.segments[k].To() <= 512 * (sectors - 33)
    requires forall k :: j < k < |w.segments| ==> HEAD <= w.segments[k].From()
    ensures Settles(w, d, sectors)
  {
    LaidEnd(d, w.segments, i);
    LaidFront(d, w.segments, j, HEAD);
  }

  /** The 33 sectors from byte `at` on, which held an image's backup table, are blank as far as they lie below the backup
      table of the disk, and what lies between the two is as on the disk `d`. */
  predicate Cleared(e: seq<byte>, d: seq<byte>, at: nat) {
    && |e| == |d| && at + TAIL <= |d|
    && (forall i :: at <= i < at + 33 * 512 && i < |d| - TAIL ==> e[i] == 0)
    && forall i :: at + 33 * 512 <= i < |d| - TAIL ==> e[i] == d[i]
  }

  lemma ClearedBy(d: seq<byte>, ss: seq<Segment>, k: nat, at: nat, n: nat)
    requires Inside(ss, |d|) && at + TAIL <= |d| && n == Least(|d| - TAIL - at, TAIL)
    requires n > 0 ==> k < |ss| && ss[k].From() == at && ss[k].content == Zeros(n)
    requires forall j :: 0 <= j < |ss| ==> ss[j].To() <= at || at + n <= ss[j].From() || (n > 0 && j == k)
    requires forall j :: 0 <= j < |ss| ==> ss[j].To() <= at + n || |d| - TAIL <= ss[j].From()
    ensures Cleared(Laid(d, ss), d, at)
  {
    var e := Laid(d, ss);
    if n > 0 {
      LaidWhole(d, ss, k);
      forall i | at <= i < at + n ensures e[i] == 0 {
        assert e[i] == e[at..at + n][i - at];
      }
    }
    LaidBeside(d, ss, at + n, |d| - TAIL);
    forall i | at + n <= i < |d| - TAIL ensures e[i] == d[i] {
      assert e[i] == e[at + n..|d| - TAIL][i - (at + n)] && d[i] == d[at + n..|d| - TAIL][i - (at + n)];
    }
  }

  // Manufacturer images.

  /** An image with its own partition table, moved to a disk of at least its size. */
  function FactoryGpt(image: seq<byte>, primary: seq<byte>, tail: seq<byte>, sectors: nat): seq<Segment>
    requires |image| >= 67 * 512 && sectors >= |image| / 512
  {
    var size := |image| / 512;
    var system := Segment(34, image[HEAD..|image| - TAIL]);
    var cleared := Segment(size - 33, Zeros(512 * Least(sectors - size, 33)));
    var backup, first := Segment(sectors - 33, tail), Segment(0, primary);
    if size < sectors then [system, cleared, backup, first] else [system, backup, first]
  }

  lemma FactoryGptSettles(d: seq<byte>, image: seq<byte>, primary: seq<byte>, tail: seq<byte>, sectors: nat)
    requires |image| % 512 == 0 && 34849 * 512 < |image| <= 512 * sectors
    requires |d| == 512 * sectors && |primary| == HEAD && |tail| == TAIL
    ensures Settles(Work(FactoryGpt(image, primary, tail, sectors), primary, tail), d, sectors)
  {
    var ss := FactoryGpt(image, primary, tail, sectors);
    SettledBy(Work(ss, primary, tail), d, sectors, |ss| - 2, |ss| - 1);
  }

  /** The whole usable area is the image's. */
  lemma FactoryGptHolds(d: seq<byte>, image: seq<byte>, primary: seq<byte>, tail: seq<byte>, sectors: nat)
    requires |image| % 512 == 0 && 34849 * 512 < |image| <= 512 * sectors
    requires |d| == 512 * sectors && |primary| == HEAD && |tail| == TAIL
    ensures Inside(FactoryGpt(image, primary, tail, sectors), |d|)
    ensures Laid(d, FactoryGpt(image, primary, tail, sectors))[HEAD..|image| - TAIL] == image[HEAD..|image| - TAIL]
  {
    LaidWhole(d, FactoryGpt(image, primary, tail, sectors), 0);
  }

  /** The place of the image's backup table is blank, and what lies behind it is as before. */
  lemma FactoryGptCleared(d: seq<byte>, image: seq<byte>, primary: seq<byte>, tail: seq<byte>, sectors: nat)
    requires |image| % 512 == 0 && 34849 * 512 < |image| <= 512 * sectors
    requires |d| == 512 * sectors && |primary| == HEAD && |tail| == TAIL
    ensures Inside(FactoryGpt(image, primary, tail, sectors), |d|)
    ensures Cleared(Laid(d, FactoryGpt(image, primary, tail, sectors)), d, |image| - TAIL)
  {
    ClearedBy(d, FactoryGpt(image, primary, tail, sectors), 1, |image| - TAIL, Least(|d| - |image|, TAIL));
  }

  /** An image with a classic boot record has no backup table: its own end, or zeros, takes that place. */
  function FactoryTail(image: seq<byte>, sectors: nat): (t: seq<byte>)
    requires |image| <= 512 * sectors && sectors >= 33
    ensures |t| == TAIL
  {
    var start := 512 * (sectors - 33);
    if |image| > start then image[start..] + Zeros(512 * sectors - |image|) else Zeros(TAIL)
  }

  function FactoryMbr(image: seq<byte>, sectors: nat): seq<Segment>
    requires sectors >= 33
  {
    var size := |image| / 512;
    var start := if size > sectors - 33 then size else sectors - 33;
    if size < sectors then [Segment(0, image), Segment(start, Zeros(512 * (sectors - start)))] else [Segment(0, image)]
  }

  lemma FactoryMbrHolds(d: seq<byte>, image: seq<byte>, sectors: nat)
    requires |image| % 512 == 0 && 34849 * 512 < |image| <= 512 * sectors && |d| == 512 * sectors
    ensures Inside(FactoryMbr(image, sectors), |d|)
    ensures Laid(d, FactoryMbr(image, sectors))[..|image|] == image
  {
    LaidFront(d, FactoryMbr(image, sectors), 0, |image|);
  }

  lemma FactoryMbrCleared(d: seq<byte>, image: seq<byte>, sectors: nat)
    requires |image| % 512 == 0 && 34849 * 512 < |image| < 512 * sectors && |d| == 512 * sectors
    ensures var start := if |image| > 512 * (sectors - 33) then |image| else 512 * (sectors - 33);
      && Inside(FactoryMbr(image, sectors), |d|)
      && Laid(d, FactoryMbr(image, sectors))[start..] == Zeros(512 * sectors - start)
  {
    LaidEnd(d, FactoryMbr(image, sectors), 1);
  }

  /** Even an image that ends inside the last 33 sectors leaves exactly the tail that was announced. */
  lemma FactoryMbrSettles(d: seq<byte>, image: seq<byte>, sectors: nat)
    requires |image| % 512 == 0 && 34849 * 512 < |image| <= 512 * sectors && |d| == 512 * sectors
    ensures Settles(Work(FactoryMbr(image, sectors), image[..HEAD], FactoryTail(image, sectors)), d, sectors)
  {
    FactoryMbrHolds(d, image, sectors);
    if |image| < 512 * sectors {
      FactoryMbrCleared(d, image, sectors);
    }
    EndOf(Laid(d, FactoryMbr(image, sectors)), image, sectors);
  }

  lemma EndOf(r: seq<byte>, image: seq<byte>, sectors: nat)
    requires sectors > 34849 && HEAD <= |image| <= |r| == 512 * sectors && r[..|image|] == image
    requires var start := if |image| > 512 * (sectors - 33) then |image| else 512 * (sectors - 33);
      r[start..] == Zeros(512 * sectors - start)
    ensures r[..HEAD] == image[..HEAD] && r[512 * (sectors - 33)..] == FactoryTail(image, sectors)
  {
    var at := 512 * (sectors - 33);
    assert r[..HEAD] == r[..|image|][..HEAD];
    if |image| > at {
      assert r[at..] == r[..|image|][at..] + r[|image|..];
    }
  }

  // Installing HAOS.

  function ReservedArea(firmware: seq<byte>): (r: seq<byte>)
    requires 30 * 512 + |firmware| <= RESERVE - HEAD
    ensures |r| == RESERVE - HEAD
  {
    Splice(Zeros(RESERVE - HEAD), 30 * 512, firmware)
  }

  function Installed(image: seq<byte>, firmware: seq<byte>, primary: seq<byte>, tail: seq<byte>,
                     sectors: nat): seq<Segment>
    requires |image| >= 34849 * 512 && sectors >= 33 && 30 * 512 + |firmware| <= RESERVE - HEAD
  {
    var oldTail := |image| / 512 + SHIFT - 33;
    var partitions := Segment(34816, image[2048 * 512..|image| - TAIL]);
    var cleared :=
      if oldTail < sectors - 33 then [Segment(oldTail, Zeros(512 * Least(sectors - 33 - oldTail, 33)))] else [];
    [partitions] + cleared + [Segment(34, ReservedArea(firmware)), Segment(sectors - 33, tail), Segment(0, primary)]
  }

  /** 30 blank sectors, the firmware at sector 64, and blank again. */
  lemma ReservedIs(firmware: seq<byte>)
    requires 30 * 512 + |firmware| <= RESERVE - HEAD
    ensures ReservedArea(firmware) == Zeros(30 * 512) + firmware + Zeros(RESERVE - 64 * 512 - |firmware|)
  {
  }

  predicate Installable(image: seq<byte>, firmware: seq<byte>, primary: seq<byte>, tail: seq<byte>, sectors: nat) {
    && |image| % 512 == 0 && 34849 * 512 < |image| && |image| / 512 + SHIFT <= sectors
    && 30 * 512 + |firmware| <= RESERVE - HEAD && |primary| == HEAD && |tail| == TAIL
  }

  lemma InstalledSettles(d: seq<byte>, image: seq<byte>, firmware: seq<byte>, primary: seq<byte>, tail: seq<byte>,
                         sectors: nat)
    requires Installable(image, firmware, primary, tail, sectors) && |d| == 512 * sectors
    ensures Settles(Work(Installed(image, firmware, primary, tail, sectors), primary, tail), d, sectors)
  {
    var ss := Installed(image, firmware, primary, tail, sectors);
    SettledBy(Work(ss, primary, tail), d, sectors, |ss| - 2, |ss| - 1);
  }

  /** Everything past the image's first partition lies 32768 sectors further along. */
  lemma InstalledPartitions(d: seq<byte>, image: seq<byte>, firmware: seq<byte>, primary: seq<byte>, tail: seq<byte>,
                            sectors: nat)
    requires Installable(image, firmware, primary, tail, sectors) && |d| == 512 * sectors
    ensures Inside(Installed(image, firmware, primary, tail, sectors), |d|)
    ensures Laid(d, Installed(image, firmware, primary, tail, sectors))[RESERVE..|image| - TAIL + 512 * SHIFT]
         == image[2048 * 512..|image| - TAIL]
  {
    LaidWhole(d, Installed(image, firmware, primary, tail, sectors), 0);
  }

  /** The place of the image's backup table, moved along, is blank, and what lies behind it is as before. */
  lemma InstalledCleared(d: seq<byte>, image: seq<byte>, firmware: seq<byte>, primary: seq<byte>, tail: seq<byte>,
                         sectors: nat)
    requires Installable(image, firmware, primary, tail, sectors) && |d| == 512 * sectors
    ensures Inside(Installed(image, firmware, primary, tail, sectors), |d|)
    ensures Cleared(Laid(d, Installed(image, firmware, primary, tail, sectors)), d, |image| - TAIL + 512 * SHIFT)
  {
    var at := |image| - TAIL + 512 * SHIFT;
    ClearedBy(d, Installed(image, firmware, primary, tail, sectors), 1, at, Least(|d| - TAIL - at, TAIL));
  }

  /** The firmware is at sector 64, the rest of the reserved area blank. */
  lemma InstalledFirmware(d: seq<byte>, image: seq<byte>, firmware: seq<byte>, primary: seq<byte>, tail: seq<byte>,
                          sectors: nat)
    requires Installable(image, firmware, primary, tail, sectors) && |d| == 512 * sectors
    ensures Inside(Installed(image, firmware, primary, tail, sectors), |d|)
    ensures Laid(d, Installed(image, firmware, primary, tail, sectors))[HEAD..RESERVE] == ReservedArea(firmware)
  {
    var ss := Installed(image, firmware, primary, tail, sectors);
    LaidWhole(d, ss, |ss| - 3);
  }

  // Boot-area operations.

  predicate BootFirmware(fw: seq<byte>) {
    0 < |fw| <= RESERVE - 64 * 512 && |fw| % 512 == 0
  }

  /** The boot loader's bytes and no others change. */
  lemma UbootSettles(d: seq<byte>, c: Snapshot, fw: seq<byte>, sectors: nat)
    requires TakenFrom(c, d, sectors) && BootFirmware(fw)
    ensures Settles(Work([Segment(64, fw)], c.primary, c.tail), d, sectors)
    ensures Laid(d, [Segment(64, fw)]) == d[..64 * 512] + fw + d[64 * 512 + |fw|..]
  {
    var ss := [Segment(64, fw)];
    assert ss[..0] == [] && Laid(d, []) == d;
    LaidBeside(d, ss, 0, HEAD);
    LaidBeside(d, ss, 512 * (sectors - 33), |d|);
  }

  function Restored(saved: Snapshot, sectors: nat): seq<Segment>
    requires Shot(saved) && sectors >= 33
  {
    [Segment(34, saved.reserved[..30 * 512]), Segment(64, saved.reserved[30 * 512..]),
     Segment(sectors - 33, saved.tail), Segment(0, saved.primary)]
  }

  lemma RestoredSettles(d: seq<byte>, saved: Snapshot, sectors: nat)
    requires Shot(saved) && sectors > 34849 && |d| == 512 * sectors
    ensures Settles(Work(Restored(saved, sectors), saved.primary, saved.tail), d, sectors)
  {
    SettledBy(Work(Restored(saved, sectors), saved.primary, saved.tail), d, sectors, 2, 3);
  }

  /** The saved boot area is back. */
  lemma RestoredHolds(d: seq<byte>, saved: Snapshot, sectors: nat)
    requires Shot(saved) && sectors > 34849 && |d| == 512 * sectors
    ensures Inside(Restored(saved, sectors), |d|)
    ensures Laid(d, Restored(saved, sectors))[HEAD..RESERVE] == saved.reserved
  {
    RestoredGap(d, saved, sectors);
    RestoredUboot(d, saved, sectors);
    TwoRuns(Laid(d, Restored(saved, sectors)), saved.reserved);
  }

  lemma RestoredGap(d: seq<byte>, saved: Snapshot, sectors: nat)
    requires Shot(saved) && sectors > 34849 && |d| == 512 * sectors
    ensures Inside(Restored(saved, sectors), |d|)
    ensures Laid(d, Restored(saved, sectors))[HEAD..64 * 512] == saved.reserved[..30 * 512]
  {
    LaidWhole(d, Restored(saved, sectors), 0);
  }

  lemma RestoredUboot(d: seq<byte>, saved: Snapshot, sectors: nat)
    requires Shot(saved) && sectors > 34849 && |d| == 512 * sectors
    ensures Inside(Restored(saved, sectors), |d|)
    ensures Laid(d, Restored(saved, sectors))[64 * 512..RESERVE] == saved.reserved[30 * 512..]
  {
    LaidWhole(d, Restored(saved, sectors), 1);
  }

  /** And the partitions are as they were. */
  lemma RestoredKeeps(d: seq<byte>, saved: Snapshot, sectors: nat)
    requires Shot(saved) && sectors > 34849 && |d| == 512 * sectors
    ensures Inside(Restored(saved, sectors), |d|)
    ensures Laid(d, Restored(saved, sectors))[RESERVE..512 * (sectors - 33)] == d[RESERVE..512 * (sectors - 33)]
  {
    LaidBeside(d, Restored(saved, sectors), RESERVE, 512 * (sectors - 33));
  }

  lemma TwoRuns(r: seq<byte>, reserved: seq<byte>)
    requires |reserved| == RESERVE - HEAD && |r| >= RESERVE
    requires r[HEAD..64 * 512] == reserved[..30 * 512] && r[64 * 512..RESERVE] == reserved[30 * 512..]
    ensures r[HEAD..RESERVE] == reserved
  {
    assert r[HEAD..RESERVE] == r[HEAD..64 * 512] + r[64 * 512..RESERVE];
  }

  function Rewritten(c: Snapshot, p: seq<byte>, t: seq<byte>, sectors: nat): seq<Segment>
    requires sectors >= 33
  {
    (if t != c.tail then [Segment(sectors - 33, t)] else []) + (if p != c.primary then [Segment(0, p)] else [])
  }

  /** A repair writes only the copy that changed, and the disk ends with the repaired pair all the same. */
  lemma RewrittenSettles(d: seq<byte>, c: Snapshot, p: seq<byte>, t: seq<byte>, sectors: nat)
    requires TakenFrom(c, d, sectors) && |p| == HEAD && |t| == TAIL
    ensures Settles(Work(Rewritten(c, p, t, sectors), p, t), d, sectors)
  {
    RewrittenTail(d, c, p, t, sectors);
    RewrittenHead(d, c, p, t, sectors);
  }

  lemma RewrittenTail(d: seq<byte>, c: Snapshot, p: seq<byte>, t: seq<byte>, sectors: nat)
    requires TakenFrom(c, d, sectors) && |p| == HEAD && |t| == TAIL
    ensures Inside(Rewritten(c, p, t, sectors), |d|)
    ensures Laid(d, Rewritten(c, p, t, sectors))[512 * (sectors - 33)..] == t
  {
    if t != c.tail {
      LaidEnd(d, Rewritten(c, p, t, sectors), 0);
    } else {
      LaidEndBeside(d, Rewritten(c, p, t, sectors), 512 * (sectors - 33));
    }
  }

  lemma LastIsFront(d: seq<byte>, ss: seq<Segment>, p: seq<byte>)
    requires Inside(ss, |d|) && ss != [] && ss[|ss| - 1] == Segment(0, p) && |p| == HEAD
    ensures HEAD <= |d| && Laid(d, ss)[..HEAD] == p
  {
    LaidFront(d, ss, |ss| - 1, HEAD);
    assert p[..HEAD] == p;
  }

  lemma RewrittenHead(d: seq<byte>, c: Snapshot, p: seq<byte>, t: seq<byte>, sectors: nat)
    requires TakenFrom(c, d, sectors) && |p| == HEAD && |t| == TAIL
    ensures Inside(Rewritten(c, p, t, sectors), |d|)
    ensures Laid(d, Rewritten(c, p, t, sectors))[..HEAD] == p
  {
    var ss := Rewritten(c, p, t, sectors);
    if p != c.primary {
      LastIsFront(d, ss, p);
    } else {
      LaidFrontBeside(d, ss, HEAD);
    }
  }

  lemma RewrittenHolds(d: seq<byte>, c: Snapshot, p: seq<byte>, t: seq<byte>, sectors: nat)
    requires sectors > 34849 && |d| == 512 * sectors && |p| == HEAD && |t| == TAIL
    ensures Inside(Rewritten(c, p, t, sectors), |d|)
    ensures Laid(d, Rewritten(c, p, t, sectors))[HEAD..512 * (sectors - 33)] == d[HEAD..512 * (sectors - 33)]
  {
    LaidBeside(d, Rewritten(c, p, t, sectors), HEAD, 512 * (sectors - 33));
  }

  // Their segments are whole sectors of the device, kept apart.

  predicate OnDevice(s: Segment, sectors: nat) {
    0 < |s.content| && |s.content| % 512 == 0 && s.To() <= 512 * sectors
  }

  /** The front of the disk named last, and the second segment perhaps missing. */
  lemma InStepPlannable(a: Segment, b: Segment, c: Segment, e: Segment, sectors: nat)
    requires OnDevice(a, sectors) && OnDevice(c, sectors) && OnDevice(e, sectors)
    requires e.To() <= a.From() && a.To() <= c.From()
    ensures Plannable([a, c, e], sectors)
    ensures OnDevice(b, sectors) && a.To() <= b.From() && b.To() <= c.From() ==> Plannable([a, b, c, e], sectors)
  {
  }

  lemma FactoryGptPlannable(image: seq<byte>, primary: seq<byte>, tail: seq<byte>, sectors: nat)
    requires |image| % 512 == 0 && 34849 * 512 < |image| <= 512 * sectors
    requires |primary| == HEAD && |tail| == TAIL
    ensures Plannable(FactoryGpt(image, primary, tail, sectors), sectors)
  {
    var size := |image| / 512;
    InStepPlannable(Segment(34, image[HEAD..|image| - TAIL]), Segment(size - 33, Zeros(512 * Least(sectors - size, 33))),
                    Segment(sectors - 33, tail), Segment(0, primary), sectors);
  }

  lemma FactoryMbrPlannable(image: seq<byte>, sectors: nat)
    requires |image| % 512 == 0 && 34849 * 512 < |image| <= 512 * sectors
    ensures sectors > 34849 && Plannable(FactoryMbr(image, sectors), sectors)
  {
  }

  /** The same with the reserved area between the tables and the partitions. */
  lemma InAreasPlannable(a: Segment, b: Segment, c: Segment, e: Segment, f: Segment, sectors: nat)
    requires OnDevice(a, sectors) && OnDevice(c, sectors) && OnDevice(e, sectors) && OnDevice(f, sectors)
    requires f.To() <= c.From() && c.To() <= a.From() && a.To() <= e.From()
    ensures Plannable([a, c, e, f], sectors)
    ensures OnDevice(b, sectors) && a.To() <= b.From() && b.To() <= e.From() ==> Plannable([a, b, c, e, f], sectors)
  {
  }

  lemma InstalledPlannable(image: seq<byte>, firmware: seq<byte>, primary: seq<byte>, tail: seq<byte>, sectors: nat)
    requires Installable(image, firmware, primary, tail, sectors)
    ensures sectors > 34849 && Plannable(Installed(image, firmware, primary, tail, sectors), sectors)
  {
    var oldTail := |image| / 512 + SHIFT - 33;
    var a, c := Segment(34816, image[2048 * 512..|image| - TAIL]), Segment(34, ReservedArea(firmware));
    var e, f := Segment(sectors - 33, tail), Segment(0, primary);
    if oldTail < sectors - 33 {
      var b := Segment(oldTail, Zeros(512 * Least(sectors - 33 - oldTail, 33)));
      InAreasPlannable(a, b, c, e, f, sectors);
      assert Installed(image, firmware, primary, tail, sectors) == [a, b, c, e, f];
    } else {
      InAreasPlannable(a, a, c, e, f, sectors);
      assert Installed(image, firmware, primary, tail, sectors) == [a, c, e, f];
    }
  }

  lemma RestoredPlannable(saved: Snapshot, sectors: nat)
    requires Shot(saved) && sectors > 34849
    ensures Plannable(Restored(saved, sectors), sectors)
  {
  }

  lemma RewrittenPlannable(c: Snapshot, p: seq<byte>, t: seq<byte>, sectors: nat)
    requires |p| == HEAD && |t| == TAIL && sectors > 34849
    ensures Plannable(Rewritten(c, p, t, sectors), sectors)
  {
  }
}
