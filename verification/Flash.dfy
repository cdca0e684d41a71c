/** The write transaction: an unreliable device, one-use plans, and `execute_with_gate`. */
module Flash {
  import opened Common
  import opened Bytes
  import opened Gpt
  import opened GptRepair
  import opened GptEdit
  import opened Disk
  import opened Archive
  import opened ArchiveFile
  import opened Plan
  import opened Operations
  import opened Plans

  /** The eMMC behind its USB loader. Reads may fail but never lie; a write may leave anything at all in the sectors it
      addresses, report any count, or fail half-way, but touches no other sector; the device that answers may be another
      one. None of this happens to a faultless device. */
  class Emmc {
    var disk: seq<byte>
    const sectors: nat
    const identity: nat
    const faultless: bool

    constructor (content: seq<byte>, sectors: nat, identity: nat, faultless: bool)
      requires |content| == 512 * sectors
      ensures Valid() && disk == content && this.sectors == sectors
      ensures this.identity == identity && this.faultless == faultless
    {
      this.disk := content;
      this.sectors := sectors;
      this.identity := identity;
      this.faultless := faultless;
    }

    predicate Valid()
      reads this
    {
      |disk| == 512 * sectors
    }

    method Identify() returns (answer: nat)
      ensures faultless ==> answer == identity
    {
      answer := *;
      if faultless { answer := identity; }
    }

    method Read(lba: nat, n: nat) returns (r: Result<seq<byte>>)
      requires Valid()
      ensures r.Ok? ==> 512 * lba + n <= |disk| && r.value == disk[512 * lba..512 * lba + n]
      ensures faultless && 512 * lba + n <= |disk| ==> r.Ok?
    {
      var fault: bool := *;
      if (fault && !faultless) || 512 * lba + n > |disk| { return Err("SHORT_READ"); }
      return Ok(disk[512 * lba..512 * lba + n]);
    }

    method Write(lba: nat, data: seq<byte>) returns (r: Result<nat>)
      requires Valid() && 512 * lba + |data| <= |disk|
      modifies this`disk
      ensures Valid()
      ensures SameBut(disk, old(disk), 512 * lba, 512 * lba + |data|)
      ensures faultless ==> r == Ok(|data|) && disk[512 * lba..512 * lba + |data|] == data
    {
      var landed: seq<byte> := *;
      var count: nat := *;
      var fault: bool := *;
      if faultless { landed, count, fault := data, |data|, false; }
      if |landed| == |data| {
        WrittenSame(disk, Segment(lba, landed));
        disk := Written(disk, Segment(lba, landed));
      }
      r := if fault then Err("USB") else Ok(count);
    }
  }

  /** Two disks that may differ only from `lo` up to `hi`. */
  predicate SameBut(a: seq<byte>, b: seq<byte>, lo: nat, hi: nat) {
    |a| == |b| && forall i :: 0 <= i < |a| && !(lo <= i < hi) ==> a[i] == b[i]
  }

  lemma SameButChain(a: seq<byte>, b: seq<byte>, c: seq<byte>, from: nat, to: nat, lo: nat, hi: nat)
    requires SameBut(a, b, from, to) && SameBut(b, c, lo, hi) && lo <= from && to <= hi
    ensures SameBut(a, c, lo, hi)
  {
  }

  lemma WrittenSame(d: seq<byte>, s: Segment)
    requires s.To() <= |d|
    ensures SameBut(Written(d, s), d, s.From(), s.To())
  {
  }

  function RangeOf(s: Segment, sha: Hash): Range {
    Range(s.lba, |s.content|, sha(s.content))
  }

  function RangesOf(ss: seq<Segment>, sha: Hash): (r: seq<Range>)
    ensures |r| == |ss|
  {
    seq(|ss|, k requires 0 <= k < |ss| => RangeOf(ss[k], sha))
  }

  // Source digests.

  /** `image_hashes`: the digest of the whole file and that of the payload inside it, from one pass in chunks. */
  method ImageHashes(file: seq<byte>, offset: nat, bytes: nat, sha: Hash) returns (r: Result<(seq<byte>, seq<byte>)>)
    ensures r.Ok? <==> offset + bytes <= |file|
    ensures r.Ok? ==> r.value == (sha(file), sha(file[offset..offset + bytes]))
  {
    var end := offset + bytes;
    if end > |file| { return Err("WRITE_RANGE"); }
    var whole, payload: seq<byte>, done := [], [], 0;
    while done < |file|
      invariant 0 <= done <= |file| && whole == file[..done]
      invariant payload == file[offset..Clamp(done, offset, end)]
    {
      var n := if |file| - done < CHUNK then |file| - done else CHUNK;
      var data := file[done..done + n];
      SlicesJoin(file, 0, done, done + n);
      whole := whole + data;
      var start := if done > offset then done else offset;
      var stop := if done + n < end then done + n else end;
      PayloadGrows(file, offset, end, done, n, start, stop);
      if start < stop {
        payload := payload + data[start - done..stop - done];
      }
      done := done + n;
    }
    assert whole == file && payload == file[offset..end];
    return Ok((sha(whole), sha(payload)));
  }

  function Clamp(n: nat, lo: nat, hi: nat): (c: nat)
    requires lo <= hi
    ensures lo <= c <= hi
  {
    if n < lo then lo else if n < hi then n else hi
  }

  /** What one chunk of `n` bytes adds to the payload. */
  lemma PayloadGrows(file: seq<byte>, offset: nat, end: nat, done: nat, n: nat, start: nat, stop: nat)
    requires offset <= end <= |file| && done + n <= |file|
    requires start == (if done > offset then done else offset) && stop == if done + n < end then done + n else end
    ensures start < stop ==> file[offset..Clamp(done, offset, end)] + file[done..done + n][start - done..stop - done] ==
                             file[offset..Clamp(done + n, offset, end)]
    ensures start >= stop ==> Clamp(done, offset, end) == Clamp(done + n, offset, end)
  {
    if start < stop {
      SliceOfSlice(file, done, done + n, start - done, stop - done);
      SlicesJoin(file, offset, start, stop);
    }
  }

  lemma SlicesJoin(b: seq<byte>, i: nat, j: nat, k: nat)
    requires i <= j <= k <= |b|
    ensures b[i..j] + b[j..k] == b[i..k] && b[0..j] == b[..j] && b[0..k] == b[..k]
  {
  }

  lemma SliceOfSlice(b: seq<byte>, i: nat, j: nat, from: nat, to: nat)
    requires i <= j <= |b| && from <= to <= j - i
    ensures b[i..j][from..to] == b[i + from..i + to]
  {
    var x, y := b[i..j][from..to], b[i + from..i + to];
    forall k | 0 <= k < to - from ensures x[k] == y[k] {
      assert x[k] == b[i..j][from + k];
    }
  }

  // One segment.

  /** The next `n` bytes of the source of `content`, behind the first `from`: anything may come out of it, or an error,
      unless the source is steady. */
  method Pull(content: seq<byte>, from: nat, n: nat, steady: bool) returns (r: Result<seq<byte>>)
    requires from + n <= |content|
    ensures r.Ok? ==> |r.value| == n
    ensures steady ==> r == Ok(content[from..from + n])
  {
    var data: seq<byte> := *;
    if steady { data := content[from..from + n]; }
    r := if |data| == n then Ok(data) else Err("TRANSACTION_IO");
  }

  /** The first `n` bytes of a segment are on the disk. */
  predicate Arrived(d: seq<byte>, s: Segment, n: nat) {
    n <= |s.content| && s.From() + n <= |d| && d[s.From()..s.From() + n] == s.content[..n]
  }

  lemma ArrivedMore(before: seq<byte>, d: seq<byte>, s: Segment, offset: nat, n: nat)
    requires Arrived(before, s, offset) && offset + n <= |s.content| && s.To() <= |d|
    requires SameBut(d, before, s.From() + offset, s.From() + offset + n)
    requires d[s.From() + offset..s.From() + offset + n] == s.content[offset..offset + n]
    ensures Arrived(d, s, offset + n)
  {
    var at := s.From();
    assert d[at..at + offset] == before[at..at + offset];
    assert d[at..at + offset + n] == d[at..at + offset] + d[at + offset..at + offset + n];
    assert s.content[..offset + n] == s.content[..offset] + s.content[offset..offset + n];
  }

  /** One block of a segment, which must be taken in full. */
  method SendBlock(dev: Emmc, s: Segment, offset: nat, n: nat, steady: bool) returns (e: Result<seq<byte>>)
    requires dev.Valid() && s.To() <= |dev.disk| && offset % 512 == 0 && offset + n <= |s.content|
    modifies dev`disk
    ensures dev.Valid() && SameBut(dev.disk, old(dev.disk), s.From() + offset, s.From() + offset + n)
    ensures dev.faultless && steady ==> e == Ok(s.content[offset..offset + n])
    ensures dev.faultless && steady && Arrived(old(dev.disk), s, offset) ==> Arrived(dev.disk, s, offset + n)
  {
    e := Pull(s.content, offset, n, steady);
    if e.Err? { return; }
    var transferred := dev.Write(s.lba + offset / 512, e.value);
    assert 512 * (s.lba + offset / 512) == s.From() + offset;
    if transferred.Err? { return Err(transferred.code); }
    if transferred.value != n { return Err("SHORT_WRITE"); }
    if dev.faultless && steady && Arrived(old(dev.disk), s, offset) {
      ArrivedMore(old(dev.disk), dev.disk, s, offset, n);
    }
  }

  method Send(dev: Emmc, s: Segment, r: Range, steady: bool, sha: Hash) returns (e: Result<()>)
    requires dev.Valid() && s.To() <= |dev.disk| && |s.content| % 512 == 0 && r == RangeOf(s, sha)
    modifies dev`disk
    ensures dev.Valid() && SameBut(dev.disk, old(dev.disk), s.From(), s.To())
    ensures dev.faultless && steady ==> e.Ok? && Arrived(dev.disk, s, |s.content|)
  {
    var sent: seq<byte> := [];
    var offset := 0;
    while offset < r.bytes
      invariant 0 <= offset <= r.bytes && offset % 512 == 0
      invariant dev.Valid() && SameBut(dev.disk, old(dev.disk), s.From(), s.To())
      invariant dev.faultless && steady ==> sent == s.content[..offset]
      invariant dev.faultless && steady ==> Arrived(dev.disk, s, offset)
    {
      var n := if r.bytes - offset < CHUNK then r.bytes - offset else CHUNK;
      ghost var before := dev.disk;
      var block := SendBlock(dev, s, offset, n, steady);
      SameButChain(dev.disk, before, old(dev.disk), s.From() + offset, s.From() + offset + n, s.From(), s.To());
      if block.Err? { return Err(block.code); }
      SlicesJoin(s.content, 0, offset, offset + n);
      sent := sent + block.value;
      offset := offset + n;
    }
    assert s.content[..|s.content|] == s.content;
    return if sha(sent) != r.sha then Err("SOURCE_CHANGED") else Ok(());
  }

  /** The range read back in full after all of its writes. */
  method ReadDigest(dev: Emmc, r: Range, sha: Hash) returns (digest: Result<seq<byte>>)
    requires dev.Valid() && 512 * r.lba + r.bytes <= |dev.disk| && r.bytes % 512 == 0
    ensures digest.Ok? ==> digest.value == sha(dev.disk[512 * r.lba..512 * r.lba + r.bytes])
    ensures dev.faultless ==> digest.Ok?
  {
    var got: seq<byte> := [];
    var offset := 0;
    while offset < r.bytes
      invariant 0 <= offset <= r.bytes && offset % 512 == 0
      invariant got == dev.disk[512 * r.lba..512 * r.lba + offset]
    {
      var n := if r.bytes - offset < CHUNK then r.bytes - offset else CHUNK;
      var block := dev.Read(r.lba + offset / 512, n);
      if block.Err? { return Err(block.code); }
      got := got + block.value;
      offset := offset + n;
    }
    return Ok(sha(got));
  }

  /** Write, compare the source digest, read back, compare again: success means the segment is on the disk. */
  method Transfer(dev: Emmc, s: Segment, steady: bool, sha: Hash) returns (e: Result<()>)
    requires dev.Valid() && s.To() <= |dev.disk| && |s.content| % 512 == 0 && CollisionFree(sha)
    modifies dev`disk
    ensures dev.Valid() && SameBut(dev.disk, old(dev.disk), s.From(), s.To())
    ensures e.Ok? ==> dev.disk == Written(old(dev.disk), s)
    ensures dev.faultless && steady ==> e.Ok?
  {
    var r := RangeOf(s, sha);
    e := Send(dev, s, r, steady, sha);
    if e.Err? { return; }
    assert s.content[..|s.content|] == s.content;
    var digest := ReadDigest(dev, r, sha);
    if digest.Err? { return Err(digest.code); }
    if digest.value != r.sha { return Err("WRITE_VERIFY"); }
    assert dev.disk[s.From()..s.To()] == s.content;
    assert forall i :: s.From() <= i < s.To() ==> dev.disk[i] == dev.disk[s.From()..s.To()][i - s.From()];
  }

  /** All segments in order. However it ends, the disk differs from the old one only where a segment lies. */
  method TransferAll(dev: Emmc, ss: seq<Segment>, steady: bool, sha: Hash) returns (e: Result<()>)
    requires dev.Valid() && Plannable(ss, dev.sectors) && CollisionFree(sha)
    modifies dev`disk
    ensures dev.Valid()
    ensures forall i :: 0 <= i < |dev.disk| && !Touches(ss, i) ==> dev.disk[i] == old(dev.disk)[i]
    ensures e.Ok? ==> dev.disk == Laid(old(dev.disk), ss)
    ensures dev.faultless && steady ==> e.Ok?
  {
    ghost var d := dev.disk;
    var k := 0;
    assert ss[..0] == [];
    while k < |ss|
      invariant 0 <= k <= |ss|
      invariant dev.Valid() && dev.disk == Laid(d, ss[..k])
    {
      assert ss[..k + 1][..k] == ss[..k];
      e := Transfer(dev, ss[k], steady, sha);
      if e.Err? {
        forall i | 0 <= i < |dev.disk| && !Touches(ss, i) ensures dev.disk[i] == d[i] {
          assert !Covers(ss[k], i);
          assert forall j :: 0 <= j < k ==> !Covers(ss[j], i);
          LaidOutside(d, ss[..k], i);
        }
        return;
      }
      k := k + 1;
    }
    assert ss[..k] == ss;
    forall i | 0 <= i < |dev.disk| && !Touches(ss, i) ensures dev.disk[i] == d[i] {
      LaidOutside(d, ss, i);
    }
    return Ok(());
  }

  // The boot area and both tables.

  method ReadHead(dev: Emmc) returns (r: Result<seq<byte>>)
    requires dev.Valid()
    ensures r.Ok? ==> RESERVE <= |dev.disk| && r.value == dev.disk[..RESERVE]
    ensures dev.faultless && RESERVE <= |dev.disk| ==> r.Ok?
  {
    var head: seq<byte> := [];
    var i := 0;
    while i < RESERVE / CHUNK
      invariant 0 <= i <= RESERVE / CHUNK
      invariant CHUNK * i <= |dev.disk| && head == dev.disk[..CHUNK * i]
    {
      var block := dev.Read(i * CHUNK / 512, CHUNK);
      if block.Err? { return Err(block.code); }
      head := head + block.value;
      i := i + 1;
    }
    return Ok(head);
  }

  /** Neither table reads as nothing but the bytes 0xcc that a loader gives when it denies reading. */
  predicate Trusted(d: seq<byte>)
    requires |d| >= HEAD + TAIL
  {
    && (exists i :: 512 <= i < HEAD && d[i] != 0xcc)
    && exists i :: |d| - TAIL <= i < |d| && d[i] != 0xcc
  }

  lemma TrustedParts(d: seq<byte>, head: seq<byte>, tail: seq<byte>)
    requires |d| >= RESERVE + TAIL && head == d[..RESERVE] && tail == d[|d| - TAIL..]
    ensures Trusted(d) <==> !Denied(head[512..HEAD]) && !Denied(tail)
  {
    var h := head[512..HEAD];
    assert forall i :: 512 <= i < HEAD ==> d[i] == h[i - 512];
    assert forall i :: |d| - TAIL <= i < |d| ==> d[i] == tail[i - (|d| - TAIL)];
    if !Denied(h) && !Denied(tail) {
      var i :| 0 <= i < |h| && h[i] != 0xcc;
      var j :| 0 <= j < |tail| && tail[j] != 0xcc;
      assert d[512 + i] != 0xcc && d[|d| - TAIL + j] != 0xcc;
    }
    if Trusted(d) {
      var i :| 512 <= i < HEAD && d[i] != 0xcc;
      var j :| |d| - TAIL <= j < |d| && d[j] != 0xcc;
      assert h[i - 512] != 0xcc && tail[j - (|d| - TAIL)] != 0xcc;
    }
  }

  method Capture(dev: Emmc) returns (r: Result<Snapshot>)
    requires dev.Valid() && dev.sectors > 34849
    ensures r.Ok? ==> TakenFrom(r.value, dev.disk, dev.sectors) && Trusted(dev.disk)
    ensures dev.faultless && Trusted(dev.disk) ==> r.Ok?
  {
    var head := ReadHead(dev);
    if head.Err? { return Err(head.code); }
    var tail := dev.Read(dev.sectors - 33, TAIL);
    if tail.Err? { return Err(tail.code); }
    TrustedParts(dev.disk, head.value, tail.value);
    if Denied(head.value[512..HEAD]) || Denied(tail.value) { return Err("USB_READ_UNTRUSTED"); }
    assert dev.disk[512 * (dev.sectors - 33)..512 * dev.sectors] == dev.disk[512 * (dev.sectors - 33)..];
    assert head.value[..HEAD] == dev.disk[..HEAD] && head.value[HEAD..] == dev.disk[HEAD..RESERVE];
    return Ok(Snapshot(head.value[..HEAD], head.value[HEAD..], tail.value));
  }

  function Fingerprint(c: Snapshot, sha: Hash): seq<byte> {
    sha(c.primary + c.reserved + c.tail)
  }
}
