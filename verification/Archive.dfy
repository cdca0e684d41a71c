/** Backups: which sectors each kind holds, the framed file, and the check of its payload. */
module Archive {
  import opened Common
  import opened Bytes
  import opened Gpt
  import opened GptRepair
  import opened Disk

  const MAX_META := 262144
  const MAGIC_XZ: seq<byte> := [75, 49, 49, 67, 66, 75, 48, 51]    // "K11CBK03"
  const MAGIC_ZSTD: seq<byte> := [75, 49, 49, 67, 66, 75, 48, 52]  // "K11CBK04"

  datatype Kind = Full | Boot | Haos
  datatype Extent = Extent(lba: nat, bytes: nat, sha: seq<byte>)
  datatype Meta = Meta(format: nat, kind: Kind, sectors: nat, ranges: seq<Extent>,
                       primary: seq<byte>, tail: seq<byte>, os: string)

  type Hash = seq<byte> -> seq<byte>

  /** The ideal the range digests stand for: equal digests mean equal bytes. */
  ghost predicate CollisionFree(sha: Hash) {
    forall a, b :: sha(a) == sha(b) ==> a == b
  }

  // Which sectors a backup holds.

  /** First sector and length of entry `i`, in the widths of the source. */
  function EntryExtent(x: seq<byte>, i: nat): (nat, nat)
    requires |x| == ENTRIES && i < 128
  {
    (Start(x, i) % U32, (Finish(x, i) + 1 - Start(x, i)) % U64 * 512 % U64)
  }

  function EightExtents(p: seq<byte>): (s: seq<(nat, nat)>)
    ensures |p| == HEAD ==> |s| == 8
  {
    if |p| != HEAD then []
    else seq(8, i requires 0 <= i < 8 => EntryExtent(Array(p), i))
  }

  function Places(kind: Kind, p: seq<byte>, sectors: nat): seq<(nat, nat)>
    requires sectors > 34849
  {
    match kind
    case Full => [(0, 512 * sectors)]
    case Boot => [(0, 34816 * 512), (sectors - 33, TAIL)]
    case Haos => EightExtents(p)
  }

  /** `ranges`. */
  function Wanted(kind: Kind, p: seq<byte>, t: seq<byte>, sectors: nat): Result<seq<(nat, nat)>> {
    if sectors <= 34849 then Err("INVALID_CAPACITY")
    else if kind == Full || Accepted(p, t, sectors) then Ok(Places(kind, p, sectors))
    else if Healthy(p, t, sectors) then Err("GPT_LAYOUT")
    else Err("GPT_INVALID")
  }

  function Classify(p: seq<byte>, t: seq<byte>, sectors: nat): string {
    if Accepted(p, t, sectors) then "HAOS" else if Healthy(p, t, sectors) then "other" else "unknown"
  }

  predicate Matches(ranges: seq<Extent>, wanted: seq<(nat, nat)>) {
    |ranges| == |wanted| && forall k :: 0 <= k < |ranges| ==> (ranges[k].lba, ranges[k].bytes) == wanted[k]
  }

  /** A read denied by the loader returns nothing but this sentinel. */
  predicate Denied(b: seq<byte>) {
    b != [] && forall i :: 0 <= i < |b| ==> b[i] == 0xcc
  }

  /** What `validate` accepts. */
  predicate Meaningful(m: Meta) {
    && (m.format == 3 || m.format == 4)
    && |m.primary| == HEAD && |m.tail| == TAIL && m.sectors < U32
    && Wanted(m.kind, m.primary, m.tail, m.sectors).Ok?
    && m.os == Classify(m.primary, m.tail, m.sectors)
    && Matches(m.ranges, Wanted(m.kind, m.primary, m.tail, m.sectors).value)
    && !Denied(m.primary[512..]) && !Denied(m.tail)
  }

  // The payload: one slice per range, in order.

  function Before(ranges: seq<Extent>, k: nat): (n: nat)
    requires k <= |ranges|
  {
    if k == 0 then 0 else Before(ranges, k - 1) + ranges[k - 1].bytes
  }

  lemma {:induction false} BeforeGrows(ranges: seq<Extent>, j: nat, k: nat)
    requires j <= k <= |ranges|
    ensures Before(ranges, j) <= Before(ranges, k)
    decreases k
  {
    if j < k {
      BeforeGrows(ranges, j, k - 1);
    }
  }

  predicate Complete(m: Meta, payload: seq<byte>) {
    |payload| == Before(m.ranges, |m.ranges|)
  }

  function Slice(m: Meta, payload: seq<byte>, k: nat): (s: seq<byte>)
    requires k < |m.ranges|
    ensures Before(m.ranges, k + 1) <= |payload| ==> |s| == m.ranges[k].bytes
  {
    var lo := Before(m.ranges, k);
    var hi := lo + m.ranges[k].bytes;
    if hi <= |payload| then payload[lo..hi] else []
  }

  /** What restoring the archive writes. */
  function Segments(m: Meta, payload: seq<byte>): (ss: seq<Segment>)
    ensures |ss| == |m.ranges|
  {
    seq(|m.ranges|, k requires 0 <= k < |m.ranges| => Segment(m.ranges[k].lba, Slice(m, payload, k)))
  }

  // The window loop that ties the saved partition tables to the payload.

  /** A window of the disk, from byte `target` on, after `src` was written at byte `offset`. */
  function Overlaid(src: seq<byte>, offset: nat, dst: seq<byte>, target: nat): (w: seq<byte>)
    ensures |w| == |dst|
  {
    seq(|dst|, j requires 0 <= j < |dst| =>
      if offset <= target + j < offset + |src| then src[target + j - offset] else dst[j])
  }

  method Overlay(src: seq<byte>, offset: nat, dst: array<byte>, target: nat)
    modifies dst
    ensures dst[..] == Overlaid(src, offset, old(dst[..]), target)
  {
    var start := if offset > target then offset else target;
    var end := if offset + |src| < target + dst.Length then offset + |src| else target + dst.Length;
    if start < end {
      forall j | start - target <= j < end - target {
        dst[j] := src[target + j - offset];
      }
    }
  }

  /** It is the window of the written disk. */
  lemma OverlaidIsWindow(d: seq<byte>, src: seq<byte>, offset: nat, target: nat, n: nat)
    requires offset + |src| <= |d| && target + n <= |d|
    ensures Overlaid(src, offset, d[target..target + n], target) == Splice(d, offset, src)[target..target + n]
  {
    var w, s := Overlaid(src, offset, d[target..target + n], target), Splice(d, offset, src);
    forall j | 0 <= j < n ensures w[j] == s[target..target + n][j] {
      assert s[target + j] == if offset <= target + j < offset + |src| then src[target + j - offset] else d[target + j];
    }
  }

  lemma OverlaidGrows(a: seq<byte>, b: seq<byte>, offset: nat, dst: seq<byte>, target: nat)
    ensures Overlaid(b, offset + |a|, Overlaid(a, offset, dst, target), target) == Overlaid(a + b, offset, dst, target)
  {
  }

  /** The window after the first `k` ranges, starting from zeros. */
  function Window(m: Meta, payload: seq<byte>, k: nat, target: nat, n: nat): (w: seq<byte>)
    requires k <= |m.ranges|
    ensures |w| == n
  {
    if k == 0 then Zeros(n)
    else Overlaid(Slice(m, payload, k - 1), 512 * m.ranges[k - 1].lba, Window(m, payload, k - 1, target, n), target)
  }

  predicate TablesMatch(m: Meta, payload: seq<byte>)
    requires m.sectors >= 33
  {
    && Window(m, payload, |m.ranges|, 0, HEAD) == m.primary
    && Window(m, payload, |m.ranges|, 512 * (m.sectors - 33), TAIL) == m.tail
  }

  predicate Hashed(m: Meta, payload: seq<byte>, sha: Hash, k: nat)
    requires k <= |m.ranges|
  {
    forall j :: 0 <= j < k ==> RangeHashed(m, payload, sha, j)
  }

  /** The stream reaches to the end of range `k`, which has the promised digest. */
  predicate RangeHashed(m: Meta, payload: seq<byte>, sha: Hash, k: nat)
    requires k < |m.ranges|
  {
    Before(m.ranges, k + 1) <= |payload| && sha(Slice(m, payload, k)) == m.ranges[k].sha
  }

  /** What `verify` accepts. */
  predicate Faithful(m: Meta, payload: seq<byte>, sha: Hash)
    requires m.sectors >= 33
  {
    && Complete(m, payload)
    && Hashed(m, payload, sha, |m.ranges|)
    && (m.kind != Haos ==> TablesMatch(m, payload))
  }

  /** One range read off the stream in chunks, both windows kept up to date. */
  method ReadRange(payload: seq<byte>, pos: nat, bytes: nat, at: nat, sectors: nat, primary: array<byte>,
                   tail: array<byte>)
    returns (ok: bool, hashed: seq<byte>)
    requires sectors >= 33 && primary != tail
    modifies primary, tail
    ensures ok <==> pos + bytes <= |payload|
    ensures ok ==>
      && hashed == payload[pos..pos + bytes]
      && primary[..] == Overlaid(hashed, at, old(primary[..]), 0)
      && tail[..] == Overlaid(hashed, at, old(tail[..]), 512 * (sectors - 33))
  {
    hashed := [];
    if pos > |payload| { return false, hashed; }
    ghost var p0, t0 := primary[..], tail[..];
    var offset := 0;
    while offset < bytes
      invariant 0 <= offset <= bytes && pos + offset <= |payload|
      invariant hashed == payload[pos..pos + offset]
      invariant primary[..] == Overlaid(hashed, at, p0, 0)
      invariant tail[..] == Overlaid(hashed, at, t0, 512 * (sectors - 33))
    {
      var n := if bytes - offset < CHUNK then bytes - offset else CHUNK;
      if pos + offset + n > |payload| { return false, hashed; }
      var buffer := payload[pos + offset..pos + offset + n];
      OverlaidGrows(hashed, buffer, at, p0, 0);
      OverlaidGrows(hashed, buffer, at, t0, 512 * (sectors - 33));
      Overlay(buffer, at + offset, primary, 0);
      Overlay(buffer, at + offset, tail, 512 * (sectors - 33));
      hashed := hashed + buffer;
      offset := offset + n;
    }
    ok := true;
  }

  method VerifyRange(m: Meta, payload: seq<byte>, sha: Hash, k: nat, primary: array<byte>, tail: array<byte>)
    returns (ok: bool)
    requires k < |m.ranges| && m.sectors >= 33 && primary != tail
    requires primary.Length == HEAD && primary[..] == Window(m, payload, k, 0, HEAD)
    requires tail.Length == TAIL && tail[..] == Window(m, payload, k, 512 * (m.sectors - 33), TAIL)
    modifies primary, tail
    ensures ok <==> RangeHashed(m, payload, sha, k)
    ensures ok ==>
      && primary[..] == Window(m, payload, k + 1, 0, HEAD)
      && tail[..] == Window(m, payload, k + 1, 512 * (m.sectors - 33), TAIL)
  {
    var r := m.ranges[k];
    var hashed;
    ok, hashed := ReadRange(payload, Before(m.ranges, k), r.bytes, 512 * r.lba, m.sectors, primary, tail);
    ok := ok && sha(hashed) == r.sha;
  }

  method VerifyRanges(m: Meta, payload: seq<byte>, sha: Hash, primary: array<byte>, tail: array<byte>)
    returns (ok: bool)
    requires m.sectors >= 33
    requires primary != tail && primary.Length == HEAD && tail.Length == TAIL
    requires primary[..] == Zeros(HEAD) && tail[..] == Zeros(TAIL)
    modifies primary, tail
    ensures ok <==> Hashed(m, payload, sha, |m.ranges|)
    ensures ok ==>
      && primary[..] == Window(m, payload, |m.ranges|, 0, HEAD)
      && tail[..] == Window(m, payload, |m.ranges|, 512 * (m.sectors - 33), TAIL)
  {
    var k := 0;
    while k < |m.ranges|
      invariant 0 <= k <= |m.ranges| && (k > 0 ==> RangeHashed(m, payload, sha, k - 1))
      invariant primary[..] == Window(m, payload, k, 0, HEAD)
      invariant tail[..] == Window(m, payload, k, 512 * (m.sectors - 33), TAIL)
      invariant Hashed(m, payload, sha, k)
    {
      var good := VerifyRange(m, payload, sha, k, primary, tail);
      if !good { return false; }
      k := k + 1;
    }
    return true;
  }

  method Verify(m: Meta, payload: seq<byte>, sha: Hash) returns (ok: bool)
    requires m.sectors >= 33 && |m.primary| == HEAD && |m.tail| == TAIL
    ensures ok <==> Faithful(m, payload, sha)
  {
    var primary := new byte[HEAD](_ => 0);
    var tail := new byte[TAIL](_ => 0);
    assert primary[..] == Zeros(HEAD) && tail[..] == Zeros(TAIL);
    ok := VerifyRanges(m, payload, sha, primary, tail);
    if !ok || Before(m.ranges, |m.ranges|) != |payload| { return false; }
    ok := m.kind == Haos || (primary[..] == m.primary && tail[..] == m.tail);
  }
}
