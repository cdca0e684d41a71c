/** Choosing and mirroring the trustworthy copy of a partition table. */
module GptRepair {
  import opened Bytes
  import opened Crc32
  import opened Gpt

  const LABELS: seq<string> := ["hassos-boot", "hassos-kernel0", "hassos-system0", "hassos-kernel1",
                                "hassos-system1", "hassos-bootstate", "hassos-overlay", "hassos-data"]

  /** The name of entry `i`, up to its terminator, is `name`. */
  predicate Labelled(x: seq<byte>, i: nat, name: string)
    requires |x| == ENTRIES && i < 128
  {
    && |name| < 36
    && (forall k :: 0 <= k < |name| ==> U16At(x, 128 * i + 56 + 2 * k) == name[k] as int)
    && U16At(x, 128 * i + 56 + 2 * |name|) == 0
  }

  /** Eight named partitions above the reserved boot region, and nothing else. */
  predicate K11c(x: seq<byte>)
    requires |x| == ENTRIES
  {
    && (forall i :: 0 <= i < 8 ==> Labelled(x, i, LABELS[i]) && Start(x, i) >= 34816)
    && (forall k :: 1024 <= k < ENTRIES ==> x[k] == 0)
    && Start(x, 0) == 34816
  }

  /** `require_k11c`. */
  predicate Accepted(p: seq<byte>, t: seq<byte>, sectors: nat) {
    Healthy(p, t, sectors) && K11c(Array(p))
  }

  ghost function Verdict(p: seq<byte>, t: seq<byte>, sectors: nat): Result<(seq<byte>, seq<byte>)> {
    if !Healthy(p, t, sectors) then Err("GPT_INVALID")
    else if !K11c(Array(p)) then Err("GPT_LAYOUT")
    else Ok((p, t))
  }

  /** Both copies are valid but describe different disks. */
  predicate Ambiguous(p: seq<byte>, t: seq<byte>, sectors: nat)
    requires Captured(p, t, sectors)
  {
    && PrimaryValid(p, sectors) && BackupValid(t, sectors)
    && (Array(p) != BackupArray(t) || !Same(Header(p), BackupHeader(t), 40, 56))
  }

  ghost function Repaired(p: seq<byte>, t: seq<byte>, sectors: nat): (r: Result<(seq<byte>, seq<byte>)>)
    ensures r.Ok? ==> |p| == |r.value.0| == HEAD && |t| == |r.value.1| == TAIL && 34849 < sectors < U32
  {
    if !Captured(p, t, sectors) then Err("GPT_INVALID")
    else if !PrimaryValid(p, sectors) && !BackupValid(t, sectors) then Err("GPT_NO_VALID_COPY")
    else if Ambiguous(p, t, sectors) then Err("GPT_AMBIGUOUS")
    else if PrimaryValid(p, sectors) then Verdict(p, BackupOf(Header(p), Array(p), sectors), sectors)
    else Verdict(PrimaryOf(p[..512], BackupHeader(t), BackupArray(t), sectors), t, sectors)
  }

  /** The entry array a successful repair settles on. */
  ghost function Settled(p: seq<byte>, t: seq<byte>, sectors: nat): (x: seq<byte>)
    requires Repaired(p, t, sectors).Ok?
  {
    Array(Repaired(p, t, sectors).value.0)
  }

  // What a repair promises.

  /** A repaired pair is healthy and mirrored, keeps the MBR, and takes its layout from a valid copy. */
  lemma RepairedSound(p: seq<byte>, t: seq<byte>, sectors: nat)
    requires Repaired(p, t, sectors).Ok?
    ensures var (q, u) := Repaired(p, t, sectors).value;
      && Captured(p, t, sectors)
      && Accepted(q, u, sectors) && Mirrored(q, u, sectors)
      && q[..512] == p[..512]
      && (PrimaryValid(p, sectors) ==> q == p)
      && (!PrimaryValid(p, sectors) ==> u == t && BackupValid(t, sectors) && Array(q) == BackupArray(t))
  {
    if !PrimaryValid(p, sectors) {
      PrimaryOfValid(p[..512], t, sectors);
      PrimaryOfMirrored(p[..512], BackupHeader(t), BackupArray(t), sectors);
      assert t == BackupArray(t) + BackupHeader(t);
    }
  }

  /** A mirrored, accepted pair is already repaired. */
  lemma RepairedFixpoint(p: seq<byte>, t: seq<byte>, sectors: nat)
    requires Accepted(p, t, sectors) && Mirrored(p, t, sectors)
    ensures Repaired(p, t, sectors) == Ok((p, t))
  {
  }

  lemma RepairedIdempotent(p: seq<byte>, t: seq<byte>, sectors: nat)
    requires Repaired(p, t, sectors).Ok?
    ensures var (q, u) := Repaired(p, t, sectors).value;
      Repaired(q, u, sectors) == Ok((q, u))
  {
    RepairedSound(p, t, sectors);
    var (q, u) := Repaired(p, t, sectors).value;
    RepairedFixpoint(q, u, sectors);
  }

  /** Whatever happened to the backup copy, as long as it no longer passes for one, is undone. */
  lemma UndoesBackupDamage(p: seq<byte>, t: seq<byte>, broken: seq<byte>, sectors: nat)
    requires Accepted(p, t, sectors) && Mirrored(p, t, sectors)
    requires |broken| == TAIL && !BackupValid(broken, sectors)
    ensures Repaired(p, broken, sectors) == Ok((p, t))
  {
  }

  lemma MirrorBackBy(p: seq<byte>, b: seq<byte>, sectors: nat)
    requires |p| == HEAD && Sized(b) && 34849 < sectors < U32
    requires Retargeted(b, 1, sectors - 1, 2) == Header(p)
    ensures PrimaryOf(p[..512], b, Array(p), sectors) == p
  {
  }

  /** A mirror leads back to the primary it was made from. */
  lemma MirrorBack(p: seq<byte>, t: seq<byte>, sectors: nat)
    requires Mirrored(p, t, sectors) && HeaderOk(Header(p), 1, sectors - 1, 2)
    ensures Sized(BackupHeader(t))
    ensures PrimaryOf(p[..512], BackupHeader(t), BackupArray(t), sectors) == p
  {
    var b := Retargeted(Header(p), sectors - 1, 1, sectors - 33);
    Joined(Array(p), b);
    assert Retargeted(b, 1, sectors - 1, 2) == Header(p) by {
      RetargetedBack(Header(p), 1, sectors - 1, 2, sectors - 1, 1, sectors - 33);
    }
    MirrorBackBy(p, b, sectors);
  }

  /** The same for the primary copy, its protective MBR apart. */
  lemma UndoesPrimaryDamage(p: seq<byte>, t: seq<byte>, broken: seq<byte>, sectors: nat)
    requires Accepted(p, t, sectors) && Mirrored(p, t, sectors)
    requires |broken| == HEAD && broken[..512] == p[..512] && !PrimaryValid(broken, sectors)
    ensures Repaired(broken, t, sectors) == Ok((p, t))
  {
    MirrorBack(p, t, sectors);
  }

  // Which damage makes a copy stop passing.

  /** No change within four consecutive bytes of an entry array goes unnoticed. */
  lemma ArrayDamageNoticed(h: seq<byte>, x: seq<byte>, y: seq<byte>, at: nat, sectors: nat,
                           c: nat, o: nat, e: nat)
    requires |x| == |y| == ENTRIES && CopyValid(h, x, c, o, e, sectors)
    requires x != y && at + 4 <= ENTRIES
    requires forall i :: 0 <= i < ENTRIES && !(at <= i < at + 4) ==> x[i] == y[i]
    ensures !CopyValid(h, y, c, o, e, sectors)
  {
    DetectsDamage(x, y, at);
  }

  /** Four damaged bytes in the entry array of either copy are found out and undone, byte for byte. */
  lemma EntryDamageUndone(p: seq<byte>, t: seq<byte>, y: seq<byte>, at: nat, sectors: nat)
    requires Accepted(p, t, sectors) && Mirrored(p, t, sectors)
    requires |y| == ENTRIES && y != Array(p) && at + 4 <= ENTRIES
    requires forall i :: 0 <= i < ENTRIES && !(at <= i < at + 4) ==> Array(p)[i] == y[i]
    ensures Repaired(p[..512] + Header(p) + y, t, sectors) == Ok((p, t))
    ensures Repaired(p, y + BackupHeader(t), sectors) == Ok((p, t))
  {
    JoinedHead(p[..512], Header(p), y);
    ArrayDamageNoticed(Header(p), Array(p), y, at, sectors, 1, sectors - 1, 2);
    UndoesPrimaryDamage(p, t, p[..512] + Header(p) + y, sectors);
    Joined(y, BackupHeader(t));
    ArrayDamageNoticed(BackupHeader(t), BackupArray(t), y, at, sectors, sectors - 1, 1, sectors - 33);
    UndoesBackupDamage(p, t, y + BackupHeader(t), sectors);
  }

  /** A changed header byte is noticed exactly when the declared header size covers it.
      The size field itself is left aside: changing it changes what is covered. */
  lemma HeaderDamageNoticed(h: seq<byte>, k: nat, v: byte, c: nat, o: nat, e: nat)
    requires HeaderOk(h, c, o, e) && k < 512 && !(12 <= k < 16) && v != h[k]
    ensures HeaderOk(h[k := v], c, o, e) <==> k >= U32At(h, 12)
  {
    var g := h[k := v];
    var n := U32At(h, 12);
    U32Bytes(h, g, 12);
    U32Bytes(h, g, 16);
    var a, b := Blanked(h)[..n], Blanked(g)[..n];
    assert Checksum(h) == Crc(a) && Checksum(g) == Crc(b);
    assert forall i :: 0 <= i < n && i != k ==> a[i] == b[i];
    if 16 <= k < 20 {
      assert a == b;
      assert g[k] != h[k];
    } else if k < n {
      assert a[k] == h[k] && b[k] == v;
      DetectsDamage(a, b, if k + 4 <= n then k else n - 4);
    } else {
      assert a == b;
      ConstantSame(g, h);
      U64Bytes(h, g, 24);
      U64Bytes(h, g, 32);
      U64Bytes(h, g, 72);
    }
  }

  // Crash and restart. A repair rewrites one copy only, so whatever of that
  // write has landed, the copy that was trusted is still there.

  /** Power lost while the backup copy was being rewritten, anything at all left in its place. */
  lemma RestartAfterTornBackup(p: seq<byte>, t: seq<byte>, torn: seq<byte>, sectors: nat)
    requires Repaired(p, t, sectors).Ok? && PrimaryValid(p, sectors)
    requires |torn| == TAIL
    ensures Repaired(p, torn, sectors) == (
      if Ambiguous(p, torn, sectors) then Err("GPT_AMBIGUOUS") else Repaired(p, t, sectors))
  {
  }

  /** Power lost while the primary copy was being rewritten: some sectors new, some old. */
  lemma RestartAfterTornPrimary(p: seq<byte>, t: seq<byte>, torn: seq<byte>, sectors: nat)
    requires Repaired(p, t, sectors).Ok? && !PrimaryValid(p, sectors)
    requires |torn| == HEAD && torn[..512] == p[..512]
    ensures Ambiguous(torn, t, sectors) ==> Repaired(torn, t, sectors) == Err("GPT_AMBIGUOUS")
    ensures !Ambiguous(torn, t, sectors) ==>
      Repaired(torn, t, sectors).Ok? &&
      Settled(torn, t, sectors) == Settled(p, t, sectors)
    ensures !PrimaryValid(torn, sectors) ==> Repaired(torn, t, sectors) == Repaired(p, t, sectors)
  {
    RepairedSound(p, t, sectors);
    var q := Repaired(p, t, sectors).value.0;
    if PrimaryValid(torn, sectors) && !Ambiguous(torn, t, sectors) {
      assert torn[510] == torn[..512][510] && torn[511] == torn[..512][511] && torn[450] == torn[..512][450];
      assert q[510] == q[..512][510] && q[511] == q[..512][511] && q[450] == q[..512][450];
      BackupOfValid(torn, sectors);
    }
  }

  /** Each sector of an interrupted write holds what it held before or what it was to hold after. */
  predicate Torn(before: seq<byte>, after: seq<byte>, landed: seq<byte>) {
    && |before| == |after| == |landed| && |before| % 512 == 0
    && forall s :: 0 <= s < |before| / 512 ==>
      || landed[512 * s..512 * (s + 1)] == before[512 * s..512 * (s + 1)]
      || landed[512 * s..512 * (s + 1)] == after[512 * s..512 * (s + 1)]
  }

  /** Restarting an interrupted repair never ends in another geometry: whichever sectors of its one
      write had landed, it gives the entry array of the uninterrupted run or refuses as ambiguous. */
  lemma CrashRestart(p: seq<byte>, t: seq<byte>, p': seq<byte>, t': seq<byte>, sectors: nat)
    requires Repaired(p, t, sectors).Ok?
    requires var (q, u) := Repaired(p, t, sectors).value; Torn(p, q, p') && Torn(t, u, t')
    ensures Repaired(p', t', sectors) == Err("GPT_AMBIGUOUS")
         || (Repaired(p', t', sectors).Ok? &&
             Settled(p', t', sectors) == Settled(p, t, sectors))
    ensures PrimaryValid(p, sectors) ==> p' == p
    ensures !PrimaryValid(p, sectors) ==> t' == t
  {
    RepairedSound(p, t, sectors);
    var (q, u) := Repaired(p, t, sectors).value;
    if PrimaryValid(p, sectors) {
      TornNothing(p, p');
      RestartAfterTornBackup(p, t, t', sectors);
    } else {
      TornNothing(t, t');
      assert p[0..512] == p[..512] && q[0..512] == q[..512] && p'[0..512] == p'[..512];
      assert p'[512 * 0..512 * (0 + 1)] == p'[0..512];
      RestartAfterTornPrimary(p, t, p', sectors);
    }
  }

  lemma TornNothing(before: seq<byte>, landed: seq<byte>)
    requires Torn(before, before, landed)
    ensures landed == before
  {
    forall i | 0 <= i < |before| ensures landed[i] == before[i] {
      var s := i / 512;
      assert landed[i] == landed[512 * s..512 * (s + 1)][i - 512 * s];
      assert before[i] == before[512 * s..512 * (s + 1)][i - 512 * s];
    }
  }
}
