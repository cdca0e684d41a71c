/** The U-Boot installation program that prepare-emmc-install.py emits: its commands, what they do to RAM and to the
    eMMC, and the check of gpt_image.py that the result passes. */
module UBoot {
  import opened Bytes
  import opened Crc32
  import opened Gpt
  import opened GptRepair
  import opened GptMove
  import opened GptEdit
  import opened GptCheck
  import opened GptImage
  import opened Disk

  const IMAGE_RAM := 0x40000000
  const TAIL_RAM := 0x80000000
  const RAM := 0x90000000

  // Commands and their meaning.

  datatype Command =
    | MwB(address: nat, octet: byte)
    | MwL(address: nat, word: nat)
    | CpB(source: nat, target: nat, count: nat)

  predicate InRam(c: Command) {
    match c
    case MwB(a, _) => a < RAM
    case MwL(a, v) => a + 4 <= RAM && v < U32
    case CpB(s, t, n) => s + n <= RAM && t + n <= RAM
  }

  /** `patch` put into RAM at `o`. */
  function Put(ram: seq<byte>, o: nat, patch: seq<byte>): (r: seq<byte>)
    requires o + |patch| <= |ram|
    ensures |r| == |ram|
  {
    seq(|ram|, i requires 0 <= i < |ram| => if o <= i < o + |patch| then patch[i - o] else ram[i])
  }

  function Did(ram: seq<byte>, c: Command): (r: seq<byte>)
    requires |ram| == RAM && InRam(c)
    ensures |r| == RAM
  {
    match c
    case MwB(a, v) => Put(ram, a, [v])
    case MwL(a, v) => Put(ram, a, Le(v, 4))
    case CpB(s, t, n) => Put(ram, t, ram[s..s + n])
  }

  predicate Runnable(cs: seq<Command>) {
    forall i :: 0 <= i < |cs| ==> InRam(cs[i])
  }

  function Executed(ram: seq<byte>, cs: seq<Command>): (r: seq<byte>)
    requires |ram| == RAM && Runnable(cs)
    ensures |r| == RAM
  {
    if cs == [] then ram else Did(Executed(ram, cs[..|cs| - 1]), cs[|cs| - 1])
  }

  lemma {:induction false} ExecutedConcat(ram: seq<byte>, a: seq<Command>, b: seq<Command>)
    requires |ram| == RAM && Runnable(a) && Runnable(b)
    ensures Runnable(a + b) && Executed(ram, a + b) == Executed(Executed(ram, a), b)
  {
    if b == [] {
      assert a + b == a;
    } else {
      ExecutedConcat(ram, a, b[..|b| - 1]);
      assert (a + b)[..|a + b| - 1] == a + b[..|b| - 1];
    }
  }

  lemma ExecutedPush(ram: seq<byte>, cs: seq<Command>, c: Command)
    requires |ram| == RAM && Runnable(cs) && InRam(c)
    ensures Runnable(cs + [c]) && Executed(ram, cs + [c]) == Did(Executed(ram, cs), c)
  {
    assert (cs + [c])[..|cs|] == cs;
  }

  // Patching a buffer with one command per difference.

  function ByteChange(address: nat, was: seq<byte>, now: seq<byte>, o: nat): seq<Command>
    requires o < |was| == |now|
  {
    if was[o] != now[o] then [MwB(address + o, now[o])] else []
  }

  /** Writes for the differing bytes among the first `k`. */
  function ByteChanges(address: nat, was: seq<byte>, now: seq<byte>, k: nat): seq<Command>
    requires k <= |was| == |now|
  {
    if k == 0 then [] else ByteChanges(address, was, now, k - 1) + ByteChange(address, was, now, k - 1)
  }

  function WordChange(address: nat, was: seq<byte>, now: seq<byte>, o: nat): seq<Command>
    requires o + 4 <= |was| == |now|
  {
    if was[o..o + 4] != now[o..o + 4] then [MwL(address + o, U32At(now, o))] else []
  }

  /** Writes for the differing words among the first `k`. */
  function WordChanges(address: nat, was: seq<byte>, now: seq<byte>, k: nat): seq<Command>
    requires 4 * k <= |was| == |now|
  {
    if k == 0 then [] else WordChanges(address, was, now, k - 1) + WordChange(address, was, now, 4 * (k - 1))
  }

  method EmitBytes(address: nat, was: seq<byte>, now: seq<byte>) returns (cs: seq<Command>)
    requires |was| == |now|
    ensures cs == ByteChanges(address, was, now, |was|)
  {
    cs := [];
    var k := 0;
    while k < |was|
      invariant 0 <= k <= |was| && cs == ByteChanges(address, was, now, k)
    {
      var change := if was[k] != now[k] then [MwB(address + k, now[k])] else [];
      cs := cs + change;
      k := k + 1;
    }
  }

  /** `word_changes`. */
  method EmitWords(address: nat, was: seq<byte>, now: seq<byte>) returns (cs: seq<Command>)
    requires |was| == |now| && |was| % 4 == 0
    ensures cs == WordChanges(address, was, now, |was| / 4)
  {
    cs := [];
    var k := 0;
    while 4 * k < |was|
      invariant 0 <= 4 * k <= |was| && cs == WordChanges(address, was, now, k)
    {
      var o := 4 * k;
      var change := if was[o..o + 4] != now[o..o + 4] then [MwL(address + o, U32At(now, o))] else [];
      cs := cs + change;
      k := k + 1;
    }
  }

  /** The first `n` bytes new, the others old. */
  function Mixed(was: seq<byte>, now: seq<byte>, n: nat): (m: seq<byte>)
    requires |was| == |now|
    ensures |m| == |was|
  {
    seq(|was|, i requires 0 <= i < |was| => if i < n then now[i] else was[i])
  }

  lemma NothingDone(ram: seq<byte>, address: nat, was: seq<byte>, now: seq<byte>)
    requires address + |was| <= |ram| && ram[address..address + |was|] == was && |now| == |was|
    ensures Put(ram, address, Mixed(was, now, 0)) == ram
  {
    var m := Mixed(was, now, 0);
    forall i | address <= i < address + |was| ensures m[i - address] == ram[i] {
      assert ram[address..address + |was|][i - address] == ram[i];
    }
  }

  /** Putting the next part over a buffer that is new up to it. */
  lemma PartDone(ram: seq<byte>, address: nat, was: seq<byte>, now: seq<byte>, o: nat, part: seq<byte>)
    requires address + |was| <= |ram| && |was| == |now| && o + |part| <= |was|
    requires forall i :: 0 <= i < |part| ==> part[i] == now[o + i]
    ensures Put(Put(ram, address, Mixed(was, now, o)), address + o, part) == Put(ram, address, Mixed(was, now, o + |part|))
  {
    var x := Put(Put(ram, address, Mixed(was, now, o)), address + o, part);
    var y := Put(ram, address, Mixed(was, now, o + |part|));
    forall i | 0 <= i < |ram| ensures x[i] == y[i] {
      if address + o <= i < address + o + |part| {
        assert part[i - address - o] == now[o + (i - address - o)];
      }
    }
  }

  lemma PartSame(was: seq<byte>, now: seq<byte>, o: nat, n: nat)
    requires |was| == |now| && o + n <= |was| && was[o..o + n] == now[o..o + n]
    ensures Mixed(was, now, o) == Mixed(was, now, o + n)
  {
    forall i | o <= i < o + n ensures was[i] == now[i] {
      assert was[i] == was[o..o + n][i - o] && now[i] == now[o..o + n][i - o];
    }
  }

  /** On RAM that holds the old bytes, the byte writes leave exactly the new ones so far, and nothing else changed. */
  lemma {:induction false} BytesWork(ram: seq<byte>, address: nat, was: seq<byte>, now: seq<byte>, k: nat)
    requires |ram| == RAM && k <= |was| == |now| && address + |was| <= RAM
    requires ram[address..address + |was|] == was
    ensures Runnable(ByteChanges(address, was, now, k))
    ensures Executed(ram, ByteChanges(address, was, now, k)) == Put(ram, address, Mixed(was, now, k))
  {
    if k == 0 {
      NothingDone(ram, address, was, now);
    } else {
      BytesWork(ram, address, was, now, k - 1);
      ByteDone(ram, ByteChanges(address, was, now, k - 1), address, was, now, k - 1);
    }
  }

  lemma ByteDone(ram: seq<byte>, cs: seq<Command>, address: nat, was: seq<byte>, now: seq<byte>, o: nat)
    requires |ram| == RAM && Runnable(cs) && o < |was| == |now| && address + |was| <= RAM
    requires Executed(ram, cs) == Put(ram, address, Mixed(was, now, o))
    ensures Runnable(cs + ByteChange(address, was, now, o))
    ensures Executed(ram, cs + ByteChange(address, was, now, o)) == Put(ram, address, Mixed(was, now, o + 1))
  {
    if was[o] != now[o] {
      ExecutedPush(ram, cs, MwB(address + o, now[o]));
      PartDone(ram, address, was, now, o, [now[o]]);
    } else {
      assert cs + [] == cs;
      assert Mixed(was, now, o) == Mixed(was, now, o + 1);
    }
  }

  lemma {:induction false} WordsWork(ram: seq<byte>, address: nat, was: seq<byte>, now: seq<byte>, k: nat)
    requires |ram| == RAM && 4 * k <= |was| == |now| && address + |was| <= RAM
    requires ram[address..address + |was|] == was
    ensures Runnable(WordChanges(address, was, now, k))
    ensures Executed(ram, WordChanges(address, was, now, k)) == Put(ram, address, Mixed(was, now, 4 * k))
  {
    if k == 0 {
      NothingDone(ram, address, was, now);
    } else {
      WordsWork(ram, address, was, now, k - 1);
      WordDone(ram, WordChanges(address, was, now, k - 1), address, was, now, 4 * (k - 1));
    }
  }

  lemma WordDone(ram: seq<byte>, cs: seq<Command>, address: nat, was: seq<byte>, now: seq<byte>, o: nat)
    requires |ram| == RAM && Runnable(cs) && o + 4 <= |was| == |now| && address + |was| <= RAM
    requires Executed(ram, cs) == Put(ram, address, Mixed(was, now, o))
    ensures Runnable(cs + WordChange(address, was, now, o))
    ensures Executed(ram, cs + WordChange(address, was, now, o)) == Put(ram, address, Mixed(was, now, o + 4))
  {
    if was[o..o + 4] != now[o..o + 4] {
      var part := Le(U32At(now, o), 4);
      WordBytes(now, o);
      ExecutedPush(ram, cs, MwL(address + o, U32At(now, o)));
      PartDone(ram, address, was, now, o, part);
    } else {
      assert cs + [] == cs;
      PartSame(was, now, o, 4);
    }
  }

  lemma WordBytes(now: seq<byte>, o: nat)
    requires o + 4 <= |now|
    ensures forall i :: 0 <= i < 4 ==> Le(U32At(now, o), 4)[i] == now[o + i]
  {
    LeInverse(now, o, 4);
  }

  /** All of a buffer done. */
  lemma AllDone(was: seq<byte>, now: seq<byte>)
    requires |was| == |now|
    ensures Mixed(was, now, |was|) == now
  {
  }

  // The whole patch.

  function ImagePatch(image: seq<byte>, a: seq<byte>): seq<Command>
    requires |image| >= HEAD && |a| == HEAD
  {
    ByteChanges(IMAGE_RAM, image[..512], a[..512], 512)
    + WordChanges(IMAGE_RAM + 512, Header(image[..HEAD]), Header(a), 128)
  }

  function TailPatch(a: seq<byte>, t: seq<byte>): seq<Command>
    requires |a| == HEAD && |t| == TAIL
  {
    [CpB(IMAGE_RAM + 1024, TAIL_RAM, ENTRIES), CpB(IMAGE_RAM + 512, TAIL_RAM + ENTRIES, 512)]
    + WordChanges(TAIL_RAM + ENTRIES, Header(a), BackupHeader(t), 128)
  }

  function PatchCommands(image: seq<byte>, a: seq<byte>, t: seq<byte>): seq<Command>
    requires |image| >= HEAD && |a| == HEAD && |t| == TAIL
  {
    ImagePatch(image, a) + TailPatch(a, t)
  }

  /** The middle section of `command_sections`. */
  method EmitPatch(image: seq<byte>, a: seq<byte>, t: seq<byte>) returns (cs: seq<Command>)
    requires |image| >= HEAD && |a| == HEAD && |t| == TAIL
    ensures cs == PatchCommands(image, a, t)
  {
    var first := EmitBytes(IMAGE_RAM, image[..512], a[..512]);
    var second := EmitWords(IMAGE_RAM + 512, Header(image[..HEAD]), Header(a));
    var third := EmitWords(TAIL_RAM + ENTRIES, Header(a), BackupHeader(t));
    var copies := [CpB(IMAGE_RAM + 1024, TAIL_RAM, ENTRIES), CpB(IMAGE_RAM + 512, TAIL_RAM + ENTRIES, 512)];
    cs := first + second;
    cs := cs + (copies + third);
  }

  predicate Holds(ram: seq<byte>, address: nat, b: seq<byte>) {
    address + |b| <= |ram| && ram[address..address + |b|] == b
  }

  lemma HoldsPart(ram: seq<byte>, address: nat, b: seq<byte>, i: nat, j: nat)
    requires Holds(ram, address, b) && i <= j <= |b|
    ensures Holds(ram, address + i, b[i..j])
  {
    SubSlices(ram, b, address, 0, |b|, i, j);
    assert b[0..|b|] == b;
  }

  lemma HoldsWritten(ram: seq<byte>, address: nat, b: seq<byte>)
    requires address + |b| <= |ram|
    ensures Holds(Put(ram, address, b), address, b)
  {
  }

  lemma HoldsBeside(ram: seq<byte>, address: nat, b: seq<byte>, o: nat, patch: seq<byte>)
    requires Holds(ram, address, b) && o + |patch| <= |ram|
    requires address + |b| <= o || o + |patch| <= address
    ensures Holds(Put(ram, o, patch), address, b)
  {
  }

  lemma HoldsJoined(ram: seq<byte>, address: nat, b: seq<byte>, c: seq<byte>)
    requires Holds(ram, address, b) && Holds(ram, address + |b|, c)
    ensures Holds(ram, address, b + c)
  {
    assert ram[address..address + |b| + |c|] == ram[address..address + |b|] + ram[address + |b|..address + |b| + |c|];
  }

  /** The two patches of the image buffer. */
  lemma ImagePatched(ram: seq<byte>, image: seq<byte>, a: seq<byte>)
    requires |ram| == RAM && |a| == HEAD && HEAD <= |image| < TAIL_RAM - IMAGE_RAM && Holds(ram, IMAGE_RAM, image)
    requires a[1024..] == image[1024..HEAD]
    ensures Runnable(ImagePatch(image, a))
    ensures Holds(Executed(ram, ImagePatch(image, a)), IMAGE_RAM, a + image[HEAD..])
  {
    var first := ByteChanges(IMAGE_RAM, image[..512], a[..512], 512);
    var second := WordChanges(IMAGE_RAM + 512, Header(image[..HEAD]), Header(a), 128);
    BootSectorPatched(ram, image, a);
    var r1 := Executed(ram, first);
    WordsWork(r1, IMAGE_RAM + 512, Header(image[..HEAD]), Header(a), 128);
    AllDone(Header(image[..HEAD]), Header(a));
    ExecutedConcat(ram, first, second);
    PatchedTogether(r1, image, a);
  }

  lemma BootSectorPatched(ram: seq<byte>, image: seq<byte>, a: seq<byte>)
    requires |ram| == RAM && |a| == HEAD && HEAD <= |image| < TAIL_RAM - IMAGE_RAM && Holds(ram, IMAGE_RAM, image)
    ensures var first := ByteChanges(IMAGE_RAM, image[..512], a[..512], 512);
      && Runnable(first)
      && Holds(Executed(ram, first), IMAGE_RAM, a[..512])
      && Holds(Executed(ram, first), IMAGE_RAM + 512, Header(image[..HEAD]))
      && Holds(Executed(ram, first), IMAGE_RAM + 1024, image[1024..|image|])
  {
    HoldsPart(ram, IMAGE_RAM, image, 0, 512);
    HoldsPart(ram, IMAGE_RAM, image, 512, 1024);
    HoldsPart(ram, IMAGE_RAM, image, 1024, |image|);
    assert image[0..512] == image[..512] && image[512..1024] == Header(image[..HEAD]);
    BytesWork(ram, IMAGE_RAM, image[..512], a[..512], 512);
    AllDone(image[..512], a[..512]);
    HoldsBeside(ram, IMAGE_RAM + 512, Header(image[..HEAD]), IMAGE_RAM, a[..512]);
    HoldsBeside(ram, IMAGE_RAM + 1024, image[1024..|image|], IMAGE_RAM, a[..512]);
    HoldsWritten(ram, IMAGE_RAM, a[..512]);
  }

  lemma PatchedPieces(image: seq<byte>, a: seq<byte>)
    requires |a| == HEAD <= |image| && a[1024..] == image[1024..HEAD]
    ensures a[..512] + Header(a) + image[1024..|image|] == a + image[HEAD..]
  {
    assert a == a[..512] + a[512..1024] + a[1024..];
    assert image[1024..|image|] == image[1024..HEAD] + image[HEAD..];
  }

  lemma PatchedTogether(r1: seq<byte>, image: seq<byte>, a: seq<byte>)
    requires |r1| == RAM && |a| == HEAD && HEAD <= |image| < TAIL_RAM - IMAGE_RAM
    requires Holds(r1, IMAGE_RAM, a[..512]) && Holds(r1, IMAGE_RAM + 1024, image[1024..|image|])
    requires a[1024..] == image[1024..HEAD]
    ensures Holds(Put(r1, IMAGE_RAM + 512, Header(a)), IMAGE_RAM, a + image[HEAD..])
  {
    var r2 := Put(r1, IMAGE_RAM + 512, Header(a));
    HoldsWritten(r1, IMAGE_RAM + 512, Header(a));
    HoldsBeside(r1, IMAGE_RAM, a[..512], IMAGE_RAM + 512, Header(a));
    HoldsBeside(r1, IMAGE_RAM + 1024, image[1024..|image|], IMAGE_RAM + 512, Header(a));
    HoldsJoined(r2, IMAGE_RAM, a[..512], Header(a));
    HoldsJoined(r2, IMAGE_RAM, a[..512] + Header(a), image[1024..|image|]);
    PatchedPieces(image, a);
  }

  /** The backup copy is put together beside the image, which stays as it is. */
  lemma TailBuilt(r: seq<byte>, image: seq<byte>, a: seq<byte>, t: seq<byte>)
    requires |r| == RAM && |a| == HEAD && |t| == TAIL && HEAD <= |image| < TAIL_RAM - IMAGE_RAM
    requires Holds(r, IMAGE_RAM, a + image[HEAD..]) && BackupArray(t) == Array(a)
    ensures Runnable(TailPatch(a, t))
    ensures Holds(Executed(r, TailPatch(a, t)), TAIL_RAM, t)
    ensures Holds(Executed(r, TailPatch(a, t)), IMAGE_RAM, a + image[HEAD..])
  {
    var copies := [CpB(IMAGE_RAM + 1024, TAIL_RAM, ENTRIES), CpB(IMAGE_RAM + 512, TAIL_RAM + ENTRIES, 512)];
    CopiesRun(r, a, a + image[HEAD..]);
    HeaderPatched(Executed(r, copies), a, t, a + image[HEAD..]);
    ExecutedConcat(r, copies, WordChanges(TAIL_RAM + ENTRIES, Header(a), BackupHeader(t), 128));
  }

  lemma CopiesRun(r: seq<byte>, a: seq<byte>, whole: seq<byte>)
    requires |r| == RAM && |a| == HEAD <= |whole| < TAIL_RAM - IMAGE_RAM && whole[..HEAD] == a && Holds(r, IMAGE_RAM, whole)
    ensures var copies := [CpB(IMAGE_RAM + 1024, TAIL_RAM, ENTRIES), CpB(IMAGE_RAM + 512, TAIL_RAM + ENTRIES, 512)];
      && Runnable(copies)
      && Holds(Executed(r, copies), TAIL_RAM, Array(a))
      && Holds(Executed(r, copies), TAIL_RAM + ENTRIES, Header(a))
      && Holds(Executed(r, copies), IMAGE_RAM, whole)
  {
    HoldsPart(r, IMAGE_RAM, whole, 1024, HEAD);
    HoldsPart(r, IMAGE_RAM, whole, 512, 1024);
    assert whole[1024..HEAD] == whole[..HEAD][1024..] && whole[512..1024] == whole[..HEAD][512..1024];
    CopiesDone(r, Array(a), Header(a), whole);
    ExecutedTwo(r, CpB(IMAGE_RAM + 1024, TAIL_RAM, ENTRIES), CpB(IMAGE_RAM + 512, TAIL_RAM + ENTRIES, 512));
  }

  lemma HeaderPatched(r: seq<byte>, a: seq<byte>, t: seq<byte>, whole: seq<byte>)
    requires |r| == RAM && |a| == HEAD && |t| == TAIL && |whole| < TAIL_RAM - IMAGE_RAM && BackupArray(t) == Array(a)
    requires Holds(r, TAIL_RAM, Array(a)) && Holds(r, TAIL_RAM + ENTRIES, Header(a)) && Holds(r, IMAGE_RAM, whole)
    ensures var third := WordChanges(TAIL_RAM + ENTRIES, Header(a), BackupHeader(t), 128);
      Runnable(third) && Holds(Executed(r, third), TAIL_RAM, t) && Holds(Executed(r, third), IMAGE_RAM, whole)
  {
    WordsWork(r, TAIL_RAM + ENTRIES, Header(a), BackupHeader(t), 128);
    AllDone(Header(a), BackupHeader(t));
    HoldsBeside(r, IMAGE_RAM, whole, TAIL_RAM + ENTRIES, BackupHeader(t));
    HoldsBeside(r, TAIL_RAM, Array(a), TAIL_RAM + ENTRIES, BackupHeader(t));
    HoldsWritten(r, TAIL_RAM + ENTRIES, BackupHeader(t));
    HoldsJoined(Put(r, TAIL_RAM + ENTRIES, BackupHeader(t)), TAIL_RAM, Array(a), BackupHeader(t));
    assert t == BackupArray(t) + BackupHeader(t);
  }

  lemma ExecutedTwo(r: seq<byte>, c1: Command, c2: Command)
    requires |r| == RAM && InRam(c1) && InRam(c2)
    ensures Runnable([c1, c2]) && Executed(r, [c1, c2]) == Did(Did(r, c1), c2)
  {
    ExecutedPush(r, [], c1);
    ExecutedPush(r, [c1], c2);
    assert [] + [c1] == [c1] && [c1] + [c2] == [c1, c2];
  }

  lemma CopiesDone(r: seq<byte>, x: seq<byte>, h: seq<byte>, whole: seq<byte>)
    requires |r| == RAM && |x| == ENTRIES && |h| == 512 && HEAD <= |whole| < TAIL_RAM - IMAGE_RAM
    requires Holds(r, IMAGE_RAM + 1024, x) && Holds(r, IMAGE_RAM + 512, h) && Holds(r, IMAGE_RAM, whole)
    ensures var r2 := Did(Did(r, CpB(IMAGE_RAM + 1024, TAIL_RAM, ENTRIES)), CpB(IMAGE_RAM + 512, TAIL_RAM + ENTRIES, 512));
      Holds(r2, TAIL_RAM, x) && Holds(r2, TAIL_RAM + ENTRIES, h) && Holds(r2, IMAGE_RAM, whole)
  {
    var r1 := Put(r, TAIL_RAM, x);
    HoldsWritten(r, TAIL_RAM, x);
    HoldsBeside(r, IMAGE_RAM + 512, h, TAIL_RAM, x);
    HoldsBeside(r, IMAGE_RAM, whole, TAIL_RAM, x);
    HoldsWritten(r1, TAIL_RAM + ENTRIES, h);
    HoldsBeside(r1, TAIL_RAM, x, TAIL_RAM + ENTRIES, h);
    HoldsBeside(r1, IMAGE_RAM, whole, TAIL_RAM + ENTRIES, h);
  }

  /** Run on RAM that holds the image, the emitted commands leave exactly the new boot sector, the new primary header and
      the rest of the image in its buffer, and the entries with the new backup header in the other. */
  lemma PatchCorrect(ram: seq<byte>, image: seq<byte>, a: seq<byte>, t: seq<byte>)
    requires |ram| == RAM && |a| == HEAD && |t| == TAIL && HEAD <= |image| < TAIL_RAM - IMAGE_RAM
    requires Holds(ram, IMAGE_RAM, image) && a[1024..] == image[1024..HEAD] && BackupArray(t) == Array(a)
    ensures Runnable(PatchCommands(image, a, t))
    ensures Holds(Executed(ram, PatchCommands(image, a, t)), IMAGE_RAM, a + image[HEAD..])
    ensures Holds(Executed(ram, PatchCommands(image, a, t)), TAIL_RAM, t)
  {
    ImagePatched(ram, image, a);
    TailBuilt(Executed(ram, ImagePatch(image, a)), image, a, t);
    ExecutedConcat(ram, ImagePatch(image, a), TailPatch(a, t));
  }

  // The plan and the disk.

  /** The numbers `prepare` computes: the same tables as a resize of the image to the target. */
  ghost predicate IsPlan(image: seq<byte>, a: seq<byte>, t: seq<byte>, target: nat) {
    && Preparable(image, target)
    && IsResized(a, image[..HEAD], target) && Sized(Header(a)) && t == BackupOf(Header(a), Array(a), target)
  }

  predicate Preparable(image: seq<byte>, target: nat) {
    InspectedK11c(image) && |image| < TAIL_RAM - IMAGE_RAM && |image| / 512 + 33 <= target < U32
  }

  /** `prepare`, the release digest aside. Its last check, that the last partition ends before the new backup table,
      can never fail once the others have passed. */
  method Prepare(image: seq<byte>, target: nat) returns (r: Result<(seq<byte>, seq<byte>)>)
    ensures r.Ok? <==> Preparable(image, target)
    ensures r.Ok? ==> IsPlan(image, r.value.0, r.value.1, target)
  {
    var inspected := Inspect(image);
    if !inspected || |image| >= TAIL_RAM - IMAGE_RAM || !(|image| / 512 + 33 <= target < U32) { return Err("FAIL"); }
    LastPartition(image);
    if Finish(Array(image[..HEAD]), 7) >= target - 33 { return Err("FAIL"); }
    var a, t := PlanTables(image, target);
    return Ok((a, t));
  }

  lemma LastPartition(image: seq<byte>)
    requires InspectedK11c(image)
    ensures Finish(Array(image[..HEAD]), 7) <= |image| / 512 - 34
  {
    assert Used(Array(image[..HEAD]), 7);
  }

  method PlanTables(image: seq<byte>, target: nat) returns (a: seq<byte>, t: seq<byte>)
    requires Preparable(image, target)
    ensures IsPlan(image, a, t, target)
  {
    InspectedHealthy(image);
    a := Rebuild(image[..HEAD], Array(image[..HEAD]), target, U32At(Header(image[..HEAD]), 88));
    t := Backup(a, target);
  }

  /** The two `mmc write` commands. */
  function Flashed(d: seq<byte>, ram: seq<byte>, size: nat, target: nat): (r: seq<byte>)
    requires |ram| == RAM && IMAGE_RAM + size <= RAM && target >= 33 && |d| == 512 * target && size <= |d|
    ensures |r| == |d|
  {
    Laid(d, [Segment(0, ram[IMAGE_RAM..IMAGE_RAM + size]), Segment(target - 33, ram[TAIL_RAM..TAIL_RAM + TAIL])])
  }

  lemma FlashedPieces(d: seq<byte>, ram: seq<byte>, whole: seq<byte>, t: seq<byte>, target: nat)
    requires |ram| == RAM && target >= 33 && |d| == 512 * target && |whole| + TAIL <= |d| && IMAGE_RAM + |whole| <= RAM
    requires Holds(ram, IMAGE_RAM, whole) && Holds(ram, TAIL_RAM, t) && |t| == TAIL
    ensures Flashed(d, ram, |whole|, target)[..|whole|] == whole
    ensures Flashed(d, ram, |whole|, target)[|d| - TAIL..] == t
  {
    var ss := [Segment(0, whole), Segment(target - 33, t)];
    LaidFront(d, ss, 0, |whole|);
    LaidEnd(d, ss, 1);
  }

  lemma PlanParts(image: seq<byte>, a: seq<byte>, t: seq<byte>, target: nat)
    requires IsPlan(image, a, t, target)
    ensures |a| == HEAD && |t| == TAIL && a[1024..] == image[1024..HEAD] && BackupArray(t) == Array(a)
    ensures HEAD <= |image| < TAIL_RAM - IMAGE_RAM && |image| + TAIL <= 512 * target && |image| % 512 == 0
  {
    assert Array(image[..HEAD]) == image[1024..HEAD];
    Joined(Array(a), Retargeted(Header(a), target - 1, 1, target - 33));
  }

  lemma ProgramDisk(ram: seq<byte>, image: seq<byte>, a: seq<byte>, t: seq<byte>, target: nat, d: seq<byte>)
    returns (r: seq<byte>)
    requires |a| == HEAD && |t| == TAIL && HEAD <= |image| < TAIL_RAM - IMAGE_RAM && |image| + TAIL <= 512 * target == |d|
    requires a[1024..] == image[1024..HEAD] && BackupArray(t) == Array(a)
    requires |ram| == RAM && Holds(ram, IMAGE_RAM, image)
    ensures Runnable(PatchCommands(image, a, t))
    ensures r == Flashed(d, Executed(ram, PatchCommands(image, a, t)), |image|, target)
    ensures |r| == |d| && r[..|image|] == a + image[HEAD..] && r[..HEAD] == a && r[|r| - TAIL..] == t
  {
    PatchCorrect(ram, image, a, t);
    var done := Executed(ram, PatchCommands(image, a, t));
    var whole := a + image[HEAD..];
    FlashedPieces(d, done, whole, t, target);
    r := Flashed(d, done, |image|, target);
    assert r[..HEAD] == whole[..HEAD];
  }

  /** Started on RAM that holds the image and on any eMMC of the target size, the program leaves a disk that the same
      inspection accepts, with every byte of the image behind its tables in place. */
  lemma ProgramCorrect(ram: seq<byte>, image: seq<byte>, a: seq<byte>, t: seq<byte>, target: nat, d: seq<byte>)
    returns (r: seq<byte>)
    requires IsPlan(image, a, t, target) && |ram| == RAM && Holds(ram, IMAGE_RAM, image) && |d| == 512 * target
    ensures HEAD <= |image| && |image| + TAIL <= |d| && IMAGE_RAM + |image| <= RAM
    ensures |a| == HEAD && |t| == TAIL && Runnable(PatchCommands(image, a, t))
    ensures r == Flashed(d, Executed(ram, PatchCommands(image, a, t)), |image|, target)
    ensures r[..|image|] == a + image[HEAD..] && InspectedK11c(r)
  {
    PlanParts(image, a, t, target);
    r := ProgramDisk(ram, image, a, t, target, d);
    PlanAccepted(image, a, t, target, r);
  }

  /** Any disk of the target size with the planned tables at its ends passes the inspection. */
  lemma PlanAccepted(image: seq<byte>, a: seq<byte>, t: seq<byte>, target: nat, r: seq<byte>)
    requires IsPlan(image, a, t, target) && |a| == HEAD && |t| == TAIL
    requires |r| == 512 * target && |r| >= HEAD + TAIL && r[..HEAD] == a && r[|r| - TAIL..] == t
    ensures InspectedK11c(r)
  {
    PlanInspected(image, a, t, target);
    SameInspection(r, a, t, target);
  }

  lemma SameInspection(r: seq<byte>, a: seq<byte>, t: seq<byte>, target: nat)
    requires |r| == 512 * target && target >= 34850 && |a| == HEAD && |t| == TAIL
    requires r[..HEAD] == a && r[|r| - TAIL..] == t && TablesK11c(a, t, target)
    ensures InspectedK11c(r)
  {
  }

  lemma PlanInspected(image: seq<byte>, a: seq<byte>, t: seq<byte>, target: nat)
    requires IsPlan(image, a, t, target)
    ensures |a| == HEAD && |t| == TAIL && target >= 34850 && TablesK11c(a, t, target)
  {
    var p, s := image[..HEAD], |image| / 512;
    InspectedHealthy(image);
    ResizedHealthy(a, p, image[|image| - TAIL..], s, target);
    U32Bytes(a, p, 454);
    BackupPolicy(Header(a), Array(a), target);
  }

  lemma BackupPolicy(h: seq<byte>, x: seq<byte>, target: nat)
    requires Sized(h) && |x| == ENTRIES && 33 <= target < U32
    ensures Same(h, BackupHeader(BackupOf(h, x, target)), 8, 16)
  {
    RetargetedIs(h, target - 1, 1, target - 33);
    Joined(x, Retargeted(h, target - 1, 1, target - 33));
  }
}
