/** What a court reads, and may write, through its own page tables. */
module CourtViews {
  import opened MachineWords
  import opened PageTables
  import opened PageMapper
  import opened MapPages
  import opened MapTheorems
  import opened ImageFormat
  import opened CourtImage
  import opened CourtLoader
  import opened Courtlets
  import opened CourtPair
  import Arithmetic

  /** The aligned word a program running on `root` reads at `va`. */
  function ReadWord(m: Mem, root: nat, va: nat): Option<Word> {
    match TranslateAddr(m, root, va)
    case None => None
    case Some(pa) => Some(At(m, pa / 0x1000, pa % 0x1000 / 8))
  }

  /** The page at `va` shows the words, followed by zeros, and may be written. */
  ghost predicate PageShows(m: Mem, root: nat, va: nat, words: seq<Word>) {
    forall i | 0 <= i < 512 ::
      && ReadWord(m, root, va + 8 * i) == Some(if i < |words| then words[i] else 0)
      && AccessAt(m, root, va + 8 * i) == KERNEL_ACCESS
  }

  lemma WordPlace(f: nat, i: nat)
    requires i < 512
    ensures (0x1000 * f + 8 * i) / 0x1000 == f && (0x1000 * f + 8 * i) % 0x1000 / 8 == i
  {
    Arithmetic.Quotient(0x1000 * f + 8 * i, 0x1000, f, 8 * i);
  }

  lemma BlockShown(m: Mem, root: nat, va: nat, f: nat, words: seq<Word>)
    requires |words| <= 512 && va % 0x1000 == 0 && Courtlets.Holds(m, f, words)
    requires BytesMapped(m, root, va, 0x1000 * f, 0x1000)
    ensures PageShows(m, root, va, words)
  {
    hide TranslateAddr, AccessAt, At;
    forall i | 0 <= i < 512
      ensures ReadWord(m, root, va + 8 * i) == Some(if i < |words| then words[i] else 0)
    {
      assert TranslateAddr(m, root, va + 8 * i) == Some(0x1000 * f + 8 * i);
      WordPlace(f, i);
    }
  }

  /** The boot block, field by field. */
  ghost predicate BootShown(m: Mem, root: nat, info: BootInfo) {
    && ReadWord(m, root, BOOT_VA) == Some(BOOT_MAGIC) && ReadWord(m, root, BOOT_VA + 8) == Some(info.capId)
    && ReadWord(m, root, BOOT_VA + 16) == Some(info.rights) && ReadWord(m, root, BOOT_VA + 24) == Some(RING_VA)
    && ReadWord(m, root, BOOT_VA + 32) == Some(info.courtId) && AccessAt(m, root, BOOT_VA) == KERNEL_ACCESS
  }

  /** The ring's header, field by field: capacity and slot size share a word. */
  ghost predicate RingShown(m: Mem, root: nat) {
    && ReadWord(m, root, RING_VA) == Some(RING_MAGIC)
    && ReadWord(m, root, RING_VA + 8) == Some(4 + 64 * 0x1_0000_0000)
    && ReadWord(m, root, RING_VA + 16) == Some(0) && ReadWord(m, root, RING_VA + 24) == Some(0)
    && ReadWord(m, root, RING_VA + 32) == Some(0) && AccessAt(m, root, RING_VA) == KERNEL_ACCESS
  }

  /** Every word of the stack is zero and may be written. */
  ghost predicate StackShown(m: Mem, c: Courtlet) {
    && c.stackTop == STACK_VA + 0x1000 * STACK_PAGES
    && forall k | 0 <= k < STACK_PAGES :: PageShows(m, c.pml4, STACK_VA + 0x1000 * k, [])
  }

  lemma PartMapped(m: Mem, root: nat, virt: nat, phys: nat, len: nat, k: nat, n: nat)
    requires BytesMapped(m, root, virt, phys, len) && k + n <= len
    ensures BytesMapped(m, root, virt + k, phys + k, n)
  {
    hide TranslateAddr, AccessAt;
  }

  /** A ready court finds its image at its link addresses, its boot block, with its own
      capability and number, the ring page and a zeroed stack at theirs, and may write to
      all of them. */
  lemma ReadySees(s: State, sh: Shape, c: Courtlet, image: seq<Byte>, info: BootInfo, lay: Layout, lo: Bound, ring: nat)
    requires CourtReady(s, sh, c, image, BootBlock(info), lay, lo, ring)
    ensures HasSegments(image) && ImageLoaded(s.mem, c.pml4, image) && InImage(image, c.entry)
    ensures BootShown(s.mem, c.pml4, info) && StackShown(s.mem, c)
    ensures BytesMapped(s.mem, c.pml4, RING_VA, 0x1000 * ring, 0x1000)
  {
    hide Processed, ImageLoaded, Confined, AllMapped, BytesMapped, InImage, ReadWord, AccessAt;
    ProcessedLoaded(s, sh, c.pml4, image, lay.segments);
    AllMappedBytes(s.mem, c.pml4, BOOT_VA, 0x1000 * lay.boot, 0x1000);
    AllMappedBytes(s.mem, c.pml4, RING_VA, 0x1000 * ring, 0x1000);
    BlockShown(s.mem, c.pml4, BOOT_VA, lay.boot, BootBlock(info));
    BootFields(s.mem, c.pml4, info);
    StackSeen(s.mem, c, lay.stack);
  }

  lemma BootFields(m: Mem, root: nat, info: BootInfo)
    requires PageShows(m, root, BOOT_VA, BootBlock(info))
    ensures BootShown(m, root, info)
  {
    hide ReadWord, AccessAt;
    assert ReadWord(m, root, BOOT_VA + 8 * 0) == Some(BOOT_MAGIC)
      && AccessAt(m, root, BOOT_VA + 8 * 0) == KERNEL_ACCESS;
    assert ReadWord(m, root, BOOT_VA + 8 * 1) == Some(info.capId);
    assert ReadWord(m, root, BOOT_VA + 8 * 2) == Some(info.rights);
    assert ReadWord(m, root, BOOT_VA + 8 * 3) == Some(RING_VA);
    assert ReadWord(m, root, BOOT_VA + 8 * 4) == Some(info.courtId);
  }

  lemma StackSeen(m: Mem, c: Courtlet, f: nat)
    requires AllMapped(m, c.pml4, STACK_VA / 0x1000, STACK_PAGES, f) && Zeroed(m, f, STACK_PAGES)
    requires c.stackTop == STACK_VA + 0x1000 * STACK_PAGES
    ensures StackShown(m, c)
  {
    hide AllMapped, BytesMapped, PageShows;
    AllMappedBytes(m, c.pml4, STACK_VA, 0x1000 * f, 0x1000 * STACK_PAGES);
    forall k | 0 <= k < STACK_PAGES
      ensures PageShows(m, c.pml4, STACK_VA + 0x1000 * k, [])
    {
      PartMapped(m, c.pml4, STACK_VA, 0x1000 * f, 0x1000 * STACK_PAGES, 0x1000 * k, 0x1000);
      assert 0x1000 * f + 0x1000 * k == 0x1000 * (f + k);
      BlockShown(m, c.pml4, STACK_VA + 0x1000 * k, f + k, []);
    }
  }

  /** Both courts see the same ring, as it was set up. */
  lemma RingSeen(s: State, sh: Shape, root: nat, ring: nat)
    requires RingIn(s, sh, ring) && BytesMapped(s.mem, root, RING_VA, 0x1000 * ring, 0x1000)
    ensures RingShown(s.mem, root)
  {
    hide BytesMapped, ReadWord, AccessAt;
    BlockShown(s.mem, root, RING_VA, ring, RingBlock());
    var m := s.mem;
    assert ReadWord(m, root, RING_VA + 8 * 0) == Some(RING_MAGIC)
      && AccessAt(m, root, RING_VA + 8 * 0) == KERNEL_ACCESS;
    assert ReadWord(m, root, RING_VA + 8 * 1) == Some(4 + 64 * 0x1_0000_0000);
    assert ReadWord(m, root, RING_VA + 8 * 2) == Some(0);
    assert ReadWord(m, root, RING_VA + 8 * 3) == Some(0);
    assert ReadWord(m, root, RING_VA + 8 * 4) == Some(0);
  }
}
