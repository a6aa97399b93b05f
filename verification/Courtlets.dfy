/** Bringing up courtlets: a cloned root, a loaded image, a boot block, the shared
    ring page and a stack. */
module Courtlets {
  import opened MachineWords
  import opened PageTables
  import opened PageMapper
  import opened MapperProofs
  import opened MapPages
  import opened MapTheorems
  import opened KernelMemory
  import opened PhysBytes
  import opened ImageFormat
  import opened CourtImage
  import opened CourtLoader
  import AddressSpaces

  const BOOT_VA := 0x20_0000
  const RING_VA := 0x30_0000
  const STACK_VA := 0x40_0000
  const STACK_PAGES := 8
  const BOOT_MAGIC: Word := 0x434b_424f_4f54_3032
  const RING_MAGIC: Word := 0x434b_5249_4e47_3031

  datatype SpawnError = CloneFailed | ImageFailed(load: LoadError) | NoPage | MapFailed(map_: MapError)

  datatype Courtlet = Courtlet(pml4: nat, entry: Word, stackTop: nat)

  datatype SpawnResult = Spawned(court: Courtlet) | NotSpawned(error: SpawnError)

  // ----- blocks of words in a page of their own -----

  ghost predicate Holds(m: Mem, f: nat, words: seq<Word>)
    requires |words| <= 512
  {
    f in m && forall i | 0 <= i < 512 :: At(m, f, i) == if i < |words| then words[i] else 0
  }

  ghost predicate Zeroed(m: Mem, f: nat, n: nat) {
    forall k | f <= k < f + n :: k in m && m[k] == ZeroFrame()
  }

  /** Takes a zeroed page and writes the words at its start. */
  method TakeBlock(bump: BumpAllocator, mem: PhysMem, words: seq<Word>, ghost sh: Shape) returns (r: Option<nat>)
    requires Inv(Snapshot(mem, bump, 0), sh) && |words| <= 512
    modifies bump, mem
    ensures r.Some? <==> old(bump.cursor) + 0x1000 <= bump.end
    ensures r.None? ==> Snapshot(mem, bump, 0) == old(Snapshot(mem, bump, 0))
    ensures r.Some? ==>
      DataTaken(old(Snapshot(mem, bump, 0)), Snapshot(mem, bump, 0), r.value, 1) && Holds(mem.frames, r.value, words)
  {
    ghost var s := Snapshot(mem, bump, 0);
    hide Inv, ZeroFrames;
    r := TakeZeroed(bump, mem, 1, sh);
    if r.None? {
      return;
    }
    var f := r.value;
    ZeroFramesOk(s.mem, f, 1);
    var i := 0;
    while i < |words|
      modifies mem
      invariant 0 <= i <= |words|
      invariant f in mem.frames && forall k | k in s.mem && k != f :: k in mem.frames && mem.frames[k] == s.mem[k]
      invariant forall j | 0 <= j < 512 :: At(mem.frames, f, j) == if j < i then words[j] else 0
    {
      mem.WriteWord(f, i, words[i]);
      i := i + 1;
    }
  }

  /** Takes `pages` zeroed pages for data. */
  method TakePages(bump: BumpAllocator, mem: PhysMem, pages: nat, ghost sh: Shape) returns (r: Option<nat>)
    requires Inv(Snapshot(mem, bump, 0), sh) && pages < 0x1000
    modifies bump, mem
    ensures r.Some? <==> old(bump.cursor) + 0x1000 * pages <= bump.end
    ensures r.None? ==> Snapshot(mem, bump, 0) == old(Snapshot(mem, bump, 0))
    ensures r.Some? ==>
      DataTaken(old(Snapshot(mem, bump, 0)), Snapshot(mem, bump, 0), r.value, pages)
      && Zeroed(mem.frames, r.value, pages)
  {
    ghost var s := Snapshot(mem, bump, 0);
    hide Inv, ZeroFrames, DataTaken;
    r := TakeZeroed(bump, mem, pages, sh);
    if r.Some? {
      TakenZeroed(s, Snapshot(mem, bump, 0), r.value, pages);
      ZeroFramesOk(s.mem, r.value, pages);
    }
  }

  /** Data taken for a court keeps it apart and other courts as they are. */
  lemma TakenKept(s: State, sh: Shape, s1: State, f: nat, n: nat, root: nat, lo: Bound, ring: nat, low: bool)
    requires Inv(s, sh) && IsRoot(sh, root) && DataTaken(s, s1, f, n) && Apart(s, sh, root, lo, ring)
    ensures Kept(s, sh, s1, sh, root, low) && Apart(s1, sh, root, lo, ring)
    ensures Own(s1, sh, f, n, lo)
  {
    hide Inv, Extends, Limited, Confined;
    TakenLimited(s, sh, s1, f, n, root, low);
    ConfinedTaken(s, sh, s1, f, n, root, lo, ring);
    DataTakenOk(s, sh, s1, f, n);
  }

  /** Frames handed out at or after `lo` that are no page tables. */
  ghost predicate Own(s: State, sh: Shape, f: nat, n: nat, lo: Bound) {
    lo.start <= 0x1000 * f && 0x1000 * (f + n) <= s.cursor && forall k | f <= k < f + n :: k in s.mem && k !in sh
  }

  lemma OwnStays(s: State, sh: Shape, s': State, sh': Shape, f: nat, n: nat, lo: Bound)
    requires Own(s, sh, f, n, lo) && Extends(s, sh, s', sh')
    ensures Own(s', sh', f, n, lo)
    ensures forall k | f <= k < f + n :: k in s'.mem && s'.mem[k] == s.mem[k]
  {
    forall k | f <= k < f + n
      ensures k in s'.mem && k !in sh' && s'.mem[k] == s.mem[k]
    {
      assert 0x1000 * k < s.cursor;
    }
  }

  // ----- mapping a court's pages -----

  /** Maps `n` pages from the page of `virt` on to the frames from `f` on. */
  method MapPagesAt(bump: BumpAllocator, mem: PhysMem, space: AddressSpace, virt: nat, f: nat, n: nat, ghost sh: Shape,
                    ghost lo: Bound, ghost ring: nat)
    returns (o: Outcome, ghost sh': Shape)
    requires Inv(Snapshot(mem, bump, 0), sh) && IsRoot(sh, space.pml4)
    requires Apart(Snapshot(mem, bump, 0), sh, space.pml4, lo, ring)
    requires virt % 0x1000 == 0 && virt < 0x8000_0000_0000 && virt / 0x1000 + n <= 0x8_0000_0000
    requires Mappable(Snapshot(mem, bump, 0), sh, f, n, lo, ring) && 0x1000 * (f + n) <= bump.end
    modifies bump, mem
    ensures o.Failed? ==>
      Trouble(old(Snapshot(mem, bump, 0)), Snapshot(mem, bump, 0), space.pml4, virt, 0x1000 * f, 0x1000 * n, o.error)
    ensures Kept(old(Snapshot(mem, bump, 0)), sh, Snapshot(mem, bump, 0), sh', space.pml4, true)
    ensures o.Done? ==>
      Apart(Snapshot(mem, bump, 0), sh', space.pml4, lo, ring) && AllMapped(mem.frames, space.pml4, virt / 0x1000, n, f)
  {
    ghost var s := Snapshot(mem, bump, 0);
    InvCursor(s, sh);
    PageCounts(f, n);
    hide Inv, Apart, Kept, AddressSpaces.SpaceMap, AllMapped, Trouble;
    var phys, len := 0x1000 * f, 0x1000 * n;
    o := space.Map(bump, mem, virt, phys, len);
    ghost var s2 := AddressSpaces.SpaceMap(s, space.pml4, virt, phys, len).0;
    sh' := PagesMapped(s, sh, s2, o, space.pml4, virt, phys, len, lo, ring);
  }

  lemma PageCounts(f: nat, n: nat)
    ensures 0x1000 * f / 0x1000 == f && 0x1000 * n / 0x1000 == n && 0x1000 * f % 0x1000 == 0
  {
  }

  /** The frames from `f` on are the ring alone or the court's own. */
  ghost predicate Mappable(s: State, sh: Shape, f: nat, n: nat, lo: Bound, ring: nat) {
    (n == 1 && f == ring && ring in s.mem) || Own(s, sh, f, n, lo)
  }

  lemma PagesMapped(s: State, sh: Shape, s2: State, o: Outcome, root: nat, virt: nat, phys: nat, len: nat, lo: Bound,
                    ring: nat)
    returns (sh': Shape)
    requires phys + len <= 0x10_0000_0000_0000 && (s2, o) == AddressSpaces.SpaceMap(s, root, virt, phys, len)
    requires Inv(s, sh) && IsRoot(sh, root) && Apart(s, sh, root, lo, ring)
    requires virt / 0x1000 + len / 0x1000 <= 0x8_0000_0000 && Mappable(s, sh, phys / 0x1000, len / 0x1000, lo, ring)
    requires virt % 0x1000 == 0 && phys % 0x1000 == 0 && virt < 0x8000_0000_0000
    ensures o.Failed? ==> Trouble(s, s2.(tables := 0), root, virt, phys, len, o.error)
    ensures Kept(s, sh, s2.(tables := 0), sh', root, true)
    ensures o.Done? ==>
      Apart(s2.(tables := 0), sh', root, lo, ring)
      && AllMapped(s2.mem, root, virt / 0x1000, len / 0x1000, phys / 0x1000)
  {
    hide Inv, Extends, Limited, Confined, AddressSpaces.SpaceMap, Contained, AllMapped, BytesMapped, SomeMapped,
         MapTheorems.Stops;
    var f, n := phys / 0x1000, len / 0x1000;
    sh' := AddressSpaces.SpaceMapOk(s, sh, root, virt, phys, len);
    ContainedFacts(s, sh, s2, sh', root, virt / 0x1000, n);
    RecountKept(s, sh, s2, sh', root, lo, ring);
    if o.Done? {
      ConfinedMapped(s, sh, s2, sh', root, virt / 0x1000, n, f, lo, ring);
      RingStays(s, sh, s2, sh', ring);
      ExtendsCursor(s, sh, s2, sh');
    }
  }

  lemma RecountKept(s: State, sh: Shape, s2: State, sh': Shape, root: nat, lo: Bound, ring: nat)
    requires Inv(s2, sh') && Extends(s, sh, s2, sh')
    ensures var s' := s2.(tables := 0);
      Inv(s', sh') && Extends(s, sh, s', sh')
      && (Confined(s2, sh', root, lo, ring) ==> Confined(s', sh', root, lo, ring))
  {
    hide Walk, Present;
  }

  // ----- a court that is ready to run -----

  /** Where a court's segments, boot block and stack are. */
  datatype Layout = Layout(segments: seq<nat>, boot: nat, stack: nat)

  ghost predicate ImageIn(s: State, sh: Shape, root: nat, image: seq<Byte>, at: seq<nat>) {
    HasSegments(image) && |at| == SegmentCount(image) && Processed(s, sh, root, image, at)
  }

  /** The boot block is readable at BOOT_VA. */
  ghost predicate BootIn(s: State, sh: Shape, root: nat, words: seq<Word>, f: nat, lo: Bound)
    requires |words| <= 512
  {
    Own(s, sh, f, 1, lo) && Holds(s.mem, f, words) && AllMapped(s.mem, root, BOOT_VA / 0x1000, 1, f)
  }

  ghost predicate StackIn(s: State, sh: Shape, root: nat, f: nat, lo: Bound) {
    Own(s, sh, f, STACK_PAGES, lo) && Zeroed(s.mem, f, STACK_PAGES)
      && AllMapped(s.mem, root, STACK_VA / 0x1000, STACK_PAGES, f)
  }

  ghost predicate CourtReady(s: State, sh: Shape, c: Courtlet, image: seq<Byte>, words: seq<Word>, lay: Layout,
                             lo: Bound, ring: nat)
    requires |words| <= 512
  {
    && IsRoot(sh, c.pml4) && Apart(s, sh, c.pml4, lo, ring)
    && ImageIn(s, sh, c.pml4, image, lay.segments) && InImage(image, c.entry)
    && BootIn(s, sh, c.pml4, words, lay.boot, lo)
    && AllMapped(s.mem, c.pml4, RING_VA / 0x1000, 1, ring)
    && StackIn(s, sh, c.pml4, lay.stack, lo) && c.stackTop == STACK_VA + 0x1000 * STACK_PAGES
  }

  /** Everything loaded or mapped stays so while the state is extended. */
  lemma PartsStay(s: State, sh: Shape, s': State, sh': Shape, root: nat, image: seq<Byte>, at: seq<nat>,
                  words: seq<Word>, boot: nat, lo: Bound, ring: nat, stack: nat)
    requires |words| <= 512 && Inv(s, sh) && Extends(s, sh, s', sh') && IsRoot(sh, root)
    ensures ImageIn(s, sh, root, image, at) ==> ImageIn(s', sh', root, image, at)
    ensures Own(s, sh, boot, 1, lo) && Holds(s.mem, boot, words) ==>
      Own(s', sh', boot, 1, lo) && Holds(s'.mem, boot, words)
    ensures BootIn(s, sh, root, words, boot, lo) ==> BootIn(s', sh', root, words, boot, lo)
    ensures AllMapped(s.mem, root, RING_VA / 0x1000, 1, ring) ==> AllMapped(s'.mem, root, RING_VA / 0x1000, 1, ring)
    ensures StackIn(s, sh, root, stack, lo) ==> StackIn(s', sh', root, stack, lo)
  {
    hide Inv, Extends, AllMapped, Processed, At;
    if ImageIn(s, sh, root, image, at) {
      ProcessedStays(s, sh, s', sh', root, image, at);
    }
    if Own(s, sh, boot, 1, lo) && Holds(s.mem, boot, words) {
      OwnStays(s, sh, s', sh', boot, 1, lo);
      HoldsStays(s.mem, s'.mem, boot, words);
    }
    if BootIn(s, sh, root, words, boot, lo) {
      MappedStays(s, sh, s', sh', root, BOOT_VA / 0x1000, 1, boot);
    }
    if AllMapped(s.mem, root, RING_VA / 0x1000, 1, ring) {
      MappedStays(s, sh, s', sh', root, RING_VA / 0x1000, 1, ring);
    }
    if StackIn(s, sh, root, stack, lo) {
      OwnStays(s, sh, s', sh', stack, STACK_PAGES, lo);
      MappedStays(s, sh, s', sh', root, STACK_VA / 0x1000, STACK_PAGES, stack);
    }
  }

  lemma HoldsStays(m: Mem, m': Mem, f: nat, words: seq<Word>)
    requires |words| <= 512 && Holds(m, f, words) && f in m' && m'[f] == m[f]
    ensures Holds(m', f, words)
  {
  }

  /** Work on a new space so far: everything else is kept, the space is apart. */
  ghost predicate Stage(s0: State, sh0: Shape, s: State, sh: Shape, root: nat, low: bool, lo: Bound, ring: nat) {
    Kept(s0, sh0, s, sh, root, low) && Apart(s, sh, root, lo, ring) && ring in s.mem
  }

  lemma StageNext(s0: State, sh0: Shape, s: State, sh: Shape, s': State, sh': Shape, root: nat, low: bool, lo: Bound,
                  ring: nat)
    requires Stage(s0, sh0, s, sh, root, low, lo, ring) && Kept(s, sh, s', sh', root, low)
    requires Apart(s', sh', root, lo, ring)
    requires ring in s'.mem
    ensures Stage(s0, sh0, s', sh', root, low, lo, ring)
  {
    KeptTrans(s0, sh0, s, sh, s', sh', root, low);
  }

  /** Segments are loaded, boot block and stack are set aside. */
  ghost predicate Parts(s: State, sh: Shape, root: nat, image: seq<Byte>, words: seq<Word>, lay: Layout, lo: Bound)
    requires |words| <= 512
  {
    && ImageIn(s, sh, root, image, lay.segments)
    && Own(s, sh, lay.boot, 1, lo) && Holds(s.mem, lay.boot, words)
    && Own(s, sh, lay.stack, STACK_PAGES, lo) && Zeroed(s.mem, lay.stack, STACK_PAGES)
  }

  lemma KeptFacts(s: State, sh: Shape, s': State, sh': Shape, root: nat, low: bool)
    requires Kept(s, sh, s', sh', root, low)
    ensures Inv(s', sh') && Extends(s, sh, s', sh') && IsRoot(sh', root)
  {
  }

  /** The boot block and the stack. */
  method TakeParts(bump: BumpAllocator, mem: PhysMem, image: seq<Byte>, words: seq<Word>, ring: nat, ghost root: nat,
                   ghost at: seq<nat>, ghost s0: State, ghost sh0: Shape, ghost sh: Shape, ghost low: bool,
                   ghost lo: Bound)
    returns (r: Option<(nat, nat)>)
    requires |words| <= 512 && Stage(s0, sh0, Snapshot(mem, bump, 0), sh, root, low, lo, ring)
    requires ImageIn(Snapshot(mem, bump, 0), sh, root, image, at)
    modifies bump, mem
    ensures Stage(s0, sh0, Snapshot(mem, bump, 0), sh, root, low, lo, ring)
    ensures Extends(old(Snapshot(mem, bump, 0)), sh, Snapshot(mem, bump, 0), sh)
    ensures r.Some? ==> Parts(Snapshot(mem, bump, 0), sh, root, image, words, Layout(at, r.value.0, r.value.1), lo)
    ensures r.None? ==> bump.cursor + 0x1000 * STACK_PAGES > bump.end
  {
    hide Inv, Kept, Apart, ImageIn, DataTaken, Holds, Own, Extends;
    ghost var s := Snapshot(mem, bump, 0);
    KeptFacts(s0, sh0, s, sh, root, low);
    ExtendsRefl(s, sh);
    var boot := TakeBlock(bump, mem, words, sh);
    if boot.None? {
      return None;
    }
    ghost var s1 := Snapshot(mem, bump, 0);
    TakenStage(s0, sh0, s, sh, s1, boot.value, 1, root, low, lo, ring);
    PartsStay(s, sh, s1, sh, root, image, at, words, 0, lo, ring, 0);
    var stack := TakePages(bump, mem, STACK_PAGES, sh);
    if stack.None? {
      return None;
    }
    ghost var s2 := Snapshot(mem, bump, 0);
    TakenStage(s0, sh0, s1, sh, s2, stack.value, STACK_PAGES, root, low, lo, ring);
    PartsStay(s1, sh, s2, sh, root, image, at, words, boot.value, lo, ring, 0);
    ExtendsTrans(s, sh, s1, sh, s2, sh);
    r := Some((boot.value, stack.value));
  }

  lemma TakenStage(s0: State, sh0: Shape, s: State, sh: Shape, s1: State, f: nat, n: nat, root: nat, low: bool,
                   lo: Bound, ring: nat)
    requires Stage(s0, sh0, s, sh, root, low, lo, ring) && DataTaken(s, s1, f, n)
    ensures Stage(s0, sh0, s1, sh, root, low, lo, ring) && Own(s1, sh, f, n, lo)
    ensures Inv(s1, sh) && IsRoot(sh, root) && Extends(s, sh, s1, sh)
  {
    KeptFacts(s0, sh0, s, sh, root, low);
    TakenKept(s, sh, s1, f, n, root, lo, ring, low);
    RingBacked(s, s1, f, n, ring);
    hide Inv, Kept, Apart, DataTaken;
    StageNext(s0, sh0, s, sh, s1, sh, root, low, lo, ring);
    KeptFacts(s, sh, s1, sh, root, low);
  }

  lemma RingBacked(s: State, s1: State, f: nat, n: nat, ring: nat)
    requires DataTaken(s, s1, f, n) && ring in s.mem
    ensures ring in s1.mem
  {
  }

  lemma MappableFits(s: State, sh: Shape, f: nat, n: nat, root: nat, lo: Bound, ring: nat)
    requires Inv(s, sh) && Apart(s, sh, root, lo, ring) && Mappable(s, sh, f, n, lo, ring)
    ensures 0x1000 * (f + n) <= s.end
  {
  }

  lemma RingKept(s: State, sh: Shape, s': State, sh': Shape, root: nat, lo: Bound, ring: nat, low: bool)
    requires Kept(s, sh, s', sh', root, low) && Apart(s, sh, root, lo, ring) && ring in s.mem
    ensures ring in s'.mem
  {
  }

  /** Maps one part of the court. */
  method MapPart(bump: BumpAllocator, mem: PhysMem, space: AddressSpace, virt: nat, f: nat, n: nat, ghost s0: State,
                 ghost sh0: Shape, ghost sh: Shape, ghost low: bool, ghost lo: Bound, ghost ring: nat)
    returns (o: Outcome, ghost sh': Shape)
    requires Stage(s0, sh0, Snapshot(mem, bump, 0), sh, space.pml4, low, lo, ring)
    requires Mappable(Snapshot(mem, bump, 0), sh, f, n, lo, ring) && virt / 0x1000 + n <= 0x8_0000_0000
    requires virt % 0x1000 == 0 && virt < 0x8000_0000_0000
    modifies bump, mem
    ensures o.Failed? ==>
      Trouble(old(Snapshot(mem, bump, 0)), Snapshot(mem, bump, 0), space.pml4, virt, 0x1000 * f, 0x1000 * n, o.error)
    ensures Kept(s0, sh0, Snapshot(mem, bump, 0), sh', space.pml4, low)
    ensures Extends(old(Snapshot(mem, bump, 0)), sh, Snapshot(mem, bump, 0), sh')
    ensures o.Done? ==> Stage(s0, sh0, Snapshot(mem, bump, 0), sh', space.pml4, low, lo, ring)
    ensures o.Done? ==> AllMapped(mem.frames, space.pml4, virt / 0x1000, n, f)
  {
    ghost var s := Snapshot(mem, bump, 0);
    hide Inv, Apart, AllMapped, Mappable, Extends, Trouble;
    KeptFacts(s0, sh0, s, sh, space.pml4, low);
    MappableFits(s, sh, f, n, space.pml4, lo, ring);
    o, sh' := MapPagesAt(bump, mem, space, virt, f, n, sh, lo, ring);
    ghost var s' := Snapshot(mem, bump, 0);
    RingKept(s, sh, s', sh', space.pml4, lo, ring, true);
    KeptTrans(s0, sh0, s, sh, s', sh', space.pml4, low);
  }

  /** Boot block, ring or stack could not be mapped. */
  ghost predicate PartTrouble(mid: State, s': State, root: nat, lay: Layout, ring: nat, e: MapError) {
    || Trouble(mid, s', root, BOOT_VA, 0x1000 * lay.boot, 0x1000, e)
    || Trouble(mid, s', root, RING_VA, 0x1000 * ring, 0x1000, e)
    || Trouble(mid, s', root, STACK_VA, 0x1000 * lay.stack, 0x1000 * STACK_PAGES, e)
  }

  lemma PartsKept(s: State, sh: Shape, s': State, sh': Shape, root: nat, image: seq<Byte>, words: seq<Word>,
                  lay: Layout, lo: Bound)
    requires |words| <= 512 && Inv(s, sh) && Extends(s, sh, s', sh') && IsRoot(sh, root)
    requires Parts(s, sh, root, image, words, lay, lo)
    ensures Parts(s', sh', root, image, words, lay, lo)
  {
    hide Inv, Extends, Processed, At, Own, Holds, AllMapped;
    PartsStay(s, sh, s', sh', root, image, lay.segments, words, lay.boot, lo, 0, 0);
    OwnStays(s, sh, s', sh', lay.stack, STACK_PAGES, lo);
  }

  /** Maps boot block, ring and stack. `mid` is where a failed mapping stopped. */
  method MapParts(bump: BumpAllocator, mem: PhysMem, space: AddressSpace, image: seq<Byte>, words: seq<Word>, ring: nat,
                  boot: nat, stack: nat, ghost at: seq<nat>, ghost s0: State, ghost sh0: Shape, ghost sh: Shape,
                  ghost low: bool, ghost lo: Bound)
    returns (o: Outcome, ghost sh': Shape, ghost mid: State, ghost shm: Shape)
    requires |words| <= 512 && Stage(s0, sh0, Snapshot(mem, bump, 0), sh, space.pml4, low, lo, ring)
    requires Parts(Snapshot(mem, bump, 0), sh, space.pml4, image, words, Layout(at, boot, stack), lo)
    modifies bump, mem
    ensures Kept(s0, sh0, mid, shm, space.pml4, low) && Extends(mid, shm, Snapshot(mem, bump, 0), sh')
    ensures Parts(mid, shm, space.pml4, image, words, Layout(at, boot, stack), lo)
    ensures o.Failed? ==> PartTrouble(mid, Snapshot(mem, bump, 0), space.pml4, Layout(at, boot, stack), ring, o.error)
    ensures Kept(s0, sh0, Snapshot(mem, bump, 0), sh', space.pml4, low)
    ensures o.Done? ==>
      && Stage(s0, sh0, Snapshot(mem, bump, 0), sh', space.pml4, low, lo, ring)
      && ImageIn(Snapshot(mem, bump, 0), sh', space.pml4, image, at)
      && BootIn(Snapshot(mem, bump, 0), sh', space.pml4, words, boot, lo)
      && AllMapped(mem.frames, space.pml4, RING_VA / 0x1000, 1, ring)
      && StackIn(Snapshot(mem, bump, 0), sh', space.pml4, stack, lo)
  {
    hide Inv, Apart, Kept, AllMapped, Extends, Parts, ImageIn, BootIn, StackIn, Own, Trouble;
    ghost var root, lay := space.pml4, Layout(at, boot, stack);
    mid, shm := Snapshot(mem, bump, 0), sh;
    KeptFacts(s0, sh0, mid, shm, root, low);
    OwnParts(mid, shm, root, image, words, lay, lo);
    o, sh' := MapPart(bump, mem, space, BOOT_VA, boot, 1, s0, sh0, sh, low, lo, ring);
    if o.Failed? {
      return;
    }
    ghost var s1, sh1 := Snapshot(mem, bump, 0), sh';
    PartsKept(mid, shm, s1, sh1, root, image, words, lay, lo);
    KeptFacts(s0, sh0, s1, sh1, root, low);
    mid, shm := s1, sh1;
    o, sh' := MapPart(bump, mem, space, RING_VA, ring, 1, s0, sh0, sh1, low, lo, ring);
    if o.Failed? {
      return;
    }
    ghost var s2, sh2 := Snapshot(mem, bump, 0), sh';
    PartsKept(s1, sh1, s2, sh2, root, image, words, lay, lo);
    MappedStays(s1, sh1, s2, sh2, root, BOOT_VA / 0x1000, 1, boot);
    KeptFacts(s0, sh0, s2, sh2, root, low);
    OwnParts(s2, sh2, root, image, words, lay, lo);
    mid, shm := s2, sh2;
    o, sh' := MapPart(bump, mem, space, STACK_VA, stack, STACK_PAGES, s0, sh0, sh2, low, lo, ring);
    if o.Failed? {
      return;
    }
    ghost var s3, sh3 := Snapshot(mem, bump, 0), sh';
    PartsKept(s2, sh2, s3, sh3, root, image, words, lay, lo);
    MappedStays(s2, sh2, s3, sh3, root, BOOT_VA / 0x1000, 1, boot);
    MappedStays(s2, sh2, s3, sh3, root, RING_VA / 0x1000, 1, ring);
    PartsMapped(s3, sh3, root, image, words, lay, lo);
  }

  /** The boot block and the stack are the court's own. */
  lemma OwnParts(s: State, sh: Shape, root: nat, image: seq<Byte>, words: seq<Word>, lay: Layout, lo: Bound)
    requires |words| <= 512 && Parts(s, sh, root, image, words, lay, lo)
    ensures Own(s, sh, lay.boot, 1, lo) && Own(s, sh, lay.stack, STACK_PAGES, lo)
  {
  }

  lemma PartsMapped(s: State, sh: Shape, root: nat, image: seq<Byte>, words: seq<Word>, lay: Layout, lo: Bound)
    requires |words| <= 512 && Parts(s, sh, root, image, words, lay, lo)
    requires AllMapped(s.mem, root, BOOT_VA / 0x1000, 1, lay.boot)
    requires AllMapped(s.mem, root, STACK_VA / 0x1000, STACK_PAGES, lay.stack)
    ensures ImageIn(s, sh, root, image, lay.segments) && BootIn(s, sh, root, words, lay.boot, lo)
    ensures StackIn(s, sh, root, lay.stack, lo)
  {
    hide AllMapped, ImageIn, Own;
  }

  /** Where the work on a court got to. */
  datatype Trail = Trail(root: nat, mid: State, shape: Shape, segments: seq<nat>)

  ghost predicate EntryIs(image: seq<Byte>, c: Courtlet) {
    CheckHeader(image).None? && c.entry == EntryOf(image)
  }

  /** Why populating a new space failed at `t`: the image, no page for boot block or stack,
      or boot block, ring or stack could not be mapped. */
  ghost predicate PopulateFails(t: Trail, s': State, image: seq<Byte>, words: seq<Word>, lay: Layout, lo: Bound,
                                ring: nat, e: SpawnError)
    requires |words| <= 512
  {
    match e
    case CloneFailed => false
    case ImageFailed(x) => LoadReports(t.mid, t.shape, s', t.root, image, t.segments, NotLoaded(x))
    case NoPage => s'.cursor + 0x1000 * STACK_PAGES > s'.end
    case MapFailed(x) =>
      && Parts(t.mid, t.shape, t.root, image, words, lay, lo)
      && PartTrouble(t.mid, s', t.root, lay, ring, x)
  }

  /** `t` lies on the way from `s` to `s'`, work on the space it names. */
  ghost predicate Between(s: State, sh: Shape, t: Trail, s': State, sh': Shape, low: bool) {
    Kept(s, sh, t.mid, t.shape, t.root, low) && Extends(t.mid, t.shape, s', sh')
  }

  /** Loads the image and sets up boot block, ring and stack in a new space. */
  method Populate(bump: BumpAllocator, mem: PhysMem, space: AddressSpace, image: seq<Byte>, words: seq<Word>, ring: nat,
                  ghost sh: Shape, ghost lo: Bound)
    returns (r: SpawnResult, ghost sh': Shape, ghost lay: Layout, ghost trail: Trail)
    requires Inv(Snapshot(mem, bump, 0), sh) && IsRoot(sh, space.pml4) && |words| <= 512
    requires Apart(Snapshot(mem, bump, 0), sh, space.pml4, lo, ring) && ring in mem.frames
    modifies bump, mem
    ensures Between(old(Snapshot(mem, bump, 0)), sh, trail, Snapshot(mem, bump, 0), sh', ImageLow(image))
    ensures trail.root == space.pml4
    ensures match r
      case Spawned(c) => EntryIs(image, c)
      case NotSpawned(e) => PopulateFails(trail, Snapshot(mem, bump, 0), image, words, lay, lo, ring, e)
    ensures Kept(old(Snapshot(mem, bump, 0)), sh, Snapshot(mem, bump, 0), sh', space.pml4, ImageLow(image))
    ensures r.Spawned? ==>
      r.court.pml4 == space.pml4 && CourtReady(Snapshot(mem, bump, 0), sh', r.court, image, words, lay, lo, ring)
  {
    hide Inv, Kept, Extends, Apart, BootIn, StackIn, AllMapped, Processed, Parts, ImageLow, InImage, ImageLoaded,
         CheckHeader, StoppedAt, PartTrouble;
    ghost var s0, low, root := Snapshot(mem, bump, 0), ImageLow(image), space.pml4;
    lay := Layout([], 0, 0);
    var loaded;
    ghost var at, mid, shm;
    loaded, sh', at, mid, shm := Load(bump, mem, space, image, sh, true, lo, ring);
    trail := Trail(root, mid, shm, at);
    if loaded.NotLoaded? {
      return NotSpawned(ImageFailed(loaded.error)), sh', lay, trail;
    }
    ghost var s1, sh1 := Snapshot(mem, bump, 0), sh';
    RingKept(s0, sh, s1, sh1, root, lo, ring, low);
    var taken := TakeParts(bump, mem, image, words, ring, root, at, s0, sh, sh1, low, lo);
    ExtendsTrans(mid, shm, s1, sh1, Snapshot(mem, bump, 0), sh1);
    if taken.None? {
      return NotSpawned(NoPage), sh', lay, trail;
    }
    var (boot, stack) := taken.value;
    lay := Layout(at, boot, stack);
    var o;
    o, sh', mid, shm := MapParts(bump, mem, space, image, words, ring, boot, stack, at, s0, sh, sh1, low, lo);
    trail := Trail(root, mid, shm, at);
    if o.Failed? {
      return NotSpawned(MapFailed(o.error)), sh', lay, trail;
    }
    KeptFacts(s0, sh, Snapshot(mem, bump, 0), sh', root, low);
    r := Spawned(Courtlet(space.pml4, loaded.entry, STACK_VA + 0x1000 * STACK_PAGES));
  }

  // ----- spawning -----

  /** The lower half of every root translates as before. */
  ghost predicate LowerSame(m: Mem, m': Mem, sh: Shape) {
    forall r, v | IsRoot(sh, r) && 0 <= v < 0x8_0000_0000 :: Translate(m', r, v) == Translate(m, r, v)
  }

  ghost predicate RootWordsSame(m: Mem, m': Mem, sh: Shape) {
    forall r | IsRoot(sh, r) && r in m :: r in m' && m'[r] == m[r]
  }

  /** A new clone is apart: if its lower half is empty it reaches nothing yet. */
  lemma CloneApart(s: State, sh: Shape, s1: State, sh1: Shape, root: nat, ring: nat, empty: bool)
    requires Inv(s1, sh1) && Extends(s, sh, s1, sh1) && IsRoot(sh1, root)
    requires empty ==> AddressSpaces.LowEmpty(s1.mem, root)
    requires 0x1000 * ring < s.cursor && ring !in sh
    ensures Apart(s1, sh1, root, Bound(s.cursor, empty), ring)
  {
    hide Present, Huge, PhysFrame;
    forall v | empty && 0 <= v < 0x8_0000_0000
      ensures Translate(s1.mem, root, v).None?
    {
      UpperIndex(v);
    }
  }

  /** A clone was made and populated: what that does to the roots there were. */
  lemma PopulatedKeeps(s: State, sh: Shape, kernel: nat, s1: State, sh1: Shape, s2: State, sh2: Shape, root: nat,
                       low: bool)
    requires NewClone(s, sh, kernel, s1, sh1, root) && Kept(s1, sh1, s2, sh2, root, low)
    ensures SpawnKeeps(s, sh, s2, sh2, AddressSpaces.LowEmpty(s.mem, kernel), low)
  {
    hide Inv, Walk, SharedSlot, SharingSame, Present, AddressSpaces.LowPrivate;
    KeptPrivate(s1, sh1, s2, sh2, root, low);
    ExtendsTrans(s, sh, s1, sh1, s2, sh2);
    forall r, v | IsRoot(sh, r) && 0 <= v < 0x10_0000_0000
      ensures Translate(s1.mem, r, v) == Translate(s.mem, r, v)
      ensures AddressSpaces.LowEmpty(s.mem, kernel) && v < 0x8_0000_0000 ==> !SharedSlot(s1.mem, root, r, Index(v, 4))
      ensures IsRoot(sh1, r)
    {
      assert Walk(s1.mem, r, sh[r].level, v) == Walk(s.mem, r, sh[r].level, v);
      UpperIndex(v);
      assert IsRoot(sh1, r);
    }
  }

  lemma RingBackedAfter(s: State, sh: Shape, s1: State, sh1: Shape, ring: nat)
    requires Extends(s, sh, s1, sh1) && ring in s.mem && ring !in sh && 0x1000 * ring < s.cursor
    ensures ring in s1.mem
  {
  }

  /** What a spawn leaves behind: the roots' own words, their lower halves if the kernel's
      was empty, their upper halves if the image ends at or below 2^47 (`low`). */
  ghost predicate SpawnKeeps(s: State, sh: Shape, s': State, sh': Shape, empty: bool, low: bool) {
    && Inv(s', sh') && Extends(s, sh, s', sh') && RootWordsSame(s.mem, s'.mem, sh)
    && (empty ==> LowerSame(s.mem, s'.mem, sh) && PrivateStays(s.mem, sh, s'.mem, sh'))
    && (low ==> UpperSame(s.mem, s'.mem, sh))
  }

  /** Lower halves that were private are private. */
  ghost predicate PrivateStays(m: Mem, sh: Shape, m': Mem, sh': Shape) {
    AddressSpaces.LowPrivate(m, sh) ==> AddressSpaces.LowPrivate(m', sh')
  }

  /** Work on one space makes no slot shared. */
  lemma KeptPrivate(s: State, sh: Shape, s': State, sh': Shape, root: nat, low: bool)
    requires Inv(s, sh) && IsRoot(sh, root) && Kept(s, sh, s', sh', root, low)
    ensures PrivateStays(s.mem, sh, s'.mem, sh')
  {
    hide SharedSlot, OtherRoots, SharingSame, WellShaped, Walk;
    if AddressSpaces.LowPrivate(s.mem, sh) {
      forall a, b, i | IsRoot(sh', a) && IsRoot(sh', b) && a != b && 0 <= i < 256
        ensures !SharedSlot(s'.mem, a, b, i)
      {
        AddressSpaces.SharingKept(s.mem, s'.mem, sh, root, a, b, i);
      }
    }
  }

  datatype BootInfo = BootInfo(capId: Word, rights: Word, courtId: Word)

  /** The boot block as the court image reads it. */
  function BootBlock(info: BootInfo): (w: seq<Word>)
    ensures |w| == 5
  {
    [BOOT_MAGIC, info.capId, info.rights, RING_VA, info.courtId]
  }

  /** Why spawning a court ended as it did. A failure other than that of the clone happened
      at `t`, on the way from the state right after the clone. */
  ghost predicate SpawnReports(s: State, sh: Shape, kernel: nat, t: Trail, s': State, sh': Shape, image: seq<Byte>,
                               info: BootInfo, lay: Layout, ring: nat, r: SpawnResult) {
    match r
    case Spawned(c) => EntryIs(image, c)
    case NotSpawned(CloneFailed) => s' == s && Exhausted(s')
    case NotSpawned(e) =>
      var (s1, root) := AddressSpaces.CloneKernel(s, kernel);
      && root == Ok(t.root)
      && Between(s1.(tables := 0), sh[t.root := Node(4, 0, t.root)], t, s', sh', ImageLow(image))
      && PopulateFails(t, s', image, BootBlock(info), lay, Bound(s.cursor, AddressSpaces.LowEmpty(s.mem, kernel)),
           ring, e)
  }

  /** Clones the kernel root and populates the clone. */
  method Spawn(bump: BumpAllocator, mem: PhysMem, kernel: nat, image: seq<Byte>, info: BootInfo, ring: nat,
               ghost sh: Shape)
    returns (r: SpawnResult, ghost sh': Shape, ghost lay: Layout, ghost trail: Trail)
    requires Inv(Snapshot(mem, bump, 0), sh) && IsRoot(sh, kernel)
    requires ring in mem.frames && ring !in sh && 0x1000 * ring < bump.cursor
    modifies bump, mem
    ensures SpawnReports(old(Snapshot(mem, bump, 0)), sh, kernel, trail, Snapshot(mem, bump, 0), sh', image, info, lay,
      ring, r)
    ensures SpawnKeeps(old(Snapshot(mem, bump, 0)), sh, Snapshot(mem, bump, 0), sh',
      old(AddressSpaces.LowEmpty(mem.frames, kernel)), ImageLow(image))
    ensures r.Spawned? ==> r.court.pml4 !in sh
    ensures r.Spawned? ==> CourtReady(Snapshot(mem, bump, 0), sh', r.court, image, BootBlock(info), lay,
                                      Bound(old(bump.cursor), old(AddressSpaces.LowEmpty(mem.frames, kernel))), ring)
  {
    ghost var s := Snapshot(mem, bump, 0);
    hide Inv, Extends, Apart, Kept, CourtReady, AddressSpaces.CloneKernel, AddressSpaces.LowEmpty, NewClone, SpawnKeeps,
         ImageLow;
    hide PopulateFails, Between, EntryIs, SpawnReports, BootBlock;
    ghost var empty := AddressSpaces.LowEmpty(mem.frames, kernel);
    lay, trail := Layout([], 0, 0), Trail(0, s, sh, []);
    var space;
    ghost var cloned;
    space, cloned := AddressSpace.CloneKernel(bump, mem, kernel);
    ghost var s1 := Snapshot(mem, bump, 0);
    if space.None? {
      sh' := sh;
      CloneRefused(s, sh, kernel, ring, ImageLow(image), trail, image, info, lay);
      return NotSpawned(CloneFailed), sh', lay, trail;
    }
    ghost var root := space.value.pml4;
    ghost var sh1 := sh[root := Node(4, 0, root)];
    CloneMade(s, sh, kernel, s1, root, ring);
    r, sh', lay, trail := Populate(bump, mem, space.value, image, BootBlock(info), ring, sh1, Bound(s.cursor, empty));
    Reported(s, sh, kernel, trail, Snapshot(mem, bump, 0), sh', image, info, lay, ring, r);
    PopulatedKeeps(s, sh, kernel, s1, sh1, Snapshot(mem, bump, 0), sh', root, ImageLow(image));
  }

  /** `root` in `s1` is a new clone of `kernel`, ready to be populated. */
  ghost predicate NewClone(s: State, sh: Shape, kernel: nat, s1: State, sh1: Shape, root: nat) {
    && SameWalks(s.mem, s1.mem, sh) && Extends(s, sh, s1, sh1) && root !in sh && IsRoot(sh, kernel)
    && (forall t | t in sh :: t in s1.mem && (t in s.mem ==> s1.mem[t] == s.mem[t]))
    && AddressSpaces.CloneOf(s.mem, kernel, s1.mem, sh, root)
    && (AddressSpaces.LowEmpty(s.mem, kernel) ==> PrivateStays(s.mem, sh, s1.mem, sh1))
    && Inv(s1, sh1) && IsRoot(sh1, root)
  }

  lemma CloneMade(s: State, sh: Shape, kernel: nat, s1: State, root: nat, ring: nat)
    requires Inv(s, sh) && IsRoot(sh, kernel) && ring in s.mem && ring !in sh && 0x1000 * ring < s.cursor
    requires var (t, r) := AddressSpaces.CloneKernel(s, kernel); s1 == t.(tables := 0) && r == Ok(root)
    ensures var sh1 := sh[root := Node(4, 0, root)];
      && NewClone(s, sh, kernel, s1, sh1, root) && Inv(s1, sh1) && IsRoot(sh1, root) && root !in sh && ring in s1.mem
      && Apart(s1, sh1, root, Bound(s.cursor, AddressSpaces.LowEmpty(s.mem, kernel)), ring)
  {
    hide Inv, Extends, Apart, AddressSpaces.CloneKernel, AddressSpaces.LowEmpty, AddressSpaces.CloneOf, SameWalks,
         AddressSpaces.LowPrivate;
    var sh1 := AddressSpaces.CloneOk(s, sh, kernel);
    var t := AddressSpaces.CloneKernel(s, kernel).0;
    RecountKept(s, sh, t, sh1, 0, Bound(0, false), 0);
    CloneLow(s.mem, kernel, s1.mem, sh, root);
    CloneApart(s, sh, s1, sh1, root, ring, AddressSpaces.LowEmpty(s.mem, kernel));
    RingBackedAfter(s, sh, s1, sh1, ring);
  }

  lemma CloneRefused(s: State, sh: Shape, kernel: nat, ring: nat, low: bool, t: Trail, image: seq<Byte>, info: BootInfo,
                     lay: Layout)
    requires Inv(s, sh) && IsRoot(sh, kernel) && AddressSpaces.CloneKernel(s, kernel).1.Err?
    ensures AddressSpaces.CloneKernel(s, kernel).0 == s
    ensures SpawnKeeps(s, sh, s, sh, AddressSpaces.LowEmpty(s.mem, kernel), low)
    ensures SpawnReports(s, sh, kernel, t, s, sh, image, info, lay, ring, NotSpawned(CloneFailed))
  {
    hide Inv, AddressSpaces.CloneKernel, SpawnKeeps;
    var sh1 := AddressSpaces.CloneOk(s, sh, kernel);
    KeepsRefl(s, sh, AddressSpaces.LowEmpty(s.mem, kernel), low);
  }

  lemma Reported(s: State, sh: Shape, kernel: nat, t: Trail, s': State, sh': Shape, image: seq<Byte>, info: BootInfo,
                 lay: Layout, ring: nat, r: SpawnResult)
    requires match r
      case Spawned(c) => EntryIs(image, c)
      case NotSpawned(e) =>
        PopulateFails(t, s', image, BootBlock(info), lay, Bound(s.cursor, AddressSpaces.LowEmpty(s.mem, kernel)),
          ring, e)
    requires var (s1, root) := AddressSpaces.CloneKernel(s, kernel);
      root == Ok(t.root) && Between(s1.(tables := 0), sh[t.root := Node(4, 0, t.root)], t, s', sh', ImageLow(image))
    ensures SpawnReports(s, sh, kernel, t, s', sh', image, info, lay, ring, r)
  {
    hide AddressSpaces.CloneKernel, Between, LoadReports, Parts, PartTrouble, CheckHeader, AddressSpaces.LowEmpty,
         ImageLow;
  }

  lemma CloneLow(m: Mem, kernel: nat, m': Mem, sh: Shape, root: nat)
    requires AddressSpaces.CloneOf(m, kernel, m', sh, root)
    ensures AddressSpaces.LowEmpty(m, kernel) ==> AddressSpaces.LowEmpty(m', root)
  {
  }

  lemma NotCloned(s: State, sh: Shape, s1: State, sh1: Shape, empty: bool, low: bool)
    requires Inv(s1, sh1) && Extends(s, sh, s1, sh1) && SameWalks(s.mem, s1.mem, sh) && SameRoots(sh, sh1)
    requires forall t | t in sh :: t in s.mem && t in s1.mem && s1.mem[t] == s.mem[t]
    ensures SpawnKeeps(s, sh, s1, sh1, empty, low)
  {
    hide Inv, Walk, PrivateStays, EntriesPersist;
    PrivateSame(s.mem, sh, s1.mem, sh1);
    forall r, v | IsRoot(sh, r) && 0 <= v < 0x10_0000_0000
      ensures Translate(s1.mem, r, v) == Translate(s.mem, r, v)
    {
      assert Walk(s1.mem, r, sh[r].level, v) == Walk(s.mem, r, sh[r].level, v);
    }
  }

  lemma PrivateSame(m: Mem, sh: Shape, m': Mem, sh': Shape)
    requires SameRoots(sh, sh') && forall t | t in sh :: t in m && t in m' && m'[t] == m[t]
    ensures PrivateStays(m, sh, m', sh')
  {
    if AddressSpaces.LowPrivate(m, sh) {
      forall a, b, i | IsRoot(sh', a) && IsRoot(sh', b) && a != b && 0 <= i < 256
        ensures !SharedSlot(m', a, b, i)
      {
        assert IsRoot(sh, a) && IsRoot(sh, b) && !SharedSlot(m, a, b, i);
      }
    }
  }

  /** A court stays ready while another one is spawned. */
  lemma ReadyStays(s: State, sh: Shape, s': State, sh': Shape, c: Courtlet, image: seq<Byte>, words: seq<Word>,
                   lay: Layout, lo: Bound, ring: nat, low: bool)
    requires |words| <= 512 && Inv(s, sh) && SpawnKeeps(s, sh, s', sh', lo.empty, low)
    requires CourtReady(s, sh, c, image, words, lay, lo, ring)
    ensures CourtReady(s', sh', c, image, words, lay, lo, ring)
  {
    hide Inv, AllMapped, ImageIn, BootIn, StackIn, InImage;
    PartsStay(s, sh, s', sh', c.pml4, image, lay.segments, words, lay.boot, lo, ring, lay.stack);
    ConfinedStays(s, sh, s', sh', c.pml4, lo, ring);
    RingStays(s, sh, s', sh', ring);
  }

  lemma ConfinedStays(s: State, sh: Shape, s': State, sh': Shape, root: nat, lo: Bound, ring: nat)
    requires Extends(s, sh, s', sh') && (lo.empty ==> LowerSame(s.mem, s'.mem, sh)) && IsRoot(sh, root)
    requires Confined(s, sh, root, lo, ring) && 0x1000 * ring < s.cursor
    ensures Confined(s', sh', root, lo, ring)
  {
    hide Walk, EntriesPersist;
    forall v | lo.empty && 0 <= v < 0x8_0000_0000 && Translate(s'.mem, root, v).Some?
      ensures var g := Translate(s'.mem, root, v).value;
        g in s'.mem && g !in sh' && (g == ring || lo.start <= 0x1000 * g < s'.cursor)
    {
      assert Translate(s'.mem, root, v) == Translate(s.mem, root, v);
    }
  }

  lemma RingAt(m: Mem, root: nat, ring: nat)
    requires AllMapped(m, root, RING_VA / 0x1000, 1, ring)
    ensures Translate(m, root, RING_VA / 0x1000) == Some(ring)
  {
    FirstInRange(RING_VA / 0x1000, 1);
    OffsetIs(RING_VA / 0x1000, RING_VA / 0x1000);
  }

  /** Taking data frames is seen by no root. */
  lemma DataKeeps(s: State, sh: Shape, s1: State, f: nat, n: nat)
    requires Inv(s, sh) && DataTaken(s, s1, f, n)
    ensures SpawnKeeps(s, sh, s1, sh, true, true)
  {
    DataTakenOk(s, sh, s1, f, n);
    TakenRoots(s, sh, s1, f, n);
    NotCloned(s, sh, s1, sh, true, true);
  }

  lemma KeepsTrans(s: State, sh: Shape, s1: State, sh1: Shape, s2: State, sh2: Shape, empty: bool, low1: bool,
                   low2: bool)
    requires SpawnKeeps(s, sh, s1, sh1, empty, low1) && SpawnKeeps(s1, sh1, s2, sh2, empty, low2)
    ensures SpawnKeeps(s, sh, s2, sh2, empty, low1 && low2)
  {
    hide Inv, Walk;
    ExtendsTrans(s, sh, s1, sh1, s2, sh2);
    assert forall r | IsRoot(sh, r) :: IsRoot(sh1, r);
  }

  /** The kernel root is as it was. */
  lemma KernelStays(s: State, sh: Shape, s': State, sh': Shape, kernel: nat, empty: bool, low: bool)
    requires Inv(s, sh) && SpawnKeeps(s, sh, s', sh', empty, low) && IsRoot(sh, kernel)
    ensures IsRoot(sh', kernel) && (AddressSpaces.LowEmpty(s'.mem, kernel) <==> AddressSpaces.LowEmpty(s.mem, kernel))
  {
    assert kernel in s.mem && s'.mem[kernel] == s.mem[kernel];
  }

  lemma KeepsLess(s: State, sh: Shape, s': State, sh': Shape, empty: bool, low: bool, less: bool)
    requires SpawnKeeps(s, sh, s', sh', empty, low) && (less ==> low)
    ensures SpawnKeeps(s, sh, s', sh', empty, less)
  {
    hide Inv, Extends, RootWordsSame, LowerSame, UpperSame;
  }

  lemma KeepsRefl(s: State, sh: Shape, empty: bool, low: bool)
    requires Inv(s, sh)
    ensures SpawnKeeps(s, sh, s, sh, empty, low)
  {
  }
}
