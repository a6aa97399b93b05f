/** The boot path as a whole: memory bring-up, kernel stacks, then the two courts. */
module Boot {
  import opened MachineWords
  import opened PageTables
  import opened PageMapper
  import opened MapperProofs
  import opened MapTheorems
  import opened PhysBytes
  import opened KernelMemory
  import opened KernelSpace
  import opened ImageFormat
  import opened CourtImage
  import opened CourtLoader
  import opened Courtlets
  import opened CourtPair
  import AddressSpaces

  const STACK_PAGES := 16
  const MAX_CPUS := 8

  datatype StackResult = Stacks(tops: seq<Word>) | BadCpuCount | NoStackPages

  datatype BootResult = NoMemory | NoTables(error: BuildError) | NoStacks(result: StackResult) | Booted(kernel: nat,
    tops: seq<Word>, demo: DemoResult)

  // ----- kernel stacks -----

  lemma {:induction false} ZeroFramesSplit(m: Mem, f: nat, a: nat, b: nat)
    ensures ZeroFrames(ZeroFrames(m, f, a), f + a, b) == ZeroFrames(m, f, a + b)
    decreases a
  {
    if a > 0 {
      ZeroFramesSplit(m[f := ZeroFrame()], f + 1, a - 1, b);
    }
  }

  /** `s` once `n` frames from `f` on were taken and zeroed. */
  ghost function WithZeroed(s: State, f: nat, n: nat): State
    requires s.cursor + 0x1000 * n <= s.end
  {
    s.(mem := ZeroFrames(s.mem, f, n), cursor := s.cursor + 0x1000 * n)
  }

  lemma ZeroedMore(s: State, f: nat, a: nat, b: nat)
    requires s.cursor + 0x1000 * (a + b) <= s.end
    ensures WithZeroed(s, f, 0) == s
    ensures WithZeroed(WithZeroed(s, f, a), f + a, b) == WithZeroed(s, f, a + b)
  {
    assert ZeroFrames(s.mem, f, 0) == s.mem;
    hide ZeroFrames;
    ZeroFramesSplit(s.mem, f, a, b);
  }

  /** Frames `f` up to `f + n` are zeroed memory behind the cursor and no page tables. */
  ghost predicate ZeroedIn(s: State, sh: Shape, f: nat, n: nat) {
    0x1000 * (f + n) <= s.cursor && forall k | f <= k < f + n :: k in s.mem && k !in sh && s.mem[k] == ZeroFrame()
  }

  /** Taking zeroed frames is seen by no root. */
  lemma ZeroedTaken(s: State, sh: Shape, s1: State, f: nat, n: nat)
    requires Inv(s, sh) && 0x1000 * f == s.cursor && s.cursor + 0x1000 * n <= s.end
    requires s1 == WithZeroed(s, f, n)
    ensures Inv(s1, sh) && SpawnKeeps(s, sh, s1, sh, true, true) && ZeroedIn(s1, sh, f, n)
  {
    hide Inv, ZeroFrames, Extends, SpawnKeeps, SameWalks, ZeroFrame;
    TakenZeroed(s, s1, f, n);
    ZeroFramesOk(s.mem, f, n);
    hide DataTaken;
    DataTakenOk(s, sh, s1, f, n);
    DataKeeps(s, sh, s1, f, n);
  }

  lemma ZeroedStays(s: State, sh: Shape, s': State, sh': Shape, f: nat, n: nat)
    requires ZeroedIn(s, sh, f, n) && Extends(s, sh, s', sh')
    ensures ZeroedIn(s', sh', f, n)
  {
    hide EntriesPersist, ZeroFrame;
  }

  /** Takes stack number `i`, the ones before it lying behind `s`. */
  method TakeStack(bump: BumpAllocator, mem: PhysMem, ghost s: State, ghost f: nat, i: nat, ghost sh: Shape)
    returns (first: Option<nat>)
    requires Inv(s, sh) && 0x1000 * f == s.cursor && s.cursor + 0x1000 * (STACK_PAGES * i) <= s.end
    requires Snapshot(mem, bump, 0) == WithZeroed(s, f, STACK_PAGES * i)
    modifies bump, mem
    ensures first.Some? <==> s.cursor + 0x1000 * (STACK_PAGES * (i + 1)) <= s.end
    ensures first.Some? ==>
      first.value == f + STACK_PAGES * i && Snapshot(mem, bump, 0) == WithZeroed(s, f, STACK_PAGES * (i + 1))
    ensures first.None? ==> Snapshot(mem, bump, 0) == old(Snapshot(mem, bump, 0))
  {
    hide Inv, ZeroFrames, SpawnKeeps, ZeroedIn;
    ZeroedTaken(s, sh, Snapshot(mem, bump, 0), f, STACK_PAGES * i);
    first := TakeZeroed(bump, mem, STACK_PAGES, sh);
    if first.Some? {
      ZeroedMore(s, f, STACK_PAGES * i, STACK_PAGES);
    }
  }

  /** The top of the stack whose pages begin at physical address `phys`. */
  function StackTop(hhdm: Word, phys: nat): (top: Word)
    ensures top % 16 == 0
    ensures var virt := HhdmVirt(hhdm, phys);
      virt + 0x1_0000 < 0x1_0000_0000_0000_0000 ==> virt + 0xfff0 < top <= virt + 0x1_0000
  {
    SaturatingAdd(HhdmVirt(hhdm, phys), 0x1000 * STACK_PAGES) / 16 * 16
  }

  /** One zeroed stack for each processor, side by side and none of them a page table:
      exactly when the number of processors is in range and there is room for them. */
  method TakeStacks(bump: BumpAllocator, mem: PhysMem, ncpu: nat, ghost sh: Shape) returns (r: StackResult)
    requires Inv(Snapshot(mem, bump, 0), sh)
    modifies bump, mem
    ensures r.BadCpuCount? <==> ncpu == 0 || ncpu > MAX_CPUS
    ensures !r.BadCpuCount? ==> (r.Stacks? <==> old(bump.cursor) + 0x1000 * STACK_PAGES * ncpu <= bump.end)
    ensures r.Stacks? ==> |r.tops| == ncpu && forall i | 0 <= i < ncpu ::
      r.tops[i] == StackTop(bump.hhdm, old(bump.cursor) + 0x1000 * STACK_PAGES * i)
    ensures r.Stacks? ==> ZeroedIn(Snapshot(mem, bump, 0), sh, old(bump.cursor) / 0x1000, STACK_PAGES * ncpu)
    ensures r.Stacks? ==>
      Snapshot(mem, bump, 0) == WithZeroed(old(Snapshot(mem, bump, 0)), old(bump.cursor) / 0x1000, STACK_PAGES * ncpu)
    ensures SpawnKeeps(old(Snapshot(mem, bump, 0)), sh, Snapshot(mem, bump, 0), sh, true, true)
  {
    ghost var s := Snapshot(mem, bump, 0);
    InvCursor(s, sh);
    hide Inv, ZeroFrames, SpawnKeeps, ZeroedIn, WithZeroed, StackTop;
    ghost var f: nat := s.cursor / 0x1000;
    KeepsRefl(s, sh, true, true);
    if ncpu == 0 || ncpu > MAX_CPUS {
      return BadCpuCount;
    }
    var tops: seq<Word> := [];
    ZeroedMore(s, f, 0, 0);
    for i := 0 to ncpu
      invariant |tops| == i && s.cursor + 0x1000 * (STACK_PAGES * i) <= s.end
      invariant Snapshot(mem, bump, 0) == WithZeroed(s, f, STACK_PAGES * i)
      invariant forall j | 0 <= j < i :: tops[j] == StackTop(bump.hhdm, s.cursor + 0x1000 * STACK_PAGES * j)
    {
      var first := TakeStack(bump, mem, s, f, i, sh);
      if first.None? {
        ZeroedTaken(s, sh, Snapshot(mem, bump, 0), f, STACK_PAGES * i);
        return NoStackPages;
      }
      tops := tops + [StackTop(bump.hhdm, 0x1000 * first.value)];
    }
    ZeroedTaken(s, sh, Snapshot(mem, bump, 0), f, STACK_PAGES * ncpu);
    r := Stacks(tops);
  }

  // ----- the boot path -----

  /** Every byte of the allocator's region is in the direct map of `root`. */
  ghost predicate RegionReachable(m: Mem, root: nat, hhdm: Word, e: MemmapEntry) {
    forall pa: nat | InRegion(e, pa) :: TranslateAddr(m, root, HhdmVirt(hhdm, pa)) == Some(pa)
  }

  lemma ReachableStays(s: State, sh: Shape, s': State, sh': Shape, root: nat, hhdm: Word, e: MemmapEntry)
    requires Inv(s, sh) && Extends(s, sh, s', sh') && IsRoot(sh, root) && RegionReachable(s.mem, root, hhdm, e)
    ensures RegionReachable(s'.mem, root, hhdm, e)
  {
    hide Inv, Extends, Walk, PageOf, InRegion, HhdmVirt;
    forall pa: nat | InRegion(e, pa)
      ensures TranslateAddr(s'.mem, root, HhdmVirt(hhdm, pa)) == Some(pa)
    {
      assert TranslateAddr(s.mem, root, HhdmVirt(hhdm, pa)) == Some(pa);
      TranslationsPersist(s, sh, s', sh', root, PageOf(HhdmVirt(hhdm, pa)));
    }
  }

  /** What went before: the region, the build and the state it left, the two courts'
      layouts, where the frames of the second begin, how their start went, and the state
      at the end. */
  datatype Log = Log(region: nat, built: BuildResult, up: State, shape: Shape, appLay: Layout, netLay: Layout, mid: nat,
    story: Story, end: State)

  /** The build that `log` speaks of is the one from this memory map. */
  ghost predicate BroughtUp(m: Mem, hhdm: Word, physBase: nat, virtBase: nat, kstart: Word, kend: Word,
                            entries: seq<MemmapEntry>, log: Log) {
    && IsBest(entries, log.region)
    && RegionStart(entries[log.region]) + MIN_REGION <= entries[log.region].base + entries[log.region].length
    && BuildIs(Probed(m, entries[log.region]), log.up, log.built, hhdm, physBase, virtBase, kstart, kend, entries)
    && (log.built.Built? ==> Inv(log.up, log.shape) && OnlyRoot(log.shape, log.built.pml4))
  }

  /** There is room for the stacks of `ncpu` processors. */
  ghost predicate HasStacks(s: State, ncpu: nat) {
    1 <= ncpu <= MAX_CPUS && s.cursor + 0x1000 * (STACK_PAGES * ncpu) <= s.end
  }

  /** `s` with the stacks of `ncpu` processors taken. */
  ghost function AfterStacks(s: State, ncpu: nat): State
    requires HasStacks(s, ncpu)
  {
    WithZeroed(s, s.cursor / 0x1000, STACK_PAGES * ncpu)
  }

  /** No page of the lower half of `root` leads to a page table or one of the frames from
      `f` up to `f + n`. */
  ghost predicate KeptOut(m: Mem, sh: Shape, root: nat, f: nat, n: nat) {
    forall v | 0 <= v < 0x8_0000_0000 && Translate(m, root, v).Some? ::
      var g := Translate(m, root, v).value; g !in sh && !(f <= g < f + n)
  }

  /** Later calls that map into the lower halves of some roots change no translation of
      any other root. */
  ghost predicate StaysApart(s: State, sh: Shape) {
    forall calls: seq<AddressSpaces.Call>, r: nat, v: nat |
      IsRoot(sh, r) && v < 0x10_0000_0000
        && (forall i | 0 <= i < |calls| :: AddressSpaces.LowerCall(sh, calls[i]) && calls[i].root != r) ::
      Translate(AddressSpaces.RunCalls(s, calls).mem, r, v) == Translate(s.mem, r, v)
  }

  lemma PrivateApart(s: State, sh: Shape)
    requires Inv(s, sh) && AddressSpaces.LowPrivate(s.mem, sh)
    ensures StaysApart(s, sh)
  {
    hide Inv, AddressSpaces.LowPrivate, AddressSpaces.RunCalls, AddressSpaces.LowerCall, Walk;
    forall calls: seq<AddressSpaces.Call>, r: nat, v: nat |
      IsRoot(sh, r) && v < 0x10_0000_0000
        && (forall i | 0 <= i < |calls| :: AddressSpaces.LowerCall(sh, calls[i]) && calls[i].root != r)
      ensures Translate(AddressSpaces.RunCalls(s, calls).mem, r, v) == Translate(s.mem, r, v)
    {
      AddressSpaces.CallsIsolated(s, sh, calls, r, v);
    }
  }

  /** A court whose bound lies behind the stacks reaches none of them. */
  lemma BoundKeepsOut(s: State, sh: Shape, c: Courtlet, image: seq<Byte>, words: seq<Word>, lay: Layout, lo: Bound,
                      ring: nat, f: nat, n: nat)
    requires |words| <= 512 && CourtReady(s, sh, c, image, words, lay, lo, ring) && lo.empty && f + n <= ring
    requires 0x1000 * (f + n) <= lo.start
    ensures KeptOut(s.mem, sh, c.pml4, f, n)
  {
    hide Walk, ImageIn, BootIn, StackIn, InImage;
  }

  lemma OneRootPrivate(m: Mem, sh: Shape, root: nat)
    requires OnlyRoot(sh, root)
    ensures AddressSpaces.LowPrivate(m, sh)
  {
  }

  /** Both courts keep out of page tables and stacks. */
  lemma BothKeptOut(s: State, sh: Shape, app: Courtlet, net: Courtlet, appImage: seq<Byte>, netImage: seq<Byte>,
                    appInfo: BootInfo, netInfo: BootInfo, appLay: Layout, netLay: Layout, lo: Bound, mid: Bound,
                    ring: nat, f: nat, n: nat)
    requires BothReady(s, sh, app, net, appImage, netImage, appInfo, netInfo, appLay, netLay, lo, mid, ring)
    requires lo.empty && mid.empty && lo.start <= mid.start && f + n <= ring && 0x1000 * (f + n) <= lo.start
    ensures KeptOut(s.mem, sh, app.pml4, f, n) && KeptOut(s.mem, sh, net.pml4, f, n)
  {
    hide CourtReady, KeptOut;
    BoundKeepsOut(s, sh, app, appImage, BootBlock(appInfo), appLay, lo, ring, f, n);
    BoundKeepsOut(s, sh, net, netImage, BootBlock(netInfo), netLay, mid, ring, f, n);
  }

  lemma PrivateKept(s: State, sh: Shape, s': State, sh': Shape, low: bool)
    requires SpawnKeeps(s, sh, s', sh', true, low) && AddressSpaces.LowPrivate(s.mem, sh)
    ensures AddressSpaces.LowPrivate(s'.mem, sh')
  {
  }

  /** The stacks are taken and untouched, and the allocator's region is in the direct map. */
  ghost predicate Settled(log: Log, sh: Shape, hhdm: Word, ncpu: nat, tops: seq<Word>, e: MemmapEntry) {
    && log.built.Built? && HasStacks(log.up, ncpu) && |tops| == ncpu
    && (forall i | 0 <= i < ncpu :: tops[i] == StackTop(hhdm, log.up.cursor + 0x1000 * STACK_PAGES * i))
    && Inv(log.end, sh) && IsRoot(sh, log.built.pml4) && RegionReachable(log.end.mem, log.built.pml4, hhdm, e)
    && ZeroedIn(log.end, sh, log.up.cursor / 0x1000, STACK_PAGES * ncpu)
  }

  /** The courts were started from where the stacks were taken: both are ready, or there is
      a reason why not. */
  ghost predicate Started(log: Log, sh: Shape, ncpu: nat, demo: DemoResult, appImage: seq<Byte>, netImage: seq<Byte>,
                          appInfo: BootInfo, netInfo: BootInfo) {
    && log.built.Built? && HasStacks(log.up, ncpu)
    && var (s1, kernel) := (AfterStacks(log.up, ncpu), log.built.pml4);
    match demo
    case Stopped(e) => StartFails(s1, log.shape, kernel, log.story, log.end, sh, appImage, netImage, appInfo,
      netInfo, e)
    case Running(app, net, ring) =>
      var lo := FirstBound(s1, kernel);
      && lo.start <= log.mid <= log.end.cursor && RingIn(log.end, sh, ring)
      && BothReady(log.end, sh, app, net, appImage, netImage, appInfo, netInfo, log.appLay, log.netLay, lo,
           Bound(log.mid, lo.empty), ring)
  }

  /** No space disturbs another later on; running courts share the ring alone and reach
      neither page tables nor stacks. */
  ghost predicate Secluded(log: Log, sh: Shape, ncpu: nat, demo: DemoResult) {
    && StaysApart(log.end, sh)
    && (demo.Running? ==>
      && ShareOnlyRing(log.end.mem, demo.app.pml4, demo.net.pml4, demo.ring)
      && KeptOut(log.end.mem, sh, demo.app.pml4, log.up.cursor / 0x1000, STACK_PAGES * ncpu)
      && KeptOut(log.end.mem, sh, demo.net.pml4, log.up.cursor / 0x1000, STACK_PAGES * ncpu))
  }

  /** Brings up memory, takes the kernel stacks and starts the courts; each way to fail has
      its reason. If the courts run, all memory of the allocator is in the kernel's direct
      map, page tables included, the stacks are untouched and both courts are ready. If the
      kernel was mapped in the upper half only, the ring is all their lower halves share,
      they reach neither stacks nor page tables, and no space disturbs another later. */
  method Start(mem: PhysMem, hhdm: Word, physBase: nat, virtBase: nat, kstart: Word, kend: Word,
               entries: seq<MemmapEntry>, ncpu: nat, appImage: seq<Byte>, netImage: seq<Byte>, appInfo: BootInfo,
               netInfo: BootInfo)
    returns (r: BootResult, ghost sh: Shape, ghost log: Log)
    requires virtBase <= kstart < kend ==>
      physBase + (kstart - virtBase) + PageAlignUp(kend - kstart) <= 0x10_0000_0000_0000
    modifies mem
    ensures r.NoMemory? ==> NoRegion(entries) || exists i: nat ::
      IsBest(entries, i) && RegionStart(entries[i]) / 0x1000 !in old(mem.frames)
    ensures !r.NoMemory? ==> BroughtUp(old(mem.frames), hhdm, physBase, virtBase, kstart, kend, entries, log)
    ensures !r.NoMemory? ==> (if r.NoTables? then log.built == NotBuilt(r.error) else log.built.Built?)
    ensures r.NoStacks? ==>
      !HasStacks(log.up, ncpu) && r.result == if 1 <= ncpu <= MAX_CPUS then NoStackPages else BadCpuCount
    ensures r.Booted? ==>
      && r.kernel == log.built.pml4 && log.end.mem == mem.frames && log.region < |entries|
      && Settled(log, sh, hhdm, ncpu, r.tops, entries[log.region])
      && Started(log, sh, ncpu, r.demo, appImage, netImage, appInfo, netInfo)
      && (AllUpper(hhdm, physBase, virtBase, kstart, kend, entries) ==> Secluded(log, sh, ncpu, r.demo))
  {
    hide Inv, IsBest, NoRegion, BuildIs, AllUpper, AddressSpaces.LowEmpty, RegionStart, InRegion, HhdmVirt,
         TranslateAddr, OnlyRoot, Probed;
    hide Settled, Started, Secluded, HasStacks;
    ghost var none := Layout([], 0, 0);
    ghost var s := State(mem.frames, 0, 0, 0);
    log := Log(0, NotBuilt(KernelEmpty), s, map[], none, none, 0,
      Story(s, map[], Trail(0, s, map[], []), none, Courtlet(0, 0, 0), none), s);
    var up;
    ghost var region;
    up, sh, region := BringUp(mem, hhdm, physBase, virtBase, kstart, kend, entries);
    if up.None? {
      return NoMemory, sh, log;
    }
    var (bump, built) := up.value;
    log := log.(region := region, built := built, up := Snapshot(mem, bump, 0), shape := sh);
    if built.NotBuilt? {
      return NoTables(built.error), sh, log;
    }
    assert RegionReachable(mem.frames, built.pml4, hhdm, entries[region]);
    r, sh, log := BootCourts(bump, mem, built.pml4, entries[region], ncpu, appImage, netImage, appInfo, netInfo, log);
  }

  /** The kernel stacks and the courts. */
  method BootCourts(bump: BumpAllocator, mem: PhysMem, kernel: nat, ghost e: MemmapEntry, ncpu: nat,
                    appImage: seq<Byte>, netImage: seq<Byte>, appInfo: BootInfo, netInfo: BootInfo, ghost log0: Log)
    returns (r: BootResult, ghost sh: Shape, ghost log: Log)
    requires log0.built.Built? && log0.built.pml4 == kernel && log0.up == Snapshot(mem, bump, 0)
    requires Inv(log0.up, log0.shape) && OnlyRoot(log0.shape, kernel)
    requires RegionReachable(log0.up.mem, kernel, bump.hhdm, e)
    modifies bump, mem
    ensures log.region == log0.region && log.built == log0.built && log.up == log0.up && log.shape == log0.shape
    ensures r.NoStacks? || r.Booted?
    ensures r.NoStacks? ==>
      !HasStacks(log.up, ncpu) && r.result == if 1 <= ncpu <= MAX_CPUS then NoStackPages else BadCpuCount
    ensures r.Booted? ==>
      && r.kernel == kernel && log.end.mem == mem.frames && Settled(log, sh, bump.hhdm, ncpu, r.tops, e)
      && Started(log, sh, ncpu, r.demo, appImage, netImage, appInfo, netInfo)
      && (old(AddressSpaces.LowEmpty(mem.frames, kernel)) ==> Secluded(log, sh, ncpu, r.demo))
  {
    hide Inv, AddressSpaces.LowEmpty, AddressSpaces.LowPrivate, BothReady, RingIn, ShareOnlyRing, ReachesBelow,
         SpawnKeeps, Extends, StartFails;
    hide SpawnedEntries, RegionReachable, ZeroedIn, WithZeroed, StackTop, OnlyRoot, KeptOut, StaysApart, ImageLow,
         Secluded;
    ghost var s0, sh0 := log0.up, log0.shape;
    sh, log := sh0, log0;
    OnlyIsRoot(sh0, kernel);
    var stacks := TakeStacks(bump, mem, ncpu, sh0);
    if !stacks.Stacks? {
      return NoStacks(stacks), sh, log;
    }
    ghost var s1 := Snapshot(mem, bump, 0);
    KernelStays(s0, sh0, s1, sh0, kernel, true, true);
    StillThere(s0, sh0, s1, sh0, kernel, true, true);
    ReachableStays(s0, sh0, s1, sh0, kernel, bump.hhdm, e);
    ghost var empty, low := AddressSpaces.LowEmpty(s1.mem, kernel), ImageLow(appImage) && ImageLow(netImage);
    var demo;
    ghost var appLay, netLay, mid, story;
    demo, sh, appLay, netLay, mid, story := StartCourts(bump, mem, kernel, appImage, netImage, appInfo, netInfo, sh0);
    ghost var s := Snapshot(mem, bump, 0);
    log := log0.(appLay := appLay, netLay := netLay, mid := mid, story := story, end := s);
    StillThere(s1, sh0, s, sh, kernel, empty, low);
    ReachableStays(s1, sh0, s, sh, kernel, bump.hhdm, e);
    ZeroedStays(s1, sh0, s, sh, s0.cursor / 0x1000, STACK_PAGES * ncpu);
    r := Booted(kernel, stacks.tops, demo);
    if empty {
      OneRootPrivate(s1.mem, sh0, kernel);
      Seclusion(s0, sh0, s1, s, sh, kernel, ncpu, low, log, demo, appImage, netImage, appInfo, netInfo);
    }
  }

  lemma Seclusion(s0: State, sh0: Shape, s1: State, s: State, sh: Shape, kernel: nat, ncpu: nat, low: bool, log: Log,
                  demo: DemoResult, appImage: seq<Byte>, netImage: seq<Byte>, appInfo: BootInfo, netInfo: BootInfo)
    requires Inv(s0, sh0) && HasStacks(s0, ncpu) && s1 == AfterStacks(s0, ncpu) && log.up == s0 && log.end == s
    requires Inv(s, sh)
    requires SpawnKeeps(s1, sh0, s, sh, true, low) && AddressSpaces.LowPrivate(s1.mem, sh0)
    requires AddressSpaces.LowEmpty(s1.mem, kernel)
    requires demo.Running? ==>
      && 0x1000 * demo.ring == s1.cursor && s1.cursor + 0x1000 <= log.mid
      && ShareOnlyRing(s.mem, demo.app.pml4, demo.net.pml4, demo.ring)
      && BothReady(s, sh, demo.app, demo.net, appImage, netImage, appInfo, netInfo, log.appLay, log.netLay,
           FirstBound(s1, kernel), Bound(log.mid, true), demo.ring)
    ensures Secluded(log, sh, ncpu, demo)
  {
    hide Inv, AddressSpaces.LowPrivate, AddressSpaces.LowEmpty, SpawnKeeps, ShareOnlyRing, BothReady, KeptOut,
         StaysApart;
    PrivateKept(s1, sh0, s, sh, low);
    PrivateApart(s, sh);
    if demo.Running? {
      StacksBefore(s0, sh0, s1, ncpu);
      BothKeptOut(s, sh, demo.app, demo.net, appImage, netImage, appInfo, netInfo, log.appLay, log.netLay,
        FirstBound(s1, kernel), Bound(log.mid, true), demo.ring,
                  s0.cursor / 0x1000, STACK_PAGES * ncpu);
    }
  }

  lemma OnlyIsRoot(sh: Shape, root: nat)
    requires OnlyRoot(sh, root)
    ensures IsRoot(sh, root)
  {
  }

  lemma StacksBefore(s: State, sh: Shape, s1: State, ncpu: nat)
    requires Inv(s, sh) && HasStacks(s, ncpu) && s1 == AfterStacks(s, ncpu)
    ensures 0x1000 * (s.cursor / 0x1000 + STACK_PAGES * ncpu) == s1.cursor
  {
  }

  lemma StillThere(s: State, sh: Shape, s': State, sh': Shape, root: nat, empty: bool, low: bool)
    requires SpawnKeeps(s, sh, s', sh', empty, low) && IsRoot(sh, root)
    ensures Inv(s', sh') && Extends(s, sh, s', sh') && IsRoot(sh', root)
  {
  }
}
