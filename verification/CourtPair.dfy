/** Two courts and the ring they share. */
module CourtPair {
  import opened MachineWords
  import opened PageTables
  import opened PageMapper
  import opened MapperProofs
  import opened MapPages
  import opened KernelMemory
  import opened ImageFormat
  import opened CourtImage
  import opened CourtLoader
  import opened Courtlets
  import AddressSpaces

  /** The only frame that both lower halves reach is the ring, and both reach it at RING_VA. */
  ghost predicate ShareOnlyRing(m: Mem, a: nat, b: nat, ring: nat) {
    && Translate(m, a, RING_VA / 0x1000) == Some(ring) && Translate(m, b, RING_VA / 0x1000) == Some(ring)
    && forall v, w | 0 <= v < 0x8_0000_0000 && 0 <= w < 0x8_0000_0000 && Translate(m, a, v).Some? ::
         Translate(m, a, v) == Translate(m, b, w) ==> Translate(m, a, v) == Some(ring)
  }

  /** The lower half of `root` reaches the ring and frames below `end`. */
  ghost predicate ReachesBelow(m: Mem, root: nat, end: nat, ring: nat) {
    forall v | 0 <= v < 0x8_0000_0000 && Translate(m, root, v).Some? ::
      Translate(m, root, v) == Some(ring) || 0x1000 * Translate(m, root, v).value < end
  }

  lemma Below(s: State, sh: Shape, m: Mem, root: nat, lo: Bound, ring: nat)
    requires Confined(s, sh, root, lo, ring) && lo.empty && IsRoot(sh, root) && LowerSame(s.mem, m, sh)
    ensures ReachesBelow(m, root, s.cursor, ring)
  {
    hide Walk;
  }

  /** The courts' own frames come from disjoint stretches of the allocator. */
  lemma Disjoint(s1: State, sh1: Shape, s: State, sh: Shape, a: nat, b: nat, lo: Bound, ring: nat)
    requires Confined(s1, sh1, a, lo, ring) && lo.empty && IsRoot(sh1, a) && LowerSame(s1.mem, s.mem, sh1)
    requires Confined(s, sh, b, Bound(s1.cursor, true), ring)
    requires Translate(s.mem, a, RING_VA / 0x1000) == Some(ring) && Translate(s.mem, b, RING_VA / 0x1000) == Some(ring)
    ensures ShareOnlyRing(s.mem, a, b, ring)
  {
    hide Walk;
    forall v, w | 0 <= v < 0x8_0000_0000 && 0 <= w < 0x8_0000_0000 && Translate(s.mem, a, v).Some?
      && Translate(s.mem, a, v) == Translate(s.mem, b, w)
      ensures Translate(s.mem, a, v) == Some(ring)
    {
      assert Translate(s.mem, a, v) == Translate(s1.mem, a, v);
    }
  }

  datatype DemoResult = Running(app: Courtlet, net: Courtlet, ring: nat) | Stopped(error: SpawnError)

  /** Magic, capacity 4 and slot size 64, then zeroed indices and revocation flag. */
  function RingBlock(): (w: seq<Word>)
    ensures |w| == 5
  {
    [RING_MAGIC, 4 + 0x1_0000_0000 * 64, 0, 0, 0]
  }

  /** A frame set aside for the ring keeps its contents. */
  ghost predicate RingIn(s: State, sh: Shape, ring: nat) {
    ring !in sh && 0x1000 * ring < s.cursor && Holds(s.mem, ring, RingBlock())
  }

  lemma RingInStays(s: State, sh: Shape, s': State, sh': Shape, ring: nat)
    requires RingIn(s, sh, ring) && Extends(s, sh, s', sh')
    ensures RingIn(s', sh', ring)
  {
    hide EntriesPersist;
    HoldsStays(s.mem, s'.mem, ring, RingBlock());
  }

  lemma RingTaken(s: State, sh: Shape, s1: State, ring: nat)
    requires Inv(s, sh) && DataTaken(s, s1, ring, 1) && Holds(s1.mem, ring, RingBlock())
    ensures RingIn(s1, sh, ring) && SpawnKeeps(s, sh, s1, sh, true, true)
  {
    DataTakenOk(s, sh, s1, ring, 1);
    DataKeeps(s, sh, s1, ring, 1);
    hide Inv, SpawnKeeps;
  }

  ghost predicate BothReady(s: State, sh: Shape, app: Courtlet, net: Courtlet, appImage: seq<Byte>, netImage: seq<Byte>,
                            appInfo: BootInfo, netInfo: BootInfo, appLay: Layout, netLay: Layout, lo: Bound, mid: Bound,
                            ring: nat) {
    && CourtReady(s, sh, app, appImage, BootBlock(appInfo), appLay, lo, ring)
    && CourtReady(s, sh, net, netImage, BootBlock(netInfo), netLay, mid, ring)
  }

  /** What a spawn needs: a kernel root to clone and a ring to share. */
  ghost predicate CanSpawn(s: State, sh: Shape, kernel: nat, ring: nat) {
    Inv(s, sh) && IsRoot(sh, kernel) && RingIn(s, sh, ring)
  }

  lemma CanSpawnStays(s: State, sh: Shape, s': State, sh': Shape, kernel: nat, ring: nat, empty: bool, low: bool)
    requires CanSpawn(s, sh, kernel, ring) && SpawnKeeps(s, sh, s', sh', empty, low)
    ensures CanSpawn(s', sh', kernel, ring)
    ensures AddressSpaces.LowEmpty(s'.mem, kernel) <==> AddressSpaces.LowEmpty(s.mem, kernel)
  {
    hide Inv, Extends, AddressSpaces.LowEmpty, RootWordsSame, LowerSame, UpperSame, RingIn;
    KernelStays(s, sh, s', sh', kernel, empty, low);
    RingInStays(s, sh, s', sh', ring);
  }

  ghost predicate SpawnedEntries(appImage: seq<Byte>, netImage: seq<Byte>, app: Courtlet, net: Courtlet) {
    EntryIs(appImage, app) && EntryIs(netImage, net)
  }

  /** Spawns a court that is able to be followed by another one. */
  method SpawnNext(bump: BumpAllocator, mem: PhysMem, kernel: nat, image: seq<Byte>, info: BootInfo, ring: nat,
                   ghost sh: Shape, ghost empty: bool)
    returns (r: SpawnResult, ghost sh': Shape, ghost lay: Layout, ghost trail: Trail)
    requires CanSpawn(Snapshot(mem, bump, 0), sh, kernel, ring) && empty == AddressSpaces.LowEmpty(mem.frames, kernel)
    modifies bump, mem
    ensures SpawnReports(old(Snapshot(mem, bump, 0)), sh, kernel, trail, Snapshot(mem, bump, 0), sh', image, info, lay,
      ring, r)
    ensures SpawnKeeps(old(Snapshot(mem, bump, 0)), sh, Snapshot(mem, bump, 0), sh', empty, ImageLow(image))
    ensures CanSpawn(Snapshot(mem, bump, 0), sh', kernel, ring) && empty == AddressSpaces.LowEmpty(mem.frames, kernel)
    ensures r.Spawned? ==>
      CourtReady(Snapshot(mem, bump, 0), sh', r.court, image, BootBlock(info), lay, Bound(old(bump.cursor), empty),
        ring)
  {
    hide Inv, AddressSpaces.LowEmpty, CourtReady, SpawnKeeps, RingIn, ImageLow, SpawnReports;
    ghost var s := Snapshot(mem, bump, 0);
    RingInMem(s, sh, ring);
    r, sh', lay, trail := Spawn(bump, mem, kernel, image, info, ring, sh);
    CanSpawnStays(s, sh, Snapshot(mem, bump, 0), sh', kernel, ring, empty, ImageLow(image));
  }

  /** How a start went: the state and shape the last court was spawned from, and what
      came of it; the first court, once there was one. */
  datatype Story = Story(from: State, shape: Shape, trail: Trail, lay: Layout, app: Courtlet, appLay: Layout)

  /** The bound of the court spawned first: right behind the ring. */
  ghost function FirstBound(s: State, kernel: nat): Bound {
    Bound(s.cursor + 0x1000, AddressSpaces.LowEmpty(s.mem, kernel))
  }

  /** The ring was set up in the next free page, and nothing else done. */
  ghost predicate RingSet(s: State, s1: State, ring: nat) {
    DataTaken(s, s1, ring, 1) && Holds(s1.mem, ring, RingBlock())
  }

  /** The first court was spawned, and nothing else done. */
  ghost predicate FirstSpawned(s: State, sh: Shape, s2: State, sh2: Shape, kernel: nat, ring: nat, app: Courtlet,
                               image: seq<Byte>, info: BootInfo, lay: Layout) {
    && SpawnKeeps(s, sh, s2, sh2, AddressSpaces.LowEmpty(s.mem, kernel), ImageLow(image)) && RingIn(s2, sh2, ring)
    && CourtReady(s2, sh2, app, image, BootBlock(info), lay, FirstBound(s, kernel), ring)
  }

  /** Why a start failed: no page for the ring, the first court could not be spawned with
      the ring set up, or the second could not with the first one ready. */
  ghost predicate StartFails(s: State, sh: Shape, kernel: nat, st: Story, s': State, sh': Shape, appImage: seq<Byte>,
                             netImage: seq<Byte>, appInfo: BootInfo, netInfo: BootInfo, e: SpawnError) {
    var ring: nat := s.cursor / 0x1000;
    || (e == NoPage && s' == s && Exhausted(s))
    || (RingSet(s, st.from, ring)
         && SpawnReports(st.from, sh, kernel, st.trail, s', sh', appImage, appInfo, st.lay, ring, NotSpawned(e)))
    || (FirstSpawned(s, sh, st.from, st.shape, kernel, ring, st.app, appImage, appInfo, st.appLay)
        && SpawnReports(st.from, st.shape, kernel, st.trail, s', sh', netImage, netInfo, st.lay, ring, NotSpawned(e)))
  }

  /** Sets up the ring page and two courts that share it. The frames of the first court
      lie below `mid`, those of the second from there on. */
  method StartCourts(bump: BumpAllocator, mem: PhysMem, kernel: nat, appImage: seq<Byte>, netImage: seq<Byte>,
                     appInfo: BootInfo, netInfo: BootInfo, ghost sh: Shape)
    returns (r: DemoResult, ghost sh': Shape, ghost appLay: Layout, ghost netLay: Layout, ghost mid: nat,
             ghost story: Story)
    requires Inv(Snapshot(mem, bump, 0), sh) && IsRoot(sh, kernel)
    modifies bump, mem
    ensures match r
      case Running(app, net, _) => SpawnedEntries(appImage, netImage, app, net)
      case Stopped(e) => StartFails(old(Snapshot(mem, bump, 0)), sh, kernel, story, Snapshot(mem, bump, 0), sh',
        appImage, netImage, appInfo, netInfo, e)
    ensures SpawnKeeps(old(Snapshot(mem, bump, 0)), sh, Snapshot(mem, bump, 0), sh',
      old(AddressSpaces.LowEmpty(mem.frames, kernel)),
                       ImageLow(appImage) && ImageLow(netImage))
    ensures r.Running? ==> 0x1000 * r.ring == old(bump.cursor) && RingIn(Snapshot(mem, bump, 0), sh', r.ring)
    ensures r.Running? ==> var lo := FirstBound(old(Snapshot(mem, bump, 0)), kernel);
      && lo.start <= mid <= bump.cursor
      && BothReady(Snapshot(mem, bump, 0), sh', r.app, r.net, appImage, netImage, appInfo, netInfo, appLay, netLay, lo,
           Bound(mid, lo.empty), r.ring)
      && (lo.empty ==>
           ShareOnlyRing(mem.frames, r.app.pml4, r.net.pml4, r.ring)
           && ReachesBelow(mem.frames, r.app.pml4, mid, r.ring))
  {
    hide Inv, AddressSpaces.LowEmpty, CourtReady, Holds, SpawnKeeps, DataTaken, ImageLow, CanSpawn, BothReady,
         ShareOnlyRing, ReachesBelow, RingIn;
    hide SpawnReports, StartFails, SpawnedEntries, RingBlock, BootBlock, EntryIs, FirstSpawned, RingSet;
    ghost var s := Snapshot(mem, bump, 0);
    ghost var empty, appLow, netLow := AddressSpaces.LowEmpty(mem.frames, kernel), ImageLow(appImage),
      ImageLow(netImage);
    sh', mid := sh, 0;
    appLay, netLay := Layout([], 0, 0), Layout([], 0, 0);
    story := Story(s, sh, Trail(0, s, sh, []), appLay, Courtlet(0, 0, 0), appLay);
    KeepsRefl(s, sh, empty, appLow && netLow);
    var taken := TakeBlock(bump, mem, RingBlock(), sh);
    if taken.None? {
      NoRingPage(s, sh, kernel, story, appImage, netImage, appInfo, netInfo);
      return Stopped(NoPage), sh', appLay, netLay, mid, story;
    }
    var ring := taken.value;
    ghost var s1 := Snapshot(mem, bump, 0);
    TakenCursor(s, s1, ring, 1);
    assert RingSet(s, s1, ring) by { RingIsSet(s, s1, ring); }
    RingReady(s, sh, s1, kernel, ring, empty);
    var app, net;
    ghost var trail;
    app, sh', appLay, trail := SpawnNext(bump, mem, kernel, appImage, appInfo, ring, sh, empty);
    ghost var s2, sh2 := Snapshot(mem, bump, 0), sh';
    KeepsTrans(s, sh, s1, sh, s2, sh2, empty, true, appLow);
    if app.NotSpawned? {
      KeepsLess(s, sh, s2, sh2, empty, appLow, appLow && netLow);
      story := story.(from := s1, trail := trail, lay := appLay);
      FirstFails(s, sh, kernel, story, s2, sh2, appImage, netImage, appInfo, netInfo, app.error);
      return Stopped(app.error), sh', appLay, netLay, mid, story;
    }
    mid := bump.cursor;
    KeepsCursor(s1, sh, s2, sh2, empty, appLow);
    SpawnedEntry(s1, sh, kernel, trail, s2, sh2, appImage, appInfo, appLay, ring, app);
    net, sh', netLay, trail := SpawnNext(bump, mem, kernel, netImage, netInfo, ring, sh2, empty);
    ghost var s3, sh3 := Snapshot(mem, bump, 0), sh';
    KeepsTrans(s, sh, s2, sh2, s3, sh3, empty, appLow, netLow);
    KeepsCursor(s2, sh2, s3, sh3, empty, netLow);
    CanSpawnRing(s2, sh2, kernel, ring);
    if net.NotSpawned? {
      FirstIs(s, sh, s2, sh2, kernel, ring, app.court, appImage, appInfo, appLay);
      story := Story(s2, sh2, trail, netLay, app.court, appLay);
      SecondFails(s, sh, kernel, story, s3, sh3, appImage, netImage, appInfo, netInfo, net.error);
      return Stopped(net.error), sh', appLay, netLay, mid, story;
    }
    CanSpawnRing(s3, sh3, kernel, ring);
    SpawnedEntry(s2, sh2, kernel, trail, s3, sh3, netImage, netInfo, netLay, ring, net);
    Together(s2, sh2, s3, sh3, app.court, net.court, appImage, netImage, appInfo, netInfo, appLay, netLay,
      FirstBound(s, kernel), ring, netLow);
    BothEntries(appImage, netImage, app.court, net.court);
    r := Running(app.court, net.court, ring);
  }

  lemma RingIsSet(s: State, s1: State, ring: nat)
    requires DataTaken(s, s1, ring, 1) && Holds(s1.mem, ring, RingBlock())
    ensures RingSet(s, s1, ring)
  {
  }

  lemma FirstIs(s: State, sh: Shape, s2: State, sh2: Shape, kernel: nat, ring: nat, app: Courtlet, image: seq<Byte>,
                info: BootInfo, lay: Layout)
    requires SpawnKeeps(s, sh, s2, sh2, AddressSpaces.LowEmpty(s.mem, kernel), ImageLow(image)) && RingIn(s2, sh2, ring)
    requires CourtReady(s2, sh2, app, image, BootBlock(info), lay, FirstBound(s, kernel), ring)
    ensures FirstSpawned(s, sh, s2, sh2, kernel, ring, app, image, info, lay)
  {
  }

  lemma NoRingPage(s: State, sh: Shape, kernel: nat, st: Story, appImage: seq<Byte>, netImage: seq<Byte>,
                   appInfo: BootInfo, netInfo: BootInfo)
    requires Exhausted(s)
    ensures StartFails(s, sh, kernel, st, s, sh, appImage, netImage, appInfo, netInfo, NoPage)
  {
    hide SpawnReports, RingSet, FirstSpawned;
  }

  lemma FirstFails(s: State, sh: Shape, kernel: nat, st: Story, s': State, sh': Shape, appImage: seq<Byte>,
                   netImage: seq<Byte>, appInfo: BootInfo, netInfo: BootInfo, e: SpawnError)
    requires RingSet(s, st.from, s.cursor / 0x1000)
    requires SpawnReports(st.from, sh, kernel, st.trail, s', sh', appImage, appInfo, st.lay, s.cursor / 0x1000,
      NotSpawned(e))
    ensures StartFails(s, sh, kernel, st, s', sh', appImage, netImage, appInfo, netInfo, e)
  {
    hide SpawnReports, RingSet, FirstSpawned;
  }

  lemma SecondFails(s: State, sh: Shape, kernel: nat, st: Story, s': State, sh': Shape, appImage: seq<Byte>,
                    netImage: seq<Byte>, appInfo: BootInfo, netInfo: BootInfo, e: SpawnError)
    requires FirstSpawned(s, sh, st.from, st.shape, kernel, s.cursor / 0x1000, st.app, appImage, appInfo, st.appLay)
    requires SpawnReports(st.from, st.shape, kernel, st.trail, s', sh', netImage, netInfo, st.lay, s.cursor / 0x1000,
      NotSpawned(e))
    ensures StartFails(s, sh, kernel, st, s', sh', appImage, netImage, appInfo, netInfo, e)
  {
    hide SpawnReports, RingSet, FirstSpawned;
  }

  lemma SpawnedEntry(s: State, sh: Shape, kernel: nat, t: Trail, s': State, sh': Shape, image: seq<Byte>,
                     info: BootInfo, lay: Layout, ring: nat, r: SpawnResult)
    requires r.Spawned? && SpawnReports(s, sh, kernel, t, s', sh', image, info, lay, ring, r)
    ensures EntryIs(image, r.court)
  {
  }

  lemma BothEntries(appImage: seq<Byte>, netImage: seq<Byte>, app: Courtlet, net: Courtlet)
    requires EntryIs(appImage, app) && EntryIs(netImage, net)
    ensures SpawnedEntries(appImage, netImage, app, net)
  {
    hide CheckHeader;
  }

  lemma KeepsCursor(s: State, sh: Shape, s': State, sh': Shape, empty: bool, low: bool)
    requires SpawnKeeps(s, sh, s', sh', empty, low)
    ensures s.cursor <= s'.cursor
  {
  }

  lemma RingReady(s: State, sh: Shape, s1: State, kernel: nat, ring: nat, empty: bool)
    requires Inv(s, sh) && IsRoot(sh, kernel) && DataTaken(s, s1, ring, 1) && Holds(s1.mem, ring, RingBlock())
    ensures SpawnKeeps(s, sh, s1, sh, empty, true) && CanSpawn(s1, sh, kernel, ring)
    ensures AddressSpaces.LowEmpty(s1.mem, kernel) <==> AddressSpaces.LowEmpty(s.mem, kernel)
  {
    hide Inv, Extends, AddressSpaces.LowEmpty, RootWordsSame, LowerSame, UpperSame, RingIn, DataTaken, Holds;
    RingTaken(s, sh, s1, ring);
    KernelStays(s, sh, s1, sh, kernel, true, true);
  }

  lemma CanSpawnRing(s: State, sh: Shape, kernel: nat, ring: nat)
    requires CanSpawn(s, sh, kernel, ring)
    ensures RingIn(s, sh, ring) && Inv(s, sh)
  {
  }

  lemma RingInMem(s: State, sh: Shape, ring: nat)
    requires RingIn(s, sh, ring)
    ensures ring in s.mem && ring !in sh && 0x1000 * ring < s.cursor
  {
  }

  /** Two courts, the second spawned after the first. */
  lemma Together(s2: State, sh2: Shape, s3: State, sh3: Shape, app: Courtlet, net: Courtlet, appImage: seq<Byte>,
                 netImage: seq<Byte>, appInfo: BootInfo, netInfo: BootInfo, appLay: Layout, netLay: Layout, lo: Bound,
                 ring: nat, low: bool)
    requires Inv(s2, sh2) && SpawnKeeps(s2, sh2, s3, sh3, lo.empty, low)
    requires CourtReady(s2, sh2, app, appImage, BootBlock(appInfo), appLay, lo, ring)
    requires CourtReady(s3, sh3, net, netImage, BootBlock(netInfo), netLay, Bound(s2.cursor, lo.empty), ring)
    ensures BothReady(s3, sh3, app, net, appImage, netImage, appInfo, netInfo, appLay, netLay, lo,
      Bound(s2.cursor, lo.empty), ring)
    ensures lo.empty ==>
      ShareOnlyRing(s3.mem, app.pml4, net.pml4, ring) && ReachesBelow(s3.mem, app.pml4, s2.cursor, ring)
  {
    ReadyStays(s2, sh2, s3, sh3, app, appImage, BootBlock(appInfo), appLay, lo, ring, low);
    RingAt(s3.mem, app.pml4, ring);
    RingAt(s3.mem, net.pml4, ring);
    hide Inv, Walk, ImageIn, BootIn, StackIn, AllMapped, InImage;
    if lo.empty {
      Disjoint(s2, sh2, s3, sh3, app.pml4, net.pml4, lo, ring);
      Below(s2, sh2, s3.mem, app.pml4, lo, ring);
    }
  }
}
