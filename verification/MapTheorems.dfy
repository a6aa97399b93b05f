/** The mapper's guarantees, stated on addresses. */
module MapTheorems {
  import opened MachineWords
  import opened PageTables
  import opened PageMapper
  import opened MapperProofs
  import opened MapPages
  import opened MapRanges
  import opened TableNeeds
  import opened MapVerdicts
  import opened MapProgress
  import Arithmetic

  /** Where a virtual address leads, byte by byte. */
  function TranslateAddr(m: Mem, root: nat, va: nat): Option<nat> {
    match Translate(m, root, PageOf(va))
    case None => None
    case Some(f) => Some(f * 0x1000 + va % 0x1000)
  }

  /** What may be done at a virtual address that leads somewhere. */
  function AccessAt(m: Mem, root: nat, va: nat): Access {
    WalkAccess(m, root, 4, PageOf(va))
  }

  lemma PageOfSum(virt: nat, k: nat)
    requires virt % 0x1000 == 0
    ensures PageOf(virt + k) == (virt / 0x1000 + k / 0x1000) % 0x10_0000_0000
    ensures (virt + k) % 0x1000 == k % 0x1000
  {
    var q := virt / 0x1000 + k / 0x1000;
    Arithmetic.Quotient(virt + k, 0x1000, q, k % 0x1000);
  }

  /** Every byte of the range is mapped, for the kernel to read, write and execute. */
  ghost predicate BytesMapped(m: Mem, root: nat, virt: nat, phys: nat, len: nat) {
    forall va | virt <= va < virt + len ::
      TranslateAddr(m, root, va) == Some(phys + (va - virt)) && AccessAt(m, root, va) == KERNEL_ACCESS
  }

  lemma AllMappedBytes(m: Mem, root: nat, virt: nat, phys: nat, len: nat)
    requires virt % 0x1000 == 0 && phys % 0x1000 == 0 && len % 0x1000 == 0 && len / 0x1000 <= 0x10_0000_0000
    requires AllMapped(m, root, virt / 0x1000, len / 0x1000, phys / 0x1000)
    ensures BytesMapped(m, root, virt, phys, len)
  {
    hide Offset, Walk, WalkAccess, PageOf;
    forall va | virt <= va < virt + len
      ensures TranslateAddr(m, root, va) == Some(phys + (va - virt)) && AccessAt(m, root, va) == KERNEL_ACCESS
    {
      var k := va - virt;
      PageOfSum(virt, k);
      OffsetOf(virt / 0x1000, k / 0x1000);
      var v := PageOf(virt + k);
      assert InRange(v, virt / 0x1000, len / 0x1000);
    }
  }

  /** The call can be carried through for its first `k` pages, and stops there. */
  ghost predicate Stops(s: State, root: nat, virt: nat, phys: nat, len: nat, k: nat, e: MapError) {
    && Boundary(virt, phys, len, k) && k < len / 0x1000 && CanMap(s, root, virt, phys, 0x1000 * k)
    && StopsAt(s, root, virt, phys, len, k, e)
  }

  /** Why a call stopped: the allocator ran dry, or a page was mapped before (as the first
      is again in a range of more than 2^36); told from the tables before the call there
      is a first leaf that cannot be mapped, and `e` says why not. */
  ghost predicate Trouble(s: State, s': State, root: nat, virt: nat, phys: nat, len: nat, e: MapError) {
    && (if e == OutOfTablePages then Exhausted(s')
         else len / 0x1000 > 0x10_0000_0000 || SomeMapped(s.mem, root, virt / 0x1000, len / 0x1000))
    && exists k: nat :: Stops(s, root, virt, phys, len / 0x1000 * 0x1000, k, e)
  }

  lemma LoopTrouble(s: State, sh: Shape, root: nat, virt: nat, phys: nat, len: nat)
    requires Inv(s, sh) && IsRoot(sh, root) && phys + len <= 0x10_0000_0000_0000
    requires virt % 0x1000 == 0 && phys % 0x1000 == 0 && len % 0x1000 == 0
    requires MapLoop(s, root, virt, phys, len).1.Failed?
    ensures Stops(s, root, virt, phys, len, Progress(s, root, virt, phys, len),
      MapLoop(s, root, virt, phys, len).1.error)
  {
    hide Inv, MapLoop, Progress, Boundary, CanMap, StopsAt, Spread, AllMapped;
    var k := Progress(s, root, virt, phys, len);
    ProgressBoundary(s, root, virt, phys, len);
    ProgressExactly(s, sh, root, virt, phys, len, k);
    LoopReaches(s, sh, root, virt, phys, len);
    LoopStops(s, sh, root, virt, phys, len);
  }

  /** A successful call maps exactly the page-truncated range: every byte of it
      translates to its counterpart, every other page number translates as before,
      and nothing that was mapped moves. A call that fails has a reason to. */
  lemma MapRangeMaps(s: State, sh: Shape, root: nat, virt: nat, phys: nat, len: nat) returns (sh': Shape)
    requires Inv(s, sh) && IsRoot(sh, root) && phys + len <= 0x10_0000_0000_0000
    ensures var (s', o) := MapRange(s, root, virt, phys, len);
      && Contained(s, sh, s', sh', root, virt / 0x1000, len / 0x1000)
      && (o.Done? ==> BytesMapped(s'.mem, root, virt, phys, len / 0x1000 * 0x1000) && len / 0x1000 <= 0x10_0000_0000)
      && (o.Done? ==> AllMapped(s'.mem, root, virt / 0x1000, len / 0x1000, phys / 0x1000))
      && (if virt % 0x1000 != 0 || phys % 0x1000 != 0 then o == Failed(NotAligned)
          else o.Failed? ==> Trouble(s, s', root, virt, phys, len, o.error))
  {
    hide Offset, Walk, MapLoop, Contained, AllMapped, BytesMapped, SomeMapped, Stops, Progress;
    var (s', o) := MapRange(s, root, virt, phys, len);
    if virt % 0x1000 != 0 || phys % 0x1000 != 0 {
      sh' := sh;
      ContainedRefl(s, sh, root, virt / 0x1000, len / 0x1000);
    } else {
      sh' := MapLoopOk(s, sh, root, virt, phys, len / 0x1000 * 0x1000);
      if o.Done? {
        AllMappedBytes(s'.mem, root, virt, phys, len / 0x1000 * 0x1000);
      } else {
        LoopTrouble(s, sh, root, virt, phys, len / 0x1000 * 0x1000);
      }
    }
  }

  /** A call succeeds if and only if its addresses are aligned, nothing is in the way of any
      of its leaves, the tables it is missing fit into the free pages, and it has at most
      2^36 pages: all told from the tables before the call. */
  lemma MapRangeExactly(s: State, sh: Shape, root: nat, virt: nat, phys: nat, len: nat)
    requires Inv(s, sh) && IsRoot(sh, root) && phys + len <= 0x10_0000_0000_0000
    ensures MapRange(s, root, virt, phys, len).1.Done? <==>
      virt % 0x1000 == 0 && phys % 0x1000 == 0 && CanMap(s, root, virt, phys, len / 0x1000 * 0x1000)
  {
    hide MapLoop, Inv, CanMap;
    if virt % 0x1000 == 0 && phys % 0x1000 == 0 {
      LoopExactly(s, sh, root, virt, phys, len / 0x1000 * 0x1000);
    }
  }

  /** Mapping a range with no page mapped succeeds exactly when there are pages for the
      tables it needs and it has at most 2^36 pages. */
  lemma MapRangeFresh(s: State, sh: Shape, root: nat, virt: nat, phys: nat, len: nat)
    requires Inv(s, sh) && IsRoot(sh, root) && phys + len <= 0x10_0000_0000_0000
    requires virt % 0x1000 == 0 && phys % 0x1000 == 0
    requires !SomeMapped(s.mem, root, virt / 0x1000, len / 0x1000)
    ensures var o := MapRange(s, root, virt, phys, len).1;
      var enough := s.cursor + 0x1000 * TablesNeeded(s, root, virt, phys, len) <= s.end;
      && (o.Done? <==> enough && len / 0x1000 <= 0x10_0000_0000)
      && (o == Failed(OutOfTablePages) ==> !enough)
  {
    hide MapRange, Contained, AllMapped, SomeMapped, BytesMapped, TablesNeeded, Stops;
    MapRangeNeeds(s, sh, root, virt, phys, len);
    var sh' := MapRangeMaps(s, sh, root, virt, phys, len);
    var s' := MapRange(s, root, virt, phys, len).0;
    assert s'.cursor <= s'.end by { ContainedCursor(s, sh, s', sh', root, virt / 0x1000, len / 0x1000); }
  }

  lemma ContainedCursor(s: State, sh: Shape, s': State, sh': Shape, root: nat, p: nat, n: nat)
    requires Contained(s, sh, s', sh', root, p, n)
    ensures s'.cursor <= s'.end
  {
  }

  /** On every path, also when it stops midway with an error, a call keeps every
      existing translation of every address space. */
  lemma MapRangeMonotone(s: State, sh: Shape, root: nat, virt: nat, phys: nat, len: nat, r: nat, vpn: nat)
    requires Inv(s, sh) && IsRoot(sh, root) && IsRoot(sh, r) && phys + len <= 0x10_0000_0000_0000
    requires Translate(s.mem, r, vpn).Some?
    ensures Translate(MapRange(s, root, virt, phys, len).0.mem, r, vpn) == Translate(s.mem, r, vpn)
  {
    var sh' := MapRangeMaps(s, sh, root, virt, phys, len);
    TranslationsPersist(s, sh, MapRange(s, root, virt, phys, len).0, sh', r, vpn);
  }

  // ----- the huge-page fast path -----

  /** The reference: every 4 KiB page mapped on its own. */
  function MapPlain(s: State, root: nat, virt: nat, phys: nat, len: nat): (State, Outcome)
    requires phys + len <= 0x10_0000_0000_0000
    decreases len
  {
    if len < 0x1000 then (s, Done)
    else
      var (s1, o) := Map4k(s, root, virt, phys);
      if o.Failed? then (s1, o) else MapPlain(s1, root, virt + 0x1000, phys + 0x1000, len - 0x1000)
  }

  lemma {:induction false} MapPlainOk(s: State, sh: Shape, root: nat, virt: nat, phys: nat, len: nat)
    returns (sh': Shape)
    requires Inv(s, sh) && IsRoot(sh, root) && phys + len <= 0x10_0000_0000_0000
    requires virt % 0x1000 == 0 && phys % 0x1000 == 0 && len % 0x1000 == 0
    ensures var (s', o) := MapPlain(s, root, virt, phys, len);
      && Contained(s, sh, s', sh', root, virt / 0x1000, len / 0x1000)
      && RangeReports(s, s', root, virt / 0x1000, len / 0x1000, phys / 0x1000, o)
    decreases len
  {
    hide Offset, Walk, Map4k, Inv, Grows, Contained, Reports, RangeReports, Spread;
    if len < 0x1000 {
      sh' := sh;
      ContainedRefl(s, sh, root, virt / 0x1000, 0);
      NothingMapped(s, root, virt / 0x1000, phys / 0x1000);
    } else {
      var (s1, o1) := Map4k(s, root, virt, phys);
      var sh1 := Map4kOk(s, sh, root, virt, phys);
      ChunkKeeps(s, sh, s1, sh1, root, virt / 0x1000, 1);
      ChunkReports(s, s1, root, virt / 0x1000, 1, len / 0x1000, phys / 0x1000, o1);
      if o1.Failed? {
        sh' := sh1;
        Widen(s, sh, s1, sh1, root, virt / 0x1000, 1, len / 0x1000);
      } else {
        var (s', o) := MapPlain(s1, root, virt + 0x1000, phys + 0x1000, len - 0x1000);
        sh' := MapPlainOk(s1, sh1, root, virt + 0x1000, phys + 0x1000, len - 0x1000);
        LoopStep(s, sh, s1, sh1, s', sh', root, virt / 0x1000, 1, len / 0x1000 - 1, phys / 0x1000, o);
      }
    }
  }

  /** The mixed 2 MiB / 4 KiB tables give the same translation of every page
      number as mapping each 4 KiB page alone. */
  lemma MixedEqualsPlain(s: State, sh: Shape, root: nat, virt: nat, phys: nat, len: nat, vpn: nat)
    requires Inv(s, sh) && IsRoot(sh, root) && phys + len <= 0x10_0000_0000_0000
    requires virt % 0x1000 == 0 && phys % 0x1000 == 0 && vpn < 0x10_0000_0000
    requires MapRange(s, root, virt, phys, len).1.Done?
    requires MapPlain(s, root, virt, phys, len / 0x1000 * 0x1000).1.Done?
    ensures Translate(MapRange(s, root, virt, phys, len).0.mem, root, vpn)
         == Translate(MapPlain(s, root, virt, phys, len / 0x1000 * 0x1000).0.mem, root, vpn)
  {
    hide Offset, Walk, MapLoop, MapPlain, Contained, AllMapped, BytesMapped, Trouble, Inv;
    var (p, n, f) := (virt / 0x1000, len / 0x1000, phys / 0x1000);
    var sh1 := MapRangeMaps(s, sh, root, virt, phys, len);
    RangeTranslates(s, sh, MapRange(s, root, virt, phys, len).0, sh1, root, p, n, f, vpn);
    var sh2 := MapPlainOk(s, sh, root, virt, phys, n * 0x1000);
    RangeTranslates(s, sh, MapPlain(s, root, virt, phys, n * 0x1000).0, sh2, root, p, n, f, vpn);
  }

  /** What a range that was mapped makes of any page number. */
  lemma RangeTranslates(s: State, sh: Shape, s': State, sh': Shape, root: nat, p: nat, n: nat, f: nat, v: nat)
    requires Contained(s, sh, s', sh', root, p, n) && AllMapped(s'.mem, root, p, n, f)
    requires IsRoot(sh, root) && v < 0x10_0000_0000
    ensures Translate(s'.mem, root, v) == if InRange(v, p, n) then Some(f + Offset(v, p)) else Translate(s.mem, root, v)
  {
    hide Offset, Walk, Inv, Grows, SharingSame, OtherRoots, SharedSlot;
  }

  // ----- repeating a call -----

  /** The leaf that one iteration would write is already in place. */
  ghost predicate Settled(m: Mem, root: nat, virt: nat, phys: Word, l: nat) {
    && 1 <= l <= 2
    && exists t :: Leads(m, root, 4, PageOf(virt), t, l) && HasLeaf(m, t, virt, phys, l)
  }

  ghost predicate HasLeaf(m: Mem, t: nat, virt: nat, phys: Word, l: nat)
    requires 1 <= l <= 2
  {
    var e := At(m, t, Index(PageOf(virt), l));
    Present(e) && PhysFrame(e) == PhysFrame(phys) && (l == 2 ==> Huge(e))
  }

  /** Every leaf that a call with these arguments would write is in place. */
  ghost predicate AllSettled(m: Mem, root: nat, virt: nat, phys: nat, len: nat)
    requires phys + len <= 0x10_0000_0000_0000
    decreases len
  {
    len < 0x1000 || (
      && Settled(m, root, virt, phys, Bottom(virt, phys, len))
      && var n := 0x1000 * Chunk(virt, phys, len); AllSettled(m, root, virt + n, phys + n, len - n))
  }

  lemma SettledChunk(s: State, root: nat, virt: nat, phys: Word, len: nat)
    requires Settled(s.mem, root, virt, phys, Bottom(virt, phys, len))
    ensures MapChunk(s, root, virt, phys, len) == (s, Done)
  {
  }

  lemma {:induction false} SettledLoop(s: State, root: nat, virt: nat, phys: nat, len: nat)
    requires phys + len <= 0x10_0000_0000_0000 && AllSettled(s.mem, root, virt, phys, len)
    ensures MapLoop(s, root, virt, phys, len) == (s, Done)
    decreases len
  {
    hide MapChunk, Settled, MapLoop, Chunk, Bottom;
    if len < 0x1000 {
      NoProgress(s, root, virt, phys, len);
    } else {
      SettledChunk(s, root, virt, phys, len);
      var n := Chunk(virt, phys, len);
      ChunkSize(virt, phys, len);
      LoopSplit(s, root, virt, phys, len, n);
      SettledLoop(s, root, virt + 0x1000 * n, phys + 0x1000 * n, len - 0x1000 * n);
    }
  }

  /** A leaf found or written where the walk of the page leads. */
  lemma LeafSettles(s: State, sh: Shape, s': State, root: nat, virt: nat, phys: Word, t: nat, l: nat, e: Word)
    requires Tables(s, sh) && LeafSet(s, sh, s', root, PageOf(virt), t, l, e)
    requires PhysFrame(e) == PhysFrame(phys)
    ensures Settled(s'.mem, root, virt, phys, l)
  {
    hide Walk, Leads, PhysFrame, Present, Huge, Index, PageOf;
    LeafInv(s, sh, s', root, PageOf(virt), t, l, e);
    LeadsPersists(s.mem, s'.mem, sh, root, PageOf(virt), t, l);
    assert HasLeaf(s'.mem, t, virt, phys, l);
  }

  lemma Map4kSettles(s: State, sh: Shape, root: nat, virt: nat, phys: Word)
    requires Inv(s, sh) && IsRoot(sh, root) && Map4k(s, root, virt, phys).1.Done?
    ensures Settled(Map4k(s, root, virt, phys).0.mem, root, virt, phys, 1)
  {
    hide Walk, Leads, PhysFrame, Present, Huge, Index, EnsureTable, EnsurePd, Grows, At, Put, PageOf, SameWalks,
         RootSlotsSame;
    var (s2, pd) := EnsurePd(s, root, virt);
    var sh2 := EnsurePdOk(s, sh, root, virt);
    var (s3, pt) := EnsureTable(s2, pd.value, PdIndex(virt));
    var sh3 := EnsureTableOk(s2, sh2, root, PageOf(virt), pd.value, 2);
    var (s', o) := SetLeaf4k(s3, pt.value, virt, phys);
    if Present(At(s3.mem, pt.value, PtIndex(virt))) {
      assert HasLeaf(s'.mem, pt.value, virt, phys, 1);
    } else {
      LeafSettles(s3, sh3, s', root, virt, phys, pt.value, 1, TableEntry(PhysFrame(phys)));
    }
  }

  lemma Map2mSettles(s: State, sh: Shape, root: nat, virt: nat, phys: Word)
    requires Inv(s, sh) && IsRoot(sh, root) && Map2m(s, root, virt, phys).1.Done?
    requires PhysFrame(phys) % 512 == 0
    ensures Settled(Map2m(s, root, virt, phys).0.mem, root, virt, phys, 2)
  {
    hide Walk, Leads, PhysFrame, Present, Huge, Index, EnsureTable, EnsurePd, Grows, At, Put, PageOf, SameWalks,
         RootSlotsSame;
    var (s2, pd) := EnsurePd(s, root, virt);
    var sh2 := EnsurePdOk(s, sh, root, virt);
    var (s', o) := SetLeaf2m(s2, pd.value, virt, phys);
    if Present(At(s2.mem, pd.value, PdIndex(virt))) {
      assert HasLeaf(s'.mem, pd.value, virt, phys, 2);
    } else {
      LeafSettles(s2, sh2, s', root, virt, phys, pd.value, 2, HugeEntry(PhysFrame(phys)));
    }
  }

  lemma SettledStays(s: State, sh: Shape, s': State, sh': Shape, root: nat, virt: nat, phys: Word, l: nat)
    requires Inv(s, sh) && IsRoot(sh, root) && Grows(s, sh, s', sh') && Settled(s.mem, root, virt, phys, l)
    ensures Settled(s'.mem, root, virt, phys, l)
  {
    hide Walk, Leads, PhysFrame, Present, Huge, Index, At, PageOf;
    var vpn := PageOf(virt);
    var t :| Leads(s.mem, root, 4, vpn, t, l) && HasLeaf(s.mem, t, virt, phys, l);
    RootServes(s.mem, sh, root, vpn);
    LeadsServes(s.mem, sh, root, vpn, t, l);
    LeadsPersists(s.mem, s'.mem, sh, root, vpn, t, l);
    assert HasLeaf(s'.mem, t, virt, phys, l);
  }

  lemma {:induction false} LoopSettles(s: State, sh: Shape, root: nat, virt: nat, phys: nat, len: nat)
    requires Inv(s, sh) && IsRoot(sh, root) && phys + len <= 0x10_0000_0000_0000
    requires virt % 0x1000 == 0 && phys % 0x1000 == 0 && len % 0x1000 == 0
    requires MapLoop(s, root, virt, phys, len).1.Done?
    ensures AllSettled(MapLoop(s, root, virt, phys, len).0.mem, root, virt, phys, len)
    decreases len
  {
    hide MapChunk, Inv, Grows, Extends, Settled, RangeReports, Reports, Contained, Spread, MapLoop, AllSettled;
    if len < 0x1000 {
      SettledEnd(MapLoop(s, root, virt, phys, len).0.mem, root, virt, phys, len);
    } else {
      var n1 := Chunk(virt, phys, len);
      ChunkFits(virt, phys, len);
      LoopSplit(s, root, virt, phys, len, n1);
      var (s1, o1) := MapChunk(s, root, virt, phys, len);
      ChunkSettles(s, sh, root, virt, phys, len);
      var sh1 := MapChunkOk(s, sh, root, virt, phys, len);
      ChunkKeeps(s, sh, s1, sh1, root, virt / 0x1000, n1);
      var (v2, p2, l2) := (virt + 0x1000 * n1, phys + 0x1000 * n1, len - 0x1000 * n1);
      LoopSettles(s1, sh1, root, v2, p2, l2);
      var sh' := MapLoopOk(s1, sh1, root, v2, p2, l2);
      var s' := MapLoop(s1, root, v2, p2, l2).0;
      ChunkKeeps(s1, sh1, s', sh', root, v2 / 0x1000, l2 / 0x1000);
      SettledStays(s1, sh1, s', sh', root, virt, phys, Bottom(virt, phys, len));
      SettledMore(s'.mem, root, virt, phys, len, n1);
    }
  }

  lemma SettledEnd(m: Mem, root: nat, virt: nat, phys: nat, len: nat)
    requires phys + len <= 0x10_0000_0000_0000 && len < 0x1000
    ensures AllSettled(m, root, virt, phys, len)
  {
  }

  lemma SettledMore(m: Mem, root: nat, virt: nat, phys: nat, len: nat, n: nat)
    requires phys + len <= 0x10_0000_0000_0000 && n == Chunk(virt, phys, len) && 0x1000 * n <= len
    requires Settled(m, root, virt, phys, Bottom(virt, phys, len))
    requires AllSettled(m, root, virt + 0x1000 * n, phys + 0x1000 * n, len - 0x1000 * n)
    ensures AllSettled(m, root, virt, phys, len)
  {
    hide Settled;
  }

  lemma ChunkSettles(s: State, sh: Shape, root: nat, virt: nat, phys: Word, len: nat)
    requires Inv(s, sh) && IsRoot(sh, root) && phys < 0x10_0000_0000_0000 && MapChunk(s, root, virt, phys, len).1.Done?
    ensures Settled(MapChunk(s, root, virt, phys, len).0.mem, root, virt, phys, Bottom(virt, phys, len))
  {
    hide Map4k, Map2m, Inv, Settled;
    FrameOf(phys);
    if TakesHuge(virt, phys, len) {
      Map2mSettles(s, sh, root, virt, phys);
    } else {
      Map4kSettles(s, sh, root, virt, phys);
    }
  }

  /** Repeating a successful call succeeds, allocates nothing and changes no word. */
  lemma MapRangeRepeats(s: State, sh: Shape, root: nat, virt: nat, phys: nat, len: nat)
    requires Inv(s, sh) && IsRoot(sh, root) && phys + len <= 0x10_0000_0000_0000
    requires MapRange(s, root, virt, phys, len).1.Done?
    ensures var s' := MapRange(s, root, virt, phys, len).0; MapRange(s', root, virt, phys, len) == (s', Done)
  {
    hide MapLoop, AllSettled;
    var s' := MapRange(s, root, virt, phys, len).0;
    LoopSettles(s, sh, root, virt, phys, len / 0x1000 * 0x1000);
    SettledLoop(s', root, virt, phys, len / 0x1000 * 0x1000);
  }
}
