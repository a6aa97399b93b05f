/** Building the kernel's own page tables from the boot memory map. */
module KernelSpace {
  import opened MachineWords
  import opened PageTables
  import opened PageMapper
  import opened MapperProofs
  import opened MapPages
  import opened MapTheorems
  import opened KernelMemory
  import AddressSpaces
  import PhysBytes
  import Arithmetic

  datatype BuildError = KernelEmpty | KernelBelowBase | Mapping(error: MapError)

  datatype BuildResult =
    | Built(pml4: nat, kernelPhys: nat, kernelLen: nat, tablePages: nat, hhdmBytes: Word, hhdmSpans: nat)
    | NotBuilt(error: BuildError)

  /** Kinds the revision-3 higher-half direct map covers. */
  predicate HhdmMapped(kind: nat) {
    || kind == MEMMAP_USABLE
    || kind == MEMMAP_BOOTLOADER_RECLAIMABLE
    || kind == MEMMAP_EXECUTABLE_AND_MODULES
    || kind == MEMMAP_FRAMEBUFFER
  }

  /** The first page boundary in an entry. */
  function FirstPage(e: MemmapEntry): (r: nat)
    ensures r % 0x1000 == 0 && e.base <= r < e.base + 0x1000
  {
    PageAlignUp(e.base)
  }

  /** The last page boundary in or at the end of an entry. */
  function EndPage(e: MemmapEntry): (r: nat)
    ensures r % 0x1000 == 0 && r <= e.base + e.length < r + 0x1000
  {
    PageAlignDown(SaturatingAdd(e.base, e.length))
  }

  predicate HasPages(e: MemmapEntry) { e.length > 0 && EndPage(e) > FirstPage(e) }

  /** Where physical address `phys` is in the direct map at `hhdm`, modulo 2^64. */
  function HhdmVirt(hhdm: Word, phys: nat): (r: nat)
    ensures r < 0x1_0000_0000_0000_0000 && (r - phys - hhdm) % 0x1_0000_0000_0000_0000 == 0
  {
    (hhdm + phys) % 0x1_0000_0000_0000_0000
  }

  predicate IsImage(e: MemmapEntry, kernelPhysBase: nat) {
    e.kind == MEMMAP_EXECUTABLE_AND_MODULES && FirstPage(e) >= kernelPhysBase
  }

  /** Every whole page of the entry is where the boot protocol promises it. */
  ghost predicate EntryMapped(m: Mem, root: nat, hhdm: Word, physBase: nat, virtBase: nat, e: MemmapEntry) {
    HasPages(e) ==>
      && (HhdmMapped(e.kind) ==>
           BytesMapped(m, root, HhdmVirt(hhdm, FirstPage(e)), FirstPage(e), EndPage(e) - FirstPage(e)))
      && (IsImage(e, physBase) ==>
           BytesMapped(m, root, virtBase + (FirstPage(e) - physBase), FirstPage(e), EndPage(e) - FirstPage(e)))
  }

  /** All of the entry's mappings lie in the upper half. */
  ghost predicate EntryUpper(hhdm: Word, physBase: nat, virtBase: nat, e: MemmapEntry) {
    HasPages(e) ==>
      && UpperHalf(HhdmVirt(hhdm, FirstPage(e)) / 0x1000, (EndPage(e) - FirstPage(e)) / 0x1000)
      && (IsImage(e, physBase) ==>
           UpperHalf((virtBase + (FirstPage(e) - physBase)) / 0x1000, (EndPage(e) - FirstPage(e)) / 0x1000))
  }

  // ----- the mappings made, in order -----

  datatype AnySpan = Span(virt: nat, phys: nat, len: nat)

  /** A range of physical memory to map; addresses have at most 52 bits. */
  type Span = s: AnySpan | s.phys + s.len <= 0x10_0000_0000_0000 witness Span(0, 0, 0)

  function EntrySpans(hhdm: Word, physBase: nat, virtBase: nat, e: MemmapEntry): seq<Span> {
    if !HasPages(e) then [] else
    EntryPages(e);
    var start, len := FirstPage(e), EndPage(e) - FirstPage(e);
    (if IsImage(e, physBase) then [Span(virtBase + (start - physBase), start, len)] else [])
      + (if HhdmMapped(e.kind) then [Span(HhdmVirt(hhdm, start), start, len)] else [])
  }

  /** The kernel image, then each entry of the memory map. */
  function Plan(kernel: Span, hhdm: Word, physBase: nat, virtBase: nat, entries: seq<MemmapEntry>): seq<Span> {
    if entries == [] then [kernel]
    else
      Plan(kernel, hhdm, physBase, virtBase, entries[..|entries| - 1])
        + EntrySpans(hhdm, physBase, virtBase, entries[|entries| - 1])
  }

  /** The entry is in the direct map. */
  predicate InDirectMap(e: MemmapEntry) { HasPages(e) && HhdmMapped(e.kind) }

  /** Bytes in the direct map, all told. */
  function DirectBytes(entries: seq<MemmapEntry>): nat {
    if entries == [] then 0
    else
      var e := entries[|entries| - 1];
      DirectBytes(entries[..|entries| - 1]) + if InDirectMap(e) then EndPage(e) - FirstPage(e) else 0
  }

  /** Entries in the direct map. */
  function DirectSpans(entries: seq<MemmapEntry>): nat {
    if entries == [] then 0
    else DirectSpans(entries[..|entries| - 1]) + if InDirectMap(entries[|entries| - 1]) then 1 else 0
  }

  function Saturated(n: nat): Word {
    if n < 0x1_0000_0000_0000_0000 then n else 0xffff_ffff_ffff_ffff
  }

  /** Maps the spans in order, up to the first that fails. */
  function RunPlan(s: State, root: nat, spans: seq<Span>): (State, Outcome) {
    if spans == [] then (s, Done)
    else
      var n := |spans| - 1;
      var (s1, o) := RunPlan(s, root, spans[..n]);
      if o.Failed? then (s1, o) else MapRange(s1, root, spans[n].virt, spans[n].phys, spans[n].len)
  }

  lemma {:induction false} RunPlanAppend(s: State, root: nat, a: seq<Span>, b: seq<Span>)
    ensures RunPlan(s, root, a + b) == var (s1, o) := RunPlan(s, root, a);
      if o.Failed? then (s1, o) else RunPlan(s1, root, b)
    decreases |b|
  {
    hide MapRange;
    if b == [] {
      assert a + b == a;
    } else {
      var n := |b| - 1;
      RunPlanAppend(s, root, a, b[..n]);
      assert (a + b)[..|a + b| - 1] == a + b[..n];
    }
  }

  lemma {:induction false} PlanStays(s: State, root: nat, kernel: Span, hhdm: Word, physBase: nat, virtBase: nat,
                                     entries: seq<MemmapEntry>, i: nat)
    requires i <= |entries| && RunPlan(s, root, Plan(kernel, hhdm, physBase, virtBase, entries[..i])).1.Failed?
    ensures RunPlan(s, root, Plan(kernel, hhdm, physBase, virtBase, entries)) ==
      RunPlan(s, root, Plan(kernel, hhdm, physBase, virtBase, entries[..i]))
    decreases |entries|
  {
    hide EntrySpans, RunPlan;
    if i == |entries| {
      assert entries[..i] == entries;
    } else {
      var front := entries[..|entries| - 1];
      assert front[..i] == entries[..i];
      PlanStays(s, root, kernel, hhdm, physBase, virtBase, front, i);
      RunPlanAppend(s, root, Plan(kernel, hhdm, physBase, virtBase, front),
        EntrySpans(hhdm, physBase, virtBase, entries[|entries| - 1]));
    }
  }

  /** Everything the build maps lies in the upper half. */
  ghost predicate AllUpper(hhdm: Word, physBase: nat, virtBase: nat, kstart: Word, kend: Word,
                           entries: seq<MemmapEntry>) {
    && kstart < kend && UpperHalf(kstart / 0x1000, PageAlignUp(kend - kstart) / 0x1000)
    && forall i | 0 <= i < |entries| :: EntryUpper(hhdm, physBase, virtBase, entries[i])
  }

  /** What a build returns: an empty or misplaced kernel is refused, and otherwise a new
      root gets exactly the planned mappings or the first error met on the way. */
  ghost predicate BuildIs(s: State, s': State, r: BuildResult, hhdm: Word, physBase: nat, virtBase: nat, kstart: Word,
                          kend: Word, entries: seq<MemmapEntry>) {
    if kend <= kstart then r == NotBuilt(KernelEmpty) && s' == s
    else if kstart < virtBase then r == NotBuilt(KernelBelowBase) && s' == s
    else if AllocTable(s).1.Err? then r == NotBuilt(Mapping(AllocTable(s).1.error)) && s' == s
    else
      var kernel := Span(kstart, physBase + (kstart - virtBase), PageAlignUp(kend - kstart));
      && kernel.phys + kernel.len <= 0x10_0000_0000_0000
      && var (s1, o) := RunPlan(AllocTable(s).0, AllocTable(s).1.value,
           Plan(kernel, hhdm, physBase, virtBase, entries));
      && s' == s1.(tables := 0)
      && r == if o.Failed? then NotBuilt(Mapping(o.error))
         else Built(AllocTable(s).1.value, kernel.phys, kernel.len, s1.tables, Saturated(DirectBytes(entries)),
           DirectSpans(entries))
  }

  lemma {:induction false} BytesPersist(s: State, sh: Shape, s': State, sh': Shape, root: nat, virt: nat, phys: nat,
                                        len: nat)
    requires Inv(s, sh) && Extends(s, sh, s', sh') && IsRoot(sh, root)
    requires BytesMapped(s.mem, root, virt, phys, len)
    ensures BytesMapped(s'.mem, root, virt, phys, len)
  {
    hide Inv, Extends, Walk, WalkAccess, PageOf;
    forall va | virt <= va < virt + len
      ensures TranslateAddr(s'.mem, root, va) == Some(phys + (va - virt)) && AccessAt(s'.mem, root, va) == KERNEL_ACCESS
    {
      assert TranslateAddr(s.mem, root, va) == Some(phys + (va - virt)) && AccessAt(s.mem, root, va) == KERNEL_ACCESS;
      TranslationsPersist(s, sh, s', sh', root, PageOf(va));
    }
  }

  lemma EntryPersists(s: State, sh: Shape, s': State, sh': Shape, root: nat, hhdm: Word, physBase: nat, virtBase: nat,
                      e: MemmapEntry)
    requires Inv(s, sh) && Extends(s, sh, s', sh') && IsRoot(sh, root)
    requires EntryMapped(s.mem, root, hhdm, physBase, virtBase, e)
    ensures EntryMapped(s'.mem, root, hhdm, physBase, virtBase, e)
  {
    hide Inv, Extends, BytesMapped, FirstPage, EndPage;
    if HasPages(e) {
      if HhdmMapped(e.kind) {
        BytesPersist(s, sh, s', sh', root, HhdmVirt(hhdm, FirstPage(e)), FirstPage(e), EndPage(e) - FirstPage(e));
      }
      if IsImage(e, physBase) {
        BytesPersist(s, sh, s', sh', root, virtBase + (FirstPage(e) - physBase), FirstPage(e),
          EndPage(e) - FirstPage(e));
      }
    }
  }

  /** `root` is a root, and the only one. */
  ghost predicate OnlyRoot(sh: Shape, root: nat) {
    IsRoot(sh, root) && forall t | IsRoot(sh, t) :: t == root
  }

  /** What holds between two mapping steps of the build. */
  ghost predicate Building(s0: State, s: State, sh: Shape, root: nat) {
    Inv(s, sh) && Grows(s0, map[], s, sh) && OnlyRoot(sh, root)
  }

  /** A fresh root with nothing mapped. */
  lemma NewRoot(s: State) returns (sh': Shape)
    requires Inv(s, map[]) && AllocTable(s).1.Ok?
    ensures var (s', r) := AllocTable(s);
      && Building(s, s', sh', r.value) && s'.tables == s.tables + 1
      && AddressSpaces.LowEmpty(s'.mem, r.value)
  {
    var root := AllocTable(s).1.value;
    sh' := map[root := Node(4, 0, root)];
  }

  lemma NoTable(s: State)
    requires AllocTable(s).1.Err?
    ensures AllocTable(s).0 == s
  {
  }

  lemma WholePages(len: nat)
    requires len % 0x1000 == 0
    ensures len / 0x1000 * 0x1000 == len
  {
  }

  lemma EntryPages(e: MemmapEntry)
    requires HasPages(e)
    ensures EndPage(e) <= 0x10_0000_0000_0000
    ensures (EndPage(e) - FirstPage(e)) / 0x1000 * 0x1000 == EndPage(e) - FirstPage(e)
  {
    assert FirstPage(e) % 0x1000 == 0 && EndPage(e) % 0x1000 == 0;
  }

  method Build(bump: BumpAllocator, mem: PhysMem, hhdm: Word, physBase: nat, virtBase: nat, kstart: Word, kend: Word,
               entries: seq<MemmapEntry>)
    returns (r: BuildResult, ghost sh: Shape)
    requires Inv(Snapshot(mem, bump, 0), map[])
    requires virtBase <= kstart < kend ==>
      physBase + (kstart - virtBase) + PageAlignUp(kend - kstart) <= 0x10_0000_0000_0000
    modifies bump, mem
    ensures r.Built? ==>
      && Inv(Snapshot(mem, bump, 0), sh) && OnlyRoot(sh, r.pml4)
      && BytesMapped(mem.frames, r.pml4, kstart, r.kernelPhys, r.kernelLen)
      && virtBase <= kstart < kend && r.kernelPhys == physBase + (kstart - virtBase)
      && r.kernelLen == PageAlignUp(kend - kstart)
      && forall i | 0 <= i < |entries| :: EntryMapped(mem.frames, r.pml4, hhdm, physBase, virtBase, entries[i])
    ensures r.Built? ==>
      && bump.cursor == old(bump.cursor) + 0x1000 * r.tablePages
      && forall f: nat :: f in sh <==> old(bump.cursor) <= 0x1000 * f < bump.cursor
    ensures r.Built? && AllUpper(hhdm, physBase, virtBase, kstart, kend, entries) ==>
      AddressSpaces.LowEmpty(mem.frames, r.pml4)
    ensures BuildIs(old(Snapshot(mem, bump, 0)), Snapshot(mem, bump, 0), r, hhdm, physBase, virtBase, kstart, kend,
      entries)
  {
    hide RunPlan, Plan, MapRange;
    hide Building, Inv, Extends, Grows, BytesMapped, EntryMapped, EntryUpper, UpperHalf, AddressSpaces.LowEmpty,
         AllocTable, PageAlignUp;
    sh := map[];
    if kend <= kstart {
      return NotBuilt(KernelEmpty), sh;
    }
    if kstart < virtBase {
      return NotBuilt(KernelBelowBase), sh;
    }
    var kernelPhys := physBase + (kstart - virtBase);
    var kernelLen := PageAlignUp(kend - kstart);
    WholePages(kernelLen);
    ghost var s0 := Snapshot(mem, bump, 0);
    var first := new Mapper(bump, mem, 0, 0);
    var root := first.NewTable();
    if root.Err? {
      NoTable(s0);
      return NotBuilt(Mapping(root.error)), sh;
    }
    sh := NewRoot(s0);
    var mapper := new Mapper(bump, mem, root.value, 1);
    ghost var upper := AllUpper(hhdm, physBase, virtBase, kstart, kend, entries);
    ghost var kernel := Span(kstart, kernelPhys, kernelLen);
    ghost var start := mapper.Now();
    FirstOfPlan(start, root.value, kernel, hhdm, physBase, virtBase, entries);
    var o;
    o, sh := Step(mapper, kstart, kernelPhys, kernelLen, s0, sh, upper);
    if o.Failed? {
      PlanStays(start, root.value, kernel, hhdm, physBase, virtBase, entries, 0);
      return NotBuilt(Mapping(o.error)), sh;
    }
    var bytes, spans;
    o, bytes, spans, sh := MapEntries(mapper, hhdm, physBase, virtBase, entries, kernel, s0, start, sh, upper);
    if o.Failed? {
      return NotBuilt(Mapping(o.error)), sh;
    }
    BuildingTables(s0, mapper.Now(), sh, root.value);
    r := Built(root.value, kernelPhys, kernelLen, mapper.tablePages, bytes, spans);
  }

  /** The entries of the memory map in order, up to the first that fails. */
  method MapEntries(mapper: Mapper, hhdm: Word, physBase: nat, virtBase: nat, entries: seq<MemmapEntry>,
                    ghost kernel: Span, ghost s0: State, ghost start: State, ghost sh: Shape, ghost upper: bool)
    returns (o: Outcome, bytes: Word, spans: nat, ghost sh': Shape)
    requires Building(s0, mapper.Now(), sh, mapper.pml4)
    requires RunPlan(start, mapper.pml4, Plan(kernel, hhdm, physBase, virtBase, entries[..0])) == (mapper.Now(), Done)
    requires BytesMapped(mapper.mem.frames, mapper.pml4, kernel.virt, kernel.phys, kernel.len)
    requires upper ==> AddressSpaces.LowEmpty(mapper.mem.frames, mapper.pml4) && forall i | 0 <= i < |entries| ::
      EntryUpper(hhdm, physBase, virtBase, entries[i])
    modifies mapper, mapper.bump, mapper.mem
    ensures (mapper.Now(), o) == RunPlan(start, mapper.pml4, Plan(kernel, hhdm, physBase, virtBase, entries))
    ensures o.Done? ==> bytes == Saturated(DirectBytes(entries)) && spans == DirectSpans(entries)
    ensures o.Done? ==>
      && Building(s0, mapper.Now(), sh', mapper.pml4)
      && BytesMapped(mapper.mem.frames, mapper.pml4, kernel.virt, kernel.phys, kernel.len)
      && (upper ==> AddressSpaces.LowEmpty(mapper.mem.frames, mapper.pml4))
      && forall j | 0 <= j < |entries| ::
           EntryMapped(mapper.mem.frames, mapper.pml4, hhdm, physBase, virtBase, entries[j])
  {
    hide RunPlan, Plan, MapRange, Building, Inv, Extends, Grows, BytesMapped, EntryMapped, EntryUpper,
         AddressSpaces.LowEmpty;
    hide FirstPage, EndPage, HhdmMapped, DirectBytes, DirectSpans;
    sh' := sh;
    bytes, spans := 0, 0;
    NoneDirect(entries[..0]);
    var i := 0;
    while i < |entries|
      invariant 0 <= i <= |entries|
      invariant bytes == Saturated(DirectBytes(entries[..i])) && spans == DirectSpans(entries[..i])
      invariant Building(s0, mapper.Now(), sh', mapper.pml4)
      invariant RunPlan(start, mapper.pml4, Plan(kernel, hhdm, physBase, virtBase, entries[..i])) ==
        (mapper.Now(), Done)
      invariant upper ==> AddressSpaces.LowEmpty(mapper.mem.frames, mapper.pml4)
      invariant BytesMapped(mapper.mem.frames, mapper.pml4, kernel.virt, kernel.phys, kernel.len)
      invariant forall j | 0 <= j < i ::
        EntryMapped(mapper.mem.frames, mapper.pml4, hhdm, physBase, virtBase, entries[j])
    {
      ghost var s, sh1 := mapper.Now(), sh';
      o, sh' := MapEntry(mapper, hhdm, physBase, virtBase, entries[i], s0, sh1, upper);
      NextOfPlan(start, mapper.pml4, kernel, hhdm, physBase, virtBase, entries, i);
      if o.Failed? {
        PlanStays(start, mapper.pml4, kernel, hhdm, physBase, virtBase, entries, i + 1);
        return;
      }
      AllPersist(s, sh1, mapper.Now(), sh', mapper.pml4, hhdm, physBase, virtBase, entries[..i], s0);
      BuildingInv(s0, s, sh1, mapper.pml4);
      BytesPersist(s, sh1, mapper.Now(), sh', mapper.pml4, kernel.virt, kernel.phys, kernel.len);
      DirectNext(entries, i);
      if InDirectMap(entries[i]) {
        bytes := SaturatingAdd(bytes, EndPage(entries[i]) - FirstPage(entries[i]));
        spans := spans + 1;
      }
      i := i + 1;
    }
    assert entries[..|entries|] == entries;
    o := Done;
  }

  lemma NoneDirect(entries: seq<MemmapEntry>)
    requires entries == []
    ensures DirectBytes(entries) == 0 && DirectSpans(entries) == 0
  {
  }

  /** Adding with saturation entry by entry saturates the sum. */
  lemma DirectNext(entries: seq<MemmapEntry>, i: nat)
    requires i < |entries|
    ensures var e := entries[i]; var len := if InDirectMap(e) then EndPage(e) - FirstPage(e) else 0;
      && DirectBytes(entries[..i + 1]) == DirectBytes(entries[..i]) + len
      && DirectSpans(entries[..i + 1]) == DirectSpans(entries[..i]) + (if InDirectMap(e) then 1 else 0)
      && len < 0x1_0000_0000_0000_0000
      && Saturated(DirectBytes(entries[..i + 1])) == SaturatingAdd(Saturated(DirectBytes(entries[..i])), len)
  {
    hide FirstPage, HhdmMapped;
    assert entries[..i + 1][..i] == entries[..i];
  }

  lemma FirstOfPlan(s: State, root: nat, kernel: Span, hhdm: Word, physBase: nat, virtBase: nat,
                    entries: seq<MemmapEntry>)
    ensures RunPlan(s, root, Plan(kernel, hhdm, physBase, virtBase, entries[..0])) ==
      MapRange(s, root, kernel.virt, kernel.phys, kernel.len)
  {
    hide MapRange;
    assert [kernel][..0] == [];
  }

  lemma NextOfPlan(s: State, root: nat, kernel: Span, hhdm: Word, physBase: nat, virtBase: nat,
                   entries: seq<MemmapEntry>, i: nat)
    requires i < |entries| && RunPlan(s, root, Plan(kernel, hhdm, physBase, virtBase, entries[..i])).1.Done?
    ensures RunPlan(s, root, Plan(kernel, hhdm, physBase, virtBase, entries[..i + 1]))
      == RunPlan(RunPlan(s, root, Plan(kernel, hhdm, physBase, virtBase, entries[..i])).0, root,
        EntrySpans(hhdm, physBase, virtBase, entries[i]))
  {
    hide RunPlan, EntrySpans;
    assert entries[..i + 1][..i] == entries[..i];
    RunPlanAppend(s, root, Plan(kernel, hhdm, physBase, virtBase, entries[..i]),
      EntrySpans(hhdm, physBase, virtBase, entries[i]));
  }

  lemma BuildingInv(s0: State, s: State, sh: Shape, root: nat)
    requires Building(s0, s, sh, root)
    ensures Inv(s, sh) && IsRoot(sh, root)
  {
  }

  lemma BuildingTables(s0: State, s: State, sh: Shape, root: nat)
    requires Building(s0, s, sh, root)
    ensures Inv(s, sh) && OnlyRoot(sh, root) && Inv(s.(tables := 0), sh)
    ensures s.cursor - s0.cursor == 0x1000 * (s.tables - s0.tables)
    ensures forall f: nat :: f in sh <==> s0.cursor <= 0x1000 * f < s.cursor
  {
  }

  lemma AllPersist(s: State, sh: Shape, s': State, sh': Shape, root: nat, hhdm: Word, physBase: nat, virtBase: nat,
                   entries: seq<MemmapEntry>, s0: State)
    requires Building(s0, s, sh, root) && Extends(s, sh, s', sh')
    requires forall j | 0 <= j < |entries| :: EntryMapped(s.mem, root, hhdm, physBase, virtBase, entries[j])
    ensures forall j | 0 <= j < |entries| :: EntryMapped(s'.mem, root, hhdm, physBase, virtBase, entries[j])
  {
    forall j | 0 <= j < |entries|
      ensures EntryMapped(s'.mem, root, hhdm, physBase, virtBase, entries[j])
    {
      EntryPersists(s, sh, s', sh', root, hhdm, physBase, virtBase, entries[j]);
    }
  }

  lemma EntryRun(s: State, root: nat, hhdm: Word, physBase: nat, virtBase: nat, e: MemmapEntry)
    requires HasPages(e) && EndPage(e) <= 0x10_0000_0000_0000
    ensures RunPlan(s, root, EntrySpans(hhdm, physBase, virtBase, e)) ==
      var start, len := FirstPage(e), EndPage(e) - FirstPage(e);
      var (s1, o) := if IsImage(e, physBase) then MapRange(s, root, virtBase + (start - physBase), start, len)
        else (s, Done);
      if o.Failed? || !HhdmMapped(e.kind) then (s1, o) else MapRange(s1, root, HhdmVirt(hhdm, start), start, len)
  {
    hide MapRange, FirstPage, EndPage, RunPlan;
    var start, len := FirstPage(e), EndPage(e) - FirstPage(e);
    var a: seq<Span> := if IsImage(e, physBase) then [Span(virtBase + (start - physBase), start, len)] else [];
    var b: seq<Span> := if HhdmMapped(e.kind) then [Span(HhdmVirt(hhdm, start), start, len)] else [];
    RunPlanAppend(s, root, a, b);
    RunShort(s, root, Span(virtBase + (if IsImage(e, physBase) then start - physBase else 0), start, len));
    RunShort(RunPlan(s, root, a).0, root, Span(HhdmVirt(hhdm, start), start, len));
  }

  lemma RunShort(s: State, root: nat, x: Span)
    ensures RunPlan(s, root, []) == (s, Done) && RunPlan(s, root, [x]) == MapRange(s, root, x.virt, x.phys, x.len)
  {
    hide MapRange;
    assert [x][..0] == [];
  }

  /** One entry of the memory map. */
  method MapEntry(mapper: Mapper, hhdm: Word, physBase: nat, virtBase: nat, e: MemmapEntry, ghost s0: State,
                  ghost sh: Shape, ghost upper: bool)
    returns (o: Outcome, ghost sh': Shape)
    requires Building(s0, mapper.Now(), sh, mapper.pml4)
    requires upper ==> AddressSpaces.LowEmpty(mapper.mem.frames, mapper.pml4) && EntryUpper(hhdm, physBase, virtBase, e)
    modifies mapper, mapper.bump, mapper.mem
    ensures Building(s0, mapper.Now(), sh', mapper.pml4) && Extends(old(mapper.Now()), sh, mapper.Now(), sh')
    ensures upper ==> AddressSpaces.LowEmpty(mapper.mem.frames, mapper.pml4)
    ensures o.Done? ==> EntryMapped(mapper.mem.frames, mapper.pml4, hhdm, physBase, virtBase, e)
    ensures (mapper.Now(), o) == RunPlan(old(mapper.Now()), mapper.pml4, EntrySpans(hhdm, physBase, virtBase, e))
  {
    hide MapRange, RunPlan;
    hide Building, Inv, Extends, Grows, BytesMapped, UpperHalf, AddressSpaces.LowEmpty, FirstPage, EndPage;
    sh' := sh;
    o := Done;
    ghost var s := mapper.Now();
    ExtendsRefl(s, sh);
    RunShort(s, mapper.pml4, Span(0, 0, 0));
    if HasPages(e) {
      EntryPages(e);
      EntryRun(s, mapper.pml4, hhdm, physBase, virtBase, e);
      var start, len := FirstPage(e), EndPage(e) - FirstPage(e);
      if IsImage(e, physBase) {
        o, sh' := Step(mapper, virtBase + (start - physBase), start, len, s0, sh, upper);
        if o.Failed? {
          return;
        }
      }
      ghost var s1, sh1 := mapper.Now(), sh';
      if HhdmMapped(e.kind) {
        o, sh' := Step(mapper, HhdmVirt(hhdm, start), start, len, s0, sh1, upper);
        ExtendsTrans(s, sh, s1, sh1, mapper.Now(), sh');
        if o.Done? && IsImage(e, physBase) {
          BuildingInv(s0, s1, sh1, mapper.pml4);
          BytesPersist(s1, sh1, mapper.Now(), sh', mapper.pml4, virtBase + (start - physBase), start, len);
        }
      }
    }
  }

  /** One mapping step of the build. */
  method Step(mapper: Mapper, virt: nat, phys: nat, len: nat, ghost s0: State, ghost sh: Shape, ghost upper: bool)
    returns (o: Outcome, ghost sh': Shape)
    requires phys + len <= 0x10_0000_0000_0000
    requires Building(s0, mapper.Now(), sh, mapper.pml4)
    requires upper ==> AddressSpaces.LowEmpty(mapper.mem.frames, mapper.pml4) && UpperHalf(virt / 0x1000, len / 0x1000)
    modifies mapper, mapper.bump, mapper.mem
    ensures Building(s0, mapper.Now(), sh', mapper.pml4) && Extends(old(mapper.Now()), sh, mapper.Now(), sh')
    ensures upper ==> AddressSpaces.LowEmpty(mapper.mem.frames, mapper.pml4)
    ensures o.Done? ==> BytesMapped(mapper.mem.frames, mapper.pml4, virt, phys, len / 0x1000 * 0x1000)
    ensures (mapper.Now(), o) == MapRange(old(mapper.Now()), mapper.pml4, virt, phys, len)
  {
    hide MapRange, BytesMapped, AllMapped, Extends, Inv, Spread, Trouble;
    ghost var s := mapper.Now();
    o := mapper.MapRange(virt, phys, len);
    sh' := MapRangeMaps(s, sh, mapper.pml4, virt, phys, len);
    GrowsTrans(s0, map[], s, sh, mapper.Now(), sh');
  }

  lemma WrapKeepsPage(va: nat)
    ensures PageOf(va % 0x1_0000_0000_0000_0000) == PageOf(va)
    ensures va % 0x1_0000_0000_0000_0000 % 0x1000 == va % 0x1000
  {
    var q, r := va / 0x1_0000_0000_0000_0000, va % 0x1_0000_0000_0000_0000;
    Arithmetic.Quotient(va, 0x1000, q * 0x10_0000_0000_0000 + r / 0x1000, r % 0x1000);
    var p, k := r / 0x1000 / 0x10_0000_0000, r / 0x1000 % 0x10_0000_0000;
    Arithmetic.Quotient(va / 0x1000, 0x10_0000_0000, q * 0x1_0000 + p, k);
  }

  /** The frames an allocator over entry `e` can hand out. */
  ghost predicate InRegion(e: MemmapEntry, pa: nat) {
    RegionStart(e) <= pa / 0x1000 * 0x1000 && pa / 0x1000 * 0x1000 + 0x1000 <= e.base + e.length
  }

  /** With an allocator made from the same memory map, every frame it has handed
      out or ever will, page tables included, is reachable through the new direct
      map. */
  lemma AllocatorReachable(m: Mem, root: nat, hhdm: Word, physBase: nat, virtBase: nat, e: MemmapEntry, pa: nat)
    requires e.kind == MEMMAP_USABLE && EntryMapped(m, root, hhdm, physBase, virtBase, e) && InRegion(e, pa)
    ensures TranslateAddr(m, root, HhdmVirt(hhdm, pa)) == Some(pa)
  {
    hide Walk, PageOf;
    assert FirstPage(e) <= pa < EndPage(e);
    hide FirstPage, EndPage, InRegion, HhdmVirt;
    var va := HhdmVirt(hhdm, FirstPage(e)) + (pa - FirstPage(e));
    assert TranslateAddr(m, root, va) == Some(pa);
    DirectOffset(hhdm, FirstPage(e), pa);
  }

  /** The direct map runs on over the end of the address space. */
  lemma DirectOffset(hhdm: Word, first: nat, pa: nat)
    requires first <= pa
    ensures var va := HhdmVirt(hhdm, first) + (pa - first);
      PageOf(HhdmVirt(hhdm, pa)) == PageOf(va) && HhdmVirt(hhdm, pa) % 0x1000 == va % 0x1000
  {
    hide PageOf;
    var va := HhdmVirt(hhdm, first) + (pa - first);
    var q := (hhdm + first) / 0x1_0000_0000_0000_0000;
    assert hhdm + pa == q * 0x1_0000_0000_0000_0000 + va;
    WrapSum(q, va);
    WrapKeepsPage(va);
  }

  lemma WrapSum(q: nat, va: nat)
    ensures (q * 0x1_0000_0000_0000_0000 + va) % 0x1_0000_0000_0000_0000 == va % 0x1_0000_0000_0000_0000
  {
    Arithmetic.Quotient(q * 0x1_0000_0000_0000_0000 + va, 0x1_0000_0000_0000_0000,
                        q + va / 0x1_0000_0000_0000_0000, va % 0x1_0000_0000_0000_0000);
  }

  /** Memory and allocator once the first page of region `e` was taken and probed. */
  ghost function Probed(m: Mem, e: MemmapEntry): State
    requires RegionStart(e) + MIN_REGION <= e.base + e.length
  {
    State(PhysBytes.CopyIn(m, RegionStart(e), [0x5a]), RegionStart(e) + 0x1000, e.base + e.length, 0)
  }

  /** Memory bring-up: the allocator, a scratch page to probe it, and the kernel
      tables, all from one memory map. */
  method BringUp(mem: PhysMem, hhdm: Word, physBase: nat, virtBase: nat, kstart: Word, kend: Word,
                 entries: seq<MemmapEntry>)
    returns (r: Option<(BumpAllocator, BuildResult)>, ghost sh: Shape, ghost region: nat)
    requires virtBase <= kstart < kend ==>
      physBase + (kstart - virtBase) + PageAlignUp(kend - kstart) <= 0x10_0000_0000_0000
    modifies mem
    ensures r.None? ==> NoRegion(entries) || exists i: nat ::
      IsBest(entries, i) && RegionStart(entries[i]) / 0x1000 !in old(mem.frames)
    ensures r.Some? ==> fresh(r.value.0) && r.value.0.hhdm == hhdm && IsBest(entries, region)
    ensures r.Some? ==> RegionStart(entries[region]) + MIN_REGION <= entries[region].base + entries[region].length
    ensures r.Some? ==>
      BuildIs(Probed(old(mem.frames), entries[region]), Snapshot(mem, r.value.0, 0), r.value.1, hhdm, physBase,
        virtBase, kstart, kend, entries)
    ensures r.Some? && r.value.1.Built? ==> var (bump, b) := r.value;
      && Inv(Snapshot(mem, bump, 0), sh) && OnlyRoot(sh, b.pml4)
      && region < |entries| && bump.start == RegionStart(entries[region])
      && bump.end == entries[region].base + entries[region].length
      && bump.cursor == bump.start + 0x1000 * (1 + b.tablePages)
      && (forall pa: nat | InRegion(entries[region], pa) ::
           TranslateAddr(mem.frames, b.pml4, HhdmVirt(hhdm, pa)) == Some(pa))
      && (forall t | t in sh :: InRegion(entries[region], 0x1000 * t))
      && (AllUpper(hhdm, physBase, virtBase, kstart, kend, entries) ==> AddressSpaces.LowEmpty(mem.frames, b.pml4))
  {
    hide EntryMapped, TranslateAddr, BytesMapped, IsBest, Inv, RegionStart, InRegion, PhysBytes.ByteAt,
         PhysBytes.CopyIn, BuildIs, AllUpper, AddressSpaces.LowEmpty;
    var found;
    ghost var best;
    found, best := BumpAllocator.FromMemmap(hhdm, entries);
    sh, region := map[], 0;
    if found.None? {
      NoneFound(entries, best);
      return None, sh, region;
    }
    var bump := found.value;
    region := best.value;
    BestUsable(entries, region);
    RegionAligned(entries[region]);
    Roomy(bump.cursor, bump.end);
    var scratch := bump.Alloc(1);
    if scratch.None? {
      return None, sh, region;
    }
    Probe(mem.frames, scratch.value);
    mem.Copy(scratch.value, [0x5a]);
    if PhysBytes.ByteAt(mem.frames, scratch.value) != 0x5a {
      return None, sh, region;
    }
    ghost var first := bump.cursor;
    assert Snapshot(mem, bump, 0) == Probed(old(mem.frames), entries[region]);
    StartInv(Snapshot(mem, bump, 0));
    var b;
    b, sh := Build(bump, mem, hhdm, physBase, virtBase, kstart, kend, entries);
    if b.Built? {
      forall pa: nat | InRegion(entries[region], pa)
        ensures TranslateAddr(mem.frames, b.pml4, HhdmVirt(hhdm, pa)) == Some(pa)
      {
        AllocatorReachable(mem.frames, b.pml4, hhdm, physBase, virtBase, entries[region], pa);
      }
      TablesInRegion(entries[region], first, Snapshot(mem, bump, 0), sh);
    }
    r := Some((bump, b));
  }

  /** No usable region, or the longest has less than 64 KiB after alignment. */
  ghost predicate NoRegion(entries: seq<MemmapEntry>) {
    forall i: nat | IsBest(entries, i) :: entries[i].base + entries[i].length < RegionStart(entries[i]) + MIN_REGION
  }

  lemma NoneFound(entries: seq<MemmapEntry>, best: Option<nat>)
    requires best.None? ==> forall j | 0 <= j < |entries| :: entries[j].kind != MEMMAP_USABLE
    requires best.Some? ==> IsBest(entries, best.value)
    requires best.Some? ==>
      entries[best.value].base + entries[best.value].length < RegionStart(entries[best.value]) + MIN_REGION
    ensures NoRegion(entries)
  {
    hide RegionStart;
    forall i: nat | IsBest(entries, i)
      ensures best.Some? && i == best.value
    {
      assert entries[i].kind == MEMMAP_USABLE;
    }
  }

  lemma Roomy(cursor: Word, end: PhysEnd)
    requires cursor % 0x1000 == 0 && cursor + MIN_REGION <= end
    ensures AllocPages(cursor, end, 1) == Some((cursor, cursor + 0x1000))
  {
  }

  /** A byte written to a page that exists reads back. */
  lemma Probe(m: Mem, pa: nat)
    ensures pa / 0x1000 in m ==> PhysBytes.ByteAt(PhysBytes.CopyIn(m, pa, [0x5a]), pa) == 0x5a
  {
    hide PhysBytes.CopyIn, PhysBytes.ByteAt;
    if pa / 0x1000 in m {
      PhysBytes.CopyInOk(m, pa, [0x5a], pa / 0x1000, 1);
    }
  }

  lemma BestUsable(entries: seq<MemmapEntry>, i: nat)
    requires IsBest(entries, i)
    ensures i < |entries| && entries[i].kind == MEMMAP_USABLE
  {
  }

  lemma RegionAligned(e: MemmapEntry)
    ensures RegionStart(e) % 0x1000 == 0 && 0x1000 <= RegionStart(e)
  {
  }

  lemma StartInv(s: State)
    requires s.cursor % 0x1000 == 0 && 0x1000 <= s.cursor <= s.end
    ensures Inv(s, map[])
  {
  }

  lemma TablesInRegion(e: MemmapEntry, first: nat, s: State, sh: Shape)
    requires Inv(s, sh) && s.end == e.base + e.length && RegionStart(e) <= first
    requires forall t | t in sh :: first <= 0x1000 * t < s.cursor
    ensures forall t | t in sh :: InRegion(e, 0x1000 * t)
  {
  }
}
