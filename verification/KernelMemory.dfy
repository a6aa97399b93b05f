/** The kernel's memory objects: physical memory, the bump allocator, the
    page-table mapper and court address spaces. Each method is proved against the
    function on states that specifies it. */
module KernelMemory {
  import opened MachineWords
  import opened PageTables
  import opened PageMapper
  import PhysBytes
  import AddressSpaces

  class PhysMem {
    var frames: Mem

    constructor (m: Mem)
      ensures frames == m
    {
      frames := m;
    }

    method WriteWord(frame: nat, i: nat, w: Word)
      requires i < 512
      modifies this
      ensures frames == Put(old(frames), frame, i, w)
    {
      frames := Put(frames, frame, i, w);
    }

    /** Fills `n` frames from `frame` on with zeroes. */
    method Zero(frame: nat, n: nat)
      modifies this
      ensures frames == PhysBytes.ZeroFrames(old(frames), frame, n)
    {
      frames := PhysBytes.ZeroFrames(frames, frame, n);
    }

    /** Copies bytes to physical address `pa` on. */
    method Copy(pa: nat, bytes: seq<Byte>)
      modifies this
      ensures frames == PhysBytes.CopyIn(old(frames), pa, bytes)
    {
      frames := PhysBytes.CopyIn(frames, pa, bytes);
    }
  }

  // ----- bump allocator -----

  const MEMMAP_USABLE := 0
  const MEMMAP_BOOTLOADER_RECLAIMABLE := 5
  const MEMMAP_EXECUTABLE_AND_MODULES := 6
  const MEMMAP_FRAMEBUFFER := 7
  const MIN_REGION := 0x1_0000

  datatype AnyEntry = MemmapEntry(base: nat, length: nat, kind: nat)

  /** A region of physical memory: addresses have at most 52 bits. */
  type MemmapEntry = e: AnyEntry | e.base + e.length <= 0x10_0000_0000_0000 witness MemmapEntry(0, 0, 0)

  /** Entry `i` is the first of the longest usable entries. */
  predicate IsBest(entries: seq<MemmapEntry>, i: nat) {
    && i < |entries| && entries[i].kind == MEMMAP_USABLE
    && forall j | 0 <= j < |entries| && entries[j].kind == MEMMAP_USABLE ::
         entries[j].length <= entries[i].length && (j < i ==> entries[j].length < entries[i].length)
  }

  function RegionStart(e: MemmapEntry): nat {
    if PageAlignUp(e.base) < 0x1000 then 0x1000 else PageAlignUp(e.base)
  }

  class BumpAllocator {
    const hhdm: Word
    const start: Word
    const end: PhysEnd
    var cursor: Word

    constructor (hhdm: Word, start: Word, end: PhysEnd)
      ensures this.hhdm == hhdm && this.start == start && this.end == end && cursor == start
    {
      this.hhdm := hhdm;
      this.start := start;
      this.end := end;
      cursor := start;
    }

    /** The allocator covers the first of the longest usable regions, if that
        region has at least 64 KiB left after alignment. */
    static method FromMemmap(hhdm: Word, entries: seq<MemmapEntry>)
      returns (r: Option<BumpAllocator>, ghost best: Option<nat>)
      ensures best.Some? ==> IsBest(entries, best.value)
      ensures best.None? ==> forall j | 0 <= j < |entries| :: entries[j].kind != MEMMAP_USABLE
      ensures r.Some? <==>
        best.Some?
        && RegionStart(entries[best.value]) + MIN_REGION <= entries[best.value].base + entries[best.value].length
      ensures r.Some? ==> fresh(r.value) && r.value.hhdm == hhdm
      ensures r.Some? ==> var e := entries[best.value];
        r.value.start == RegionStart(e) && r.value.end == e.base + e.length && r.value.cursor == r.value.start
    {
      var found := false;
      var i := 0;
      var longest: MemmapEntry := MemmapEntry(0, 0, 0);
      best := None;
      while i < |entries|
        invariant 0 <= i <= |entries|
        invariant found <==> best.Some?
        invariant found ==> best.value < i && longest == entries[best.value] && IsBest(entries[..i], best.value)
        invariant !found ==> forall j | 0 <= j < i :: entries[j].kind != MEMMAP_USABLE
      {
        if entries[i].kind == MEMMAP_USABLE && (!found || entries[i].length > longest.length) {
          found, longest := true, entries[i];
          best := Some(i);
        }
        i := i + 1;
      }
      assert entries[..i] == entries;
      if !found {
        return None, best;
      }
      var start := PageAlignUp(longest.base);
      if start < 0x1000 {
        start := 0x1000;
      }
      var end := SaturatingAdd(longest.base, longest.length);
      if (if end < start then 0 else end - start) < MIN_REGION {
        return None, best;
      }
      var allocator := new BumpAllocator(hhdm, start, end);
      r := Some(allocator);
    }

    method Alloc(pages: Word) returns (r: Option<nat>)
      modifies this
      ensures match AllocPages(old(cursor), end, pages)
        case None => r == None && cursor == old(cursor)
        case Some((phys, next)) => r == Some(phys) && cursor == next
    {
      var size := pages * 0x1000;
      if size >= 0x1_0000_0000_0000_0000 {
        return None;
      }
      var first := PageAlignUp(cursor);
      var next := first + size;
      if next >= 0x1_0000_0000_0000_0000 || next > end {
        return None;
      }
      cursor := next;
      r := Some(first);
    }
  }

  /** The state the mapper's specification speaks about. */
  ghost function Snapshot(mem: PhysMem, bump: BumpAllocator, tables: nat): State
    reads mem, bump
  {
    State(mem.frames, bump.cursor, bump.end, tables)
  }

  // ----- mapper -----

  class Mapper {
    const bump: BumpAllocator
    const mem: PhysMem
    const pml4: nat
    var tablePages: nat

    constructor (bump: BumpAllocator, mem: PhysMem, pml4: nat, tablePages: nat)
      ensures this.bump == bump && this.mem == mem && this.pml4 == pml4 && this.tablePages == tablePages
    {
      this.bump := bump;
      this.mem := mem;
      this.pml4 := pml4;
      this.tablePages := tablePages;
    }

    ghost function Now(): State
      reads this, mem, bump
    {
      Snapshot(mem, bump, tablePages)
    }

    method NewTable() returns (r: Result<nat>)
      modifies this, bump, mem
      ensures (Now(), r) == AllocTable(old(Now()))
    {
      var phys := bump.Alloc(1);
      if phys.None? {
        return Err(OutOfTablePages);
      }
      mem.Zero(phys.value / 0x1000, 1);
      assert PhysBytes.ZeroFrames(mem.frames, phys.value / 0x1000 + 1, 0) == mem.frames;
      tablePages := tablePages + 1;
      r := Ok(phys.value / 0x1000);
    }

    method EnsureTable(table: nat, index: nat) returns (r: Result<nat>)
      requires index < 512
      modifies this, bump, mem
      ensures (Now(), r) == PageMapper.EnsureTable(old(Now()), table, index)
    {
      var current := At(mem.frames, table, index);
      if Present(current) {
        if Huge(current) {
          return Err(HugeCollision);
        }
        return Ok(PhysFrame(current));
      }
      r := NewTable();
      if r.Ok? {
        mem.WriteWord(table, index, TableEntry(r.value));
      }
    }

    method Map4k(virt: nat, phys: Word) returns (o: Outcome)
      modifies this, bump, mem
      ensures (Now(), o) == PageMapper.Map4k(old(Now()), pml4, virt, phys)
    {
      hide PageMapper.EnsureTable;
      var pdpt := EnsureTable(pml4, Pml4Index(virt));
      if pdpt.Err? {
        return Failed(pdpt.error);
      }
      var pd := EnsureTable(pdpt.value, PdptIndex(virt));
      if pd.Err? {
        return Failed(pd.error);
      }
      var pt := EnsureTable(pd.value, PdIndex(virt));
      if pt.Err? {
        return Failed(pt.error);
      }
      var current := At(mem.frames, pt.value, PtIndex(virt));
      if Present(current) {
        if PhysFrame(current) != PhysFrame(phys) {
          return Failed(Conflict4k);
        }
        return Done;
      }
      mem.WriteWord(pt.value, PtIndex(virt), TableEntry(PhysFrame(phys)));
      o := Done;
    }

    method Map2m(virt: nat, phys: Word) returns (o: Outcome)
      modifies this, bump, mem
      ensures (Now(), o) == PageMapper.Map2m(old(Now()), pml4, virt, phys)
    {
      hide PageMapper.EnsureTable;
      var pdpt := EnsureTable(pml4, Pml4Index(virt));
      if pdpt.Err? {
        return Failed(pdpt.error);
      }
      var pd := EnsureTable(pdpt.value, PdptIndex(virt));
      if pd.Err? {
        return Failed(pd.error);
      }
      var current := At(mem.frames, pd.value, PdIndex(virt));
      if Present(current) {
        if !Huge(current) {
          return Failed(HugeCollision);
        }
        if PhysFrame(current) != PhysFrame(phys) {
          return Failed(Conflict2m);
        }
        return Done;
      }
      mem.WriteWord(pd.value, PdIndex(virt), HugeEntry(PhysFrame(phys)));
      o := Done;
    }

    method MapRange(virt: nat, phys: nat, len: nat) returns (o: Outcome)
      requires phys + len <= 0x10_0000_0000_0000
      modifies this, bump, mem
      ensures (Now(), o) == PageMapper.MapRange(old(Now()), pml4, virt, phys, len)
    {
      hide PageMapper.Map4k, PageMapper.Map2m;
      if virt % 0x1000 != 0 || phys % 0x1000 != 0 {
        return Failed(NotAligned);
      }
      var v: nat, p: nat, left: nat := virt, phys, len / 0x1000 * 0x1000;
      while left >= 0x1000
        invariant p + left <= 0x10_0000_0000_0000
        invariant MapLoop(Now(), pml4, v, p, left) == MapLoop(old(Now()), pml4, virt, phys, len / 0x1000 * 0x1000)
        decreases left
      {
        if left >= 0x20_0000 && v % 0x20_0000 == 0 && p % 0x20_0000 == 0 {
          o := Map2m(v, p);
          if o.Failed? {
            return;
          }
          v, p, left := v + 0x20_0000, p + 0x20_0000, left - 0x20_0000;
        } else {
          o := Map4k(v, p);
          if o.Failed? {
            return;
          }
          v, p, left := v + 0x1000, p + 0x1000, left - 0x1000;
        }
      }
      o := Done;
    }
  }

  // ----- address spaces -----

  class AddressSpace {
    const pml4: nat

    constructor (pml4: nat)
      ensures this.pml4 == pml4
    {
      this.pml4 := pml4;
    }

    /** Slot-by-slot copy of the published kernel root into a new root. */
    static method CloneKernel(bump: BumpAllocator, mem: PhysMem, kernel: nat)
      returns (r: Option<AddressSpace>, ghost e: Result<nat>)
      modifies bump, mem
      ensures r.Some? <==> e.Ok?
      ensures r.Some? ==> fresh(r.value) && r.value.pml4 == e.value
      ensures (Snapshot(mem, bump, 0), e) ==
        var (s, q) := AddressSpaces.CloneKernel(old(Snapshot(mem, bump, 0)), kernel); (s.(tables := 0), q)
    {
      if kernel == 0 {
        return None, Err(NotPublished);
      }
      var mapper := new Mapper(bump, mem, 0, 0);
      var root := mapper.NewTable();
      if root.Err? {
        return None, root;
      }
      ghost var m := mem.frames;
      var index := 0;
      while index < 512
        modifies mem
        invariant 0 <= index <= 512
        invariant root.value in mem.frames && mem.frames == m[root.value := mem.frames[root.value]]
        invariant forall j | 0 <= j < 512 ::
          At(mem.frames, root.value, j) == if j < index then At(m, kernel, j) else At(m, root.value, j)
      {
        mem.WriteWord(root.value, index, At(mem.frames, kernel, index));
        index := index + 1;
      }
      assert mem.frames[root.value] == AddressSpaces.Copy(m, kernel);
      var space := new AddressSpace(root.value);
      return Some(space), root;
    }

    method Map(bump: BumpAllocator, mem: PhysMem, virt: nat, phys: nat, len: nat) returns (o: Outcome)
      requires phys + len <= 0x10_0000_0000_0000
      modifies bump, mem
      ensures (Snapshot(mem, bump, 0), o) ==
        var (s, q) := AddressSpaces.SpaceMap(old(Snapshot(mem, bump, 0)), pml4, virt, phys, len); (s.(tables := 0), q)
    {
      if virt >= 0x8000_0000_0000 {
        return Failed(NotLowerHalf);
      }
      var mapper := new Mapper(bump, mem, pml4, 0);
      o := mapper.MapRange(virt, phys, len);
    }
  }
}
