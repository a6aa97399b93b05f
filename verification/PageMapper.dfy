/** The page-table mapper as a function of memory and allocator state. */
module PageMapper {
  import opened MachineWords
  import opened PageTables
  import Arithmetic

  datatype MapError =
    | NotAligned | OutOfTablePages | HugeCollision | Conflict4k | Conflict2m | NotLowerHalf | NotPublished

  datatype Result<+T> = Ok(value: T) | Err(error: MapError)

  datatype Outcome = Done | Failed(error: MapError)

  /** An allocator bound: physical addresses have at most 52 bits. */
  type PhysEnd = e: int | 0 <= e <= 0x10_0000_0000_0000

  /** Memory, the bump allocator's cursor and end, and the count of table pages. */
  datatype State = State(mem: Mem, cursor: Word, end: PhysEnd, tables: nat)

  /** First address handed out and the next cursor, or nothing. */
  function AllocPages(cursor: Word, end: PhysEnd, pages: Word): (r: Option<(nat, Word)>)
    ensures r.Some? ==> r.value.0 % 0x1000 == 0 && r.value.1 == r.value.0 + pages * 0x1000 <= end
    ensures r.Some? ==> cursor <= r.value.0 && (cursor % 0x1000 == 0 ==> r.value.0 == cursor)
    ensures r.None? && cursor % 0x1000 == 0 ==> cursor + pages * 0x1000 > end
  {
    if pages * 0x1000 >= 0x1_0000_0000_0000_0000 then None else
    var start := PageAlignUp(cursor);
    if start + pages * 0x1000 >= 0x1_0000_0000_0000_0000 || start + pages * 0x1000 > end then None
    else
      assert cursor <= 0xffff_ffff_ffff_f000;
      Some((start, start + pages * 0x1000))
  }

  function AllocTable(s: State): (State, Result<nat>) {
    match AllocPages(s.cursor, s.end, 1)
    case None => (s, Err(OutOfTablePages))
    case Some((phys, next)) =>
      (s.(mem := s.mem[phys / 0x1000 := ZeroFrame()], cursor := next, tables := s.tables + 1), Ok(phys / 0x1000))
  }

  function EnsureTable(s: State, t: nat, i: nat): (State, Result<nat>)
    requires i < 512
  {
    var current := At(s.mem, t, i);
    if Present(current) then
      if Huge(current) then (s, Err(HugeCollision)) else (s, Ok(PhysFrame(current)))
    else
      var (s1, next) := AllocTable(s);
      if next.Err? then (s1, next)
      else (s1.(mem := Put(s1.mem, t, i, TableEntry(next.value))), next)
  }

  /** The two table levels above the page directory. */
  function EnsurePd(s: State, root: nat, virt: nat): (State, Result<nat>) {
    var (s1, pdpt) := EnsureTable(s, root, Pml4Index(virt));
    if pdpt.Err? then (s1, pdpt) else EnsureTable(s1, pdpt.value, PdptIndex(virt))
  }

  function Map4k(s: State, root: nat, virt: nat, phys: Word): (State, Outcome) {
    var (s2, pd) := EnsurePd(s, root, virt);
    if pd.Err? then (s2, Failed(pd.error)) else
    var (s3, pt) := EnsureTable(s2, pd.value, PdIndex(virt));
    if pt.Err? then (s3, Failed(pt.error)) else
    SetLeaf4k(s3, pt.value, virt, phys)
  }

  function SetLeaf4k(s: State, pt: nat, virt: nat, phys: Word): (State, Outcome) {
    var current := At(s.mem, pt, PtIndex(virt));
    if Present(current) then
      if PhysFrame(current) != PhysFrame(phys) then (s, Failed(Conflict4k)) else (s, Done)
    else
      (s.(mem := Put(s.mem, pt, PtIndex(virt), TableEntry(PhysFrame(phys)))), Done)
  }

  function Map2m(s: State, root: nat, virt: nat, phys: Word): (State, Outcome) {
    var (s2, pd) := EnsurePd(s, root, virt);
    if pd.Err? then (s2, Failed(pd.error)) else
    SetLeaf2m(s2, pd.value, virt, phys)
  }

  function SetLeaf2m(s: State, pd: nat, virt: nat, phys: Word): (State, Outcome) {
    var current := At(s.mem, pd, PdIndex(virt));
    if Present(current) then
      if !Huge(current) then (s, Failed(HugeCollision))
      else if PhysFrame(current) != PhysFrame(phys) then (s, Failed(Conflict2m)) else (s, Done)
    else
      (s.(mem := Put(s.mem, pd, PdIndex(virt), HugeEntry(PhysFrame(phys)))), Done)
  }

  /** A 2 MiB leaf is used when both addresses are 2 MiB aligned and enough is left. */
  predicate TakesHuge(virt: nat, phys: nat, len: nat) {
    len >= 0x20_0000 && virt % 0x20_0000 == 0 && phys % 0x20_0000 == 0
  }

  function MapLoop(s: State, root: nat, virt: nat, phys: nat, len: nat): (State, Outcome)
    requires phys + len <= 0x10_0000_0000_0000
    decreases len
  {
    if len < 0x1000 then (s, Done)
    else if TakesHuge(virt, phys, len) then
      var (s1, o) := Map2m(s, root, virt, phys);
      if o.Failed? then (s1, o) else MapLoop(s1, root, virt + 0x20_0000, phys + 0x20_0000, len - 0x20_0000)
    else
      var (s1, o) := Map4k(s, root, virt, phys);
      if o.Failed? then (s1, o) else MapLoop(s1, root, virt + 0x1000, phys + 0x1000, len - 0x1000)
  }

  function MapRange(s: State, root: nat, virt: nat, phys: nat, len: nat): (State, Outcome)
    requires phys + len <= 0x10_0000_0000_0000
  {
    if virt % 0x1000 != 0 || phys % 0x1000 != 0 then (s, Failed(NotAligned))
    else MapLoop(s, root, virt, phys, len / 0x1000 * 0x1000)
  }

  // ----- index fields of a virtual address -----

  function Pml4Index(va: nat): (i: nat)
    ensures i == Index(PageOf(va), 4)
  {
    Arithmetic.FieldBelow(va / 0x1000, 0x800_0000, 1);
    va / 0x80_0000_0000 % 512
  }

  function PdptIndex(va: nat): (i: nat)
    ensures i == Index(PageOf(va), 3)
  {
    Arithmetic.FieldBelow(va / 0x1000, 0x4_0000, 0x200);
    va / 0x4000_0000 % 512
  }

  function PdIndex(va: nat): (i: nat)
    ensures i == Index(PageOf(va), 2)
  {
    Arithmetic.FieldBelow(va / 0x1000, 0x200, 0x4_0000);
    va / 0x20_0000 % 512
  }

  function PtIndex(va: nat): (i: nat)
    ensures i == Index(PageOf(va), 1)
  {
    Arithmetic.FieldBelow(va / 0x1000, 1, 0x800_0000);
    va / 0x1000 % 512
  }
}
