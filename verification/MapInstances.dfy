/** Concrete calls at which two properties one might expect of the mapper fail. */
module MapInstances {
  import opened MachineWords
  import opened PageTables
  import opened PageMapper
  import opened MapperProofs
  import opened MapPages
  import AddressSpaces
  import MapTheorems
  import TableNeeds

  // ----- a range that meets its own first page -----

  /** An empty root and all the memory there can be. */
  const EMPTY_ROOT := State(map[1 := ZeroFrame()], 0x2000, 0x10_0000_0000_0000, 1)
  const EMPTY_SHAPE: Shape := map[1 := Node(4, 0, 1)]

  lemma EmptyInv()
    ensures Inv(EMPTY_ROOT, EMPTY_SHAPE) && IsRoot(EMPTY_SHAPE, 1)
  {
    assert forall j | 0 <= j < 512 :: At(EMPTY_ROOT.mem, 1, j) == 0;
  }

  lemma EmptyTranslates(v: nat)
    ensures Translate(EMPTY_ROOT.mem, 1, v).None?
  {
    assert At(EMPTY_ROOT.mem, 1, Index(v, 4)) == 0;
  }

  /** One page more than the address space has: nothing was mapped and pages abound,
      and still the call is refused. */
  lemma TooLong()
    ensures !SomeMapped(EMPTY_ROOT.mem, 1, 0, 0x10_0000_0001)
    ensures var o := MapRange(EMPTY_ROOT, 1, 0, 0, 0x1_0000_0000_1000).1; o.Failed? && o.error != OutOfTablePages
  {
    hide MapRange, Inv, Walk, TableNeeds.Need;
    EmptyInv();
    forall v: nat
      ensures Translate(EMPTY_ROOT.mem, 1, v).None?
    {
      EmptyTranslates(v);
    }
    TableNeeds.NeedBound(EMPTY_ROOT.mem, 1, 0, 0, 0x1_0000_0000_1000);
    MapTheorems.MapRangeFresh(EMPTY_ROOT, EMPTY_SHAPE, 1, 0, 0, 0x1_0000_0000_1000);
  }

  // ----- a range that runs into a shared slot -----

  /** A root whose first upper slot holds the empty table in frame 3. */
  function UpperRoot(): (f: Frame)
    ensures forall i | 0 <= i < 512 :: f[i] == if i == 256 then TableEntry(3) else 0
  {
    ZeroFrame()[256 := TableEntry(3)]
  }

  /** A kernel root in frame 1 and a clone of it in frame 2. */
  const TWO_ROOTS := State(map[1 := UpperRoot(), 2 := UpperRoot(), 3 := ZeroFrame()], 0x4000, 0x10_0000_0000_0000, 3)
  const TWO_SHAPE: Shape := map[1 := Node(4, 0, 1), 2 := Node(4, 0, 2), 3 := Node(3, 256, 3)]

  lemma TwoInv()
    ensures Inv(TWO_ROOTS, TWO_SHAPE) && IsRoot(TWO_SHAPE, 1) && IsRoot(TWO_SHAPE, 2)
  {
    hide TableEntry, UpperRoot, Huge, PhysFrame;
    assert !Present(0);
    hide Present;
    forall t, i | t in TWO_SHAPE && 0 <= i < 512
      ensures SlotOk(TWO_ROOTS.mem, TWO_SHAPE, t, i)
    {
      assert At(TWO_ROOTS.mem, t, i) == if t != 3 && i == 256 then TableEntry(3) else 0;
    }
  }

  lemma TwoTranslates(r: nat, v: nat)
    requires r == 1 || r == 2
    ensures Translate(TWO_ROOTS.mem, r, v).None?
  {
    hide TableEntry, UpperRoot, PhysFrame;
    assert !Present(0);
    assert At(TWO_ROOTS.mem, r, Index(v, 4)) == if Index(v, 4) == 256 then TableEntry(3) else 0;
    assert At(TWO_ROOTS.mem, 3, Index(v, 3)) == 0;
  }

  lemma TwoShare()
    ensures SharedSlot(TWO_ROOTS.mem, 2, 1, 256)
  {
  }

  /** Two pages across 2^47, mapped in the clone: the call succeeds and the kernel root
      translates the second page, which it did not before. */
  lemma Leaks()
    ensures var c: AddressSpaces.Call := AddressSpaces.Call(2, 0x7fff_ffff_f000, 0, 0x2000);
      var (s', o) := AddressSpaces.Apply(TWO_ROOTS, c);
      o.Done? && Translate(TWO_ROOTS.mem, 1, 0x8_0000_0000).None? && Translate(s'.mem, 1, 0x8_0000_0000) == Some(1)
  {
    hide MapRange, Inv, Walk, SharedSlot, AddressSpaces.PagesMapped, TableNeeds.Need;
    TwoInv();
    forall v: nat
      ensures Translate(TWO_ROOTS.mem, 2, v).None?
    {
      TwoTranslates(2, v);
    }
    TwoTranslates(1, 0x8_0000_0000);
    TwoShare();
    TableNeeds.NeedBound(TWO_ROOTS.mem, 2, 0x7fff_ffff_f000, 0, 0x2000);
    MapTheorems.MapRangeFresh(TWO_ROOTS, TWO_SHAPE, 2, 0x7fff_ffff_f000, 0, 0x2000);
    var c: AddressSpaces.Call := AddressSpaces.Call(2, 0x7fff_ffff_f000, 0, 0x2000);
    AddressSpaces.CallExactly(TWO_ROOTS, TWO_SHAPE, c, 1, 0x8_0000_0000);
  }
}
