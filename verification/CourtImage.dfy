/** Loading a court image: a small ELF64 loader for PT_LOAD segments. */
module CourtImage {
  import opened MachineWords
  import opened ImageFormat
  import opened PageTables
  import opened PageMapper
  import opened MapperProofs
  import opened MapPages
  import opened TableNeeds
  import opened MapVerdicts
  import opened MapTheorems
  import opened KernelMemory
  import opened PhysBytes
  import AddressSpaces

  // ----- one segment -----

  /** Segment `seg` occupies frames `f` on: its pages translate to them, they are
      no page tables, and they hold the segment's bytes. */
  ghost predicate SegmentIn(s: State, sh: Shape, root: nat, image: seq<Byte>, seg: Segment, f: nat) {
    && (seg.filesz > 0 ==> seg.offset + seg.filesz <= |image|)
    && AllMapped(s.mem, root, seg.FirstPage(), seg.Pages(), f)
    && 0x1000 * (f + seg.Pages()) <= s.cursor
    && (forall k | f <= k < f + seg.Pages() :: k in s.mem && k !in sh)
    && BytesIn(s.mem, image, seg, f)
  }

  /** Frames `f` on hold the bytes of the segment. */
  ghost predicate BytesIn(m: Mem, image: seq<Byte>, seg: Segment, f: nat)
    requires seg.filesz > 0 ==> seg.offset + seg.filesz <= |image|
  {
    forall k | 0 <= k < seg.memsz :: ByteAt(m, SegmentAddr(seg, f, k)) == SegmentByte(image, seg, k)
  }

  function SegmentAddr(seg: Segment, f: nat, k: nat): nat {
    0x1000 * f + seg.PageOff() + k
  }

  lemma SegmentAddrFrame(seg: Segment, f: nat, k: nat)
    requires k < seg.memsz
    ensures f <= SegmentAddr(seg, f, k) / 0x1000 < f + seg.Pages()
  {
  }

  /** A loaded segment stays loaded while the state is extended. */
  lemma SegmentStays(s: State, sh: Shape, s': State, sh': Shape, root: nat, image: seq<Byte>, seg: Segment, f: nat)
    requires Inv(s, sh) && Extends(s, sh, s', sh') && IsRoot(sh, root)
    requires SegmentIn(s, sh, root, image, seg, f)
    ensures SegmentIn(s', sh', root, image, seg, f)
  {
    hide Inv, AllMapped, ByteAt, Segment.Pages, SegmentAddr, SegmentByte;
    MappedStays(s, sh, s', sh', root, seg.FirstPage(), seg.Pages(), f);
    forall k | f <= k < f + seg.Pages()
      ensures k in s'.mem && k !in sh' && s'.mem[k] == s.mem[k]
    {
      assert 0x1000 * k < s.cursor;
    }
    forall k | 0 <= k < seg.memsz
      ensures ByteAt(s'.mem, SegmentAddr(seg, f, k)) == SegmentByte(image, seg, k)
    {
      SegmentAddrFrame(seg, f, k);
      ByteInFrame(s.mem, s'.mem, SegmentAddr(seg, f, k));
    }
  }

  /** Two segments in different frames never share a page: mapping the second
      would have met the first one's frames. */
  lemma SegmentsDisjoint(s: State, sh: Shape, root: nat, image: seq<Byte>, a: Segment, f: nat, b: Segment, g: nat)
    requires SegmentIn(s, sh, root, image, a, f) && SegmentIn(s, sh, root, image, b, g)
    requires f + a.Pages() <= g || g + b.Pages() <= f
    ensures forall v | 0 <= v < 0x10_0000_0000 ::
      !(InRange(v, a.FirstPage(), a.Pages()) && InRange(v, b.FirstPage(), b.Pages()))
  {
    hide Walk, Offset, Segment.Pages, ByteAt, SegmentByte;
  }

  // ----- memory handed out for data -----

  /** `s1` is `s` after handing out the `n` frames from `f` on and writing only there. */
  ghost predicate DataTaken(s: State, s1: State, f: nat, n: nat) {
    && 0x1000 * f == s.cursor && s1.cursor == s.cursor + 0x1000 * n <= s.end && s1.end == s.end
    && Backed(s1.mem, f, n)
    && (forall k | k in s.mem && !(f <= k < f + n) :: k in s1.mem && s1.mem[k] == s.mem[k])
  }

  lemma DataTakenOk(s: State, sh: Shape, s1: State, f: nat, n: nat)
    requires Inv(s, sh) && DataTaken(s, s1, f, n)
    ensures Inv(s1, sh) && Extends(s, sh, s1, sh) && SameWalks(s.mem, s1.mem, sh)
    ensures forall k | f <= k < f + n :: k in s1.mem && k !in sh
  {
    hide Present, Huge, PhysFrame, Index;
    forall x, v | x in sh && 1 <= sh[x].level <= 4
      ensures Walk(s1.mem, x, sh[x].level, v) == Walk(s.mem, x, sh[x].level, v)
    {
      WalkReadsTables(s.mem, s1.mem, sh, x, v);
    }
    forall x, j | x in sh && 0 <= j < 512
      ensures SlotOk(s1.mem, sh, x, j) && At(s1.mem, x, j) == At(s.mem, x, j)
    {
      assert SlotOk(s.mem, sh, x, j);
    }
    forall x | x in sh && sh[x].level == 1
      ensures exists j :: 0 <= j < 512 && Present(At(s1.mem, x, j))
    {
      var j :| 0 <= j < 512 && Present(At(s.mem, x, j));
      assert Present(At(s1.mem, x, j));
    }
  }

  // ----- what a lower half may reach -----

  /** From where on frames are a court's own, and whether its lower half began empty. */
  datatype Bound = Bound(start: nat, empty: bool)

  /** Every frame the lower half of `root` reaches, if it began empty, is memory, is no
      page table and was handed out at or after `lo`, unless it is the shared frame
      `ring`. */
  ghost predicate Confined(s: State, sh: Shape, root: nat, lo: Bound, ring: nat) {
    lo.empty ==> forall v | 0 <= v < 0x8_0000_0000 && Translate(s.mem, root, v).Some? ::
      var g := Translate(s.mem, root, v).value;
        g in s.mem && g !in sh && (g == ring || lo.start <= 0x1000 * g < s.cursor)
  }

  lemma ConfinedTaken(s: State, sh: Shape, s1: State, f: nat, n: nat, root: nat, lo: Bound, ring: nat)
    requires Inv(s, sh) && DataTaken(s, s1, f, n) && IsRoot(sh, root) && Confined(s, sh, root, lo, ring)
    ensures Confined(s1, sh, root, lo, ring)
  {
    hide Walk, Inv;
    DataTakenOk(s, sh, s1, f, n);
    forall v | 0 <= v < 0x8_0000_0000
      ensures Translate(s1.mem, root, v) == Translate(s.mem, root, v)
    {
      assert Walk(s1.mem, root, sh[root].level, v) == Walk(s.mem, root, sh[root].level, v);
    }
  }

  /** Mapping frames of its own, or the ring, keeps a lower half confined. */
  lemma ConfinedMapped(s: State, sh: Shape, s': State, sh': Shape, root: nat, p: nat, n: nat, f: nat, lo: Bound,
                       ring: nat)
    requires Contained(s, sh, s', sh', root, p, n) && AllMapped(s'.mem, root, p, n, f) && IsRoot(sh, root)
    requires Confined(s, sh, root, lo, ring) && 0x1000 * ring < s.cursor && ring !in sh
    requires (n == 1 && f == ring) || (lo.start <= 0x1000 * f && 0x1000 * (f + n) <= s.cursor)
    requires forall k | f <= k < f + n :: k in s.mem && k !in sh
    ensures Confined(s', sh', root, lo, ring)
  {
    hide Walk, Inv, Offset, EntriesPersist, SharingSame, OtherRoots;
    forall v | lo.empty && 0 <= v < 0x8_0000_0000 && Translate(s'.mem, root, v).Some?
      ensures var g := Translate(s'.mem, root, v).value;
        g in s'.mem && g !in sh' && (g == ring || lo.start <= 0x1000 * g < s'.cursor)
    {
      if InRange(v, p, n) {
        var g := f + Offset(v, p);
        assert Translate(s'.mem, root, v) == Some(g);
        assert f <= g < f + n;
      } else {
        assert Translate(s'.mem, root, v) == Translate(s.mem, root, v);
      }
    }
  }

  // ----- the loader -----

  /** The file part of a segment lies in the segment's pages. */
  lemma FileFits(seg: Segment, f: nat, n: nat, off: nat)
    requires seg.filesz <= seg.memsz && n == seg.Pages() && off == 0x1000 * f + seg.PageOff()
    ensures f * 0x1000 <= off && off + seg.filesz <= (f + n) * 0x1000
  {
    var span := seg.PageOff() + seg.memsz;
    assert span <= (span + 0xfff) / 0x1000 * 0x1000;
    assert (f + n) * 0x1000 == f * 0x1000 + n * 0x1000;
  }

  /** The bytes of a segment as the loader lays them down in zeroed frames. */
  lemma FillOk(m: Mem, f: nat, image: seq<Byte>, seg: Segment)
    requires seg.filesz <= seg.memsz && (seg.filesz > 0 ==> seg.offset + seg.filesz <= |image|)
    ensures var z := ZeroFrames(m, f, seg.Pages());
      var c := if seg.filesz > 0 then CopyIn(z, 0x1000 * f + seg.PageOff(), image[seg.offset..seg.offset + seg.filesz])
        else z;
      && Backed(c, f, seg.Pages())
      && (forall k | k in m && !(f <= k < f + seg.Pages()) :: k in c && c[k] == m[k])
      && BytesIn(c, image, seg, f)
  {
    hide ByteAt, ZeroFrames, CopyIn, Segment.Pages, Segment.PageOff;
    var n, off := seg.Pages(), 0x1000 * f + seg.PageOff();
    var z := ZeroFrames(m, f, n);
    ZeroFramesOk(m, f, n);
    FileFits(seg, f, n, off);
    if seg.filesz > 0 {
      var part := image[seg.offset..seg.offset + seg.filesz];
      CopyInOk(z, off, part, f, n);
    }
    forall k | 0 <= k < seg.memsz
      ensures ByteAt(z, SegmentAddr(seg, f, k)) == 0
    {
      SegmentAddrFrame(seg, f, k);
      ZeroFramesBytes(m, f, n, SegmentAddr(seg, f, k));
    }
  }

  /** The table count takes no part in what the loader promises. */
  lemma Recount(s: State, sh: Shape, root: nat, image: seq<Byte>, seg: Segment, f: nat, lo: Bound, ring: nat)
    requires Inv(s, sh)
    ensures var s' := s.(tables := 0);
      && Inv(s', sh)
      && (forall r, h | Extends(r, h, s, sh) :: Extends(r, h, s', sh))
      && (SegmentIn(s, sh, root, image, seg, f) ==> SegmentIn(s', sh, root, image, seg, f))
      && (Confined(s, sh, root, lo, ring) ==> Confined(s', sh, root, lo, ring))
  {
    hide Walk, ByteAt, Offset, Present;
  }

  lemma InvCursor(s: State, sh: Shape)
    requires Inv(s, sh)
    ensures s.cursor % 0x1000 == 0 && s.cursor <= s.end
  {
  }

  /** What work on `root` does to the other roots: nothing but through slots they share,
      and if it stays in the lower half (`low`) nothing to any upper half. */
  ghost predicate Limited(m: Mem, m': Mem, sh: Shape, root: nat, low: bool) {
    Isolated(m, m', sh, root) && (low ==> UpperSame(m, m', sh))
  }

  lemma Unchanged(s: State, sh: Shape, root: nat, low: bool)
    ensures Extends(s, sh, s, sh) && Limited(s.mem, s.mem, sh, root, low)
  {
    hide SharedSlot, Walk;
  }

  lemma TakenLimited(s: State, sh: Shape, s1: State, f: nat, n: nat, root: nat, low: bool)
    requires Inv(s, sh) && DataTaken(s, s1, f, n) && IsRoot(sh, root)
    ensures Inv(s1, sh) && Extends(s, sh, s1, sh) && Limited(s.mem, s1.mem, sh, root, low)
  {
    hide Walk, Extends, Present, PhysFrame;
    DataTakenOk(s, sh, s1, f, n);
    TakenRoots(s, sh, s1, f, n);
    hide Inv, DataTaken;
    forall r, v | IsRoot(sh, r) && 0 <= v < 0x10_0000_0000
      ensures Translate(s1.mem, r, v) == Translate(s.mem, r, v)
    {
      assert Walk(s1.mem, r, sh[r].level, v) == Walk(s.mem, r, sh[r].level, v);
    }
  }

  /** Data is never written into a root. */
  lemma TakenRoots(s: State, sh: Shape, s1: State, f: nat, n: nat)
    requires Inv(s, sh) && DataTaken(s, s1, f, n)
    ensures forall r | IsRoot(sh, r) :: r in s.mem && r in s1.mem && s1.mem[r] == s.mem[r]
  {
    forall r: nat | IsRoot(sh, r)
      ensures r in s.mem && r in s1.mem && s1.mem[r] == s.mem[r]
    {
      assert 0x1000 * r < s.cursor;
    }
  }

  lemma LimitedTrans(m0: Mem, m1: Mem, m2: Mem, sh0: Shape, sh1: Shape, root: nat, low: bool)
    requires Limited(m0, m1, sh0, root, low) && Limited(m1, m2, sh1, root, low)
    requires forall t | t in sh0 :: t in sh1 && sh1[t] == sh0[t]
    ensures Limited(m0, m2, sh0, root, low)
  {
    hide Walk, SharedSlot;
    assert forall r | IsRoot(sh0, r) :: IsRoot(sh1, r);
  }

  lemma ContainedFacts(s: State, sh: Shape, s': State, sh': Shape, root: nat, p: nat, n: nat)
    requires Contained(s, sh, s', sh', root, p, n)
    ensures Inv(s', sh') && Extends(s, sh, s', sh') && IsRoot(sh', root) && SameRoots(sh, sh')
    ensures Limited(s.mem, s'.mem, sh, root, p + n <= 0x8_0000_0000)
  {
    hide Isolated, UpperSame, Spread;
    ContainedIsolated(s, sh, s', sh', root, p, n);
  }

  /** Frames were taken for data, then `n` pages from `p` on were mapped. */
  lemma TakenThenMapped(s: State, sh: Shape, s1: State, s2: State, sh': Shape, root: nat, f: nat, m: nat, p: nat,
                        n: nat)
    requires Inv(s, sh) && DataTaken(s, s1, f, m) && Contained(s1, sh, s2, sh', root, p, n) && IsRoot(sh, root)
    ensures Inv(s2, sh') && Extends(s, sh, s2, sh') && SameRoots(sh, sh')
    ensures Limited(s.mem, s2.mem, sh, root, p + n <= 0x8_0000_0000)
  {
    hide Inv, Limited, Contained, DataTaken, Extends;
    TakenLimited(s, sh, s1, f, m, root, p + n <= 0x8_0000_0000);
    ContainedFacts(s1, sh, s2, sh', root, p, n);
    ExtendsTrans(s, sh, s1, sh, s2, sh');
    LimitedTrans(s.mem, s1.mem, s2.mem, sh, sh, root, p + n <= 0x8_0000_0000);
  }

  /** The segment's frames are filled; what is left is to map them. */
  lemma Placing(s: State, sh: Shape, s1: State, s2: State, o: Outcome, root: nat, image: seq<Byte>, seg: Segment,
                f: nat, confined: bool, lo: Bound, ring: nat)
    returns (sh': Shape)
    requires 0x1000 * f + seg.Pages() * 0x1000 <= 0x10_0000_0000_0000
    requires (s2, o) ==
      AddressSpaces.SpaceMap(s1, root, seg.PageStart(), 0x1000 * f, seg.Pages() * 0x1000)
    requires Inv(s, sh) && IsRoot(sh, root) && DataTaken(s, s1, f, seg.Pages())
    requires seg.filesz > 0 ==> seg.offset + seg.filesz <= |image|
    requires BytesIn(s1.mem, image, seg, f)
    requires confined ==>
      Confined(s, sh, root, lo, ring) && lo.start <= s.cursor && 0x1000 * ring < s.cursor && ring !in sh
    ensures Inv(s2, sh') && Extends(s, sh, s2, sh') && SameRoots(sh, sh')
    ensures Limited(s.mem, s2.mem, sh, root, seg.vaddr + seg.memsz <= 0x8000_0000_0000)
    ensures o.Done? ==> SegmentIn(s2, sh', root, image, seg, f)
    ensures o.Done? && confined ==> Confined(s2, sh', root, lo, ring) && ring !in sh'
    ensures seg.vaddr < 0x8000_0000_0000 && o.Failed? ==>
      Trouble(s1, s2, root, seg.PageStart(), 0x1000 * f, seg.Pages() * 0x1000, o.error)
  {
    hide Inv, Limited, SegmentIn, Confined, AddressSpaces.SpaceMap, Contained, Extends, BytesIn, DataTaken, AllMapped,
         Trouble;
    SegmentPages(seg);
    hide Segment.Pages, Segment.FirstPage;
    sh' := TakenMaps(s, sh, s1, s2, o, root, seg.PageStart(), seg.Pages(), f, 0x1000 * f,
      seg.Pages() * 0x1000);
    if o.Done? {
      PlacedMapped(s, sh, s1, s2, sh', root, image, seg, f);
      if confined {
        PlacingConfined(s, sh, s1, s2, sh', root, seg, f, lo, ring);
      }
    }
  }

  lemma PlacingConfined(s: State, sh: Shape, s1: State, s2: State, sh': Shape, root: nat, seg: Segment, f: nat,
                        lo: Bound, ring: nat)
    requires Inv(s, sh) && IsRoot(sh, root) && DataTaken(s, s1, f, seg.Pages())
    requires Contained(s1, sh, s2, sh', root, seg.FirstPage(), seg.Pages())
    requires AllMapped(s2.mem, root, seg.FirstPage(), seg.Pages(), f)
    requires Confined(s, sh, root, lo, ring) && lo.start <= s.cursor && 0x1000 * ring < s.cursor && ring !in sh
    ensures Confined(s2, sh', root, lo, ring) && ring !in sh'
  {
    hide Inv, Confined, Contained, Extends, DataTaken, AllMapped, SameWalks, Segment.Pages;
    TakenCursor(s, s1, f, seg.Pages());
    DataTakenOk(s, sh, s1, f, seg.Pages());
    ConfinedTaken(s, sh, s1, f, seg.Pages(), root, lo, ring);
    ConfinedMapped(s1, sh, s2, sh', root, seg.FirstPage(), seg.Pages(), f, lo, ring);
    ContainedFacts(s1, sh, s2, sh', root, seg.FirstPage(), seg.Pages());
    RingStays(s1, sh, s2, sh', ring);
  }

  /** Frames were taken for data and are mapped from `virt` on. */
  lemma TakenMaps(s: State, sh: Shape, s1: State, s2: State, o: Outcome, root: nat, virt: nat, m: nat, f: nat,
                  phys: nat, len: nat)
    returns (sh': Shape)
    requires Inv(s, sh) && IsRoot(sh, root) && DataTaken(s, s1, f, m) && phys + len <= 0x10_0000_0000_0000
    requires (s2, o) == AddressSpaces.SpaceMap(s1, root, virt, phys, len)
    ensures Inv(s2, sh') && Extends(s, sh, s2, sh') && SameRoots(sh, sh')
    ensures Limited(s.mem, s2.mem, sh, root, virt / 0x1000 + len / 0x1000 <= 0x8_0000_0000)
    ensures Contained(s1, sh, s2, sh', root, virt / 0x1000, len / 0x1000)
    ensures o.Done? ==> AllMapped(s2.mem, root, virt / 0x1000, len / 0x1000, phys / 0x1000)
    ensures virt < 0x8000_0000_0000 && virt % 0x1000 == 0 && phys % 0x1000 == 0 && o.Failed? ==>
      Trouble(s1, s2, root, virt, phys, len, o.error)
  {
    hide Inv, Limited, AddressSpaces.SpaceMap, AllMapped, BytesMapped, SameWalks, Contained, Extends, DataTaken,
         Trouble;
    DataTakenOk(s, sh, s1, f, m);
    sh' := AddressSpaces.SpaceMapOk(s1, sh, root, virt, phys, len);
    TakenThenMapped(s, sh, s1, s2, sh', root, f, m, virt / 0x1000, len / 0x1000);
  }

  lemma TakenCursor(s: State, s1: State, f: nat, n: nat)
    requires DataTaken(s, s1, f, n)
    ensures 0x1000 * f == s.cursor && s1.cursor == s.cursor + 0x1000 * n <= s.end
  {
  }

  lemma RingStays(s: State, sh: Shape, s2: State, sh': Shape, ring: nat)
    requires Extends(s, sh, s2, sh') && 0x1000 * ring < s.cursor && ring !in sh
    ensures ring !in sh'
  {
  }

  lemma PlacedMapped(s: State, sh: Shape, s1: State, s2: State, sh': Shape, root: nat, image: seq<Byte>, seg: Segment,
                     f: nat)
    requires seg.filesz > 0 ==> seg.offset + seg.filesz <= |image|
    requires Inv(s, sh) && DataTaken(s, s1, f, seg.Pages()) && BytesIn(s1.mem, image, seg, f)
    requires Contained(s1, sh, s2, sh', root, seg.FirstPage(), seg.Pages())
    requires AllMapped(s2.mem, root, seg.FirstPage(), seg.Pages(), f)
    ensures SegmentIn(s2, sh', root, image, seg, f)
  {
    hide Contained, Extends, AllMapped, BytesIn, Segment.Pages, Segment.FirstPage, Inv;
    DataTakenOk(s, sh, s1, f, seg.Pages());
    ContainedFacts(s1, sh, s2, sh', root, seg.FirstPage(), seg.Pages());
    SegmentMapped(s1, sh, s2, sh', root, image, seg, f);
  }

  lemma SegmentPages(seg: Segment)
    ensures seg.PageStart() / 0x1000 == seg.FirstPage()
    ensures seg.Pages() * 0x1000 / 0x1000 == seg.Pages()
    ensures seg.vaddr + seg.memsz <= 0x8000_0000_0000 <==> seg.FirstPage() + seg.Pages() <= 0x8_0000_0000
  {
  }

  lemma SegmentMapped(s1: State, sh: Shape, s2: State, sh': Shape, root: nat, image: seq<Byte>, seg: Segment, f: nat)
    requires Extends(s1, sh, s2, sh') && AllMapped(s2.mem, root, seg.FirstPage(), seg.Pages(), f)
    requires seg.filesz > 0 ==> seg.offset + seg.filesz <= |image|
    requires 0x1000 * (f + seg.Pages()) <= s1.cursor && (forall k | f <= k < f + seg.Pages() :: k in s1.mem && k !in sh)
    requires BytesIn(s1.mem, image, seg, f)
    ensures SegmentIn(s2, sh', root, image, seg, f)
  {
    hide ByteAt, AllMapped, EntriesPersist, SegmentByte, SegmentAddr, Segment.Pages;
    forall k | f <= k < f + seg.Pages()
      ensures k in s2.mem && k !in sh' && s2.mem[k] == s1.mem[k]
    {
      assert 0x1000 * k < s1.cursor;
    }
    forall k | 0 <= k < seg.memsz
      ensures ByteAt(s2.mem, SegmentAddr(seg, f, k)) == SegmentByte(image, seg, k)
    {
      SegmentAddrFrame(seg, f, k);
      ByteInFrame(s1.mem, s2.mem, SegmentAddr(seg, f, k));
    }
  }

  /** Taking pages from an aligned cursor. */
  lemma AllocAligned(cursor: Word, end: PhysEnd, pages: Word)
    requires cursor % 0x1000 == 0 && pages < 0x1000
    ensures AllocPages(cursor, end, pages) == if cursor + 0x1000 * pages <= end then
      Some((cursor, cursor + 0x1000 * pages)) else None
    ensures 0x1000 * (cursor / 0x1000) == cursor
  {
  }

  lemma PagesBound(seg: Segment)
    requires seg.memsz <= 0x2_0000
    ensures seg.Pages() < 0x1000
  {
  }

  lemma TakenZeroed(s: State, s': State, f: nat, n: nat)
    requires 0x1000 * f == s.cursor && s.cursor + 0x1000 * n <= s.end
    requires s' == s.(mem := ZeroFrames(s.mem, f, n), cursor := s.cursor + 0x1000 * n)
    ensures DataTaken(s, s', f, n)
  {
    hide ZeroFrames;
    ZeroFramesOk(s.mem, f, n);
  }

  lemma TakenFilled(s: State, s': State, f: nat, image: seq<Byte>, seg: Segment)
    requires 0x1000 * f == s.cursor && s.cursor + 0x1000 * seg.Pages() <= s.end
    requires seg.filesz <= seg.memsz && (seg.filesz > 0 ==> seg.offset + seg.filesz <= |image|)
    requires s'.cursor == s.cursor + 0x1000 * seg.Pages() && s'.end == s.end
    requires var z := ZeroFrames(s.mem, f, seg.Pages());
      s'.mem == if seg.filesz > 0 then CopyIn(z, 0x1000 * f + seg.PageOff(), image[seg.offset..seg.offset + seg.filesz])
        else z
    ensures DataTaken(s, s', f, seg.Pages()) && BytesIn(s'.mem, image, seg, f)
  {
    hide ZeroFrames, CopyIn, BytesIn, Segment.Pages, Segment.PageOff;
    FillOk(s.mem, f, image, seg);
  }

  /** What keeps a segment's frames from being taken and filled. */
  function FillFault(s: State, image: seq<Byte>, seg: Segment): Option<LoadError> {
    if s.cursor + 0x1000 * seg.Pages() > s.end then Some(OutOfPages) else FileFault(image, seg)
  }

  /** What is wrong with a segment's place in the file. */
  function FileFault(image: seq<Byte>, seg: Segment): (e: Option<LoadError>)
    ensures e.None? <==>
      seg.filesz == 0 || (seg.offset + seg.filesz <= |image| && seg.offset + seg.filesz < 0x1_0000_0000_0000_0000)
  {
    if seg.filesz > 0 && seg.offset + seg.filesz >= 0x1_0000_0000_0000_0000 then Some(FileOverflow)
    else if seg.filesz > 0 && seg.offset + seg.filesz > |image| then Some(FileTruncated)
    else None
  }

  /** `s` once the frames of a segment were taken, zeroed and filled. */
  ghost function Laid(s: State, image: seq<Byte>, seg: Segment): State
    requires FillFault(s, image, seg).None?
  {
    var f := s.cursor / 0x1000;
    var z := ZeroFrames(s.mem, f, seg.Pages());
    var m := if seg.filesz > 0 then CopyIn(z, 0x1000 * f + seg.PageOff(), image[seg.offset..seg.offset + seg.filesz])
      else z;
    s.(mem := m, cursor := s.cursor + 0x1000 * seg.Pages())
  }

  /** What keeps a segment from being loaded, apart from mapping it. */
  function SegmentFault(s: State, image: seq<Byte>, seg: Segment): Option<LoadError> {
    if seg.vaddr >= 0x8000_0000_0000 then Some(NotLowerHalfSegment)
    else if seg.memsz > 0x2_0000 then Some(SegmentTooLarge)
    else if seg.filesz > seg.memsz then Some(FileszAboveMemsz)
    else FillFault(s, image, seg)
  }

  /** Why loading a segment ended as it did. */
  ghost predicate SegmentReports(s: State, s': State, root: nat, image: seq<Byte>, seg: Segment, e: Option<LoadError>) {
    match SegmentFault(s, image, seg)
    case Some(fault) => e == Some(fault)
    case None =>
      e.Some? ==>
        && e.value.Mapping?
        && Trouble(Laid(s, image, seg), s', root, seg.PageStart(), s.cursor, seg.Pages() * 0x1000,
             e.value.error)
  }

  /** The file part of a segment, if it has one, lies in the image. */
  predicate FileInside(image: seq<Byte>, seg: Segment) {
    seg.filesz > 0 ==>
      seg.offset + seg.filesz <= |image| && seg.offset + seg.filesz < 0x1_0000_0000_0000_0000
  }

  /** A segment can be loaded: it starts below 2^47, is at most 128 KiB long and no shorter
      than its file part, which lies in the image; the free pages are enough for its pages
      and for the tables missing on the way to them, and nothing stands in the way of any
      of its leaves. All of it is told from the segment's fields and the state before. */
  ghost predicate Loadable(s: State, root: nat, image: seq<Byte>, seg: Segment) {
    && seg.vaddr < 0x8000_0000_0000 && seg.memsz <= 0x2_0000 && seg.filesz <= seg.memsz && FileInside(image, seg)
    && var len := 0x1000 * seg.Pages();
    && s.cursor + len + 0x1000 * |Need(s.mem, root, seg.PageStart(), s.cursor, len)| <= s.end
    && AllFit(s.mem, root, seg.PageStart(), s.cursor, len)
  }

  lemma LoadableFills(s: State, root: nat, image: seq<Byte>, seg: Segment)
    requires Loadable(s, root, image, seg)
    ensures FillFault(s, image, seg).None?
  {
    hide Need, AllFit, Segment.Pages;
  }

  /** What keeps a segment from being loaded, told for each error from its fields and the
      state before. */
  ghost predicate SegmentBlamed(s: State, image: seq<Byte>, seg: Segment, e: LoadError) {
    match e
    case NotLowerHalfSegment => seg.vaddr >= 0x8000_0000_0000
    case SegmentTooLarge => seg.memsz > 0x2_0000
    case FileszAboveMemsz => seg.filesz > seg.memsz
    case OutOfPages => s.cursor + 0x1000 * seg.Pages() > s.end
    case FileOverflow => seg.filesz > 0 && seg.offset + seg.filesz >= 0x1_0000_0000_0000_0000
    case FileTruncated => seg.filesz > 0 && seg.offset + seg.filesz > |image|
    case Mapping(_) =>
      && seg.vaddr < 0x8000_0000_0000 && seg.memsz <= 0x2_0000 && seg.filesz <= seg.memsz && FileInside(image, seg)
      && s.cursor + 0x1000 * seg.Pages() <= s.end
    case _ => false
  }

  lemma FaultBlamed(s: State, s': State, root: nat, image: seq<Byte>, seg: Segment, e: Option<LoadError>)
    requires SegmentReports(s, s', root, image, seg, e)
    ensures e.Some? ==> SegmentBlamed(s, image, seg, e.value)
  {
    hide Segment.Pages, Laid, Trouble;
  }

  /** The state once a loadable segment was laid down and mapped. */
  ghost function WithSegment(s: State, root: nat, image: seq<Byte>, seg: Segment): State
    requires Loadable(s, root, image, seg)
  {
    LoadableFills(s, root, image, seg);
    AddressSpaces.SpaceMap(Laid(s, image, seg), root, seg.PageStart(), s.cursor, 0x1000 * seg.Pages()).0.(tables := 0)
  }

  /** Once its frames are laid down, a segment can be mapped exactly if it is loadable. */
  lemma LaidExactly(s: State, sh: Shape, root: nat, image: seq<Byte>, seg: Segment)
    requires Inv(s, sh) && IsRoot(sh, root) && seg.vaddr < 0x8000_0000_0000 && seg.memsz <= 0x2_0000
    requires seg.filesz <= seg.memsz && FillFault(s, image, seg).None?
    ensures AddressSpaces.SpaceMap(Laid(s, image, seg), root, seg.PageStart(), s.cursor, 0x1000 * seg.Pages()).1.Done?
      <==> Loadable(s, root, image, seg)
  {
    hide Inv, Need, AllFit, Segment.Pages, MapRange, BytesIn, DataTaken, Laid, Extends, SameWalks;
    var s1, len := Laid(s, image, seg), 0x1000 * seg.Pages();
    PagesBound(seg);
    InvCursor(s, sh);
    LaidTaken(s, image, seg);
    DataTakenOk(s, sh, s1, s.cursor / 0x1000, seg.Pages());
    LaidTables(s, sh, s1, s.cursor / 0x1000, seg.Pages());
    MapRangeExactly(s1, sh, root, seg.PageStart(), s.cursor, len);
    CallReadsTables(s.mem, s1.mem, sh, root, seg.PageStart(), s.cursor, len);
    LaidCursor(s, image, seg);
    assert len / 0x1000 * 0x1000 == len;
  }

  lemma LaidCursor(s: State, image: seq<Byte>, seg: Segment)
    requires FillFault(s, image, seg).None?
    ensures Laid(s, image, seg).cursor == s.cursor + 0x1000 * seg.Pages() && Laid(s, image, seg).end == s.end
  {
    hide ZeroFrames, CopyIn, Segment.Pages;
  }

  lemma LaidTaken(s: State, image: seq<Byte>, seg: Segment)
    requires s.cursor % 0x1000 == 0 && seg.filesz <= seg.memsz && FillFault(s, image, seg).None?
    ensures DataTaken(s, Laid(s, image, seg), s.cursor / 0x1000, seg.Pages())
  {
    hide ZeroFrames, CopyIn, BytesIn, DataTaken, Segment.Pages, Segment.PageOff;
    TakenFilled(s, Laid(s, image, seg), s.cursor / 0x1000, image, seg);
  }

  lemma LaidTables(s: State, sh: Shape, s1: State, f: nat, n: nat)
    requires Inv(s, sh) && DataTaken(s, s1, f, n)
    ensures WellShaped(s.mem, sh) && TablesSame(s.mem, s1.mem, sh)
  {
    forall t | t in sh
      ensures t in s.mem && t in s1.mem && s1.mem[t] == s.mem[t]
    {
      assert 0x1000 * t < s.cursor;
    }
  }

  /** What taking and filling a segment's frames does. */
  ghost predicate Filled(s: State, s': State, e: Option<LoadError>, image: seq<Byte>, seg: Segment, f: nat, n: nat) {
    && DataTaken(s, s', f, n) && e == FillFault(s, image, seg)
    && (e.None? ==>
      && n == seg.Pages() && s' == Laid(s, image, seg)
      && (seg.filesz > 0 ==> seg.offset + seg.filesz <= |image|) && BytesIn(s'.mem, image, seg, f))
  }

  /** Takes `pages` zeroed frames; the result is the number of the first. */
  method TakeZeroed(bump: BumpAllocator, mem: PhysMem, pages: nat, ghost sh: Shape) returns (r: Option<nat>)
    requires Inv(Snapshot(mem, bump, 0), sh) && pages < 0x1000
    modifies bump, mem
    ensures bump.cursor == old(bump.cursor) + (if r.Some? then 0x1000 * pages else 0) <= bump.end
    ensures r.Some? <==> old(bump.cursor) + 0x1000 * pages <= bump.end
    ensures r.None? ==> mem.frames == old(mem.frames)
    ensures r.Some? ==> 0x1000 * r.value == old(bump.cursor)
    ensures r.Some? ==> mem.frames == ZeroFrames(old(mem.frames), r.value, pages)
  {
    InvCursor(Snapshot(mem, bump, 0), sh);
    AllocAligned(bump.cursor, bump.end, pages);
    hide Inv, ZeroFrames, AllocPages;
    var phys := bump.Alloc(pages);
    if phys.None? {
      return None;
    }
    mem.Zero(phys.value / 0x1000, pages);
    r := Some(phys.value / 0x1000);
  }

  /** Takes frames for a segment, zeroes them and copies the file part in. */
  method FillSegment(bump: BumpAllocator, mem: PhysMem, image: seq<Byte>, seg: Segment, ghost sh: Shape)
    returns (e: Option<LoadError>, f: nat, ghost n: nat)
    requires Inv(Snapshot(mem, bump, 0), sh) && 0 < seg.memsz <= 0x2_0000 && seg.filesz <= seg.memsz
    modifies bump, mem
    ensures Filled(old(Snapshot(mem, bump, 0)), Snapshot(mem, bump, 0), e, image, seg, f, n)
  {
    hide Inv, ZeroFrames, CopyIn, DataTaken, Segment.Pages, Segment.PageOff, FileFault, Filled;
    ghost var s := Snapshot(mem, bump, 0);
    PagesBound(seg);
    var taken := TakeZeroed(bump, mem, seg.Pages(), sh);
    if taken.None? {
      FillRefused(s, sh, image, seg);
      return Some(OutOfPages), bump.cursor / 0x1000, 0;
    }
    f, n := taken.value, seg.Pages();
    ghost var s1 := Snapshot(mem, bump, 0);
    e := CopyFile(mem, 0x1000 * f + seg.PageOff(), image, seg);
    FillDone(s, s1, Snapshot(mem, bump, 0), image, seg, f);
  }

  lemma FillRefused(s: State, sh: Shape, image: seq<Byte>, seg: Segment)
    requires Inv(s, sh) && s.cursor + 0x1000 * seg.Pages() > s.end
    ensures Filled(s, s, Some(OutOfPages), image, seg, s.cursor / 0x1000, 0)
  {
    hide Inv, DataTaken, Segment.Pages;
    NothingTaken(s, sh);
  }

  lemma FillDone(s: State, s1: State, s': State, image: seq<Byte>, seg: Segment, f: nat)
    requires 0x1000 * f == s.cursor && s.cursor + 0x1000 * seg.Pages() <= s.end && seg.filesz <= seg.memsz
    requires s1 == s.(mem := ZeroFrames(s.mem, f, seg.Pages()), cursor := s.cursor + 0x1000 * seg.Pages())
    requires s' == s1.(mem := if FileFault(image, seg).None? && seg.filesz > 0
      then CopyIn(s1.mem, 0x1000 * f + seg.PageOff(), image[seg.offset..seg.offset + seg.filesz]) else s1.mem)
    ensures Filled(s, s', FileFault(image, seg), image, seg, f, seg.Pages())
  {
    hide ZeroFrames, CopyIn, BytesIn, DataTaken, Segment.Pages, Segment.PageOff, FileFault;
    if FileFault(image, seg).None? {
      TakenFilled(s, s', f, image, seg);
    } else {
      TakenZeroed(s, s1, f, seg.Pages());
    }
  }

  /** Copies the file part of a segment to physical address `pa` on. */
  method CopyFile(mem: PhysMem, pa: nat, image: seq<Byte>, seg: Segment) returns (e: Option<LoadError>)
    modifies mem
    ensures e == FileFault(image, seg)
    ensures mem.frames == if e.None? && seg.filesz > 0 then
      CopyIn(old(mem.frames), pa, image[seg.offset..seg.offset + seg.filesz]) else old(mem.frames)
  {
    hide CopyIn;
    if seg.filesz > 0 {
      if seg.offset + seg.filesz >= 0x1_0000_0000_0000_0000 {
        return Some(FileOverflow);
      }
      if seg.offset + seg.filesz > |image| {
        return Some(FileTruncated);
      }
      mem.Copy(pa, image[seg.offset..seg.offset + seg.filesz]);
    }
    e := None;
  }

  lemma NothingTaken(s: State, sh: Shape)
    requires Inv(s, sh)
    ensures DataTaken(s, s, s.cursor / 0x1000, 0)
  {
  }

  /** Loads one placed segment. */
  method LoadSegment(bump: BumpAllocator, mem: PhysMem, space: AddressSpace, image: seq<Byte>, seg: Segment,
                     ghost sh: Shape, ghost confined: bool, ghost lo: Bound, ghost ring: nat)
    returns (e: Option<LoadError>, ghost sh': Shape, ghost f: nat)
    requires Inv(Snapshot(mem, bump, 0), sh) && IsRoot(sh, space.pml4) && seg.memsz > 0
    requires confined ==>
      Confined(Snapshot(mem, bump, 0), sh, space.pml4, lo, ring) && lo.start <= bump.cursor
      && 0x1000 * ring < bump.cursor && ring !in sh
    modifies bump, mem
    ensures Inv(Snapshot(mem, bump, 0), sh') && Extends(old(Snapshot(mem, bump, 0)), sh, Snapshot(mem, bump, 0), sh')
    ensures SameRoots(sh, sh')
    ensures Limited(old(mem.frames), mem.frames, sh, space.pml4, seg.vaddr + seg.memsz <= 0x8000_0000_0000)
    ensures e.None? ==>
      SegmentIn(Snapshot(mem, bump, 0), sh', space.pml4, image, seg, f) && old(bump.cursor) <= 0x1000 * f
      && seg.Pages() < 0x1000
    ensures e.None? && confined ==> Confined(Snapshot(mem, bump, 0), sh', space.pml4, lo, ring) && ring !in sh'
    ensures SegmentReports(old(Snapshot(mem, bump, 0)), Snapshot(mem, bump, 0), space.pml4, image, seg, e)
    ensures e.None? <==> Loadable(old(Snapshot(mem, bump, 0)), space.pml4, image, seg)
    ensures e.Some? ==> SegmentBlamed(old(Snapshot(mem, bump, 0)), image, seg, e.value)
    ensures e.None? ==> Snapshot(mem, bump, 0) == WithSegment(old(Snapshot(mem, bump, 0)), space.pml4, image, seg)
  {
    hide Inv, Extends, Limited, SegmentIn, Confined, AddressSpaces.SpaceMap, BytesIn, Backed, SomeMapped,
         MapTheorems.Stops, Laid, Need, AllFit;
    ghost var s := Snapshot(mem, bump, 0);
    sh', f := sh, 0;
    Unchanged(s, sh, space.pml4, seg.vaddr + seg.memsz <= 0x8000_0000_0000);
    if seg.vaddr >= 0x8000_0000_0000 {
      return Some(NotLowerHalfSegment), sh, 0;
    }
    if seg.memsz > 0x2_0000 {
      return Some(SegmentTooLarge), sh, 0;
    }
    if seg.filesz > seg.memsz {
      return Some(FileszAboveMemsz), sh, 0;
    }
    PagesBound(seg);
    var first;
    ghost var n;
    e, first, n := FillSegment(bump, mem, image, seg, sh);
    f := first;
    ghost var s1 := Snapshot(mem, bump, 0);
    if e.Some? {
      TakenLimited(s, sh, s1, f, n, space.pml4, seg.vaddr + seg.memsz <= 0x8000_0000_0000);
      return;
    }
    var mapVa, phys, len := seg.PageStart(), 0x1000 * first, seg.Pages() * 0x1000;
    TakenCursor(s, s1, f, n);
    LaidExactly(s, sh, space.pml4, image, seg);
    hide DataTaken, Segment.Pages;
    var o := space.Map(bump, mem, mapVa, phys, len);
    ghost var s2 := AddressSpaces.SpaceMap(s1, space.pml4, mapVa, phys, len).0;
    sh' := Placing(s, sh, s1, s2, o, space.pml4, image, seg, f, confined, lo, ring);
    Recount(s2, sh', space.pml4, image, seg, f, lo, ring);
    e := if o.Failed? then Some(Mapping(o.error)) else None;
    FaultBlamed(s, Snapshot(mem, bump, 0), space.pml4, image, seg, e);
  }
}
