/** Mapping a range of pages: what a call does to every translation, when it can
    fail, and that repeating it changes nothing. */
module MapRanges {
  import opened MachineWords
  import opened PageTables
  import opened PageMapper
  import opened MapperProofs
  import opened MapPages
  import Arithmetic

  // ----- putting two adjacent ranges together -----

  lemma OffsetShift(v: nat, p: nat, n: nat)
    requires v < 0x10_0000_0000 && n <= 0x10_0000_0000
    ensures Offset(v, p + n) == Offset(v, p) - n + if Offset(v, p) < n then 0x10_0000_0000 else 0
  {
    var k, h := Offset(v, p), (v - p) / 0x10_0000_0000;
    assert v - p == h * 0x10_0000_0000 + k;
    if k < n {
      Arithmetic.Quotient(v - (p + n), 0x10_0000_0000, h - 1, k - n + 0x10_0000_0000);
    } else {
      Arithmetic.Quotient(v - (p + n), 0x10_0000_0000, h, k - n);
    }
  }

  lemma OffsetOf(p: nat, k: nat)
    requires k < 0x10_0000_0000
    ensures Offset((p + k) % 0x10_0000_0000, p) == k
  {
    var v := (p + k) % 0x10_0000_0000;
    var h := (p + k) / 0x10_0000_0000;
    assert v - p == -h * 0x10_0000_0000 + k;
    Arithmetic.Quotient(v - p, 0x10_0000_0000, -h, k);
  }

  lemma UpperHalfSplit(p: nat, n1: nat, n2: nat)
    requires UpperHalf(p, n1 + n2)
    ensures UpperHalf(p, n1) && UpperHalf(p + n1, n2)
  {
    var q, h := p % 0x10_0000_0000, p / 0x10_0000_0000;
    if n1 + n2 > 0 && n2 > 0 {
      Arithmetic.Quotient(p + n1, 0x10_0000_0000, h, q + n1);
    }
  }

  lemma SpreadTrans(m0: Mem, sh0: Shape, m1: Mem, sh1: Shape, m2: Mem, root: nat, p: nat, n1: nat, n2: nat)
    requires n1 <= 0x10_0000_0000 && IsRoot(sh0, root) && forall t | t in sh0 :: t in sh1 && sh1[t] == sh0[t]
    requires Spread(m0, m1, sh0, root, p, n1) && Spread(m1, m2, sh1, root, p + n1, n2)
    ensures Spread(m0, m2, sh0, root, p, n1 + n2)
  {
    hide Offset, Walk, SharedSlot;
    forall r, v | IsRoot(sh0, r) && 0 <= v < 0x10_0000_0000
      ensures Translate(m2, r, v) == if InRange(v, p, n1 + n2) && SharedSlot(m0, root, r, Index(v, 4)) then
        Translate(m2, root, v) else Translate(m0, r, v)
    {
      OffsetShift(v, p, n1);
      assert IsRoot(sh1, r) && IsRoot(sh1, root);
      assert SharedSlot(m1, root, r, Index(v, 4)) == SharedSlot(m0, root, r, Index(v, 4));
    }
  }

  lemma ContainedTrans(s0: State, sh0: Shape, s1: State, sh1: Shape, s2: State, sh2: Shape, root: nat, p: nat, n1: nat,
                       n2: nat)
    requires n1 <= 0x10_0000_0000 && IsRoot(sh0, root)
    requires Contained(s0, sh0, s1, sh1, root, p, n1)
    requires Contained(s1, sh1, s2, sh2, root, p + n1, n2)
    ensures Contained(s0, sh0, s2, sh2, root, p, n1 + n2)
  {
    hide Offset, Walk, Inv, UpperHalf, At, Spread;
    assert forall t | t in sh0 :: t in sh1 && sh1[t] == sh0[t] by { GrowsShape(s0, sh0, s1, sh1); }
    hide Grows;
    GrowsTrans(s0, sh0, s1, sh1, s2, sh2);
    SpreadTrans(s0.mem, sh0, s1.mem, sh1, s2.mem, root, p, n1, n2);
    if UpperHalf(p, n1 + n2) {
      UpperHalfSplit(p, n1, n2);
    }
  }

  lemma AllMappedTrans(s1: State, sh1: Shape, s2: State, sh2: Shape, root: nat, p: nat, n1: nat, n2: nat, f: nat)
    requires Inv(s1, sh1) && Extends(s1, sh1, s2, sh2) && IsRoot(sh1, root) && 0 < n1 <= 512
    requires AllMapped(s1.mem, root, p, n1, f) && AllMapped(s2.mem, root, p + n1, n2, f + n1)
    ensures AllMapped(s2.mem, root, p, n1 + n2, f) && n1 + n2 <= 0x10_0000_0000
  {
    hide Offset, Walk, WalkAccess, Inv, Extends;
    forall v | 0 <= v < 0x10_0000_0000 && InRange(v, p, n1 + n2)
      ensures Translate(s2.mem, root, v) == Some(f + Offset(v, p)) && WalkAccess(s2.mem, root, 4, v) == KERNEL_ACCESS
    {
      OffsetShift(v, p, n1);
      TranslationsPersist(s1, sh1, s2, sh2, root, v);
    }
    if n1 + n2 > 0x10_0000_0000 {
      var v := p % 0x10_0000_0000;
      OffsetIs(v, p);
      OffsetShift(v, p, n1);
      assert InRange(v, p, n1) && InRange(v, p + n1, n2);
      TranslationsPersist(s1, sh1, s2, sh2, root, v);
      assert false;
    }
  }

  lemma SomeMappedTrans(s0: State, sh0: Shape, s1: State, sh1: Shape, root: nat, p: nat, n1: nat, n2: nat)
    requires Contained(s0, sh0, s1, sh1, root, p, n1) && n1 + n2 <= 0x10_0000_0000 && IsRoot(sh0, root)
    requires SomeMapped(s1.mem, root, p + n1, n2)
    ensures SomeMapped(s0.mem, root, p, n1 + n2)
  {
    hide Offset, Walk, Inv, Grows;
    var v :| 0 <= v < 0x10_0000_0000 && InRange(v, p + n1, n2) && Translate(s1.mem, root, v).Some?;
    OffsetShift(v, p, n1);
    assert InRange(v, p, n1 + n2) && !InRange(v, p, n1);
    assert Translate(s0.mem, root, v).Some?;
  }

  lemma SpreadWiden(m: Mem, m': Mem, sh: Shape, root: nat, p: nat, n1: nat, n: nat)
    requires WellShaped(m, sh) && IsRoot(sh, root) && n1 <= n && Spread(m, m', sh, root, p, n1)
    ensures Spread(m, m', sh, root, p, n)
  {
    hide Offset, Walk, SharedSlot, WellShaped, SharingSame;
    forall r, v | IsRoot(sh, r) && 0 <= v < 0x10_0000_0000 && SharedSlot(m, root, r, Index(v, 4))
      ensures Translate(m', r, v) == Translate(m', root, v)
    {
      SharedAlike(m, sh, root, r, v);
      assert SharedSlot(m, root, root, Index(v, 4)) by { SharedSelf(m, root, Index(v, 4)); }
    }
  }

  lemma SharedSelf(m: Mem, root: nat, i: nat)
    requires i < 512
    ensures SharedSlot(m, root, root, i)
  {
  }

  // ----- the loop -----

  /** Pages mapped by one iteration. */
  function Chunk(virt: nat, phys: nat, len: nat): nat {
    if TakesHuge(virt, phys, len) then 512 else 1
  }

  /** The level of the table that holds the leaf of one iteration. */
  function Bottom(virt: nat, phys: nat, len: nat): nat {
    if TakesHuge(virt, phys, len) then 2 else 1
  }

  function MapChunk(s: State, root: nat, virt: nat, phys: Word, len: nat): (State, Outcome) {
    if TakesHuge(virt, phys, len) then Map2m(s, root, virt, phys) else Map4k(s, root, virt, phys)
  }

  lemma MapChunkOk(s: State, sh: Shape, root: nat, virt: nat, phys: Word, len: nat) returns (sh': Shape)
    requires Inv(s, sh) && IsRoot(sh, root) && phys < 0x10_0000_0000_0000
    ensures var (s', o) := MapChunk(s, root, virt, phys, len);
      && Contained(s, sh, s', sh', root, virt / 0x1000, Chunk(virt, phys, len))
      && Reports(s, s', root, virt / 0x1000, Chunk(virt, phys, len), phys / 0x1000, o)
      && Verdict(s.mem, root, PageOf(virt), phys / 0x1000, Bottom(virt, phys, len), o)
      && (if o.Done? then Aside(s.mem, s'.mem, root, PageOf(virt), Bottom(virt, phys, len))
          else Spread(s.mem, s'.mem, sh, root, virt / 0x1000, 0))
  {
    hide Contained, Reports, Map2m, Map4k, Spread, Aside, Verdict, PageOf;
    if TakesHuge(virt, phys, len) {
      sh' := Map2mOk(s, sh, root, virt, phys);
    } else {
      sh' := Map4kOk(s, sh, root, virt, phys);
    }
  }

  /** What the outcome of mapping a range says. A range of more than 2^36 pages
      meets its own first page again and cannot succeed. */
  ghost predicate RangeReports(s: State, s': State, root: nat, p: nat, n: nat, f: nat, o: Outcome) {
    match o
    case Done => AllMapped(s'.mem, root, p, n, f) && n <= 0x10_0000_0000
    case Failed(OutOfTablePages) => Exhausted(s')
    case Failed(_) => n <= 0x10_0000_0000 ==> SomeMapped(s.mem, root, p, n)
  }

  lemma {:induction false} MapLoopOk(s: State, sh: Shape, root: nat, virt: nat, phys: nat, len: nat)
    returns (sh': Shape)
    requires Inv(s, sh) && IsRoot(sh, root) && phys + len <= 0x10_0000_0000_0000
    requires virt % 0x1000 == 0 && phys % 0x1000 == 0 && len % 0x1000 == 0
    ensures var (s', o) := MapLoop(s, root, virt, phys, len);
      && Contained(s, sh, s', sh', root, virt / 0x1000, len / 0x1000)
      && RangeReports(s, s', root, virt / 0x1000, len / 0x1000, phys / 0x1000, o)
    decreases len
  {
    hide Offset, Walk, Map2m, Map4k, Inv, Contained, Reports, RangeReports;
    if len < 0x1000 {
      sh' := sh;
      ContainedRefl(s, sh, root, virt / 0x1000, 0);
      NothingMapped(s, root, virt / 0x1000, phys / 0x1000);
    } else {
      var n1 := Chunk(virt, phys, len);
      ChunkFits(virt, phys, len);
      var (s1, o1) := MapChunk(s, root, virt, phys, len);
      var sh1 := MapChunkOk(s, sh, root, virt, phys, len);
      ChunkKeeps(s, sh, s1, sh1, root, virt / 0x1000, n1);
      if o1.Failed? {
        sh' := sh1;
        Widen(s, sh, s1, sh1, root, virt / 0x1000, n1, len / 0x1000);
        ChunkReports(s, s1, root, virt / 0x1000, n1, len / 0x1000, phys / 0x1000, o1);
      } else {
        var (s', o) := MapLoop(s1, root, virt + 0x1000 * n1, phys + 0x1000 * n1, len - 0x1000 * n1);
        sh' := MapLoopOk(s1, sh1, root, virt + 0x1000 * n1, phys + 0x1000 * n1, len - 0x1000 * n1);
        ChunkReports(s, s1, root, virt / 0x1000, n1, len / 0x1000, phys / 0x1000, o1);
        LoopStep(s, sh, s1, sh1, s', sh', root, virt / 0x1000, n1, len / 0x1000 - n1, phys / 0x1000, o);
      }
    }
  }

  /** A chunk is whole pages of all three, and no more than is left. */
  lemma ChunkFits(virt: nat, phys: nat, len: nat)
    requires virt % 0x1000 == 0 && phys % 0x1000 == 0 && len % 0x1000 == 0 && len >= 0x1000
    ensures var n := Chunk(virt, phys, len);
      && 0 < n <= 512 && 0x1000 * n <= len && n <= len / 0x1000
      && (virt + 0x1000 * n) / 0x1000 == virt / 0x1000 + n && (virt + 0x1000 * n) % 0x1000 == 0
      && (phys + 0x1000 * n) / 0x1000 == phys / 0x1000 + n && (phys + 0x1000 * n) % 0x1000 == 0
      && (len - 0x1000 * n) / 0x1000 == len / 0x1000 - n && (len - 0x1000 * n) % 0x1000 == 0
  {
  }

  lemma ChunkKeeps(s: State, sh: Shape, s': State, sh': Shape, root: nat, p: nat, n: nat)
    requires Contained(s, sh, s', sh', root, p, n)
    ensures Inv(s', sh') && IsRoot(sh', root) && Grows(s, sh, s', sh')
  {
  }

  lemma ChunkReports(s: State, s': State, root: nat, p: nat, n1: nat, n: nat, f: nat, o: Outcome)
    requires Reports(s, s', root, p, n1, f, o) && n1 <= n
    ensures o.Done? ==> AllMapped(s'.mem, root, p, n1, f)
    ensures o.Failed? ==> RangeReports(s, s', root, p, n, f, o)
  {
    hide Offset, Walk;
    if o.Failed? && o.error != OutOfTablePages {
      var v :| 0 <= v < 0x10_0000_0000 && InRange(v, p, n1) && Translate(s.mem, root, v).Some?;
      assert InRange(v, p, n);
    }
  }

  lemma NothingMapped(s: State, root: nat, p: nat, f: nat)
    ensures RangeReports(s, s, root, p, 0, f, Done)
  {
  }

  lemma LoopStep(s: State, sh: Shape, s1: State, sh1: Shape, s': State, sh': Shape, root: nat, p: nat, n1: nat, n2: nat,
                 f: nat, o: Outcome)
    requires IsRoot(sh, root) && 0 < n1 <= 512
    requires Contained(s, sh, s1, sh1, root, p, n1) && AllMapped(s1.mem, root, p, n1, f)
    requires Contained(s1, sh1, s', sh', root, p + n1, n2) && RangeReports(s1, s', root, p + n1, n2, f + n1, o)
    ensures Contained(s, sh, s', sh', root, p, n1 + n2) && RangeReports(s, s', root, p, n1 + n2, f, o)
  {
    hide Offset, Walk, Inv, Extends, AllMapped, SomeMapped, InRange;
    ContainedTrans(s, sh, s1, sh1, s', sh', root, p, n1, n2);
    if o.Done? {
      AllMappedTrans(s1, sh1, s', sh', root, p, n1, n2, f);
    } else if o.error != OutOfTablePages && n1 + n2 <= 0x10_0000_0000 {
      SomeMappedTrans(s, sh, s1, sh1, root, p, n1, n2);
    }
  }

  /** A failed chunk reported for the whole range. */
  lemma Widen(s: State, sh: Shape, s': State, sh': Shape, root: nat, p: nat, n1: nat, n: nat)
    requires Inv(s, sh) && IsRoot(sh, root) && 0 < n1 <= n && n1 <= 512
    requires Contained(s, sh, s', sh', root, p, n1)
    ensures Contained(s, sh, s', sh', root, p, n)
  {
    SpreadWiden(s.mem, s'.mem, sh, root, p, n1, n);
    hide Offset, Walk, Inv, Grows, Spread;
    if UpperHalf(p, n) {
      UpperHalfSplit(p, n1, n - n1);
    }
  }
}
