/** When a call succeeds, told from the tables there are before it. */
module MapVerdicts {
  import opened MachineWords
  import opened PageTables
  import opened PageMapper
  import opened MapperProofs
  import opened MapPages
  import opened MapRanges
  import opened TableNeeds

  /** Nothing stands in the way of any leaf of the call. */
  ghost predicate AllFit(m: Mem, root: nat, virt: nat, phys: nat, len: nat)
    decreases len
  {
    len < 0x1000 || (
      && Obstacle(m, root, PageOf(virt), phys / 0x1000, Bottom(virt, phys, len)).None?
      && var n := 0x1000 * Chunk(virt, phys, len); AllFit(m, root, virt + n, phys + n, len - n))
  }

  /** The free pages are enough for the tables that are missing. */
  ghost predicate Enough(s: State, root: nat, virt: nat, phys: nat, len: nat) {
    s.cursor + 0x1000 * |Need(s.mem, root, virt, phys, len)| <= s.end
  }

  /** The call can be carried through. */
  ghost predicate CanMap(s: State, root: nat, virt: nat, phys: nat, len: nat) {
    len / 0x1000 <= 0x10_0000_0000 && AllFit(s.mem, root, virt, phys, len) && Enough(s, root, virt, phys, len)
  }

  // ----- leaves do not get in each other's way -----

  lemma ObstacleAside(m: Mem, m': Mem, root: nat, vpn: nat, l: nat, v: nat, f: nat, k: nat)
    requires 1 <= l <= 2 && 1 <= k <= 2 && v < 0x10_0000_0000 && Aside(m, m', root, vpn, l)
    requires Prefix(v, l - 1) != Prefix(vpn, l - 1) && Prefix(v, k - 1) != Prefix(vpn, k - 1)
    ensures Obstacle(m', root, v, f, k) == Obstacle(m, root, v, f, k)
  {
    hide WalkEnd, Present, PhysFrame;
    assert DeepenedAt(m, m', root, vpn, l, v);
  }

  /** Leaves of a range of at most 2^36 pages lie apart. */
  lemma LeavesApart(p: nat, l: nat, j: nat, k: nat)
    requires 1 <= l <= 2 && 1 <= k <= 2 && p % Span(l) == 0 && (p + j) % Span(k) == 0
    requires Span(l) <= j && j + Span(k) <= 0x10_0000_0000
    ensures var (vpn, v) := (p % 0x10_0000_0000, (p + j) % 0x10_0000_0000);
      Prefix(v, l - 1) != Prefix(vpn, l - 1) && Prefix(v, k - 1) != Prefix(vpn, k - 1)
  {
    hide Offset, Prefix;
    var (vpn, v) := (p % 0x10_0000_0000, (p + j) % 0x10_0000_0000);
    LeafCovers(p, v, l);
    LeafCovers(p + j, vpn, k);
    OffsetOf(p, j);
    OffsetOf(p, 0);
    OffsetShift(vpn, p, j);
  }

  lemma LeafAligned(virt: nat, phys: nat, len: nat)
    requires virt % 0x1000 == 0
    ensures var l := Bottom(virt, phys, len);
      1 <= l <= 2 && virt / 0x1000 % Span(l) == 0 && Span(l) == Chunk(virt, phys, len)
  {
    if TakesHuge(virt, phys, len) {
      HugeAligned(virt);
    }
  }

  /** An obstacle further on is the same before and after a leaf was mapped. */
  lemma ObstacleLater(m: Mem, m': Mem, root: nat, p: nat, l: nat, j: nat, virt: nat, phys: nat, len: nat)
    requires 1 <= l <= 2 && p % Span(l) == 0 && Aside(m, m', root, p % 0x10_0000_0000, l)
    requires virt % 0x1000 == 0 && virt / 0x1000 == p + j && Span(l) <= j
    requires j + Chunk(virt, phys, len) <= 0x10_0000_0000
    ensures var k := Bottom(virt, phys, len);
      Obstacle(m', root, PageOf(virt), phys / 0x1000, k) == Obstacle(m, root, PageOf(virt), phys / 0x1000, k)
  {
    hide Obstacle, Aside, Prefix;
    var k := Bottom(virt, phys, len);
    LeafAligned(virt, phys, len);
    LeavesApart(p, l, j, k);
    ObstacleAside(m, m', root, p % 0x10_0000_0000, l, PageOf(virt), phys / 0x1000, k);
  }

  lemma {:induction false} FitAfter(m: Mem, m': Mem, root: nat, p: nat, l: nat, j: nat, virt: nat, phys: nat, len: nat)
    requires 1 <= l <= 2 && p % Span(l) == 0 && Aside(m, m', root, p % 0x10_0000_0000, l)
    requires virt % 0x1000 == 0 && phys % 0x1000 == 0 && len % 0x1000 == 0
    requires virt / 0x1000 == p + j && Span(l) <= j && j + len / 0x1000 <= 0x10_0000_0000
    ensures AllFit(m', root, virt, phys, len) == AllFit(m, root, virt, phys, len)
    decreases len
  {
    hide Obstacle, Aside, PageOf, Chunk;
    if len >= 0x1000 {
      var n := Chunk(virt, phys, len);
      ChunkFits(virt, phys, len);
      ObstacleLater(m, m', root, p, l, j, virt, phys, len);
      FitAfter(m, m', root, p, l, j + n, virt + 0x1000 * n, phys + 0x1000 * n, len - 0x1000 * n);
    }
  }

  // ----- the exact condition -----

  lemma FitSplit(m: Mem, root: nat, virt: nat, phys: nat, len: nat, n: nat)
    requires len >= 0x1000 && n == Chunk(virt, phys, len)
    ensures 0x1000 * n <= len
    ensures AllFit(m, root, virt, phys, len) <==>
      && Obstacle(m, root, PageOf(virt), phys / 0x1000, Bottom(virt, phys, len)).None?
      && AllFit(m, root, virt + 0x1000 * n, phys + 0x1000 * n, len - 0x1000 * n)
  {
    hide Obstacle, PageOf;
  }

  /** What the first leaf takes is no longer missing. */
  lemma EnoughAfter(s: State, s1: State, root: nat, virt: nat, phys: nat, len: nat, n: nat)
    requires len >= 0x1000 && n == Chunk(virt, phys, len)
    requires Takes(s, s1, root, LeafNeed(s.mem, root, PageOf(virt), Bottom(virt, phys, len)), Done)
    ensures 0x1000 * n <= len
    ensures Enough(s, root, virt, phys, len) <==>
      Enough(s1, root, virt + 0x1000 * n, phys + 0x1000 * n, len - 0x1000 * n)
  {
    hide Need, LeafNeed, TablesAre, PageOf;
    NeedSplit(s.mem, root, virt, phys, len, n);
    var c := LeafNeed(s.mem, root, PageOf(virt), Bottom(virt, phys, len));
    NeedAfter(s.mem, s1.mem, root, c, virt + 0x1000 * n, phys + 0x1000 * n, len - 0x1000 * n);
    Sizes(c, Need(s.mem, root, virt + 0x1000 * n, phys + 0x1000 * n, len - 0x1000 * n));
  }

  lemma ShortFor(s: State, s1: State, root: nat, virt: nat, phys: nat, len: nat, o: Outcome)
    requires len >= 0x1000 && o == Failed(OutOfTablePages)
    requires Takes(s, s1, root, LeafNeed(s.mem, root, PageOf(virt), Bottom(virt, phys, len)), o)
    ensures !Enough(s, root, virt, phys, len)
  {
    hide Need, LeafNeed, TablesAre, PageOf;
    var n := Chunk(virt, phys, len);
    NeedSplit(s.mem, root, virt, phys, len, n);
    Sizes(LeafNeed(s.mem, root, PageOf(virt), Bottom(virt, phys, len)),
      Need(s.mem, root, virt + 0x1000 * n, phys + 0x1000 * n, len - 0x1000 * n));
  }

  lemma LoopAtMost(s: State, sh: Shape, root: nat, virt: nat, phys: nat, len: nat)
    requires Inv(s, sh) && IsRoot(sh, root) && phys + len <= 0x10_0000_0000_0000
    requires virt % 0x1000 == 0 && phys % 0x1000 == 0 && len % 0x1000 == 0
    ensures MapLoop(s, root, virt, phys, len).1.Done? ==> len / 0x1000 <= 0x10_0000_0000
  {
    hide MapLoop, Inv, Contained;
    var sh' := MapLoopOk(s, sh, root, virt, phys, len);
  }

  /** One turn of the loop. */
  lemma LoopSplit(s: State, root: nat, virt: nat, phys: nat, len: nat, n: nat)
    requires phys + len <= 0x10_0000_0000_0000 && len >= 0x1000 && n == Chunk(virt, phys, len)
    ensures 0x1000 * n <= len
    ensures var (s1, o) := MapChunk(s, root, virt, phys, len);
      MapLoop(s, root, virt, phys, len) ==
        if o.Failed? then (s1, o) else MapLoop(s1, root, virt + 0x1000 * n, phys + 0x1000 * n, len - 0x1000 * n)
  {
    hide Map2m, Map4k;
  }

  /** A call succeeds if and only if every leaf fits, the missing tables fit into the free
      pages, and no page comes round twice. */
  lemma {:induction false} LoopExactly(s: State, sh: Shape, root: nat, virt: nat, phys: nat, len: nat)
    requires Inv(s, sh) && IsRoot(sh, root) && phys + len <= 0x10_0000_0000_0000
    requires virt % 0x1000 == 0 && phys % 0x1000 == 0 && len % 0x1000 == 0
    ensures MapLoop(s, root, virt, phys, len).1.Done? <==> CanMap(s, root, virt, phys, len)
    decreases len
  {
    hide MapChunk, MapLoop, Inv, Contained, Grows, LeafNeed, Spread, Reports, Need, Takes, AllFit, Enough, Aside,
         Obstacle, Bottom;
    LoopAtMost(s, sh, root, virt, phys, len);
    if len < 0x1000 {
      NothingToMap(s, sh, root, virt, phys, len);
    } else if len / 0x1000 <= 0x10_0000_0000 {
      var n1 := Chunk(virt, phys, len);
      ChunkFits(virt, phys, len);
      LoopSplit(s, root, virt, phys, len, n1);
      FitSplit(s.mem, root, virt, phys, len, n1);
      var (s1, o1) := MapChunk(s, root, virt, phys, len);
      var sh1 := MapChunkOk(s, sh, root, virt, phys, len);
      ChunkNeeds(s, sh, root, virt, phys, len);
      if o1.Done? {
        ChunkKeeps(s, sh, s1, sh1, root, virt / 0x1000, n1);
        EnoughAfter(s, s1, root, virt, phys, len, n1);
        LeafAligned(virt, phys, len);
        var (v2, p2, l2) := (virt + 0x1000 * n1, phys + 0x1000 * n1, len - 0x1000 * n1);
        FitAfter(s.mem, s1.mem, root, virt / 0x1000, Bottom(virt, phys, len), n1, v2, p2, l2);
        LoopExactly(s1, sh1, root, v2, p2, l2);
      } else if o1.error == OutOfTablePages {
        ShortFor(s, s1, root, virt, phys, len, o1);
      }
    }
  }

  lemma NothingToMap(s: State, sh: Shape, root: nat, virt: nat, phys: nat, len: nat)
    requires Inv(s, sh) && phys + len <= 0x10_0000_0000_0000 && len < 0x1000
    ensures MapLoop(s, root, virt, phys, len) == (s, Done) && CanMap(s, root, virt, phys, len)
  {
  }

  // ----- only tables matter -----

  /** `m'` has the tables of `m`, whatever else is in memory. */
  ghost predicate TablesSame(m: Mem, m': Mem, sh: Shape) {
    forall t | t in sh :: t in m && t in m' && m'[t] == m[t]
  }

  lemma {:induction false} EndReadsTables(m: Mem, m': Mem, sh: Shape, x: nat, v: nat, t: nat, l: nat)
    requires WellShaped(m, sh) && TablesSame(m, m', sh) && x in sh && 1 <= l <= sh[x].level
    ensures WalkEnd(m', x, sh[x].level, v) == WalkEnd(m, x, sh[x].level, v)
    ensures Leads(m', x, sh[x].level, v, t, l) <==> Leads(m, x, sh[x].level, v, t, l)
    decreases sh[x].level
  {
    hide Present, Huge, PhysFrame, Index, KernelEntry;
    var level := sh[x].level;
    assert SlotOk(m, sh, x, Index(v, level));
    var e := At(m, x, Index(v, level));
    if Present(e) && level > 1 && !Huge(e) {
      EndReadsTables(m, m', sh, PhysFrame(e), v, t, if l < level then l else 1);
    }
  }

  lemma NeedReadsTables(m: Mem, m': Mem, sh: Shape, root: nat, v: nat, l: nat)
    requires WellShaped(m, sh) && TablesSame(m, m', sh) && IsRoot(sh, root) && 1 <= l <= 3
    ensures NeedAt(m', root, v, l) == NeedAt(m, root, v, l)
  {
    hide WellShaped, Leads;
    forall t: nat
      ensures Leads(m', root, 4, v, t, l) <==> Leads(m, root, 4, v, t, l)
    {
      EndReadsTables(m, m', sh, root, v, t, l);
    }
  }

  lemma {:induction false} CallReadsTables(m: Mem, m': Mem, sh: Shape, root: nat, virt: nat, phys: nat, len: nat)
    requires WellShaped(m, sh) && TablesSame(m, m', sh) && IsRoot(sh, root)
    ensures Need(m', root, virt, phys, len) == Need(m, root, virt, phys, len)
    ensures AllFit(m', root, virt, phys, len) <==> AllFit(m, root, virt, phys, len)
    decreases len
  {
    hide WellShaped, WalkEnd, NeedAt, PageOf;
    if len >= 0x1000 {
      var v := PageOf(virt);
      EndReadsTables(m, m', sh, root, v, root, 4);
      NeedReadsTables(m, m', sh, root, v, 3);
      NeedReadsTables(m, m', sh, root, v, 2);
      NeedReadsTables(m, m', sh, root, v, 1);
      var n := 0x1000 * Chunk(virt, phys, len);
      CallReadsTables(m, m', sh, root, virt + n, phys + n, len - n);
    }
  }
}
