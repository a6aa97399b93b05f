/** How many page tables a call takes, told from the tables there are before it. */
module TableNeeds {
  import opened MachineWords
  import opened PageTables
  import opened PageMapper
  import opened MapperProofs
  import opened MapPages
  import opened MapRanges

  /** The walk of page `v` from `root` reaches a table of level `l`. */
  ghost predicate HasTable(m: Mem, root: nat, v: nat, l: nat)
    requires 1 <= l <= 3
  {
    exists t :: Leads(m, root, 4, v, t, l)
  }

  /** A place for a table: a level and the page-number prefix it serves. */
  type Spot = (nat, nat)

  ghost function NeedAt(m: Mem, root: nat, v: nat, l: nat): set<Spot>
    requires 1 <= l <= 3
  {
    if HasTable(m, root, v, l) then {} else {(l, Prefix(v, l))}
  }

  /** The tables missing on the way to a leaf of a level `bottom` table. */
  ghost function LeafNeed(m: Mem, root: nat, v: nat, bottom: nat): set<Spot> {
    NeedAt(m, root, v, 3) + NeedAt(m, root, v, 2) + if bottom == 1 then NeedAt(m, root, v, 1) else {}
  }

  /** The tables missing for a call, each counted once. */
  ghost function Need(m: Mem, root: nat, virt: nat, phys: nat, len: nat): set<Spot>
    decreases len
  {
    if len < 0x1000 then {}
    else
      var n := 0x1000 * Chunk(virt, phys, len);
      LeafNeed(m, root, PageOf(virt), Bottom(virt, phys, len)) + Need(m, root, virt + n, phys + n, len - n)
  }

  /** `m'` has the tables of `m` below `root`, and those of `extra`. */
  ghost predicate TablesAre(m: Mem, m': Mem, root: nat, extra: set<Spot>) {
    forall v, l | 0 <= v < 0x10_0000_0000 && 1 <= l <= 3 ::
      HasTable(m', root, v, l) <==> HasTable(m, root, v, l) || (l, Prefix(v, l)) in extra
  }

  lemma TablesTrans(m0: Mem, m1: Mem, m2: Mem, root: nat, a: set<Spot>, b: set<Spot>)
    requires TablesAre(m0, m1, root, a) && TablesAre(m1, m2, root, b)
    ensures TablesAre(m0, m2, root, a + b)
  {
    hide HasTable, Prefix;
  }

  // ----- one table -----

  /** A walk after a table was linked is a walk from before, or ends at the new table. */
  lemma {:induction false} LinkedLeads(s: State, sh: Shape, s': State, t: nat, i: nat, f: nat, x: nat, v: nat, y: nat,
                                       l: nat)
    requires Tables(s, sh) && i < 512 && Linked(s, sh, s', t, i, f)
    requires Serves(sh, x, v) && 1 <= l <= sh[x].level && Leads(s'.mem, x, sh[x].level, v, y, l)
    ensures Leads(s.mem, x, sh[x].level, v, y, l)
      || (y == f && l == sh[t].level - 1 && Prefix(v, l) == sh[t].prefix * 512 + i)
    decreases sh[x].level
  {
    var level := sh[x].level;
    if level != l {
      var j := Index(v, level);
      LinkedSlots(s, sh, s', t, i, f);
      PrefixStep(v, level);
      assert SlotOk(s.mem, sh, x, j);
      assert !Present(At(s'.mem, f, if level > 2 then Index(v, level - 1) else 0));
      if x != t || j != i {
        LinkedLeads(s, sh, s', t, i, f, PhysFrame(At(s.mem, x, j)), v, y, l);
      }
    }
  }

  lemma LinkedTables(s: State, sh: Shape, s': State, root: nat, vpn: nat, t: nat, l: nat, f: nat)
    requires Tables(s, sh) && IsRoot(sh, root) && vpn < 0x10_0000_0000 && 2 <= l <= 4
    requires Leads(s.mem, root, 4, vpn, t, l) && t in sh && sh[t].level == l && Linked(s, sh, s', t, Index(vpn, l), f)
    ensures TablesAre(s.mem, s'.mem, root, {(l - 1, Prefix(vpn, l - 1))})
    ensures !HasTable(s.mem, root, vpn, l - 1)
  {
    hide Walk, Linked, Tables;
    LinkedFacts(s, sh, s', root, vpn, t, l, f);
    forall v, k | 0 <= v < 0x10_0000_0000 && 1 <= k <= 3
      ensures HasTable(s'.mem, root, v, k) <==>
        HasTable(s.mem, root, v, k) || (k, Prefix(v, k)) in {(l - 1, Prefix(vpn, l - 1))}
    {
      LinkedTable(s, sh, s', root, vpn, t, l, f, v, k);
    }
  }

  lemma LinkedFacts(s: State, sh: Shape, s': State, root: nat, vpn: nat, t: nat, l: nat, f: nat)
    requires Tables(s, sh) && IsRoot(sh, root) && vpn < 0x10_0000_0000 && 2 <= l <= 4
    requires Leads(s.mem, root, 4, vpn, t, l) && t in sh && sh[t].level == l && Linked(s, sh, s', t, Index(vpn, l), f)
    ensures Leads(s'.mem, root, 4, vpn, f, l - 1) && EntriesPersist(s.mem, s'.mem, sh)
    ensures sh[t].prefix * 512 + Index(vpn, l) == Prefix(vpn, l - 1)
    ensures !HasTable(s.mem, root, vpn, l - 1)
  {
    var i := Index(vpn, l);
    LinkedSlots(s, sh, s', t, i, f);
    LeadsServes(s.mem, sh, root, vpn, t, l);
    PrefixStep(vpn, l);
    LeadsPersists(s.mem, s'.mem, sh, root, vpn, t, l);
    LeadsDown(s'.mem, root, 4, vpn, t, l);
    var k := l - 1;
    if y :| Leads(s.mem, root, 4, vpn, y, k) {
      LeadsPast(s.mem, root, 4, vpn, t, l, y);
    }
  }

  /** A walk that goes on below a table goes through a present slot of it. */
  lemma {:induction false} LeadsPast(m: Mem, x: nat, level: nat, v: nat, t: nat, l: nat, y: nat)
    requires 2 <= l <= level <= 4 && Leads(m, x, level, v, t, l) && Leads(m, x, level, v, y, l - 1)
    ensures Present(At(m, t, Index(v, l))) && !Huge(At(m, t, Index(v, l))) && y == PhysFrame(At(m, t, Index(v, l)))
    decreases level
  {
    if level != l {
      LeadsPast(m, PhysFrame(At(m, x, Index(v, level))), level - 1, v, t, l, y);
    }
  }

  lemma LinkedTable(s: State, sh: Shape, s': State, root: nat, vpn: nat, t: nat, l: nat, f: nat, v: nat, k: nat)
    requires Tables(s, sh) && IsRoot(sh, root) && vpn < 0x10_0000_0000 && v < 0x10_0000_0000 && 2 <= l <= 4
    requires 1 <= k <= 3
    requires t in sh && sh[t].level == l && Linked(s, sh, s', t, Index(vpn, l), f)
    requires Leads(s'.mem, root, 4, vpn, f, l - 1) && EntriesPersist(s.mem, s'.mem, sh)
    requires sh[t].prefix * 512 + Index(vpn, l) == Prefix(vpn, l - 1)
    ensures HasTable(s'.mem, root, v, k) <==>
      HasTable(s.mem, root, v, k) || (k == l - 1 && Prefix(v, k) == Prefix(vpn, k))
  {
    hide Leads, Linked, Prefix, Index, Walk;
    RootServes(s.mem, sh, root, v);
    if y :| Leads(s'.mem, root, 4, v, y, k) {
      LinkedLeads(s, sh, s', t, Index(vpn, l), f, root, v, y, k);
    }
    if y :| Leads(s.mem, root, 4, v, y, k) {
      LeadsPersists(s.mem, s'.mem, sh, root, v, y, k);
      assert HasTable(s'.mem, root, v, k);
    }
    if k == l - 1 && Prefix(v, k) == Prefix(vpn, k) {
      LeadsByPrefix(s'.mem, root, 4, vpn, v, f, k);
      assert HasTable(s'.mem, root, v, k);
    }
  }

  /** One table made sure of: taken from the allocator exactly when it was missing. */
  lemma EnsureNeeds(s: State, sh: Shape, root: nat, vpn: nat, t: nat, l: nat)
    requires Inv(s, sh) && IsRoot(sh, root) && vpn < 0x10_0000_0000 && 2 <= l <= 4 && Leads(s.mem, root, 4, vpn, t, l)
    ensures var (s', r) := EnsureTable(s, t, Index(vpn, l)); var need := NeedAt(s.mem, root, vpn, l - 1);
      && s'.end == s.end
      && (r.Ok? ==> TablesAre(s.mem, s'.mem, root, need) && s'.cursor == s.cursor + 0x1000 * |need|)
      && (r == Err(OutOfTablePages) ==> s.cursor + 0x1000 * |need| > s.end)
  {
    RootServes(s.mem, sh, root, vpn);
    LeadsServes(s.mem, sh, root, vpn, t, l);
    var i := Index(vpn, l);
    var (s', r) := EnsureTable(s, t, i);
    if Present(At(s.mem, t, i)) {
      if r.Ok? {
        LeadsDown(s.mem, root, 4, vpn, t, l);
        assert HasTable(s.mem, root, vpn, l - 1);
      }
    } else {
      EnsureMissing(s, root, vpn, t, l);
      if r.Ok? {
        EnsureLinks(s, sh, t, i);
        hide Leads, Linked, EnsureTable, HasTable, Prefix;
        LinkedTables(s, sh, s', root, vpn, t, l, r.value);
      }
    }
  }

  lemma EnsureMissing(s: State, root: nat, vpn: nat, t: nat, l: nat)
    requires 2 <= l <= 4 && Leads(s.mem, root, 4, vpn, t, l) && !Present(At(s.mem, t, Index(vpn, l)))
    ensures !HasTable(s.mem, root, vpn, l - 1)
  {
    var k := l - 1;
    if y :| Leads(s.mem, root, 4, vpn, y, k) {
      LeadsPast(s.mem, root, 4, vpn, t, l, y);
    }
  }

  // ----- one leaf -----

  /** A walk after a leaf was written is a walk from before. */
  lemma {:induction false} LeafWalks(s: State, sh: Shape, s': State, root: nat, vpn: nat, t: nat, k: nat, e: Word,
                                     x: nat, v: nat, y: nat, l: nat)
    requires Tables(s, sh) && LeafSet(s, sh, s', root, vpn, t, k, e)
    requires x in sh && 1 <= l <= sh[x].level && Leads(s'.mem, x, sh[x].level, v, y, l)
    ensures Leads(s.mem, x, sh[x].level, v, y, l)
    decreases sh[x].level
  {
    var level := sh[x].level;
    if level != l {
      LeadsServes(s.mem, sh, root, vpn, t, k);
      assert SlotOk(s.mem, sh, x, Index(v, level));
      LeafWalks(s, sh, s', root, vpn, t, k, e, PhysFrame(At(s.mem, x, Index(v, level))), v, y, l);
    }
  }

  lemma LeafTables(s: State, sh: Shape, s': State, root: nat, vpn: nat, t: nat, k: nat, e: Word)
    requires Tables(s, sh) && LeafSet(s, sh, s', root, vpn, t, k, e)
    ensures TablesAre(s.mem, s'.mem, root, {})
  {
    LeafInv(s, sh, s', root, vpn, t, k, e);
    hide Leads, Walk, Prefix, Tables;
    forall v, l | 0 <= v < 0x10_0000_0000 && 1 <= l <= 3
      ensures HasTable(s'.mem, root, v, l) <==> HasTable(s.mem, root, v, l)
    {
      if y :| Leads(s'.mem, root, 4, v, y, l) {
        LeafWalks(s, sh, s', root, vpn, t, k, e, root, v, y, l);
      }
      if y :| Leads(s.mem, root, 4, v, y, l) {
        LeadsPersistsIn(s, sh, s', root, v, y, l);
        assert HasTable(s'.mem, root, v, l);
      }
    }
  }

  lemma LeadsPersistsIn(s: State, sh: Shape, s': State, root: nat, v: nat, y: nat, l: nat)
    requires Tables(s, sh) && IsRoot(sh, root) && Grows(s, sh, s', sh) && 1 <= l <= 3 && Leads(s.mem, root, 4, v, y, l)
    ensures Leads(s'.mem, root, 4, v, y, l)
  {
    LeadsPersists(s.mem, s'.mem, sh, root, v, y, l);
  }

  /** What mapping one leaf takes. */
  ghost predicate Takes(s: State, s': State, root: nat, need: set<Spot>, o: Outcome) {
    && s'.end == s.end
    && (o.Done? ==> TablesAre(s.mem, s'.mem, root, need) && s'.cursor == s.cursor + 0x1000 * |need|)
    && (o == Failed(OutOfTablePages) ==> s.cursor + 0x1000 * |need| > s.end)
  }

  lemma SameTables(m: Mem, root: nat)
    ensures TablesAre(m, m, root, {})
  {
  }

  /** The two levels above the page directory. */
  lemma PdNeeds(s: State, sh: Shape, root: nat, virt: nat) returns (sh': Shape)
    requires Inv(s, sh) && IsRoot(sh, root)
    ensures var (s', r) := EnsurePd(s, root, virt);
      var need := NeedAt(s.mem, root, PageOf(virt), 3) + NeedAt(s.mem, root, PageOf(virt), 2);
      && Ensured(s, sh, s', sh', root, PageOf(virt), 3, r) && s'.end == s.end
      && (r.Ok? ==> TablesAre(s.mem, s'.mem, root, need) && s'.cursor == s.cursor + 0x1000 * |need|)
      && (r == Err(OutOfTablePages) ==> s.cursor + 0x1000 * |need| > s.end)
  {
    hide EnsureTable, Leads, HasTable, Prefix, Inv, Grows, SameWalks, Index, RootSlotsSame;
    var vpn := PageOf(virt);
    RootLeads(s.mem, root, vpn);
    EnsureNeeds(s, sh, root, vpn, root, 4);
    var (s1, pdpt) := EnsureTable(s, root, Pml4Index(virt));
    var sh1 := EnsureTableOk(s, sh, root, vpn, root, 4);
    sh' := EnsurePdOk(s, sh, root, virt);
    var a, b := NeedAt(s.mem, root, vpn, 3), NeedAt(s.mem, root, vpn, 2);
    assert |a + b| == |a| + |b|;
    if pdpt.Ok? {
      assert NeedAt(s1.mem, root, vpn, 2) == b;
      EnsuredInv(s, sh, s1, sh1, root, vpn, 4, pdpt);
      EnsureNeeds(s1, sh1, root, vpn, pdpt.value, 3);
      var (s2, pd) := EnsureTable(s1, pdpt.value, PdptIndex(virt));
      if pd.Ok? {
        TablesTrans(s.mem, s1.mem, s2.mem, root, a, b);
      }
    }
  }

  lemma RootLeads(m: Mem, root: nat, v: nat)
    ensures Leads(m, root, 4, v, root, 4)
  {
  }

  lemma EnsuredInv(s: State, sh: Shape, s': State, sh': Shape, root: nat, vpn: nat, l: nat, r: Result<nat>)
    requires 3 <= l <= 4 && Ensured(s, sh, s', sh', root, vpn, l, r)
    ensures Inv(s', sh')
  {
  }

  lemma Map2mNeeds(s: State, sh: Shape, root: nat, virt: nat, phys: Word)
    requires Inv(s, sh) && IsRoot(sh, root) && phys < 0x10_0000_0000_0000 && virt % 0x20_0000 == 0
    requires phys % 0x20_0000 == 0
    ensures var (s', o) := Map2m(s, root, virt, phys); Takes(s, s', root, LeafNeed(s.mem, root, PageOf(virt), 2), o)
  {
    hide EnsurePd, Leads, HasTable, Prefix, Inv, Grows, SameWalks, Index, RootSlotsSame, TablesAre, NeedAt, PhysFrame,
         Present, Huge, At, Put;
    var (s1, pd) := EnsurePd(s, root, virt);
    var sh1 := PdNeeds(s, sh, root, virt);
    assert LeafNeed(s.mem, root, PageOf(virt), 2) ==
      NeedAt(s.mem, root, PageOf(virt), 3) + NeedAt(s.mem, root, PageOf(virt), 2);
    if pd.Ok? {
      var (s', o) := SetLeaf2m(s1, pd.value, virt, phys);
      FrameOf(phys);
      if !Present(At(s1.mem, pd.value, PdIndex(virt))) {
        LeafTables(s1, sh1, s', root, PageOf(virt), pd.value, 2, HugeEntry(PhysFrame(phys)));
        NoMore(s.mem, s1.mem, s'.mem, root, LeafNeed(s.mem, root, PageOf(virt), 2));
      }
    }
  }

  lemma NoMore(m0: Mem, m1: Mem, m2: Mem, root: nat, a: set<Spot>)
    requires TablesAre(m0, m1, root, a) && TablesAre(m1, m2, root, {})
    ensures TablesAre(m0, m2, root, a)
  {
    TablesTrans(m0, m1, m2, root, a, {});
    assert a + {} == a;
  }

  lemma Map4kNeeds(s: State, sh: Shape, root: nat, virt: nat, phys: Word)
    requires Inv(s, sh) && IsRoot(sh, root) && phys < 0x10_0000_0000_0000
    ensures var (s', o) := Map4k(s, root, virt, phys); Takes(s, s', root, LeafNeed(s.mem, root, PageOf(virt), 1), o)
  {
    hide EnsurePd, EnsureTable, SetLeaf4k, Leads, HasTable, Inv, Grows, SameWalks, Index, RootSlotsSame;
    var vpn := PageOf(virt);
    var (s1, pd) := EnsurePd(s, root, virt);
    var sh1 := PdNeeds(s, sh, root, virt);
    var a, b := NeedAt(s.mem, root, vpn, 3) + NeedAt(s.mem, root, vpn, 2), NeedAt(s.mem, root, vpn, 1);
    assert LeafNeed(s.mem, root, vpn, 1) == a + b;
    assert |a + b| == |a| + |b|;
    if pd.Ok? {
      assert NeedAt(s1.mem, root, vpn, 1) == b;
      hide NeedAt, LeafNeed, TablesAre;
      EnsuredInv(s, sh, s1, sh1, root, vpn, 3, pd);
      EnsureNeeds(s1, sh1, root, vpn, pd.value, 2);
      var (s2, pt) := EnsureTable(s1, pd.value, PdIndex(virt));
      var sh2 := EnsureTableOk(s1, sh1, root, vpn, pd.value, 2);
      if pt.Ok? {
        TablesTrans(s.mem, s1.mem, s2.mem, root, a, b);
        LeafNeeds(s2, sh2, root, virt, phys, pt.value);
        var (s', o) := SetLeaf4k(s2, pt.value, virt, phys);
        NoMore(s.mem, s2.mem, s'.mem, root, a + b);
      }
    }
  }

  lemma LeafNeeds(s: State, sh: Shape, root: nat, virt: nat, phys: Word, t: nat)
    requires Tables(s, sh) && IsRoot(sh, root) && Leads(s.mem, root, 4, PageOf(virt), t, 1)
    ensures var (s', o) := SetLeaf4k(s, t, virt, phys);
      TablesAre(s.mem, s'.mem, root, {}) && s'.cursor == s.cursor && s'.end == s.end && o != Failed(OutOfTablePages)
  {
    hide Leads, HasTable, Index, PhysFrame, Present, Huge, At, Put, Prefix, Tables;
    SameTables(s.mem, root);
    if !Present(At(s.mem, t, PtIndex(virt))) {
      LeafTables(s, sh, SetLeaf4k(s, t, virt, phys).0, root, PageOf(virt), t, 1, TableEntry(PhysFrame(phys)));
    }
  }

  lemma ChunkNeeds(s: State, sh: Shape, root: nat, virt: nat, phys: Word, len: nat)
    requires Inv(s, sh) && IsRoot(sh, root) && phys < 0x10_0000_0000_0000
    ensures var (s', o) := MapChunk(s, root, virt, phys, len);
      Takes(s, s', root, LeafNeed(s.mem, root, PageOf(virt), Bottom(virt, phys, len)), o)
  {
    hide Map2m, Map4k, Takes, LeafNeed, PageOf;
    if TakesHuge(virt, phys, len) {
      Map2mNeeds(s, sh, root, virt, phys);
    } else {
      Map4kNeeds(s, sh, root, virt, phys);
    }
  }

  // ----- a whole call -----

  /** Tables that have been added are no longer missing. */
  lemma {:induction false} NeedAfter(m: Mem, m': Mem, root: nat, extra: set<Spot>, virt: nat, phys: nat, len: nat)
    requires TablesAre(m, m', root, extra)
    ensures Need(m', root, virt, phys, len) == Need(m, root, virt, phys, len) - extra
    decreases len
  {
    hide TablesAre, LeafNeed, PageOf, Chunk;
    if len >= 0x1000 {
      var n := 0x1000 * Chunk(virt, phys, len);
      assert 0x1000 <= n <= len by { ChunkSize(virt, phys, len); }
      NeedAfter(m, m', root, extra, virt + n, phys + n, len - n);
      LeafNeedAfter(m, m', root, extra, PageOf(virt), Bottom(virt, phys, len));
    }
  }

  lemma ChunkSize(virt: nat, phys: nat, len: nat)
    requires len >= 0x1000
    ensures 0 < Chunk(virt, phys, len) && 0x1000 * Chunk(virt, phys, len) <= len
  {
  }

  lemma NeedSplit(m: Mem, root: nat, virt: nat, phys: nat, len: nat, n: nat)
    requires len >= 0x1000 && n == Chunk(virt, phys, len)
    ensures 0x1000 * n <= len
    ensures Need(m, root, virt, phys, len) ==
      LeafNeed(m, root, PageOf(virt), Bottom(virt, phys, len))
        + Need(m, root, virt + 0x1000 * n, phys + 0x1000 * n, len - 0x1000 * n)
  {
    hide LeafNeed, PageOf;
  }

  lemma LeafNeedAfter(m: Mem, m': Mem, root: nat, extra: set<Spot>, v: nat, bottom: nat)
    requires TablesAre(m, m', root, extra) && v < 0x10_0000_0000
    ensures LeafNeed(m', root, v, bottom) == LeafNeed(m, root, v, bottom) - extra
  {
    hide HasTable, Prefix;
    assert forall l | 1 <= l <= 3 :: NeedAt(m', root, v, l) == NeedAt(m, root, v, l) - extra;
  }

  /** A call takes exactly the tables that were missing, and runs dry only if there are
      fewer free pages than that. */
  lemma {:induction false} LoopNeeds(s: State, sh: Shape, root: nat, virt: nat, phys: nat, len: nat)
    requires Inv(s, sh) && IsRoot(sh, root) && phys + len <= 0x10_0000_0000_0000
    requires virt % 0x1000 == 0 && phys % 0x1000 == 0 && len % 0x1000 == 0
    ensures var (s', o) := MapLoop(s, root, virt, phys, len); Counted(s, s', |Need(s.mem, root, virt, phys, len)|, o)
    decreases len
  {
    hide Map2m, Map4k, Inv, Contained, Grows, LeafNeed, Spread, Reports, TablesAre, PageOf, Need, Takes, Counted;
    if len < 0x1000 {
      NothingCounted(s, root, virt, phys, len);
    } else {
      var n1 := Chunk(virt, phys, len);
      ChunkFits(virt, phys, len);
      var (s1, o1) := MapChunk(s, root, virt, phys, len);
      var sh1 := MapChunkOk(s, sh, root, virt, phys, len);
      ChunkKeeps(s, sh, s1, sh1, root, virt / 0x1000, n1);
      ChunkNeeds(s, sh, root, virt, phys, len);
      NeedSplit(s.mem, root, virt, phys, len, n1);
      var c := LeafNeed(s.mem, root, PageOf(virt), Bottom(virt, phys, len));
      var (v2, p2, l2) := (virt + 0x1000 * n1, phys + 0x1000 * n1, len - 0x1000 * n1);
      var rest := Need(s.mem, root, v2, p2, l2);
      if o1.Done? {
        LoopNeeds(s1, sh1, root, v2, p2, l2);
        CountStep(s, s1, root, c, rest, v2, p2, l2);
      } else {
        CountFails(s, s1, root, c, rest, o1);
      }
    }
  }

  lemma NothingCounted(s: State, root: nat, virt: nat, phys: nat, len: nat)
    requires len < 0x1000
    ensures Counted(s, s, |Need(s.mem, root, virt, phys, len)|, Done)
  {
  }

  lemma CountFails(s: State, s1: State, root: nat, c: set<Spot>, rest: set<Spot>, o: Outcome)
    requires Takes(s, s1, root, c, o) && o.Failed?
    ensures Counted(s, s1, |c + rest|, o)
  {
    hide TablesAre;
    Sizes(c, rest);
  }

  lemma CountStep(s: State, s1: State, root: nat, c: set<Spot>, rest: set<Spot>, virt: nat, phys: nat, len: nat)
    requires Takes(s, s1, root, c, Done) && rest == Need(s.mem, root, virt, phys, len)
    requires phys + len <= 0x10_0000_0000_0000
    requires var (s', o) := MapLoop(s1, root, virt, phys, len);
      Counted(s1, s', |Need(s1.mem, root, virt, phys, len)|, o)
    ensures var (s', o) := MapLoop(s1, root, virt, phys, len); Counted(s, s', |c + rest|, o)
  {
    hide TablesAre, Need, MapLoop;
    NeedAfter(s.mem, s1.mem, root, c, virt, phys, len);
    Sizes(c, rest);
  }

  /** What a call that needs `n` tables does to the allocator. */
  ghost predicate Counted(s: State, s': State, n: nat, o: Outcome) {
    && s'.end == s.end
    && (o.Done? ==> s'.cursor == s.cursor + 0x1000 * n)
    && (o == Failed(OutOfTablePages) ==> s.cursor + 0x1000 * n > s.end)
  }

  lemma Sizes(a: set<Spot>, b: set<Spot>)
    ensures |a + b| == |a| + |b - a|
  {
    assert a + b == a + (b - a);
  }

  /** At most three tables for every page. */
  lemma {:induction false} NeedBound(m: Mem, root: nat, virt: nat, phys: nat, len: nat)
    requires len % 0x1000 == 0
    ensures |Need(m, root, virt, phys, len)| <= 3 * (len / 0x1000)
    decreases len
  {
    hide LeafNeed, PageOf, Chunk, Need;
    if len < 0x1000 {
      NeedNothing(m, root, virt, phys, len);
    } else {
      var n := Chunk(virt, phys, len);
      ChunkSize(virt, phys, len);
      NeedSplit(m, root, virt, phys, len, n);
      var c := LeafNeed(m, root, PageOf(virt), Bottom(virt, phys, len));
      var rest := Need(m, root, virt + 0x1000 * n, phys + 0x1000 * n, len - 0x1000 * n);
      NeedBound(m, root, virt + 0x1000 * n, phys + 0x1000 * n, len - 0x1000 * n);
      LeafBound(m, root, PageOf(virt), Bottom(virt, phys, len));
      Sizes(c, rest);
      Subset(rest - c, rest);
      assert (len - 0x1000 * n) / 0x1000 == len / 0x1000 - n;
    }
  }

  lemma NeedNothing(m: Mem, root: nat, virt: nat, phys: nat, len: nat)
    requires len < 0x1000
    ensures Need(m, root, virt, phys, len) == {}
  {
  }

  lemma LeafBound(m: Mem, root: nat, v: nat, bottom: nat)
    ensures |LeafNeed(m, root, v, bottom)| <= 3
  {
    hide HasTable, Prefix;
    var a, b, c := NeedAt(m, root, v, 3), NeedAt(m, root, v, 2), if bottom == 1 then NeedAt(m, root, v, 1) else {};
    Sizes(a, b);
    Sizes(a + b, c);
    Subset(b - a, b);
    Subset(c - (a + b), c);
  }

  lemma Subset(a: set<Spot>, b: set<Spot>)
    requires a <= b
    ensures |a| <= |b|
  {
    assert b == a + (b - a);
  }

  /** The tables a call on a range needs and does not find. */
  ghost function TablesNeeded(s: State, root: nat, virt: nat, phys: nat, len: nat): nat {
    |Need(s.mem, root, virt, phys, len / 0x1000 * 0x1000)|
  }

  /** A successful call takes exactly the tables it needed, and no call with enough free
      pages for them runs dry. */
  lemma MapRangeNeeds(s: State, sh: Shape, root: nat, virt: nat, phys: nat, len: nat)
    requires Inv(s, sh) && IsRoot(sh, root) && phys + len <= 0x10_0000_0000_0000
    requires virt % 0x1000 == 0 && phys % 0x1000 == 0
    ensures var (s', o) := MapRange(s, root, virt, phys, len); Counted(s, s', TablesNeeded(s, root, virt, phys, len), o)
  {
    hide MapLoop, Need, Counted;
    LoopNeeds(s, sh, root, virt, phys, len / 0x1000 * 0x1000);
  }
}
