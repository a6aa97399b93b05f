/** What the mapper does to every translation of every address space. */
module MapperProofs {
  import opened MachineWords
  import opened PageTables
  import opened PageMapper

  // ----- invariant and growth -----

  /** The allocator is page aligned and in its region, the tables form trees, and
      every table lies below the allocator's cursor. */
  ghost predicate Tables(s: State, sh: Shape) {
    && s.cursor % 0x1000 == 0 && 0x1000 <= s.cursor <= s.end
    && WellShaped(s.mem, sh)
    && forall t | t in sh :: 1 <= t && 0x1000 * t < s.cursor
  }

  /** Every last-level table other than `except` maps at least one page. */
  ghost predicate Used(m: Mem, sh: Shape, except: nat) {
    forall t | t in sh && sh[t].level == 1 && t != except :: exists j :: 0 <= j < 512 && Present(At(m, t, j))
  }

  /** What holds between calls of the mapper. */
  ghost predicate Inv(s: State, sh: Shape) {
    Tables(s, sh) && Used(s.mem, sh, 0)
  }

  /** `s'` extends `s`: new tables come from newly allocated frames, present
      entries and all memory that is neither a table nor newly allocated stay as
      they were. */
  ghost predicate Extends(s: State, sh: Shape, s': State, sh': Shape) {
    && s'.end == s.end && s.cursor <= s'.cursor
    && (forall t | t in sh :: t in sh' && sh'[t] == sh[t])
    && (forall t | t in sh' && t !in sh :: s.cursor <= 0x1000 * t < s'.cursor)
    && EntriesPersist(s.mem, s'.mem, sh)
    && (forall f | f in s.mem && f !in sh && !(s.cursor <= 0x1000 * f < s'.cursor) ::
         f in s'.mem && s'.mem[f] == s.mem[f])
  }

  /** `s'` extends `s` by page tables only: every frame allocated is one, and
      each was counted. */
  ghost predicate Grows(s: State, sh: Shape, s': State, sh': Shape) {
    && Extends(s, sh, s', sh')
    && (forall f: nat | s.cursor <= 0x1000 * f < s'.cursor :: f in sh')
    && s.tables <= s'.tables && s'.cursor - s.cursor == 0x1000 * (s'.tables - s.tables)
  }

  lemma ExtendsRefl(s: State, sh: Shape)
    ensures Extends(s, sh, s, sh)
  {
  }

  lemma ExtendsTrans(s0: State, sh0: Shape, s1: State, sh1: Shape, s2: State, sh2: Shape)
    requires Extends(s0, sh0, s1, sh1) && Extends(s1, sh1, s2, sh2)
    ensures Extends(s0, sh0, s2, sh2)
  {
    forall t, i | t in sh0 && 0 <= i < 512 && Present(At(s0.mem, t, i))
      ensures At(s2.mem, t, i) == At(s0.mem, t, i)
    {
      assert At(s1.mem, t, i) == At(s0.mem, t, i);
    }
    forall f | f in s0.mem && f !in sh0 && !(s0.cursor <= 0x1000 * f < s2.cursor)
      ensures f in s2.mem && s2.mem[f] == s0.mem[f]
    {
      assert f in s1.mem && s1.mem[f] == s0.mem[f];
    }
  }

  lemma GrowsTrans(s0: State, sh0: Shape, s1: State, sh1: Shape, s2: State, sh2: Shape)
    requires Grows(s0, sh0, s1, sh1) && Grows(s1, sh1, s2, sh2)
    ensures Grows(s0, sh0, s2, sh2)
  {
    ExtendsTrans(s0, sh0, s1, sh1, s2, sh2);
    assert forall t | t in sh1 :: t in sh2;
    hide Extends;
  }

  /** No existing translation, from any table, is altered or removed. */
  lemma TranslationsPersist(s: State, sh: Shape, s': State, sh': Shape, root: nat, vpn: nat)
    requires Inv(s, sh) && Extends(s, sh, s', sh') && IsRoot(sh, root)
    ensures Translate(s.mem, root, vpn).Some? ==>
      && Translate(s'.mem, root, vpn) == Translate(s.mem, root, vpn)
      && WalkAccess(s'.mem, root, 4, vpn) == WalkAccess(s.mem, root, 4, vpn)
  {
    if Translate(s.mem, root, vpn).Some? {
      WalkPersists(s.mem, s'.mem, sh, root, vpn);
    }
  }

  // ----- descending from a root -----

  /** The walk of `vpn` from table `x` of `level` passes through table `t` of `l`. */
  ghost predicate Leads(m: Mem, x: nat, level: nat, vpn: nat, t: nat, l: nat)
    requires 1 <= l <= level <= 4
    decreases level
  {
    if level == l then x == t
    else
      var e := At(m, x, Index(vpn, level));
      Present(e) && !Huge(e) && Leads(m, PhysFrame(e), level - 1, vpn, t, l)
  }

  lemma {:induction false} LeadsWalk(m: Mem, x: nat, level: nat, vpn: nat, t: nat, l: nat)
    requires 1 <= l <= level <= 4 && Leads(m, x, level, vpn, t, l)
    ensures Walk(m, x, level, vpn) == Walk(m, t, l, vpn)
    decreases level
  {
    if level != l {
      LeadsWalk(m, PhysFrame(At(m, x, Index(vpn, level))), level - 1, vpn, t, l);
    }
  }

  lemma {:induction false} LeadsEnd(m: Mem, x: nat, level: nat, vpn: nat, t: nat, l: nat)
    requires 1 <= l <= level <= 4 && Leads(m, x, level, vpn, t, l)
    ensures WalkEnd(m, x, level, vpn) == WalkEnd(m, t, l, vpn)
    decreases level
  {
    if level != l {
      LeadsEnd(m, PhysFrame(At(m, x, Index(vpn, level))), level - 1, vpn, t, l);
    }
  }

  lemma {:induction false} LeadsPersists(m: Mem, m': Mem, sh: Shape, x: nat, vpn: nat, t: nat, l: nat)
    requires WellShaped(m, sh) && EntriesPersist(m, m', sh)
    requires x in sh && 1 <= l <= sh[x].level && Leads(m, x, sh[x].level, vpn, t, l)
    ensures Leads(m', x, sh[x].level, vpn, t, l)
    decreases sh[x].level
  {
    if sh[x].level != l {
      assert SlotOk(m, sh, x, Index(vpn, sh[x].level));
      LeadsPersists(m, m', sh, PhysFrame(At(m, x, Index(vpn, sh[x].level))), vpn, t, l);
    }
  }

  /** One more level down. */
  lemma {:induction false} LeadsDown(m: Mem, x: nat, level: nat, vpn: nat, t: nat, l: nat)
    requires 2 <= l <= level <= 4 && Leads(m, x, level, vpn, t, l)
    requires var e := At(m, t, Index(vpn, l)); Present(e) && !Huge(e)
    ensures Leads(m, x, level, vpn, PhysFrame(At(m, t, Index(vpn, l))), l - 1)
    decreases level
  {
    if level != l {
      LeadsDown(m, PhysFrame(At(m, x, Index(vpn, level))), level - 1, vpn, t, l);
    }
  }

  /** Page numbers with the same prefix are led to the same table. */
  lemma {:induction false} LeadsByPrefix(m: Mem, x: nat, level: nat, vpn: nat, vpn': nat, t: nat, l: nat)
    requires 1 <= l <= level <= 4 && Leads(m, x, level, vpn, t, l)
    requires Prefix(vpn, l) == Prefix(vpn', l)
    ensures Leads(m, x, level, vpn', t, l)
    decreases level
  {
    if level != l {
      SameIndexAbove(vpn, vpn', l, level);
      LeadsByPrefix(m, PhysFrame(At(m, x, Index(vpn, level))), level - 1, vpn, vpn', t, l);
    }
  }

  lemma {:induction false} SameIndexAbove(vpn: nat, vpn': nat, l: nat, level: nat)
    requires 1 <= l < level <= 4 && Prefix(vpn, l) == Prefix(vpn', l)
    ensures Index(vpn, level) == Index(vpn', level)
    ensures Prefix(vpn, level) == Prefix(vpn', level)
    decreases level
  {
    if l < level - 1 {
      SameIndexAbove(vpn, vpn', l, level - 1);
    }
    PrefixStep(vpn, level);
    PrefixStep(vpn', level);
    Arith512(Prefix(vpn, level), Index(vpn, level), Prefix(vpn', level), Index(vpn', level));
  }

  lemma Arith512(q: nat, i: nat, q': nat, i': nat)
    requires i < 512 && i' < 512 && q * 512 + i == q' * 512 + i'
    ensures q == q' && i == i'
  {
  }

  /** The table a walk leads to serves the page number and has the expected home. */
  lemma {:induction false} LeadsServes(m: Mem, sh: Shape, x: nat, vpn: nat, t: nat, l: nat)
    requires WellShaped(m, sh) && Serves(sh, x, vpn) && 1 <= l <= sh[x].level
    requires Leads(m, x, sh[x].level, vpn, t, l) && vpn < 0x10_0000_0000
    ensures Serves(sh, t, vpn) && sh[t].level == l
    ensures l < sh[x].level ==> sh[t].home == (if sh[x].level == 4 then HomeOf(m, x, vpn) else sh[x].home)
    decreases sh[x].level
  {
    var level := sh[x].level;
    if level != l {
      var i := Index(vpn, level);
      assert SlotOk(m, sh, x, i);
      PrefixStep(vpn, level);
      LeadsServes(m, sh, PhysFrame(At(m, x, i)), vpn, t, l);
    }
  }

  /** A root serves every 36-bit page number. */
  lemma RootServes(m: Mem, sh: Shape, root: nat, vpn: nat)
    requires WellShaped(m, sh) && IsRoot(sh, root) && vpn < 0x10_0000_0000
    ensures Serves(sh, root, vpn)
  {
  }

  // ----- EnsureTable -----

  ghost predicate SameWalks(m: Mem, m': Mem, sh: Shape) {
    forall x, vpn | x in sh && 1 <= sh[x].level <= 4 :: Walk(m', x, sh[x].level, vpn) == Walk(m, x, sh[x].level, vpn)
  }

  /** Only slot `i` of `root` may differ. */
  ghost predicate RootSlotsSame(m: Mem, m': Mem, root: nat, i: nat) {
    forall j | 0 <= j < 512 && j != i :: At(m', root, j) == At(m, root, j)
  }

  /** The root tables other than `root` hold the same words. */
  ghost predicate OtherRoots(m: Mem, m': Mem, sh: Shape, root: nat) {
    forall r | IsRoot(sh, r) && r != root && r in m :: r in m' && m'[r] == m[r]
  }

  /** Roots `a` and `b` hold the same table in slot `i`. */
  ghost predicate SharedSlot(m: Mem, a: nat, b: nat, i: nat)
    requires i < 512
  {
    a == b || (Present(At(m, a, i)) && Present(At(m, b, i)) && PhysFrame(At(m, a, i)) == PhysFrame(At(m, b, i)))
  }

  /** `root` shares the slots it shared before with every other root, and no more. */
  ghost predicate SharingSame(m: Mem, m': Mem, sh: Shape, root: nat) {
    forall r, i | IsRoot(sh, r) && 0 <= i < 512 :: SharedSlot(m', root, r, i) == SharedSlot(m, root, r, i)
  }

  /** No table of `sh'` is a root but those of `sh`. */
  ghost predicate SameRoots(sh: Shape, sh': Shape) {
    forall r | IsRoot(sh', r) :: IsRoot(sh, r)
  }

  /** Tables of level `l` and above were made on the path of `vpn`: walks below `root`
      end where they did, or where they found nothing before and find nothing now. */
  ghost predicate Deepened(m: Mem, m': Mem, root: nat, vpn: nat, l: nat) {
    forall v | 0 <= v < 0x10_0000_0000 :: DeepenedAt(m, m', root, vpn, l, v)
  }

  ghost predicate DeepenedAt(m: Mem, m': Mem, root: nat, vpn: nat, l: nat, v: nat) {
    var (a, b) := (WalkEnd(m, root, 4, v), WalkEnd(m', root, 4, v));
    a == b || (!Present(a.entry) && !Present(b.entry) && l <= b.level < a.level
      && Prefix(v, b.level) == Prefix(vpn, b.level))
  }

  ghost predicate Exhausted(s: State) {
    s.cursor + 0x1000 > s.end
  }

  /** `s'` is `s` with a newly allocated, zeroed table `f` linked from slot `i` of `t`. */
  ghost predicate Linked(s: State, sh: Shape, s': State, t: nat, i: nat, f: nat)
    requires i < 512
  {
    && f < 0x100_0000_0000 && s.cursor == 0x1000 * f && s'.cursor == s.cursor + 0x1000 <= s.end
    && s'.end == s.end && s'.tables == s.tables + 1
    && t in sh && sh[t].level > 1 && !Present(At(s.mem, t, i))
    && s'.mem == Put(s.mem[f := ZeroFrame()], t, i, TableEntry(f))
  }

  lemma LinkedSlots(s: State, sh: Shape, s': State, t: nat, i: nat, f: nat)
    requires Tables(s, sh) && i < 512 && Linked(s, sh, s', t, i, f)
    ensures f !in sh && At(s'.mem, t, i) == TableEntry(f)
    ensures forall x, j | x in sh && 0 <= j < 512 && (x != t || j != i) :: At(s'.mem, x, j) == At(s.mem, x, j)
    ensures forall x | x in sh && x != t :: x in s.mem && x in s'.mem && s'.mem[x] == s.mem[x]
    ensures f in s'.mem && s'.mem[f] == ZeroFrame()
  {
  }

  lemma LinkedSlotOk(s: State, sh: Shape, s': State, t: nat, i: nat, f: nat, x: nat, j: nat)
    requires Tables(s, sh) && i < 512 && Linked(s, sh, s', t, i, f) && j < 512 && (x in sh || x == f)
    ensures var sh' := sh[f := Child(sh, t, i, f)]; sh'[x].level >= 1 && SlotOk(s'.mem, sh', x, j)
  {
    assert !Present(0);
    hide Present, Huge, PhysFrame, TableEntry, Put;
    LinkedSlots(s, sh, s', t, i, f);
    if x in sh {
      assert SlotOk(s.mem, sh, x, j);
    } else {
      assert At(s'.mem, x, j) == 0;
    }
  }

  lemma LinkedInv(s: State, sh: Shape, s': State, t: nat, i: nat, f: nat)
    requires Tables(s, sh) && i < 512 && Linked(s, sh, s', t, i, f)
    ensures Tables(s', sh[f := Child(sh, t, i, f)])
  {
    hide Present, TableEntry, Put, SlotOk;
    LinkedSlots(s, sh, s', t, i, f);
    var sh' := sh[f := Child(sh, t, i, f)];
    forall x: nat, j: nat | x in sh' && j < 512
      ensures sh'[x].level >= 1 && SlotOk(s'.mem, sh', x, j)
    {
      LinkedSlotOk(s, sh, s', t, i, f, x, j);
    }
  }

  lemma LinkedGrows(s: State, sh: Shape, s': State, t: nat, i: nat, f: nat)
    requires Tables(s, sh) && i < 512 && Linked(s, sh, s', t, i, f)
    ensures Grows(s, sh, s', sh[f := Child(sh, t, i, f)])
  {
    LinkedSlots(s, sh, s', t, i, f);
  }

  lemma LinkedWalks(s: State, sh: Shape, s': State, t: nat, i: nat, f: nat)
    requires Tables(s, sh) && i < 512 && Linked(s, sh, s', t, i, f)
    ensures SameWalks(s.mem, s'.mem, sh)
  {
    LinkedSlots(s, sh, s', t, i, f);
    forall x, vpn | x in sh && 1 <= sh[x].level <= 4
      ensures Walk(s'.mem, x, sh[x].level, vpn) == Walk(s.mem, x, sh[x].level, vpn)
    {
      LinkKeepsWalks(s.mem, s'.mem, sh, t, i, f, TableEntry(f), x, vpn);
    }
  }

  lemma LinkedEnds(s: State, sh: Shape, s': State, root: nat, vpn: nat, t: nat, l: nat, f: nat)
    requires Tables(s, sh) && IsRoot(sh, root) && vpn < 0x10_0000_0000 && 2 <= l <= 4
    requires Serves(sh, t, vpn) && sh[t].level == l && Linked(s, sh, s', t, Index(vpn, l), f)
    ensures Deepened(s.mem, s'.mem, root, vpn, l - 1)
  {
    var i := Index(vpn, l);
    LinkedSlots(s, sh, s', t, i, f);
    PrefixStep(vpn, l);
    hide WellShaped, WalkEnd, Present, Huge, PhysFrame, TableEntry, Prefix;
    var k := l - 1;
    forall v | 0 <= v < 0x10_0000_0000
      ensures DeepenedAt(s.mem, s'.mem, root, vpn, k, v)
    {
      RootServes(s.mem, sh, root, v);
      LinkKeepsEnds(s.mem, s'.mem, sh, t, i, f, TableEntry(f), root, v);
    }
  }

  lemma LinkedUsed(s: State, sh: Shape, s': State, t: nat, i: nat, f: nat)
    requires Tables(s, sh) && i < 512 && Linked(s, sh, s', t, i, f) && Used(s.mem, sh, 0)
    ensures Used(s'.mem, sh[f := Child(sh, t, i, f)], if sh[t].level == 2 then f else 0)
  {
    LinkedSlots(s, sh, s', t, i, f);
    var sh' := sh[f := Child(sh, t, i, f)];
    forall x | x in sh' && sh'[x].level == 1 && x != (if sh[t].level == 2 then f else 0)
      ensures exists j :: 0 <= j < 512 && Present(At(s'.mem, x, j))
    {
      var j :| 0 <= j < 512 && Present(At(s.mem, x, j));
      assert Present(At(s'.mem, x, j));
    }
  }

  /** A new table is shared with nobody. */
  lemma LinkedSharing(s: State, sh: Shape, s': State, root: nat, t: nat, i: nat, f: nat)
    requires Tables(s, sh) && i < 512 && Linked(s, sh, s', t, i, f) && IsRoot(sh, root)
    requires sh[t].level == 4 ==> t == root
    ensures SharingSame(s.mem, s'.mem, sh, root)
  {
    LinkedSlots(s, sh, s', t, i, f);
    hide Present, Huge, TableEntry, Put, Linked;
    forall r, j | IsRoot(sh, r) && 0 <= j < 512
      ensures SharedSlot(s'.mem, root, r, j) == SharedSlot(s.mem, root, r, j)
    {
      assert SlotOk(s.mem, sh, r, j);
    }
  }

  /** The effect of one or more `EnsureTable` calls that follow the path of `vpn`
      down to the slot of a level `l` table. */
  ghost predicate Ensured(s: State, sh: Shape, s': State, sh': Shape, root: nat, vpn: nat, l: nat, r: Result<nat>)
    requires 2 <= l <= 4
  {
    && Tables(s', sh') && Used(s'.mem, sh', if l == 2 && r.Ok? then r.value else 0)
    && IsRoot(sh', root) && Grows(s, sh, s', sh') && SameWalks(s.mem, s'.mem, sh)
    && RootSlotsSame(s.mem, s'.mem, root, Index(vpn, 4)) && OtherRoots(s.mem, s'.mem, sh, root)
    && SharingSame(s.mem, s'.mem, sh, root) && SameRoots(sh, sh') && Deepened(s.mem, s'.mem, root, vpn, l - 1)
    && var end := WalkEnd(s.mem, root, 4, vpn);
    match r {
      case Ok(f) => Leads(s'.mem, root, 4, vpn, f, l - 1)
      case Err(OutOfTablePages) => Exhausted(s') && end.level >= l && !Present(end.entry)
      case Err(e) =>
        e == HugeCollision && l == 2 && Translate(s.mem, root, vpn).Some? && end.level == l && Present(end.entry)
    }
  }

  /** An entry that leads to table `f` and allows what the kernel needs. */
  predicate LinksTo(e: Word, f: nat) {
    Present(e) && !Huge(e) && KernelEntry(e) && PhysFrame(e) == f
  }

  lemma EnsuredEntry(s: State, sh: Shape, t: nat, i: nat)
    requires Tables(s, sh) && t in sh && sh[t].level > 1 && i < 512
    ensures var (s', r) := EnsureTable(s, t, i); r.Ok? ==> LinksTo(At(s'.mem, t, i), r.value)
  {
    hide Present, Huge, KernelEntry, PhysFrame, TableEntry, Put;
    assert SlotOk(s.mem, sh, t, i);
    var (s', r) := EnsureTable(s, t, i);
    if r.Ok? && !Present(At(s.mem, t, i)) {
      EnsureLinks(s, sh, t, i);
      LinkedSlots(s, sh, s', t, i, r.value);
    }
  }

  lemma EnsureTableOk(s: State, sh: Shape, root: nat, vpn: nat, t: nat, l: nat) returns (sh': Shape)
    requires Inv(s, sh) && IsRoot(sh, root) && vpn < 0x10_0000_0000
    requires 2 <= l <= 4 && Leads(s.mem, root, 4, vpn, t, l)
    ensures var (s', r) := EnsureTable(s, t, Index(vpn, l));
      Ensured(s, sh, s', sh', root, vpn, l, r) && (r.Ok? ==> LinksTo(At(s'.mem, t, Index(vpn, l)), r.value))
  {
    RootServes(s.mem, sh, root, vpn);
    LeadsServes(s.mem, sh, root, vpn, t, l);
    var i := Index(vpn, l);
    EnsuredEntry(s, sh, t, i);
    assert SlotOk(s.mem, sh, t, i);
    var (s', r) := EnsureTable(s, t, i);
    if Present(At(s.mem, t, i)) {
      sh' := sh;
      LeadsWalk(s.mem, root, 4, vpn, t, l);
      LeadsEnd(s.mem, root, 4, vpn, t, l);
      if r.Ok? {
        LeadsDown(s.mem, root, 4, vpn, t, l);
      }
    } else if r.Ok? {
      EnsureLinks(s, sh, t, i);
      sh' := NewTable(s, sh, s', root, vpn, t, l, r.value);
    } else {
      sh' := sh;
      LeadsEnd(s.mem, root, 4, vpn, t, l);
    }
  }

  lemma EnsureLinks(s: State, sh: Shape, t: nat, i: nat)
    requires Tables(s, sh) && t in sh && sh[t].level > 1 && i < 512
    requires !Present(At(s.mem, t, i)) && EnsureTable(s, t, i).1.Ok?
    ensures var (s', r) := EnsureTable(s, t, i); Linked(s, sh, s', t, i, r.value)
  {
  }

  lemma NewTable(s: State, sh: Shape, s': State, root: nat, vpn: nat, t: nat, l: nat, f: nat) returns (sh': Shape)
    requires Inv(s, sh) && IsRoot(sh, root) && vpn < 0x10_0000_0000
    requires 2 <= l <= 4 && Leads(s.mem, root, 4, vpn, t, l)
    requires t in sh && sh[t].level == l
    requires Linked(s, sh, s', t, Index(vpn, l), f)
    ensures Ensured(s, sh, s', sh', root, vpn, l, Ok(f))
  {
    var i := Index(vpn, l);
    sh' := sh[f := Child(sh, t, i, f)];
    LinkedSlots(s, sh, s', t, i, f);
    LinkedInv(s, sh, s', t, i, f);
    LinkedGrows(s, sh, s', t, i, f);
    LinkedWalks(s, sh, s', t, i, f);
    LinkedUsed(s, sh, s', t, i, f);
    LinkedSharing(s, sh, s', root, t, i, f);
    LeadsServes(s.mem, sh, root, vpn, t, l);
    LinkedEnds(s, sh, s', root, vpn, t, l, f);
    LeadsPersists(s.mem, s'.mem, sh, root, vpn, t, l);
    LeadsDown(s'.mem, root, 4, vpn, t, l);
  }

  lemma EnsuredTrans(s0: State, sh0: Shape, s1: State, sh1: Shape, s2: State, sh2: Shape, root: nat, vpn: nat, l: nat,
                     r1: Result<nat>, r2: Result<nat>)
    requires 2 <= l <= 3 && r1.Ok? && IsRoot(sh0, root) && vpn < 0x10_0000_0000
    requires Ensured(s0, sh0, s1, sh1, root, vpn, l + 1, r1)
    requires Ensured(s1, sh1, s2, sh2, root, vpn, l, r2)
    ensures Ensured(s0, sh0, s2, sh2, root, vpn, l, r2)
  {
    hide Tables, Used, Grows, SharedSlot, Leads, WalkEnd, Walk, At, Prefix, Present, Deepened;
    assert forall t | t in sh0 :: t in sh1 && sh1[t] == sh0[t] by { GrowsShape(s0, sh0, s1, sh1); }
    GrowsTrans(s0, sh0, s1, sh1, s2, sh2);
    DeepenedTrans(s0.mem, s1.mem, s2.mem, root, vpn, l);
    assert DeepenedAt(s0.mem, s1.mem, root, vpn, l, vpn) by { DeepenedHere(s0.mem, s1.mem, root, vpn, l); }
    assert Translate(s1.mem, root, vpn) == Translate(s0.mem, root, vpn);
  }

  lemma GrowsShape(s: State, sh: Shape, s': State, sh': Shape)
    requires Grows(s, sh, s', sh')
    ensures forall t | t in sh :: t in sh' && sh'[t] == sh[t]
  {
  }

  lemma DeepenedHere(m: Mem, m': Mem, root: nat, vpn: nat, l: nat)
    requires vpn < 0x10_0000_0000 && Deepened(m, m', root, vpn, l)
    ensures DeepenedAt(m, m', root, vpn, l, vpn)
  {
  }

  lemma DeepenedTrans(m0: Mem, m1: Mem, m2: Mem, root: nat, vpn: nat, l: nat)
    requires l > 0 && Deepened(m0, m1, root, vpn, l) && Deepened(m1, m2, root, vpn, l - 1)
    ensures Deepened(m0, m2, root, vpn, l - 1)
  {
    hide WalkEnd, Prefix, Present;
    var k := l - 1;
    forall v | 0 <= v < 0x10_0000_0000
      ensures DeepenedAt(m0, m2, root, vpn, k, v)
    {
      assert DeepenedAt(m0, m1, root, vpn, l, v) && DeepenedAt(m1, m2, root, vpn, k, v);
    }
  }

  lemma EnsurePdOk(s: State, sh: Shape, root: nat, virt: nat) returns (sh': Shape)
    requires Inv(s, sh) && IsRoot(sh, root)
    ensures var (s', r) := EnsurePd(s, root, virt); Ensured(s, sh, s', sh', root, PageOf(virt), 3, r)
  {
    var vpn := PageOf(virt);
    var (s1, pdpt) := EnsureTable(s, root, Pml4Index(virt));
    var sh1 := EnsureTableOk(s, sh, root, vpn, root, 4);
    if pdpt.Err? {
      sh' := sh1;
    } else {
      var (s2, pd) := EnsureTable(s1, pdpt.value, PdptIndex(virt));
      sh' := EnsureTableOk(s1, sh1, root, vpn, pdpt.value, 3);
      EnsuredTrans(s, sh, s1, sh1, s2, sh', root, vpn, 3, pdpt, pd);
    }
  }
}
