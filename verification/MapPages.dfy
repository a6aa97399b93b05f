/** Mapping one page or one huge page. */
module MapPages {
  import opened MachineWords
  import opened PageTables
  import opened PageMapper
  import opened MapperProofs
  import Arithmetic

  // ----- writing one leaf -----

  /** `s'` is `s` with leaf `e` written where the walk of `vpn` ends, in an empty
      slot of a table of level `l`. */
  ghost predicate LeafSet(s: State, sh: Shape, s': State, root: nat, vpn: nat, t: nat, l: nat, e: Word) {
    && IsRoot(sh, root) && vpn < 0x10_0000_0000
    && 1 <= l <= 2 && Leads(s.mem, root, 4, vpn, t, l)
    && !Present(At(s.mem, t, Index(vpn, l)))
    && Present(e) && KernelEntry(e) && (l == 2 ==> Huge(e) && PhysFrame(e) % 512 == 0)
    && s' == s.(mem := Put(s.mem, t, Index(vpn, l), e))
  }

  lemma LeafInv(s: State, sh: Shape, s': State, root: nat, vpn: nat, t: nat, l: nat, e: Word)
    requires Tables(s, sh) && LeafSet(s, sh, s', root, vpn, t, l, e)
    ensures t in sh && sh[t].level == l
    ensures Tables(s', sh) && Grows(s, sh, s', sh)
    ensures forall j | 0 <= j < 512 :: At(s'.mem, root, j) == At(s.mem, root, j)
    ensures Used(s.mem, sh, if l == 1 then t else 0) ==> Used(s'.mem, sh, 0)
  {
    LeadsServes(s.mem, sh, root, vpn, t, l);
    var i := Index(vpn, l);
    forall x, j | x in sh && 0 <= j < 512
      ensures SlotOk(s'.mem, sh, x, j)
    {
      assert SlotOk(s.mem, sh, x, j);
    }
    if Used(s.mem, sh, if l == 1 then t else 0) {
      forall x | x in sh && sh[x].level == 1
        ensures exists j :: 0 <= j < 512 && Present(At(s'.mem, x, j))
      {
        if x == t {
          assert Present(At(s'.mem, x, i));
        } else {
          var j :| 0 <= j < 512 && Present(At(s.mem, x, j));
          assert Present(At(s'.mem, x, j));
        }
      }
    }
  }

  /** A walk that ends in a leaf yields the leaf's frame. */
  lemma LeafReads(m: Mem, root: nat, vpn: nat, t: nat, l: nat, v: nat)
    requires 1 <= l <= 2 && Leads(m, root, 4, vpn, t, l) && Prefix(v, l - 1) == Prefix(vpn, l - 1)
    requires var e := At(m, t, Index(vpn, l)); Present(e) && (l == 2 ==> Huge(e) && PhysFrame(e) % 512 == 0)
    ensures Translate(m, root, v) == Some(PhysFrame(At(m, t, Index(vpn, l))) + if l == 1 then 0 else v % 512)
  {
    PrefixStep(v, l);
    PrefixStep(vpn, l);
    Arith512(Prefix(v, l), Index(v, l), Prefix(vpn, l), Index(vpn, l));
    LeadsByPrefix(m, root, 4, vpn, v, t, l);
    LeadsWalk(m, root, 4, v, t, l);
  }

  /** Pages under the leaf translate through it. */
  lemma LeafTarget(s: State, sh: Shape, s': State, root: nat, vpn: nat, t: nat, l: nat, e: Word, v: nat)
    requires Tables(s, sh) && LeafSet(s, sh, s', root, vpn, t, l, e)
    requires Prefix(v, l - 1) == Prefix(vpn, l - 1)
    ensures Translate(s'.mem, root, v) == Some(if l == 1 then PhysFrame(e) else PhysFrame(e) + v % 512)
  {
    LeafLeads(s, sh, s', root, vpn, t, l, e);
    hide Leads, Walk, Tables, Put, Index, Prefix, Present, Huge, PhysFrame;
    LeafReads(s'.mem, root, vpn, t, l, v);
  }

  lemma LeafLeads(s: State, sh: Shape, s': State, root: nat, vpn: nat, t: nat, l: nat, e: Word)
    requires Tables(s, sh) && LeafSet(s, sh, s', root, vpn, t, l, e)
    ensures Leads(s'.mem, root, 4, vpn, t, l) && At(s'.mem, t, Index(vpn, l)) == e
  {
    hide Walk, Index, Prefix, Present, Huge, PhysFrame;
    LeafInv(s, sh, s', root, vpn, t, l, e);
    LeadsPersists(s.mem, s'.mem, sh, root, vpn, t, l);
  }

  /** Pages outside the leaf translate as before, from every root. */
  lemma LeafOthers(s: State, sh: Shape, s': State, root: nat, vpn: nat, t: nat, l: nat, e: Word, r: nat, v: nat)
    requires Tables(s, sh) && LeafSet(s, sh, s', root, vpn, t, l, e) && IsRoot(sh, r)
    requires Prefix(v, l - 1) != Prefix(vpn, l - 1) && v < 0x10_0000_0000
    ensures Translate(s'.mem, r, v) == Translate(s.mem, r, v)
  {
    LeadsServes(s.mem, sh, root, vpn, t, l);
    PrefixStep(vpn, l);
    LeafKeepsOthers(s.mem, s'.mem, sh, t, Index(vpn, l), e, r, v);
  }

  /** Pages under the leaf translate as before from a root that does not share the
      level-3 table above it. */
  lemma LeafUnshared(s: State, sh: Shape, s': State, root: nat, vpn: nat, t: nat, l: nat, e: Word, r: nat, v: nat)
    requires Tables(s, sh) && LeafSet(s, sh, s', root, vpn, t, l, e) && IsRoot(sh, r)
    requires Prefix(v, l - 1) == Prefix(vpn, l - 1) && v < 0x10_0000_0000
    requires !SharedSlot(s.mem, root, r, Index(v, 4))
    ensures Translate(s'.mem, r, v) == Translate(s.mem, r, v)
  {
    LeadsServes(s.mem, sh, root, vpn, t, l);
    SameSlot(v, vpn, l);
    LeafKeepsOtherHomes(s.mem, s'.mem, sh, t, Index(vpn, l), e, r, v);
  }

  lemma SameSlot(v: nat, vpn: nat, l: nat)
    requires 1 <= l <= 2 && Prefix(v, l - 1) == Prefix(vpn, l - 1)
    ensures Index(v, 4) == Index(vpn, 4)
  {
    if l == 2 {
      SameIndexAbove(v, vpn, 1, 4);
    }
  }

  /** Roots that share a slot translate the pages below it alike. */
  lemma SharedAlike(m: Mem, sh: Shape, a: nat, b: nat, v: nat)
    requires WellShaped(m, sh) && IsRoot(sh, a) && IsRoot(sh, b) && SharedSlot(m, a, b, Index(v, 4))
    ensures Translate(m, a, v) == Translate(m, b, v)
  {
    assert SlotOk(m, sh, a, Index(v, 4)) && SlotOk(m, sh, b, Index(v, 4));
  }

  // ----- effect on every root -----

  /** Between `m` and `m'` the `n` pages from `p` on were mapped, or tried, in `root`:
      roots that share the page's slot see what `root` sees, and everything else
      translates as before. */
  ghost predicate Spread(m: Mem, m': Mem, sh: Shape, root: nat, p: nat, n: nat) {
    && SharingSame(m, m', sh, root)
    && forall r, v | IsRoot(sh, r) && 0 <= v < 0x10_0000_0000 ::
         Translate(m', r, v) == if InRange(v, p, n) && SharedSlot(m, root, r, Index(v, 4)) then Translate(m', root, v)
           else Translate(m, r, v)
  }

  // ----- a mapped range -----

  /** The distance from page `p` up to page `v`, modulo 2^36. */
  function Offset(v: int, p: int): (k: nat)
    ensures k < 0x10_0000_0000
  {
    (v - p) % 0x10_0000_0000
  }

  lemma OffsetIs(v: nat, p: nat)
    requires v < 0x10_0000_0000
    ensures Offset(v, p) == v - p % 0x10_0000_0000 + if v < p % 0x10_0000_0000 then 0x10_0000_0000 else 0
  {
    var q, h := p % 0x10_0000_0000, p / 0x10_0000_0000;
    if v < q {
      Arithmetic.Quotient(v - p, 0x10_0000_0000, -h - 1, v - q + 0x10_0000_0000);
    } else {
      Arithmetic.Quotient(v - p, 0x10_0000_0000, -h, v - q);
    }
  }

  lemma FirstInRange(p: nat, n: nat)
    requires n > 0
    ensures InRange(p % 0x10_0000_0000, p, n)
  {
    OffsetIs(p % 0x10_0000_0000, p);
  }

  /** Page number `v` is one of the `n` from `p` on, modulo 2^36. */
  ghost predicate InRange(v: int, p: int, n: int) {
    Offset(v, p) < n
  }

  ghost predicate LowSlotsSame(m: Mem, m': Mem, root: nat) {
    forall j | 0 <= j < 256 :: At(m', root, j) == At(m, root, j)
  }

  ghost predicate UpperHalf(p: nat, n: nat) {
    n == 0 || (0x8_0000_0000 <= p % 0x10_0000_0000 && p % 0x10_0000_0000 + n <= 0x10_0000_0000)
  }

  /** What mapping the `n` pages from page `p` on to the frames from `f` on does,
      apart from what it returns. */
  ghost predicate Contained(s: State, sh: Shape, s': State, sh': Shape, root: nat, p: nat, n: nat) {
    && Inv(s', sh') && IsRoot(sh', root) && Grows(s, sh, s', sh')
    && Spread(s.mem, s'.mem, sh, root, p, n) && OtherRoots(s.mem, s'.mem, sh, root) && SameRoots(sh, sh')
    && (UpperHalf(p, n) ==> LowSlotsSame(s.mem, s'.mem, root))
  }

  /** No root other than `root` has changed, in its own words or in what it translates
      through slots it does not share with `root`. */
  ghost predicate Isolated(m: Mem, m': Mem, sh: Shape, root: nat) {
    && OtherRoots(m, m', sh, root) && SharingSame(m, m', sh, root)
    && forall r, v | IsRoot(sh, r) && 0 <= v < 0x10_0000_0000 && !SharedSlot(m, root, r, Index(v, 4)) ::
         Translate(m', r, v) == Translate(m, r, v)
  }

  /** The upper half of every root translates as before. */
  ghost predicate UpperSame(m: Mem, m': Mem, sh: Shape) {
    forall r, v | IsRoot(sh, r) && 0x8_0000_0000 <= v < 0x10_0000_0000 :: Translate(m', r, v) == Translate(m, r, v)
  }

  lemma ContainedIsolated(s: State, sh: Shape, s': State, sh': Shape, root: nat, p: nat, n: nat)
    requires Contained(s, sh, s', sh', root, p, n)
    ensures Isolated(s.mem, s'.mem, sh, root)
    ensures p + n <= 0x8_0000_0000 ==> UpperSame(s.mem, s'.mem, sh)
  {
    hide Offset, Walk, SharedSlot, SharingSame, OtherRoots, Inv, Grows;
    if p + n <= 0x8_0000_0000 {
      forall r, v | IsRoot(sh, r) && 0x8_0000_0000 <= v < 0x10_0000_0000
        ensures Translate(s'.mem, r, v) == Translate(s.mem, r, v)
      {
        OffsetIs(v, p);
      }
    }
  }

  /** The `n` pages from page `p` on are mapped to the frames from `f` on, for the kernel to
      read, write and execute. */
  ghost predicate AllMapped(m: Mem, root: nat, p: nat, n: nat, f: nat) {
    forall v | 0 <= v < 0x10_0000_0000 && InRange(v, p, n) ::
      Translate(m, root, v) == Some(f + Offset(v, p)) && WalkAccess(m, root, 4, v) == KERNEL_ACCESS
  }

  lemma MappedStays(s: State, sh: Shape, s': State, sh': Shape, root: nat, p: nat, n: nat, f: nat)
    requires Inv(s, sh) && Extends(s, sh, s', sh') && IsRoot(sh, root) && AllMapped(s.mem, root, p, n, f)
    ensures AllMapped(s'.mem, root, p, n, f)
  {
    hide Inv, Extends, Walk, WalkAccess, Offset;
    forall v | 0 <= v < 0x10_0000_0000 && InRange(v, p, n)
      ensures Translate(s'.mem, root, v) == Some(f + Offset(v, p)) && WalkAccess(s'.mem, root, 4, v) == KERNEL_ACCESS
    {
      TranslationsPersist(s, sh, s', sh', root, v);
    }
  }

  ghost predicate SomeMapped(m: Mem, root: nat, p: nat, n: nat) {
    exists v :: 0 <= v < 0x10_0000_0000 && InRange(v, p, n) && Translate(m, root, v).Some?
  }

  /** What the outcome of mapping one leaf's pages says. */
  ghost predicate Reports(s: State, s': State, root: nat, p: nat, n: nat, f: nat, o: Outcome) {
    match o
    case Done => AllMapped(s'.mem, root, p, n, f)
    case Failed(OutOfTablePages) => Exhausted(s')
    case Failed(_) => SomeMapped(s.mem, root, p, n)
  }

  /** What stands in the way of a leaf of level `l` that maps `vpn` to frame `f`: a leaf of
      another size or a page table in its place, or a leaf of its size for another frame. */
  function Obstacle(m: Mem, root: nat, vpn: nat, f: nat, l: nat): (r: Option<MapError>)
    requires 1 <= l <= 2
    ensures r != Some(OutOfTablePages)
  {
    var end := WalkEnd(m, root, 4, vpn);
    if end.level < l || (end.level > l && Present(end.entry)) then Some(HugeCollision)
    else if end.level == l && Present(end.entry) && PhysFrame(end.entry) != f then
      Some(if l == 1 then Conflict4k else Conflict2m)
    else None
  }

  /** An obstacle is reported as what it is; without one only pages can be short. */
  ghost predicate Verdict(m: Mem, root: nat, vpn: nat, f: nat, l: nat, o: Outcome)
    requires 1 <= l <= 2
  {
    match Obstacle(m, root, vpn, f, l)
    case Some(e) => o == Failed(e)
    case None => o.Done? || o == Failed(OutOfTablePages)
  }

  /** Outside the leaf of level `l` that holds `vpn`, walks end where they did, or at missing
      entries before and after. */
  ghost predicate Aside(m: Mem, m': Mem, root: nat, vpn: nat, l: nat)
    requires 1 <= l <= 2
  {
    forall v | 0 <= v < 0x10_0000_0000 && Prefix(v, l - 1) != Prefix(vpn, l - 1) :: DeepenedAt(m, m', root, vpn, l, v)
  }

  /** The obstacle, told from the slot the tables were extended to. */
  lemma LeafObstacle(m: Mem, m1: Mem, root: nat, vpn: nat, t: nat, f: nat, l: nat)
    requires 1 <= l <= 2 && vpn < 0x10_0000_0000 && Deepened(m, m1, root, vpn, l) && Leads(m1, root, 4, vpn, t, l)
    ensures var cur := At(m1, t, Index(vpn, l));
      Obstacle(m, root, vpn, f, l) ==
        if !Present(cur) then None
        else if l == 2 && !Huge(cur) then Some(HugeCollision)
        else if PhysFrame(cur) != f then Some(if l == 1 then Conflict4k else Conflict2m)
        else None
  {
    hide Leads, PhysFrame, Present, Huge, Index, At, Prefix;
    LeadsEnd(m1, root, 4, vpn, t, l);
    assert DeepenedAt(m, m1, root, vpn, l, vpn);
  }

  lemma DeepenedAside(m: Mem, m1: Mem, root: nat, vpn: nat, l: nat)
    requires 1 <= l <= 2 && Deepened(m, m1, root, vpn, l)
    ensures Aside(m, m1, root, vpn, l)
  {
    hide Prefix, WalkEnd;
  }

  /** Growing the tables and then writing the leaf. */
  lemma LeafAside(s: State, s1: State, sh1: Shape, s': State, root: nat, vpn: nat, t: nat, l: nat, e: Word)
    requires Tables(s1, sh1) && LeafSet(s1, sh1, s', root, vpn, t, l, e) && Deepened(s.mem, s1.mem, root, vpn, l)
    ensures Aside(s.mem, s'.mem, root, vpn, l)
  {
    LeadsServes(s1.mem, sh1, root, vpn, t, l);
    PrefixStep(vpn, l);
    hide Leads, Put, Index, Prefix, WellShaped, WalkEnd, Present, Huge;
    var k := l - 1;
    forall v | 0 <= v < 0x10_0000_0000 && Prefix(v, k) != Prefix(vpn, k)
      ensures DeepenedAt(s.mem, s'.mem, root, vpn, l, v)
    {
      RootServes(s1.mem, sh1, root, v);
      LeafKeepsEnds(s1.mem, s'.mem, sh1, t, Index(vpn, l), e, root, v);
      assert DeepenedAt(s.mem, s1.mem, root, vpn, l, v);
    }
  }

  lemma ContainedRefl(s: State, sh: Shape, root: nat, p: nat, n: nat)
    requires Inv(s, sh) && IsRoot(sh, root)
    ensures Contained(s, sh, s, sh, root, p, n)
  {
    hide Walk, SharedSlot, InRange;
    QuietSpreads(s.mem, s.mem, sh, root, p, n);
  }

  /** Where no translation changes, any range is as good as another. */
  lemma QuietSpreads(m: Mem, m': Mem, sh: Shape, root: nat, p: nat, n: nat)
    requires WellShaped(m, sh) && IsRoot(sh, root) && SameWalks(m, m', sh) && SharingSame(m, m', sh, root)
    ensures Spread(m, m', sh, root, p, n)
  {
    hide Walk, SharedSlot, InRange, WellShaped, SharingSame;
    forall r, v | IsRoot(sh, r) && 0 <= v < 0x10_0000_0000
      ensures Translate(m', r, v) == Translate(m, r, v)
      ensures SharedSlot(m, root, r, Index(v, 4)) ==> Translate(m', r, v) == Translate(m', root, v)
    {
      assert Walk(m', r, sh[r].level, v) == Walk(m, r, sh[r].level, v);
      assert Walk(m', root, sh[root].level, v) == Walk(m, root, sh[root].level, v);
      if SharedSlot(m, root, r, Index(v, 4)) {
        SharedAlike(m, sh, root, r, v);
      }
    }
  }

  // ----- one page -----

  /** Growing the tables alone leaves every range as it was. */
  lemma EnsuredContained(s: State, sh: Shape, s': State, sh': Shape, root: nat, virt: nat, n: nat, l: nat,
                         r: Result<nat>)
    requires Inv(s, sh) && IsRoot(sh, root) && 2 <= l <= 3 && n >= 1
    requires Ensured(s, sh, s', sh', root, PageOf(virt), l, r)
    requires l == 3 || r.Err?
    ensures Contained(s, sh, s', sh', root, virt / 0x1000, n)
  {
    hide Walk, SharedSlot, InRange, WellShaped, SharingSame, Spread, SameWalks, Grows;
    UpperIndex(PageOf(virt));
    QuietSpreads(s.mem, s'.mem, sh, root, virt / 0x1000, n);
  }

  /** Growing the tables alone changes no translation. */
  lemma EnsuredQuiet(s: State, sh: Shape, s': State, sh': Shape, root: nat, vpn: nat, l: nat, r: Result<nat>, p: nat)
    requires Inv(s, sh) && IsRoot(sh, root) && 2 <= l <= 4 && Ensured(s, sh, s', sh', root, vpn, l, r)
    ensures Spread(s.mem, s'.mem, sh, root, p, 0)
  {
    hide Walk, SharedSlot, InRange, WellShaped, SharingSame, Spread, SameWalks, Grows;
    QuietSpreads(s.mem, s'.mem, sh, root, p, 0);
  }

  lemma UpperIndex(vpn: nat)
    requires vpn < 0x10_0000_0000
    ensures Index(vpn, 4) >= 256 <==> vpn >= 0x8_0000_0000
  {
  }

  /** The number of pages under a leaf of a level `l` table. */
  function Span(l: nat): nat {
    if l == 1 then 1 else 512
  }

  /** The pages under a leaf are those of a range that starts at a multiple of its span. */
  lemma LeafCovers(p: nat, v: nat, l: nat)
    requires 1 <= l <= 2 && v < 0x10_0000_0000 && p % Span(l) == 0
    ensures InRange(v, p, Span(l)) <==> Prefix(v, l - 1) == Prefix(p % 0x10_0000_0000, l - 1)
    ensures InRange(v, p, Span(l)) ==> Offset(v, p) == if l == 1 then 0 else v % 512
  {
    hide Offset;
    OffsetIs(v, p);
    if l == 2 {
      HugeCovers(p % 0x10_0000_0000, v);
    }
  }

  lemma HugeCovers(q: nat, v: nat)
    requires q % 512 == 0
    ensures q <= v < q + 512 <==> v / 512 == q / 512
    ensures q <= v < q + 512 ==> v - q == v % 512
  {
  }

  lemma LeafPages(s: State, sh: Shape, s': State, root: nat, p: nat, t: nat, l: nat, e: Word)
    requires Tables(s, sh) && 1 <= l <= 2 && p % Span(l) == 0
    requires LeafSet(s, sh, s', root, p % 0x10_0000_0000, t, l, e)
    ensures AllMapped(s'.mem, root, p, Span(l), PhysFrame(e))
  {
    hide Offset, Walk, WalkAccess, Index, Leads, Put, Present, Huge, KernelEntry, Prefix;
    var vpn := p % 0x10_0000_0000;
    LeafSharing(s, sh, s', root, vpn, t, l, e);
    forall v | 0 <= v < 0x10_0000_0000 && InRange(v, p, Span(l))
      ensures Translate(s'.mem, root, v) == Some(PhysFrame(e) + Offset(v, p))
      ensures WalkAccess(s'.mem, root, 4, v) == KERNEL_ACCESS
    {
      LeafCovers(p, v, l);
      LeafTarget(s, sh, s', root, vpn, t, l, e, v);
      MappedForKernel(s'.mem, sh, root, v);
    }
  }

  lemma LeafSpreads(s: State, sh: Shape, s': State, root: nat, p: nat, t: nat, l: nat, e: Word)
    requires Tables(s, sh) && 1 <= l <= 2 && p % Span(l) == 0
    requires LeafSet(s, sh, s', root, p % 0x10_0000_0000, t, l, e)
    ensures Spread(s.mem, s'.mem, sh, root, p, Span(l))
  {
    hide Offset, Walk, Leads, Put, Index, Prefix, Tables, Present, Huge;
    var vpn := p % 0x10_0000_0000;
    LeafSharing(s, sh, s', root, vpn, t, l, e);
    forall r, v | IsRoot(sh, r) && 0 <= v < 0x10_0000_0000
      ensures Translate(s'.mem, r, v) == if InRange(v, p, Span(l)) && SharedSlot(s.mem, root, r, Index(v, 4)) then
        Translate(s'.mem, root, v) else Translate(s.mem, r, v)
    {
      LeafCovers(p, v, l);
      if !InRange(v, p, Span(l)) {
        LeafOthers(s, sh, s', root, vpn, t, l, e, r, v);
      } else if SharedSlot(s.mem, root, r, Index(v, 4)) {
        SharedAlike(s'.mem, sh, root, r, v);
      } else {
        LeafUnshared(s, sh, s', root, vpn, t, l, e, r, v);
      }
    }
  }

  /** A leaf lies below the roots, so it changes no root's own words. */
  lemma LeafSharing(s: State, sh: Shape, s': State, root: nat, vpn: nat, t: nat, l: nat, e: Word)
    requires Tables(s, sh) && LeafSet(s, sh, s', root, vpn, t, l, e)
    ensures SharingSame(s.mem, s'.mem, sh, root) && OtherRoots(s.mem, s'.mem, sh, root) && WellShaped(s'.mem, sh)
  {
    LeafInv(s, sh, s', root, vpn, t, l, e);
    hide WellShaped, Leads, Present, Huge, PhysFrame;
    assert forall r, j | IsRoot(sh, r) && 0 <= j < 512 :: At(s'.mem, r, j) == At(s.mem, r, j);
  }

  lemma LeafContained(s: State, sh: Shape, s': State, root: nat, p: nat, t: nat, l: nat, e: Word)
    requires Tables(s, sh) && 1 <= l <= 2 && p % Span(l) == 0
    requires LeafSet(s, sh, s', root, p % 0x10_0000_0000, t, l, e)
    requires Used(s.mem, sh, if l == 1 then t else 0)
    ensures Contained(s, sh, s', sh, root, p, Span(l))
  {
    LeafInv(s, sh, s', root, p % 0x10_0000_0000, t, l, e);
    LeafSharing(s, sh, s', root, p % 0x10_0000_0000, t, l, e);
    LeafSpreads(s, sh, s', root, p, t, l, e);
  }

  /** Growing the tables and then mapping within the range. */
  lemma EnsuredThen(s: State, sh: Shape, s1: State, sh1: Shape, s': State, root: nat, virt: nat, n: nat, l: nat, t: nat)
    requires Inv(s, sh) && IsRoot(sh, root) && 2 <= l <= 3 && n >= 1
    requires Ensured(s, sh, s1, sh1, root, PageOf(virt), l, Ok(t))
    requires Contained(s1, sh1, s', sh1, root, virt / 0x1000, n)
    ensures Contained(s, sh, s', sh1, root, virt / 0x1000, n)
  {
    GrowsTrans(s, sh, s1, sh1, s', sh1);
    UpperIndex(PageOf(virt));
  }

  /** The leaf was there already. */
  lemma LeafPresent(s: State, sh: Shape, root: nat, p: nat, t: nat, l: nat)
    requires Tables(s, sh) && IsRoot(sh, root) && 1 <= l <= 2 && p % Span(l) == 0
    requires Leads(s.mem, root, 4, p % 0x10_0000_0000, t, l)
    requires var e := At(s.mem, t, Index(p % 0x10_0000_0000, l)); Present(e) && (l == 2 ==> Huge(e))
    requires Used(s.mem, sh, if l == 1 then t else 0)
    ensures AllMapped(s.mem, root, p, Span(l), PhysFrame(At(s.mem, t, Index(p % 0x10_0000_0000, l))))
    ensures SomeMapped(s.mem, root, p, Span(l))
    ensures Contained(s, sh, s, sh, root, p, Span(l))
  {
    var vpn := p % 0x10_0000_0000;
    hide Offset, Leads, Walk, PhysFrame, Present, Huge, Index, Contained;
    LeadsServes(s.mem, sh, root, vpn, t, l);
    assert SlotOk(s.mem, sh, t, Index(vpn, l));
    LeafPresentPages(s.mem, sh, root, p, t, l);
    FirstInRange(p, Span(l));
    assert Translate(s.mem, root, vpn).Some?;
    ContainedRefl(s, sh, root, p, Span(l));
  }

  lemma LeafPresentPages(m: Mem, sh: Shape, root: nat, p: nat, t: nat, l: nat)
    requires WellShaped(m, sh) && IsRoot(sh, root)
    requires 1 <= l <= 2 && p % Span(l) == 0 && Leads(m, root, 4, p % 0x10_0000_0000, t, l)
    requires var e := At(m, t, Index(p % 0x10_0000_0000, l));
      Present(e) && (l == 2 ==> Huge(e) && PhysFrame(e) % 512 == 0)
    ensures AllMapped(m, root, p, Span(l), PhysFrame(At(m, t, Index(p % 0x10_0000_0000, l))))
  {
    hide Offset, Leads, Walk, WalkAccess, WellShaped, PhysFrame, Present, Huge, Index, Prefix, At;
    var vpn := p % 0x10_0000_0000;
    forall v | 0 <= v < 0x10_0000_0000 && InRange(v, p, Span(l))
      ensures Translate(m, root, v) == Some(PhysFrame(At(m, t, Index(vpn, l))) + Offset(v, p))
      ensures WalkAccess(m, root, 4, v) == KERNEL_ACCESS
    {
      LeafCovers(p, v, l);
      LeafReads(m, root, vpn, t, l, v);
      MappedForKernel(m, sh, root, v);
    }
  }

  lemma Map4kOk(s: State, sh: Shape, root: nat, virt: nat, phys: Word) returns (sh': Shape)
    requires Inv(s, sh) && IsRoot(sh, root) && phys < 0x10_0000_0000_0000
    ensures var (s', o) := Map4k(s, root, virt, phys);
      && Contained(s, sh, s', sh', root, virt / 0x1000, 1)
      && Reports(s, s', root, virt / 0x1000, 1, phys / 0x1000, o)
      && Verdict(s.mem, root, PageOf(virt), phys / 0x1000, 1, o)
      && (if o.Done? then Aside(s.mem, s'.mem, root, PageOf(virt), 1)
           else Spread(s.mem, s'.mem, sh, root, virt / 0x1000, 0))
  {
    hide Offset, Contained, EnsureTable, EnsurePd, SetLeaf4k, Inv, Grows, Spread, Aside, Deepened, WalkEnd, SharingSame,
         SameWalks, Leads, Tables, Used;
    hide RootSlotsSame, OtherRoots;
    var vpn := PageOf(virt);
    var (s2, pd) := EnsurePd(s, root, virt);
    var sh2 := EnsurePdOk(s, sh, root, virt);
    if pd.Err? {
      EnsuredContained(s, sh, s2, sh2, root, virt, 1, 3, pd);
      EnsuredQuiet(s, sh, s2, sh2, root, vpn, 3, pd, virt / 0x1000);
      sh' := sh2;
    } else {
      var (s3, pt) := EnsureTable(s2, pd.value, PdIndex(virt));
      var sh3 := EnsureTableOk(s2, sh2, root, vpn, pd.value, 2);
      EnsuredTrans(s, sh, s2, sh2, s3, sh3, root, vpn, 2, pd, pt);
      sh' := sh3;
      if pt.Err? {
        EnsuredContained(s, sh, s3, sh3, root, virt, 1, 2, pt);
        EnsuredQuiet(s, sh, s3, sh3, root, vpn, 2, pt, virt / 0x1000);
        FirstInRange(virt / 0x1000, 1);
      } else {
        SetLeaf4kOk(s, sh, s3, sh3, root, virt, phys, pt.value);
      }
    }
  }

  lemma FrameOf(phys: Word)
    requires phys < 0x10_0000_0000_0000
    ensures PhysFrame(phys) == phys / 0x1000
    ensures phys % 0x20_0000 == 0 ==> PhysFrame(phys) % 512 == 0
  {
    Arithmetic.Quotient(phys / 0x1000, 0x100_0000_0000, 0, phys / 0x1000);
    if phys % 0x20_0000 == 0 {
      HugeAligned(phys);
    }
  }

  lemma HugeAligned(va: nat)
    requires va % 0x20_0000 == 0
    ensures va / 0x1000 % 512 == 0
  {
    var k := va / 0x20_0000;
    Arithmetic.Quotient(va, 0x1000, k * 512, 0);
    Arithmetic.Quotient(k * 512, 512, k, 0);
  }

  lemma SetLeaf4kOk(s: State, sh: Shape, s1: State, sh1: Shape, root: nat, virt: nat, phys: Word, t: nat)
    requires Inv(s, sh) && IsRoot(sh, root) && phys < 0x10_0000_0000_0000
    requires Ensured(s, sh, s1, sh1, root, PageOf(virt), 2, Ok(t))
    ensures var (s', o) := SetLeaf4k(s1, t, virt, phys);
      && Contained(s, sh, s', sh1, root, virt / 0x1000, 1)
      && Reports(s, s', root, virt / 0x1000, 1, phys / 0x1000, o)
      && Verdict(s.mem, root, PageOf(virt), phys / 0x1000, 1, o)
      && (if o.Done? then Aside(s.mem, s'.mem, root, PageOf(virt), 1)
           else Spread(s.mem, s'.mem, sh, root, virt / 0x1000, 0))
  {
    hide Offset, Contained, Obstacle, Aside, Deepened, Spread, SharingSame, Grows, RootSlotsSame, Leads, SameWalks,
         Tables, Used, Walk, AllMapped, SomeMapped, PhysFrame, Present, Huge, Index, Put, At;
    var p, vpn := virt / 0x1000, PageOf(virt);
    var (s', o) := SetLeaf4k(s1, t, virt, phys);
    EnsuredQuiet(s, sh, s1, sh1, root, vpn, 2, Ok(t), p);
    FrameOf(phys);
    LeafObstacle(s.mem, s1.mem, root, vpn, t, phys / 0x1000, 1);
    DeepenedAside(s.mem, s1.mem, root, vpn, 1);
    if Present(At(s1.mem, t, PtIndex(virt))) {
      LeafPresent(s1, sh1, root, p, t, 1);
      MappedBefore(s, sh, s1, root, p, 1);
    } else {
      var e := TableEntry(PhysFrame(phys));
      assert LeafSet(s1, sh1, s', root, vpn, t, 1, e);
      LeafContained(s1, sh1, s', root, p, t, 1, e);
      LeafPages(s1, sh1, s', root, p, t, 1, e);
      LeafAside(s, s1, sh1, s', root, vpn, t, 1, e);
    }
    EnsuredThen(s, sh, s1, sh1, s', root, virt, 1, 2, t);
  }

  lemma Map2mOk(s: State, sh: Shape, root: nat, virt: nat, phys: Word) returns (sh': Shape)
    requires Inv(s, sh) && IsRoot(sh, root) && phys < 0x10_0000_0000_0000
    requires virt % 0x20_0000 == 0 && phys % 0x20_0000 == 0
    ensures var (s', o) := Map2m(s, root, virt, phys);
      && Contained(s, sh, s', sh', root, virt / 0x1000, 512)
      && Reports(s, s', root, virt / 0x1000, 512, phys / 0x1000, o)
      && Verdict(s.mem, root, PageOf(virt), phys / 0x1000, 2, o)
      && (if o.Done? then Aside(s.mem, s'.mem, root, PageOf(virt), 2)
           else Spread(s.mem, s'.mem, sh, root, virt / 0x1000, 0))
  {
    hide Offset, Contained, EnsurePd, SetLeaf2m, Inv, Grows, Spread, Aside, Deepened, WalkEnd, SharingSame, SameWalks,
         Leads, Tables, Used, RootSlotsSame, OtherRoots;
    var (s2, pd) := EnsurePd(s, root, virt);
    var sh2 := EnsurePdOk(s, sh, root, virt);
    sh' := sh2;
    if pd.Err? {
      EnsuredContained(s, sh, s2, sh2, root, virt, 512, 3, pd);
      EnsuredQuiet(s, sh, s2, sh2, root, PageOf(virt), 3, pd, virt / 0x1000);
    } else {
      SetLeaf2mOk(s, sh, s2, sh2, root, virt, phys, pd.value);
    }
  }

  lemma SetLeaf2mOk(s: State, sh: Shape, s1: State, sh1: Shape, root: nat, virt: nat, phys: Word, t: nat)
    requires Inv(s, sh) && IsRoot(sh, root) && phys < 0x10_0000_0000_0000
    requires virt % 0x20_0000 == 0 && phys % 0x20_0000 == 0
    requires Ensured(s, sh, s1, sh1, root, PageOf(virt), 3, Ok(t))
    ensures var (s', o) := SetLeaf2m(s1, t, virt, phys);
      && Contained(s, sh, s', sh1, root, virt / 0x1000, 512)
      && Reports(s, s', root, virt / 0x1000, 512, phys / 0x1000, o)
      && Verdict(s.mem, root, PageOf(virt), phys / 0x1000, 2, o)
      && (if o.Done? then Aside(s.mem, s'.mem, root, PageOf(virt), 2)
           else Spread(s.mem, s'.mem, sh, root, virt / 0x1000, 0))
  {
    hide Offset, Contained, Obstacle, Aside, Deepened, Spread, SharingSame, Grows, RootSlotsSame, Leads, SameWalks,
         Tables, Used, Walk, AllMapped, SomeMapped, PhysFrame, Present, Huge, Index, Put, At;
    var p, vpn := virt / 0x1000, PageOf(virt);
    var (s', o) := SetLeaf2m(s1, t, virt, phys);
    var current := At(s1.mem, t, PdIndex(virt));
    EnsuredQuiet(s, sh, s1, sh1, root, vpn, 3, Ok(t), p);
    FrameOf(phys);
    HugeAligned(virt);
    LeafObstacle(s.mem, s1.mem, root, vpn, t, phys / 0x1000, 2);
    DeepenedAside(s.mem, s1.mem, root, vpn, 2);
    if !Present(current) {
      var e := HugeEntry(PhysFrame(phys));
      assert LeafSet(s1, sh1, s', root, vpn, t, 2, e);
      LeafContained(s1, sh1, s', root, p, t, 2, e);
      LeafPages(s1, sh1, s', root, p, t, 2, e);
      LeafAside(s, s1, sh1, s', root, vpn, t, 2, e);
    } else if Huge(current) {
      LeafPresent(s1, sh1, root, p, t, 2);
      MappedBefore(s, sh, s1, root, p, 512);
    } else {
      UsedBelow(s1, sh1, root, p, t);
      ContainedRefl(s1, sh1, root, p, 512);
      MappedBefore(s, sh, s1, root, p, 512);
    }
    EnsuredThen(s, sh, s1, sh1, s', root, virt, 512, 3, t);
  }

  lemma MappedBefore(s: State, sh: Shape, s1: State, root: nat, p: nat, n: nat)
    requires IsRoot(sh, root) && SameWalks(s.mem, s1.mem, sh)
    requires SomeMapped(s1.mem, root, p, n)
    ensures SomeMapped(s.mem, root, p, n)
  {
    var v :| 0 <= v < 0x10_0000_0000 && InRange(v, p, n) && Translate(s1.mem, root, v).Some?;
    assert Translate(s.mem, root, v).Some?;
  }

  /** A page table under a page-directory slot maps some page of the slot's range. */
  lemma UsedBelow(s: State, sh: Shape, root: nat, p: nat, t: nat)
    requires Inv(s, sh) && IsRoot(sh, root) && p % 512 == 0
    requires Leads(s.mem, root, 4, p % 0x10_0000_0000, t, 2)
    requires var e := At(s.mem, t, Index(p % 0x10_0000_0000, 2)); Present(e) && !Huge(e)
    ensures SomeMapped(s.mem, root, p, 512)
  {
    var vpn := p % 0x10_0000_0000;
    LeadsServes(s.mem, sh, root, vpn, t, 2);
    assert SlotOk(s.mem, sh, t, Index(vpn, 2));
    LeadsDown(s.mem, root, 4, vpn, t, 2);
    var pt := PhysFrame(At(s.mem, t, Index(vpn, 2)));
    assert pt in sh && sh[pt].level == 1;
    var j :| 0 <= j < 512 && Present(At(s.mem, pt, j));
    PtPage(s.mem, root, p, pt, j);
  }

  lemma PtPage(m: Mem, root: nat, p: nat, pt: nat, j: nat)
    requires p % 512 == 0 && j < 512
    requires Leads(m, root, 4, p % 0x10_0000_0000, pt, 1) && Present(At(m, pt, j))
    ensures SomeMapped(m, root, p, 512)
  {
    hide Leads, Walk, Present, At, PhysFrame;
    var vpn := p % 0x10_0000_0000;
    var v := vpn + j;
    LeafCovers(p, v, 2);
    LeadsByPrefix(m, root, 4, vpn, v, pt, 1);
    assert Index(v, 1) == j;
    LeadsToPage(m, root, v, pt);
  }

  lemma LeadsToPage(m: Mem, root: nat, v: nat, pt: nat)
    requires Leads(m, root, 4, v, pt, 1) && Present(At(m, pt, Index(v, 1)))
    ensures Translate(m, root, v) == Some(PhysFrame(At(m, pt, Index(v, 1))))
  {
    LeadsWalk(m, root, 4, v, pt, 1);
  }
}
