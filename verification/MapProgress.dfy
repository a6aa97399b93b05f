/** How far a call gets, and what every root sees of it. */
module MapProgress {
  import opened MachineWords
  import opened PageTables
  import opened PageMapper
  import opened MapperProofs
  import opened MapPages
  import opened MapRanges
  import opened TableNeeds
  import opened MapVerdicts

  /** The pages a call maps, or finds mapped as asked, before it ends or stops. */
  function Progress(s: State, root: nat, virt: nat, phys: nat, len: nat): nat
    requires phys + len <= 0x10_0000_0000_0000
    decreases len
  {
    if len < 0x1000 then 0
    else
      var (s1, o) := MapChunk(s, root, virt, phys, len);
      var n := Chunk(virt, phys, len);
      if o.Failed? then 0 else n + Progress(s1, root, virt + 0x1000 * n, phys + 0x1000 * n, len - 0x1000 * n)
  }

  /** Everything about a call that got through `k` of `n` pages. */
  ghost predicate Reached(s: State, sh: Shape, s': State, root: nat, p: nat, n: nat, f: nat, k: nat, o: Outcome) {
    && k <= n && k <= 0x10_0000_0000 && (o.Done? <==> k == n)
    && Spread(s.mem, s'.mem, sh, root, p, k) && AllMapped(s'.mem, root, p, k, f)
    && (o == Failed(OutOfTablePages) ==> Exhausted(s'))
  }

  lemma NoneMapped(m: Mem, root: nat, p: nat, f: nat)
    ensures AllMapped(m, root, p, 0, f)
  {
  }

  lemma ReachedStart(s: State, sh: Shape, root: nat, p: nat, f: nat)
    requires Inv(s, sh) && IsRoot(sh, root)
    ensures Reached(s, sh, s, root, p, 0, f, 0, Done)
  {
    hide Walk, SharedSlot, InRange, Spread, AllMapped;
    ContainedRefl(s, sh, root, p, 0);
    NoneMapped(s.mem, root, p, f);
  }

  lemma ReachedNothing(s: State, sh: Shape, s': State, root: nat, p: nat, n1: nat, n: nat, f: nat, o: Outcome)
    requires o.Failed? && 0 < n1 <= n && Reports(s, s', root, p, n1, f, o) && Spread(s.mem, s'.mem, sh, root, p, 0)
    ensures Reached(s, sh, s', root, p, n, f, 0, o)
  {
    hide Walk, InRange, Spread, AllMapped;
    NoneMapped(s'.mem, root, p, f);
  }

  lemma ReachedStep(s: State, sh: Shape, s1: State, sh1: Shape, s': State, sh': Shape, root: nat, p: nat, n1: nat,
                    n2: nat, f: nat, k: nat, o: Outcome)
    requires Inv(s1, sh1) && IsRoot(sh, root) && IsRoot(sh1, root) && Grows(s, sh, s1, sh1) && Extends(s1, sh1, s', sh')
    requires 0 < n1 <= 512
    requires Spread(s.mem, s1.mem, sh, root, p, n1) && AllMapped(s1.mem, root, p, n1, f)
    requires Reached(s1, sh1, s', root, p + n1, n2, f + n1, k, o)
    ensures Reached(s, sh, s', root, p, n1 + n2, f, n1 + k, o)
  {
    hide Spread, AllMapped, Inv;
    SpreadTrans(s.mem, sh, s1.mem, sh1, s'.mem, root, p, n1, k);
    AllMappedTrans(s1, sh1, s', sh', root, p, n1, k, f);
  }

  lemma ContainedSpreads(s: State, sh: Shape, s': State, sh': Shape, root: nat, p: nat, n: nat)
    requires Contained(s, sh, s', sh', root, p, n)
    ensures Spread(s.mem, s'.mem, sh, root, p, n) && Extends(s, sh, s', sh')
  {
  }

  lemma {:induction false} LoopReaches(s: State, sh: Shape, root: nat, virt: nat, phys: nat, len: nat)
    requires Inv(s, sh) && IsRoot(sh, root) && phys + len <= 0x10_0000_0000_0000
    requires virt % 0x1000 == 0 && phys % 0x1000 == 0 && len % 0x1000 == 0
    ensures var (s', o) := MapLoop(s, root, virt, phys, len); var k := Progress(s, root, virt, phys, len);
      Reached(s, sh, s', root, virt / 0x1000, len / 0x1000, phys / 0x1000, k, o)
    decreases len
  {
    hide MapChunk, MapLoop, Progress, Inv, Contained, Reports, Reached, Grows, RangeReports, Spread, AllMapped, Verdict,
         Aside;
    if len < 0x1000 {
      NoProgress(s, root, virt, phys, len);
      ReachedStart(s, sh, root, virt / 0x1000, phys / 0x1000);
    } else {
      var n1 := Chunk(virt, phys, len);
      ChunkFits(virt, phys, len);
      ProgressSplit(s, root, virt, phys, len, n1);
      var (s1, o1) := MapChunk(s, root, virt, phys, len);
      var sh1 := MapChunkOk(s, sh, root, virt, phys, len);
      ChunkKeeps(s, sh, s1, sh1, root, virt / 0x1000, n1);
      ContainedSpreads(s, sh, s1, sh1, root, virt / 0x1000, n1);
      if o1.Failed? {
        ReachedNothing(s, sh, s1, root, virt / 0x1000, n1, len / 0x1000, phys / 0x1000, o1);
      } else {
        ChunkReports(s, s1, root, virt / 0x1000, n1, len / 0x1000, phys / 0x1000, o1);
        LoopRest(s, sh, s1, sh1, root, virt, phys, len, n1);
      }
    }
  }

  lemma NoProgress(s: State, root: nat, virt: nat, phys: nat, len: nat)
    requires phys + len <= 0x10_0000_0000_0000 && len < 0x1000
    ensures MapLoop(s, root, virt, phys, len) == (s, Done) && Progress(s, root, virt, phys, len) == 0
  {
  }

  lemma ProgressSplit(s: State, root: nat, virt: nat, phys: nat, len: nat, n: nat)
    requires phys + len <= 0x10_0000_0000_0000 && len >= 0x1000 && n == Chunk(virt, phys, len)
    ensures 0x1000 * n <= len
    ensures var (s1, o) := MapChunk(s, root, virt, phys, len);
      && MapLoop(s, root, virt, phys, len) ==
           (if o.Failed? then (s1, o) else MapLoop(s1, root, virt + 0x1000 * n, phys + 0x1000 * n, len - 0x1000 * n))
      && Progress(s, root, virt, phys, len) ==
           if o.Failed? then 0 else n + Progress(s1, root, virt + 0x1000 * n, phys + 0x1000 * n, len - 0x1000 * n)
  {
    hide Map2m, Map4k;
  }

  /** The rest of the loop after a first leaf of `n1` pages. */
  lemma LoopRest(s: State, sh: Shape, s1: State, sh1: Shape, root: nat, virt: nat, phys: nat, len: nat, n1: nat)
    requires Inv(s1, sh1) && IsRoot(sh, root) && IsRoot(sh1, root) && Grows(s, sh, s1, sh1)
    requires phys + len <= 0x10_0000_0000_0000
    requires virt % 0x1000 == 0 && phys % 0x1000 == 0 && len % 0x1000 == 0 && len >= 0x1000
    requires n1 == Chunk(virt, phys, len)
    requires Spread(s.mem, s1.mem, sh, root, virt / 0x1000, n1)
    requires AllMapped(s1.mem, root, virt / 0x1000, n1, phys / 0x1000)
    ensures 0x1000 * n1 <= len
    ensures var (v2, p2, l2) := (virt + 0x1000 * n1, phys + 0x1000 * n1, len - 0x1000 * n1);
      var (s', o) := MapLoop(s1, root, v2, p2, l2); var k := Progress(s1, root, v2, p2, l2);
      Reached(s, sh, s', root, virt / 0x1000, len / 0x1000, phys / 0x1000, n1 + k, o)
    decreases len, 0
  {
    hide MapLoop, Progress, Inv, Contained, Reached, RangeReports, Spread, AllMapped, Grows;
    ChunkFits(virt, phys, len);
    var (v2, p2, l2) := (virt + 0x1000 * n1, phys + 0x1000 * n1, len - 0x1000 * n1);
    var (s', o) := MapLoop(s1, root, v2, p2, l2);
    var k := Progress(s1, root, v2, p2, l2);
    LoopReaches(s1, sh1, root, v2, p2, l2);
    var sh' := MapLoopOk(s1, sh1, root, v2, p2, l2);
    ContainedSpreads(s1, sh1, s', sh', root, v2 / 0x1000, l2 / 0x1000);
    ReachedStep(s, sh, s1, sh1, s', sh', root, virt / 0x1000, n1, len / 0x1000 - n1, phys / 0x1000, k, o);
  }

  // ----- how far that is -----

  /** `k` pages are whole leaves of the call. */
  ghost predicate Boundary(virt: nat, phys: nat, len: nat, k: nat)
    decreases len
  {
    k == 0 || (len >= 0x1000 && var n := Chunk(virt, phys, len);
      n <= k && Boundary(virt + 0x1000 * n, phys + 0x1000 * n, len - 0x1000 * n, k - n))
  }

  /** A shorter call that has room for the first leaf begins with the same one. */
  lemma SameChunk(virt: nat, phys: nat, len: nat, less: nat)
    requires len >= 0x1000 && 0x1000 * Chunk(virt, phys, len) <= less <= len
    ensures Chunk(virt, phys, less) == Chunk(virt, phys, len) && Bottom(virt, phys, less) == Bottom(virt, phys, len)
  {
  }

  lemma {:induction false} ProgressBoundary(s: State, root: nat, virt: nat, phys: nat, len: nat)
    requires phys + len <= 0x10_0000_0000_0000
    ensures Boundary(virt, phys, len, Progress(s, root, virt, phys, len))
    decreases len
  {
    hide MapChunk, Chunk;
    if len >= 0x1000 {
      var n := Chunk(virt, phys, len);
      ProgressSplit(s, root, virt, phys, len, n);
      ChunkSize(virt, phys, len);
      var (s1, o) := MapChunk(s, root, virt, phys, len);
      ProgressBoundary(s1, root, virt + 0x1000 * n, phys + 0x1000 * n, len - 0x1000 * n);
    }
  }

  /** A call gets past `k` pages exactly when the call for them alone succeeds. */
  lemma {:induction false} PrefixDone(s: State, root: nat, virt: nat, phys: nat, len: nat, k: nat)
    requires phys + len <= 0x10_0000_0000_0000 && Boundary(virt, phys, len, k)
    ensures 0x1000 * k <= len
    ensures MapLoop(s, root, virt, phys, 0x1000 * k).1.Done? <==> k <= Progress(s, root, virt, phys, len)
    decreases len
  {
    hide MapChunk, Chunk, MapLoop, Progress;
    if k == 0 {
      NoProgress(s, root, virt, phys, 0);
    } else {
      var n := Chunk(virt, phys, len);
      ProgressSplit(s, root, virt, phys, len, n);
      ChunkSize(virt, phys, len);
      var s1 := MapChunk(s, root, virt, phys, len).0;
      PrefixDone(s1, root, virt + 0x1000 * n, phys + 0x1000 * n, len - 0x1000 * n, k - n);
      SameChunk(virt, phys, len, 0x1000 * k);
      SameLeaf(s, root, virt, phys, len, 0x1000 * k);
      LoopSplit(s, root, virt, phys, 0x1000 * k, n);
      assert 0x1000 * k - 0x1000 * n == 0x1000 * (k - n);
    }
  }

  lemma SameLeaf(s: State, root: nat, virt: nat, phys: Word, len: nat, less: nat)
    requires Bottom(virt, phys, less) == Bottom(virt, phys, len)
    ensures MapChunk(s, root, virt, phys, less) == MapChunk(s, root, virt, phys, len)
  {
  }

  /** A call gets through the greatest number of whole leaves that can all be mapped. */
  lemma ProgressExactly(s: State, sh: Shape, root: nat, virt: nat, phys: nat, len: nat, k: nat)
    requires Inv(s, sh) && IsRoot(sh, root) && phys + len <= 0x10_0000_0000_0000
    requires virt % 0x1000 == 0 && phys % 0x1000 == 0 && len % 0x1000 == 0 && Boundary(virt, phys, len, k)
    ensures k <= Progress(s, root, virt, phys, len) <==> CanMap(s, root, virt, phys, 0x1000 * k)
  {
    hide Progress, MapLoop, Inv, CanMap, Boundary;
    PrefixDone(s, root, virt, phys, len, k);
    LoopExactly(s, sh, root, virt, phys, 0x1000 * k);
  }

  // ----- why a call stops -----

  /** The leaf after the first `k` pages cannot be mapped, for the reason given: what is in
      its way before the call, or too few free pages for the tables up to there, or that
      its pages have come round to the first of the call. */
  ghost predicate StopsAt(s: State, root: nat, virt: nat, phys: nat, len: nat, k: nat, e: MapError) {
    0x1000 * k <= len &&
    var (v, f, rest) := (virt + 0x1000 * k, phys + 0x1000 * k, len - 0x1000 * k); var c := Chunk(v, f, rest);
    if k + c > 0x10_0000_0000 then e != OutOfTablePages
    else
      match Obstacle(s.mem, root, PageOf(v), f / 0x1000, Bottom(v, f, rest))
      case Some(found) => e == found
      case None => e == OutOfTablePages && !Enough(s, root, virt, phys, 0x1000 * (k + c))
  }

  /** What a walk yields, from where it ends. */
  lemma {:induction false} EndWalk(m: Mem, sh: Shape, x: nat, v: nat)
    requires WellShaped(m, sh) && x in sh
    ensures var (end, w) := (WalkEnd(m, x, sh[x].level, v), Walk(m, x, sh[x].level, v));
      if !Present(end.entry) then w == None
      else end.level <= 2 && w == Some(PhysFrame(end.entry) + if end.level == 1 then 0 else v % 512)
    decreases sh[x].level
  {
    var level := sh[x].level;
    assert SlotOk(m, sh, x, Index(v, level));
    var e := At(m, x, Index(v, level));
    if level > 1 && Present(e) && !Huge(e) {
      EndWalk(m, sh, PhysFrame(e), v);
    }
  }

  /** Page numbers with a common prefix end alike, unless below it. */
  lemma {:induction false} EndAlike(m: Mem, x: nat, level: nat, v: nat, u: nat, l: nat)
    requires 1 <= l <= 2 && l <= level <= 4 && Prefix(v, l - 1) == Prefix(u, l - 1)
    requires WalkEnd(m, x, level, v).level >= l
    ensures WalkEnd(m, x, level, u) == WalkEnd(m, x, level, v)
    decreases level
  {
    SameIndexFrom(v, u, l, level);
    var e := At(m, x, Index(v, level));
    if level > 1 && Present(e) && !Huge(e) {
      EndAlike(m, PhysFrame(e), level - 1, v, u, l);
    }
  }

  lemma SameIndexFrom(v: nat, u: nat, l: nat, level: nat)
    requires 1 <= l <= 2 && l <= level <= 4 && Prefix(v, l - 1) == Prefix(u, l - 1)
    ensures Index(v, level) == Index(u, level)
  {
    PrefixStep(v, l);
    PrefixStep(u, l);
    Arith512(Prefix(v, l), Index(v, l), Prefix(u, l), Index(u, l));
    if l < level {
      SameIndexAbove(v, u, l, level);
    }
  }

  /** A page of the leaf that is mapped to another frame is an obstacle. */
  lemma Mismatch(m: Mem, sh: Shape, root: nat, q: nat, l: nat, f: nat, u: nat)
    requires WellShaped(m, sh) && IsRoot(sh, root) && 1 <= l <= 2 && q % Span(l) == 0 && u < 0x10_0000_0000
    requires InRange(u, q, Span(l)) && Translate(m, root, u).Some? && Translate(m, root, u).value != f + Offset(u, q)
    ensures Obstacle(m, root, q % 0x10_0000_0000, f, l).Some?
  {
    hide Offset, Walk, WalkEnd, WellShaped, Prefix, Present, PhysFrame;
    var v := q % 0x10_0000_0000;
    LeafCovers(q, u, l);
    EndWalk(m, sh, root, u);
    if WalkEnd(m, root, 4, v).level >= l {
      EndAlike(m, root, 4, v, u, l);
    }
  }

  /** Where a call has come round to its first page, that page is in the way. */
  lemma ComeRound(m: Mem, sh: Shape, root: nat, p: nat, f: nat, k: nat, virt: nat, phys: nat, len: nat)
    requires WellShaped(m, sh) && IsRoot(sh, root) && Translate(m, root, p % 0x10_0000_0000) == Some(f)
    requires virt % 0x1000 == 0 && virt / 0x1000 == p + k && phys / 0x1000 == f + k
    requires 0 < k <= 0x10_0000_0000 < k + Chunk(virt, phys, len)
    ensures Obstacle(m, root, PageOf(virt), phys / 0x1000, Bottom(virt, phys, len)).Some?
  {
    hide Obstacle, WellShaped, Walk, Offset, Chunk;
    var u := p % 0x10_0000_0000;
    LeafAligned(virt, phys, len);
    OffsetOf(p, 0);
    OffsetShift(u, p, k);
    Mismatch(m, sh, root, p + k, Bottom(virt, phys, len), f + k, u);
  }

  lemma FirstMapped(m: Mem, root: nat, p: nat, n: nat, f: nat)
    requires n > 0 && AllMapped(m, root, p, n, f)
    ensures Translate(m, root, p % 0x10_0000_0000) == Some(f)
  {
    hide Offset, Walk;
    FirstInRange(p, n);
    OffsetOf(p, 0);
  }

  /** The call, and what its first leaf of `n1` pages did. */
  ghost predicate FirstLeaf(s: State, s1: State, root: nat, virt: nat, phys: nat, len: nat, n1: nat) {
    && virt % 0x1000 == 0 && phys % 0x1000 == 0 && len % 0x1000 == 0 && len >= 0x1000
    && n1 == Chunk(virt, phys, len) && 0x1000 * n1 <= len
    && AllMapped(s1.mem, root, virt / 0x1000, n1, phys / 0x1000)
    && Aside(s.mem, s1.mem, root, PageOf(virt), Bottom(virt, phys, len))
    && Takes(s, s1, root, LeafNeed(s.mem, root, PageOf(virt), Bottom(virt, phys, len)), Done)
  }

  lemma ObstacleBefore(s: State, s1: State, root: nat, virt: nat, phys: nat, len: nat, n1: nat, k: nat, v: nat, f: nat,
                       rest: nat)
    requires FirstLeaf(s, s1, root, virt, phys, len, n1) && n1 <= k && v == virt + 0x1000 * k
    requires k + Chunk(v, f, rest) <= 0x10_0000_0000
    ensures Obstacle(s.mem, root, PageOf(v), f / 0x1000, Bottom(v, f, rest)) ==
      Obstacle(s1.mem, root, PageOf(v), f / 0x1000, Bottom(v, f, rest))
  {
    hide AllMapped, Aside, Takes, Obstacle, Bottom, Chunk;
    LeafStarts(virt, k);
    LeafAligned(virt, phys, len);
    ObstacleLater(s.mem, s1.mem, root, virt / 0x1000, Bottom(virt, phys, len), k, v, f, rest);
  }

  lemma EnoughBefore(s: State, s1: State, root: nat, virt: nat, phys: nat, len: nat, n1: nat, less: nat)
    requires FirstLeaf(s, s1, root, virt, phys, len, n1) && 0x1000 * n1 <= less <= len
    ensures Enough(s, root, virt, phys, less) <==>
      Enough(s1, root, virt + 0x1000 * n1, phys + 0x1000 * n1, less - 0x1000 * n1)
  {
    hide AllMapped, Aside, Takes, Bottom, Chunk, Enough, LeafNeed, PageOf;
    ChunkFits(virt, phys, len);
    SameChunk(virt, phys, len, less);
    EnoughAfter(s, s1, root, virt, phys, less, n1);
  }

  lemma RoundAgain(s: State, s1: State, sh1: Shape, root: nat, virt: nat, phys: nat, len: nat, n1: nat, k: nat, v: nat,
                   f: nat, rest: nat)
    requires FirstLeaf(s, s1, root, virt, phys, len, n1) && Inv(s1, sh1) && IsRoot(sh1, root)
    requires v == virt + 0x1000 * k && f == phys + 0x1000 * k && 0 < k <= 0x10_0000_0000 < k + Chunk(v, f, rest)
    ensures Obstacle(s1.mem, root, PageOf(v), f / 0x1000, Bottom(v, f, rest)).Some?
  {
    hide AllMapped, Aside, Takes, Obstacle, Bottom, Chunk, Inv;
    assert n1 > 0 by { ChunkFits(virt, phys, len); }
    LeafStarts(virt, k);
    LeafStarts(phys, k);
    FirstMapped(s1.mem, root, virt / 0x1000, n1, phys / 0x1000);
    ShapeIs(s1, sh1);
    ComeRound(s1.mem, sh1, root, virt / 0x1000, phys / 0x1000, k, v, f, rest);
  }

  /** A stop after the first leaf, told from before it. */
  lemma StopsLater(s: State, s1: State, sh1: Shape, root: nat, virt: nat, phys: nat, len: nat, n1: nat, k: nat,
                   e: MapError)
    requires FirstLeaf(s, s1, root, virt, phys, len, n1) && Inv(s1, sh1) && IsRoot(sh1, root)
    requires 0 < n1 && n1 + k <= 0x10_0000_0000 && 0x1000 * k < len - 0x1000 * n1 && len % 0x1000 == 0
    requires StopsAt(s1, root, virt + 0x1000 * n1, phys + 0x1000 * n1, len - 0x1000 * n1, k, e)
    ensures StopsAt(s, root, virt, phys, len, n1 + k, e)
  {
    hide Inv, FirstLeaf, Enough, Obstacle, Chunk, Bottom, PageOf;
    var (v, f, rest) := (virt + 0x1000 * (n1 + k), phys + 0x1000 * (n1 + k), len - 0x1000 * (n1 + k));
    var c := Chunk(v, f, rest);
    if n1 + k + c > 0x10_0000_0000 {
      if k + c <= 0x10_0000_0000 {
        RoundAgain(s, s1, sh1, root, virt, phys, len, n1, n1 + k, v, f, rest);
      }
    } else {
      ObstacleBefore(s, s1, root, virt, phys, len, n1, n1 + k, v, f, rest);
      RestFits(len, n1 + k, v, f);
      EnoughBefore(s, s1, root, virt, phys, len, n1, 0x1000 * (n1 + k + c));
      assert 0x1000 * (n1 + k + c) - 0x1000 * n1 == 0x1000 * (k + c);
    }
  }

  lemma RestFits(len: nat, k: nat, v: nat, f: nat)
    requires len % 0x1000 == 0 && 0x1000 * k < len
    ensures 0x1000 * Chunk(v, f, len - 0x1000 * k) <= len - 0x1000 * k
  {
    ChunkSize(v, f, len - 0x1000 * k);
  }

  lemma ShapeIs(s: State, sh: Shape)
    requires Inv(s, sh)
    ensures WellShaped(s.mem, sh)
  {
  }

  lemma LeafStarts(base: nat, k: nat)
    requires base % 0x1000 == 0
    ensures (base + 0x1000 * k) / 0x1000 == base / 0x1000 + k && (base + 0x1000 * k) % 0x1000 == 0
  {
  }

  lemma {:induction false} LoopStops(s: State, sh: Shape, root: nat, virt: nat, phys: nat, len: nat)
    requires Inv(s, sh) && IsRoot(sh, root) && phys + len <= 0x10_0000_0000_0000
    requires virt % 0x1000 == 0 && phys % 0x1000 == 0 && len % 0x1000 == 0
    ensures var o := MapLoop(s, root, virt, phys, len).1;
      o.Failed? ==> StopsAt(s, root, virt, phys, len, Progress(s, root, virt, phys, len), o.error)
    decreases len
  {
    hide MapChunk, MapLoop, Progress, Inv, Contained, Grows, LeafNeed, Spread, AllMapped, Need, Takes, Aside, Chunk,
         Bottom, StopsAt, Verdict, Reports;
    var o := MapLoop(s, root, virt, phys, len).1;
    if len < 0x1000 {
      NoProgress(s, root, virt, phys, len);
    } else if o.Failed? {
      var n1 := Chunk(virt, phys, len);
      ChunkFits(virt, phys, len);
      ProgressSplit(s, root, virt, phys, len, n1);
      LoopReaches(s, sh, root, virt, phys, len);
      var (s1, o1) := MapChunk(s, root, virt, phys, len);
      var sh1 := MapChunkOk(s, sh, root, virt, phys, len);
      ChunkNeeds(s, sh, root, virt, phys, len);
      ChunkReports(s, s1, root, virt / 0x1000, n1, len / 0x1000, phys / 0x1000, o1);
      if o1.Failed? {
        StopsFirst(s, s1, root, virt, phys, len, o1);
      } else {
        ChunkKeeps(s, sh, s1, sh1, root, virt / 0x1000, n1);
        LoopStops(s1, sh1, root, virt + 0x1000 * n1, phys + 0x1000 * n1, len - 0x1000 * n1);
        LoopReaches(s1, sh1, root, virt + 0x1000 * n1, phys + 0x1000 * n1, len - 0x1000 * n1);
        var k := Progress(s1, root, virt + 0x1000 * n1, phys + 0x1000 * n1, len - 0x1000 * n1);
        StopsLater(s, s1, sh1, root, virt, phys, len, n1, k, o.error);
      }
    }
  }

  lemma StopsFirst(s: State, s1: State, root: nat, virt: nat, phys: nat, len: nat, o: Outcome)
    requires len >= 0x1000 && o.Failed? && Verdict(s.mem, root, PageOf(virt), phys / 0x1000, Bottom(virt, phys, len), o)
    requires Takes(s, s1, root, LeafNeed(s.mem, root, PageOf(virt), Bottom(virt, phys, len)), o)
    ensures StopsAt(s, root, virt, phys, len, 0, o.error)
  {
    hide LeafNeed, Need, Obstacle, PageOf, Takes, Enough;
    ChunkSize(virt, phys, len);
    var less := 0x1000 * Chunk(virt, phys, len);
    SameChunk(virt, phys, len, less);
    if o.error == OutOfTablePages {
      ShortFor(s, s1, root, virt, phys, less, o);
    }
  }
}
