/** Court address spaces: clones of the kernel root with a lower half of their own. */
module AddressSpaces {
  import opened MachineWords
  import opened PageTables
  import opened PageMapper
  import opened MapperProofs
  import opened MapPages
  import opened MapVerdicts
  import opened MapProgress
  import opened MapTheorems

  // ----- cloning -----

  /** Frame number 0 stands for a kernel root that was never published. */
  function CloneKernel(s: State, kernel: nat): (State, Result<nat>) {
    if kernel == 0 then (s, Err(NotPublished)) else
    var (s1, root) := AllocTable(s);
    if root.Err? then (s1, root)
    else (s1.(mem := s1.mem[root.value := Copy(s1.mem, kernel)]), root)
  }

  function Copy(m: Mem, frame: nat): (f: Frame)
    ensures forall i | 0 <= i < 512 :: f[i] == At(m, frame, i)
  {
    seq(512, i requires 0 <= i < 512 => At(m, frame, i))
  }

  ghost predicate LowEmpty(m: Mem, root: nat) {
    forall i | 0 <= i < 256 :: !Present(At(m, root, i))
  }

  /** No two roots share a slot of the lower half. */
  ghost predicate LowPrivate(m: Mem, sh: Shape) {
    forall a, b, i | IsRoot(sh, a) && IsRoot(sh, b) && a != b && 0 <= i < 256 :: !SharedSlot(m, a, b, i)
  }

  /** A clone translates every page as the kernel does and shares with every root the
      tables the kernel shares with it; no other root changes. A clone of a root with
      an empty lower half has an empty lower half, and shares none of it. */
  lemma CloneOk(s: State, sh: Shape, kernel: nat) returns (sh': Shape)
    requires Inv(s, sh) && IsRoot(sh, kernel)
    ensures var (s', r) := CloneKernel(s, kernel);
      && Inv(s', sh') && Grows(s, sh, s', sh') && SameWalks(s.mem, s'.mem, sh)
      && (forall t | t in sh :: t in s.mem && t in s'.mem && s'.mem[t] == s.mem[t])
      && (if r.Err? then s' == s && Exhausted(s') && sh' == sh
          else
            && sh' == sh[r.value := Node(4, 0, r.value)] && r.value !in sh
            && CloneOf(s.mem, kernel, s'.mem, sh, r.value))
      && (LowPrivate(s.mem, sh) && LowEmpty(s.mem, kernel) ==> LowPrivate(s'.mem, sh'))
  {
    var (s', r) := CloneKernel(s, kernel);
    if r.Err? {
      sh' := sh;
    } else {
      sh' := sh[r.value := Node(4, 0, r.value)];
      CloneIs(s, sh, kernel);
      CloneShape(s, sh, kernel, s', r.value);
      CloneWalks(s, sh, kernel, s', r.value);
      hide Inv, Grows, SameWalks, CloneKernel, Walk;
      CloneSharing(s, sh, kernel, s', r.value);
    }
  }

  /** Root `root` in `m'` is a clone of what `kernel` was in `m`. */
  ghost predicate CloneOf(m: Mem, kernel: nat, m': Mem, sh: Shape, root: nat) {
    && (forall v :: Translate(m', root, v) == Translate(m, kernel, v))
    && (LowEmpty(m, kernel) ==> LowEmpty(m', root))
    && forall r, i | IsRoot(sh, r) && 0 <= i < 512 ::
         SharedSlot(m', root, r, i) <==> Present(At(m, kernel, i)) && SharedSlot(m, kernel, r, i)
  }

  lemma CloneSharing(s: State, sh: Shape, kernel: nat, s': State, root: nat)
    requires Tables(s, sh) && IsRoot(sh, kernel) && Cloned(s, kernel, s', root) && root !in sh
    ensures forall r, i | IsRoot(sh, r) && 0 <= i < 512 ::
      SharedSlot(s'.mem, root, r, i) <==> Present(At(s.mem, kernel, i)) && SharedSlot(s.mem, kernel, r, i)
    ensures LowPrivate(s.mem, sh) && LowEmpty(s.mem, kernel) ==> LowPrivate(s'.mem, sh[root := Node(4, 0, root)])
  {
    hide Present, PhysFrame;
    assert forall r, i | IsRoot(sh, r) && 0 <= i < 512 ::
      At(s'.mem, r, i) == At(s.mem, r, i) && At(s'.mem, root, i) == At(s.mem, kernel, i);
    hide WellShaped, Cloned;
    var sh' := sh[root := Node(4, 0, root)];
    if LowPrivate(s.mem, sh) && LowEmpty(s.mem, kernel) {
      forall a, b, i | IsRoot(sh', a) && IsRoot(sh', b) && a != b && 0 <= i < 256
        ensures !SharedSlot(s'.mem, a, b, i)
      {
        if a != root && b != root {
          assert IsRoot(sh, a) && IsRoot(sh, b) && !SharedSlot(s.mem, a, b, i);
        }
      }
    }
  }

  ghost predicate Cloned(s: State, kernel: nat, s': State, root: nat) {
    && s.cursor == 0x1000 * root && s'.cursor == s.cursor + 0x1000 <= s.end
    && s'.end == s.end && s'.tables == s.tables + 1
    && kernel != root && s'.mem == s.mem[root := Copy(s.mem, kernel)]
  }

  lemma CloneIs(s: State, sh: Shape, kernel: nat)
    requires Inv(s, sh) && IsRoot(sh, kernel) && CloneKernel(s, kernel).1.Ok?
    ensures var (s', r) := CloneKernel(s, kernel); Cloned(s, kernel, s', r.value)
  {
    var (s1, root) := AllocTable(s);
    assert Copy(s1.mem, kernel) == Copy(s.mem, kernel);
  }

  lemma CloneShape(s: State, sh: Shape, kernel: nat, s': State, root: nat)
    requires Inv(s, sh) && IsRoot(sh, kernel) && Cloned(s, kernel, s', root)
    ensures root !in sh && (LowEmpty(s.mem, kernel) ==> LowEmpty(s'.mem, root))
    ensures var sh' := sh[root := Node(4, 0, root)]; Inv(s', sh') && Grows(s, sh, s', sh')
  {
    hide Present, Huge, PhysFrame;
    var sh' := sh[root := Node(4, 0, root)];
    forall x, j | x in sh' && 0 <= j < 512
      ensures SlotOk(s'.mem, sh', x, j)
    {
      assert SlotOk(s.mem, sh, if x in sh then x else kernel, j);
    }
    forall x | x in sh' && sh'[x].level == 1
      ensures exists j :: 0 <= j < 512 && Present(At(s'.mem, x, j))
    {
      var j :| 0 <= j < 512 && Present(At(s.mem, x, j));
      assert Present(At(s'.mem, x, j));
    }
  }

  lemma CloneWalks(s: State, sh: Shape, kernel: nat, s': State, root: nat)
    requires Inv(s, sh) && IsRoot(sh, kernel) && Cloned(s, kernel, s', root) && root !in sh
    ensures SameWalks(s.mem, s'.mem, sh)
    ensures forall v :: Translate(s'.mem, root, v) == Translate(s.mem, kernel, v)
  {
    hide Present, Huge, PhysFrame, Index;
    forall x, v | x in sh && 1 <= sh[x].level <= 4
      ensures Walk(s'.mem, x, sh[x].level, v) == Walk(s.mem, x, sh[x].level, v)
    {
      WalkReadsTables(s.mem, s'.mem, sh, x, v);
    }
    forall v
      ensures Translate(s'.mem, root, v) == Translate(s.mem, kernel, v)
    {
      var e := At(s.mem, kernel, Index(v, 4));
      assert At(s'.mem, root, Index(v, 4)) == e;
      assert SlotOk(s.mem, sh, kernel, Index(v, 4));
    }
  }

  // ----- mapping into one space -----

  function SpaceMap(s: State, root: nat, virt: nat, phys: nat, len: nat): (State, Outcome)
    requires phys + len <= 0x10_0000_0000_0000
  {
    if virt >= 0x8000_0000_0000 then (s, Failed(NotLowerHalf))
    else MapRange(s, root, virt, phys, len)
  }

  lemma SpaceMapOk(s: State, sh: Shape, root: nat, virt: nat, phys: nat, len: nat) returns (sh': Shape)
    requires Inv(s, sh) && IsRoot(sh, root) && phys + len <= 0x10_0000_0000_0000
    ensures var (s', o) := SpaceMap(s, root, virt, phys, len);
      && Contained(s, sh, s', sh', root, virt / 0x1000, len / 0x1000)
      && (o.Done? ==> AllMapped(s'.mem, root, virt / 0x1000, len / 0x1000, phys / 0x1000))
      && (o.Done? ==> virt % 0x1000 == 0 && phys % 0x1000 == 0 && virt < 0x8000_0000_0000)
      && (o.Done? ==> BytesMapped(s'.mem, root, virt, phys, len / 0x1000 * 0x1000))
      && (virt >= 0x8000_0000_0000 ==> o == Failed(NotLowerHalf))
      && (virt < 0x8000_0000_0000 && (virt % 0x1000 != 0 || phys % 0x1000 != 0) ==> o == Failed(NotAligned))
      && (virt < 0x8000_0000_0000 && virt % 0x1000 == 0 && phys % 0x1000 == 0 && o.Failed? ==>
            Trouble(s, s', root, virt, phys, len, o.error))
  {
    hide MapLoop, Contained, AllMapped, BytesMapped, Trouble;
    if virt >= 0x8000_0000_0000 {
      sh' := sh;
      ContainedRefl(s, sh, root, virt / 0x1000, len / 0x1000);
    } else {
      sh' := MapRangeMaps(s, sh, root, virt, phys, len);
    }
  }

  datatype AnyCall = Call(root: nat, virt: nat, phys: nat, len: nat)

  /** A call on physical memory that exists: addresses have at most 52 bits. */
  type Call = c: AnyCall | c.phys + c.len <= 0x10_0000_0000_0000 witness Call(0, 0, 0, 0)

  /** A call whose range lies wholly below 2^47, on an existing root. */
  ghost predicate LowerCall(sh: Shape, c: Call) {
    IsRoot(sh, c.root) && c.virt + c.len <= 0x8000_0000_0000
  }

  /** The calls one after the other, whatever each of them returns. */
  function RunCalls(s: State, calls: seq<Call>): State
    decreases |calls|
  {
    if calls == [] then s
    else
      RunCalls(Apply(s, calls[0]).0, calls[1..])
  }

  /** The pages of the range that a call maps, or finds mapped as asked. */
  function PagesMapped(s: State, c: Call): nat {
    if c.virt >= 0x8000_0000_0000 || c.virt % 0x1000 != 0 || c.phys % 0x1000 != 0 then 0
    else Progress(s, c.root, c.virt, c.phys, c.len / 0x1000 * 0x1000)
  }

  function Apply(s: State, c: Call): (State, Outcome) {
    SpaceMap(s, c.root, c.virt, c.phys, c.len)
  }

  /** `k` pages are as far as the call can be carried through, told from the tables
      before it. */
  ghost predicate Farthest(s: State, c: Call, k: nat) {
    if c.virt >= 0x8000_0000_0000 || c.virt % 0x1000 != 0 || c.phys % 0x1000 != 0 then k == 0
    else
      var len := c.len / 0x1000 * 0x1000;
      && Boundary(c.virt, c.phys, len, k)
      && forall j: nat | Boundary(c.virt, c.phys, len, j) :: j <= k <==> CanMap(s, c.root, c.virt, c.phys, 0x1000 * j)
  }

  /** The outcome of a call says how far it got: to the end, nowhere, or to a page that
      could not be mapped. */
  ghost predicate Ends(s: State, c: Call, s': State, k: nat, o: Outcome) {
    match o
    case Done => k == c.len / 0x1000
    case Failed(e) =>
      if c.virt >= 0x8000_0000_0000 then e == NotLowerHalf && k == 0
      else if c.virt % 0x1000 != 0 || c.phys % 0x1000 != 0 then e == NotAligned && k == 0
      else Stops(s, c.root, c.virt, c.phys, c.len / 0x1000 * 0x1000, k, e) && (e == OutOfTablePages ==> Exhausted(s'))
  }

  lemma ApplyOk(s: State, sh: Shape, c: Call) returns (sh': Shape)
    requires Inv(s, sh) && IsRoot(sh, c.root)
    ensures var (s', o) := Apply(s, c); var k := PagesMapped(s, c);
      && Inv(s', sh') && Extends(s, sh, s', sh') && OtherRoots(s.mem, s'.mem, sh, c.root)
      && Spread(s.mem, s'.mem, sh, c.root, c.virt / 0x1000, k)
      && AllMapped(s'.mem, c.root, c.virt / 0x1000, k, c.phys / 0x1000)
      && Ends(s, c, s', k, o) && Farthest(s, c, k) && SameRoots(sh, sh')
  {
    hide MapLoop, Progress, AllMapped, BytesMapped, Trouble, Inv, Spread, OtherRoots, Stops, Grows, Farthest;
    FarthestIs(s, sh, c);
    sh' := SpaceMapOk(s, sh, c.root, c.virt, c.phys, c.len);
    if c.virt >= 0x8000_0000_0000 || c.virt % 0x1000 != 0 || c.phys % 0x1000 != 0 {
      ReachedStart(s, sh, c.root, c.virt / 0x1000, c.phys / 0x1000);
    } else {
      LoopReaches(s, sh, c.root, c.virt, c.phys, c.len / 0x1000 * 0x1000);
      if Apply(s, c).1.Failed? {
        LoopTrouble(s, sh, c.root, c.virt, c.phys, c.len / 0x1000 * 0x1000);
      }
    }
    ExtendsIs(s, sh, Apply(s, c).0, sh');
  }

  lemma FarthestIs(s: State, sh: Shape, c: Call)
    requires Inv(s, sh) && IsRoot(sh, c.root)
    ensures Farthest(s, c, PagesMapped(s, c))
  {
    hide Inv, Progress, Boundary, CanMap;
    if !(c.virt >= 0x8000_0000_0000 || c.virt % 0x1000 != 0 || c.phys % 0x1000 != 0) {
      var len := c.len / 0x1000 * 0x1000;
      ProgressBoundary(s, c.root, c.virt, c.phys, len);
      forall j: nat | Boundary(c.virt, c.phys, len, j)
        ensures j <= PagesMapped(s, c) <==> CanMap(s, c.root, c.virt, c.phys, 0x1000 * j)
      {
        ProgressExactly(s, sh, c.root, c.virt, c.phys, len, j);
      }
    }
  }

  lemma ExtendsIs(s: State, sh: Shape, s': State, sh': Shape)
    requires Grows(s, sh, s', sh')
    ensures Extends(s, sh, s', sh')
  {
  }

  /** What one call does to the translation of any page by any root, whatever the call
      returns. It changes exactly when the call got to the page, the root holds the same
      table as the called root in the page's slot, and the page was not mapped there. */
  lemma CallExactly(s: State, sh: Shape, c: Call, r: nat, v: nat)
    requires Inv(s, sh) && IsRoot(sh, c.root) && IsRoot(sh, r) && v < 0x10_0000_0000
    ensures var (s', o) := Apply(s, c); var k := PagesMapped(s, c); var p := c.virt / 0x1000;
      && Ends(s, c, s', k, o) && Farthest(s, c, k)
      && var reached := InRange(v, p, k) && SharedSlot(s.mem, c.root, r, Index(v, 4));
      && (Translate(s'.mem, r, v) != Translate(s.mem, r, v) <==> reached && Translate(s.mem, r, v).None?)
      && (reached ==> Translate(s'.mem, r, v) == Some(c.phys / 0x1000 + Offset(v, p)))
  {
    hide Apply, PagesMapped, Ends, Farthest, Inv, Extends, Offset, Walk, SharedSlot, SharingSame, OtherRoots;
    var s', k := Apply(s, c).0, PagesMapped(s, c);
    var sh' := ApplyOk(s, sh, c);
    assert Translate(s'.mem, r, v) == if InRange(v, c.virt / 0x1000, k)
      && SharedSlot(s.mem, c.root, r, Index(v, 4)) then Translate(s'.mem, c.root, v) else Translate(s.mem, r, v);
    if Translate(s.mem, r, v).Some? {
      TranslationsPersist(s, sh, s', sh', r, v);
    }
  }

  // ----- any number of calls -----

  /** No call changes which roots share a slot. */
  lemma SharingKept(m: Mem, m': Mem, sh: Shape, root: nat, a: nat, b: nat, i: nat)
    requires WellShaped(m, sh) && IsRoot(sh, a) && IsRoot(sh, b) && IsRoot(sh, root) && i < 512
    requires OtherRoots(m, m', sh, root) && SharingSame(m, m', sh, root)
    ensures SharedSlot(m', a, b, i) == SharedSlot(m, a, b, i)
  {
    hide Present, PhysFrame;
    if a != root && b != root {
      assert At(m', a, i) == At(m, a, i) && At(m', b, i) == At(m, b, i);
    } else {
      assert SharedSlot(m', root, a, i) == SharedSlot(m, root, a, i)
        && SharedSlot(m', root, b, i) == SharedSlot(m, root, b, i);
    }
  }

  /** Call `j` of a run gets to page `v` of a slot that its root shares with `r`. */
  ghost predicate Hits(s: State, calls: seq<Call>, j: nat, r: nat, v: nat)
    requires j < |calls|
  {
    && InRange(v, calls[j].virt / 0x1000, PagesMapped(RunCalls(s, calls[..j]), calls[j]))
    && SharedSlot(s.mem, calls[j].root, r, Index(v, 4))
  }

  lemma HitsLater(s: State, sh: Shape, calls: seq<Call>, j: nat, r: nat, v: nat)
    requires Inv(s, sh) && IsRoot(sh, r) && (forall i | 0 <= i < |calls| :: IsRoot(sh, calls[i].root))
    requires 0 < j < |calls|
    ensures Hits(Apply(s, calls[0]).0, calls[1..], j - 1, r, v) == Hits(s, calls, j, r, v)
  {
    hide Inv, PagesMapped, InRange, SharedSlot, OtherRoots;
    var c, s1 := calls[0], Apply(s, calls[0]).0;
    var sh1 := ApplyOk(s, sh, c);
    assert WellShaped(s.mem, sh) by { ShapeIs(s, sh); }
    SharingKept(s.mem, s1.mem, sh, c.root, calls[j].root, r, Index(v, 4));
    assert calls[..j][1..] == calls[1..][..j - 1];
  }

  /** Call `j` is the first of a run to hit page `v` for `r`. */
  ghost predicate FirstToHit(s: State, calls: seq<Call>, j: nat, r: nat, v: nat) {
    j < |calls| && Hits(s, calls, j, r, v) && forall i | 0 <= i < j :: !Hits(s, calls, i, r, v)
  }

  /** Over any run, on any roots, a translation changes exactly when the page was not
      mapped and some call got to it in a slot shared with the root it was made on. It
      then leads to the frame that the first such call asked for. */
  lemma {:induction false} RunExactly(s: State, sh: Shape, calls: seq<Call>, r: nat, v: nat)
    requires Inv(s, sh) && IsRoot(sh, r) && v < 0x10_0000_0000
    requires forall i | 0 <= i < |calls| :: IsRoot(sh, calls[i].root)
    ensures Translate(RunCalls(s, calls).mem, r, v) != Translate(s.mem, r, v) <==>
      Translate(s.mem, r, v).None? && exists j :: 0 <= j < |calls| && Hits(s, calls, j, r, v)
    ensures forall j: nat | Translate(s.mem, r, v).None? && FirstToHit(s, calls, j, r, v) ::
      Translate(RunCalls(s, calls).mem, r, v) == Some(calls[j].phys / 0x1000 + Offset(v, calls[j].virt / 0x1000))
    decreases |calls|
  {
    hide Apply, Inv, PagesMapped, Walk, Hits, Ends, Farthest, Offset, Spread, AllMapped;
    if calls != [] {
      var c, s1, rest := calls[0], Apply(s, calls[0]).0, calls[1..];
      var sh1 := ApplyOk(s, sh, c);
      assert forall i | 0 <= i < |rest| :: IsRoot(sh, calls[i + 1].root) && IsRoot(sh1, rest[i].root);
      RunExactly(s1, sh1, rest, r, v);
      CallExactly(s, sh, c, r, v);
      FirstHit(s, calls, r, v);
      forall j | 0 < j < |calls|
        ensures Hits(s1, rest, j - 1, r, v) == Hits(s, calls, j, r, v)
      {
        HitsLater(s, sh, calls, j, r, v);
      }
      if j :| 0 <= j < |rest| && Hits(s1, rest, j, r, v) {
        assert Hits(s, calls, j + 1, r, v);
      }
      RunFirst(s, calls);
      forall j: nat | Translate(s.mem, r, v).None? && FirstToHit(s, calls, j, r, v)
        ensures Translate(RunCalls(s, calls).mem, r, v) ==
          Some(calls[j].phys / 0x1000 + Offset(v, calls[j].virt / 0x1000))
      {
        FirstFrame(s, sh, calls, s1, sh1, j, r, v);
      }
    }
  }

  /** The frame of the first hit, from what the rest of the run does. */
  lemma FirstFrame(s: State, sh: Shape, calls: seq<Call>, s1: State, sh1: Shape, j: nat, r: nat, v: nat)
    requires Inv(s, sh) && IsRoot(sh, r) && v < 0x10_0000_0000 && calls != [] && Translate(s.mem, r, v).None?
    requires forall i | 0 <= i < |calls| :: IsRoot(sh, calls[i].root) && (i > 0 ==> IsRoot(sh1, calls[i].root))
    requires s1 == Apply(s, calls[0]).0 && Inv(s1, sh1) && Extends(s, sh, s1, sh1) && FirstToHit(s, calls, j, r, v)
    requires Translate(RunCalls(s1, calls[1..]).mem, r, v) != Translate(s1.mem, r, v) ==> Translate(s1.mem, r, v).None?
    requires forall i: nat | Translate(s1.mem, r, v).None? && FirstToHit(s1, calls[1..], i, r, v) ::
      Translate(RunCalls(s1, calls[1..]).mem, r, v) ==
        Some(calls[1..][i].phys / 0x1000 + Offset(v, calls[1..][i].virt / 0x1000))
    ensures Translate(RunCalls(s, calls).mem, r, v) == Some(calls[j].phys / 0x1000 + Offset(v, calls[j].virt / 0x1000))
  {
    hide Apply, Inv, PagesMapped, Walk, Hits, Ends, Farthest, Offset, RunCalls;
    RunFirst(s, calls);
    FirstHit(s, calls, r, v);
    CallExactly(s, sh, calls[0], r, v);
    if j > 0 {
      forall i | 0 < i <= j
        ensures Hits(s1, calls[1..], i - 1, r, v) == Hits(s, calls, i, r, v)
      {
        HitsLater(s, sh, calls, i, r, v);
      }
      assert !Hits(s, calls, 0, r, v);
      FirstShift(s, calls, s1, j, r, v);
    }
  }

  lemma FirstShift(s: State, calls: seq<Call>, s1: State, j: nat, r: nat, v: nat)
    requires 0 < j && FirstToHit(s, calls, j, r, v)
    requires forall i | 0 < i <= j :: Hits(s1, calls[1..], i - 1, r, v) == Hits(s, calls, i, r, v)
    ensures FirstToHit(s1, calls[1..], j - 1, r, v)
  {
    hide Hits;
    forall i | 0 <= i < j - 1
      ensures !Hits(s1, calls[1..], i, r, v)
    {
      assert Hits(s1, calls[1..], i + 1 - 1, r, v) == Hits(s, calls, i + 1, r, v);
    }
  }

  lemma FirstHit(s: State, calls: seq<Call>, r: nat, v: nat)
    requires calls != []
    ensures Hits(s, calls, 0, r, v) <==>
      InRange(v, calls[0].virt / 0x1000, PagesMapped(s, calls[0])) && SharedSlot(s.mem, calls[0].root, r, Index(v, 4))
  {
    hide PagesMapped, SharedSlot, InRange;
    assert RunCalls(s, calls[..0]) == s;
  }

  lemma RunFirst(s: State, calls: seq<Call>)
    requires calls != []
    ensures RunCalls(s, calls) == RunCalls(Apply(s, calls[0]).0, calls[1..])
  {
  }

  /** Any sequence of lower-half calls changes no translation of a root that none of
      them names: not of the kernel and not of another court, although all of them
      share the tables of the upper half. */
  lemma CallsIsolated(s: State, sh: Shape, calls: seq<Call>, r: nat, v: nat)
    requires Inv(s, sh) && LowPrivate(s.mem, sh) && IsRoot(sh, r) && v < 0x10_0000_0000
    requires forall i | 0 <= i < |calls| :: LowerCall(sh, calls[i]) && calls[i].root != r
    ensures Translate(RunCalls(s, calls).mem, r, v) == Translate(s.mem, r, v)
  {
    hide Inv, RunCalls, Walk, PagesMapped, SharedSlot, Offset;
    RunExactly(s, sh, calls, r, v);
    forall j | 0 <= j < |calls|
      ensures !Hits(s, calls, j, r, v)
    {
      LowerHit(s, sh, calls, j, r, v);
      UpperIndex(v);
    }
  }

  /** A lower-half call only gets to pages of the lower half. */
  lemma LowerHit(s: State, sh: Shape, calls: seq<Call>, j: nat, r: nat, v: nat)
    requires Inv(s, sh) && v < 0x10_0000_0000 && j < |calls|
    requires forall i | 0 <= i < |calls| :: LowerCall(sh, calls[i])
    ensures Hits(s, calls, j, r, v) ==> v < 0x8_0000_0000
  {
    hide Inv, Walk, SharedSlot, Offset, PagesMapped, Apply, RunCalls, Extends;
    var before := calls[..j];
    assert forall i | 0 <= i < |before| :: LowerCall(sh, calls[i]) && IsRoot(sh, before[i].root);
    var sh1 := RunKeeps(s, sh, before);
    var c := calls[j];
    assert IsRoot(sh1, c.root) by { RootKept(s, sh, RunCalls(s, before), sh1, c.root); }
    NoFurther(RunCalls(s, before), sh1, c);
    OffsetIs(v, c.virt / 0x1000);
    LowPages(c.virt, c.len);
  }

  lemma RootKept(s: State, sh: Shape, s': State, sh': Shape, root: nat)
    requires Extends(s, sh, s', sh') && IsRoot(sh, root)
    ensures IsRoot(sh', root)
  {
  }

  /** A call gets no further than its range. */
  lemma NoFurther(s: State, sh: Shape, c: Call)
    requires Inv(s, sh) && IsRoot(sh, c.root)
    ensures PagesMapped(s, c) <= c.len / 0x1000
  {
    hide Inv, Apply, Farthest, Spread, AllMapped, OtherRoots, Extends, PagesMapped, StopsAt, CanMap, Boundary;
    var sh' := ApplyOk(s, sh, c);
  }

  lemma LowPages(virt: nat, len: nat)
    requires virt + len <= 0x8000_0000_0000
    ensures virt / 0x1000 + len / 0x1000 <= 0x8_0000_0000
  {
  }

  lemma {:induction false} RunKeeps(s: State, sh: Shape, calls: seq<Call>) returns (sh': Shape)
    requires Inv(s, sh) && forall i | 0 <= i < |calls| :: IsRoot(sh, calls[i].root)
    ensures Inv(RunCalls(s, calls), sh') && Extends(s, sh, RunCalls(s, calls), sh')
    decreases |calls|
  {
    hide Apply, Inv, PagesMapped, Ends, Farthest, Spread, AllMapped, OtherRoots;
    if calls == [] {
      sh' := sh;
    } else {
      var s1 := Apply(s, calls[0]).0;
      var sh1 := ApplyOk(s, sh, calls[0]);
      assert forall i | 0 <= i < |calls| - 1 :: IsRoot(sh, calls[i + 1].root) && IsRoot(sh1, calls[1..][i].root);
      sh' := RunKeeps(s1, sh1, calls[1..]);
      RunFirst(s, calls);
      ExtendsTrans(s, sh, s1, sh1, RunCalls(s, calls), sh');
    }
  }

  /** The same calls leave the upper half of every root as it was, also of the
      roots they map into. */
  lemma CallsKeepUpperHalf(s: State, sh: Shape, calls: seq<Call>, r: nat, v: nat)
    requires Inv(s, sh) && IsRoot(sh, r) && 0x8_0000_0000 <= v < 0x10_0000_0000
    requires forall i | 0 <= i < |calls| :: LowerCall(sh, calls[i])
    ensures Translate(RunCalls(s, calls).mem, r, v) == Translate(s.mem, r, v)
  {
    hide Inv, RunCalls, Walk, Hits;
    RunExactly(s, sh, calls, r, v);
    forall j | 0 <= j < |calls|
      ensures !Hits(s, calls, j, r, v)
    {
      LowerHit(s, sh, calls, j, r, v);
    }
  }
}
