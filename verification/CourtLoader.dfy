/** Loading a whole court image. */
module CourtLoader {
  import opened MachineWords
  import opened LittleEndian
  import opened ImageFormat
  import opened PageTables
  import opened PageMapper
  import opened MapperProofs
  import opened MapPages
  import MapRanges
  import opened MapTheorems
  import opened KernelMemory
  import opened PhysBytes
  import opened CourtImage

  // ----- what a loaded image guarantees -----

  /** Byte `k` of the segment is where the program expects it, to be read, written or
      executed there. */
  ghost predicate ByteLoaded(m: Mem, root: nat, image: seq<Byte>, seg: Segment, k: nat)
    requires seg.filesz > 0 ==> seg.offset + seg.filesz <= |image|
  {
    match TranslateAddr(m, root, seg.vaddr + k)
    case Some(pa) =>
      ByteAt(m, pa) == SegmentByte(image, seg, k) && AccessAt(m, root, seg.vaddr + k) == KERNEL_ACCESS
    case None => false
  }

  ghost predicate SegmentLoaded(m: Mem, root: nat, image: seq<Byte>, seg: Segment) {
    && (seg.filesz > 0 ==> seg.offset + seg.filesz <= |image|)
    && forall k | 0 <= k < seg.memsz :: ByteLoaded(m, root, image, seg, k)
  }

  ghost predicate PagesDisjoint(a: Segment, b: Segment) {
    forall v | 0 <= v < 0x10_0000_0000 ::
      !(InRange(v, a.FirstPage(), a.Pages()) && InRange(v, b.FirstPage(), b.Pages()))
  }

  /** Every placed segment is in memory, and no two share a page. */
  ghost predicate ImageLoaded(m: Mem, root: nat, image: seq<Byte>)
    requires HasSegments(image)
  {
    && (forall i: nat | i < SegmentCount(image) && SegmentAt(image, i).Placed() ::
         SegmentLoaded(m, root, image, SegmentAt(image, i)))
    && (forall i: nat, j: nat | i < j < SegmentCount(image) && SegmentAt(image, i).Placed()
         && SegmentAt(image, j).Placed() ::
          PagesDisjoint(SegmentAt(image, i), SegmentAt(image, j)))
  }

  /** Every placed segment ends at or below 2^47. */
  ghost predicate ImageLow(image: seq<Byte>) {
    HasSegments(image) ==>
      forall i: nat | i < SegmentCount(image) && SegmentAt(image, i).Placed() ::
        SegmentAt(image, i).vaddr + SegmentAt(image, i).memsz <= 0x8000_0000_0000
  }

  lemma SegmentReadable(s: State, sh: Shape, root: nat, image: seq<Byte>, seg: Segment, f: nat)
    requires SegmentIn(s, sh, root, image, seg, f) && seg.Pages() <= 0x10_0000_0000
    ensures SegmentLoaded(s.mem, root, image, seg)
  {
    hide ByteAt, Walk, WalkAccess, Offset, PageOf, SegmentByte, Segment.Pages;
    forall k | 0 <= k < seg.memsz
      ensures ByteLoaded(s.mem, root, image, seg, k)
    {
      var page := (seg.PageOff() + k) / 0x1000;
      SegmentPage(seg, k);
      MapRanges.OffsetOf(seg.FirstPage(), page);
      var v := PageOf(seg.vaddr + k);
      assert InRange(v, seg.FirstPage(), seg.Pages());
      assert Translate(s.mem, root, v) == Some(f + page);
      assert TranslateAddr(s.mem, root, seg.vaddr + k) == Some(SegmentAddr(seg, f, k));
    }
  }

  lemma SegmentPage(seg: Segment, k: nat)
    requires k < seg.memsz
    ensures var page := (seg.PageOff() + k) / 0x1000;
      && page < seg.Pages()
      && PageOf(seg.vaddr + k) == (seg.FirstPage() + page) % 0x10_0000_0000
      && forall f: nat :: (f + page) * 0x1000 + (seg.vaddr + k) % 0x1000 == SegmentAddr(seg, f, k)
  {
    var base := seg.vaddr - seg.PageOff();
    PageOfSum(base, seg.PageOff() + k);
    assert seg.vaddr + k == base + (seg.PageOff() + k);
  }

  // ----- the loop over program headers -----

  /** The first `n` program headers have been processed: placed segment `i` is in
      the frames from `at[i]` on, later segments in later frames. */
  ghost predicate Processed(s: State, sh: Shape, root: nat, image: seq<Byte>, at: seq<nat>)
    requires HasSegments(image) && |at| <= SegmentCount(image)
  {
    && (forall i: nat | i < |at| && SegmentAt(image, i).Placed() ::
          SegmentIn(s, sh, root, image, SegmentAt(image, i), at[i]) && SegmentAt(image, i).Pages() < 0x1000)
    && (forall i: nat, j: nat | i < j < |at| && SegmentAt(image, i).Placed() && SegmentAt(image, j).Placed() ::
          at[i] + SegmentAt(image, i).Pages() <= at[j])
  }

  lemma ProcessedLoaded(s: State, sh: Shape, root: nat, image: seq<Byte>, at: seq<nat>)
    requires HasSegments(image) && |at| == SegmentCount(image) && Processed(s, sh, root, image, at)
    ensures ImageLoaded(s.mem, root, image)
  {
    hide SegmentIn, SegmentLoaded, SegmentAt, Segment.Pages;
    forall i: nat | i < SegmentCount(image) && SegmentAt(image, i).Placed()
      ensures SegmentLoaded(s.mem, root, image, SegmentAt(image, i))
    {
      SegmentReadable(s, sh, root, image, SegmentAt(image, i), at[i]);
    }
    forall i: nat, j: nat | i < j < SegmentCount(image) && SegmentAt(image, i).Placed() && SegmentAt(image, j).Placed()
      ensures PagesDisjoint(SegmentAt(image, i), SegmentAt(image, j))
    {
      SegmentsDisjoint(s, sh, root, image, SegmentAt(image, i), at[i], SegmentAt(image, j), at[j]);
    }
  }

  lemma ProcessedSkip(s: State, sh: Shape, root: nat, image: seq<Byte>, at: seq<nat>)
    requires HasSegments(image) && |at| < SegmentCount(image) && Processed(s, sh, root, image, at)
    requires !SegmentAt(image, |at|).Placed()
    ensures Processed(s, sh, root, image, at + [0])
  {
    hide SegmentIn, SegmentAt, Segment.Pages;
  }

  lemma ProcessedStep(s: State, sh: Shape, s': State, sh': Shape, root: nat, image: seq<Byte>, at: seq<nat>, f: nat)
    requires HasSegments(image) && |at| < SegmentCount(image) && Processed(s, sh, root, image, at)
    requires Inv(s, sh) && Extends(s, sh, s', sh') && IsRoot(sh, root)
    requires var seg := SegmentAt(image, |at|);
      seg.Pages() < 0x1000 && SegmentIn(s', sh', root, image, seg, f) && s.cursor <= 0x1000 * f
    ensures Processed(s', sh', root, image, at + [f])
  {
    hide SegmentIn, SegmentAt, Segment.Pages, Inv, Extends;
    forall i: nat | i < |at| && SegmentAt(image, i).Placed()
      ensures SegmentIn(s', sh', root, image, SegmentAt(image, i), at[i])
      ensures at[i] + SegmentAt(image, i).Pages() <= f
    {
      SegmentStays(s, sh, s', sh', root, image, SegmentAt(image, i), at[i]);
      SegmentBelow(s, sh, root, image, SegmentAt(image, i), at[i]);
    }
  }

  lemma ProcessedStays(s: State, sh: Shape, s': State, sh': Shape, root: nat, image: seq<Byte>, at: seq<nat>)
    requires HasSegments(image) && |at| <= SegmentCount(image) && Processed(s, sh, root, image, at)
    requires Inv(s, sh) && Extends(s, sh, s', sh') && IsRoot(sh, root)
    ensures Processed(s', sh', root, image, at)
  {
    hide SegmentIn, SegmentAt, Segment.Pages, Inv, Extends;
    forall i: nat | i < |at| && SegmentAt(image, i).Placed()
      ensures SegmentIn(s', sh', root, image, SegmentAt(image, i), at[i])
    {
      SegmentStays(s, sh, s', sh', root, image, SegmentAt(image, i), at[i]);
    }
  }

  lemma SegmentBelow(s: State, sh: Shape, root: nat, image: seq<Byte>, seg: Segment, f: nat)
    requires SegmentIn(s, sh, root, image, seg, f)
    ensures 0x1000 * (f + seg.Pages()) <= s.cursor
  {
  }

  /** What working on address space `root` leaves behind, whatever it returns; if
      it stays below 2^47 (`low`), no upper half changes. */
  ghost predicate Kept(s: State, sh: Shape, s': State, sh': Shape, root: nat, low: bool) {
    && Inv(s', sh') && Extends(s, sh, s', sh') && IsRoot(sh', root) && SameRoots(sh, sh')
    && Limited(s.mem, s'.mem, sh, root, low)
  }

  lemma KeptRefl(s: State, sh: Shape, root: nat, low: bool)
    requires Inv(s, sh) && IsRoot(sh, root)
    ensures Kept(s, sh, s, sh, root, low)
  {
    hide Extends, Limited;
    Unchanged(s, sh, root, low);
  }

  lemma LimitedLess(m: Mem, m': Mem, sh: Shape, root: nat, low: bool, less: bool)
    requires Limited(m, m', sh, root, low) && (less ==> low)
    ensures Limited(m, m', sh, root, less)
  {
    hide Isolated, UpperSame;
  }

  lemma KeptTrans(s: State, sh: Shape, s1: State, sh1: Shape, s2: State, sh2: Shape, root: nat, low: bool)
    requires Kept(s, sh, s1, sh1, root, low) && Kept(s1, sh1, s2, sh2, root, low)
    ensures Kept(s, sh, s2, sh2, root, low)
  {
    hide Inv, Limited;
    ExtendsTrans(s, sh, s1, sh1, s2, sh2);
    LimitedTrans(s.mem, s1.mem, s2.mem, sh, sh1, root, low);
  }

  /** The reach of a lower half and of the frame it shares. */
  ghost predicate Apart(s: State, sh: Shape, root: nat, lo: Bound, ring: nat) {
    Confined(s, sh, root, lo, ring) && lo.start <= s.cursor && 0x1000 * ring < s.cursor && ring !in sh
  }

  /** Loading stopped at segment `|at|`, for the reason given, with all before it in place. */
  ghost predicate StoppedAt(mid: State, shm: Shape, s': State, root: nat, image: seq<Byte>, at: seq<nat>, e: LoadError)
    requires HasSegments(image)
  {
    && |at| < SegmentCount(image) && SegmentAt(image, |at|).Placed() && Processed(mid, shm, root, image, at)
    && SegmentReports(mid, s', root, image, SegmentAt(image, |at|), Some(e))
  }

  /** Why loading an image ended as it did: the first complaint about the header, the
      first segment that could not be placed, or an entry point in no segment. */
  ghost predicate LoadReports(mid: State, shm: Shape, s': State, root: nat, image: seq<Byte>, at: seq<nat>,
                              r: LoadResult) {
    match CheckHeader(image)
    case Some(e) => r == NotLoaded(e)
    case None =>
      if r.Loaded? then r.entry == EntryOf(image)
      else (
        || StoppedAt(mid, shm, s', root, image, at, r.error)
        || (r.error == EntryNotLoaded && |at| == SegmentCount(image) && !InImage(image, EntryOf(image))))
  }

  lemma EntryMissed(image: seq<Byte>, entry: nat)
    requires HasSegments(image)
    requires forall i: nat | i < SegmentCount(image) && SegmentAt(image, i).Placed() ::
      !Covers(SegmentAt(image, i), entry)
    ensures !InImage(image, entry)
  {
    hide SegmentAt, SegmentCount;
  }

  /** From program header `i` on, each placed segment is loadable in its turn. */
  ghost predicate LoadableFrom(s: State, root: nat, image: seq<Byte>, i: nat)
    requires HasSegments(image) && i <= SegmentCount(image)
    decreases SegmentCount(image) - i
  {
    i < SegmentCount(image) ==>
      var seg := SegmentAt(image, i);
      if !seg.Placed() then LoadableFrom(s, root, image, i + 1)
      else Loadable(s, root, image, seg) && LoadableFrom(WithSegment(s, root, image, seg), root, image, i + 1)
  }

  /** An image can be loaded: its header is sound, its placed segments are loadable one
      after the other, and one of them covers the entry point. */
  ghost predicate ImageLoadable(s: State, root: nat, image: seq<Byte>) {
    SoundHeader(image) && HasSegments(image) && LoadableFrom(s, root, image, 0) && InImage(image, U64(image, 24))
  }

  lemma LoadableNext(s: State, root: nat, image: seq<Byte>, i: nat)
    requires HasSegments(image) && i < SegmentCount(image)
    ensures !SegmentAt(image, i).Placed() ==>
      (LoadableFrom(s, root, image, i) <==> LoadableFrom(s, root, image, i + 1))
    ensures SegmentAt(image, i).Placed() && !Loadable(s, root, image, SegmentAt(image, i)) ==>
      !LoadableFrom(s, root, image, i)
    ensures SegmentAt(image, i).Placed() && Loadable(s, root, image, SegmentAt(image, i)) ==>
      (LoadableFrom(s, root, image, i) <==>
        LoadableFrom(WithSegment(s, root, image, SegmentAt(image, i)), root, image, i + 1))
  {
    hide Loadable, WithSegment, SegmentAt, SegmentCount, HasSegments;
  }

  /** Loads every PT_LOAD segment of the image and returns its entry point. On the way
      from the state before to the state after lies `mid`, where a failed load stopped. */
  method Load(bump: BumpAllocator, mem: PhysMem, space: AddressSpace, image: seq<Byte>, ghost sh: Shape,
              ghost confined: bool, ghost lo: Bound, ghost ring: nat)
    returns (r: LoadResult, ghost sh': Shape, ghost at: seq<nat>, ghost mid: State, ghost shm: Shape)
    requires Inv(Snapshot(mem, bump, 0), sh) && IsRoot(sh, space.pml4)
    requires confined ==> Apart(Snapshot(mem, bump, 0), sh, space.pml4, lo, ring)
    modifies bump, mem
    ensures Kept(old(Snapshot(mem, bump, 0)), sh, Snapshot(mem, bump, 0), sh', space.pml4, ImageLow(image))
    ensures r.Loaded? ==> HasSegments(image) && ImageLoaded(mem.frames, space.pml4, image) && InImage(image, r.entry)
    ensures r.Loaded? ==> |at| == SegmentCount(image) && Processed(Snapshot(mem, bump, 0), sh', space.pml4, image, at)
    ensures r.Loaded? && confined ==> Apart(Snapshot(mem, bump, 0), sh', space.pml4, lo, ring)
    ensures Kept(old(Snapshot(mem, bump, 0)), sh, mid, shm, space.pml4, ImageLow(image))
    ensures Extends(mid, shm, Snapshot(mem, bump, 0), sh')
    ensures LoadReports(mid, shm, Snapshot(mem, bump, 0), space.pml4, image, at, r)
    ensures r.Loaded? <==> ImageLoadable(old(Snapshot(mem, bump, 0)), space.pml4, image)
  {
    hide Inv, Kept, Extends, ImageLoaded, Processed, ImageLow, Apart, SegmentAt, HasSegments, SegmentCount, CheckHeader,
         InImage, StoppedAt, LoadableFrom, SoundHeader, HeaderFault, U64;
    ghost var s := Snapshot(mem, bump, 0);
    sh', at, mid, shm := sh, [], s, sh;
    KeptRefl(s, sh, space.pml4, ImageLow(image));
    ExtendsRefl(s, sh);
    FormatExactly(image);
    var bad := CheckHeader(image);
    if bad.Some? {
      return NotLoaded(bad.value), sh', at, mid, shm;
    }
    EntryFits(image);
    var entry := EntryOf(image);
    var e, mapped;
    e, mapped, sh', at, mid, shm := LoadSegments(bump, mem, space, image, entry, sh, confined, lo, ring);
    if e.Some? {
      return NotLoaded(e.value), sh', at, mid, shm;
    }
    if !mapped {
      return NotLoaded(EntryNotLoaded), sh', at, mid, shm;
    }
    ProcessedLoaded(Snapshot(mem, bump, 0), sh', space.pml4, image, at);
    r := Loaded(entry);
  }

  /** The placed segments in order, up to the first that cannot be loaded, and whether one
      of them covers the entry point. */
  method LoadSegments(bump: BumpAllocator, mem: PhysMem, space: AddressSpace, image: seq<Byte>, entry: Word,
                      ghost sh: Shape, ghost confined: bool, ghost lo: Bound, ghost ring: nat)
    returns (e: Option<LoadError>, mapped: bool, ghost sh': Shape, ghost at: seq<nat>, ghost mid: State,
             ghost shm: Shape)
    requires HasSegments(image) && Inv(Snapshot(mem, bump, 0), sh) && IsRoot(sh, space.pml4)
    requires confined ==> Apart(Snapshot(mem, bump, 0), sh, space.pml4, lo, ring)
    modifies bump, mem
    ensures Kept(old(Snapshot(mem, bump, 0)), sh, Snapshot(mem, bump, 0), sh', space.pml4, ImageLow(image))
    ensures Kept(old(Snapshot(mem, bump, 0)), sh, mid, shm, space.pml4, ImageLow(image))
    ensures Extends(mid, shm, Snapshot(mem, bump, 0), sh')
    ensures e.None? <==> LoadableFrom(old(Snapshot(mem, bump, 0)), space.pml4, image, 0)
    ensures e.Some? ==> StoppedAt(mid, shm, Snapshot(mem, bump, 0), space.pml4, image, at, e.value)
    ensures e.None? ==>
      && |at| == SegmentCount(image) && Processed(Snapshot(mem, bump, 0), sh', space.pml4, image, at)
      && (confined ==> Apart(Snapshot(mem, bump, 0), sh', space.pml4, lo, ring)) && (mapped <==> InImage(image, entry))
  {
    hide Loadable, LoadableFrom, WithSegment, Inv, Kept, Extends, Processed, ImageLow, Apart, SegmentAt, HasSegments,
         SegmentCount, SegmentReports, InImage;
    ghost var s := Snapshot(mem, bump, 0);
    e, mapped, sh', at, mid, shm := None, false, sh, [], s, sh;
    KeptRefl(s, sh, space.pml4, ImageLow(image));
    ExtendsRefl(s, sh);
    NothingProcessed(s, sh, space.pml4, image);
    var index := 0;
    while index < SegmentCount(image)
      invariant 0 <= index == |at| <= SegmentCount(image)
      invariant Kept(s, sh, Snapshot(mem, bump, 0), sh', space.pml4, ImageLow(image))
      invariant Kept(s, sh, mid, shm, space.pml4, ImageLow(image)) && Extends(mid, shm, Snapshot(mem, bump, 0), sh')
      invariant Processed(Snapshot(mem, bump, 0), sh', space.pml4, image, at)
      invariant confined ==> Apart(Snapshot(mem, bump, 0), sh', space.pml4, lo, ring)
      invariant LoadableFrom(s, space.pml4, image, 0) <==>
        LoadableFrom(Snapshot(mem, bump, 0), space.pml4, image, index)
      invariant mapped ==> InImage(image, entry)
      invariant !mapped ==> forall i: nat | i < index && SegmentAt(image, i).Placed() ::
        !Covers(SegmentAt(image, i), entry)
    {
      ghost var s1, sh1 := Snapshot(mem, bump, 0), sh';
      mid, shm := s1, sh1;
      ExtendsRefl(s1, sh1);
      LoadableNext(s1, space.pml4, image, index);
      var seg := SegmentAt(image, index);
      if !seg.Placed() {
        ProcessedSkip(s1, sh1, space.pml4, image, at);
        at := at + [0];
      } else {
        ghost var f;
        e, sh', f := LoadNext(bump, mem, space, image, index, s, sh, sh1, at, confined, lo, ring);
        if e.Some? {
          return;
        }
        at := at + [f];
        if Covers(seg, entry) {
          CoversIn(image, index, entry);
          mapped := true;
        }
      }
      index := index + 1;
    }
    e := None;
    LoadableEnd(Snapshot(mem, bump, 0), space.pml4, image);
    if !mapped {
      EntryMissed(image, entry);
    }
  }

  lemma LoadableEnd(s: State, root: nat, image: seq<Byte>)
    requires HasSegments(image)
    ensures LoadableFrom(s, root, image, SegmentCount(image))
  {
  }

  lemma CoversIn(image: seq<Byte>, i: nat, va: nat)
    requires HasSegments(image) && i < SegmentCount(image) && SegmentAt(image, i).Placed()
    requires Covers(SegmentAt(image, i), va)
    ensures InImage(image, va)
  {
    hide SegmentAt, SegmentCount;
  }

  lemma NothingProcessed(s: State, sh: Shape, root: nat, image: seq<Byte>)
    requires HasSegments(image)
    ensures Processed(s, sh, root, image, [])
  {
  }

  /** One turn of the loop, for a placed segment. */
  method LoadNext(bump: BumpAllocator, mem: PhysMem, space: AddressSpace, image: seq<Byte>, index: nat, ghost s: State,
                  ghost sh: Shape, ghost sh1: Shape, ghost at: seq<nat>, ghost confined: bool, ghost lo: Bound,
                  ghost ring: nat)
    returns (e: Option<LoadError>, ghost sh': Shape, ghost f: nat)
    requires HasSegments(image) && index == |at| < SegmentCount(image) && SegmentAt(image, index).Placed()
    requires Kept(s, sh, Snapshot(mem, bump, 0), sh1, space.pml4, ImageLow(image))
    requires Processed(Snapshot(mem, bump, 0), sh1, space.pml4, image, at)
    requires confined ==> Apart(Snapshot(mem, bump, 0), sh1, space.pml4, lo, ring)
    modifies bump, mem
    ensures Kept(s, sh, Snapshot(mem, bump, 0), sh', space.pml4, ImageLow(image))
    ensures Extends(old(Snapshot(mem, bump, 0)), sh1, Snapshot(mem, bump, 0), sh')
    ensures e.None? ==> Processed(Snapshot(mem, bump, 0), sh', space.pml4, image, at + [f])
    ensures e.None? && confined ==> Apart(Snapshot(mem, bump, 0), sh', space.pml4, lo, ring)
    ensures SegmentReports(old(Snapshot(mem, bump, 0)), Snapshot(mem, bump, 0), space.pml4, image,
      SegmentAt(image, index), e)
    ensures e.None? <==> Loadable(old(Snapshot(mem, bump, 0)), space.pml4, image, SegmentAt(image, index))
    ensures e.None? ==>
      Snapshot(mem, bump, 0) == WithSegment(old(Snapshot(mem, bump, 0)), space.pml4, image, SegmentAt(image, index))
  {
    hide SegmentReports, Loadable, WithSegment;
    hide Inv, Extends, Limited, Processed, SegmentIn, Confined, SegmentAt, HasSegments, SegmentCount, Segment.Pages;
    ghost var s1 := Snapshot(mem, bump, 0);
    var seg := SegmentAt(image, index);
    e, sh', f := LoadSegment(bump, mem, space, image, seg, sh1, confined, lo, ring);
    ghost var s2 := Snapshot(mem, bump, 0);
    StillRoot(s1, sh1, s2, sh', space.pml4);
    LimitedLess(s1.mem, s2.mem, sh1, space.pml4, seg.vaddr + seg.memsz <= 0x8000_0000_0000, ImageLow(image));
    KeptTrans(s, sh, s1, sh1, s2, sh', space.pml4, ImageLow(image));
    ExtendsCursor(s1, sh1, s2, sh');
    if e.None? {
      ProcessedStep(s1, sh1, s2, sh', space.pml4, image, at, f);
    }
  }

  lemma StillRoot(s: State, sh: Shape, s': State, sh': Shape, root: nat)
    requires Extends(s, sh, s', sh') && IsRoot(sh, root)
    ensures IsRoot(sh', root)
  {
  }

  lemma ExtendsCursor(s: State, sh: Shape, s': State, sh': Shape)
    requires Extends(s, sh, s', sh')
    ensures s.cursor <= s'.cursor
  {
  }
}
