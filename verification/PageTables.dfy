/** Four-level x86-64 translation (Intel SDM volume 3A, section 4.5): the walk a
    processor performs, and the tree invariant the kernel's tables satisfy. */
module PageTables {
  import opened MachineWords
  import Arithmetic

  // ----- entries -----

  predicate Present(e: Word) { e % 2 == 1 }

  predicate Huge(e: Word) { e / 0x80 % 2 == 1 }

  predicate Writable(e: Word) { e / 2 % 2 == 1 }

  predicate UserMode(e: Word) { e / 4 % 2 == 1 }

  predicate NoExecute(e: Word) { e / 0x8000_0000_0000_0000 % 2 == 1 }


  /** The frame number held in bits 51..12. */
  function PhysFrame(e: Word): (f: nat)
    ensures f < 0x100_0000_0000
  {
    e / 0x1000 % 0x100_0000_0000
  }

  /** A frame number, the present and write bits, the huge bit or not, and no other flag. */
  predicate KernelEntry(e: Word) { e == PhysFrame(e) * 0x1000 + if Huge(e) then 0x83 else 3 }

  /** Such an entry lets the supervisor, and no one else, read, write and execute. */
  lemma KernelEntryAllows(e: Word)
    requires KernelEntry(e)
    ensures Present(e) && Writable(e) && !UserMode(e) && !NoExecute(e)
  {
    EntryFields(PhysFrame(e), if Huge(e) then 0x83 else 3);
  }

  function TableEntry(frame: nat): (e: Word)
    requires frame < 0x100_0000_0000
    ensures Present(e) && !Huge(e) && KernelEntry(e) && PhysFrame(e) == frame
  {
    EntryFields(frame, 3);
    frame * 0x1000 + 3
  }

  function HugeEntry(frame: nat): (e: Word)
    requires frame < 0x100_0000_0000
    ensures Present(e) && Huge(e) && KernelEntry(e) && PhysFrame(e) == frame
  {
    EntryFields(frame, 0x83);
    frame * 0x1000 + 0x83
  }

  /** The fields of an entry with flag bits `flags`. */
  lemma EntryFields(frame: nat, flags: nat)
    requires frame < 0x100_0000_0000 && flags < 0x1000
    ensures var e: Word := frame * 0x1000 + flags;
      && PhysFrame(e) == frame && e % 2 == flags % 2 && e / 2 % 2 == flags / 2 % 2 && e / 4 % 2 == flags / 4 % 2
      && e / 0x80 % 2 == flags / 0x80 % 2 && !NoExecute(e)
  {
    FrameField(frame, flags);
    EntryBit(frame, flags, 1, 0x800);
    EntryBit(frame, flags, 2, 0x400);
    EntryBit(frame, flags, 4, 0x200);
    EntryBit(frame, flags, 0x80, 0x10);
  }

  lemma FrameField(frame: nat, flags: nat)
    requires frame < 0x100_0000_0000 && flags < 0x1000
    ensures var e: Word := frame * 0x1000 + flags; PhysFrame(e) == frame && !NoExecute(e)
  {
    var e := frame * 0x1000 + flags;
    Arithmetic.Quotient(e, 0x1000, frame, flags);
    Arithmetic.Quotient(frame, 0x100_0000_0000, 0, frame);
    Arithmetic.Quotient(e, 0x8000_0000_0000_0000, 0, e);
  }

  /** The bit of weight `w` in the flags of an entry. */
  lemma EntryBit(frame: nat, flags: nat, w: nat, k: nat)
    requires w > 0 && 2 * w * k == 0x1000
    ensures (frame * 0x1000 + flags) / w % 2 == flags / w % 2
  {
    var q, r := flags / w, flags % w;
    calc {
      frame * 0x1000 + flags;
      frame * (2 * w * k) + (q * w + r);
      (frame * (2 * k) + q) * w + r;
    }
    Arithmetic.Quotient(frame * 0x1000 + flags, w, frame * (2 * k) + q, r);
    assert frame * (2 * k) + q == 2 * (frame * k + q / 2) + q % 2;
    Arithmetic.Quotient(frame * (2 * k) + q, 2, frame * k + q / 2, q % 2);
  }

  // ----- page numbers -----

  /** The 36-bit page number the four index fields are taken from. */
  function PageOf(va: nat): (vpn: nat)
    ensures vpn < 0x10_0000_0000
  {
    va / 0x1000 % 0x10_0000_0000
  }

  function Index(vpn: nat, level: nat): (i: nat)
    requires 1 <= level <= 4
    ensures i < 512
  {
    match level
    case 1 => vpn % 512
    case 2 => vpn / 0x200 % 512
    case 3 => vpn / 0x4_0000 % 512
    case _ => vpn / 0x800_0000 % 512
  }

  /** The part of the page number that selects a table of the given level. */
  function Prefix(vpn: nat, level: nat): nat
    requires level <= 4
  {
    match level
    case 0 => vpn
    case 1 => vpn / 0x200
    case 2 => vpn / 0x4_0000
    case 3 => vpn / 0x800_0000
    case _ => vpn / 0x10_0000_0000
  }

  lemma PrefixStep(vpn: nat, level: nat)
    requires 1 <= level <= 4
    ensures Prefix(vpn, level - 1) == Prefix(vpn, level) * 512 + Index(vpn, level)
  {
    match level {
      case 1 => Arithmetic.DivTwice(vpn, 1);
      case 2 => Arithmetic.DivTwice(vpn, 0x200);
      case 3 => Arithmetic.DivTwice(vpn, 0x4_0000);
      case _ => Arithmetic.DivTwice(vpn, 0x800_0000);
    }
  }

  // ----- the walk -----

  /** The frame a page number translates to, starting from a table of `level`. */
  function Walk(m: Mem, table: nat, level: nat, vpn: nat): Option<nat>
    requires 1 <= level <= 4
    decreases level
  {
    var e := At(m, table, Index(vpn, level));
    if !Present(e) then None
    else if level == 1 then Some(PhysFrame(e))
    else if Huge(e) then
      match level
      case 2 => Some(PhysFrame(e) / 0x200 * 0x200 + vpn % 0x200)
      case 3 => Some(PhysFrame(e) / 0x4_0000 * 0x4_0000 + vpn % 0x4_0000)
      case _ => None
    else Walk(m, PhysFrame(e), level - 1, vpn)
  }

  function Translate(m: Mem, root: nat, vpn: nat): Option<nat> {
    Walk(m, root, 4, vpn)
  }

  /** Where a walk ends: the level of the last table, and the entry found in it. */
  datatype Ending = Ending(level: nat, entry: Word)

  function WalkEnd(m: Mem, table: nat, level: nat, vpn: nat): (r: Ending)
    requires 1 <= level <= 4
    ensures 1 <= r.level <= level
    decreases level
  {
    var e := At(m, table, Index(vpn, level));
    if level > 1 && Present(e) && !Huge(e) then WalkEnd(m, PhysFrame(e), level - 1, vpn) else Ending(level, e)
  }

  /** What may be done through a mapping (Intel SDM volume 3A, section 4.6): every entry of
      the walk must allow a write or a user-mode access, and none may disable execution. */
  datatype Access = Access(write: bool, user: bool, execute: bool)

  const KERNEL_ACCESS := Access(true, false, true)

  function WalkAccess(m: Mem, table: nat, level: nat, vpn: nat): Access
    requires 1 <= level <= 4
    decreases level
  {
    var e := At(m, table, Index(vpn, level));
    var below := if level > 1 && Present(e) && !Huge(e) then WalkAccess(m, PhysFrame(e), level - 1, vpn)
      else Access(true, true, true);
    Access(Writable(e) && below.write, UserMode(e) && below.user, !NoExecute(e) && below.execute)
  }

  // ----- the tree invariant -----

  /** What a table frame is for: its level, the page-number prefix it serves, and
      its home, the level-3 table it lies under. Roots that share a level-3 table
      share everything below it, and nothing else. */
  datatype Node = Node(level: nat, prefix: nat, home: nat)

  type Shape = map<nat, Node>

  /** What frame `f` is for when slot `i` of table `t` holds it. */
  function Child(sh: Shape, t: nat, i: nat, f: nat): Node
    requires t in sh && sh[t].level >= 1
  {
    Node(sh[t].level - 1, sh[t].prefix * 512 + i, if sh[t].level == 4 then f else sh[t].home)
  }

  ghost predicate SlotOk(m: Mem, sh: Shape, t: nat, i: nat)
    requires t in sh && sh[t].level >= 1 && i < 512
  {
    var e := At(m, t, i);
    Present(e) ==>
      && KernelEntry(e)
      && (sh[t].level > 1 ==>
           if Huge(e) then sh[t].level == 2 && PhysFrame(e) % 512 == 0
           else PhysFrame(e) in sh && sh[PhysFrame(e)] == Child(sh, t, i, PhysFrame(e)))
  }

  /** Every table has one level and one prefix, so the walks of two different
      page numbers part where their prefixes part and never meet again. */
  ghost predicate WellShaped(m: Mem, sh: Shape) {
    && (forall t | t in sh ::
         t in m && 1 <= sh[t].level <= 4 && (sh[t].level == 4 ==> sh[t].prefix == 0 && sh[t].home == t))
    && (forall t, i | t in sh && 0 <= i < 512 :: SlotOk(m, sh, t, i))
  }

  /** Whatever is mapped is mapped for the kernel to read, write and execute. */
  lemma {:induction false} MappedForKernel(m: Mem, sh: Shape, x: nat, vpn: nat)
    requires WellShaped(m, sh) && x in sh && Walk(m, x, sh[x].level, vpn).Some?
    ensures WalkAccess(m, x, sh[x].level, vpn) == KERNEL_ACCESS
    decreases sh[x].level
  {
    var level := sh[x].level;
    assert SlotOk(m, sh, x, Index(vpn, level));
    var e := At(m, x, Index(vpn, level));
    KernelEntryAllows(e);
    if level > 1 && !Huge(e) {
      MappedForKernel(m, sh, PhysFrame(e), vpn);
    }
  }

  ghost predicate IsRoot(sh: Shape, t: nat) {
    t in sh && sh[t].level == 4
  }

  /** Page number `vpn` is one of those table `t` serves. */
  ghost predicate Serves(sh: Shape, t: nat, vpn: nat) {
    t in sh && sh[t].level <= 4 && Prefix(vpn, sh[t].level) == sh[t].prefix
  }

  // ----- effect of the two kinds of write on every walk -----

  /** Linking a zeroed frame into an empty slot changes no translation. */
  lemma {:induction false} LinkKeepsWalks(m: Mem, m': Mem, sh: Shape, t: nat, i: nat, f: nat, e: Word, x: nat, vpn: nat)
    requires WellShaped(m, sh) && t in sh && sh[t].level > 1 && i < 512
    requires f !in sh && !Huge(e) && PhysFrame(e) == f
    requires !Present(At(m, t, i))
    requires m' == Put(m[f := ZeroFrame()], t, i, e)
    requires x in sh
    ensures Walk(m', x, sh[x].level, vpn) == Walk(m, x, sh[x].level, vpn)
    decreases sh[x].level
  {
    var level := sh[x].level;
    var j := Index(vpn, level);
    assert SlotOk(m, sh, x, j);
    if x == t && j == i {
      assert At(m', f, Index(vpn, level - 1)) == 0;
    } else {
      assert At(m', x, j) == At(m, x, j);
      var c := At(m, x, j);
      if Present(c) && level > 1 && !Huge(c) {
        LinkKeepsWalks(m, m', sh, t, i, f, e, PhysFrame(c), vpn);
      }
    }
  }

  /** After the link the walks through that slot end one level lower, at a missing entry. */
  lemma {:induction false} LinkKeepsEnds(m: Mem, m': Mem, sh: Shape, t: nat, i: nat, f: nat, e: Word, x: nat, vpn: nat)
    requires WellShaped(m, sh) && t in sh && sh[t].level > 1 && i < 512
    requires f !in sh && Present(e) && !Huge(e) && PhysFrame(e) == f
    requires !Present(At(m, t, i))
    requires m' == Put(m[f := ZeroFrame()], t, i, e)
    requires Serves(sh, x, vpn)
    ensures var (a, b) := (WalkEnd(m, x, sh[x].level, vpn), WalkEnd(m', x, sh[x].level, vpn));
      a == b || (!Present(a.entry) && !Present(b.entry) && a.level == sh[t].level && b.level == sh[t].level - 1
                 && Prefix(vpn, b.level) == sh[t].prefix * 512 + i)
    decreases sh[x].level
  {
    var level := sh[x].level;
    var j := Index(vpn, level);
    PrefixStep(vpn, level);
    assert SlotOk(m, sh, x, j);
    if x == t && j == i {
      assert At(m', f, Index(vpn, level - 1)) == 0;
    } else {
      assert At(m', x, j) == At(m, x, j);
      var c := At(m, x, j);
      if Present(c) && level > 1 && !Huge(c) {
        LinkKeepsEnds(m, m', sh, t, i, f, e, PhysFrame(c), vpn);
      }
    }
  }

  /** Writing a leaf changes no walk of a page number outside the leaf. */
  lemma {:induction false} LeafKeepsOthers(m: Mem, m': Mem, sh: Shape, t: nat, i: nat, e: Word, x: nat, vpn: nat)
    requires WellShaped(m, sh) && t in sh && i < 512
    requires m' == Put(m, t, i, e)
    requires Serves(sh, x, vpn)
    requires Prefix(vpn, sh[t].level - 1) != sh[t].prefix * 512 + i
    ensures Walk(m', x, sh[x].level, vpn) == Walk(m, x, sh[x].level, vpn)
    decreases sh[x].level
  {
    var level := sh[x].level;
    var j := Index(vpn, level);
    PrefixStep(vpn, level);
    assert SlotOk(m, sh, x, j);
    assert At(m', x, j) == At(m, x, j);
    var c := At(m, x, j);
    if Present(c) && level > 1 && !Huge(c) {
      LeafKeepsOthers(m, m', sh, t, i, e, PhysFrame(c), vpn);
    }
  }

  /** Nor where such a walk ends. */
  lemma {:induction false} LeafKeepsEnds(m: Mem, m': Mem, sh: Shape, t: nat, i: nat, e: Word, x: nat, vpn: nat)
    requires WellShaped(m, sh) && t in sh && i < 512
    requires m' == Put(m, t, i, e)
    requires Serves(sh, x, vpn)
    requires Prefix(vpn, sh[t].level - 1) != sh[t].prefix * 512 + i
    ensures WalkEnd(m', x, sh[x].level, vpn) == WalkEnd(m, x, sh[x].level, vpn)
    decreases sh[x].level
  {
    var level := sh[x].level;
    var j := Index(vpn, level);
    PrefixStep(vpn, level);
    assert SlotOk(m, sh, x, j);
    assert At(m', x, j) == At(m, x, j);
    var c := At(m, x, j);
    if Present(c) && level > 1 && !Huge(c) {
      LeafKeepsEnds(m, m', sh, t, i, e, PhysFrame(c), vpn);
    }
  }

  /** Writing into a table of one home changes no walk that stays in tables of
      another home. */
  lemma {:induction false} LeafKeepsOtherHomes(m: Mem, m': Mem, sh: Shape, t: nat, i: nat, e: Word, x: nat, vpn: nat)
    requires WellShaped(m, sh) && t in sh && sh[t].level < 4 && i < 512
    requires m' == Put(m, t, i, e)
    requires Serves(sh, x, vpn)
    requires if sh[x].level == 4 then Present(At(m, x, Index(vpn, 4))) ==> HomeOf(m, x, vpn) != sh[t].home
      else sh[x].home != sh[t].home
    ensures Walk(m', x, sh[x].level, vpn) == Walk(m, x, sh[x].level, vpn)
    decreases sh[x].level
  {
    var level := sh[x].level;
    var j := Index(vpn, level);
    PrefixStep(vpn, level);
    assert SlotOk(m, sh, x, j);
    assert At(m', x, j) == At(m, x, j);
    var c := At(m, x, j);
    if Present(c) && level > 1 && !Huge(c) {
      LeafKeepsOtherHomes(m, m', sh, t, i, e, PhysFrame(c), vpn);
    }
  }

  /** The home of the tables below root `root` on the walk of `vpn`. */
  function HomeOf(m: Mem, root: nat, vpn: nat): nat {
    PhysFrame(At(m, root, Index(vpn, 4)))
  }

  /** If every present entry of every table persists, so does every translation, with what
      it allows. */
  lemma {:induction false} WalkPersists(m: Mem, m': Mem, sh: Shape, x: nat, vpn: nat)
    requires WellShaped(m, sh)
    requires EntriesPersist(m, m', sh)
    requires x in sh
    requires Walk(m, x, sh[x].level, vpn).Some?
    ensures Walk(m', x, sh[x].level, vpn) == Walk(m, x, sh[x].level, vpn)
    ensures WalkAccess(m', x, sh[x].level, vpn) == WalkAccess(m, x, sh[x].level, vpn)
    decreases sh[x].level
  {
    var level := sh[x].level;
    var j := Index(vpn, level);
    assert SlotOk(m, sh, x, j);
    var e := At(m, x, j);
    if level > 1 && !Huge(e) {
      WalkPersists(m, m', sh, PhysFrame(e), vpn);
    }
  }

  ghost predicate EntriesPersist(m: Mem, m': Mem, sh: Shape) {
    forall t, i | t in sh && 0 <= i < 512 && Present(At(m, t, i)) :: At(m', t, i) == At(m, t, i)
  }

  /** Memory outside the tables of a shape does not take part in any walk. */
  lemma {:induction false} WalkReadsTables(m: Mem, m': Mem, sh: Shape, x: nat, vpn: nat)
    requires WellShaped(m, sh)
    requires forall t | t in sh :: t in m' && m'[t] == m[t]
    requires x in sh
    ensures Walk(m', x, sh[x].level, vpn) == Walk(m, x, sh[x].level, vpn)
    decreases sh[x].level
  {
    var level := sh[x].level;
    var j := Index(vpn, level);
    assert SlotOk(m, sh, x, j);
    var e := At(m, x, j);
    if Present(e) && level > 1 && !Huge(e) {
      WalkReadsTables(m, m', sh, PhysFrame(e), vpn);
    }
  }
}
