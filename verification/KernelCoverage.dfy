/** Exactly which pages a build maps. */
module KernelCoverage {
  import opened MachineWords
  import opened PageTables
  import opened PageMapper
  import opened MapperProofs
  import opened MapPages
  import opened MapTheorems
  import opened KernelMemory
  import opened KernelSpace

  ghost predicate InSpan(x: Span, v: nat) {
    InRange(v, x.virt / 0x1000, x.len / 0x1000)
  }

  ghost predicate InSpans(spans: seq<Span>, v: nat) {
    exists i :: 0 <= i < |spans| && InSpan(spans[i], v)
  }

  lemma InAppended(a: seq<Span>, b: seq<Span>, v: nat)
    ensures InSpans(a + b, v) <==> InSpans(a, v) || InSpans(b, v)
  {
    if InSpans(a, v) {
      var i :| 0 <= i < |a| && InSpan(a[i], v);
      assert (a + b)[i] == a[i];
    }
    if InSpans(b, v) {
      var i :| 0 <= i < |b| && InSpan(b[i], v);
      assert (a + b)[|a| + i] == b[i];
    }
  }

  lemma InOne(x: Span, v: nat)
    ensures InSpans([x], v) <==> InSpan(x, v)
  {
    if InSpan(x, v) {
      assert InSpan([x][0], v);
    }
  }

  /** A page without a mapping has one afterwards exactly if a span covers it. */
  lemma {:induction false} RunCovers(s: State, sh: Shape, root: nat, spans: seq<Span>, v: nat) returns (sh': Shape)
    requires Inv(s, sh) && IsRoot(sh, root) && v < 0x10_0000_0000 && Translate(s.mem, root, v).None?
    ensures var (s', o) := RunPlan(s, root, spans);
      && Inv(s', sh') && IsRoot(sh', root)
      && (o.Done? ==> (Translate(s'.mem, root, v).Some? <==> InSpans(spans, v)))
    decreases |spans|
  {
    hide Inv, MapRange, Walk, InSpan;
    if spans == [] {
      sh' := sh;
    } else {
      var n := |spans| - 1;
      var sh1 := RunCovers(s, sh, root, spans[..n], v);
      var (s1, o) := RunPlan(s, root, spans[..n]);
      sh' := sh1;
      if o.Done? {
        sh' := SpanCovers(s1, sh1, root, spans[n], v);
        assert spans == spans[..n] + [spans[n]];
        InAppended(spans[..n], [spans[n]], v);
        InOne(spans[n], v);
      }
    }
  }

  lemma SpanCovers(s: State, sh: Shape, root: nat, x: Span, v: nat) returns (sh': Shape)
    requires Inv(s, sh) && IsRoot(sh, root) && v < 0x10_0000_0000
    ensures var (s', o) := MapRange(s, root, x.virt, x.phys, x.len);
      && Inv(s', sh') && IsRoot(sh', root)
      && (o.Done? ==>
           (Translate(s'.mem, root, v).Some? <==> Translate(s.mem, root, v).Some? || InSpan(x, v)))
  {
    hide Inv, MapRange, Walk, WalkAccess, Offset, BytesMapped, Trouble, InRange, Extends, OtherRoots, SharingSame;
    sh' := MapRangeMaps(s, sh, root, x.virt, x.phys, x.len);
    TranslationsPersist(s, sh, MapRange(s, root, x.virt, x.phys, x.len).0, sh', root, v);
  }

  // ----- what is planned -----

  /** Usable, bootloader-reclaimable, executable and framebuffer memory. */
  predicate DirectKind(kind: nat) { kind == 0 || kind == 5 || kind == 6 || kind == 7 }

  /** The whole pages of physical memory in an entry, at `virt` on. */
  ghost predicate EntryAt(e: MemmapEntry, virt: nat, v: nat) {
    InRange(v, virt / 0x1000, (EndPage(e) - FirstPage(e)) / 0x1000)
  }

  /** Page `v` is in the direct map of the entry, or in the image it is part of. */
  ghost predicate EntryCovers(hhdm: Word, physBase: nat, virtBase: nat, e: MemmapEntry, v: nat) {
    HasPages(e) && (
      || (DirectKind(e.kind) && EntryAt(e, HhdmVirt(hhdm, FirstPage(e)), v))
      || (e.kind == 6 && FirstPage(e) >= physBase && EntryAt(e, virtBase + (FirstPage(e) - physBase), v)))
  }

  ghost predicate Planned(kernel: Span, hhdm: Word, physBase: nat, virtBase: nat, entries: seq<MemmapEntry>, v: nat) {
    InSpan(kernel, v) || exists i :: 0 <= i < |entries| && EntryCovers(hhdm, physBase, virtBase, entries[i], v)
  }

  lemma EntrySpansCover(hhdm: Word, physBase: nat, virtBase: nat, e: MemmapEntry, v: nat)
    ensures InSpans(EntrySpans(hhdm, physBase, virtBase, e), v) <==> EntryCovers(hhdm, physBase, virtBase, e, v)
  {
    hide FirstPage, EndPage, HhdmVirt, InRange, InSpans;
    NoSpans(v);
    if HasPages(e) {
      EntryPages(e);
      var start, len := FirstPage(e), EndPage(e) - FirstPage(e);
      var a: seq<Span> := if IsImage(e, physBase) then [Span(virtBase + (start - physBase), start, len)] else [];
      var b: seq<Span> := if HhdmMapped(e.kind) then [Span(HhdmVirt(hhdm, start), start, len)] else [];
      InAppended(a, b, v);
      if a != [] {
        InOne(a[0], v);
        assert a == [a[0]];
      }
      if b != [] {
        InOne(b[0], v);
        assert b == [b[0]];
      }
    }
  }

  lemma NoSpans(v: nat)
    ensures !InSpans([], v)
  {
  }

  lemma {:induction false} PlanCovers(kernel: Span, hhdm: Word, physBase: nat, virtBase: nat, entries: seq<MemmapEntry>,
                                      v: nat)
    ensures InSpans(Plan(kernel, hhdm, physBase, virtBase, entries), v) <==>
      Planned(kernel, hhdm, physBase, virtBase, entries, v)
    decreases |entries|
  {
    hide EntrySpans, EntryCovers, InSpan;
    if entries == [] {
      InOne(kernel, v);
    } else {
      var n := |entries| - 1;
      PlanCovers(kernel, hhdm, physBase, virtBase, entries[..n], v);
      InAppended(Plan(kernel, hhdm, physBase, virtBase, entries[..n]),
        EntrySpans(hhdm, physBase, virtBase, entries[n]), v);
      EntrySpansCover(hhdm, physBase, virtBase, entries[n], v);
      PlannedNext(kernel, hhdm, physBase, virtBase, entries, v);
    }
  }

  lemma PlannedNext(kernel: Span, hhdm: Word, physBase: nat, virtBase: nat, entries: seq<MemmapEntry>, v: nat)
    requires entries != []
    ensures var n := |entries| - 1;
      Planned(kernel, hhdm, physBase, virtBase, entries, v) <==>
        Planned(kernel, hhdm, physBase, virtBase, entries[..n], v)
        || EntryCovers(hhdm, physBase, virtBase, entries[n], v)
  {
    hide EntryCovers, InSpan;
    var n := |entries| - 1;
    assert forall i | 0 <= i < n :: entries[..n][i] == entries[i];
    if EntryCovers(hhdm, physBase, virtBase, entries[n], v) {
      assert 0 <= n < |entries|;
    }
    if i :| 0 <= i < n && EntryCovers(hhdm, physBase, virtBase, entries[..n][i], v) {
      assert EntryCovers(hhdm, physBase, virtBase, entries[i], v);
    }
  }

  /** After a build a page is mapped exactly if it belongs to the kernel image, to the
      direct map of an entry of one of the four kinds, or to an executable entry at or
      above the kernel's base. */
  lemma BuildCovers(s: State, s': State, r: BuildResult, hhdm: Word, physBase: nat, virtBase: nat, kstart: Word,
                    kend: Word, entries: seq<MemmapEntry>, v: nat)
    requires Inv(s, map[]) && BuildIs(s, s', r, hhdm, physBase, virtBase, kstart, kend, entries) && r.Built?
    requires v < 0x10_0000_0000
    ensures r.kernelPhys + r.kernelLen <= 0x10_0000_0000_0000
    ensures Translate(s'.mem, r.pml4, v).Some? <==>
      Planned(Span(kstart, r.kernelPhys, r.kernelLen), hhdm, physBase, virtBase, entries, v)
  {
    hide Inv, RunPlan, Plan, Planned, Walk, DirectBytes, DirectSpans, PageAlignUp, AllocTable;
    var kernel := Span(kstart, physBase + (kstart - virtBase), PageAlignUp(kend - kstart));
    var sh := NewRoot(s);
    RootEmpty(s, v);
    var plan := Plan(kernel, hhdm, physBase, virtBase, entries);
    var sh' := RunCovers(AllocTable(s).0, sh, r.pml4, plan, v);
    var (s1, o) := RunPlan(AllocTable(s).0, r.pml4, plan);
    assert o.Done? && s'.mem == s1.mem;
    PlanCovers(kernel, hhdm, physBase, virtBase, entries, v);
  }

  lemma RootEmpty(s: State, v: nat)
    requires AllocTable(s).1.Ok?
    ensures Translate(AllocTable(s).0.mem, AllocTable(s).1.value, v).None?
  {
  }
}
