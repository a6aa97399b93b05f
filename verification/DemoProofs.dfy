/** What an accepted manifest and policy guarantee about the later run: which grants
    go through, what each revoke entry takes back, and what stays usable. */
module DemoProofs {
  import opened Capabilities
  import opened MachineWords
  import opened HostedState
  import opened Manifests
  import opened DemoState
  import RingProtocol
  import WireProtocol

  // ----- the state between build and revokes -----

  /** The capability minted for a corridor, still whole. */
  ghost predicate RootCapOk(r: Registry, target: ObjectId, cap: CapId) {
    cap in r.caps && r.caps[cap] == Capability(target, CorridorObject, CORRIDOR_RIGHTS, None, false, true)
  }

  /** Every capability is a corridor's or was derived from a corridor's. */
  ghost predicate Flat(r: Registry) {
    forall k | k in r.caps ::
      && k <= r.next
      && (r.caps[k].parent.Some? ==> r.caps[k].parent.value in r.caps && r.caps[r.caps[k].parent.value].parent.None?)
  }

  ghost predicate Steady(s: Demo) {
    && (forall n | n in s.courtIds :: IsRunning(s.root, s.courtIds[n]) && s.courtIds[n] <= s.root.nextCourt)
    && (forall t | t in s.root.rootCaps :: t <= s.root.nextObject && RootCapOk(s.root.registry, t, s.root.rootCaps[t]))
    && (forall p | p in s.descriptors :: s.descriptors[p].target in s.root.rootCaps)
    && (forall c, k: CapId | Holds(s.root, c, k) :: k <= s.root.registry.next)
    && Flat(s.root.registry)
  }

  // ----- build -----

  /** Each court runs under its own name, and each name has its own court. */
  ghost predicate CourtsReady(s: Demo, courts: seq<CourtEntry>) {
    && (forall i | 0 <= i < |courts| :: courts[i].name in s.courtIds && s.courtIds[courts[i].name] in s.root.courts
         && s.root.courts[s.courtIds[courts[i].name]] == Court(s.courtIds[courts[i].name], courts[i].name, Running))
    && (forall n | n in s.courtIds :: exists i :: 0 <= i < |courts| && courts[i].name == n)
  }

  lemma NoCourts()
    ensures Steady(AddCourts([])) && CourtsReady(AddCourts([]), [])
  {
  }

  lemma {:induction false} CourtsBuilt(courts: seq<CourtEntry>)
    requires forall i, j | 0 <= i < j < |courts| :: courts[i].name != courts[j].name
    ensures var s := AddCourts(courts);
      Steady(s) && CourtsReady(s, courts) && s.descriptors == map[] && s.capsByKey == map[] && s.capsById == map[]
  {
    hide Steady, CourtsReady;
    if courts == [] {
      NoCourts();
    } else {
      var n := |courts| - 1;
      CourtsBuilt(courts[..n]);
      CourtBuilt(AddCourts(courts[..n]), courts[..n], courts[n]);
      assert courts == courts[..n] + [courts[n]];
    }
  }

  lemma CourtBuilt(s: Demo, courts: seq<CourtEntry>, c: CourtEntry)
    requires Steady(s) && CourtsReady(s, courts) && forall i | 0 <= i < |courts| :: courts[i].name != c.name
    ensures Steady(AddCourt(s, c.name)) && CourtsReady(AddCourt(s, c.name), courts + [c])
  {
    hide RootCapOk, Flat;
    CourtSteady(s, c.name);
    hide Steady;
    var (s', all) := (AddCourt(s, c.name), courts + [c]);
    forall i | 0 <= i < |all|
      ensures all[i].name in s'.courtIds && s'.courtIds[all[i].name] in s'.root.courts
        && s'.root.courts[s'.courtIds[all[i].name]] == Court(s'.courtIds[all[i].name], all[i].name, Running)
    {
      if i < |courts| {
        assert all[i] == courts[i];
      }
    }
    forall n | n in s'.courtIds
      ensures exists i :: 0 <= i < |all| && all[i].name == n
    {
      CourtNamed(s, courts, c, n);
    }
  }

  lemma CourtSteady(s: Demo, name: string)
    requires Steady(s)
    ensures Steady(AddCourt(s, name))
    ensures forall n | n in s.courtIds :: s.courtIds[n] <= s.root.nextCourt
  {
    hide RootCapOk, Flat;
    assert forall a, k :: Holds(AddCourt(s, name).root, a, k) ==> Holds(s.root, a, k);
  }

  lemma CourtNamed(s: Demo, courts: seq<CourtEntry>, c: CourtEntry, name: string)
    requires CourtsReady(s, courts) && (name in s.courtIds || name == c.name)
    ensures exists i :: 0 <= i < |courts + [c]| && (courts + [c])[i].name == name
  {
    var all := courts + [c];
    if name == c.name {
      assert all[|courts|].name == name;
    } else {
      var i :| 0 <= i < |courts| && courts[i].name == name;
      assert all[i].name == name;
    }
  }

  /** The corridor joins the two courts it names, empty, under its own descriptor. */
  ghost predicate CorridorReady(s: Demo, c: CorridorEntry) {
    && c.path in s.descriptors && c.source in s.courtIds && c.sink in s.courtIds
    && var d := s.descriptors[c.path];
    && d.path == c.path && d.target in s.root.corridors && d.target <= s.root.nextObject
    && s.root.corridors[d.target] == Corridor(s.courtIds[c.source], s.courtIds[c.sink], [], c.capacity)
  }

  ghost predicate CorridorsReady(s: Demo, corridors: seq<CorridorEntry>) {
    && (forall i | 0 <= i < |corridors| :: CorridorReady(s, corridors[i]))
    && (forall i, j | 0 <= i < j < |corridors| ::
          corridors[i].path in s.descriptors && corridors[j].path in s.descriptors
          && s.descriptors[corridors[i].path].target != s.descriptors[corridors[j].path].target)
  }

  /** Every ring of the list fits a 64-bit mapping. */
  ghost predicate RingsFit(corridors: seq<CorridorEntry>) {
    forall i | 0 <= i < |corridors| :: RingProtocol.TotalLen(corridors[i].capacity, corridors[i].slotSize).Some?
  }

  lemma CorridorBuilt(s: Demo, corridors: seq<CorridorEntry>, c: CorridorEntry)
    requires Steady(s) && CorridorsReady(s, corridors) && c.source in s.courtIds && c.sink in s.courtIds
    requires forall i | 0 <= i < |corridors| :: corridors[i].path != c.path
    ensures AddCorridor(s, c) == Aborted(RingTooLarge(c.path)) <==> RingProtocol.TotalLen(c.capacity, c.slotSize).None?
    ensures RingProtocol.TotalLen(c.capacity, c.slotSize).Some? ==> AddCorridor(s, c).Went?
    ensures AddCorridor(s, c).Went? ==> Extended(s, AddCorridor(s, c).demo, corridors + [c])
  {
    hide RingProtocol.TotalLen, CorridorsReady, Steady;
    CorridorAdded(s, c);
    if AddCorridor(s, c).Went? {
      CorridorKeepsSteady(s, AddCorridor(s, c).demo, c);
      CorridorKeepsReady(s, AddCorridor(s, c).demo, corridors, c);
    }
  }

  ghost predicate Extended(s: Demo, s': Demo, corridors: seq<CorridorEntry>) {
    && Steady(s') && CorridorsReady(s', corridors)
    && s'.courtIds == s.courtIds && s'.root.courts == s.root.courts && s'.capsByKey == s.capsByKey
    && s'.capsById == s.capsById
  }

  /** The state after adding a corridor, field by field. */
  ghost predicate Added(s: Demo, s': Demo, c: CorridorEntry)
    requires c.source in s.courtIds && c.sink in s.courtIds
  {
    var target := s.root.nextObject + 1;
    var cap := s.root.registry.next + 1;
    && s'.courtIds == s.courtIds && s'.capsByKey == s.capsByKey && s'.capsById == s.capsById
    && s'.descriptors == s.descriptors[c.path := Descriptor(c.path, target, CorridorObject, SharedRing)]
    && s'.root.nextCourt == s.root.nextCourt && s'.root.nextObject == target && s'.root.courts == s.root.courts
    && s'.root.corridors ==
         s.root.corridors[target := Corridor(s.courtIds[c.source], s.courtIds[c.sink], [], c.capacity)]
    && s'.root.rootCaps == s.root.rootCaps[target := cap] && s'.root.cspaces == s.root.cspaces
    && s'.root.registry.next == cap
    && s'.root.registry.caps ==
         s.root.registry.caps[cap := Capability(target, CorridorObject, CORRIDOR_RIGHTS, None, false, true)]
  }

  lemma CorridorAdded(s: Demo, c: CorridorEntry)
    requires Steady(s) && c.source in s.courtIds && c.sink in s.courtIds
    ensures var r := AddCorridor(s, c);
      if RingProtocol.TotalLen(c.capacity, c.slotSize).None? then r == Aborted(RingTooLarge(c.path))
        else r.Went? && Added(s, r.demo, c)
  {
    hide RingProtocol.TotalLen, RootCapOk, Flat;
  }

  lemma CorridorKeepsSteady(s: Demo, s': Demo, c: CorridorEntry)
    requires Steady(s) && c.source in s.courtIds && c.sink in s.courtIds && Added(s, s', c)
    ensures Steady(s')
  {
    assert forall a, k :: Holds(s'.root, a, k) ==> Holds(s.root, a, k);
    forall t | t in s'.root.rootCaps
      ensures t <= s'.root.nextObject && RootCapOk(s'.root.registry, t, s'.root.rootCaps[t])
    {
      if t in s.root.rootCaps {
        assert RootCapOk(s.root.registry, t, s.root.rootCaps[t]);
      }
    }
  }

  lemma CorridorKeepsReady(s: Demo, s': Demo, corridors: seq<CorridorEntry>, c: CorridorEntry)
    requires CorridorsReady(s, corridors) && c.source in s.courtIds && c.sink in s.courtIds && Added(s, s', c)
    requires forall i | 0 <= i < |corridors| :: corridors[i].path != c.path
    ensures CorridorsReady(s', corridors + [c])
  {
    var all := corridors + [c];
    forall i | 0 <= i < |all|
      ensures CorridorReady(s', all[i])
      ensures i < |corridors| ==>
        s'.descriptors[all[i].path].target <= s.root.nextObject
        && s'.descriptors[all[i].path] == s.descriptors[all[i].path]
    {
      if i < |corridors| {
        assert CorridorReady(s, corridors[i]);
      }
    }
  }

  lemma {:induction false} CorridorsBuilt(s: Demo, corridors: seq<CorridorEntry>)
    requires Steady(s)
    requires forall i | 0 <= i < |corridors| :: corridors[i].source in s.courtIds && corridors[i].sink in s.courtIds
    requires forall i, j | 0 <= i < j < |corridors| :: corridors[i].path != corridors[j].path
    ensures AddCorridors(s, corridors).Went? <==> RingsFit(corridors)
    ensures AddCorridors(s, corridors).Went? ==> Extended(s, AddCorridors(s, corridors).demo, corridors)
    decreases |corridors|
  {
    hide RingProtocol.TotalLen, Steady, CorridorReady, AddCorridor;
    if corridors != [] {
      var n := |corridors| - 1;
      CorridorsBuilt(s, corridors[..n]);
      var before := AddCorridors(s, corridors[..n]);
      assert RingsFit(corridors) ==> RingsFit(corridors[..n]);
      if before.Went? {
        CorridorBuilt(before.demo, corridors[..n], corridors[n]);
        assert corridors == corridors[..n] + [corridors[n]];
      }
    }
  }

  /** For an accepted pair, building fails only on a ring too large to map. */
  lemma BuildExactly(m: Manifest, p: Policy)
    requires ValidPair(m, p)
    ensures BuildState(m).Went? <==> RingsFit(m.corridors)
    ensures BuildState(m).Went? ==> var s := BuildState(m).demo;
      && Steady(s) && CourtsReady(s, m.courts) && CorridorsReady(s, m.corridors) && s.capsByKey == map[]
      && s.capsById == map[]
  {
    hide Steady, CorridorsReady, PolicyOk, OneApp, AddCourts, AddCorridors;
    CourtsBuilt(m.courts);
    var s := AddCourts(m.courts);
    forall i | 0 <= i < |m.corridors|
      ensures m.corridors[i].source in s.courtIds && m.corridors[i].sink in s.courtIds
    {
      assert CorridorOk(m, m.corridors[i]);
    }
    CorridorsBuilt(s, m.corridors);
    hide CorridorsOk;
    assert BuildState(m).Went? ==> CourtsReady(BuildState(m).demo, m.courts);
  }

  // ----- one grant -----

  /** A granted capability as the registry holds it. */
  ghost predicate Issued(s: Demo, g: Resolved, cap: CapId) {
    && g.path in s.descriptors && cap in s.root.registry.caps
    && var c := s.root.registry.caps[cap];
    && c.target == s.descriptors[g.path].target && c.objectType == CorridorObject && c.rights == g.rights
    && c.parent.Some?
  }

  /** A grant changes nothing but the registry, the court's space, the trace and the
      two tables, and leaves the capabilities there were as they were. */
  ghost predicate AfterGrant(s: Demo, s': Demo, g: Resolved, cap: CapId) {
    && s'.courtIds == s.courtIds && s'.descriptors == s.descriptors
    && s'.capsById == s.capsById[cap := cap] && s'.capsByKey == s.capsByKey[(g.court, g.path) := (cap, g.rights)]
    && s'.root.courts == s.root.courts && s'.root.nextCourt == s.root.nextCourt
    && s'.root.nextObject == s.root.nextObject
    && s'.root.rootCaps == s.root.rootCaps
    && cap == s.root.registry.next + 1 == s'.root.registry.next
    && g.path in s.descriptors && s.descriptors[g.path].target in s.root.rootCaps
    && var t := s.descriptors[g.path].target;
    && s'.root.registry.caps == s.root.registry.caps[cap :=
         Capability(t, CorridorObject, g.rights, Some(s.root.rootCaps[t]), false, Contains(g.rights, DELEGATE))]
    && g.court in s.courtIds && IsRunning(s'.root, s.courtIds[g.court])
    && forall c, k :: Holds(s'.root, c, k) <==> Holds(s.root, c, k) || (c == s.courtIds[g.court] && k == cap)
  }

  /** The registry accepts a grant exactly when it asks for no more than corridor rights. */
  lemma GrantDecided(s: Demo, g: Resolved)
    requires Steady(s) && g.court in s.courtIds && g.path in s.descriptors
    ensures var (s', r) := GrantCap(s, g);
      if Contains(CORRIDOR_RIGHTS, g.rights) then r.Granted? && AfterGrant(s, s', g, r.cap)
      else s' == s && r == Refused(Core(NoRight))
  {
    hide Contains, Flat;
    assert Contains(CORRIDOR_RIGHTS, DELEGATE) by { CorridorRights(); }
    var t := s.descriptors[g.path].target;
    assert RootCapOk(s.root.registry, t, s.root.rootCaps[t]);
  }

  lemma CorridorRights()
    ensures Contains(CORRIDOR_RIGHTS, DELEGATE)
  {
  }

  lemma GrantKeepsSteady(s: Demo, s': Demo, g: Resolved, cap: CapId)
    requires Steady(s) && AfterGrant(s, s', g, cap)
    ensures Steady(s') && Issued(s', g, cap) && cap !in s.root.registry.caps
  {
    hide Contains;
    var t := s.descriptors[g.path].target;
    assert RootCapOk(s.root.registry, t, s.root.rootCaps[t]);
    forall u | u in s'.root.rootCaps
      ensures u <= s'.root.nextObject && RootCapOk(s'.root.registry, u, s'.root.rootCaps[u])
    {
      assert RootCapOk(s.root.registry, u, s.root.rootCaps[u]);
    }
  }

  /** An open request changes only the trace. */
  lemma OpenTraces(s: Demo, g: Resolved, request: Request)
    requires g.court in s.courtIds && g.path in s.descriptors
    ensures exists trace :: OpenStep(s, g, request).0 == s.(root := s.root.(trace := trace))
  {
    hide Open;
    assert s == s.(root := s.root.(trace := s.root.trace));
    if request.OpenRequest? && request.cap.Some? && request.cap.value in s.capsById {
      OpenNotes(s.root, s.courtIds[g.court], s.descriptors[g.path], Some(s.capsById[request.cap.value]),
        WireProtocol.Known(request.rights));
    }
    var root := OpenStep(s, g, request).0.root;
    assert OpenStep(s, g, request).0 == s.(root := s.root.(trace := root.trace));
  }

  lemma OpenNotes(root: Root, court: CourtId, d: Descriptor, cap: Option<CapId>, rights: Rights)
    ensures var root' := Open(root, court, d, cap, rights).0; root' == root.(trace := root'.trace)
  {
    hide Authorize, IsRunning, Holds;
  }

  lemma SteadyTrace(s: Demo, trace: seq<TraceEvent>)
    requires Steady(s)
    ensures Steady(s.(root := s.root.(trace := trace)))
  {
    hide RootCapOk;
    assert forall a, k :: Holds(s.root.(trace := trace), a, k) ==> Holds(s.root, a, k);
  }
}
