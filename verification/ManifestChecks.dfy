/** Validation accepts exactly the valid pairs, and the loops that carry it out
    report the first complaint. */
module ManifestChecks {
  import opened Capabilities
  import opened MachineWords
  import opened Manifests

  // ----- phases -----

  lemma PhasesDistinct(i: nat, j: nat)
    requires i < j < |PHASE_ORDER|
    ensures PHASE_ORDER[i] != PHASE_ORDER[j]
  {
  }

  lemma PhaseAt(i: nat)
    requires i < |PHASE_ORDER|
    ensures PhaseIndex(PHASE_ORDER[i]) == Some(i)
  {
    hide Position;
    assert PHASE_ORDER[i] in PHASE_ORDER;
    forall k: nat | k < |PHASE_ORDER| && k != i
      ensures PHASE_ORDER[k] != PHASE_ORDER[i]
    {
      if k < i {
        PhasesDistinct(k, i);
      } else {
        PhasesDistinct(i, k);
      }
    }
  }

  lemma ActionPhases()
    ensures "revoke" in PHASE_ORDER && "fault" in PHASE_ORDER && "peer_down" in PHASE_ORDER
  {
    assert PHASE_ORDER[6] == "revoke" && PHASE_ORDER[8] == "fault" && PHASE_ORDER[10] == "peer_down";
  }

  /** The check of a phase passes exactly when it comes before the action. */
  lemma PhaseExactly(after: string, action: string)
    requires action in PHASE_ORDER
    ensures PhaseComplaint(after, action).None? <==> Before(after, action)
  {
    hide PhaseIndex;
    var j :| 0 <= j < |PHASE_ORDER| && PHASE_ORDER[j] == action;
    PhaseAt(j);
    if Before(after, action) {
      var i, k :| 0 <= i < k < |PHASE_ORDER| && PHASE_ORDER[i] == after && PHASE_ORDER[k] == action;
      PhaseAt(i);
      PhaseAt(k);
    }
    if PhaseComplaint(after, action).None? {
      var i := PhaseIndex(after).value;
      IndexIs(after);
      assert PHASE_ORDER[i] == after;
    }
  }

  lemma IndexIs(name: string)
    requires PhaseIndex(name).Some?
    ensures PhaseIndex(name).value < |PHASE_ORDER| && PHASE_ORDER[PhaseIndex(name).value] == name
  {
    hide Position;
  }

  // ----- the sets the checks build -----

  lemma Sets(m: Manifest, p: Policy)
    ensures forall n :: n in NamesOf(m.courts) <==> HasCourt(m, n)
    ensures forall n :: n in PathsOf(m.corridors) <==> HasPath(m, n)
    ensures forall c, n :: (c, n) in KeysOf(p.grants) <==> HasGrant(p, c, n)
  {
  }

  lemma {:induction false} CountZero(courts: seq<CourtEntry>, role: Role)
    ensures Count(courts, role) == 0 <==> forall i | 0 <= i < |courts| :: courts[i].role != role
  {
    if courts != [] {
      var front := courts[..|courts| - 1];
      CountZero(front, role);
      assert forall i | 0 <= i < |front| :: courts[i] == front[i];
    }
  }

  lemma {:induction false} OnlyAppCounts(courts: seq<CourtEntry>, i: nat)
    requires OnlyAppAt(courts, i)
    ensures Count(courts, App) == 1
  {
    var last := |courts| - 1;
    if i == last {
      CountZero(courts[..last], App);
    } else {
      OnlyAppCounts(courts[..last], i);
    }
  }

  lemma {:induction false} CountFinds(courts: seq<CourtEntry>) returns (i: nat)
    requires Count(courts, App) == 1
    ensures OnlyAppAt(courts, i)
  {
    var last := |courts| - 1;
    if courts[last].role == App {
      i := last;
      CountZero(courts[..last], App);
      assert forall j | 0 <= j < last :: courts[j] == courts[..last][j];
    } else {
      i := CountFinds(courts[..last]);
      assert forall j | 0 <= j < last :: courts[j] == courts[..last][j];
    }
  }

  lemma CountOne(m: Manifest)
    ensures Count(m.courts, App) == 1 <==> OneApp(m)
  {
    hide OnlyAppAt, Count;
    if Count(m.courts, App) == 1 {
      var i := CountFinds(m.courts);
    }
    if OneApp(m) {
      var i :| OnlyAppAt(m.courts, i);
      OnlyAppCounts(m.courts, i);
    }
  }

  // ----- exactly the valid pairs -----

  lemma CourtsExactly(m: Manifest)
    ensures FirstOf(CourtComplaints(m.courts)).None? && Count(m.courts, App) == 1 && Count(m.courts, Net) >= 1 <==>
      CourtsOk(m)
  {
    FirstOfNone(CourtComplaints(m.courts));
    CountOne(m);
    CountZero(m.courts, Net);
    hide FirstOf, Count, OneApp;
    var list := CourtComplaints(m.courts);
    if forall i | 0 <= i < |list| :: list[i].None? {
      forall i, j | 0 <= i < j < |m.courts|
        ensures m.courts[i].name != m.courts[j].name && m.courts[j].name != ""
      {
        assert list[j].None?;
        assert m.courts[..j][i] == m.courts[i];
      }
      assert m.courts == [] || list[0].None?;
    }
  }

  lemma CorridorsExactly(m: Manifest)
    ensures m.corridors != [] && FirstOf(CorridorComplaints(NamesOf(m.courts), m.corridors)).None? <==> CorridorsOk(m)
  {
    var list := CorridorComplaints(NamesOf(m.courts), m.corridors);
    FirstOfNone(list);
    Sets(m, Policy(1, [], [], [], []));
    hide FirstOf, NamesOf, HasCourt;
    if forall i | 0 <= i < |list| :: list[i].None? {
      forall i | 0 <= i < |m.corridors|
        ensures CorridorOk(m, m.corridors[i])
      {
        assert list[i].None?;
      }
      forall i, j | 0 <= i < j < |m.corridors|
        ensures m.corridors[i].path != m.corridors[j].path
      {
        assert list[j].None?;
        assert m.corridors[..j][i] == m.corridors[i];
      }
    }
  }

  lemma GrantExactly(m: Manifest, g: GrantEntry)
    ensures GrantComplaint(NamesOf(m.courts), PathsOf(m.corridors), g).None? <==> GrantOk(m, g)
  {
    Sets(m, Policy(1, [], [], [], []));
    hide NamesOf, HasCourt, PathsOf, HasPath, RightOf, FirstOf;
    var list := RightComplaints(g.rights);
    FirstOfNone(list);
    assert forall k | 0 <= k < |g.rights| :: list[k].None? <==> RightOf(g.rights[k]).Some?;
  }

  lemma RevokeExactly(m: Manifest, p: Policy, r: RevokeEntry)
    ensures RevokeComplaint(NamesOf(m.courts), PathsOf(m.corridors), KeysOf(p.grants), r).None? <==> RevokeOk(m, p, r)
  {
    hide NamesOf, HasCourt, PathsOf, HasPath, KeysOf, HasGrant, PhaseComplaint, Before;
    Sets(m, p);
    ActionPhases();
    PhaseExactly(r.after, "revoke");
  }

  lemma FaultExactly(m: Manifest, f: FaultEntry)
    ensures FaultComplaint(NamesOf(m.courts), f).None? <==> FaultOk(m, f)
  {
    hide NamesOf, HasCourt, PhaseComplaint, Before;
    Sets(m, Policy(1, [], [], [], []));
    ActionPhases();
    PhaseExactly(f.after, "fault");
  }

  lemma PeerDownExactly(m: Manifest, d: PeerDownEntry)
    ensures PeerDownComplaint(NamesOf(m.courts), PathsOf(m.corridors), d).None? <==> PeerDownOk(m, d)
  {
    hide NamesOf, HasCourt, PathsOf, HasPath, PhaseComplaint, Before;
    Sets(m, Policy(1, [], [], [], []));
    ActionPhases();
    PhaseExactly(d.after, "peer_down");
  }

  lemma GrantsExactly(m: Manifest, p: Policy)
    ensures GrantsComplaint(NamesOf(m.courts), PathsOf(m.corridors), p.grants).None? <==>
      && p.grants != [] && (forall i | 0 <= i < |p.grants| :: GrantOk(m, p.grants[i]))
      && SomeoneMay(p, "send") && SomeoneMay(p, "recv")
  {
    hide FirstOf, NamesOf, PathsOf, GrantComplaint, GrantOk;
    var list := GrantComplaints(NamesOf(m.courts), PathsOf(m.corridors), p.grants);
    FirstOfNone(list);
    forall i | 0 <= i < |p.grants|
      ensures list[i].None? <==> GrantOk(m, p.grants[i])
    {
      GrantExactly(m, p.grants[i]);
    }
    assert MayComplaint(p.grants, "send", NoSendGrant).None? <==> SomeoneMay(p, "send");
    assert MayComplaint(p.grants, "recv", NoRecvGrant).None? <==> SomeoneMay(p, "recv");
    hide SomeoneMay, MayComplaint;
  }

  lemma PolicyExactly(m: Manifest, p: Policy)
    ensures PolicyComplaint(NamesOf(m.courts), PathsOf(m.corridors), p).None? <==> PolicyOk(m, p)
  {
    hide FirstOf, NamesOf, PathsOf, KeysOf, GrantsComplaint, RevokeComplaint, FaultComplaint, PeerDownComplaint;
    hide GrantOk, RevokeOk, FaultOk, PeerDownOk, SomeoneMay;
    var (names, paths, keys) := (NamesOf(m.courts), PathsOf(m.corridors), KeysOf(p.grants));
    GrantsExactly(m, p);
    var (revokes, faults, downs) := (RevokeComplaints(names, paths, keys, p.revokes), FaultComplaints(names, p.faults),
      PeerDownComplaints(names, paths, p.peerDowns));
    FirstOfNone(revokes);
    FirstOfNone(faults);
    FirstOfNone(downs);
    forall i | 0 <= i < |p.revokes|
      ensures revokes[i].None? <==> RevokeOk(m, p, p.revokes[i])
    {
      RevokeExactly(m, p, p.revokes[i]);
    }
    forall i | 0 <= i < |p.faults|
      ensures faults[i].None? <==> FaultOk(m, p.faults[i])
    {
      FaultExactly(m, p.faults[i]);
    }
    forall i | 0 <= i < |p.peerDowns|
      ensures downs[i].None? <==> PeerDownOk(m, p.peerDowns[i])
    {
      PeerDownExactly(m, p.peerDowns[i]);
    }
  }

  /** A pair draws no complaint exactly when it is valid. */
  lemma AcceptedExactly(m: Manifest, p: Policy)
    ensures FirstComplaint(m, p).None? <==> ValidPair(m, p)
  {
    hide FirstOf, CourtComplaints, CorridorComplaints, PolicyComplaint, PolicyOk, CourtsOk, CorridorsOk, Count;
    CourtsExactly(m);
    CorridorsExactly(m);
    PolicyExactly(m, p);
  }

  // ----- the loops -----

  datatype Parsed = Parsed(rights: Rights) | Unparsed(error: ManifestError)

  method ParseRights(values: seq<string>) returns (r: Parsed)
    ensures match FirstOf(RightComplaints(values))
      case None => r == Parsed(RightsOf(values))
      case Some(e) => r == Unparsed(e)
  {
    hide FirstOf, RightOf, Union;
    ghost var list := RightComplaints(values);
    var rights := NONE;
    for i := 0 to |values|
      invariant forall k | 0 <= k < i :: list[k].None?
      invariant rights == RightsOf(values[..i])
    {
      var right := RightOf(values[i]);
      if right.None? {
        FirstOfAt(list, i);
        return Unparsed(UnknownRight(values[i]));
      }
      assert values[..i + 1][..i] == values[..i];
      rights := Union(rights, right.value);
    }
    FirstOfNone(list);
    assert values[..|values|] == values;
    r := Parsed(rights);
  }

  method CheckCourts(courts: seq<CourtEntry>) returns (e: Complaint, names: set<string>, apps: nat, nets: nat)
    ensures e == FirstOf(CourtComplaints(courts))
    ensures e.None? ==> names == NamesOf(courts) && apps == Count(courts, App) && nets == Count(courts, Net)
  {
    hide FirstOf;
    ghost var list := CourtComplaints(courts);
    e, names, apps, nets := None, {}, 0, 0;
    for i := 0 to |courts|
      invariant forall k | 0 <= k < i :: list[k].None?
      invariant names == NamesOf(courts[..i]) && apps == Count(courts[..i], App) && nets == Count(courts[..i], Net)
    {
      var court := courts[i];
      if court.name == "" {
        e := Some(EmptyCourtName);
        FirstOfAt(list, i);
        return;
      }
      if court.name in names {
        e := Some(DuplicateCourt(court.name));
        FirstOfAt(list, i);
        return;
      }
      assert courts[..i + 1] == courts[..i] + [court] && courts[..i + 1][..i] == courts[..i];
      NamesGrow(courts[..i], court);
      names := names + {court.name};
      match court.role {
        case App => apps := apps + 1;
        case Net => nets := nets + 1;
      }
    }
    FirstOfNone(list);
    assert courts[..|courts|] == courts;
  }

  lemma NamesGrow(courts: seq<CourtEntry>, c: CourtEntry)
    ensures NamesOf(courts + [c]) == NamesOf(courts) + {c.name}
  {
    var all := courts + [c];
    assert all[|courts|] == c;
    assert forall i | 0 <= i < |courts| :: all[i] == courts[i];
  }

  lemma PathsGrow(corridors: seq<CorridorEntry>, c: CorridorEntry)
    ensures PathsOf(corridors + [c]) == PathsOf(corridors) + {c.path}
  {
    var all := corridors + [c];
    assert all[|corridors|] == c;
    assert forall i | 0 <= i < |corridors| :: all[i] == corridors[i];
  }

  lemma KeysGrow(grants: seq<GrantEntry>, g: GrantEntry)
    ensures KeysOf(grants + [g]) == KeysOf(grants) + {(g.court, g.path)}
  {
    var all := grants + [g];
    assert all[|grants|] == g;
    assert forall i | 0 <= i < |grants| :: all[i] == grants[i];
  }

  method CheckCorridors(names: set<string>, corridors: seq<CorridorEntry>) returns (e: Complaint, paths: set<string>)
    ensures e == FirstOf(CorridorComplaints(names, corridors))
    ensures e.None? ==> paths == PathsOf(corridors)
  {
    hide FirstOf;
    ghost var list := CorridorComplaints(names, corridors);
    e, paths := None, {};
    for i := 0 to |corridors|
      invariant e.None? && paths == PathsOf(corridors[..i])
      invariant forall k | 0 <= k < i :: list[k].None?
    {
      e := CheckCorridor(names, paths, corridors, i);
      if e.Some? {
        FirstOfAt(list, i);
        return;
      }
      assert corridors[..i + 1] == corridors[..i] + [corridors[i]];
      PathsGrow(corridors[..i], corridors[i]);
      paths := paths + {corridors[i].path};
    }
    FirstOfNone(list);
    assert corridors[..|corridors|] == corridors;
  }

  method CheckCorridor(names: set<string>, paths: set<string>, corridors: seq<CorridorEntry>, i: nat)
    returns (e: Complaint)
    requires i < |corridors| && paths == PathsOf(corridors[..i])
    ensures e == CorridorComplaint(names, corridors, i)
  {
    var corridor := corridors[i];
    if !("/court/" <= corridor.path) || corridor.path == "/court/" {
      return Some(BadPath(corridor.path));
    }
    if corridor.path in paths {
      return Some(DuplicatePath(corridor.path));
    }
    if corridor.source == corridor.sink {
      return Some(SameEndpoints(corridor.path));
    }
    if corridor.source !in names {
      return Some(MissingSource(corridor.path, corridor.source));
    }
    if corridor.sink !in names {
      return Some(MissingSink(corridor.path, corridor.sink));
    }
    if corridor.capacity == 0 {
      return Some(ZeroCapacity(corridor.path));
    }
    if corridor.slotSize == 0 {
      return Some(ZeroSlotSize(corridor.path));
    }
    return None;
  }

  method CheckGrants(names: set<string>, paths: set<string>, grants: seq<GrantEntry>)
    returns (e: Complaint, keys: set<(string, string)>)
    ensures e == GrantsComplaint(names, paths, grants)
    ensures e.None? ==> keys == KeysOf(grants)
  {
    hide FirstOf, RightOf, Contains;
    ghost var list := GrantComplaints(names, paths, grants);
    keys := {};
    if grants == [] {
      return Some(NoGrants), keys;
    }
    var hasSend, hasRecv := false, false;
    for i := 0 to |grants|
      invariant keys == KeysOf(grants[..i])
      invariant forall k | 0 <= k < i :: list[k].None?
      invariant hasSend <==> exists k :: 0 <= k < i && "send" in grants[k].rights
      invariant hasRecv <==> exists k :: 0 <= k < i && "recv" in grants[k].rights
    {
      var grant := grants[i];
      e := PlaceComplaint(names, paths, grant.court, grant.path);
      if e.Some? {
        FirstOfAt(list, i);
        return;
      }
      if grant.rights == [] {
        e := Some(NoRights(grant.court, grant.path));
        FirstOfAt(list, i);
        return;
      }
      var parsed := ParseRights(grant.rights);
      if parsed.Unparsed? {
        e := Some(parsed.error);
        FirstOfAt(list, i);
        return;
      }
      SendAndRecv(grant.rights);
      if Contains(parsed.rights, SEND) {
        hasSend := true;
      }
      if Contains(parsed.rights, RECV) {
        hasRecv := true;
      }
      assert grants[..i + 1] == grants[..i] + [grant];
      KeysGrow(grants[..i], grant);
      keys := keys + {(grant.court, grant.path)};
    }
    FirstOfNone(list);
    assert grants[..|grants|] == grants;
    e := if !hasSend then Some(NoSendGrant) else if !hasRecv then Some(NoRecvGrant) else None;
  }

  lemma SendAndRecv(rights: seq<string>)
    ensures Contains(RightsOf(rights), SEND) <==> "send" in rights
    ensures Contains(RightsOf(rights), RECV) <==> "recv" in rights
  {
    NamedRights(rights, "send");
    NamedRights(rights, "recv");
  }

  method CheckRevokes(names: set<string>, paths: set<string>, keys: set<(string, string)>, revokes: seq<RevokeEntry>)
    returns (e: Complaint)
    ensures e == FirstOf(RevokeComplaints(names, paths, keys, revokes))
  {
    hide FirstOf, RevokeComplaint;
    ghost var list := RevokeComplaints(names, paths, keys, revokes);
    for i := 0 to |revokes|
      invariant forall k | 0 <= k < i :: list[k].None?
    {
      e := RevokeComplaint(names, paths, keys, revokes[i]);
      if e.Some? {
        FirstOfAt(list, i);
        return;
      }
    }
    FirstOfNone(list);
    e := None;
  }

  method CheckFaults(names: set<string>, faults: seq<FaultEntry>) returns (e: Complaint)
    ensures e == FirstOf(FaultComplaints(names, faults))
  {
    hide FirstOf, FaultComplaint;
    ghost var list := FaultComplaints(names, faults);
    for i := 0 to |faults|
      invariant forall k | 0 <= k < i :: list[k].None?
    {
      e := FaultComplaint(names, faults[i]);
      if e.Some? {
        FirstOfAt(list, i);
        return;
      }
    }
    FirstOfNone(list);
    e := None;
  }

  method CheckPeerDowns(names: set<string>, paths: set<string>, downs: seq<PeerDownEntry>) returns (e: Complaint)
    ensures e == FirstOf(PeerDownComplaints(names, paths, downs))
  {
    hide FirstOf, PeerDownComplaint;
    ghost var list := PeerDownComplaints(names, paths, downs);
    for i := 0 to |downs|
      invariant forall k | 0 <= k < i :: list[k].None?
    {
      e := PeerDownComplaint(names, paths, downs[i]);
      if e.Some? {
        FirstOfAt(list, i);
        return;
      }
    }
    FirstOfNone(list);
    e := None;
  }

  /** Accepts exactly the valid pairs, and otherwise reports the first complaint. */
  method Validate(m: Manifest, p: Policy) returns (e: Complaint)
    ensures e == FirstComplaint(m, p)
    ensures e.None? <==> ValidPair(m, p)
  {
    hide FirstOf, ValidPair, CourtComplaints, CorridorComplaints, GrantsComplaint, RevokeComplaints, FaultComplaints,
         PeerDownComplaints;
    hide NamesOf, PathsOf, KeysOf, Count;
    AcceptedExactly(m, p);
    if m.version != SCHEMA_VERSION {
      return Some(UnsupportedVersion(m.version));
    }
    if p.version != SCHEMA_VERSION {
      return Some(UnsupportedVersion(p.version));
    }
    if m.packetPayload == "" {
      return Some(EmptyPayload);
    }
    var names, apps, nets;
    e, names, apps, nets := CheckCourts(m.courts);
    if e.Some? {
      return;
    }
    if apps != 1 {
      return Some(AppCountIs(apps));
    }
    if nets < 1 {
      return Some(NoNetCourt);
    }
    if m.corridors == [] {
      return Some(NoCorridors);
    }
    var paths;
    e, paths := CheckCorridors(names, m.corridors);
    if e.Some? {
      return;
    }
    var keys;
    e, keys := CheckGrants(names, paths, p.grants);
    if e.Some? {
      return;
    }
    e := CheckRevokes(names, paths, keys, p.revokes);
    if e.Some? {
      return;
    }
    e := CheckFaults(names, p.faults);
    if e.Some? {
      return;
    }
    e := CheckPeerDowns(names, paths, p.peerDowns);
  }
}
