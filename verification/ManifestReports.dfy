/** What validation reports about a refused pair is true of it. */
module ManifestReports {
  import opened Manifests
  import ManifestChecks

  // ----- what each error says -----

  ghost predicate NamesCourt(p: Policy, court: string) {
    || (exists i :: 0 <= i < |p.grants| && p.grants[i].court == court)
    || (exists i :: 0 <= i < |p.revokes| && p.revokes[i].court == court)
    || (exists i :: 0 <= i < |p.faults| && p.faults[i].court == court)
    || (exists i :: 0 <= i < |p.peerDowns| && p.peerDowns[i].court == court)
  }

  ghost predicate NamesPath(p: Policy, path: string) {
    || (exists i :: 0 <= i < |p.grants| && p.grants[i].path == path)
    || (exists i :: 0 <= i < |p.revokes| && p.revokes[i].path == path)
    || (exists i :: 0 <= i < |p.peerDowns| && p.peerDowns[i].path == path)
  }

  /** An entry of the policy is to happen after `after`, and is one of kind `action`. */
  ghost predicate Schedules(p: Policy, after: string, action: string) {
    || (action == "revoke" && exists i :: 0 <= i < |p.revokes| && p.revokes[i].after == after)
    || (action == "fault" && exists i :: 0 <= i < |p.faults| && p.faults[i].after == after)
    || (action == "peer_down" && exists i :: 0 <= i < |p.peerDowns| && p.peerDowns[i].after == after)
  }

  /** The places at which courts of a role are listed. */
  function PlacesOf(courts: seq<CourtEntry>, role: Role): set<int> {
    set i | 0 <= i < |courts| && courts[i].role == role
  }

  ghost predicate TrueOfCourts(m: Manifest, e: ManifestError) {
    match e
    case EmptyCourtName => exists i :: 0 <= i < |m.courts| && m.courts[i].name == ""
    case DuplicateCourt(name) => exists i, j :: 0 <= i < j < |m.courts| && m.courts[i].name == m.courts[j].name == name
    case AppCountIs(n) => n != 1 && n == |PlacesOf(m.courts, App)|
    case NoNetCourt => forall i | 0 <= i < |m.courts| :: m.courts[i].role != Net
    case _ => false
  }

  ghost predicate TrueOfCorridor(m: Manifest, c: CorridorEntry, e: ManifestError) {
    match e
    case BadPath(path) => c.path == path && !("/court/" < path)
    case SameEndpoints(path) => c.path == path && c.source == c.sink
    case MissingSource(path, court) => c.path == path && c.source == court && !HasCourt(m, court)
    case MissingSink(path, court) => c.path == path && c.sink == court && !HasCourt(m, court)
    case ZeroCapacity(path) => c.path == path && c.capacity == 0
    case ZeroSlotSize(path) => c.path == path && c.slotSize == 0
    case _ => false
  }

  ghost predicate TrueOfCorridors(m: Manifest, e: ManifestError) {
    match e
    case NoCorridors => m.corridors == []
    case DuplicatePath(path) =>
      exists i, j :: 0 <= i < j < |m.corridors| && m.corridors[i].path == m.corridors[j].path == path
    case _ => exists i :: 0 <= i < |m.corridors| && TrueOfCorridor(m, m.corridors[i], e)
  }

  ghost predicate TrueOfPolicy(m: Manifest, p: Policy, e: ManifestError) {
    match e
    case NoGrants => p.grants == []
    case UnknownCourt(court) => !HasCourt(m, court) && NamesCourt(p, court)
    case UnknownPath(path) => !HasPath(m, path) && NamesPath(p, path)
    case NoRights(court, path) =>
      exists i ::
        0 <= i < |p.grants| && p.grants[i].court == court && p.grants[i].path == path && p.grants[i].rights == []
    case UnknownRight(name) => name !in RIGHT_NAMES && exists i :: 0 <= i < |p.grants| && name in p.grants[i].rights
    case NoSendGrant => !SomeoneMay(p, "send")
    case NoRecvGrant => !SomeoneMay(p, "recv")
    case NoMatchingGrant(court, path) =>
      && !HasGrant(p, court, path)
      && exists i :: 0 <= i < |p.revokes| && p.revokes[i].court == court && p.revokes[i].path == path
    case NoFaultReason(court) => exists i ::
      0 <= i < |p.faults| && p.faults[i].court == court && p.faults[i].reason == ""
    case UnknownPhase(name) => name !in PHASE_ORDER && exists action :: Schedules(p, name, action)
    case PhaseNotBefore(after, action) =>
      after in PHASE_ORDER && !Before(after, action) && Schedules(p, after, action)
    case _ => false
  }

  ghost predicate TrueOf(m: Manifest, p: Policy, e: ManifestError) {
    match e
    case UnsupportedVersion(v) => v != 1 && (m.version == v || p.version == v)
    case EmptyPayload => m.packetPayload == ""
    case _ => TrueOfCourts(m, e) || TrueOfCorridors(m, e) || TrueOfPolicy(m, p, e)
  }

  // ----- each complaint -----

  lemma {:induction false} FirstOfSome(complaints: seq<Complaint>) returns (k: nat)
    requires FirstOf(complaints).Some?
    ensures k < |complaints| && complaints[k] == FirstOf(complaints)
  {
    if complaints[0].Some? {
      k := 0;
    } else {
      k := FirstOfSome(complaints[1..]);
      k := k + 1;
    }
  }

  lemma PlacesGrow(courts: seq<CourtEntry>, role: Role, last: nat)
    requires |courts| == last + 1
    ensures PlacesOf(courts, role) == PlacesOf(courts[..last], role) + if courts[last].role == role then {last} else {}
    ensures last !in PlacesOf(courts[..last], role)
  {
  }

  lemma {:induction false} CountIs(courts: seq<CourtEntry>, role: Role)
    ensures Count(courts, role) == |PlacesOf(courts, role)|
  {
    if courts != [] {
      var last := |courts| - 1;
      CountIs(courts[..last], role);
      PlacesGrow(courts, role, last);
      hide PlacesOf;
    }
  }

  lemma CourtsTrue(m: Manifest)
    ensures FirstOf(CourtComplaints(m.courts)).Some? ==> TrueOfCourts(m, FirstOf(CourtComplaints(m.courts)).value)
    ensures Count(m.courts, App) != 1 ==> TrueOfCourts(m, AppCountIs(Count(m.courts, App)))
    ensures Count(m.courts, Net) < 1 ==> TrueOfCourts(m, NoNetCourt)
  {
    hide FirstOf, Count;
    CountIs(m.courts, App);
    ManifestChecks.CountZero(m.courts, Net);
    if FirstOf(CourtComplaints(m.courts)).Some? {
      var k := FirstOfSome(CourtComplaints(m.courts));
      if m.courts[k].name != "" {
        var i :| 0 <= i < k && m.courts[..k][i].name == m.courts[k].name;
        assert m.courts[i].name == m.courts[k].name;
      }
    }
  }

  lemma CorridorsTrue(m: Manifest)
    ensures var e := FirstOf(CorridorComplaints(NamesOf(m.courts), m.corridors));
      e.Some? ==> TrueOfCorridors(m, e.value)
  {
    hide FirstOf;
    var list := CorridorComplaints(NamesOf(m.courts), m.corridors);
    if FirstOf(list).Some? {
      var k := FirstOfSome(list);
      ManifestChecks.Sets(m, Policy(1, [], [], [], []));
      hide NamesOf, HasCourt;
      var c := m.corridors[k];
      if list[k].value == DuplicatePath(c.path) {
        var i :| 0 <= i < k && m.corridors[..k][i].path == c.path;
        assert m.corridors[i].path == m.corridors[k].path;
      } else {
        assert TrueOfCorridor(m, c, list[k].value);
      }
    }
  }

  lemma GrantTrue(m: Manifest, p: Policy, k: nat)
    requires k < |p.grants|
    ensures var e := GrantComplaint(NamesOf(m.courts), PathsOf(m.corridors), p.grants[k]);
      e.Some? ==> TrueOfPolicy(m, p, e.value)
  {
    hide FirstOf, RightOf, Before;
    ManifestChecks.Sets(m, p);
    hide NamesOf, PathsOf, HasCourt, HasPath;
    var g := p.grants[k];
    if FirstOf(RightComplaints(g.rights)).Some? {
      var j := FirstOfSome(RightComplaints(g.rights));
      NamesInOrder(g.rights[j]);
      assert g.rights[j] in g.rights;
    }
  }

  lemma PhaseTrue(m: Manifest, p: Policy, after: string, action: string)
    requires Schedules(p, after, action)
    ensures var e := PhaseComplaint(after, action); e.Some? ==> TrueOfPolicy(m, p, e.value)
  {
    hide Before, Position, Schedules;
    assert action in PHASE_ORDER by {
      ScheduledPhases(p, after, action);
    }
    ManifestChecks.PhaseExactly(after, action);
    if PhaseIndex(after).Some? {
      ManifestChecks.IndexIs(after);
      assert after in PHASE_ORDER;
    }
  }

  lemma ScheduledPhases(p: Policy, after: string, action: string)
    requires Schedules(p, after, action)
    ensures action in PHASE_ORDER
  {
    ManifestChecks.ActionPhases();
  }

  lemma RevokeTrue(m: Manifest, p: Policy, k: nat)
    requires k < |p.revokes|
    ensures var e := RevokeComplaint(NamesOf(m.courts), PathsOf(m.corridors), KeysOf(p.grants), p.revokes[k]);
      e.Some? ==> TrueOfPolicy(m, p, e.value)
  {
    hide PhaseComplaint, Before;
    ManifestChecks.Sets(m, p);
    hide NamesOf, PathsOf, KeysOf, HasCourt, HasPath, HasGrant;
    assert Schedules(p, p.revokes[k].after, "revoke");
    PhaseTrue(m, p, p.revokes[k].after, "revoke");
  }

  lemma FaultTrue(m: Manifest, p: Policy, k: nat)
    requires k < |p.faults|
    ensures var e := FaultComplaint(NamesOf(m.courts), p.faults[k]); e.Some? ==> TrueOfPolicy(m, p, e.value)
  {
    hide PhaseComplaint, Before;
    ManifestChecks.Sets(m, p);
    hide NamesOf, PathsOf, KeysOf, HasCourt, HasPath, HasGrant;
    assert Schedules(p, p.faults[k].after, "fault");
    PhaseTrue(m, p, p.faults[k].after, "fault");
  }

  lemma PeerDownTrue(m: Manifest, p: Policy, k: nat)
    requires k < |p.peerDowns|
    ensures var e := PeerDownComplaint(NamesOf(m.courts), PathsOf(m.corridors), p.peerDowns[k]);
      e.Some? ==> TrueOfPolicy(m, p, e.value)
  {
    hide PhaseComplaint, Before;
    ManifestChecks.Sets(m, p);
    hide NamesOf, PathsOf, KeysOf, HasCourt, HasPath, HasGrant;
    assert Schedules(p, p.peerDowns[k].after, "peer_down");
    PhaseTrue(m, p, p.peerDowns[k].after, "peer_down");
  }

  lemma PolicyTrue(m: Manifest, p: Policy)
    ensures var e := PolicyComplaint(NamesOf(m.courts), PathsOf(m.corridors), p);
      e.Some? ==> TrueOfPolicy(m, p, e.value)
  {
    hide FirstOf, NamesOf, PathsOf, KeysOf, GrantComplaint, RevokeComplaint, FaultComplaint, PeerDownComplaint,
         TrueOfPolicy;
    var (names, paths, keys) := (NamesOf(m.courts), PathsOf(m.corridors), KeysOf(p.grants));
    GrantsTrue(m, p);
    if FirstOf(RevokeComplaints(names, paths, keys, p.revokes)).Some? {
      var k := FirstOfSome(RevokeComplaints(names, paths, keys, p.revokes));
      RevokeTrue(m, p, k);
    }
    if FirstOf(FaultComplaints(names, p.faults)).Some? {
      var k := FirstOfSome(FaultComplaints(names, p.faults));
      FaultTrue(m, p, k);
    }
    if FirstOf(PeerDownComplaints(names, paths, p.peerDowns)).Some? {
      var k := FirstOfSome(PeerDownComplaints(names, paths, p.peerDowns));
      PeerDownTrue(m, p, k);
    }
    hide GrantsComplaint;
  }

  lemma GrantsTrue(m: Manifest, p: Policy)
    ensures var e := GrantsComplaint(NamesOf(m.courts), PathsOf(m.corridors), p.grants);
      e.Some? ==> TrueOfPolicy(m, p, e.value)
  {
    hide FirstOf, NamesOf, PathsOf, GrantComplaint;
    if FirstOf(GrantComplaints(NamesOf(m.courts), PathsOf(m.corridors), p.grants)).Some? {
      var k := FirstOfSome(GrantComplaints(NamesOf(m.courts), PathsOf(m.corridors), p.grants));
      GrantTrue(m, p, k);
    }
    assert MayComplaint(p.grants, "send", NoSendGrant).None? <==> SomeoneMay(p, "send");
    assert MayComplaint(p.grants, "recv", NoRecvGrant).None? <==> SomeoneMay(p, "recv");
  }

  /** The complaint validation reports is true of the pair: it names an entry that is there
      and is wrong in the way it says. */
  lemma ReportsTrue(m: Manifest, p: Policy)
    ensures FirstComplaint(m, p).Some? ==> TrueOf(m, p, FirstComplaint(m, p).value)
  {
    hide FirstOf, CourtComplaints, CorridorComplaints, PolicyComplaint, Count, TrueOfCourts, TrueOfCorridors,
         TrueOfPolicy;
    CourtsTrue(m);
    CorridorsTrue(m);
    NoCorridorsTrue(m);
    PolicyTrue(m, p);
    KindsApart(m, p);
  }

  lemma NoCorridorsTrue(m: Manifest)
    ensures m.corridors == [] ==> TrueOfCorridors(m, NoCorridors)
  {
  }

  lemma KindsApart(m: Manifest, p: Policy)
    ensures forall e: ManifestError | e.UnsupportedVersion? || e.EmptyPayload? ::
      !TrueOfCourts(m, e) && !TrueOfCorridors(m, e) && !TrueOfPolicy(m, p, e)
  {
  }
}
