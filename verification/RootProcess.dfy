/** The root process's state as an object, its loops over manifest and policy included. */
module RootProcess {
  import opened Capabilities
  import opened MachineWords
  import opened HostedState
  import opened Manifests
  import opened DemoState
  import DemoTheorems
  import HostedDecisions
  import HostedInvariant
  import HostedRoots
  import ManifestChecks
  import RingProtocol
  import WireProtocol

  /** The rights of every grant, parsed before any is made. */
  method ResolveGrants(grants: seq<GrantEntry>) returns (e: Complaint, resolved: seq<Resolved>)
    ensures e.None? <==> forall i | 0 <= i < |grants| :: FirstOf(RightComplaints(grants[i].rights)).None?
    ensures e.None? ==> resolved == DemoTheorems.ResolveAll(grants)
    ensures e.Some? ==> exists i :: 0 <= i < |grants| && e == FirstOf(RightComplaints(grants[i].rights))
  {
    hide FirstOf, RightComplaints, RightsOf;
    resolved := [];
    for i := 0 to |grants|
      invariant |resolved| == i && forall k | 0 <= k < i :: resolved[k] == Resolve(grants[k])
      invariant forall k | 0 <= k < i :: FirstOf(RightComplaints(grants[k].rights)).None?
    {
      var parsed := ManifestChecks.ParseRights(grants[i].rights);
      if parsed.Unparsed? {
        return Some(parsed.error), resolved;
      }
      resolved := resolved + [Resolved(grants[i].court, grants[i].path, parsed.rights)];
    }
    e := None;
  }

  class RootState {
    const root: HostedRoots.HostedRoot
    var courtIds: map<string, CourtId>
    var descriptors: map<string, Descriptor>
    var capsById: map<nat, CapId>
    var capsByKey: map<Key, (CapId, Rights)>

    ghost function Value(): Demo
      reads this, root, root.registry
    {
      Demo(root.Value(), courtIds, descriptors, capsById, capsByKey)
    }

    ghost predicate Valid()
      reads this, root, root.registry
    {
      root.Valid()
    }

    constructor ()
      ensures Valid() && Value() == AddCourts([]) && fresh(root) && fresh(root.registry)
    {
      root := new HostedRoots.HostedRoot();
      courtIds, descriptors, capsById, capsByKey := map[], map[], map[], map[];
    }

    method BuildCourts(courts: seq<CourtEntry>)
      requires Valid() && Value() == AddCourts([])
      modifies this, root, root.registry
      ensures Valid() && Value() == AddCourts(courts)
    {
      hide HostedState.CreateCourt, HostedInvariant.Inv;
      for i := 0 to |courts|
        invariant Valid() && Value() == AddCourts(courts[..i])
      {
        var name := courts[i].name;
        var court := root.CreateCourt(name);
        courtIds := courtIds[name := court];
        assert courts[..i + 1][..i] == courts[..i];
      }
      assert courts[..|courts|] == courts;
    }

    /** Fills a new state from the manifest. */
    method Build(m: Manifest) returns (e: Option<DemoError>)
      requires Valid() && Value() == AddCourts([])
      modifies this, root, root.registry
      ensures Valid()
      ensures BuildState(m) == if e.None? then Went(Value()) else Aborted(e.value)
    {
      hide AddCourts, AddCorridor, HostedInvariant.Inv;
      BuildCourts(m.courts);
      ghost var start := Value();
      for i := 0 to |m.corridors|
        invariant Valid() && AddCorridors(start, m.corridors[..i]) == Went(Value())
      {
        assert m.corridors[..i + 1][..i] == m.corridors[..i];
        e := BuildCorridor(m.corridors[i]);
        if e.Some? {
          StaysAborted(start, m.corridors, i + 1);
          return;
        }
      }
      assert m.corridors[..|m.corridors|] == m.corridors;
      e := if m.corridors == [] then Some(NoCorridor) else None;
    }

    method BuildCorridor(c: CorridorEntry) returns (e: Option<DemoError>)
      requires Valid()
      modifies this, root, root.registry
      ensures Valid() && AddCorridor(old(Value()), c) == if e.None? then Went(Value()) else Aborted(e.value)
    {
      hide HostedState.CreateCorridor, HostedState.Lookup, RingProtocol.TotalLen, HostedDecisions.Permitted,
           HostedInvariant.Inv;
      if c.source !in courtIds {
        return Some(MissingCourt(c.source));
      }
      if c.sink !in courtIds {
        return Some(MissingCourt(c.sink));
      }
      var target := root.CreateCorridor(c.path, courtIds[c.source], courtIds[c.sink], SharedRing, c.capacity);
      if target.Err? {
        return Some(Core(target.error));
      }
      var d := root.Lookup(courtIds[c.source], c.path);
      if d.Err? {
        return Some(Core(d.error));
      }
      descriptors := descriptors[c.path := d.value];
      if RingProtocol.TotalLen(c.capacity, c.slotSize).None? {
        return Some(RingTooLarge(c.path));
      }
      e := None;
    }

    method GrantAndOpen(g: Resolved, request: Request) returns (granted: Granted)
      requires Valid()
      modifies this, root, root.registry
      ensures Valid() && (Value(), granted) == DemoState.GrantAndOpen(old(Value()), g, request)
    {
      hide HostedState.GrantCorridorCap, HostedState.Open, WireProtocol.Known, HostedDecisions.Permitted,
           HostedInvariant.Inv;
      if g.court !in courtIds {
        return Refused(MissingCourt(g.court));
      }
      if g.path !in descriptors {
        return Refused(MissingDescriptor(g.path));
      }
      var court, d := courtIds[g.court], descriptors[g.path];
      var cap := root.GrantCorridorCap(court, d, g.rights);
      if cap.Err? {
        return Refused(Core(cap.error));
      }
      capsById := capsById[cap.value := cap.value];
      capsByKey := capsByKey[(g.court, g.path) := (cap.value, g.rights)];
      if !request.OpenRequest? || request.path != g.path || request.cap.None? {
        return Refused(UnexpectedMessage);
      }
      if request.cap.value !in capsById {
        return Refused(OpenWithUnknownCap);
      }
      var rights := WireProtocol.ToRights(request.rights);
      var answer := root.Open(court, d, Some(capsById[request.cap.value]), rights);
      if answer.Err? {
        return Refused(OpenFailed(answer.error));
      }
      granted := Granted(cap.value);
    }

    method RunGrants(grants: seq<Resolved>, requests: seq<Request>) returns (e: Option<DemoError>, caps: seq<CapId>)
      requires Valid() && |requests| == |grants|
      modifies this, root, root.registry
      ensures Valid()
      ensures DemoState.RunGrants(old(Value()), grants, requests) == if e.None? then Ran(Value(), caps)
        else Stopped(Value(), e.value)
    {
      hide DemoState.GrantAndOpen, HostedInvariant.Inv;
      ghost var start := Value();
      caps := [];
      for i := 0 to |grants|
        invariant Valid() && DemoState.RunGrants(start, grants[..i], requests[..i]) == Ran(Value(), caps)
      {
        assert grants[..i + 1][..i] == grants[..i] && requests[..i + 1][..i] == requests[..i];
        var granted := GrantAndOpen(grants[i], requests[i]);
        if granted.Refused? {
          e := Some(granted.error);
          StaysStopped(start, grants, requests, i + 1);
          return;
        }
        caps := caps + [granted.cap];
      }
      assert grants[..|grants|] == grants && requests[..|grants|] == requests;
      e := None;
    }

    method RunRevokes(revokes: seq<RevokeEntry>) returns (e: Option<DemoError>)
      requires Valid()
      modifies this, root, root.registry
      ensures Valid()
      ensures DemoState.RunRevokes(old(Value()), revokes) == if e.None? then Went(Value()) else Aborted(e.value)
    {
      hide HostedState.RevokeCap, HostedDecisions.Permitted, HostedInvariant.Inv;
      ghost var start := Value();
      for i := 0 to |revokes|
        invariant Valid() && DemoState.RunRevokes(start, revokes[..i]) == Went(Value())
      {
        var (court, path) := (revokes[i].court, revokes[i].path);
        assert revokes[..i + 1][..i] == revokes[..i];
        if (court, path) !in capsByKey {
          e := Some(NoCapFor(court, path));
          StaysRevoked(start, revokes, i + 1);
          return;
        }
        var done := root.Revoke(capsByKey[(court, path)].0);
        if done.Err? {
          e := Some(Core(done.error));
          StaysRevoked(start, revokes, i + 1);
          return;
        }
      }
      assert revokes[..|revokes|] == revokes;
      e := None;
    }
  }

  lemma {:induction false} StaysAborted(s: Demo, corridors: seq<CorridorEntry>, i: nat)
    requires i <= |corridors| && AddCorridors(s, corridors[..i]).Aborted?
    ensures AddCorridors(s, corridors) == AddCorridors(s, corridors[..i])
    decreases |corridors|
  {
    hide AddCorridor;
    if i == |corridors| {
      assert corridors[..i] == corridors;
    } else {
      var front := corridors[..|corridors| - 1];
      assert front[..i] == corridors[..i];
      StaysAborted(s, front, i);
    }
  }

  lemma {:induction false} StaysStopped(s: Demo, grants: seq<Resolved>, requests: seq<Request>, i: nat)
    requires i <= |grants| == |requests| && DemoState.RunGrants(s, grants[..i], requests[..i]).Stopped?
    ensures DemoState.RunGrants(s, grants, requests) == DemoState.RunGrants(s, grants[..i], requests[..i])
    decreases |grants|
  {
    hide DemoState.GrantAndOpen;
    if i == |grants| {
      assert grants[..i] == grants && requests[..i] == requests;
    } else {
      var (front, asked) := (grants[..|grants| - 1], requests[..|grants| - 1]);
      assert front[..i] == grants[..i] && asked[..i] == requests[..i];
      StaysStopped(s, front, asked, i);
    }
  }

  lemma {:induction false} StaysRevoked(s: Demo, revokes: seq<RevokeEntry>, i: nat)
    requires i <= |revokes| && DemoState.RunRevokes(s, revokes[..i]).Aborted?
    ensures DemoState.RunRevokes(s, revokes) == DemoState.RunRevokes(s, revokes[..i])
    decreases |revokes|
  {
    hide RevokeOne;
    if i == |revokes| {
      assert revokes[..i] == revokes;
    } else {
      var front := revokes[..|revokes| - 1];
      assert front[..i] == revokes[..i];
      StaysRevoked(s, front, i);
    }
  }
}
