/** The root process's bookkeeping around the hosted root: courts and corridors from
    the manifest, the capability tables filled by the grants and used by the revokes. */
module DemoState {
  import opened Capabilities
  import opened MachineWords
  import opened HostedState
  import opened Manifests
  import RingProtocol
  import WireProtocol

  type Key = (string, string)

  datatype Demo = Demo(
    root: Root,
    courtIds: map<string, CourtId>,
    descriptors: map<string, Descriptor>,
    capsById: map<nat, CapId>,
    capsByKey: map<Key, (CapId, Rights)>)

  datatype DemoError =
    | MissingCourt(court: string)
    | MissingDescriptor(path: string)
    | NoCorridor
    | Core(error: CkError)
    | RingTooLarge(path: string)
    | OpenFailed(error: CkError)
    | OpenWithUnknownCap
    | UnexpectedMessage
    | NoCapFor(court: string, path: string)

  datatype Outcome = Went(demo: Demo) | Aborted(error: DemoError)

  // ----- build -----

  function AddCourt(s: Demo, name: string): Demo {
    var (root, court) := CreateCourt(s.root, name);
    s.(root := root, courtIds := s.courtIds[name := court])
  }

  function AddCourts(courts: seq<CourtEntry>): Demo {
    if courts == [] then Demo(START, map[], map[], map[], map[])
    else AddCourt(AddCourts(courts[..|courts| - 1]), courts[|courts| - 1].name)
  }

  function AddCorridor(s: Demo, c: CorridorEntry): Outcome {
    if c.source !in s.courtIds then Aborted(MissingCourt(c.source))
    else if c.sink !in s.courtIds then Aborted(MissingCourt(c.sink))
    else
      var (made, target) := CreateCorridor(s.root, c.path, s.courtIds[c.source], s.courtIds[c.sink], SharedRing,
        c.capacity);
      if target.Err? then Aborted(Core(target.error))
      else
        var (found, d) := Lookup(made, s.courtIds[c.source], c.path);
        if d.Err? then Aborted(Core(d.error))
        else if RingProtocol.TotalLen(c.capacity, c.slotSize).None? then Aborted(RingTooLarge(c.path))
        else Went(s.(root := found, descriptors := s.descriptors[c.path := d.value]))
  }

  function AddCorridors(s: Demo, corridors: seq<CorridorEntry>): Outcome {
    if corridors == [] then Went(s)
    else
      var before := AddCorridors(s, corridors[..|corridors| - 1]);
      if before.Aborted? then before else AddCorridor(before.demo, corridors[|corridors| - 1])
  }

  function BuildState(m: Manifest): Outcome {
    var built := AddCorridors(AddCourts(m.courts), m.corridors);
    if built.Went? && m.corridors == [] then Aborted(NoCorridor) else built
  }

  // ----- grants -----

  datatype Resolved = Resolved(court: string, path: string, rights: Rights)

  function Resolve(g: GrantEntry): Resolved {
    Resolved(g.court, g.path, RightsOf(g.rights))
  }

  /** What a court answers to a grant. */
  datatype Request = OpenRequest(path: string, cap: Option<nat>, rights: WireProtocol.WireRights) | OtherMessage

  datatype Granted = Granted(cap: CapId) | Refused(error: DemoError)

  /** A capability granted and entered in both tables. */
  function GrantCap(s: Demo, g: Resolved): (Demo, Granted) {
    if g.court !in s.courtIds then (s, Refused(MissingCourt(g.court)))
    else if g.path !in s.descriptors then (s, Refused(MissingDescriptor(g.path)))
    else
      var (root, cap) := GrantCorridorCap(s.root, s.courtIds[g.court], s.descriptors[g.path], g.rights);
      if cap.Err? then (s.(root := root), Refused(Core(cap.error)))
      else
        (s.(root := root, capsById := s.capsById[cap.value := cap.value],
            capsByKey := s.capsByKey[(g.court, g.path) := (cap.value, g.rights)]),
         Granted(cap.value))
  }

  /** The court's open request, made against the corridor just granted. */
  function OpenStep(s: Demo, g: Resolved, request: Request): (Demo, Option<DemoError>)
    requires g.court in s.courtIds && g.path in s.descriptors
  {
    if request.OpenRequest? && request.path == g.path && request.cap.Some? then
      if request.cap.value in s.capsById then
        var (root, r) := Open(s.root, s.courtIds[g.court], s.descriptors[g.path], Some(s.capsById[request.cap.value]),
                              WireProtocol.Known(request.rights));
        (s.(root := root), if r.Ok? then None else Some(OpenFailed(r.error)))
      else (s, Some(OpenWithUnknownCap))
    else (s, Some(UnexpectedMessage))
  }

  function GrantAndOpen(s: Demo, g: Resolved, request: Request): (Demo, Granted) {
    var (s1, granted) := GrantCap(s, g);
    if granted.Refused? then (s1, granted)
    else
      var (s2, failed) := OpenStep(s1, g, request);
      (s2, if failed.None? then granted else Refused(failed.value))
  }

  datatype Ran = Ran(demo: Demo, caps: seq<CapId>) | Stopped(demo: Demo, error: DemoError)

  /** All grants in order, up to the first that fails. */
  function RunGrants(s: Demo, grants: seq<Resolved>, requests: seq<Request>): Ran
    requires |grants| == |requests|
    decreases |grants|
  {
    if grants == [] then Ran(s, [])
    else
      var n := |grants| - 1;
      var before := RunGrants(s, grants[..n], requests[..n]);
      if before.Stopped? then before
      else
        var (after, granted) := GrantAndOpen(before.demo, grants[n], requests[n]);
        if granted.Granted? then Ran(after, before.caps + [granted.cap]) else Stopped(after, granted.error)
  }

  // ----- revokes -----

  function RevokeOne(s: Demo, r: RevokeEntry): Outcome {
    if (r.court, r.path) !in s.capsByKey then Aborted(NoCapFor(r.court, r.path))
    else
      var (root, done) := RevokeCap(s.root, s.capsByKey[(r.court, r.path)].0);
      if done.Err? then Aborted(Core(done.error)) else Went(s.(root := root))
  }

  function RunRevokes(s: Demo, revokes: seq<RevokeEntry>): Outcome {
    if revokes == [] then Went(s)
    else
      var before := RunRevokes(s, revokes[..|revokes| - 1]);
      if before.Aborted? then before else RevokeOne(before.demo, revokes[|revokes| - 1])
  }
}
