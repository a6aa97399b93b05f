/** Manifest and policy files, and what accepting a pair of them means. */
module Manifests {
  import opened Capabilities
  import opened MachineWords

  const SCHEMA_VERSION := 1

  /** The demo's pipeline, in order. */
  const PHASE_ORDER := [
    "lookup", "open_denied", "grant", "open", "send", "recv", "revoke", "send_after_revoke",
    "fault", "court_fault", "peer_down", "demo_done"]

  datatype Role = App | Net

  datatype CourtEntry = CourtEntry(name: string, role: Role)
  datatype CorridorEntry = CorridorEntry(path: string, source: string, sink: string, capacity: HalfWord,
    slotSize: HalfWord)
  datatype Manifest = Manifest(version: nat, courts: seq<CourtEntry>, corridors: seq<CorridorEntry>,
    packetPayload: string)

  datatype GrantEntry = GrantEntry(court: string, path: string, rights: seq<string>)
  datatype RevokeEntry = RevokeEntry(court: string, path: string, after: string)
  datatype FaultEntry = FaultEntry(court: string, after: string, reason: string)
  datatype PeerDownEntry = PeerDownEntry(court: string, path: string, after: string)
  datatype Policy = Policy(version: nat, grants: seq<GrantEntry>, revokes: seq<RevokeEntry>, faults: seq<FaultEntry>,
    peerDowns: seq<PeerDownEntry>)

  datatype ManifestError =
    | UnsupportedVersion(version: nat)
    | EmptyPayload
    | EmptyCourtName
    | DuplicateCourt(name: string)
    | AppCountIs(count: nat)
    | NoNetCourt
    | NoCorridors
    | BadPath(path: string)
    | DuplicatePath(path: string)
    | SameEndpoints(path: string)
    | MissingSource(path: string, court: string)
    | MissingSink(path: string, court: string)
    | ZeroCapacity(path: string)
    | ZeroSlotSize(path: string)
    | NoGrants
    | UnknownCourt(court: string)
    | UnknownPath(path: string)
    | NoRights(court: string, path: string)
    | UnknownRight(name: string)
    | NoSendGrant
    | NoRecvGrant
    | NoMatchingGrant(court: string, path: string)
    | NoFaultReason(court: string)
    | UnknownPhase(name: string)
    | PhaseNotBefore(after: string, action: string)

  // ----- rights and phases -----

  function RightOf(name: string): Option<Rights> {
    if name == "read" then Some(READ)
    else if name == "write" then Some(WRITE)
    else if name == "send" then Some(SEND)
    else if name == "recv" then Some(RECV)
    else if name == "delegate" then Some(DELEGATE)
    else if name == "revoke" then Some(REVOKE)
    else if name == "observe" then Some(OBSERVE)
    else None
  }

  /** The names of rights, in the order of their bits. */
  const RIGHT_NAMES := ["read", "write", "send", "recv", "delegate", "revoke", "observe"]

  /** A name stands for the bit at its place, and nothing else is a right. */
  lemma NamesInOrder(name: string)
    ensures RightOf(name).Some? <==> name in RIGHT_NAMES
    ensures forall i | 0 <= i < 7 :: RightOf(RIGHT_NAMES[i]) == Some((1 as bv64) << i)
  {
    assert RIGHT_NAMES[0] == "read" && RIGHT_NAMES[1] == "write" && RIGHT_NAMES[2] == "send"
      && RIGHT_NAMES[3] == "recv";
    assert RIGHT_NAMES[4] == "delegate" && RIGHT_NAMES[5] == "revoke" && RIGHT_NAMES[6] == "observe";
  }

  function Union(a: Rights, b: Rights): Rights { a | b }

  /** The union of the named rights. */
  function RightsOf(names: seq<string>): Rights {
    if names == [] then NONE
    else
      var last := RightOf(names[|names| - 1]);
      Union(RightsOf(names[..|names| - 1]), if last.Some? then last.value else NONE)
  }

  predicate IsRight(r: Rights) {
    r == READ || r == WRITE || r == SEND || r == RECV || r == DELEGATE || r == REVOKE || r == OBSERVE
  }

  lemma RightIs(name: string)
    requires RightOf(name).Some?
    ensures IsRight(RightOf(name).value)
  {
  }

  lemma RightsDiffer(name: string, other: string)
    requires RightOf(name).Some? && RightOf(name) == RightOf(other)
    ensures name == other
  {
  }

  lemma OneBit(held: Rights, a: Rights, b: Rights, union: Rights)
    requires IsRight(a) && IsRight(b) && union == Union(held, b)
    ensures Contains(union, a) <==> Contains(held, a) || a == b
  {
  }

  lemma NoBits(held: Rights)
    ensures Union(held, NONE) == held
  {
  }

  lemma NoneHolds(a: Rights)
    requires IsRight(a)
    ensures !Contains(NONE, a)
  {
  }

  /** A right is in the union exactly when its name is on the list. */
  lemma {:induction false} NamedRights(names: seq<string>, name: string)
    requires RightOf(name).Some?
    ensures Contains(RightsOf(names), RightOf(name).value) <==> name in names
  {
    hide RightOf, Contains, IsRight, Union;
    RightIs(name);
    if names == [] {
      NoneHolds(RightOf(name).value);
    } else {
      var (front, last) := (names[..|names| - 1], names[|names| - 1]);
      NamedRights(front, name);
      assert names == front + [last];
      if RightOf(last).Some? {
        RightIs(last);
        OneBit(RightsOf(front), RightOf(name).value, RightOf(last).value, RightsOf(names));
        if RightOf(last) == RightOf(name) {
          RightsDiffer(name, last);
        }
      } else {
        NoBits(RightsOf(front));
      }
    }
  }

  /** Only named rights are in the union. */
  lemma {:induction false} NothingElse(names: seq<string>)
    ensures RightsOf(names) & 0x7f == RightsOf(names)
  {
    hide RightOf;
    if names != [] {
      NothingElse(names[..|names| - 1]);
      var last := names[|names| - 1];
      if RightOf(last).Some? {
        RightIs(last);
      }
    }
  }

  /** Index of a name on a list. */
  function Position(names: seq<string>, name: string): (r: Option<nat>)
    ensures r.Some? ==> r.value < |names| && names[r.value] == name && name !in names[..r.value]
    ensures r.None? ==> name !in names
  {
    if names == [] then None
    else if names[0] == name then Some(0)
    else
      var rest := Position(names[1..], name);
      if rest.None? then None else Some(rest.value + 1)
  }

  function PhaseIndex(name: string): Option<nat> { Position(PHASE_ORDER, name) }

  /** `after` is a phase that comes strictly before `action`. */
  ghost predicate Before(after: string, action: string) {
    exists i, j :: 0 <= i < j < |PHASE_ORDER| && PHASE_ORDER[i] == after && PHASE_ORDER[j] == action
  }

  // ----- what a valid pair is -----

  ghost predicate HasCourt(m: Manifest, name: string) {
    exists i :: 0 <= i < |m.courts| && m.courts[i].name == name
  }

  ghost predicate HasPath(m: Manifest, path: string) {
    exists i :: 0 <= i < |m.corridors| && m.corridors[i].path == path
  }

  ghost predicate HasGrant(p: Policy, court: string, path: string) {
    exists i :: 0 <= i < |p.grants| && p.grants[i].court == court && p.grants[i].path == path
  }

  ghost predicate SomeoneMay(p: Policy, right: string) {
    exists i :: 0 <= i < |p.grants| && right in p.grants[i].rights
  }

  ghost predicate OnlyAppAt(courts: seq<CourtEntry>, i: nat) {
    i < |courts| && forall j | 0 <= j < |courts| :: courts[j].role == App <==> j == i
  }

  ghost predicate OneApp(m: Manifest) {
    exists i :: OnlyAppAt(m.courts, i)
  }

  ghost predicate CourtsOk(m: Manifest) {
    && (forall i | 0 <= i < |m.courts| :: m.courts[i].name != "")
    && (forall i, j | 0 <= i < j < |m.courts| :: m.courts[i].name != m.courts[j].name)
    && OneApp(m) && (exists i :: 0 <= i < |m.courts| && m.courts[i].role == Net)
  }

  ghost predicate CorridorOk(m: Manifest, c: CorridorEntry) {
    && "/court/" < c.path && c.source != c.sink && HasCourt(m, c.source) && HasCourt(m, c.sink)
    && c.capacity > 0 && c.slotSize > 0
  }

  ghost predicate CorridorsOk(m: Manifest) {
    && (forall i | 0 <= i < |m.corridors| :: CorridorOk(m, m.corridors[i]))
    && (forall i, j | 0 <= i < j < |m.corridors| :: m.corridors[i].path != m.corridors[j].path)
    && m.corridors != []
  }

  ghost predicate GrantOk(m: Manifest, g: GrantEntry) {
    HasCourt(m, g.court) && HasPath(m, g.path) && g.rights != [] && forall k | 0 <= k < |g.rights| ::
      RightOf(g.rights[k]).Some?
  }

  ghost predicate RevokeOk(m: Manifest, p: Policy, r: RevokeEntry) {
    HasCourt(m, r.court) && HasPath(m, r.path) && HasGrant(p, r.court, r.path) && Before(r.after, "revoke")
  }

  ghost predicate FaultOk(m: Manifest, f: FaultEntry) {
    HasCourt(m, f.court) && f.reason != "" && Before(f.after, "fault")
  }

  ghost predicate PeerDownOk(m: Manifest, d: PeerDownEntry) {
    HasCourt(m, d.court) && HasPath(m, d.path) && Before(d.after, "peer_down")
  }

  ghost predicate PolicyOk(m: Manifest, p: Policy) {
    && p.grants != [] && (forall i | 0 <= i < |p.grants| :: GrantOk(m, p.grants[i]))
    && SomeoneMay(p, "send") && SomeoneMay(p, "recv")
    && (forall i | 0 <= i < |p.revokes| :: RevokeOk(m, p, p.revokes[i]))
    && (forall i | 0 <= i < |p.faults| :: FaultOk(m, p.faults[i]))
    && (forall i | 0 <= i < |p.peerDowns| :: PeerDownOk(m, p.peerDowns[i]))
  }

  ghost predicate ValidPair(m: Manifest, p: Policy) {
    && m.version == SCHEMA_VERSION && p.version == SCHEMA_VERSION && m.packetPayload != ""
    && CourtsOk(m) && CorridorsOk(m) && PolicyOk(m, p)
  }

  // ----- the error that is reported -----

  type Complaint = Option<ManifestError>

  /** The first complaint of a list. */
  function FirstOf(complaints: seq<Complaint>): Complaint {
    if complaints == [] then None
    else if complaints[0].Some? then complaints[0]
    else FirstOf(complaints[1..])
  }

  lemma {:induction false} FirstOfNone(complaints: seq<Complaint>)
    ensures FirstOf(complaints).None? <==> forall i | 0 <= i < |complaints| :: complaints[i].None?
  {
    if complaints != [] {
      FirstOfNone(complaints[1..]);
      assert forall i | 0 <= i < |complaints| - 1 :: complaints[1..][i] == complaints[i + 1];
      assert forall i | 1 <= i < |complaints| :: complaints[i] == complaints[1..][i - 1];
    }
  }

  lemma {:induction false} FirstOfAt(complaints: seq<Complaint>, k: nat)
    requires k < |complaints| && complaints[k].Some? && forall i | 0 <= i < k :: complaints[i].None?
    ensures FirstOf(complaints) == complaints[k]
  {
    if k > 0 {
      FirstOfAt(complaints[1..], k - 1);
    }
  }

  function Or(first: Complaint, second: Complaint): Complaint {
    if first.Some? then first else second
  }

  function VersionComplaint(version: nat): Complaint {
    if version == SCHEMA_VERSION then None else Some(UnsupportedVersion(version))
  }

  function PhaseComplaint(after: string, action: string): Complaint {
    var (i, j) := (PhaseIndex(after), PhaseIndex(action));
    if i.None? then Some(UnknownPhase(after))
    else if j.None? then Some(UnknownPhase(action))
    else if i.value >= j.value then Some(PhaseNotBefore(after, action))
    else None
  }

  function NamesOf(courts: seq<CourtEntry>): (names: set<string>) {
    set i | 0 <= i < |courts| :: courts[i].name
  }

  function PathsOf(corridors: seq<CorridorEntry>): (paths: set<string>) {
    set i | 0 <= i < |corridors| :: corridors[i].path
  }

  function KeysOf(grants: seq<GrantEntry>): (keys: set<(string, string)>) {
    set i | 0 <= i < |grants| :: (grants[i].court, grants[i].path)
  }

  function CourtComplaint(courts: seq<CourtEntry>, i: nat): Complaint
    requires i < |courts|
  {
    if courts[i].name == "" then Some(EmptyCourtName)
    else if courts[i].name in NamesOf(courts[..i]) then Some(DuplicateCourt(courts[i].name))
    else None
  }

  function Count(courts: seq<CourtEntry>, role: Role): nat {
    if courts == [] then 0
    else Count(courts[..|courts| - 1], role) + (if courts[|courts| - 1].role == role then 1 else 0)
  }

  function CorridorComplaint(names: set<string>, corridors: seq<CorridorEntry>, i: nat): Complaint
    requires i < |corridors|
  {
    var c := corridors[i];
    if !("/court/" <= c.path) || c.path == "/court/" then Some(BadPath(c.path))
    else if c.path in PathsOf(corridors[..i]) then Some(DuplicatePath(c.path))
    else if c.source == c.sink then Some(SameEndpoints(c.path))
    else if c.source !in names then Some(MissingSource(c.path, c.source))
    else if c.sink !in names then Some(MissingSink(c.path, c.sink))
    else if c.capacity == 0 then Some(ZeroCapacity(c.path))
    else if c.slotSize == 0 then Some(ZeroSlotSize(c.path))
    else None
  }

  function PlaceComplaint(names: set<string>, paths: set<string>, court: string, path: string): Complaint {
    if court !in names then Some(UnknownCourt(court))
    else if path !in paths then Some(UnknownPath(path))
    else None
  }

  function RightComplaint(name: string): Complaint {
    if RightOf(name).None? then Some(UnknownRight(name)) else None
  }

  function RightComplaints(rights: seq<string>): seq<Complaint> {
    seq(|rights|, k requires 0 <= k < |rights| => RightComplaint(rights[k]))
  }

  function GrantComplaint(names: set<string>, paths: set<string>, g: GrantEntry): Complaint {
    Or(PlaceComplaint(names, paths, g.court, g.path),
       if g.rights == [] then Some(NoRights(g.court, g.path)) else FirstOf(RightComplaints(g.rights)))
  }

  function RevokeComplaint(names: set<string>, paths: set<string>, keys: set<(string, string)>,
                           r: RevokeEntry): Complaint {
    Or(PlaceComplaint(names, paths, r.court, r.path),
       if (r.court, r.path) !in keys then Some(NoMatchingGrant(r.court, r.path)) else PhaseComplaint(r.after, "revoke"))
  }

  function FaultComplaint(names: set<string>, f: FaultEntry): Complaint {
    if f.court !in names then Some(UnknownCourt(f.court))
    else if f.reason == "" then Some(NoFaultReason(f.court))
    else PhaseComplaint(f.after, "fault")
  }

  function PeerDownComplaint(names: set<string>, paths: set<string>, d: PeerDownEntry): Complaint {
    Or(PlaceComplaint(names, paths, d.court, d.path), PhaseComplaint(d.after, "peer_down"))
  }

  function CourtComplaints(courts: seq<CourtEntry>): seq<Complaint> {
    seq(|courts|, i requires 0 <= i < |courts| => CourtComplaint(courts, i))
  }

  function CorridorComplaints(names: set<string>, corridors: seq<CorridorEntry>): seq<Complaint> {
    seq(|corridors|, i requires 0 <= i < |corridors| => CorridorComplaint(names, corridors, i))
  }

  function GrantComplaints(names: set<string>, paths: set<string>, grants: seq<GrantEntry>): seq<Complaint> {
    seq(|grants|, i requires 0 <= i < |grants| => GrantComplaint(names, paths, grants[i]))
  }

  function RevokeComplaints(names: set<string>, paths: set<string>, keys: set<(string, string)>,
                            revokes: seq<RevokeEntry>): seq<Complaint> {
    seq(|revokes|, i requires 0 <= i < |revokes| => RevokeComplaint(names, paths, keys, revokes[i]))
  }

  function FaultComplaints(names: set<string>, faults: seq<FaultEntry>): seq<Complaint> {
    seq(|faults|, i requires 0 <= i < |faults| => FaultComplaint(names, faults[i]))
  }

  function PeerDownComplaints(names: set<string>, paths: set<string>, downs: seq<PeerDownEntry>): seq<Complaint> {
    seq(|downs|, i requires 0 <= i < |downs| => PeerDownComplaint(names, paths, downs[i]))
  }

  function MayComplaint(grants: seq<GrantEntry>, right: string, e: ManifestError): Complaint {
    if exists i :: 0 <= i < |grants| && right in grants[i].rights then None else Some(e)
  }

  function ManifestComplaint(m: Manifest): Complaint {
    Or(FirstOf(CourtComplaints(m.courts)),
    Or(if Count(m.courts, App) != 1 then Some(AppCountIs(Count(m.courts, App))) else None,
    Or(if Count(m.courts, Net) < 1 then Some(NoNetCourt) else None,
    Or(if m.corridors == [] then Some(NoCorridors) else None,
       FirstOf(CorridorComplaints(NamesOf(m.courts), m.corridors))))))
  }

  function GrantsComplaint(names: set<string>, paths: set<string>, grants: seq<GrantEntry>): Complaint {
    Or(if grants == [] then Some(NoGrants) else None,
    Or(FirstOf(GrantComplaints(names, paths, grants)),
    Or(MayComplaint(grants, "send", NoSendGrant),
       MayComplaint(grants, "recv", NoRecvGrant))))
  }

  function PolicyComplaint(names: set<string>, paths: set<string>, p: Policy): Complaint {
    Or(GrantsComplaint(names, paths, p.grants),
    Or(FirstOf(RevokeComplaints(names, paths, KeysOf(p.grants), p.revokes)),
    Or(FirstOf(FaultComplaints(names, p.faults)),
       FirstOf(PeerDownComplaints(names, paths, p.peerDowns)))))
  }

  /** The first thing wrong with a pair, in the order the checks are made. */
  function FirstComplaint(m: Manifest, p: Policy): Complaint {
    Or(VersionComplaint(m.version),
    Or(VersionComplaint(p.version),
    Or(if m.packetPayload == "" then Some(EmptyPayload) else None,
    Or(ManifestComplaint(m),
       PolicyComplaint(NamesOf(m.courts), PathsOf(m.corridors), p)))))
  }
}
