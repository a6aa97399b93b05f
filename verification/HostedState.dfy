/** The hosted root: courts, capability spaces, namespace, corridors and trace, and
    one function per operation. */
module HostedState {
  import opened Capabilities
  import opened MachineWords

  type CourtId = nat
  type Payload = seq<Byte>

  datatype CourtState = Running | Faulted

  datatype Court = Court(id: CourtId, name: string, state: CourtState)

  datatype Transport = ControlChannel | SharedRing

  datatype Descriptor = Descriptor(path: string, target: ObjectId, objectType: ObjectType, transport: Transport)

  datatype Corridor = Corridor(first: CourtId, second: CourtId, queue: seq<Payload>, capacity: nat)

  datatype TraceEvent =
    | CourtCreated(court: CourtId, name: string)
    | CorridorCreated(path: string, target: ObjectId, transport: Transport)
    | NamespaceLookup(court: CourtId, path: string, found: bool)
    | CapGranted(court: CourtId, cap: CapId, target: ObjectId, rights: Rights)
    | OpenDenied(court: CourtId, path: string, reason: CkError)
    | Opened(court: CourtId, path: string, cap: CapId, rights: Rights)
    | Sent(court: CourtId, target: ObjectId, len: nat)
    | Received(court: CourtId, target: ObjectId, len: nat)
    | CapRevoked(cap: CapId)
    | CourtFaulted(court: CourtId)
    | PeerWentDown(court: CourtId, target: ObjectId)

  datatype Root = Root(
    nextCourt: nat,
    nextObject: nat,
    courts: map<CourtId, Court>,
    cspaces: map<CourtId, set<CapId>>,
    registry: Registry,
    namespace: map<string, Descriptor>,
    corridors: map<ObjectId, Corridor>,
    rootCaps: map<ObjectId, CapId>,
    trace: seq<TraceEvent>)

  const START := Root(0, 0, map[], map[], EMPTY, map[], map[], map[], [])

  /** SEND, RECV, OBSERVE, DELEGATE and REVOKE. */
  const CORRIDOR_RIGHTS: Rights := SEND | RECV | OBSERVE | DELEGATE | REVOKE

  // ----- queries -----

  predicate IsRunning(s: Root, court: CourtId) {
    court in s.courts && s.courts[court].state == Running
  }

  predicate Holds(s: Root, court: CourtId, cap: CapId) {
    court in s.cspaces && cap in s.cspaces[court]
  }

  /** An endpoint other than the caller is missing or not running. */
  predicate HasPeerDown(s: Root, c: Corridor, caller: CourtId) {
    || (c.first != caller && !IsRunning(s, c.first))
    || (c.second != caller && !IsRunning(s, c.second))
  }

  function Note(s: Root, e: TraceEvent): Root {
    s.(trace := s.trace + [e])
  }

  // ----- operations -----

  function CreateCourt(s: Root, name: string): (Root, CourtId) {
    var court := s.nextCourt + 1;
    (Note(s.(nextCourt := court, courts := s.courts[court := Court(court, name, Running)],
      cspaces := s.cspaces[court := {}]),
          CourtCreated(court, name)),
     court)
  }

  function CreateCorridor(s: Root, path: string, first: CourtId, second: CourtId, transport: Transport,
                          capacity: nat): (Root, CkResult<ObjectId>) {
    if !IsRunning(s, first) || !IsRunning(s, second) then (s, Err(InvalidState)) else
    var target := s.nextObject + 1;
    var (registry, rootCap) := MintRoot(s.registry, target, CorridorObject, CORRIDOR_RIGHTS);
    (Note(s.(nextObject := target,
             corridors := s.corridors[target := Corridor(first, second, [], capacity)],
             registry := registry,
             rootCaps := s.rootCaps[target := rootCap],
             namespace := s.namespace[path := Descriptor(path, target, CorridorObject, transport)]),
          CorridorCreated(path, target, transport)),
     Ok(target))
  }

  function Lookup(s: Root, court: CourtId, path: string): (Root, CkResult<Descriptor>) {
    if !IsRunning(s, court) then (s, Err(InvalidState)) else
    (Note(s, NamespaceLookup(court, path, path in s.namespace)),
     if path in s.namespace then Ok(s.namespace[path]) else Err(NotFound))
  }

  function GrantCorridorCap(s: Root, court: CourtId, d: Descriptor, rights: Rights): (Root, CkResult<CapId>) {
    if !IsRunning(s, court) then (s, Err(InvalidState))
    else if d.objectType != CorridorObject then (s, Err(InvalidObject))
    else if d.target !in s.rootCaps then (s, Err(InvalidObject))
    else
      var (registry, cap) := Delegate(s.registry, s.rootCaps[d.target], rights);
      if cap.Err? then (s.(registry := registry), cap)
      else
        var held := if court in s.cspaces then s.cspaces[court] else {};
        (Note(s.(registry := registry, cspaces := s.cspaces[court := held + {cap.value}]),
              CapGranted(court, cap.value, d.target, rights)),
         cap)
  }

  function Deny(s: Root, court: CourtId, d: Descriptor, reason: CkError): (Root, CkResult<CapId>) {
    (Note(s, OpenDenied(court, d.path, reason)), Err(reason))
  }

  function Open(s: Root, court: CourtId, d: Descriptor, cap: Option<CapId>, rights: Rights): (Root, CkResult<CapId>) {
    if !IsRunning(s, court) then (s, Err(InvalidState))
    else if cap.None? then Deny(s, court, d, NoRight)
    else if !Holds(s, court, cap.value) then Deny(s, court, d, BadCap)
    else match Authorize(s.registry, cap.value, d.objectType, rights)
      case Ok(target) =>
        if target == d.target then (Note(s, Opened(court, d.path, cap.value, rights)), Ok(cap.value))
        else Deny(s, court, d, InvalidObject)
      case Err(reason) => Deny(s, court, d, reason)
  }

  function Send(s: Root, court: CourtId, cap: CapId, payload: Payload): (Root, CkResult<()>) {
    if !IsRunning(s, court) then (s, Err(InvalidState))
    else if !Holds(s, court, cap) then (s, Err(BadCap))
    else match Authorize(s.registry, cap, CorridorObject, SEND)
      case Err(reason) => (s, Err(reason))
      case Ok(target) =>
        if target !in s.corridors then (s, Err(InvalidObject)) else
        var c := s.corridors[target];
        if HasPeerDown(s, c, court) then (Note(s, PeerWentDown(court, target)), Err(PeerDown))
        else if |c.queue| >= c.capacity then (s, Err(QueueFull))
        else (Note(s.(corridors := s.corridors[target := c.(queue := c.queue + [payload])]),
          Sent(court, target, |payload|)), Ok(()))
  }

  function Recv(s: Root, court: CourtId, cap: CapId): (Root, CkResult<Payload>) {
    if !IsRunning(s, court) then (s, Err(InvalidState))
    else if !Holds(s, court, cap) then (s, Err(BadCap))
    else match Authorize(s.registry, cap, CorridorObject, RECV)
      case Err(reason) => (s, Err(reason))
      case Ok(target) =>
        if target !in s.corridors then (s, Err(InvalidObject)) else
        var c := s.corridors[target];
        if c.queue == [] then (s, Err(QueueEmpty))
        else (Note(s.(corridors := s.corridors[target := c.(queue := c.queue[1..])]),
          Received(court, target, |c.queue[0]|)), Ok(c.queue[0]))
  }

  function RevokeCap(s: Root, cap: CapId): (Root, CkResult<()>) {
    var (registry, r) := Revoke(s.registry, cap);
    if r.Err? then (s.(registry := registry), r) else (Note(s.(registry := registry), CapRevoked(cap)), r)
  }

  function FaultCourt(s: Root, court: CourtId): (Root, CkResult<()>) {
    if court !in s.courts then (s, Err(InvalidState))
    else (Note(s.(courts := s.courts[court := s.courts[court].(state := Faulted)]), CourtFaulted(court)), Ok(()))
  }

  // ----- runs -----

  datatype Op =
    | OpCreateCourt(name: string)
    | OpCreateCorridor(path: string, first: CourtId, second: CourtId, transport: Transport, capacity: nat)
    | OpLookup(court: CourtId, path: string)
    | OpGrant(court: CourtId, d: Descriptor, rights: Rights)
    | OpOpen(court: CourtId, d: Descriptor, held: Option<CapId>, rights: Rights)
    | OpSend(court: CourtId, cap: CapId, payload: Payload)
    | OpRecv(court: CourtId, cap: CapId)
    | OpRevoke(cap: CapId)
    | OpFault(court: CourtId)

  datatype Reply =
    | CourtIs(court: CourtId) | TargetIs(target: ObjectId) | DescriptorIs(d: Descriptor) | CapIs(cap: CapId)
    | PayloadIs(payload: Payload) | Succeeded | Failed(error: CkError)

  function Step(s: Root, op: Op): (Root, Reply) {
    match op
    case OpCreateCourt(name) =>
      var (s', court) := CreateCourt(s, name); (s', CourtIs(court))
    case OpCreateCorridor(path, first, second, transport, capacity) =>
      var (s', r) := CreateCorridor(s, path, first, second, transport, capacity);
      (s', if r.Ok? then TargetIs(r.value) else Failed(r.error))
    case OpLookup(court, path) =>
      var (s', r) := Lookup(s, court, path);
      (s', if r.Ok? then DescriptorIs(r.value) else Failed(r.error))
    case OpGrant(court, d, rights) =>
      var (s', r) := GrantCorridorCap(s, court, d, rights);
      (s', if r.Ok? then CapIs(r.value) else Failed(r.error))
    case OpOpen(court, d, held, rights) =>
      var (s', r) := Open(s, court, d, held, rights);
      (s', if r.Ok? then CapIs(r.value) else Failed(r.error))
    case OpSend(court, cap, payload) =>
      var (s', r) := Send(s, court, cap, payload);
      (s', if r.Ok? then Succeeded else Failed(r.error))
    case OpRecv(court, cap) =>
      var (s', r) := Recv(s, court, cap);
      (s', if r.Ok? then PayloadIs(r.value) else Failed(r.error))
    case OpRevoke(cap) =>
      var (s', r) := RevokeCap(s, cap);
      (s', if r.Ok? then Succeeded else Failed(r.error))
    case OpFault(court) =>
      var (s', r) := FaultCourt(s, court);
      (s', if r.Ok? then Succeeded else Failed(r.error))
  }

  function Run(s: Root, ops: seq<Op>): Root
    decreases |ops|
  {
    if ops == [] then s else Run(Step(s, ops[0]).0, ops[1..])
  }
}
