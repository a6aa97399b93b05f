/** The hosted root as an object whose methods update its fields in place. */
module HostedRoots {
  import opened Capabilities
  import opened MachineWords
  import CapRegistries
  import opened HostedState
  import HostedInvariant
  import HostedSteps
  import HostedDecisions

  lemma RegistryIsOk(s: Root)
    requires HostedInvariant.Inv(s)
    ensures RegistryOk(s.registry)
  {
  }

  lemma AuthorityHolds(s: Root, cap: CapId, rights: Rights)
    requires HostedInvariant.Inv(s)
    ensures var a := Authorize(s.registry, cap, CorridorObject, rights); var caps := s.registry.caps;
      && (a.Ok? <==> cap in caps && forall p | Descends(caps, cap, p) ::
           p in caps && !caps[p].revoked && Contains(caps[p].rights, rights))
      && (a.Ok? ==> a.value in s.corridors && forall p | Descends(caps, cap, p) ::
           p in caps && caps[p].target == a.value)
      && (a == Err(Revoked) <==> cap in caps && exists p :: Descends(caps, cap, p) && p in caps && caps[p].revoked)
  {
    hide Contains, Descends;
    RegistryIsOk(s);
    AuthorityOfChain(s.registry, cap, rights);
  }

  class HostedRoot {
    var nextCourt: nat
    var nextObject: nat
    var courts: map<CourtId, Court>
    var cspaces: map<CourtId, set<CapId>>
    const registry: CapRegistries.CapRegistry
    var namespace: map<string, Descriptor>
    var corridors: map<ObjectId, Corridor>
    var rootCaps: map<ObjectId, CapId>
    var trace: seq<TraceEvent>

    ghost function Value(): Root
      reads this, registry
    {
      Root(nextCourt, nextObject, courts, cspaces, registry.Value(), namespace, corridors, rootCaps, trace)
    }

    ghost predicate Valid()
      reads this, registry
    {
      HostedInvariant.Inv(Value())
    }

    constructor ()
      ensures Value() == START && Valid() && fresh(registry)
    {
      nextCourt, nextObject := 0, 0;
      courts, cspaces, namespace, corridors, rootCaps, trace := map[], map[], map[], map[], map[], [];
      registry := new CapRegistries.CapRegistry();
      new;
      HostedInvariant.StartOk();
    }

    method CreateCourt(name: string) returns (court: CourtId)
      requires Valid()
      modifies this
      ensures Valid() && (Value(), court) == HostedState.CreateCourt(old(Value()), name)
    {
      hide HostedInvariant.Inv, HostedInvariant.Evolves;
      HostedSteps.StepKeeps(Value(), OpCreateCourt(name));
      nextCourt := nextCourt + 1;
      court := nextCourt;
      courts := courts[court := Court(court, name, Running)];
      cspaces := cspaces[court := {}];
      trace := trace + [CourtCreated(court, name)];
    }

    predicate RunningCourt(court: CourtId)
      reads this
    {
      court in courts && courts[court].state == Running
    }

    predicate CspaceContains(court: CourtId, cap: CapId)
      reads this
    {
      court in cspaces && cap in cspaces[court]
    }

    predicate PeerIsDown(c: Corridor, caller: CourtId)
      reads this
    {
      (c.first != caller && !RunningCourt(c.first)) || (c.second != caller && !RunningCourt(c.second))
    }

    /** A read-only check of a capability against a kind of object and rights. It passes
        exactly when the capability and everything it derives from is live and holds the
        rights; then all of them name one corridor, which exists. */
    method Check(cap: CapId, objectType: ObjectType, rights: Rights) returns (r: CkResult<ObjectId>)
      requires Valid()
      ensures r == Authorize(registry.Value(), cap, objectType, rights)
      ensures var caps := registry.caps;
        && (r.Ok? <==> cap in caps && forall p | Descends(caps, cap, p) ::
             p in caps && !caps[p].revoked && Contains(caps[p].rights, rights))
        && (r.Ok? ==> r.value in corridors && forall p | Descends(caps, cap, p) ::
             p in caps && caps[p].target == r.value)
        && (r == Err(Revoked) <==> cap in caps && exists p :: Descends(caps, cap, p) && p in caps && caps[p].revoked)
    {
      hide Contains, Descends;
      AuthorityHolds(Value(), cap, rights);
      if cap !in registry.caps {
        return Err(BadCap);
      }
      var c := registry.caps[cap];
      if c.revoked {
        return Err(Revoked);
      }
      if c.objectType != objectType {
        return Err(InvalidObject);
      }
      if !Contains(c.rights, rights) {
        return Err(NoRight);
      }
      r := Ok(c.target);
    }

    method CreateCorridor(path: string, first: CourtId, second: CourtId, transport: Transport, capacity: nat)
      returns (r: CkResult<ObjectId>)
      requires Valid()
      modifies this, registry
      ensures Valid()
      ensures (Value(), r) == HostedState.CreateCorridor(old(Value()), path, first, second, transport, capacity)
      ensures r.Ok? <==>
        HostedDecisions.Permitted(old(Value()), OpCreateCorridor(path, first, second, transport, capacity))
    {
      hide HostedInvariant.Inv, HostedInvariant.Evolves, HostedDecisions.Permitted;
      HostedSteps.StepKeeps(Value(), OpCreateCorridor(path, first, second, transport, capacity));
      HostedDecisions.Decision(Value(), OpCreateCorridor(path, first, second, transport, capacity));
      if !RunningCourt(first) || !RunningCourt(second) {
        return Err(InvalidState);
      }
      nextObject := nextObject + 1;
      var target := nextObject;
      corridors := corridors[target := Corridor(first, second, [], capacity)];
      var rootCap := registry.MintRoot(target, CorridorObject, CORRIDOR_RIGHTS);
      rootCaps := rootCaps[target := rootCap];
      namespace := namespace[path := Descriptor(path, target, CorridorObject, transport)];
      trace := trace + [CorridorCreated(path, target, transport)];
      r := Ok(target);
    }

    method Lookup(court: CourtId, path: string) returns (r: CkResult<Descriptor>)
      requires Valid()
      modifies this
      ensures Valid() && (Value(), r) == HostedState.Lookup(old(Value()), court, path)
      ensures r.Ok? <==> HostedDecisions.Permitted(old(Value()), OpLookup(court, path))
    {
      hide HostedInvariant.Inv, HostedInvariant.Evolves, HostedDecisions.Permitted;
      HostedSteps.StepKeeps(Value(), OpLookup(court, path));
      HostedDecisions.Decision(Value(), OpLookup(court, path));
      if !RunningCourt(court) {
        return Err(InvalidState);
      }
      trace := trace + [NamespaceLookup(court, path, path in namespace)];
      r := if path in namespace then Ok(namespace[path]) else Err(NotFound);
    }

    method GrantCorridorCap(court: CourtId, d: Descriptor, rights: Rights) returns (r: CkResult<CapId>)
      requires Valid()
      modifies this, registry
      ensures Valid() && (Value(), r) == HostedState.GrantCorridorCap(old(Value()), court, d, rights)
      ensures r.Ok? <==> HostedDecisions.Permitted(old(Value()), OpGrant(court, d, rights))
    {
      hide HostedInvariant.Inv, HostedInvariant.Evolves, HostedDecisions.Permitted, Delegate;
      HostedSteps.StepKeeps(Value(), OpGrant(court, d, rights));
      HostedDecisions.Decision(Value(), OpGrant(court, d, rights));
      if !RunningCourt(court) {
        return Err(InvalidState);
      }
      if d.objectType != CorridorObject || d.target !in rootCaps {
        return Err(InvalidObject);
      }
      r := registry.Delegate(rootCaps[d.target], rights);
      if r.Ok? {
        cspaces := cspaces[court := (if court in cspaces then cspaces[court] else {}) + {r.value}];
        trace := trace + [CapGranted(court, r.value, d.target, rights)];
      }
    }

    method Open(court: CourtId, d: Descriptor, cap: Option<CapId>, rights: Rights) returns (r: CkResult<CapId>)
      requires Valid()
      modifies this
      ensures Valid() && (Value(), r) == HostedState.Open(old(Value()), court, d, cap, rights)
      ensures r.Ok? <==> HostedDecisions.Permitted(old(Value()), OpOpen(court, d, cap, rights))
    {
      hide HostedInvariant.Inv, HostedInvariant.Evolves, HostedDecisions.Permitted, Authorize;
      HostedSteps.StepKeeps(Value(), OpOpen(court, d, cap, rights));
      HostedDecisions.Decision(Value(), OpOpen(court, d, cap, rights));
      if !RunningCourt(court) {
        return Err(InvalidState);
      }
      if cap.None? {
        trace := trace + [OpenDenied(court, d.path, NoRight)];
        return Err(NoRight);
      }
      if !CspaceContains(court, cap.value) {
        trace := trace + [OpenDenied(court, d.path, BadCap)];
        return Err(BadCap);
      }
      var target := Check(cap.value, d.objectType, rights);
      if target.Ok? && target.value == d.target {
        trace := trace + [Opened(court, d.path, cap.value, rights)];
        return Ok(cap.value);
      }
      var reason := if target.Ok? then InvalidObject else target.error;
      trace := trace + [OpenDenied(court, d.path, reason)];
      r := Err(reason);
    }

    method Send(court: CourtId, cap: CapId, payload: Payload) returns (r: CkResult<()>)
      requires Valid()
      modifies this
      ensures Valid() && (Value(), r) == HostedState.Send(old(Value()), court, cap, payload)
      ensures r.Ok? <==> HostedDecisions.Permitted(old(Value()), OpSend(court, cap, payload))
    {
      hide HostedInvariant.Inv, HostedInvariant.Evolves, HostedDecisions.Permitted, Authorize;
      HostedSteps.StepKeeps(Value(), OpSend(court, cap, payload));
      HostedDecisions.Decision(Value(), OpSend(court, cap, payload));
      if !RunningCourt(court) {
        return Err(InvalidState);
      }
      if !CspaceContains(court, cap) {
        return Err(BadCap);
      }
      var target := Check(cap, CorridorObject, SEND);
      if target.Err? {
        return Err(target.error);
      }
      if target.value !in corridors {
        return Err(InvalidObject);
      }
      var c := corridors[target.value];
      if PeerIsDown(c, court) {
        trace := trace + [PeerWentDown(court, target.value)];
        return Err(PeerDown);
      }
      if |c.queue| >= c.capacity {
        return Err(QueueFull);
      }
      corridors := corridors[target.value := c.(queue := c.queue + [payload])];
      trace := trace + [Sent(court, target.value, |payload|)];
      r := Ok(());
    }

    method Recv(court: CourtId, cap: CapId) returns (r: CkResult<Payload>)
      requires Valid()
      modifies this
      ensures Valid() && (Value(), r) == HostedState.Recv(old(Value()), court, cap)
      ensures r.Ok? <==> HostedDecisions.Permitted(old(Value()), OpRecv(court, cap))
    {
      hide HostedInvariant.Inv, HostedInvariant.Evolves, HostedDecisions.Permitted, Authorize;
      HostedSteps.StepKeeps(Value(), OpRecv(court, cap));
      HostedDecisions.Decision(Value(), OpRecv(court, cap));
      if !RunningCourt(court) {
        return Err(InvalidState);
      }
      if !CspaceContains(court, cap) {
        return Err(BadCap);
      }
      var target := Check(cap, CorridorObject, RECV);
      if target.Err? {
        return Err(target.error);
      }
      if target.value !in corridors {
        return Err(InvalidObject);
      }
      var c := corridors[target.value];
      if c.queue == [] {
        return Err(QueueEmpty);
      }
      corridors := corridors[target.value := c.(queue := c.queue[1..])];
      trace := trace + [Received(court, target.value, |c.queue[0]|)];
      r := Ok(c.queue[0]);
    }

    method Revoke(cap: CapId) returns (r: CkResult<()>)
      requires Valid()
      modifies this, registry
      ensures Valid() && (Value(), r) == HostedState.RevokeCap(old(Value()), cap)
      ensures r.Ok? <==> HostedDecisions.Permitted(old(Value()), OpRevoke(cap))
    {
      hide HostedInvariant.Inv, HostedInvariant.Evolves, HostedDecisions.Permitted, Capabilities.Revoke, RegistryOk;
      RegistryIsOk(Value());
      HostedSteps.StepKeeps(Value(), OpRevoke(cap));
      HostedDecisions.Decision(Value(), OpRevoke(cap));
      r := registry.Revoke(cap);
      if r.Ok? {
        trace := trace + [CapRevoked(cap)];
      }
    }

    method FaultCourt(court: CourtId) returns (r: CkResult<()>)
      requires Valid()
      modifies this
      ensures Valid() && (Value(), r) == HostedState.FaultCourt(old(Value()), court)
      ensures r.Ok? <==> HostedDecisions.Permitted(old(Value()), OpFault(court))
    {
      hide HostedInvariant.Inv, HostedInvariant.Evolves, HostedDecisions.Permitted;
      HostedSteps.StepKeeps(Value(), OpFault(court));
      HostedDecisions.Decision(Value(), OpFault(court));
      if court !in courts {
        return Err(InvalidState);
      }
      courts := courts[court := courts[court].(state := Faulted)];
      trace := trace + [CourtFaulted(court)];
      r := Ok(());
    }
  }
}
