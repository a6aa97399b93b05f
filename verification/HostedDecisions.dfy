/** Exactly which requests the hosted root grants, told by the trace: who runs, what was
    granted to whom, what has been revoked, and what is queued. */
module HostedDecisions {
  import opened Capabilities
  import opened MachineWords
  import opened HostedState
  import opened HostedTrace
  import opened HostedInvariant
  import opened HostedSteps

  /** Capability `cap` was granted to `court` for object `o`, with at least `rights`. */
  ghost predicate GrantedFor(trace: seq<TraceEvent>, court: CourtId, cap: CapId, o: ObjectId, rights: Rights) {
    exists g :: CapGranted(court, cap, o, g) in trace && Contains(g, rights)
  }

  /** `court` runs and may use `cap` on object `o`: it was granted with those rights, and
      nothing it derives from has been revoked. */
  ghost predicate Entitled(s: Root, court: CourtId, cap: CapId, o: ObjectId, rights: Rights) {
    Alive(s.trace, court) && GrantedFor(s.trace, court, cap, o, rights) && !Cut(s.registry.caps, s.trace, cap)
  }

  ghost predicate PeersAlive(s: Root, o: ObjectId, court: CourtId) {
    o in s.corridors
      && (s.corridors[o].first != court ==> Alive(s.trace, s.corridors[o].first))
      && (s.corridors[o].second != court ==> Alive(s.trace, s.corridors[o].second))
  }

  ghost predicate HasRoom(s: Root, o: ObjectId) {
    o in s.corridors && |s.corridors[o].queue| < s.corridors[o].capacity
  }

  /** Corridor `o` exists, and its root capability has not been revoked. */
  ghost predicate Grantable(s: Root, o: ObjectId) {
    Made(s.trace, o) && o in s.rootCaps && !Cut(s.registry.caps, s.trace, s.rootCaps[o])
  }

  // ----- the tests, read off the trace -----

  lemma RunsAre(s: Root, court: CourtId)
    requires Inv(s)
    ensures IsRunning(s, court) <==> Alive(s.trace, court)
  {
    hide CorridorsOk, CapsOk, NamesOk, GrantsTold, RevokesTold, NamesTold, HistoryOk, TraceBalanced;
  }

  lemma HeldAre(s: Root, court: CourtId, cap: CapId)
    requires Inv(s)
    ensures Holds(s, court, cap) <==> Given(s.trace, court, cap)
    ensures Holds(s, court, cap) ==>
      cap in s.registry.caps && s.registry.caps[cap].target in s.corridors
  {
    hide CorridorsOk, NamesOk, CourtsTold, RevokesTold, NamesTold, HistoryOk, TraceBalanced, RegistryOk, Descends;
    if Holds(s, court, cap) {
      var j := GrantOf(s, court, cap);
    }
  }

  lemma RevokedAre(s: Root, cap: CapId)
    requires Inv(s) && cap in s.registry.caps
    ensures s.registry.caps[cap].revoked <==> Cut(s.registry.caps, s.trace, cap)
  {
    hide CorridorsOk, NamesOk, CourtsTold, GrantsTold, NamesTold, HistoryOk, TraceBalanced, Contains, RegistryOk,
         Descends;
    if Cut(s.registry.caps, s.trace, cap) {
      var a :| CapRevoked(a) in s.trace && Descends(s.registry.caps, cap, a);
      ChainAttenuates(s.registry, cap, a);
    }
  }

  lemma RightsAre(s: Root, court: CourtId, cap: CapId, o: ObjectId, rights: Rights)
    requires Inv(s) && Holds(s, court, cap) && cap in s.registry.caps
    ensures GrantedFor(s.trace, court, cap, o, rights) <==>
      s.registry.caps[cap].target == o && Contains(s.registry.caps[cap].rights, rights)
  {
    hide CorridorsOk, CapsOk, NamesOk, CourtsTold, RevokesTold, NamesTold, HistoryOk, TraceBalanced, Contains;
    var j := GrantOf(s, court, cap);
  }

  /** The three tests an operation makes of a capability, and what each refusal means. */
  lemma TestsAre(s: Root, court: CourtId, cap: CapId, o: ObjectId, rights: Rights)
    requires Inv(s)
    ensures IsRunning(s, court) <==> Alive(s.trace, court)
    ensures Holds(s, court, cap) <==> Given(s.trace, court, cap)
    ensures var a := Authorize(s.registry, cap, CorridorObject, rights);
      && (Entitled(s, court, cap, o, rights) <==> IsRunning(s, court) && Holds(s, court, cap) && a == Ok(o))
      && (Holds(s, court, cap) ==>
           && (a == Err(Revoked) <==> Cut(s.registry.caps, s.trace, cap))
           && (a.Err? ==> a.error == Revoked || a.error == NoRight)
           && (a.Ok? ==> a.value in s.corridors))
  {
    RunsAre(s, court);
    HeldAre(s, court, cap);
    hide Inv, Alive, Given, Cut, GrantedFor, Contains, IsRunning, Holds;
    if Holds(s, court, cap) {
      RevokedAre(s, cap);
      RightsAre(s, court, cap, o, rights);
    } else {
      NotGiven(s.trace, court, cap, o, rights);
    }
  }

  lemma NotGiven(trace: seq<TraceEvent>, court: CourtId, cap: CapId, o: ObjectId, rights: Rights)
    ensures GrantedFor(trace, court, cap, o, rights) ==> Given(trace, court, cap)
  {
  }

  /** Why a court that is not entitled to use a capability is refused. */
  ghost function Refusal(s: Root, court: CourtId, cap: CapId): CkError {
    if !Alive(s.trace, court) then InvalidState
    else if !Given(s.trace, court, cap) then BadCap
    else if Cut(s.registry.caps, s.trace, cap) then Revoked
    else NoRight
  }

  ghost predicate EntitledSome(s: Root, court: CourtId, cap: CapId, rights: Rights) {
    exists o :: Entitled(s, court, cap, o, rights)
  }

  /** Entitlement is for one object, and a court without it is refused for the reason above. */
  lemma RefusalIs(s: Root, court: CourtId, cap: CapId, rights: Rights)
    requires Inv(s)
    ensures var a := Authorize(s.registry, cap, CorridorObject, rights);
      if IsRunning(s, court) && Holds(s, court, cap) && a.Ok? then
        && a.value in s.corridors && Entitled(s, court, cap, a.value, rights)
        && (forall o :: Entitled(s, court, cap, o, rights) ==> o == a.value)
      else
        && !EntitledSome(s, court, cap, rights)
        && Refusal(s, court, cap) ==
             if !IsRunning(s, court) then InvalidState else if !Holds(s, court, cap) then BadCap else a.error
  {
    hide Inv, Alive, Given, Cut, Authorize, IsRunning, Holds, Entitled;
    var a := Authorize(s.registry, cap, CorridorObject, rights);
    TestsAre(s, court, cap, if a.Ok? then a.value else 0, rights);
    forall o: ObjectId
      ensures Entitled(s, court, cap, o, rights) <==> IsRunning(s, court) && Holds(s, court, cap) && a == Ok(o)
    {
      TestsAre(s, court, cap, o, rights);
    }
  }

  // ----- each operation -----

  /** Only the queue of `o` is changed, to `q`, and the trace grows by `e`. */
  ghost predicate QueueBecomes(s: Root, s': Root, o: ObjectId, q: seq<Payload>, e: TraceEvent) {
    o in s.corridors && s' == Note(s.(corridors := s.corridors[o := s.corridors[o].(queue := q)]), e)
  }

  ghost predicate CanTake(s: Root, court: CourtId, cap: CapId, o: ObjectId) {
    Entitled(s, court, cap, o, RECV) && QueueOf(s, o) != []
  }

  ghost predicate CanPut(s: Root, court: CourtId, cap: CapId, o: ObjectId) {
    Entitled(s, court, cap, o, SEND) && PeersAlive(s, o, court) && HasRoom(s, o)
  }

  /** When an operation succeeds. */
  ghost predicate Permitted(s: Root, op: Op) {
    match op
    case OpCreateCourt(_) => true
    case OpCreateCorridor(_, first, second, _, _) => Alive(s.trace, first) && Alive(s.trace, second)
    case OpLookup(court, path) => Alive(s.trace, court) && NameIn(s.trace, path).Some?
    case OpGrant(court, d, rights) =>
      Alive(s.trace, court) && Grantable(s, d.target) && Contains(CORRIDOR_RIGHTS, rights)
    case OpOpen(court, d, held, rights) => held.Some? && Entitled(s, court, held.value, d.target, rights)
    case OpSend(court, cap, _) => exists o :: CanPut(s, court, cap, o)
    case OpRecv(court, cap) => exists o :: CanTake(s, court, cap, o)
    case OpRevoke(cap) => cap in s.registry.caps
    case OpFault(court) => Created(s.trace, court)
  }

  /** A receive took the oldest packet of corridor `o`. */
  ghost predicate Took(s: Root, s': Root, court: CourtId, cap: CapId, o: ObjectId, payload: Payload) {
    CanTake(s, court, cap, o) && payload == QueueOf(s, o)[0]
      && QueueBecomes(s, s', o, QueueOf(s, o)[1..], Received(court, o, |payload|))
  }

  /** A receive takes the oldest packet of the corridor its caller is entitled to receive
      from; it fails, changing nothing, only without that entitlement or on an empty queue. */
  lemma RecvExactly(s: Root, court: CourtId, cap: CapId)
    requires Inv(s)
    ensures var (s', r) := Recv(s, court, cap);
      if r.Ok? then exists o :: Took(s, s', court, cap, o, r.value)
      else
        && !Permitted(s, OpRecv(court, cap)) && s' == s
        && r.error == if EntitledSome(s, court, cap, RECV) then QueueEmpty else Refusal(s, court, cap)
  {
    hide Inv, Alive, Given, Cut, Authorize, IsRunning, Holds, Entitled, Refusal;
    RefusalIs(s, court, cap, RECV);
    var (s', r) := Recv(s, court, cap);
    if r.Ok? {
      assert Took(s, s', court, cap, Authorize(s.registry, cap, CorridorObject, RECV).value, r.value);
    }
  }

  lemma PeersAre(s: Root, o: ObjectId, court: CourtId)
    requires Inv(s) && o in s.corridors
    ensures PeersAlive(s, o, court) <==> !HasPeerDown(s, s.corridors[o], court)
  {
    hide Inv, Alive, IsRunning;
    RunsAre(s, s.corridors[o].first);
    RunsAre(s, s.corridors[o].second);
  }

  /** A send put the packet last in the queue of corridor `o`. */
  ghost predicate PutLast(s: Root, s': Root, court: CourtId, cap: CapId, o: ObjectId, payload: Payload) {
    CanPut(s, court, cap, o) && QueueBecomes(s, s', o, QueueOf(s, o) + [payload], Sent(court, o, |payload|))
  }

  /** A send refused although entitled: another endpoint is gone, which is noted, or there
      is no room. */
  ghost predicate HeldUp(s: Root, s': Root, court: CourtId, o: ObjectId, error: CkError) {
    if PeersAlive(s, o, court) then !HasRoom(s, o) && s' == s && error == QueueFull
    else s' == Note(s, PeerWentDown(court, o)) && error == PeerDown
  }

  /** A send puts the packet last in the queue of the corridor its caller is entitled to
      send to; it fails only without that entitlement, with another endpoint gone, or
      without room. */
  lemma SendExactly(s: Root, court: CourtId, cap: CapId, payload: Payload)
    requires Inv(s)
    ensures var (s', r) := Send(s, court, cap, payload);
      if r.Ok? then exists o :: PutLast(s, s', court, cap, o, payload)
      else
        && !Permitted(s, OpSend(court, cap, payload))
        && if EntitledSome(s, court, cap, SEND) then
             exists o :: Entitled(s, court, cap, o, SEND) && HeldUp(s, s', court, o, r.error)
           else s' == s && r.error == Refusal(s, court, cap)
  {
    hide Inv, Alive, Given, Cut, Authorize, IsRunning, Holds, Entitled, Refusal, HasPeerDown, PeersAlive;
    RefusalIs(s, court, cap, SEND);
    var a := Authorize(s.registry, cap, CorridorObject, SEND);
    var (s', r) := Send(s, court, cap, payload);
    if IsRunning(s, court) && Holds(s, court, cap) && a.Ok? {
      PeersAre(s, a.value, court);
      if r.Ok? {
        assert PutLast(s, s', court, cap, a.value, payload);
      } else {
        assert HeldUp(s, s', court, a.value, r.error);
      }
    }
  }

  /** Why an open is refused. */
  ghost function OpenRefusal(s: Root, court: CourtId, held: Option<CapId>, rights: Rights): CkError {
    if !Alive(s.trace, court) then InvalidState
    else if held.None? then NoRight
    else if EntitledSome(s, court, held.value, rights) then InvalidObject
    else Refusal(s, court, held.value)
  }

  /** An open succeeds exactly for a running court holding the capability it presents,
      granted for the descriptor's own object with the rights asked for, and not cut off. */
  lemma OpenExactly(s: Root, court: CourtId, d: Descriptor, held: Option<CapId>, rights: Rights)
    requires Inv(s)
    ensures var (s', r) := Open(s, court, d, held, rights);
      if Permitted(s, OpOpen(court, d, held, rights)) then
        r == Ok(held.value) && s' == Note(s, Opened(court, d.path, held.value, rights))
      else
        && r == Err(OpenRefusal(s, court, held, rights))
        && s' == if Alive(s.trace, court) then Note(s, OpenDenied(court, d.path, r.error)) else s
  {
    hide Inv, Alive, Given, Cut, Authorize, IsRunning, Holds, Entitled, Refusal;
    RunsAre(s, court);
    assert d.objectType == CorridorObject;
    if held.Some? {
      RefusalIs(s, court, held.value, rights);
    }
  }

  lemma NamesAre(s: Root, path: string, o: ObjectId)
    requires Inv(s)
    ensures NameOf(s, path) == NameIn(s.trace, path)
    ensures o in s.corridors <==> Made(s.trace, o)
    ensures o in s.rootCaps <==> o in s.corridors
    ensures o in s.corridors ==>
      s.rootCaps[o] in s.registry.caps && s.registry.caps[s.rootCaps[o]].rights == CORRIDOR_RIGHTS
        && s.registry.caps[s.rootCaps[o]].delegable
    ensures s.nextObject + 1 !in s.corridors
  {
    hide CourtsOk, CapsOk, NamesOk, CourtsTold, GrantsTold, RevokesTold, HistoryOk, TraceBalanced, NameOf;
  }

  /** A lookup answers what the path was bound to last. */
  lemma LookupExactly(s: Root, court: CourtId, path: string)
    requires Inv(s)
    ensures var (s', r) := Lookup(s, court, path);
      && (r.Ok? <==> Permitted(s, OpLookup(court, path)))
      && (r.Ok? ==> NameIn(s.trace, path) == Some(r.value))
      && (r.Err? ==> r.error == if Alive(s.trace, court) then NotFound else InvalidState)
      && s' == if Alive(s.trace, court) then Note(s, NamespaceLookup(court, path, r.Ok?)) else s
  {
    hide Inv, Alive, IsRunning, NameIn;
    RunsAre(s, court);
    NamesAre(s, path, 0);
  }

  /** A corridor is made exactly between running courts; it is new, empty, open for grants,
      and what its path names from then on. */
  lemma CreateCorridorExactly(s: Root, path: string, first: CourtId, second: CourtId, transport: Transport,
                              capacity: nat)
    requires Inv(s)
    ensures var (s', r) := CreateCorridor(s, path, first, second, transport, capacity);
      if Permitted(s, OpCreateCorridor(path, first, second, transport, capacity)) then
        && r.Ok? && !Made(s.trace, r.value) && Grantable(s', r.value)
        && r.value in s'.corridors && s'.corridors[r.value] == Corridor(first, second, [], capacity)
        && NameIn(s'.trace, path) == Some(Descriptor(path, r.value, CorridorObject, transport))
      else s' == s && r == Err(InvalidState)
  {
    hide Inv, Evolves, Alive, IsRunning, NameIn, Made, Cut, Contains;
    RunsAre(s, first);
    RunsAre(s, second);
    var (s', r) := CreateCorridor(s, path, first, second, transport, capacity);
    if r.Ok? {
      NamesAre(s, path, r.value);
      StepKeeps(s, OpCreateCorridor(path, first, second, transport, capacity));
      NamesAre(s', path, r.value);
      RevokedAre(s', s'.rootCaps[r.value]);
    }
  }

  /** A grant succeeds exactly for a running court and rights a corridor has, on a corridor
      whose root capability is live; the capability is new, and its court is then entitled
      to it. */
  lemma GrantExactly(s: Root, court: CourtId, d: Descriptor, rights: Rights)
    requires Inv(s)
    ensures var (s', r) := GrantCorridorCap(s, court, d, rights);
      if Permitted(s, OpGrant(court, d, rights)) then
        && r.Ok? && r.value !in s.registry.caps && Entitled(s', court, r.value, d.target, rights)
        && s'.trace == s.trace + [CapGranted(court, r.value, d.target, rights)]
      else
        && s' == s
        && r == Err(if !Alive(s.trace, court) then InvalidState
                    else if !Made(s.trace, d.target) then InvalidObject
                    else if !Grantable(s, d.target) then Revoked
                    else NoRight)
  {
    hide Inv, Evolves, Alive, NameIn, Made, Cut, Contains;
    RunsAre(s, court);
    NamesAre(s, d.path, d.target);
    var (s', r) := GrantCorridorCap(s, court, d, rights);
    if d.target in s.corridors {
      RevokedAre(s, s.rootCaps[d.target]);
      RootDelegates();
    }
    if r.Ok? {
      StepKeeps(s, OpGrant(court, d, rights));
      FreshCap(s);
      TestsAre(s', court, r.value, d.target, rights);
      assert Contains(rights, rights) by { ContainsAll(rights); }
    }
  }

  lemma RootDelegates()
    ensures Contains(CORRIDOR_RIGHTS, DELEGATE)
  {
  }

  lemma ContainsAll(rights: Rights)
    ensures Contains(rights, rights)
  {
  }

  lemma FreshCap(s: Root)
    requires Inv(s)
    ensures s.registry.next + 1 !in s.registry.caps
  {
    hide CourtsOk, CorridorsOk, NamesOk, Told, HistoryOk, TraceBalanced, LinkOk, ChildrenOk;
  }

  /** Revoking a capability cuts off exactly what derives from it, besides what was cut off
      already. */
  lemma RevokeExactly(s: Root, cap: CapId, k: CapId)
    requires Inv(s) && k in s.registry.caps
    ensures var (s', r) := RevokeCap(s, cap);
      if Permitted(s, OpRevoke(cap)) then
        && r.Ok?
        && (Cut(s'.registry.caps, s'.trace, k) <==>
             Cut(s.registry.caps, s.trace, k) || Descends(s.registry.caps, k, cap))
      else s' == s && r == Err(BadCap)
  {
    hide Inv, Evolves, Cut, Descends;
    var (s', r) := RevokeCap(s, cap);
    if r.Ok? {
      StepKeeps(s, OpRevoke(cap));
      RevokedAre(s, k);
      RevokedAre(s', k);
    }
  }

  /** A court that was created can be faulted, and does not run from then on. */
  lemma FaultExactly(s: Root, court: CourtId, c: CourtId)
    requires Inv(s)
    ensures var (s', r) := FaultCourt(s, court);
      if Permitted(s, OpFault(court)) then r.Ok? && (Alive(s'.trace, c) <==> Alive(s.trace, c) && c != court)
      else s' == s && r == Err(InvalidState)
  {
    hide Inv, Evolves, Alive, Created;
    CreatedAre(s, court);
    var (s', r) := FaultCourt(s, court);
    if r.Ok? {
      StepKeeps(s, OpFault(court));
      RunsAre(s, c);
      RunsAre(s', c);
    }
  }

  lemma CreatedAre(s: Root, court: CourtId)
    requires Inv(s)
    ensures court in s.courts <==> Created(s.trace, court)
  {
    hide CorridorsOk, CapsOk, NamesOk, GrantsTold, RevokesTold, NamesTold, HistoryOk, TraceBalanced;
  }

  // ----- every request after every run -----

  lemma Decision(s: Root, op: Op)
    requires Inv(s)
    ensures !Step(s, op).1.Failed? <==> Permitted(s, op)
  {
    hide Inv, Alive, Created, Made, NameIn, Contains, Entitled, Cut, Grantable, CreateCorridor, Lookup,
         GrantCorridorCap,
         Open, Send, Recv, RevokeCap, FaultCourt, CanPut, CanTake, Refusal, EntitledSome;
    match op {
      case OpCreateCourt(_) =>
      case OpCreateCorridor(path, first, second, transport, capacity) =>
        CreateCorridorExactly(s, path, first, second, transport, capacity);
      case OpLookup(court, path) => LookupExactly(s, court, path);
      case OpGrant(court, d, rights) => GrantExactly(s, court, d, rights);
      case OpOpen(court, d, held, rights) => OpenExactly(s, court, d, held, rights);
      case OpSend(court, cap, payload) => SendExactly(s, court, cap, payload);
      case OpRecv(court, cap) => RecvExactly(s, court, cap);
      case OpRevoke(cap) => RevokeDecision(s, cap);
      case OpFault(court) => FaultExactly(s, court, court);
    }
  }

  lemma RevokeDecision(s: Root, cap: CapId)
    ensures RevokeCap(s, cap).1.Ok? <==> cap in s.registry.caps
  {
  }

  /** After any run, a request succeeds exactly when the trace of that run, and the queue
      it needs, permit it. */
  lemma EveryDecision(ops: seq<Op>, op: Op)
    ensures !Step(Run(START, ops), op).1.Failed? <==> Permitted(Run(START, ops), op)
  {
    hide Inv, Evolves, Run, Step, Permitted;
    StartOk();
    RunKeeps(START, ops);
    Decision(Run(START, ops), op);
  }
}
