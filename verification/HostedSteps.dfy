/** Every operation keeps the invariant and only lets the state evolve. */
module HostedSteps {
  import opened Capabilities
  import opened MachineWords
  import opened HostedState
  import opened HostedTrace
  import opened HostedInvariant

  /** An event that says nothing about what there is or who may use it. */
  predicate Quiet(e: TraceEvent) {
    e.NamespaceLookup? || e.OpenDenied? || e.PeerWentDown?
  }

  /** An event that goes with a change of queues only, or of nothing. */
  predicate Idle(e: TraceEvent) {
    Quiet(e) || IsUse(e)
  }

  lemma IdleTells(s: Root, s': Root, e: TraceEvent)
    requires Idle(e) && s'.courts == s.courts && s'.cspaces == s.cspaces && s'.registry == s.registry
    requires s'.namespace == s.namespace && s'.corridors.Keys == s.corridors.Keys
    ensures Tells(s, s', e)
  {
    hide Descends;
  }

  /** An event that moves no packet. */
  lemma SilentOk(s: Root, s': Root, e: TraceEvent)
    requires s'.trace == s.trace + [e] && !e.Sent? && !e.Received? && Tells(s, s', e)
    requires e.Opened? ==> Justified(s', |s.trace|)
    requires forall o :: QueueOf(s', o) == QueueOf(s, o)
    ensures EventOk(s, s', e)
  {
    hide QueueOf, Lengths, Tells, Justified;
    forall o
      ensures Moves(QueueOf(s, o), QueueOf(s', o), e, o)
    {
      assert Lengths(QueueOf(s, o)) + [] == [] + Lengths(QueueOf(s, o));
    }
  }

  lemma CapsStay(s: Root, s': Root)
    requires CapsOk(s) && RegistryOk(s'.registry) && Evolves(s, s')
    requires forall k | k in s'.registry.caps && k !in s.registry.caps ::
      var o := s'.registry.caps[k].target;
        o in s'.corridors && o in s'.rootCaps && Descends(s'.registry.caps, k, s'.rootCaps[o])
    ensures CapsOk(s')
  {
    LinksClosed(s.registry);
    hide Contains, RegistryOk;
    forall k | k in s'.registry.caps && k in s.registry.caps
      ensures var o := s'.registry.caps[k].target;
        o in s'.corridors && o in s'.rootCaps && Descends(s'.registry.caps, k, s'.rootCaps[o])
    {
      var o := s.registry.caps[k].target;
      DescendsStable(s.registry.caps, s'.registry.caps, k, s.rootCaps[o]);
    }
  }

  lemma NewCap(r: Registry)
    requires RegistryOk(r)
    ensures r.next + 1 !in r.caps
  {
  }

  // ----- operations that only write to the trace -----

  lemma NoteEvolves(s: Root, e: TraceEvent)
    requires ShapeOk(s) && CapsOk(s)
    ensures Evolves(s, Note(s, e)) && ShapeOk(Note(s, e)) && CapsOk(Note(s, e))
  {
    hide RegistryOk, Descends, Contains;
    assert forall o | o in s.corridors :: RootCapOk(s, o) ==> RootCapOk(Note(s, e), o);
    hide RootCapOk;
  }

  lemma NoteKeeps(s: Root, e: TraceEvent)
    requires Inv(s) && Quiet(e)
    ensures Inv(Note(s, e)) && Evolves(s, Note(s, e))
  {
    hide CourtsOk, CorridorsOk, NamesOk, CapsOk, HistoryOk, TraceBalanced, Told, Tells, EventOk, Evolves;
    NoteEvolves(s, e);
    IdleTells(s, Note(s, e), e);
    SilentOk(s, Note(s, e), e);
    Assemble(s, Note(s, e), e);
  }

  lemma Same(s: Root)
    ensures Evolves(s, s)
  {
  }

  ghost predicate QuietChange(s: Root, s': Root) {
    s' == s || (|s'.trace| == |s.trace| + 1 && Quiet(s'.trace[|s.trace|]) && s' == Note(s, s'.trace[|s.trace|]))
  }

  lemma OpenFails(s: Root, court: CourtId, d: Descriptor, cap: Option<CapId>, rights: Rights)
    requires Open(s, court, d, cap, rights).1.Err?
    ensures QuietChange(s, Open(s, court, d, cap, rights).0)
  {
    hide Contains;
  }

  lemma PacketFails(s: Root, court: CourtId, cap: CapId, payload: Payload)
    ensures Send(s, court, cap, payload).1.Err? ==> QuietChange(s, Send(s, court, cap, payload).0)
    ensures Recv(s, court, cap).1.Err? ==> Recv(s, court, cap).0 == s
  {
    hide Contains;
  }

  lemma CapsFail(s: Root, court: CourtId, d: Descriptor, cap: CapId, rights: Rights)
    ensures GrantCorridorCap(s, court, d, rights).1.Err? ==> GrantCorridorCap(s, court, d, rights).0 == s
    ensures RevokeCap(s, cap).1.Err? ==> RevokeCap(s, cap).0 == s
  {
    hide Contains;
  }

  /** A failed operation leaves everything but the trace as it was. */
  lemma FailsQuietly(s: Root, op: Op)
    requires Step(s, op).1.Failed?
    ensures QuietChange(s, Step(s, op).0)
  {
    hide GrantCorridorCap, Open, Send, Recv, RevokeCap, QuietChange;
    match op
    case OpCreateCourt(_) =>
    case OpCreateCorridor(path, first, second, transport, capacity) => SameQuiet(s);
    case OpLookup(court, path) => LookupFails(s, court, path);
    case OpGrant(court, d, rights) => CapsFail(s, court, d, 0, rights); SameQuiet(s);
    case OpOpen(court, d, held, rights) => OpenFails(s, court, d, held, rights);
    case OpSend(court, cap, payload) => PacketFails(s, court, cap, payload);
    case OpRecv(court, cap) => PacketFails(s, court, cap, []); SameQuiet(s);
    case OpRevoke(cap) => CapsFail(s, 0, Descriptor("", 0, CorridorObject, ControlChannel), cap, 0); SameQuiet(s);
    case OpFault(court) => SameQuiet(s);
  }

  lemma SameQuiet(s: Root)
    ensures QuietChange(s, s)
  {
  }

  lemma LookupFails(s: Root, court: CourtId, path: string)
    ensures QuietChange(s, Lookup(s, court, path).0)
  {
  }

  // ----- courts -----

  lemma CreateCourtEvolves(s: Root, s': Root, name: string, court: CourtId)
    requires ShapeOk(s) && (s', court) == CreateCourt(s, name)
    ensures Evolves(s, s') && ShapeOk(s')
  {
    hide Contains;
    assert forall o | o in s.corridors :: RootCapOk(s, o) ==> RootCapOk(s', o);
    hide RootCapOk;
  }

  lemma CreateCourtTells(s: Root, s': Root, name: string, court: CourtId)
    requires CourtsOk(s) && (s', court) == CreateCourt(s, name)
    ensures Tells(s, s', CourtCreated(court, name))
  {
    hide Descends;
  }

  lemma CreateCourtKeeps(s: Root, s': Root, name: string, court: CourtId)
    requires Inv(s) && (s', court) == CreateCourt(s, name)
    ensures Inv(s') && Evolves(s, s')
  {
    hide Evolves, CourtsOk, CorridorsOk, NamesOk, RegistryOk, Descends, HistoryOk, TraceBalanced, Told, Tells, EventOk;
    CreateCourtTells(s, s', name, court);
    CreateCourtEvolves(s, s', name, court);
    SilentOk(s, s', CourtCreated(court, name));
    Assemble(s, s', CourtCreated(court, name));
  }

  lemma FaultEvolves(s: Root, s': Root, court: CourtId)
    requires ShapeOk(s) && s' == FaultCourt(s, court).0 && FaultCourt(s, court).1.Ok?
    ensures Evolves(s, s') && ShapeOk(s')
  {
    hide Contains;
    assert forall o | o in s.corridors :: RootCapOk(s, o) ==> RootCapOk(s', o);
    hide RootCapOk;
  }

  lemma FaultTells(s: Root, s': Root, court: CourtId)
    requires s' == FaultCourt(s, court).0 && FaultCourt(s, court).1.Ok?
    ensures Tells(s, s', CourtFaulted(court))
  {
    hide Descends;
  }

  lemma FaultKeeps(s: Root, s': Root, court: CourtId)
    requires Inv(s) && s' == FaultCourt(s, court).0 && FaultCourt(s, court).1.Ok?
    ensures Inv(s') && Evolves(s, s')
  {
    hide Evolves, CourtsOk, CorridorsOk, NamesOk, RegistryOk, Descends, HistoryOk, TraceBalanced, Told, Tells, EventOk;
    FaultTells(s, s', court);
    FaultEvolves(s, s', court);
    SilentOk(s, s', CourtFaulted(court));
    Assemble(s, s', CourtFaulted(court));
  }

  // ----- capabilities -----

  lemma CorridorEvolves(s: Root, s': Root, path: string, first: CourtId, second: CourtId, transport: Transport,
                        capacity: nat, o: ObjectId)
    requires CorridorsOk(s) && s.registry.next + 1 !in s.registry.caps
    requires (s', Ok(o)) == CreateCorridor(s, path, first, second, transport, capacity)
    ensures Evolves(s, s')
  {
    hide Contains, RootCapOk;
  }

  lemma CorridorShape(s: Root, s': Root, path: string, first: CourtId, second: CourtId, transport: Transport,
                      capacity: nat, o: ObjectId)
    requires ShapeOk(s) && s.registry.next + 1 !in s.registry.caps
    requires (s', Ok(o)) == CreateCorridor(s, path, first, second, transport, capacity)
    ensures ShapeOk(s')
  {
    hide Contains;
  }

  lemma CorridorCaps(s: Root, s': Root, path: string, first: CourtId, second: CourtId, transport: Transport,
                     capacity: nat, o: ObjectId)
    requires CapsOk(s) && CorridorsOk(s) && Evolves(s, s')
    requires (s', Ok(o)) == CreateCorridor(s, path, first, second, transport, capacity)
    ensures CapsOk(s')
  {
    MintKeeps(s.registry, o, CorridorObject, CORRIDOR_RIGHTS);
    hide RegistryOk, Contains, Evolves, RootCapOk, CapsOk;
    CapsStay(s, s');
  }

  lemma CreateCorridorEvolves(s: Root, s': Root, path: string, first: CourtId, second: CourtId, transport: Transport,
                              capacity: nat, o: ObjectId)
    requires Inv(s) && (s', Ok(o)) == CreateCorridor(s, path, first, second, transport, capacity)
    ensures Evolves(s, s') && ShapeOk(s') && CapsOk(s')
  {
    hide CourtsOk, CorridorsOk, NamesOk, HistoryOk, TraceBalanced, Told, CreateCorridor, Evolves;
    NewCap(s.registry);
    CorridorEvolves(s, s', path, first, second, transport, capacity, o);
    CorridorShape(s, s', path, first, second, transport, capacity, o);
    CorridorCaps(s, s', path, first, second, transport, capacity, o);
  }

  lemma CreateCorridorKeeps(s: Root, s': Root, path: string, first: CourtId, second: CourtId, transport: Transport,
                            capacity: nat, o: ObjectId)
    requires Inv(s) && (s', Ok(o)) == CreateCorridor(s, path, first, second, transport, capacity)
    ensures Inv(s') && Evolves(s, s')
  {
    CreateCorridorEvolves(s, s', path, first, second, transport, capacity, o);
    CorridorQueues(s, s', path, first, second, transport, capacity, o);
    NewCap(s.registry);
    CorridorTells(s, s', path, first, second, transport, capacity, o);
    var e := CorridorCreated(path, o, transport);
    hide Evolves, CourtsOk, CorridorsOk, NamesOk, CapsOk, HistoryOk, TraceBalanced, Told, Tells, EventOk,
         QueueOf, CreateCorridor;
    SilentOk(s, s', e);
    Assemble(s, s', e);
  }

  lemma CorridorTells(s: Root, s': Root, path: string, first: CourtId, second: CourtId, transport: Transport,
                      capacity: nat, o: ObjectId)
    requires s.registry.next + 1 !in s.registry.caps
    requires (s', Ok(o)) == CreateCorridor(s, path, first, second, transport, capacity)
    ensures Tells(s, s', CorridorCreated(path, o, transport))
  {
    hide Descends;
  }

  lemma CorridorQueues(s: Root, s': Root, path: string, first: CourtId, second: CourtId, transport: Transport,
                       capacity: nat, o: ObjectId)
    requires CorridorsOk(s) && (s', Ok(o)) == CreateCorridor(s, path, first, second, transport, capacity)
    ensures s'.trace == s.trace + [CorridorCreated(path, o, transport)]
    ensures forall p :: QueueOf(s', p) == QueueOf(s, p)
  {
    hide RootCapOk;
  }

  /** A successful grant, spelled out. */
  lemma GrantIs(s: Root, s': Root, court: CourtId, d: Descriptor, rights: Rights, k: CapId)
    requires CorridorsOk(s) && (s', Ok(k)) == GrantCorridorCap(s, court, d, rights)
    ensures d.target in s.rootCaps && d.target in s.corridors && k == s.registry.next + 1
    ensures s'.registry.caps ==
      s.registry.caps[k := Capability(d.target, CorridorObject, rights, Some(s.rootCaps[d.target]), false,
        Contains(rights, DELEGATE))]
    ensures s'.courts == s.courts && s'.corridors == s.corridors && s'.rootCaps == s.rootCaps
    ensures s'.namespace == s.namespace
    ensures s'.nextCourt == s.nextCourt && s'.nextObject == s.nextObject && court in s.courts
    ensures s'.cspaces == s.cspaces[court := (if court in s.cspaces then s.cspaces[court] else {}) + {k}]
    ensures s'.trace == s.trace + [CapGranted(court, k, d.target, rights)]
  {
    hide Contains;
    assert RootCapOk(s, d.target);
    assert s.registry.caps[s.rootCaps[d.target]].objectType.CorridorObject?;
  }

  lemma GrantEvolves(s: Root, s': Root, court: CourtId, d: Descriptor, rights: Rights, k: CapId)
    requires CorridorsOk(s) && s.registry.next + 1 !in s.registry.caps
    requires (s', Ok(k)) == GrantCorridorCap(s, court, d, rights)
    ensures Evolves(s, s')
  {
    GrantIs(s, s', court, d, rights, k);
    hide Contains, GrantCorridorCap, CorridorsOk;
  }

  lemma GrantShape(s: Root, s': Root, court: CourtId, d: Descriptor, rights: Rights, k: CapId)
    requires ShapeOk(s) && s.registry.next + 1 !in s.registry.caps
    requires (s', Ok(k)) == GrantCorridorCap(s, court, d, rights)
    ensures ShapeOk(s')
  {
    GrantIs(s, s', court, d, rights, k);
    hide Contains, GrantCorridorCap;
  }

  lemma GrantRegistry(s: Root, s': Root, court: CourtId, d: Descriptor, rights: Rights, k: CapId)
    requires RegistryOk(s.registry) && CorridorsOk(s) && (s', Ok(k)) == GrantCorridorCap(s, court, d, rights)
    ensures RegistryOk(s'.registry) && d.target in s.rootCaps && s.rootCaps[d.target] < k
  {
    hide RegistryOk, Contains, RootCapOk;
    GrantIs(s, s', court, d, rights, k);
    DelegateKeeps(s.registry, s.rootCaps[d.target], rights);
    RootIn(s, d.target);
    RootBelow(s.registry, s.rootCaps[d.target]);
  }

  lemma RootIn(s: Root, o: ObjectId)
    requires CorridorsOk(s) && o in s.corridors
    ensures s.rootCaps[o] in s.registry.caps
  {
    assert RootCapOk(s, o);
  }

  lemma GrantCaps(s: Root, s': Root, court: CourtId, d: Descriptor, rights: Rights, k: CapId)
    requires CapsOk(s) && CorridorsOk(s) && Evolves(s, s')
    requires (s', Ok(k)) == GrantCorridorCap(s, court, d, rights)
    ensures CapsOk(s')
  {
    hide RegistryOk, Contains, Evolves, CorridorsOk, GrantCorridorCap;
    GrantIs(s, s', court, d, rights, k);
    GrantRegistry(s, s', court, d, rights, k);
    hide CapsOk;
    CapsStay(s, s');
  }

  lemma RootBelow(r: Registry, k: CapId)
    requires RegistryOk(r) && k in r.caps
    ensures k < r.next + 1
  {
  }

  lemma GrantTells(s: Root, s': Root, court: CourtId, d: Descriptor, rights: Rights, k: CapId)
    requires CorridorsOk(s) && (s', Ok(k)) == GrantCorridorCap(s, court, d, rights)
    requires s.registry.next + 1 !in s.registry.caps
    ensures Tells(s, s', CapGranted(court, k, d.target, rights))
  {
    GrantIs(s, s', court, d, rights, k);
    hide Contains, GrantCorridorCap, CorridorsOk, Descends;
  }

  lemma GrantKeeps(s: Root, s': Root, court: CourtId, d: Descriptor, rights: Rights, k: CapId)
    requires Inv(s) && (s', Ok(k)) == GrantCorridorCap(s, court, d, rights)
    ensures Inv(s') && Evolves(s, s')
  {
    var e := CapGranted(court, k, d.target, rights);
    hide Evolves, CourtsOk, CorridorsOk, NamesOk, RegistryOk, HistoryOk, TraceBalanced, Told, Tells, EventOk,
         Contains, GrantCorridorCap;
    NewCap(s.registry);
    hide CapsOk;
    GrantIs(s, s', court, d, rights, k);
    GrantEvolves(s, s', court, d, rights, k);
    GrantShape(s, s', court, d, rights, k);
    GrantCaps(s, s', court, d, rights, k);
    GrantTells(s, s', court, d, rights, k);
    SilentOk(s, s', e);
    Assemble(s, s', e);
  }

  lemma RevokeEvolves(s: Root, s': Root, cap: CapId)
    requires ShapeOk(s) && s' == RevokeCap(s, cap).0 && RevokeCap(s, cap).1.Ok?
    ensures Evolves(s, s') && ShapeOk(s')
  {
    hide Contains, Descends, RootCapOk;
    forall o | o in s.corridors
      ensures RootCapOk(s', o)
    {
      RevokeRoot(s, s', cap, o);
    }
    RevokeMarks(s, s', cap);
    hide RevokeCap, CapsEvolve;
  }

  lemma RevokeMarks(s: Root, s': Root, cap: CapId)
    requires s' == RevokeCap(s, cap).0 && RevokeCap(s, cap).1.Ok?
    ensures s' == s.(registry := s'.registry, trace := s.trace + [CapRevoked(cap)])
    ensures CapsEvolve(s.registry.caps, s'.registry.caps)
  {
    hide Contains, Descends;
  }

  lemma RevokeRoot(s: Root, s': Root, cap: CapId, o: ObjectId)
    requires CorridorsOk(s) && s' == RevokeCap(s, cap).0 && RevokeCap(s, cap).1.Ok? && o in s.corridors
    ensures RootCapOk(s', o)
  {
    hide Contains, Descends;
    assert RootCapOk(s, o);
  }

  lemma RevokeCaps(s: Root, s': Root, cap: CapId)
    requires CapsOk(s) && Evolves(s, s') && s' == RevokeCap(s, cap).0 && RevokeCap(s, cap).1.Ok?
    ensures CapsOk(s')
  {
    RevokeKeeps(s.registry, cap);
    hide RegistryOk, Contains, Descends, Evolves, CapsOk;
    CapsStay(s, s');
  }

  lemma RevokeStepKeeps(s: Root, s': Root, cap: CapId)
    requires Inv(s) && s' == RevokeCap(s, cap).0 && RevokeCap(s, cap).1.Ok?
    ensures Inv(s') && Evolves(s, s')
  {
    hide Evolves, CourtsOk, CorridorsOk, NamesOk, CapsOk, HistoryOk, TraceBalanced, Told, Tells, EventOk;
    RevokeEvolves(s, s', cap);
    RevokeCaps(s, s', cap);
    RevokeTells(s, s', cap);
    SilentOk(s, s', CapRevoked(cap));
    Assemble(s, s', CapRevoked(cap));
  }

  lemma RevokeTells(s: Root, s': Root, cap: CapId)
    requires s' == RevokeCap(s, cap).0 && RevokeCap(s, cap).1.Ok?
    ensures Tells(s, s', CapRevoked(cap))
  {
    hide Descends;
    assert Descends(s.registry.caps, cap, cap) by { DescendsSelf(s.registry.caps, cap); }
    RevokeDescent(s, s', cap);
  }

  lemma DescendsSelf(caps: CapMap, k: CapId)
    ensures Descends(caps, k, k)
  {
  }

  /** Marking capabilities revoked changes no descent. */
  lemma RevokeDescent(s: Root, s': Root, cap: CapId)
    requires s' == RevokeCap(s, cap).0 && RevokeCap(s, cap).1.Ok?
    ensures forall k, a :: Descends(s'.registry.caps, k, a) == Descends(s.registry.caps, k, a)
  {
    hide Descends;
    forall k, a
      ensures Descends(s'.registry.caps, k, a) == Descends(s.registry.caps, k, a)
    {
      SameLinks(s.registry.caps, s'.registry.caps, k, a);
    }
  }

  lemma {:induction false} SameLinks(caps: CapMap, caps': CapMap, k: CapId, a: CapId)
    requires caps'.Keys == caps.Keys && forall x | x in caps :: caps'[x].parent == caps[x].parent
    ensures Descends(caps', k, a) == Descends(caps, k, a)
    decreases k
  {
    if k != a && k in caps && caps[k].parent.Some? && caps[k].parent.value < k {
      SameLinks(caps, caps', caps[k].parent.value, a);
    }
  }

  // ----- packets -----

  /** `s'` is `s` with queue `q` in corridor `o` and a longer trace. */
  ghost predicate Requeued(s: Root, s': Root, o: ObjectId, q: seq<Payload>) {
    && o in s.corridors && |q| <= s.corridors[o].capacity && s.trace <= s'.trace
    && s' == s.(corridors := s.corridors[o := s.corridors[o].(queue := q)], trace := s'.trace)
  }

  lemma PacketEvolves(s: Root, s': Root, o: ObjectId, q: seq<Payload>)
    requires Requeued(s, s', o, q)
    ensures Evolves(s, s')
  {
  }

  lemma PacketShape(s: Root, s': Root, o: ObjectId, q: seq<Payload>)
    requires ShapeOk(s) && CapsOk(s) && Requeued(s, s', o, q)
    ensures ShapeOk(s') && CapsOk(s')
  {
    hide RegistryOk, Descends;
    forall p | p in s'.corridors
      ensures RootCapOk(s', p)
    {
      assert RootCapOk(s, p);
    }
  }

  ghost predicate SameEnds(s: Root, s': Root, o: ObjectId) {
    o in s.corridors && o in s'.corridors && s'.corridors[o].first == s.corridors[o].first
      && s'.corridors[o].second == s.corridors[o].second
  }

  /** The capability that authorised a use was granted and is live, and no court that
      matters has faulted. */
  lemma UseJustified(s: Root, s': Root, cap: CapId, e: TraceEvent)
    requires Inv(s) && IsUse(e) && IsRunning(s, e.court) && Holds(s, e.court, cap)
    requires var a := Authorize(s.registry, cap, CorridorObject, UsedRights(e));
      a.Ok? && (if e.Opened? then cap == e.cap else a.value == e.target)
    requires e.Sent? ==> e.target in s.corridors && !HasPeerDown(s, s.corridors[e.target], e.court)
    requires s'.trace == s.trace + [e] && s'.registry == s.registry
    requires e.Sent? ==> SameEnds(s, s', e.target)
    ensures Justified(s', |s.trace|)
  {
    hide CourtsOk, CorridorsOk, NamesOk, HistoryOk, TraceBalanced, Contains, RegistryOk, Descends, CourtsTold,
         GrantsTold, RevokesTold, NamesTold, LiveBefore, NoFaultBefore;
    var i := |s.trace|;
    var j := GrantOf(s, e.court, cap);
    NotCut(s, s', cap);
    NoFaults(s, s', e.court);
    if e.Sent? {
      NoFaults(s, s', s.corridors[e.target].first);
      NoFaults(s, s', s.corridors[e.target].second);
    }
    assert s'.trace[j] == s.trace[j] && s'.trace[i] == e;
    assert RestsOn(s', i, j);
  }

  /** A capability held was granted. */
  lemma GrantOf(s: Root, court: CourtId, cap: CapId) returns (j: nat)
    requires GrantsTold(s) && Holds(s, court, cap)
    ensures cap in s.registry.caps && j < |s.trace|
    ensures s.trace[j] == CapGranted(court, cap, s.registry.caps[cap].target, s.registry.caps[cap].rights)
  {
    assert Given(s.trace, court, cap);
    var o, rights :| CapGranted(court, cap, o, rights) in s.trace;
    j :| 0 <= j < |s.trace| && s.trace[j] == CapGranted(court, cap, o, rights);
  }

  /** Nothing a live capability derives from was revoked. */
  lemma NotCut(s: Root, s': Root, cap: CapId)
    requires RegistryOk(s.registry) && RevokesTold(s) && cap in s.registry.caps && !s.registry.caps[cap].revoked
    requires s.trace <= s'.trace && s'.registry == s.registry
    ensures LiveBefore(s'.registry.caps, s'.trace, |s.trace|, cap)
  {
    forall m | 0 <= m < |s.trace| && s'.trace[m].CapRevoked?
      ensures !Descends(s'.registry.caps, cap, s'.trace[m].cap)
    {
      assert s'.trace[m] == s.trace[m] == CapRevoked(s.trace[m].cap);
      if Descends(s.registry.caps, cap, s.trace[m].cap) {
        ChainAttenuates(s.registry, cap, s.trace[m].cap);
      }
    }
  }

  lemma NoFaults(s: Root, s': Root, court: CourtId)
    requires CourtsTold(s) && s.trace <= s'.trace
    ensures IsRunning(s, court) ==> NoFaultBefore(s'.trace, |s.trace|, court)
  {
    if IsRunning(s, court) {
      forall m | 0 <= m < |s.trace|
        ensures s'.trace[m] != CourtFaulted(court)
      {
        assert s'.trace[m] == s.trace[m];
      }
    }
  }

  /** A successful open changes the trace alone. */
  lemma OpenKeeps(s: Root, s': Root, court: CourtId, d: Descriptor, cap: Option<CapId>, rights: Rights)
    requires Inv(s) && s' == Open(s, court, d, cap, rights).0 && Open(s, court, d, cap, rights).1.Ok?
    ensures Inv(s') && Evolves(s, s')
  {
    hide Contains, CourtsOk, CorridorsOk, NamesOk, CapsOk, HistoryOk, TraceBalanced, Told, Tells, Justified, EventOk,
         Evolves;
    var e := Opened(court, d.path, cap.value, rights);
    assert s' == Note(s, e);
    NoteEvolves(s, e);
    UseJustified(s, s', cap.value, e);
    IdleTells(s, s', e);
    SilentOk(s, s', e);
    Assemble(s, s', e);
  }

  lemma LengthsPush(q: seq<Payload>, p: Payload)
    ensures Lengths(q + [p]) == Lengths(q) + [|p|]
  {
  }

  lemma LengthsPop(q: seq<Payload>)
    requires q != []
    ensures Lengths(q) == [|q[0]|] + Lengths(q[1..])
  {
  }

  lemma SendKeeps(s: Root, s': Root, court: CourtId, cap: CapId, payload: Payload)
    requires Inv(s) && s' == Send(s, court, cap, payload).0 && Send(s, court, cap, payload).1.Ok?
    ensures Inv(s') && Evolves(s, s')
  {
    hide Contains, CourtsOk, CorridorsOk, NamesOk, CapsOk, HistoryOk, TraceBalanced, Told, Tells, Lengths,
         Evolves, Justified;
    var o := Authorize(s.registry, cap, CorridorObject, SEND).value;
    var q, e := s.corridors[o].queue + [payload], Sent(court, o, |payload|);
    assert Requeued(s, s', o, q);
    PacketEvolves(s, s', o, q);
    PacketShape(s, s', o, q);
    UseJustified(s, s', cap, e);
    IdleTells(s, s', e);
    LengthsPush(s.corridors[o].queue, payload);
    forall p
      ensures Moves(QueueOf(s, p), QueueOf(s', p), e, p)
    {
      assert [] + Lengths(QueueOf(s', p)) == Lengths(QueueOf(s', p));
      assert Lengths(QueueOf(s, p)) + [] == Lengths(QueueOf(s, p));
    }
    assert EventOk(s, s', e);
    Assemble(s, s', e);
  }

  lemma RecvKeeps(s: Root, s': Root, court: CourtId, cap: CapId, payload: Payload)
    requires Inv(s) && (s', Ok(payload)) == Recv(s, court, cap)
    ensures Inv(s') && Evolves(s, s')
  {
    hide Contains, CourtsOk, NamesOk, RootCapOk, CapsOk, HistoryOk, TraceBalanced, Told, Tells, Lengths,
         Evolves, Justified;
    ReceivesShorter(s, s', court, cap, payload);
    hide CorridorsOk, Recv;
    var o := Authorize(s.registry, cap, CorridorObject, RECV).value;
    var q, e := s.corridors[o].queue, Received(court, o, |payload|);
    PacketEvolves(s, s', o, q[1..]);
    PacketShape(s, s', o, q[1..]);
    UseJustified(s, s', cap, e);
    IdleTells(s, s', e);
    LengthsPop(q);
    forall p
      ensures Moves(QueueOf(s, p), QueueOf(s', p), e, p)
    {
      assert [] + Lengths(QueueOf(s', p)) == Lengths(QueueOf(s', p));
      assert Lengths(QueueOf(s, p)) + [] == Lengths(QueueOf(s, p));
    }
    assert EventOk(s, s', e);
    Assemble(s, s', e);
  }

  lemma ReceivesShorter(s: Root, s': Root, court: CourtId, cap: CapId, payload: Payload)
    requires CorridorsOk(s) && (s', Ok(payload)) == Recv(s, court, cap)
    ensures Authorize(s.registry, cap, CorridorObject, RECV).Ok?
    ensures s'.trace == s.trace + [Received(court, Authorize(s.registry, cap, CorridorObject, RECV).value, |payload|)]
    ensures IsRunning(s, court) && Holds(s, court, cap)
    ensures var r := Authorize(s.registry, cap, CorridorObject, RECV);
      r.Ok? && r.value in s.corridors && s.corridors[r.value].queue != [] && payload == s.corridors[r.value].queue[0]
        && Requeued(s, s', r.value, s.corridors[r.value].queue[1..])
  {
    hide Contains;
  }

  // ----- every step, every run -----

  lemma StepKeeps(s: Root, op: Op)
    requires Inv(s)
    ensures Inv(Step(s, op).0) && Evolves(s, Step(s, op).0)
  {
    var (s', reply) := Step(s, op);
    Same(s);
    hide Inv, Evolves, CreateCourt, CreateCorridor, GrantCorridorCap, Open, Send, Recv, RevokeCap, FaultCourt;
    if reply.Failed? {
      FailsQuietly(s, op);
      if s' != s {
        NoteKeeps(s, s'.trace[|s.trace|]);
      }
    } else {
      match op
      case OpCreateCourt(name) => CreateCourtKeeps(s, s', name, reply.court);
      case OpCreateCorridor(path, first, second, transport, capacity) =>
        CreateCorridorKeeps(s, s', path, first, second, transport, capacity, reply.target);
      case OpLookup(court, path) => NoteKeeps(s, NamespaceLookup(court, path, path in s.namespace));
      case OpGrant(court, d, rights) => GrantKeeps(s, s', court, d, rights, reply.cap);
      case OpOpen(court, d, held, rights) => OpenKeeps(s, s', court, d, held, rights);
      case OpSend(court, cap, payload) => SendKeeps(s, s', court, cap, payload);
      case OpRecv(court, cap) => RecvKeeps(s, s', court, cap, reply.payload);
      case OpRevoke(cap) => RevokeStepKeeps(s, s', cap);
      case OpFault(court) => FaultKeeps(s, s', court);
    }
  }

  /** The invariant holds in every reachable state. */
  lemma {:induction false} RunKeeps(s: Root, ops: seq<Op>)
    requires Inv(s)
    ensures Inv(Run(s, ops)) && Evolves(s, Run(s, ops))
    decreases |ops|
  {
    Same(s);
    hide Inv, Evolves, Step;
    if ops != [] {
      StepKeeps(s, ops[0]);
      RunKeeps(Step(s, ops[0]).0, ops[1..]);
      EvolvesTrans(s, Step(s, ops[0]).0, Run(s, ops));
    }
  }

  lemma EvolvesTrans(s0: Root, s1: Root, s2: Root)
    requires Evolves(s0, s1) && Evolves(s1, s2)
    ensures Evolves(s0, s2)
  {
  }
}
