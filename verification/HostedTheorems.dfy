/** What is true of every run of the hosted root. */
module HostedTheorems {
  import opened Capabilities
  import opened HostedState
  import opened HostedTrace
  import opened HostedInvariant
  import opened HostedSteps

  /** Every packet the trace of any run records as sent or received, and every open, rests
      on an earlier grant to that court with the rights used; before it, neither the
      capability granted nor any it derives from had been revoked, and the court had not
      faulted, nor, for a send, another endpoint. */
  lemma EveryUseJustified(ops: seq<Op>, i: nat)
    requires i < |Run(START, ops).trace| && IsUse(Run(START, ops).trace[i])
    ensures Justified(Run(START, ops), i)
  {
    StartOk();
    hide Evolves, Justified, Step;
    RunKeeps(START, ops);
  }

  /** In every reachable state a capability carries at most the rights of each of
      its ancestors, names the same object, and is revoked if any of them is. */
  lemma EveryCapAttenuated(ops: seq<Op>, k: CapId, a: CapId)
    requires var r := Run(START, ops).registry; k in r.caps && Descends(r.caps, k, a)
    ensures var r := Run(START, ops).registry;
      && a in r.caps && Contains(r.caps[a].rights, r.caps[k].rights)
      && r.caps[k].target == r.caps[a].target && (r.caps[a].revoked ==> r.caps[k].revoked)
  {
    StartOk();
    hide Evolves, Step, Run;
    RunKeeps(START, ops);
    ChainAttenuates(Run(START, ops).registry, k, a);
  }

  // ----- conservation of packets -----

  /** The packet an operation puts into corridor `o`, if it does. */
  function Put(s: Root, op: Op, o: ObjectId): seq<Payload> {
    if op.OpSend? && Step(s, op).1.Succeeded? && Authorize(s.registry, op.cap, CorridorObject, SEND) == Ok(o) then
      [op.payload] else []
  }

  function Take(s: Root, op: Op, o: ObjectId): seq<Payload> {
    var r := Step(s, op).1;
    if op.OpRecv? && r.PayloadIs? && Authorize(s.registry, op.cap, CorridorObject, RECV) == Ok(o) then [r.payload]
      else []
  }

  function Accepted(s: Root, ops: seq<Op>, o: ObjectId): seq<Payload>
    decreases |ops|
  {
    if ops == [] then [] else Put(s, ops[0], o) + Accepted(Step(s, ops[0]).0, ops[1..], o)
  }

  function Delivered(s: Root, ops: seq<Op>, o: ObjectId): seq<Payload>
    decreases |ops|
  {
    if ops == [] then [] else Take(s, ops[0], o) + Delivered(Step(s, ops[0]).0, ops[1..], o)
  }

  lemma SendQueues(s: Root, court: CourtId, cap: CapId, payload: Payload, o: ObjectId)
    ensures var (s', r) := Send(s, court, cap, payload);
      QueueOf(s', o) == QueueOf(s, o) + if r.Ok? && Authorize(s.registry, cap, CorridorObject, SEND) == Ok(o) then
        [payload] else []
  {
    hide Contains;
  }

  lemma RecvQueues(s: Root, court: CourtId, cap: CapId, o: ObjectId)
    ensures var (s', r) := Recv(s, court, cap);
      QueueOf(s, o) ==
        (if r.Ok? && Authorize(s.registry, cap, CorridorObject, RECV) == Ok(o) then [r.value] else []) + QueueOf(s', o)
  {
    hide Contains;
  }

  lemma OthersQueue(s: Root, op: Op, o: ObjectId)
    requires CorridorsOk(s) && !op.OpSend? && !op.OpRecv?
    ensures QueueOf(Step(s, op).0, o) == QueueOf(s, o)
  {
    hide Contains, RootCapOk;
  }

  lemma StepConserves(s: Root, op: Op, o: ObjectId)
    requires CorridorsOk(s)
    ensures QueueOf(s, o) + Put(s, op, o) == Take(s, op, o) + QueueOf(Step(s, op).0, o)
  {
    hide CorridorsOk, Send, Recv, QueueOf, Authorize;
    var s' := Step(s, op).0;
    match op {
      case OpSend(court, cap, payload) =>
        SendQueues(s, court, cap, payload, o);
        assert [] + QueueOf(s', o) == QueueOf(s', o);
      case OpRecv(court, cap) =>
        RecvQueues(s, court, cap, o);
        assert QueueOf(s, o) + [] == QueueOf(s, o);
      case _ =>
        OthersQueue(s, op, o);
        assert QueueOf(s, o) + [] == [] + QueueOf(s, o);
    }
  }

  /** Over any run, what was queued plus what was accepted is what was delivered
      plus what is queued, in order: nothing is lost, invented or reordered. */
  lemma {:induction false} PacketsConserved(s: Root, ops: seq<Op>, o: ObjectId)
    requires Inv(s)
    ensures QueueOf(s, o) + Accepted(s, ops, o) == Delivered(s, ops, o) + QueueOf(Run(s, ops), o)
    decreases |ops|
  {
    if ops == [] {
      assert QueueOf(s, o) + [] == [] + QueueOf(s, o);
    } else {
      var s1 := Step(s, ops[0]).0;
      StepConserves(s, ops[0], o);
      StepKeeps(s, ops[0]);
      hide Inv, Evolves, Step, QueueOf, Put, Take;
      PacketsConserved(s1, ops[1..], o);
      Chain(QueueOf(s, o), Put(s, ops[0], o), Take(s, ops[0], o), QueueOf(s1, o),
            Accepted(s1, ops[1..], o), Delivered(s1, ops[1..], o), QueueOf(Run(s1, ops[1..]), o));
    }
  }

  lemma Chain(q: seq<Payload>, put: seq<Payload>, take: seq<Payload>, q1: seq<Payload>, acc: seq<Payload>,
              del: seq<Payload>, q2: seq<Payload>)
    requires q + put == take + q1 && q1 + acc == del + q2
    ensures q + (put + acc) == (take + del) + q2
  {
    assert q + (put + acc) == (q + put) + acc;
    assert (take + q1) + acc == take + (q1 + acc);
    assert take + (del + q2) == (take + del) + q2;
  }

  /** From the start: accepted packets are delivered packets followed by the queue,
      the queue is within capacity, and the trace counts agree with it. */
  lemma EveryQueueAccounted(ops: seq<Op>, o: ObjectId)
    ensures var s := Run(START, ops);
      && Accepted(START, ops, o) == Delivered(START, ops, o) + QueueOf(s, o)
      && (o in s.corridors ==> |s.corridors[o].queue| <= s.corridors[o].capacity)
      && |SentLengths(s.trace, o)| == |ReceivedLengths(s.trace, o)| + |QueueOf(s, o)|
  {
    StartOk();
    PacketsConserved(START, ops, o);
    assert [] + Accepted(START, ops, o) == Accepted(START, ops, o);
    hide Evolves, Step, Run;
    RunKeeps(START, ops);
  }

  // ----- errors -----

  /** A failed operation changes no court, holding, capability, name or queue; the
      trace may grow by one event. */
  lemma ErrorsChangeNothing(s: Root, op: Op)
    requires Step(s, op).1.Failed?
    ensures var s' := Step(s, op).0; s' == s.(trace := s'.trace) && s.trace <= s'.trace && |s'.trace| <= |s.trace| + 1
  {
    hide Step;
    FailsQuietly(s, op);
  }

  /** In reachable states a held capability always leads to a corridor, so sending
      and receiving never report an invalid object. */
  lemma CorridorNeverMissing(s: Root, court: CourtId, cap: CapId, payload: Payload)
    requires Inv(s)
    ensures Send(s, court, cap, payload).1 != Err(InvalidObject)
    ensures Recv(s, court, cap).1 != Err(InvalidObject)
  {
    hide Contains, CourtsOk, CorridorsOk, NamesOk, HistoryOk, TraceBalanced, RegistryOk, Descends;
    if Holds(s, court, cap) {
      assert Given(s.trace, court, cap);
      assert s.registry.caps[cap].objectType.CorridorObject?;
    }
  }

  // ----- revocation is final -----

  ghost predicate RootRevoked(s: Root, o: ObjectId) {
    o in s.rootCaps && s.rootCaps[o] in s.registry.caps && s.registry.caps[s.rootCaps[o]].revoked
  }

  /** The operation gave someone access to, or moved a packet through, corridor `o`. */
  predicate UsesObject(s: Root, op: Op, o: ObjectId) {
    && !Step(s, op).1.Failed?
    && match op
       case OpGrant(_, d, _) => d.target == o
       case OpOpen(_, d, _, _) => d.target == o
       case OpSend(_, cap, _) => cap in s.registry.caps && s.registry.caps[cap].target == o
       case OpRecv(_, cap) => cap in s.registry.caps && s.registry.caps[cap].target == o
       case _ => false
  }

  lemma AllRevoked(s: Root, o: ObjectId, k: CapId)
    requires CapsOk(s) && RootRevoked(s, o) && k in s.registry.caps && s.registry.caps[k].target == o
    ensures s.registry.caps[k].revoked
  {
    ChainAttenuates(s.registry, k, s.rootCaps[o]);
  }

  lemma RevokedUnused(s: Root, op: Op, o: ObjectId)
    requires Inv(s) && RootRevoked(s, o)
    ensures !UsesObject(s, op, o)
  {
    hide Contains, CourtsOk, CorridorsOk, NamesOk, HistoryOk, TraceBalanced, Told, RegistryOk, Descends;
    match op {
      case OpOpen(court, d, held, rights) =>
        if held.Some? && held.value in s.registry.caps && s.registry.caps[held.value].target == o {
          AllRevoked(s, o, held.value);
        }
      case OpSend(court, cap, payload) =>
        if cap in s.registry.caps && s.registry.caps[cap].target == o {
          AllRevoked(s, o, cap);
        }
      case OpRecv(court, cap) =>
        if cap in s.registry.caps && s.registry.caps[cap].target == o {
          AllRevoked(s, o, cap);
        }
      case _ =>
    }
  }

  ghost predicate NeverUses(s: Root, ops: seq<Op>, o: ObjectId)
    decreases |ops|
  {
    ops == [] || (!UsesObject(s, ops[0], o) && NeverUses(Step(s, ops[0]).0, ops[1..], o))
  }

  /** Once a corridor's root capability is revoked, no continuation of the run ever
      grants, opens, sends or receives on it again. */
  lemma {:induction false} RevocationFinal(s: Root, ops: seq<Op>, o: ObjectId)
    requires Inv(s) && RootRevoked(s, o)
    ensures NeverUses(s, ops, o) && RootRevoked(Run(s, ops), o)
    decreases |ops|
  {
    if ops != [] {
      RevokedUnused(s, ops[0], o);
      StepKeeps(s, ops[0]);
      hide Inv, Step, UsesObject;
      RevocationFinal(Step(s, ops[0]).0, ops[1..], o);
    }
  }

  /** A revoked capability, and whatever derives from it in any later state, authorises
      nothing for the rest of any run; everything else authorises what it did. */
  lemma RevokedForever(s: Root, c: CapId, ops: seq<Op>, k: CapId, rights: Rights)
    requires Inv(s) && c in s.registry.caps
    ensures var s' := Run(RevokeCap(s, c).0, ops);
      k in s'.registry.caps && Descends(s'.registry.caps, k, c) ==>
        Authorize(s'.registry, k, CorridorObject, rights) == Err(Revoked)
    ensures k in s.registry.caps && !Descends(s.registry.caps, k, c) ==>
      Authorize(RevokeCap(s, c).0.registry, k, CorridorObject, rights) ==
        Authorize(s.registry, k, CorridorObject, rights)
  {
    hide Contains, Run, RevokeCap, Inv, Descends, Authorize;
    RevokeNow(s, c, k, rights);
    StaysRevoked(RevokeCap(s, c).0, ops, c);
    RegistryHolds(Run(RevokeCap(s, c).0, ops));
    AuthorityOfChain(Run(RevokeCap(s, c).0, ops).registry, k, rights);
  }

  lemma RevokeNow(s: Root, c: CapId, k: CapId, rights: Rights)
    requires Inv(s) && c in s.registry.caps
    ensures var s1 := RevokeCap(s, c).0; Inv(s1) && c in s1.registry.caps && s1.registry.caps[c].revoked
    ensures k in s.registry.caps && !Descends(s.registry.caps, k, c) ==>
      Authorize(RevokeCap(s, c).0.registry, k, CorridorObject, rights) ==
        Authorize(s.registry, k, CorridorObject, rights)
  {
    hide Contains, Inv, Evolves;
    StepKeeps(s, OpRevoke(c));
  }

  lemma StaysRevoked(s: Root, ops: seq<Op>, c: CapId)
    requires Inv(s) && c in s.registry.caps && s.registry.caps[c].revoked
    ensures var s' := Run(s, ops); Inv(s') && c in s'.registry.caps && s'.registry.caps[c].revoked
  {
    hide Run, Inv;
    RunKeeps(s, ops);
  }

  lemma RegistryHolds(s: Root)
    requires Inv(s)
    ensures RegistryOk(s.registry)
  {
  }

  // ----- packets in flight when a peer faults -----

  function Receives(court: CourtId, cap: CapId, n: nat): seq<Op> {
    seq(n, _ => OpRecv(court, cap))
  }

  ghost predicate CanReceive(s: Root, court: CourtId, cap: CapId, o: ObjectId) {
    IsRunning(s, court) && Holds(s, court, cap) && Authorize(s.registry, cap, CorridorObject, RECV) == Ok(o)
      && o in s.corridors
  }

  lemma {:induction false} Drains(s: Root, court: CourtId, cap: CapId, o: ObjectId)
    requires CanReceive(s, court, cap, o)
    ensures var q := QueueOf(s, o);
      Delivered(s, Receives(court, cap, |q|), o) == q && QueueOf(Run(s, Receives(court, cap, |q|)), o) == []
    decreases |QueueOf(s, o)|
  {
    hide Contains;
    var q := QueueOf(s, o);
    if q != [] {
      var op := OpRecv(court, cap);
      var s1 := Step(s, op).0;
      assert Receives(court, cap, |q|)[1..] == Receives(court, cap, |q| - 1);
      assert Take(s, op, o) == [q[0]] && QueueOf(s1, o) == q[1..];
      Drains(s1, court, cap, o);
    }
  }

  /** Packets queued before another court faults can all still be received, in order. */
  lemma DrainsAfterFault(s: Root, court: CourtId, cap: CapId, o: ObjectId, peer: CourtId)
    requires CanReceive(s, court, cap, o) && peer != court
    ensures var s1 := FaultCourt(s, peer).0;
      Delivered(s1, Receives(court, cap, |QueueOf(s, o)|), o) == QueueOf(s, o)
  {
    hide Contains, Delivered, Receives, Run;
    Drains(FaultCourt(s, peer).0, court, cap, o);
  }
}
