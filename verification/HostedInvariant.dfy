/** What every reachable state of the hosted root satisfies, and what its trace
    says about it. */
module HostedInvariant {
  import opened Capabilities
  import opened HostedState
  import opened HostedTrace

  // ----- how a state may evolve -----

  /** Derivation links, objects, rights, endpoints and capacities are fixed;
      revocation, faults, holdings and the trace only grow. */
  ghost predicate Evolves(s: Root, s': Root) {
    && s.trace <= s'.trace
    && s.nextCourt <= s'.nextCourt && s.nextObject <= s'.nextObject
    && CapsEvolve(s.registry.caps, s'.registry.caps)
    && (forall c | c in s.courts :: c in s'.courts && (s.courts[c].state == Faulted ==> s'.courts[c].state == Faulted))
    && (forall o | o in s.corridors :: o in s'.corridors && s'.corridors[o].first == s.corridors[o].first
          && s'.corridors[o].second == s.corridors[o].second && s'.corridors[o].capacity == s.corridors[o].capacity)
    && (forall o | o in s.rootCaps :: o in s'.rootCaps && s'.rootCaps[o] == s.rootCaps[o])
  }

  ghost predicate CapsEvolve(caps: CapMap, caps': CapMap) {
    forall k | k in caps :: k in caps' && caps'[k].target == caps[k].target && caps'[k].objectType == caps[k].objectType
      && caps'[k].rights == caps[k].rights && caps'[k].parent == caps[k].parent
      && (caps[k].revoked ==> caps'[k].revoked)
  }

  // ----- the invariant -----

  ghost predicate CourtsOk(s: Root) {
    && s.cspaces.Keys == s.courts.Keys
    && forall c | c in s.courts :: 1 <= c <= s.nextCourt
  }

  ghost predicate CorridorsOk(s: Root) {
    && s.rootCaps.Keys == s.corridors.Keys
    && forall o | o in s.corridors ::
         1 <= o <= s.nextObject && |s.corridors[o].queue| <= s.corridors[o].capacity && RootCapOk(s, o)
  }

  ghost predicate RootCapOk(s: Root, o: ObjectId)
    requires s.rootCaps.Keys == s.corridors.Keys && o in s.corridors
  {
    var k := s.rootCaps[o];
    k in s.registry.caps && s.registry.caps[k].target == o && s.registry.caps[k].parent.None?
      && s.registry.caps[k].rights == CORRIDOR_RIGHTS && s.registry.caps[k].delegable
  }

  /** Every capability descends from the root capability of an existing corridor. */
  ghost predicate CapsOk(s: Root) {
    && RegistryOk(s.registry)
    && forall k | k in s.registry.caps ::
         var o := s.registry.caps[k].target;
           o in s.corridors && o in s.rootCaps && Descends(s.registry.caps, k, s.rootCaps[o])
  }

  ghost predicate NamesOk(s: Root) {
    forall p | p in s.namespace :: s.namespace[p].path == p && s.namespace[p].target in s.corridors
  }

  // ----- the history behind every use -----

  ghost predicate NoFaultBefore(trace: seq<TraceEvent>, i: nat, court: CourtId)
    requires i <= |trace|
  {
    forall m | 0 <= m < i :: trace[m] != CourtFaulted(court)
  }

  /** No ancestor of `cap`, nor `cap` itself, was revoked before event `i`. */
  ghost predicate LiveBefore(caps: CapMap, trace: seq<TraceEvent>, i: nat, cap: CapId)
    requires i <= |trace|
  {
    forall m | 0 <= m < i && trace[m].CapRevoked? :: !Descends(caps, cap, trace[m].cap)
  }

  /** An event by which a court made use of a capability. */
  predicate IsUse(e: TraceEvent) { e.Sent? || e.Received? || e.Opened? }

  function UsedRights(e: TraceEvent): Rights
    requires IsUse(e)
  {
    if e.Sent? then SEND else if e.Received? then RECV else e.rights
  }

  /** No endpoint of corridor `c` but `court` faulted before event `i`. */
  ghost predicate PeersUpBefore(c: Corridor, trace: seq<TraceEvent>, i: nat, court: CourtId)
    requires i <= |trace|
  {
    && (c.first != court ==> NoFaultBefore(trace, i, c.first))
    && (c.second != court ==> NoFaultBefore(trace, i, c.second))
  }

  /** Event `j` is the grant that event `i`, a use, rests on: made to the same court, for
      the same object or of the same capability, with the rights used, and not cut off
      before; the court had not faulted, nor, for a send, another endpoint. */
  ghost predicate RestsOn(s: Root, i: nat, j: nat)
    requires i < |s.trace| && IsUse(s.trace[i])
  {
    var e := s.trace[i];
    && j < i && s.trace[j].CapGranted? && s.trace[j].court == e.court
    && (if e.Opened? then s.trace[j].cap == e.cap else s.trace[j].target == e.target)
    && Contains(s.trace[j].rights, UsedRights(e))
    && s.trace[j].cap in s.registry.caps && LiveBefore(s.registry.caps, s.trace, i, s.trace[j].cap)
    && NoFaultBefore(s.trace, i, e.court)
    && (e.Sent? ==> e.target in s.corridors && PeersUpBefore(s.corridors[e.target], s.trace, i, e.court))
  }

  ghost predicate Justified(s: Root, i: nat)
    requires i < |s.trace| && IsUse(s.trace[i])
  {
    exists j :: RestsOn(s, i, j)
  }

  ghost predicate HistoryOk(s: Root) {
    forall i | 0 <= i < |s.trace| && IsUse(s.trace[i]) :: Justified(s, i)
  }

  // ----- trace and queues -----

  function QueueOf(s: Root, o: ObjectId): seq<Payload> {
    if o in s.corridors then s.corridors[o].queue else []
  }

  function Lengths(q: seq<Payload>): seq<nat> {
    seq(|q|, i requires 0 <= i < |q| => |q[i]|)
  }

  /** The packet length an event records as sent to `o`, if any. */
  function SentPart(e: TraceEvent, o: ObjectId): seq<nat> {
    if e.Sent? && e.target == o then [e.len] else []
  }

  function ReceivedPart(e: TraceEvent, o: ObjectId): seq<nat> {
    if e.Received? && e.target == o then [e.len] else []
  }

  /** Lengths of the packets the trace records as sent to `o`. */
  function SentLengths(trace: seq<TraceEvent>, o: ObjectId): seq<nat> {
    if trace == [] then [] else SentLengths(trace[..|trace| - 1], o) + SentPart(trace[|trace| - 1], o)
  }

  function ReceivedLengths(trace: seq<TraceEvent>, o: ObjectId): seq<nat> {
    if trace == [] then [] else ReceivedLengths(trace[..|trace| - 1], o) + ReceivedPart(trace[|trace| - 1], o)
  }

  /** What was sent is what was received followed by what is queued. */
  ghost predicate TraceBalanced(s: Root) {
    forall o :: SentLengths(s.trace, o) == ReceivedLengths(s.trace, o) + Lengths(QueueOf(s, o))
  }

  ghost predicate Inv(s: Root) {
    CourtsOk(s) && CorridorsOk(s) && CapsOk(s) && NamesOk(s) && Told(s) && HistoryOk(s) && TraceBalanced(s)
  }

  lemma StartOk()
    ensures Inv(START)
  {
  }

  // ----- what survives any evolution -----

  lemma RestsOnStable(s: Root, s': Root, i: nat, j: nat)
    requires RegistryOk(s.registry) && Evolves(s, s') && i < |s.trace| && IsUse(s.trace[i])
    requires RestsOn(s, i, j)
    ensures RestsOn(s', i, j)
  {
    hide Contains;
    var cap := s.trace[j].cap;
    forall m | 0 <= m < i && s'.trace[m].CapRevoked?
      ensures !Descends(s'.registry.caps, cap, s'.trace[m].cap)
    {
      assert s.trace[m] == s'.trace[m];
      LinksClosed(s.registry);
      DescendsStable(s.registry.caps, s'.registry.caps, cap, s.trace[m].cap);
    }
  }

  lemma LinksClosed(r: Registry)
    requires RegistryOk(r)
    ensures forall x | x in r.caps && r.caps[x].parent.Some? :: r.caps[x].parent.value in r.caps
  {
    forall x | x in r.caps && r.caps[x].parent.Some?
      ensures r.caps[x].parent.value in r.caps
    {
      assert LinkOk(r, x);
    }
  }

  lemma HistoryStays(s: Root, s': Root)
    requires RegistryOk(s.registry) && HistoryOk(s) && Evolves(s, s') && |s'.trace| <= |s.trace| + 1
    requires |s'.trace| == |s.trace| + 1 && IsUse(s'.trace[|s.trace|]) ==> Justified(s', |s.trace|)
    ensures HistoryOk(s')
  {
    hide RestsOn, RegistryOk;
    forall i | 0 <= i < |s'.trace| && IsUse(s'.trace[i])
      ensures Justified(s', i)
    {
      if i < |s.trace| {
        assert s'.trace[i] == s.trace[i];
        assert Justified(s, i);
        var j :| RestsOn(s, i, j);
        RestsOnStable(s, s', i, j);
      }
    }
  }

  /** Whatever the trace told, it still tells. */
  lemma ToldStays(s: Root, s': Root, e: TraceEvent)
    requires RegistryOk(s.registry) && Told(s) && Evolves(s, s') && s'.trace == s.trace + [e] && Tells(s, s', e)
    ensures Told(s')
  {
    LinksClosed(s.registry);
    hide RegistryOk, CourtsTold, CourtsTell, GrantsTold, GrantsTell, RevokesTold, RevokesTell, NamesTold, NamesTell;
    CourtsToldStay(s, s', e);
    GrantsToldStay(s, s', e);
    forall k, a | k in s.registry.caps
      ensures Descends(s'.registry.caps, k, a) == Descends(s.registry.caps, k, a)
    {
      DescendsStable(s.registry.caps, s'.registry.caps, k, a);
    }
    hide Descends;
    RevokesToldStay(s, s', e);
    NamesToldStay(s, s', e);
  }

  lemma {:induction false} LengthsAfter(trace: seq<TraceEvent>, e: TraceEvent, o: ObjectId)
    ensures SentLengths(trace + [e], o) == SentLengths(trace, o) + SentPart(e, o)
    ensures ReceivedLengths(trace + [e], o) == ReceivedLengths(trace, o) + ReceivedPart(e, o)
  {
    assert (trace + [e])[..|trace|] == trace;
  }

  /** Queue `q` of `o` before event `e` and `q'` after it. */
  ghost predicate Moves(q: seq<Payload>, q': seq<Payload>, e: TraceEvent, o: ObjectId) {
    Lengths(q) + SentPart(e, o) == ReceivedPart(e, o) + Lengths(q')
  }

  /** Queues and trace move together. */
  lemma BalanceStays(s: Root, s': Root, e: TraceEvent)
    requires TraceBalanced(s) && s'.trace == s.trace + [e]
    requires forall o :: Moves(QueueOf(s, o), QueueOf(s', o), e, o)
    ensures TraceBalanced(s')
  {
    hide Lengths, QueueOf, SentPart, ReceivedPart;
    forall o
      ensures SentLengths(s'.trace, o) == ReceivedLengths(s'.trace, o) + Lengths(QueueOf(s', o))
    {
      LengthsAfter(s.trace, e, o);
      assert Moves(QueueOf(s, o), QueueOf(s', o), e, o);
      Regroup(ReceivedLengths(s.trace, o), Lengths(QueueOf(s, o)), SentPart(e, o), ReceivedPart(e, o),
        Lengths(QueueOf(s', o)));
    }
  }

  lemma Regroup(r: seq<nat>, q: seq<nat>, sent: seq<nat>, got: seq<nat>, q': seq<nat>)
    requires q + sent == got + q'
    ensures (r + q) + sent == (r + got) + q'
  {
    assert (r + q) + sent == r + (q + sent);
    assert (r + got) + q' == r + (got + q');
  }

  // ----- putting a step together -----

  /** Courts, corridors and names; what holds of them does not depend on the past. */
  ghost predicate ShapeOk(s: Root) {
    CourtsOk(s) && CorridorsOk(s) && NamesOk(s)
  }

  /** Event `e` is backed by state `s'` and by the queues before it. */
  ghost predicate EventOk(s: Root, s': Root, e: TraceEvent) {
    && s'.trace == s.trace + [e] && Tells(s, s', e)
    && (forall o :: Moves(QueueOf(s, o), QueueOf(s', o), e, o))
    && (IsUse(e) ==> Justified(s', |s.trace|))
  }

  lemma Assemble(s: Root, s': Root, e: TraceEvent)
    requires Inv(s) && Evolves(s, s') && ShapeOk(s') && CapsOk(s') && EventOk(s, s', e)
    ensures Inv(s')
  {
    hide Evolves, RegistryOk, HistoryOk, Told, Tells, TraceBalanced, Justified, QueueOf, Moves;
    HistoryStays(s, s');
    ToldStays(s, s', e);
    BalanceStays(s, s', e);
  }
}
