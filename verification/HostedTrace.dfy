/** What a trace alone says: which courts run, who was granted what, what has been
    revoked, which corridors exist and what names are bound. */
module HostedTrace {
  import opened Capabilities
  import opened MachineWords
  import opened HostedState

  ghost predicate Created(trace: seq<TraceEvent>, c: CourtId) {
    exists name :: CourtCreated(c, name) in trace
  }

  /** Court `c` was created and has not faulted. */
  ghost predicate Alive(trace: seq<TraceEvent>, c: CourtId) {
    Created(trace, c) && CourtFaulted(c) !in trace
  }

  ghost predicate Given(trace: seq<TraceEvent>, c: CourtId, k: CapId) {
    exists o, rights :: CapGranted(c, k, o, rights) in trace
  }

  /** `k` or something it derives from has been revoked. */
  ghost predicate Cut(caps: CapMap, trace: seq<TraceEvent>, k: CapId) {
    exists a :: CapRevoked(a) in trace && Descends(caps, k, a)
  }

  ghost predicate Made(trace: seq<TraceEvent>, o: ObjectId) {
    exists p, t :: CorridorCreated(p, o, t) in trace
  }

  /** What `path` was bound to last. */
  function NameIn(trace: seq<TraceEvent>, path: string): Option<Descriptor> {
    if trace == [] then None
    else
      var e := trace[|trace| - 1];
      if e.CorridorCreated? && e.path == path then Some(Descriptor(path, e.target, CorridorObject, e.transport))
      else NameIn(trace[..|trace| - 1], path)
  }

  function NameOf(s: Root, path: string): Option<Descriptor> {
    if path in s.namespace then Some(s.namespace[path]) else None
  }

  // ----- state and trace agree -----

  ghost predicate CourtsTold(s: Root) {
    && (forall c :: c in s.courts <==> Created(s.trace, c))
    && (forall c :: CourtFaulted(c) in s.trace <==> c in s.courts && s.courts[c].state == Faulted)
  }

  ghost predicate GrantsTold(s: Root) {
    && (forall c, k, o, rights | CapGranted(c, k, o, rights) in s.trace ::
         Holds(s, c, k) && k in s.registry.caps && s.registry.caps[k].target == o
           && s.registry.caps[k].rights == rights)
    && (forall c, k | Holds(s, c, k) :: Given(s.trace, c, k))
  }

  ghost predicate RevokesTold(s: Root) {
    && (forall a | CapRevoked(a) in s.trace :: a in s.registry.caps && s.registry.caps[a].revoked)
    && (forall k | k in s.registry.caps && s.registry.caps[k].revoked :: Cut(s.registry.caps, s.trace, k))
  }

  ghost predicate NamesTold(s: Root) {
    && (forall p :: NameOf(s, p) == NameIn(s.trace, p))
    && (forall o :: o in s.corridors <==> Made(s.trace, o))
  }

  /** The trace tells everything about the state but the contents of queues. */
  ghost predicate Told(s: Root) {
    CourtsTold(s) && GrantsTold(s) && RevokesTold(s) && NamesTold(s)
  }

  // ----- one event -----

  /** Courts changed as event `e` says. */
  ghost predicate CourtsTell(s: Root, s': Root, e: TraceEvent) {
    && (forall c :: c in s'.courts <==> c in s.courts || (e.CourtCreated? && e.court == c))
    && (forall c | c in s'.courts ::
         s'.courts[c].state == Faulted <==> (c in s.courts && s.courts[c].state == Faulted) || e == CourtFaulted(c))
    && (e.CourtCreated? ==> e.court !in s.courts) && (e.CourtFaulted? ==> e.court in s.courts)
  }

  ghost predicate GrantsTell(s: Root, s': Root, e: TraceEvent) {
    && (forall c, k :: Holds(s', c, k) <==> Holds(s, c, k) || (e.CapGranted? && e.court == c && e.cap == k))
    && (e.CapGranted? ==>
         && e.cap in s'.registry.caps && s'.registry.caps[e.cap].target == e.target
         && s'.registry.caps[e.cap].rights == e.rights)
  }

  ghost predicate RevokesTell(s: Root, s': Root, e: TraceEvent) {
    && (e.CapRevoked? ==> e.cap in s'.registry.caps && s'.registry.caps[e.cap].revoked)
    && (forall k | k in s'.registry.caps && s'.registry.caps[k].revoked ::
         || (k in s.registry.caps && s.registry.caps[k].revoked)
         || (e.CapRevoked? && Descends(s'.registry.caps, k, e.cap)))
  }

  ghost predicate NamesTell(s: Root, s': Root, e: TraceEvent) {
    && (forall p ::
         NameOf(s', p) ==
           if e.CorridorCreated? && e.path == p then Some(Descriptor(p, e.target, CorridorObject, e.transport))
           else NameOf(s, p))
    && (forall o :: o in s'.corridors <==> o in s.corridors || (e.CorridorCreated? && e.target == o))
  }

  /** The step from `s` to `s'` is what event `e` says it is. */
  ghost predicate Tells(s: Root, s': Root, e: TraceEvent) {
    CourtsTell(s, s', e) && GrantsTell(s, s', e) && RevokesTell(s, s', e) && NamesTell(s, s', e)
  }

  lemma CourtsToldStay(s: Root, s': Root, e: TraceEvent)
    requires CourtsTold(s) && s'.trace == s.trace + [e] && CourtsTell(s, s', e)
    ensures CourtsTold(s')
  {
    forall c
      ensures c in s'.courts <==> Created(s'.trace, c)
    {
      if c in s.courts {
        var name :| CourtCreated(c, name) in s.trace;
        assert CourtCreated(c, name) in s'.trace;
      } else if e.CourtCreated? && e.court == c {
        assert CourtCreated(c, e.name) in s'.trace;
      }
    }
    forall c
      ensures CourtFaulted(c) in s'.trace <==> c in s'.courts && s'.courts[c].state == Faulted
    {
      assert CourtFaulted(c) in s'.trace <==> CourtFaulted(c) in s.trace || e == CourtFaulted(c);
    }
  }

  lemma GrantsToldStay(s: Root, s': Root, e: TraceEvent)
    requires GrantsTold(s) && s'.trace == s.trace + [e] && GrantsTell(s, s', e)
    requires forall k | k in s.registry.caps ::
      && k in s'.registry.caps && s'.registry.caps[k].target == s.registry.caps[k].target
      && s'.registry.caps[k].rights == s.registry.caps[k].rights
    ensures GrantsTold(s')
  {
    hide Holds;
    forall c, k, o, rights | CapGranted(c, k, o, rights) in s'.trace
      ensures Holds(s', c, k) && k in s'.registry.caps && s'.registry.caps[k].target == o
      ensures s'.registry.caps[k].rights == rights
    {
      assert CapGranted(c, k, o, rights) in s.trace || e == CapGranted(c, k, o, rights);
    }
    forall c, k | Holds(s', c, k)
      ensures Given(s'.trace, c, k)
    {
      if Holds(s, c, k) {
        var o, rights :| CapGranted(c, k, o, rights) in s.trace;
        assert CapGranted(c, k, o, rights) in s'.trace;
      } else {
        assert CapGranted(c, k, e.target, e.rights) in s'.trace;
      }
    }
  }

  lemma RevokesToldStay(s: Root, s': Root, e: TraceEvent)
    requires RevokesTold(s) && s'.trace == s.trace + [e] && RevokesTell(s, s', e)
    requires forall k | k in s.registry.caps ::
      k in s'.registry.caps && (s.registry.caps[k].revoked ==> s'.registry.caps[k].revoked)
    requires forall k, a | k in s.registry.caps :: Descends(s'.registry.caps, k, a) == Descends(s.registry.caps, k, a)
    ensures RevokesTold(s')
  {
    hide Descends;
    forall k | k in s'.registry.caps && s'.registry.caps[k].revoked
      ensures Cut(s'.registry.caps, s'.trace, k)
    {
      if k in s.registry.caps && s.registry.caps[k].revoked {
        var a :| CapRevoked(a) in s.trace && Descends(s.registry.caps, k, a);
        assert CapRevoked(a) in s'.trace && Descends(s'.registry.caps, k, a);
      } else {
        assert CapRevoked(e.cap) in s'.trace;
      }
    }
  }

  lemma NamesToldStay(s: Root, s': Root, e: TraceEvent)
    requires NamesTold(s) && s'.trace == s.trace + [e] && NamesTell(s, s', e)
    ensures NamesTold(s')
  {
    hide NameOf;
    assert s'.trace[..|s'.trace| - 1] == s.trace;
    forall o
      ensures o in s'.corridors <==> Made(s'.trace, o)
    {
      if o in s.corridors {
        var p, t :| CorridorCreated(p, o, t) in s.trace;
        assert CorridorCreated(p, o, t) in s'.trace;
      } else if e.CorridorCreated? && e.target == o {
        assert CorridorCreated(e.path, o, e.transport) in s'.trace;
      }
    }
  }
}
