/** Whole runs: grants, then revokes, under an accepted manifest and policy. */
module DemoTheorems {
  import opened Capabilities
  import opened MachineWords
  import opened HostedState
  import opened Manifests
  import opened DemoState
  import opened DemoProofs
  import WireProtocol

  // ----- which grants a policy can ask for -----

  lemma CorridorBits(rights: Rights)
    requires rights & 0x7f == rights
    ensures Contains(CORRIDOR_RIGHTS, rights) <==> !Contains(rights, READ) && !Contains(rights, WRITE)
  {
  }

  lemma ReadWriteNames()
    ensures RightOf("read") == Some(READ) && RightOf("write") == Some(WRITE)
  {
  }

  /** Corridor rights cover a list of names exactly when it has neither read nor write. */
  lemma GrantableExactly(names: seq<string>)
    ensures Contains(CORRIDOR_RIGHTS, RightsOf(names)) <==> "read" !in names && "write" !in names
  {
    hide Contains, RightOf, RightsOf;
    ReadWriteNames();
    NamedRights(names, "read");
    NamedRights(names, "write");
    NothingElse(names);
    CorridorBits(RightsOf(names));
  }

  // ----- all grants -----

  function KeyOf(g: Resolved): Key { (g.court, g.path) }

  /** No later grant has the same court and path. */
  ghost predicate IsLast(grants: seq<Resolved>, i: nat) {
    i < |grants| && forall j | i < j < |grants| :: KeyOf(grants[j]) != KeyOf(grants[i])
  }

  ghost predicate Live(s: Demo, g: Resolved, cap: CapId) {
    Issued(s, g, cap) && !s.root.registry.caps[cap].revoked
  }

  /** The table holds the capability of the last grant of each key, and no other. */
  ghost predicate TableOk(table: map<Key, (CapId, Rights)>, grants: seq<Resolved>, caps: seq<CapId>)
    requires |caps| == |grants|
  {
    && (forall i: nat | IsLast(grants, i) ::
         KeyOf(grants[i]) in table && table[KeyOf(grants[i])] == (caps[i], grants[i].rights))
    && (forall key | key in table :: exists i: nat :: IsLast(grants, i) && KeyOf(grants[i]) == key)
  }

  /** Every grant of the list has a capability of its own, live and as asked for. */
  ghost predicate CapsOk(s: Demo, first: nat, grants: seq<Resolved>, caps: seq<CapId>) {
    && |caps| == |grants| && s.root.registry.next == first + |caps|
    && (forall i | 0 <= i < |caps| :: caps[i] == first + 1 + i)
    && (forall i | 0 <= i < |caps| :: Live(s, grants[i], caps[i]))
  }

  /** The capabilities of the list, and no others, are known by number, and each is held
      by the court it was granted to, and by no other. */
  ghost predicate HoldingsOk(s: Demo, grants: seq<Resolved>, caps: seq<CapId>)
    requires |caps| == |grants|
  {
    && (forall k :: k in s.capsById <==> k in caps) && (forall k | k in s.capsById :: s.capsById[k] == k)
    && forall c, i | 0 <= i < |caps| ::
         Holds(s.root, c, caps[i]) <==> grants[i].court in s.courtIds && c == s.courtIds[grants[i].court]
  }

  ghost predicate GrantsDone(s0: Demo, s: Demo, grants: seq<Resolved>, caps: seq<CapId>) {
    && Steady(s) && s.courtIds == s0.courtIds && s.descriptors == s0.descriptors
    && CapsOk(s, s0.root.registry.next, grants, caps) && TableOk(s.capsByKey, grants, caps)
    && HoldingsOk(s, grants, caps)
  }

  lemma LastGrows(grants: seq<Resolved>, g: Resolved, i: nat)
    requires i < |grants|
    ensures IsLast(grants + [g], i) <==> IsLast(grants, i) && KeyOf(grants[i]) != KeyOf(g)
  {
    var all := grants + [g];
    assert all[|grants|] == g && all[i] == grants[i];
    assert forall j | i < j < |grants| :: all[j] == grants[j];
    if IsLast(all, i) {
      assert forall j | i < j < |grants| :: KeyOf(grants[j]) == KeyOf(all[j]);
    }
  }

  lemma TableGrows(table: map<Key, (CapId, Rights)>, grants: seq<Resolved>, caps: seq<CapId>, g: Resolved, cap: CapId)
    requires |caps| == |grants| && TableOk(table, grants, caps)
    ensures TableOk(table[KeyOf(g) := (cap, g.rights)], grants + [g], caps + [cap])
  {
    hide IsLast, KeyOf;
    var (all, ids, table') := (grants + [g], caps + [cap], table[KeyOf(g) := (cap, g.rights)]);
    forall i: nat | IsLast(all, i)
      ensures i < |all| && KeyOf(all[i]) in table' && table'[KeyOf(all[i])] == (ids[i], all[i].rights)
    {
      EntryGrows(table, grants, caps, g, cap, i);
    }
    forall key | key in table'
      ensures exists i: nat :: IsLast(all, i) && KeyOf(all[i]) == key
    {
      KeyGrows(table, grants, caps, g, key);
    }
  }

  lemma EntryGrows(table: map<Key, (CapId, Rights)>, grants: seq<Resolved>, caps: seq<CapId>, g: Resolved, cap: CapId,
                   i: nat)
    requires |caps| == |grants| && TableOk(table, grants, caps) && IsLast(grants + [g], i)
    ensures var (all, table') := (grants + [g], table[KeyOf(g) := (cap, g.rights)]);
      i < |all| && KeyOf(all[i]) in table' && table'[KeyOf(all[i])] == ((caps + [cap])[i], all[i].rights)
  {
    hide IsLast, KeyOf;
    LastInRange(grants + [g], i);
    if i < |grants| {
      LastGrows(grants, g, i);
    }
  }

  lemma KeyGrows(table: map<Key, (CapId, Rights)>, grants: seq<Resolved>, caps: seq<CapId>, g: Resolved, key: Key)
    requires |caps| == |grants| && TableOk(table, grants, caps) && (key in table || key == KeyOf(g))
    ensures exists i: nat :: IsLast(grants + [g], i) && KeyOf((grants + [g])[i]) == key
  {
    var all := grants + [g];
    assert IsLast(all, |grants|) && all[|grants|] == g;
    hide IsLast, KeyOf;
    if key != KeyOf(g) {
      var i: nat :| IsLast(grants, i) && KeyOf(grants[i]) == key;
      LastInRange(grants, i);
      LastGrows(grants, g, i);
      assert all[i] == grants[i];
    }
  }

  lemma LastInRange(grants: seq<Resolved>, i: nat)
    requires IsLast(grants, i)
    ensures i < |grants|
  {
  }

  lemma CapsGrow(s: Demo, s': Demo, first: nat, grants: seq<Resolved>, caps: seq<CapId>, g: Resolved, cap: CapId)
    requires Steady(s) && CapsOk(s, first, grants, caps) && AfterGrant(s, s', g, cap)
    ensures CapsOk(s', first, grants + [g], caps + [cap])
  {
    hide Steady, Contains;
    GrantKeepsSteady(s, s', g, cap);
    var (all, ids) := (grants + [g], caps + [cap]);
    forall i | 0 <= i < |ids|
      ensures Live(s', all[i], ids[i])
    {
      if i < |caps| {
        assert Live(s, grants[i], caps[i]);
      }
    }
  }

  lemma HoldingsGrow(s: Demo, s': Demo, first: nat, grants: seq<Resolved>, caps: seq<CapId>, g: Resolved, cap: CapId)
    requires Steady(s) && CapsOk(s, first, grants, caps) && AfterGrant(s, s', g, cap) && HoldingsOk(s, grants, caps)
    ensures HoldingsOk(s', grants + [g], caps + [cap])
  {
    hide Contains, Holds, Flat, RootCapOk, Live;
    var (all, ids) := (grants + [g], caps + [cap]);
    forall c, i | 0 <= i < |ids|
      ensures Holds(s'.root, c, ids[i]) <==> all[i].court in s'.courtIds && c == s'.courtIds[all[i].court]
    {
      if i < |caps| {
        assert ids[i] == caps[i] && all[i] == grants[i];
        assert Holds(s.root, c, caps[i]) <==> grants[i].court in s.courtIds && c == s.courtIds[grants[i].court];
      } else {
        assert !Holds(s.root, c, cap);
      }
    }
  }

  lemma GrantsStep(s0: Demo, s: Demo, s': Demo, grants: seq<Resolved>, caps: seq<CapId>, g: Resolved, cap: CapId)
    requires GrantsDone(s0, s, grants, caps) && AfterGrant(s, s', g, cap)
    ensures GrantsDone(s0, s', grants + [g], caps + [cap])
  {
    hide Steady, TableOk, CapsOk, HoldingsOk;
    assert |caps| == |grants| by { CapsLength(s, s0.root.registry.next, grants, caps); }
    GrantKeepsSteady(s, s', g, cap);
    CapsGrow(s, s', s0.root.registry.next, grants, caps, g, cap);
    CapsLength(s', s0.root.registry.next, grants + [g], caps + [cap]);
    HoldingsGrow(s, s', s0.root.registry.next, grants, caps, g, cap);
    TableGrows(s.capsByKey, grants, caps, g, cap);
  }

  lemma CapsLength(s: Demo, first: nat, grants: seq<Resolved>, caps: seq<CapId>)
    requires CapsOk(s, first, grants, caps)
    ensures |caps| == |grants|
  {
  }

  lemma GrantsTrace(s0: Demo, s: Demo, grants: seq<Resolved>, caps: seq<CapId>, trace: seq<TraceEvent>)
    requires GrantsDone(s0, s, grants, caps)
    ensures GrantsDone(s0, s.(root := s.root.(trace := trace)), grants, caps)
  {
    hide Steady, TableOk;
    var s' := s.(root := s.root.(trace := trace));
    SteadyTrace(s, trace);
    assert forall c, k :: Holds(s'.root, c, k) == Holds(s.root, c, k);
    forall i | 0 <= i < |caps|
      ensures Live(s', grants[i], caps[i])
    {
      assert Live(s, grants[i], caps[i]);
    }
  }

  ghost predicate Known(s: Demo, grants: seq<Resolved>) {
    forall i | 0 <= i < |grants| :: grants[i].court in s.courtIds && grants[i].path in s.descriptors
  }

  ghost predicate AllGrantable(grants: seq<Resolved>) {
    forall i | 0 <= i < |grants| :: Contains(CORRIDOR_RIGHTS, grants[i].rights)
  }

  /** A request that the grants up to the `i`-th let through: it opens the corridor of that
      grant with a capability granted so far to the same court for the same corridor, and
      asks for no more rights than that one has. Capabilities are numbered in order. */
  ghost predicate Answers(s0: Demo, grants: seq<Resolved>, i: nat, request: Request)
    requires i < |grants| && Known(s0, grants)
  {
    && request.OpenRequest? && request.path == grants[i].path
    && exists k: nat :: k <= i && request.cap == Some(s0.root.registry.next + 1 + k) && Backs(s0, grants, i, k, request)
  }

  ghost predicate Backs(s0: Demo, grants: seq<Resolved>, i: nat, k: nat, request: Request)
    requires i < |grants| && k <= i && Known(s0, grants) && request.OpenRequest?
  {
    && s0.courtIds[grants[k].court] == s0.courtIds[grants[i].court]
    && s0.descriptors[grants[k].path].target == s0.descriptors[grants[i].path].target
    && Contains(grants[k].rights, WireProtocol.Known(request.rights))
  }

  /** What becomes of an open with the capability of grant `k`. */
  lemma OpenWith(s0: Demo, s: Demo, grants: seq<Resolved>, caps: seq<CapId>, i: nat, k: nat, request: Request)
    requires Known(s0, grants) && GrantsDone(s0, s, grants, caps) && i < |grants| && k <= i
    requires request.OpenRequest? && request.path == grants[i].path && request.cap == Some(caps[k])
    ensures OpenStep(s, grants[i], request).1.None? <==> Backs(s0, grants, i, k, request)
  {
    hide Contains, WireProtocol.Known, TableOk, Holds, Flat, RootCapOk;
    assert Live(s, grants[k], caps[k]);
    assert caps[k] in caps;
    assert s.descriptors[grants[i].path].objectType == CorridorObject;
    var c := s.courtIds[grants[i].court];
    assert Holds(s.root, c, caps[k]) <==> c == s.courtIds[grants[k].court];
  }

  /** The open that answers the last grant succeeds for exactly these requests; any other
      message, and a number that no grant so far gave, is refused as such. */
  lemma AnswerExactly(s0: Demo, s: Demo, grants: seq<Resolved>, caps: seq<CapId>, request: Request)
    requires Known(s0, grants) && GrantsDone(s0, s, grants, caps) && grants != []
    ensures var e := OpenStep(s, grants[|grants| - 1], request).1; var first := s0.root.registry.next;
      var opens := request.OpenRequest? && request.path == grants[|grants| - 1].path && request.cap.Some?;
      && (e.None? <==> Answers(s0, grants, |grants| - 1, request))
      && (e == Some(UnexpectedMessage) <==> !opens)
      && (e == Some(OpenWithUnknownCap) <==> opens && !(first < request.cap.value <= first + |grants|))
  {
    hide GrantsDone, OpenStep, Backs;
    var i := |grants| - 1;
    CapsNumbered(s0, s, grants, caps);
    OpenRefused(s, grants[i], request);
    if request.OpenRequest? && request.path == grants[i].path && request.cap.Some? && request.cap.value in s.capsById {
      var k := request.cap.value - s0.root.registry.next - 1;
      OpenWith(s0, s, grants, caps, i, k, request);
    }
  }

  lemma OpenRefused(s: Demo, g: Resolved, request: Request)
    requires g.court in s.courtIds && g.path in s.descriptors
    ensures var e := OpenStep(s, g, request).1;
      var opens := request.OpenRequest? && request.path == g.path && request.cap.Some?;
      && (e == Some(UnexpectedMessage) <==> !opens)
      && (e == Some(OpenWithUnknownCap) <==> opens && request.cap.value !in s.capsById)
  {
    hide Open, WireProtocol.Known;
  }

  lemma CapsNumbered(s0: Demo, s: Demo, grants: seq<Resolved>, caps: seq<CapId>)
    requires Known(s0, grants) && GrantsDone(s0, s, grants, caps)
    ensures |caps| == |grants|
    ensures forall i | 0 <= i < |grants| :: grants[i].court in s.courtIds && grants[i].path in s.descriptors
    ensures forall k: nat :: k in s.capsById <==> s0.root.registry.next < k <= s0.root.registry.next + |caps|
    ensures forall i | 0 <= i < |caps| :: caps[i] == s0.root.registry.next + 1 + i
  {
    hide Steady, TableOk, Live;
    var first := s0.root.registry.next;
    forall k: nat
      ensures k in s.capsById <==> first < k <= first + |caps|
    {
      if first < k <= first + |caps| {
        assert caps[k - first - 1] == k;
      }
    }
  }

  /** One grant and the open that answers it go through exactly when the grant asks for
      corridor rights only and the request is one that the grants so far let through. */
  lemma GrantOpenStep(s0: Demo, s: Demo, grants: seq<Resolved>, caps: seq<CapId>, g: Resolved, request: Request)
    requires GrantsDone(s0, s, grants, caps) && Known(s0, grants + [g])
    ensures var (s', r) := GrantAndOpen(s, g, request);
      && (r.Granted? <==>
           Contains(CORRIDOR_RIGHTS, g.rights) && Answers(s0, grants + [g], |grants|, request))
      && (r.Granted? ==> GrantsDone(s0, s', grants + [g], caps + [r.cap]))
      && (!Contains(CORRIDOR_RIGHTS, g.rights) ==> r == Refused(Core(NoRight)) && s' == s)
  {
    hide Steady, TableOk, CapsOk, HoldingsOk, Contains, AfterGrant, GrantCap, OpenStep, Answers;
    assert (grants + [g])[|grants|] == g;
    GrantDecided(s, g);
    var (s1, granted) := GrantCap(s, g);
    if granted.Granted? {
      GrantsStep(s0, s, s1, grants, caps, g, granted.cap);
      AnswerExactly(s0, s1, grants + [g], caps + [granted.cap], request);
      OpenTraces(s1, g, request);
      var s2 := OpenStep(s1, g, request).0;
      var trace :| s2 == s1.(root := s1.root.(trace := trace));
      GrantsTrace(s0, s1, grants + [g], caps + [granted.cap], trace);
    }
  }

  /** Grants and requests that all go through. */
  ghost predicate AllAnswer(s0: Demo, grants: seq<Resolved>, requests: seq<Request>)
    requires Known(s0, grants) && |requests| == |grants|
  {
    forall i: nat | i < |grants| :: Answers(s0, grants, i, requests[i])
  }

  /** The grants after the `i`-th take no part in it. */
  lemma AnswersEarlier(s0: Demo, grants: seq<Resolved>, n: nat, i: nat, request: Request)
    requires i < n <= |grants| && Known(s0, grants)
    ensures Known(s0, grants[..n]) && (Answers(s0, grants[..n], i, request) <==> Answers(s0, grants, i, request))
  {
    hide Contains, WireProtocol.Known;
    assert forall k | 0 <= k <= i :: grants[..n][k] == grants[k];
    if Answers(s0, grants, i, request) {
      var k: nat :| k <= i && request.cap == Some(s0.root.registry.next + 1 + k) && Backs(s0, grants, i, k, request);
      assert Backs(s0, grants[..n], i, k, request);
    }
    if Answers(s0, grants[..n], i, request) {
      var k: nat :| k <= i && request.cap == Some(s0.root.registry.next + 1 + k)
        && Backs(s0, grants[..n], i, k, request);
      assert Backs(s0, grants, i, k, request);
    }
  }

  lemma AllAnswerSplit(s0: Demo, grants: seq<Resolved>, requests: seq<Request>, n: nat)
    requires Known(s0, grants) && |requests| == |grants| == n + 1
    ensures Known(s0, grants[..n])
    ensures AllAnswer(s0, grants, requests) <==>
      AllAnswer(s0, grants[..n], requests[..n]) && Answers(s0, grants, n, requests[n])
    ensures AllGrantable(grants) <==> AllGrantable(grants[..n]) && Contains(CORRIDOR_RIGHTS, grants[n].rights)
  {
    hide Answers, Contains;
    forall i: nat | i < n
      ensures Answers(s0, grants[..n], i, requests[..n][i]) <==> Answers(s0, grants, i, requests[i])
    {
      AnswersEarlier(s0, grants, n, i, requests[i]);
    }
    assert AllAnswer(s0, grants, requests) ==> forall i: nat | i < n :: Answers(s0, grants, i, requests[i]);
  }

  /** All grants go through exactly when each asks for corridor rights only and each
      request is one that the grants up to it let through. */
  lemma {:induction false} GrantsRun(s0: Demo, grants: seq<Resolved>, requests: seq<Request>)
    requires Steady(s0) && s0.capsByKey == map[] && s0.capsById == map[]
    requires Known(s0, grants) && |requests| == |grants|
    ensures var ran := RunGrants(s0, grants, requests);
      && (ran.Ran? <==> AllGrantable(grants) && AllAnswer(s0, grants, requests))
      && (ran.Ran? ==> GrantsDone(s0, ran.demo, grants, ran.caps))
    decreases |grants|
  {
    hide Steady, GrantsDone, Contains, GrantAndOpen, Answers;
    if grants == [] {
      NoGrantsYet(s0);
    } else {
      var n := |grants| - 1;
      AllAnswerSplit(s0, grants, requests, n);
      GrantsRun(s0, grants[..n], requests[..n]);
      var before := RunGrants(s0, grants[..n], requests[..n]);
      if before.Ran? {
        assert grants == grants[..n] + [grants[n]];
        GrantOpenStep(s0, before.demo, grants[..n], before.caps, grants[n], requests[n]);
      }
    }
  }

  lemma NoGrantsYet(s0: Demo)
    requires Steady(s0) && s0.capsByKey == map[] && s0.capsById == map[]
    ensures GrantsDone(s0, s0, [], [])
  {
  }

  /** Each court answers its grant by opening the corridor with the capability it was
      sent, asking for no more than its rights. */
  ghost predicate Honest(first: nat, grants: seq<Resolved>, requests: seq<Request>) {
    && |requests| == |grants|
    && forall i | 0 <= i < |grants| ::
         && requests[i].OpenRequest? && requests[i].path == grants[i].path && requests[i].cap == Some(first + 1 + i)
         && Contains(grants[i].rights, WireProtocol.Known(requests[i].rights))
  }

  /** When every request is let through, the run stops, if it does, on a missing right. */
  lemma {:induction false} StopsOnRights(s0: Demo, grants: seq<Resolved>, requests: seq<Request>)
    requires Steady(s0) && s0.capsByKey == map[] && s0.capsById == map[]
    requires Known(s0, grants) && |requests| == |grants| && AllAnswer(s0, grants, requests)
    ensures var ran := RunGrants(s0, grants, requests);
      if AllGrantable(grants) then ran.Ran? else ran.Stopped? && ran.error == Core(NoRight)
    decreases |grants|
  {
    hide Steady, GrantsDone, Contains, GrantAndOpen, Answers;
    GrantsRun(s0, grants, requests);
    if grants != [] {
      var n := |grants| - 1;
      AllAnswerSplit(s0, grants, requests, n);
      StopsOnRights(s0, grants[..n], requests[..n]);
      var before := RunGrants(s0, grants[..n], requests[..n]);
      if before.Ran? {
        GrantsRun(s0, grants[..n], requests[..n]);
        assert grants == grants[..n] + [grants[n]];
        GrantOpenStep(s0, before.demo, grants[..n], before.caps, grants[n], requests[n]);
      }
    }
  }

  lemma HonestAnswers(s0: Demo, grants: seq<Resolved>, requests: seq<Request>)
    requires Known(s0, grants) && Honest(s0.root.registry.next, grants, requests)
    ensures AllAnswer(s0, grants, requests)
  {
    hide Contains, WireProtocol.Known;
    forall i: nat | i < |grants|
      ensures Answers(s0, grants, i, requests[i])
    {
      assert Backs(s0, grants, i, i, requests[i]);
    }
  }

  // ----- revokes -----

  /** Some entry of the list names the key under which `cap` is kept. */
  ghost predicate Taken(table: map<Key, (CapId, Rights)>, revokes: seq<RevokeEntry>, cap: CapId) {
    exists i ::
      0 <= i < |revokes| && (revokes[i].court, revokes[i].path) in table
      && table[(revokes[i].court, revokes[i].path)].0 == cap
  }

  lemma TakenGrows(table: map<Key, (CapId, Rights)>, revokes: seq<RevokeEntry>, r: RevokeEntry, cap: CapId)
    requires (r.court, r.path) in table
    ensures Taken(table, revokes + [r], cap) <==> Taken(table, revokes, cap) || table[(r.court, r.path)].0 == cap
  {
    var all := revokes + [r];
    assert all[|revokes|] == r;
    assert forall i | 0 <= i < |revokes| :: all[i] == revokes[i];
    if Taken(table, revokes, cap) {
      var i :| 0 <= i < |revokes| && (revokes[i].court, revokes[i].path) in table
        && table[(revokes[i].court, revokes[i].path)].0 == cap;
      assert all[i] == revokes[i];
    }
  }

  /** The capabilities of `caps` with those taken by the list revoked, and no others. */
  ghost predicate RevokesDone(s: Demo, s': Demo, revokes: seq<RevokeEntry>) {
    && s'.capsByKey == s.capsByKey && s'.descriptors == s.descriptors && s'.courtIds == s.courtIds
    && s'.root.registry.caps.Keys == s.root.registry.caps.Keys
    && forall k | k in s.root.registry.caps ::
         var c := s.root.registry.caps[k];
         s'.root.registry.caps[k] == c.(revoked := c.revoked || Taken(s.capsByKey, revokes, k))
  }

  /** Nothing is derived from a granted capability. */
  lemma FlatDescends(r: Registry, k: CapId, c: CapId)
    requires Flat(r) && k in r.caps && c in r.caps && r.caps[c].parent.Some?
    ensures Descends(r.caps, k, c) <==> k == c
  {
  }

  ghost predicate TableIssued(s: Demo) {
    forall key | key in s.capsByKey ::
      s.capsByKey[key].0 in s.root.registry.caps && s.root.registry.caps[s.capsByKey[key].0].parent.Some?
  }

  lemma FlatKept(s: Demo, s': Demo, revokes: seq<RevokeEntry>)
    requires Flat(s.root.registry) && RevokesDone(s, s', revokes) && s'.root.registry.next == s.root.registry.next
    ensures Flat(s'.root.registry)
  {
    hide Taken;
  }

  lemma RevokeStep(s: Demo, s': Demo, revokes: seq<RevokeEntry>, r: RevokeEntry)
    requires Flat(s.root.registry) && TableIssued(s) && RevokesDone(s, s', revokes)
    requires s'.root.registry.next == s.root.registry.next
    requires (r.court, r.path) in s.capsByKey
    ensures var done := RevokeOne(s', r);
      done.Went? && RevokesDone(s, done.demo, revokes + [r]) && done.demo.root.registry.next == s.root.registry.next
  {
    hide Taken, Descends;
    var cap := s.capsByKey[(r.court, r.path)].0;
    FlatKept(s, s', revokes);
    var done := RevokeOne(s', r);
    forall k | k in s.root.registry.caps
      ensures var c := s.root.registry.caps[k];
        done.demo.root.registry.caps[k] == c.(revoked := c.revoked || Taken(s.capsByKey, revokes + [r], k))
    {
      FlatDescends(s'.root.registry, k, cap);
      TakenGrows(s.capsByKey, revokes, r, k);
    }
  }

  lemma {:induction false} RevokesRun(s: Demo, revokes: seq<RevokeEntry>)
    requires Flat(s.root.registry) && TableIssued(s)
    requires forall i | 0 <= i < |revokes| :: (revokes[i].court, revokes[i].path) in s.capsByKey
    ensures var done := RunRevokes(s, revokes);
      done.Went? && RevokesDone(s, done.demo, revokes) && done.demo.root.registry.next == s.root.registry.next
    decreases |revokes|
  {
    hide Flat, TableIssued, RevokeOne;
    if revokes == [] {
      assert forall k :: !Taken(s.capsByKey, [], k);
    } else {
      var n := |revokes| - 1;
      RevokesRun(s, revokes[..n]);
      RevokeStep(s, RunRevokes(s, revokes[..n]).demo, revokes[..n], revokes[n]);
      assert revokes == revokes[..n] + [revokes[n]];
    }
  }

  // ----- an accepted policy, from build to last revoke -----

  function ResolveAll(grants: seq<GrantEntry>): (r: seq<Resolved>)
    ensures |r| == |grants|
  {
    seq(|grants|, i requires 0 <= i < |grants| => Resolve(grants[i]))
  }

  /** The policy takes back grant `i`: it is the last for its court and path, and some
      revoke entry names them. */
  ghost predicate Withdrawn(grants: seq<Resolved>, revokes: seq<RevokeEntry>, i: nat) {
    IsLast(grants, i) && exists j :: 0 <= j < |revokes| && (revokes[j].court, revokes[j].path) == KeyOf(grants[i])
  }

  lemma TakenExactly(table: map<Key, (CapId, Rights)>, grants: seq<Resolved>, caps: seq<CapId>,
                     revokes: seq<RevokeEntry>, i: nat)
    requires |caps| == |grants| && TableOk(table, grants, caps) && i < |caps|
    requires forall a, b | 0 <= a < b < |caps| :: caps[a] != caps[b]
    ensures Taken(table, revokes, caps[i]) <==> Withdrawn(grants, revokes, i)
  {
    hide IsLast, KeyOf;
    if Taken(table, revokes, caps[i]) {
      TakenIsLast(table, grants, caps, revokes, i);
    }
    if Withdrawn(grants, revokes, i) {
      var j :| 0 <= j < |revokes| && (revokes[j].court, revokes[j].path) == KeyOf(grants[i]);
      assert table[(revokes[j].court, revokes[j].path)].0 == caps[i];
    }
  }

  lemma TakenIsLast(table: map<Key, (CapId, Rights)>, grants: seq<Resolved>, caps: seq<CapId>,
                    revokes: seq<RevokeEntry>, i: nat)
    requires |caps| == |grants| && TableOk(table, grants, caps) && i < |caps| && Taken(table, revokes, caps[i])
    requires forall a, b | 0 <= a < b < |caps| :: caps[a] != caps[b]
    ensures Withdrawn(grants, revokes, i)
  {
    hide KeyOf;
    var j :| 0 <= j < |revokes| && (revokes[j].court, revokes[j].path) in table
      && table[(revokes[j].court, revokes[j].path)].0 == caps[i];
    var k: nat :| IsLast(grants, k) && KeyOf(grants[k]) == (revokes[j].court, revokes[j].path);
    assert table[KeyOf(grants[k])].0 == caps[k];
    assert k == i;
  }

  lemma KnownGrants(m: Manifest, p: Policy, s: Demo)
    requires ValidPair(m, p) && CourtsReady(s, m.courts) && CorridorsReady(s, m.corridors)
    ensures Known(s, ResolveAll(p.grants))
  {
    var grants := ResolveAll(p.grants);
    forall i | 0 <= i < |grants|
      ensures grants[i].court in s.courtIds && grants[i].path in s.descriptors
    {
      assert GrantOk(m, p.grants[i]);
      var j :| 0 <= j < |m.corridors| && m.corridors[j].path == p.grants[i].path;
      assert CorridorReady(s, m.corridors[j]);
    }
  }

  /** Grant entry `k` is for the court and path of entry `i`, and covers the request. */
  ghost predicate EntryBacks(grants: seq<GrantEntry>, i: nat, k: nat, request: Request)
    requires i < |grants| && k <= i && request.OpenRequest?
  {
    && grants[k].court == grants[i].court && grants[k].path == grants[i].path
    && Contains(RightsOf(grants[k].rights), WireProtocol.Known(request.rights))
  }

  /** The request opens the path of entry `i` with a capability that an entry up to it
      granted to the same court for the same path, within the rights of that entry. */
  ghost predicate OpensOwn(first: nat, grants: seq<GrantEntry>, i: nat, request: Request)
    requires i < |grants|
  {
    && request.OpenRequest? && request.path == grants[i].path
    && exists k: nat :: k <= i && request.cap == Some(first + 1 + k) && EntryBacks(grants, i, k, request)
  }

  lemma CourtsDiffer(s: Demo, courts: seq<CourtEntry>, a: string, b: string)
    requires CourtsReady(s, courts) && a in s.courtIds && b in s.courtIds
    ensures s.courtIds[a] == s.courtIds[b] <==> a == b
  {
    var i :| 0 <= i < |courts| && courts[i].name == a;
    var j :| 0 <= j < |courts| && courts[j].name == b;
  }

  lemma CorridorFor(m: Manifest, p: Policy, a: nat) returns (i: nat)
    requires ValidPair(m, p) && a < |p.grants|
    ensures i < |m.corridors| && m.corridors[i].path == p.grants[a].path
  {
    hide CourtsOk, CorridorsOk, OneApp, RevokeOk, FaultOk, PeerDownOk, SomeoneMay;
    assert GrantOk(m, p.grants[a]);
    i :| 0 <= i < |m.corridors| && m.corridors[i].path == p.grants[a].path;
  }

  lemma PathsDiffer(m: Manifest, p: Policy, s: Demo, a: nat, b: nat)
    requires ValidPair(m, p) && CorridorsReady(s, m.corridors) && a < |p.grants| && b < |p.grants|
    ensures p.grants[a].path in s.descriptors && p.grants[b].path in s.descriptors
    ensures s.descriptors[p.grants[a].path].target == s.descriptors[p.grants[b].path].target <==>
      p.grants[a].path == p.grants[b].path
  {
    hide ValidPair;
    var i := CorridorFor(m, p, a);
    var j := CorridorFor(m, p, b);
    assert CorridorReady(s, m.corridors[i]) && CorridorReady(s, m.corridors[j]);
    hide CorridorReady;
  }

  lemma AnswersOwn(m: Manifest, p: Policy, s: Demo, i: nat, request: Request)
    requires ValidPair(m, p) && CourtsReady(s, m.courts) && CorridorsReady(s, m.corridors) && i < |p.grants|
    ensures Known(s, ResolveAll(p.grants))
    ensures Answers(s, ResolveAll(p.grants), i, request) <==> OpensOwn(s.root.registry.next, p.grants, i, request)
  {
    hide ValidPair, CourtsReady, CorridorsReady, Contains, RightsOf, WireProtocol.Known;
    var grants := ResolveAll(p.grants);
    KnownGrants(m, p, s);
    if request.OpenRequest? {
      forall k: nat | k <= i
        ensures Backs(s, grants, i, k, request) <==> EntryBacks(p.grants, i, k, request)
      {
        assert grants[k] == Resolve(p.grants[k]) && grants[i] == Resolve(p.grants[i]);
        CourtsDiffer(s, m.courts, p.grants[k].court, p.grants[i].court);
        PathsDiffer(m, p, s, k, i);
      }
    }
  }

  /** Under an accepted policy all grants go through exactly when none of them names read
      or write and each court's request opens its own corridor with a capability of its
      own, within the rights of that one. */
  lemma PolicyGranted(m: Manifest, p: Policy, requests: seq<Request>)
    requires ValidPair(m, p) && BuildState(m).Went? && |requests| == |p.grants|
    ensures RunGrants(BuildState(m).demo, ResolveAll(p.grants), requests).Ran? <==>
      && (forall i | 0 <= i < |p.grants| :: "read" !in p.grants[i].rights && "write" !in p.grants[i].rights)
      && forall i: nat | i < |p.grants| ::
           OpensOwn(BuildState(m).demo.root.registry.next, p.grants, i, requests[i])
  {
    hide ValidPair, Steady, CourtsReady, CorridorsReady, Contains, RightsOf, BuildState, GrantsDone, Answers, OpensOwn,
         RunGrants;
    BuildExactly(m, p);
    var s0, grants := BuildState(m).demo, ResolveAll(p.grants);
    KnownGrants(m, p, s0);
    GrantsRun(s0, grants, requests);
    forall i: nat | i < |p.grants|
      ensures Answers(s0, grants, i, requests[i]) <==> OpensOwn(s0.root.registry.next, p.grants, i, requests[i])
      ensures Contains(CORRIDOR_RIGHTS, grants[i].rights) <==>
        "read" !in p.grants[i].rights && "write" !in p.grants[i].rights
    {
      AnswersOwn(m, p, s0, i, requests[i]);
      GrantableExactly(p.grants[i].rights);
    }
  }

  /** With honest courts the rights alone decide, and a run that stops says so. */
  lemma HonestGranted(m: Manifest, p: Policy, requests: seq<Request>)
    requires ValidPair(m, p) && BuildState(m).Went?
    requires Honest(BuildState(m).demo.root.registry.next, ResolveAll(p.grants), requests)
    ensures var ran := RunGrants(BuildState(m).demo, ResolveAll(p.grants), requests);
      if forall i | 0 <= i < |p.grants| :: "read" !in p.grants[i].rights && "write" !in p.grants[i].rights then ran.Ran?
      else ran.Stopped? && ran.error == Core(NoRight)
  {
    hide ValidPair, Steady, CourtsReady, CorridorsReady, Contains, RightsOf, BuildState, GrantsDone, Answers, RunGrants;
    BuildExactly(m, p);
    var s0, grants := BuildState(m).demo, ResolveAll(p.grants);
    KnownGrants(m, p, s0);
    HonestAnswers(s0, grants, requests);
    StopsOnRights(s0, grants, requests);
    forall i: nat | i < |p.grants|
      ensures Contains(CORRIDOR_RIGHTS, grants[i].rights) <==>
        "read" !in p.grants[i].rights && "write" !in p.grants[i].rights
    {
      GrantableExactly(p.grants[i].rights);
    }
  }

  /** The requests of courts that ask for exactly what they were granted. */
  function ExactRequests(first: nat, grants: seq<GrantEntry>): (r: seq<Request>)
    ensures |r| == |grants|
  {
    seq(|grants|, i requires 0 <= i < |grants| =>
      OpenRequest(grants[i].path, Some(first + 1 + i), WireProtocol.FromRights(RightsOf(grants[i].rights))))
  }

  /** Courts that ask for exactly what they were granted are honest. */
  lemma ExactIsHonest(first: nat, grants: seq<GrantEntry>)
    ensures Honest(first, ResolveAll(grants), ExactRequests(first, grants))
  {
    hide RightsOf, Contains, WireProtocol.Known, WireProtocol.FromRights;
    var (all, requests) := (ResolveAll(grants), ExactRequests(first, grants));
    forall i | 0 <= i < |all|
      ensures Contains(all[i].rights, WireProtocol.Known(requests[i].rights))
    {
      WireProtocol.NamedRoundTrip(grants[i].rights);
      ContainsSelf(all[i].rights);
    }
  }

  lemma ContainsSelf(rights: Rights)
    ensures Contains(rights, rights)
  {
  }

  /** What the table holds once all grants went through. */
  lemma TableAfterGrants(s0: Demo, s: Demo, grants: seq<Resolved>, caps: seq<CapId>)
    requires GrantsDone(s0, s, grants, caps)
    ensures TableIssued(s) && Flat(s.root.registry)
    ensures forall i | 0 <= i < |grants| :: KeyOf(grants[i]) in s.capsByKey
  {
    hide Steady;
    assert Flat(s.root.registry) by { SteadyFlat(s); }
    forall key | key in s.capsByKey
      ensures s.capsByKey[key].0 in s.root.registry.caps && s.root.registry.caps[s.capsByKey[key].0].parent.Some?
    {
      var i: nat :| IsLast(grants, i) && KeyOf(grants[i]) == key;
      assert Live(s, grants[i], caps[i]);
    }
    forall i | 0 <= i < |grants|
      ensures KeyOf(grants[i]) in s.capsByKey
    {
      var k := FindLast(grants, i);
    }
  }

  lemma SteadyFlat(s: Demo)
    requires Steady(s)
    ensures Flat(s.root.registry)
  {
  }

  lemma FindLast(grants: seq<Resolved>, i: nat) returns (k: nat)
    requires i < |grants|
    ensures IsLast(grants, k) && KeyOf(grants[k]) == KeyOf(grants[i])
    decreases |grants| - i
  {
    if IsLast(grants, i) {
      k := i;
    } else {
      var j :| i < j < |grants| && KeyOf(grants[j]) == KeyOf(grants[i]);
      k := FindLast(grants, j);
    }
  }

  /** Under an accepted policy whose grants all went through, every revoke entry finds
      its capability, and afterwards a granted capability authorises what it was granted
      for unless it was withdrawn, in which case it authorises nothing. */
  lemma PolicyHonoured(m: Manifest, p: Policy, requests: seq<Request>, i: nat, need: Rights)
    requires ValidPair(m, p) && BuildState(m).Went? && |requests| == |p.grants|
    requires RunGrants(BuildState(m).demo, ResolveAll(p.grants), requests).Ran?
    ensures var (s0, grants) := (BuildState(m).demo, ResolveAll(p.grants));
      var ran := RunGrants(s0, grants, requests);
      var done := RunRevokes(ran.demo, p.revokes);
      && done.Went? && |ran.caps| == |p.grants|
      && (i < |p.grants| ==>
            && grants[i].path in s0.descriptors
            && Authorize(done.demo.root.registry, ran.caps[i], CorridorObject, need) ==
               if Withdrawn(grants, p.revokes, i) then Err(Revoked)
               else if Contains(grants[i].rights, need) then Ok(s0.descriptors[grants[i].path].target)
               else Err(NoRight))
  {
    hide Steady, CourtsReady, CorridorsReady, Contains, RightsOf, BuildState, RunGrants, RunRevokes, TableOk, Taken,
         Withdrawn, Flat, TableIssued;
    BuildExactly(m, p);
    var (s0, grants) := (BuildState(m).demo, ResolveAll(p.grants));
    KnownGrants(m, p, s0);
    GrantsRun(s0, grants, requests);
    var ran := RunGrants(s0, grants, requests);
    TableAfterGrants(s0, ran.demo, grants, ran.caps);
    RevokesFound(m, p, ran.demo.capsByKey);
    RevokesRun(ran.demo, p.revokes);
    if i < |p.grants| {
      assert Live(ran.demo, grants[i], ran.caps[i]);
      TakenExactly(ran.demo.capsByKey, grants, ran.caps, p.revokes, i);
    }
  }

  lemma RevokesFound(m: Manifest, p: Policy, table: map<Key, (CapId, Rights)>)
    requires ValidPair(m, p) && forall i | 0 <= i < |p.grants| :: KeyOf(ResolveAll(p.grants)[i]) in table
    ensures forall i | 0 <= i < |p.revokes| :: (p.revokes[i].court, p.revokes[i].path) in table
  {
    forall i | 0 <= i < |p.revokes|
      ensures (p.revokes[i].court, p.revokes[i].path) in table
    {
      assert RevokeOk(m, p, p.revokes[i]);
      var j :| 0 <= j < |p.grants| && p.grants[j].court == p.revokes[i].court && p.grants[j].path == p.revokes[i].path;
      assert KeyOf(ResolveAll(p.grants)[j]) in table;
    }
  }
}
