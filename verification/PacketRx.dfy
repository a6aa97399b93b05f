/** The general theorems at concrete manifests and policies: the built-in packet-rx demo,
    a manifest that is accepted and cannot be built, and a policy that grants the same
    court and path twice. */
module PacketRx {
  import opened Capabilities
  import opened MachineWords
  import opened Manifests
  import opened DemoState
  import DemoProofs
  import opened DemoTheorems
  import ManifestChecks
  import RingProtocol

  const APP := "app"
  const NET := "net0"
  const RX := "/court/net0/packet/rx"

  /** The demo's courts and corridor, with a ring of the given size. */
  function ManifestOf(capacity: HalfWord, slotSize: HalfWord): Manifest {
    Manifest(1, [CourtEntry(APP, App), CourtEntry(NET, Net)], [CorridorEntry(RX, APP, NET, capacity, slotSize)],
      "mvp0c-packet")
  }

  const NET_GRANT := GrantEntry(NET, RX, ["recv", "observe"])
  const APP_GRANT := GrantEntry(APP, RX, ["send", "observe"])

  /** The demo's policy, with `again` further grants like the app's own. */
  function GrantsOf(again: nat): (g: seq<GrantEntry>)
    ensures |g| == 2 + again && g[0] == NET_GRANT && forall i | 1 <= i < |g| :: g[i] == APP_GRANT
  {
    [NET_GRANT] + seq(1 + again, _ => APP_GRANT)
  }

  function PolicyOf(again: nat): Policy {
    Policy(
      1, GrantsOf(again), [RevokeEntry(APP, RX, "recv")],
        [FaultEntry(NET, "revoke", "mvp0c simulated net court crash")],
      [PeerDownEntry(APP, RX, "fault")])
  }

  const MANIFEST := ManifestOf(64, 2048)
  const POLICY := PolicyOf(0)

  // ----- valid pairs -----

  lemma ManifestAccepted(capacity: HalfWord, slotSize: HalfWord)
    requires capacity > 0 && slotSize > 0
    ensures var m := ManifestOf(capacity, slotSize); CourtsOk(m) && CorridorsOk(m)
  {
    var m := ManifestOf(capacity, slotSize);
    assert APP != NET;
    assert m.courts[0].name == APP && m.courts[1].name == NET;
    assert OnlyAppAt(m.courts, 0);
    assert m.courts[1].role == Net;
    assert RX[..7] == "/court/";
    assert CorridorOk(m, m.corridors[0]);
  }

  lemma Names(m: Manifest, p: Policy, capacity: HalfWord, slotSize: HalfWord, again: nat)
    requires m == ManifestOf(capacity, slotSize) && p == PolicyOf(again)
    ensures HasCourt(m, APP) && HasCourt(m, NET) && HasPath(m, RX) && HasGrant(p, APP, RX)
    ensures SomeoneMay(p, "send") && SomeoneMay(p, "recv")
  {
    assert m.courts[0].name == APP && m.courts[1].name == NET && m.corridors[0].path == RX;
    assert p.grants[1].court == APP;
    assert p.grants[0].rights[0] == "recv" && p.grants[1].rights[0] == "send";
  }

  lemma KnownRights()
    ensures RightOf("send").Some? && RightOf("recv").Some? && RightOf("observe").Some?
  {
  }

  lemma PhasesOrdered()
    ensures Before("recv", "revoke") && Before("revoke", "fault") && Before("fault", "peer_down")
  {
    assert PHASE_ORDER[5] == "recv" && PHASE_ORDER[6] == "revoke" && PHASE_ORDER[8] == "fault"
      && PHASE_ORDER[10] == "peer_down";
  }

  lemma Accepted(capacity: HalfWord, slotSize: HalfWord, again: nat)
    requires capacity > 0 && slotSize > 0
    ensures ValidPair(ManifestOf(capacity, slotSize), PolicyOf(again))
  {
    hide CourtsOk, CorridorsOk, HasCourt, HasPath, HasGrant, RightOf, Before, SomeoneMay;
    var (m, p) := (ManifestOf(capacity, slotSize), PolicyOf(again));
    ManifestAccepted(capacity, slotSize);
    Names(m, p, capacity, slotSize, again);
    KnownRights();
    PhasesOrdered();
    assert forall i | 0 <= i < |p.grants| :: GrantOk(m, p.grants[i]);
  }

  /** A ring of the demo's courts can be built exactly when it can be mapped. */
  lemma Builds(capacity: HalfWord, slotSize: HalfWord)
    requires capacity > 0 && slotSize > 0
    ensures BuildState(ManifestOf(capacity, slotSize)).Went? <==> RingProtocol.TotalLen(capacity, slotSize).Some?
  {
    hide BuildState, ValidPair, RingProtocol.TotalLen;
    Accepted(capacity, slotSize, 0);
    DemoProofs.BuildExactly(ManifestOf(capacity, slotSize), PolicyOf(0));
    assert ManifestOf(capacity, slotSize).corridors[0].capacity == capacity;
  }

  // ----- the demo, and its policy with a grant repeated -----

  lemma NothingForbidden()
    ensures "read" !in NET_GRANT.rights && "write" !in NET_GRANT.rights && "read" !in APP_GRANT.rights
    ensures "write" !in APP_GRANT.rights
  {
  }

  /** Courts that ask for what they were granted: all grants go through, however often
      the app's is repeated. */
  lemma GrantsGoThrough(again: nat)
    ensures BuildState(MANIFEST).Went?
    ensures var s := BuildState(MANIFEST).demo; var g := GrantsOf(again);
      RunGrants(s, ResolveAll(g), ExactRequests(s.root.registry.next, g)).Ran?
  {
    hide BuildState, RunGrants, ResolveAll, ValidPair, Honest, ExactRequests;
    Builds(64, 2048);
    Accepted(64, 2048, again);
    var s, g := BuildState(MANIFEST).demo, GrantsOf(again);
    ExactIsHonest(s.root.registry.next, g);
    HonestGranted(MANIFEST, PolicyOf(again), ExactRequests(s.root.registry.next, g));
    NothingForbidden();
  }

  lemma WhichWithdrawn(again: nat, i: nat)
    requires i < |GrantsOf(again)|
    ensures Withdrawn(ResolveAll(GrantsOf(again)), PolicyOf(again).revokes, i) <==> i == 1 + again
  {
    hide RightsOf;
    var g := ResolveAll(GrantsOf(again));
    assert APP != NET;
    assert KeyOf(g[0]) == (NET, RX) && forall j | 1 <= j < |g| :: KeyOf(g[j]) == (APP, RX);
    assert PolicyOf(again).revokes[0].court == APP;
    if 1 <= i < 1 + again {
      assert KeyOf(g[i + 1]) == KeyOf(g[i]);
    }
  }

  lemma MaySendOrReceive()
    ensures Contains(RightsOf(NET_GRANT.rights), RECV) && Contains(RightsOf(APP_GRANT.rights), SEND)
  {
    hide RightsOf, Contains;
    ManifestChecks.SendAndRecv(NET_GRANT.rights);
    ManifestChecks.SendAndRecv(APP_GRANT.rights);
    assert NET_GRANT.rights[0] == "recv" && APP_GRANT.rights[0] == "send";
  }

  /** Once the grants went through, the one revoke entry finds its capability. Afterwards
      the app's last capability can send nothing; the net court can still receive, and
      every earlier capability of the app can still send. */
  lemma AfterRevoke(again: nat, ran: Ran, i: nat)
    requires BuildState(MANIFEST).Went? && i < 2 + again
    requires var s := BuildState(MANIFEST).demo; var g := GrantsOf(again);
      ran == RunGrants(s, ResolveAll(g), ExactRequests(s.root.registry.next, g)) && ran.Ran?
    ensures RunRevokes(ran.demo, PolicyOf(again).revokes).Went? && |ran.caps| == 2 + again
    ensures var r := RunRevokes(ran.demo, PolicyOf(again).revokes).demo.root.registry;
      var need := if i == 0 then RECV else SEND;
      if i == 1 + again then Authorize(r, ran.caps[i], CorridorObject, need) == Err(Revoked)
      else Authorize(r, ran.caps[i], CorridorObject, need).Ok?
  {
    hide BuildState, RunGrants, RunRevokes, ValidPair, Withdrawn, Authorize, RightsOf, Contains, ExactRequests;
    var g := GrantsOf(again);
    Accepted(64, 2048, again);
    WhichWithdrawn(again, i);
    MaySendOrReceive();
    assert ResolveAll(g)[i] == Resolve(g[i]);
    hide ResolveAll;
    PolicyHonoured(MANIFEST, PolicyOf(again), ExactRequests(BuildState(MANIFEST).demo.root.registry.next, g), i,
      if i == 0 then RECV else SEND);
  }

  /** A revoke entry does not take back all of a court's access: with the app's grant made
      twice its first capability still sends. */
  lemma FirstGrantSurvives()
    ensures BuildState(MANIFEST).Went? && ValidPair(MANIFEST, PolicyOf(1))
    ensures var s := BuildState(MANIFEST).demo; var g := GrantsOf(1);
      var ran := RunGrants(s, ResolveAll(g), ExactRequests(s.root.registry.next, g));
      && ran.Ran? && |ran.caps| == 3 && g[1] == g[2] == APP_GRANT
      && var done := RunRevokes(ran.demo, PolicyOf(1).revokes);
      && done.Went? && PolicyOf(1).revokes[0].court == APP && PolicyOf(1).revokes[0].path == RX
      && Authorize(done.demo.root.registry, ran.caps[2], CorridorObject, SEND) == Err(Revoked)
      && Authorize(done.demo.root.registry, ran.caps[1], CorridorObject, SEND).Ok?
  {
    hide BuildState, RunGrants, RunRevokes, ResolveAll, ValidPair, Authorize, ExactRequests;
    Accepted(64, 2048, 1);
    GrantsGoThrough(1);
    var s, g := BuildState(MANIFEST).demo, GrantsOf(1);
    var ran := RunGrants(s, ResolveAll(g), ExactRequests(s.root.registry.next, g));
    AfterRevoke(1, ran, 1);
    AfterRevoke(1, ran, 2);
  }

  /** The largest ring two 32-bit sizes describe: the pair is accepted and its state
      cannot be built. */
  lemma TooLargeToBuild()
    ensures ValidPair(ManifestOf(0xffff_ffff, 0xffff_ffff), POLICY)
    ensures !BuildState(ManifestOf(0xffff_ffff, 0xffff_ffff)).Went?
  {
    hide BuildState, ValidPair;
    Accepted(0xffff_ffff, 0xffff_ffff, 0);
    Builds(0xffff_ffff, 0xffff_ffff);
  }
}
