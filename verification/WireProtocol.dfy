/** Rights on the wire and the endpoint state a court keeps. */
module WireProtocol {
  import opened Capabilities
  import opened Manifests
  import RingProtocol

  /** The seven known rights. */
  const ALL_RIGHTS: Rights := 0x7f

  /** Rights as a message carries them. */
  datatype WireRights = WireRights(bits: Rights)

  function FromRights(rights: Rights): WireRights { WireRights(rights) }

  /** The known rights a message carries. */
  function Known(w: WireRights): Rights { w.bits & ALL_RIGHTS }

  function Take(bits: Rights, right: Rights): Rights {
    if bits & right != 0 then right else 0
  }

  lemma TakesAdd(bits: Rights)
    ensures Take(bits, READ) | Take(bits, WRITE) | Take(bits, SEND) | Take(bits, RECV) | Take(bits,
      DELEGATE) | Take(bits, REVOKE)
      | Take(bits, OBSERVE) == Known(WireRights(bits))
  {
  }

  /** Bits that name no known right are dropped, all others kept. */
  method ToRights(w: WireRights) returns (rights: Rights)
    ensures rights == Known(w)
  {
    hide Take, Known;
    TakesAdd(w.bits);
    rights := Take(w.bits, READ);
    rights := rights | Take(w.bits, WRITE);
    rights := rights | Take(w.bits, SEND);
    rights := rights | Take(w.bits, RECV);
    rights := rights | Take(w.bits, DELEGATE);
    rights := rights | Take(w.bits, REVOKE);
    rights := rights | Take(w.bits, OBSERVE);
  }

  /** Rights put on the wire and read back are the known ones among them: a right comes
      through exactly when it was sent and is known, so all do exactly when all are. */
  lemma WireRoundTrip(rights: Rights, right: Rights)
    ensures Contains(Known(FromRights(rights)), right) <==> Contains(rights, right) && Contains(ALL_RIGHTS, right)
    ensures Known(FromRights(rights)) == rights <==> Contains(ALL_RIGHTS, rights)
  {
    hide Known, FromRights, Contains;
    KnownRight(rights, right, Known(FromRights(rights)));
    AllKnown(rights, Known(FromRights(rights)));
  }

  lemma KnownRight(rights: Rights, right: Rights, known: Rights)
    requires known == Known(FromRights(rights))
    ensures Contains(known, right) <==> Contains(rights, right) && Contains(ALL_RIGHTS, right)
  {
  }

  lemma AllKnown(rights: Rights, known: Rights)
    requires known == Known(FromRights(rights))
    ensures known == rights <==> Contains(ALL_RIGHTS, rights)
  {
  }

  /** Rights named by a policy always survive the wire. */
  lemma NamedRoundTrip(names: seq<string>)
    ensures Known(FromRights(RightsOf(names))) == RightsOf(names)
  {
    NothingElse(names);
    hide RightsOf;
  }

  datatype Mark = MarkRevoked | MarkPeerDown

  class EndpointState {
    var revoked: bool
    var peerDown: bool
    ghost var marks: seq<Mark>

    ghost predicate Valid()
      reads this
    {
      (revoked <==> MarkRevoked in marks) && (peerDown <==> MarkPeerDown in marks)
    }

    constructor ()
      ensures Valid() && marks == []
    {
      revoked, peerDown, marks := false, false, [];
    }

    method SetRevoked()
      requires Valid()
      modifies this
      ensures Valid() && marks == old(marks) + [MarkRevoked]
    {
      revoked, marks := true, marks + [MarkRevoked];
    }

    method SetPeerDown()
      requires Valid()
      modifies this
      ensures Valid() && marks == old(marks) + [MarkPeerDown]
    {
      peerDown, marks := true, marks + [MarkPeerDown];
    }

    /** A mark is never forgotten, and a lost peer outranks a revocation. */
    method Query() returns (status: RingProtocol.Status)
      requires Valid()
      ensures status.PeerDown? <==> MarkPeerDown in marks
      ensures status.Revoked? <==> MarkPeerDown !in marks && MarkRevoked in marks
      ensures status.StatusOk? <==> marks == []
    {
      status := RingProtocol.Endpoint(revoked, peerDown).Status();
      assert marks != [] ==> marks[0] in marks && (marks[0] == MarkRevoked || marks[0] == MarkPeerDown);
    }
  }
}
