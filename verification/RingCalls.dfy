/** What each call of the ring answers, and what revocation or a lost peer means for
    every run from then on. */
module RingCalls {
  import opened RingProtocol

  /** A side told of a lost peer or of its revocation may start nothing. */
  predicate Barred(endpoint: Endpoint) { endpoint.revoked || endpoint.peerDown }

  /** A lost peer is reported first. */
  function Refusal(endpoint: Endpoint): Status
    requires Barred(endpoint)
  {
    if endpoint.peerDown then PeerDown else Revoked
  }

  ghost predicate ConsumerApart(s: Sys, s': Sys) {
    s'.cons == s.cons && s'.received == s.received && s'.ring.consumer == s.ring.consumer
      && s'.ring.capacity == s.ring.capacity && s'.ring.slotSize == s.ring.slotSize
  }

  ghost predicate ProducerApart(s: Sys, s': Sys) {
    s'.prod == s.prod && s'.sent == s.sent && s'.ring == s.ring.(consumer := s'.ring.consumer)
  }

  /** A send refuses a barred side or an oversized packet on the spot; once started it is
      about that packet, whatever else it is told, until it is sent or found not to fit. */
  ghost predicate SendStep(s: Sys, payload: Payload, endpoint: Endpoint, e: Event, s': Sys) {
    if s.prod.PIdle? then
      if Barred(endpoint) then s' == s && e == SendFails(Refusal(endpoint))
      else if |payload| > s.ring.slotSize then s' == s && e == SendFails(InvalidObject)
      else s' == s.(prod := PStarted(payload)) && e == Silent
    else
      && ConsumerApart(s, s')
      && match e
         case SendOk(sent) => sent == s.prod.payload && s'.prod.PIdle? && s'.sent == s.sent + [sent]
         case SendFails(status) => status == QueueFull && s' == s.(prod := PIdle)
         case Silent =>
           !s'.prod.PIdle? && s'.prod.payload == s.prod.payload && s'.sent == s.sent
             && s'.ring.producer == s.ring.producer
         case DividesByZero => s' == s && s.ring.capacity == 0
         case _ => false
  }

  /** A receive refuses a barred side on the spot; once started it goes on until it has a
      packet, finds none, or finds a length that cannot be. */
  ghost predicate RecvStep(s: Sys, endpoint: Endpoint, e: Event, s': Sys) {
    if s.cons.CIdle? then
      if Barred(endpoint) then s' == s && e == RecvFails(Refusal(endpoint))
      else s' == s.(cons := CStarted) && e == Silent
    else
      && ProducerApart(s, s')
      && match e
         case RecvSome(got) => s'.cons.CIdle? && s'.received == s.received + [got]
         case RecvNone => s' == s.(cons := CIdle)
         case RecvFails(status) => status == InvalidObject && s' == s.(cons := CIdle)
         case Silent => s' == s.(cons := s'.cons) && !s'.cons.CIdle?
         case DividesByZero => s' == s && s.ring.capacity == 0
         case _ => false
  }

  ghost predicate CallStep(s: Sys, m: Move, e: Event, s': Sys) {
    match m
    case Producer(payload, endpoint) => SendStep(s, payload, endpoint, e, s')
    case Consumer(endpoint) => RecvStep(s, endpoint, e, s')
  }

  /** Every step of every state, reachable or not, is a step of some call. */
  lemma CallSteps(s: Sys, m: Move)
    ensures var (s', e) := Next(s, m); CallStep(s, m, e, s')
  {
    hide Record, Place, SlotStart, WrapSub, Next64;
  }

  // ----- runs under a barred endpoint -----

  ghost predicate SendsBarred(moves: seq<Move>) {
    forall i | 0 <= i < |moves| && moves[i].Producer? :: Barred(moves[i].endpoint)
  }

  ghost predicate RecvsBarred(moves: seq<Move>) {
    forall i | 0 <= i < |moves| && moves[i].Consumer? :: Barred(moves[i].endpoint)
  }

  /** What the moves of a run answer, one by one. */
  function Answers(s: Sys, moves: seq<Move>): (r: seq<Event>)
    ensures |r| == |moves|
    decreases |moves|
  {
    if moves == [] then [] else var (s', e) := Next(s, moves[0]); [e] + Answers(s', moves[1..])
  }

  /** Nothing of the producer's has changed. */
  ghost predicate ProducerStill(s: Sys, s': Sys) {
    s'.prod == s.prod && s'.sent == s.sent && s'.ring.producer == s.ring.producer && s'.ring.bytes == s.ring.bytes
  }

  ghost predicate ConsumerStill(s: Sys, s': Sys) {
    s'.cons == s.cons && s'.received == s.received && s'.ring.consumer == s.ring.consumer
  }

  /** With every send barred, an idle producer stays idle, sends and writes nothing, and
      each of its calls answers why; whatever the consumer does. */
  lemma {:induction false} BarredSendsNothing(s: Sys, moves: seq<Move>)
    requires SendsBarred(moves) && s.prod.PIdle?
    ensures ProducerStill(s, Exec(s, moves))
    ensures forall i | 0 <= i < |moves| && moves[i].Producer? ::
      Answers(s, moves)[i] == SendFails(Refusal(moves[i].endpoint))
    decreases |moves|
  {
    hide Next;
    if moves != [] {
      CallSteps(s, moves[0]);
      BarredSendsNothing(Next(s, moves[0]).0, moves[1..]);
    }
  }

  /** With every send barred from some point on, at most the packet then under way is
      still sent, and after it none. */
  lemma {:induction false} BarredSendsAtMostOne(s: Sys, moves: seq<Move>)
    requires SendsBarred(moves) && !s.prod.PIdle?
    ensures var s' := Exec(s, moves);
      if s'.prod.PIdle? then s'.sent == s.sent || s'.sent == s.sent + [s.prod.payload]
      else s'.sent == s.sent && s'.prod.payload == s.prod.payload
    decreases |moves|
  {
    hide Next;
    if moves != [] {
      CallSteps(s, moves[0]);
      var s1 := Next(s, moves[0]).0;
      if s1.prod.PIdle? {
        BarredSendsNothing(s1, moves[1..]);
      } else {
        BarredSendsAtMostOne(s1, moves[1..]);
      }
    }
  }

  /** With every receive barred, an idle consumer stays idle and takes nothing. */
  lemma {:induction false} BarredTakesNothing(s: Sys, moves: seq<Move>)
    requires RecvsBarred(moves) && s.cons.CIdle?
    ensures ConsumerStill(s, Exec(s, moves))
    ensures forall i | 0 <= i < |moves| && moves[i].Consumer? ::
      Answers(s, moves)[i] == RecvFails(Refusal(moves[i].endpoint))
    decreases |moves|
  {
    hide Next;
    if moves != [] {
      CallSteps(s, moves[0]);
      BarredTakesNothing(Next(s, moves[0]).0, moves[1..]);
    }
  }

  /** With every receive barred from some point on, at most one packet is still taken. */
  lemma {:induction false} BarredTakesAtMostOne(s: Sys, moves: seq<Move>)
    requires RecvsBarred(moves) && !s.cons.CIdle?
    ensures var s' := Exec(s, moves);
      if s'.cons.CIdle? then s.received <= s'.received && |s'.received| <= |s.received| + 1
      else s'.received == s.received
    decreases |moves|
  {
    hide Next;
    if moves != [] {
      CallSteps(s, moves[0]);
      var s1 := Next(s, moves[0]).0;
      if s1.cons.CIdle? {
        BarredTakesNothing(s1, moves[1..]);
      } else {
        BarredTakesAtMostOne(s1, moves[1..]);
      }
    }
  }
}
