/** What every interleaving of the ring's two sides guarantees, and for how long. */
module RingTheorems {
  import opened LittleEndian
  import opened RingProtocol
  import opened RingProofs
  import opened RingCalls
  import Arithmetic

  // ----- refinement -----

  /** Each step is a step of a call, and a step of a bounded FIFO queue or one that changes
      nothing a caller sees:
      sends append, receives take the head, "full" and "empty" are answered only of
      a full or an empty queue, no receive finds a broken slot, and no index is
      reduced modulo a zero capacity. */
  lemma StepRefines(s: Sys, m: Move)
    requires Inv(s) && Coherent(s)
    ensures var (s', e) := Next(s, m);
      && Inv(s') && FifoStep(Queue(s), s.ring.capacity, e, Queue(s')) && s'.ring.capacity == s.ring.capacity
      && CallStep(s, m, e, s')
  {
    CallSteps(s, m);
    hide CallStep;
    match m {
      case Producer(payload, endpoint) =>
        ProducerKeeps(s, payload, endpoint);
        ProducerFifo(s, payload, endpoint);
      case Consumer(endpoint) =>
        ConsumerKeeps(s, endpoint);
        ConsumerFifo(s, endpoint);
    }
  }

  lemma ProducerFifo(s: Sys, payload: Payload, endpoint: Endpoint)
    requires Inv(s)
    ensures var (s', e) := ProducerStep(s, payload, endpoint);
      && |s'.received| <= |s'.sent| && FifoStep(Queue(s), s.ring.capacity, e, Queue(s'))
      && s'.ring.capacity == s.ring.capacity
  {
    WrapDiff(|s.sent|, |s.received|);
    hide SlotStart, TotalLen, Record, WrapSub, Unpack, InSlot, Next64;
  }

  lemma ConsumerFifo(s: Sys, endpoint: Endpoint)
    requires Inv(s) && Coherent(s)
    ensures var (s', e) := ConsumerStep(s, endpoint);
      && |s'.received| <= |s'.sent| && FifoStep(Queue(s), s.ring.capacity, e, Queue(s'))
      && s'.ring.capacity == s.ring.capacity
  {
    if s.cons.CReadingLen? {
      LenReadOk(s, endpoint);
      hide SlotStart, TotalLen, Record, Unpack, Pack, InSlot, Place;
    } else {
      WrapDiff(|s.sent|, |s.received|);
      hide SlotStart, TotalLen, Record, Unpack, Pack, InSlot, Place, Next64;
    }
  }

  lemma CoherentBefore(s: Sys, m: Move)
    requires Coherent(Next(s, m).0)
    ensures Coherent(s)
  {
    hide SlotStart, Record, Pack, Place;
  }

  /** Every step of the run is a step of a call and of the FIFO queue. */
  ghost predicate RunRefines(s: Sys, moves: seq<Move>)
    requires |s.received| <= |s.sent|
    decreases |moves|
  {
    moves == [] || (
      var (s', e) := Next(s, moves[0]);
      && |s'.received| <= |s'.sent| && FifoStep(Queue(s), s.ring.capacity, e, Queue(s'))
      && CallStep(s, moves[0], e, s') && RunRefines(s', moves[1..]))
  }

  lemma {:induction false} CoherentRun(s: Sys, moves: seq<Move>)
    requires Coherent(Exec(s, moves))
    ensures Coherent(s)
    decreases |moves|
  {
    hide Coherent, Next;
    if moves != [] {
      CoherentRun(Next(s, moves[0]).0, moves[1..]);
      CoherentBefore(s, moves[0]);
    }
  }

  lemma {:induction false} ExecRefines(s: Sys, moves: seq<Move>)
    requires Inv(s) && Coherent(Exec(s, moves))
    ensures RunRefines(s, moves) && Inv(Exec(s, moves)) && Exec(s, moves).ring.capacity == s.ring.capacity
    decreases |moves|
  {
    if moves != [] {
      CoherentRun(s, moves);
      StepRefines(s, moves[0]);
      hide Coherent, Next, FifoStep, CallStep;
      ExecRefines(Next(s, moves[0]).0, moves[1..]);
    }
  }

  /** From a fresh ring, under every interleaving, what was received is a prefix of
      what was sent and at most a capacity of packets is in flight. This holds for
      ever when the capacity divides 2^64 and otherwise for the first 2^64 sends. */
  lemma EveryRunIsFifo(s: Sys, moves: seq<Move>)
    requires Fresh(s) && Coherent(Exec(s, moves))
    ensures var s' := Exec(s, moves); s'.received <= s'.sent && |s'.sent| <= |s'.received| + s.ring.capacity
    ensures |s.received| <= |s.sent| && RunRefines(s, moves)
  {
    FreshOk(s);
    ExecRefines(s, moves);
  }

  /** The slot being written is never the slot being read. */
  lemma SlotsNeverShared(s: Sys)
    requires Inv(s) && Coherent(s) && s.prod.PWriting? && (s.cons.CReadingLen? || s.cons.CReading?)
    ensures s.prod.p % s.ring.capacity != s.cons.c % s.ring.capacity
    ensures forall i, j | 0 <= i < Stride(s.ring.slotSize) && 0 <= j < Stride(s.ring.slotSize) ::
      Place(s.ring, s.prod.p, i) != Place(s.ring, s.cons.c, j)
  {
    var r := s.ring;
    SlotIs(|s.sent|, r.capacity);
    SlotIs(|s.received|, r.capacity);
    SlotsDiffer(|s.received|, |s.sent|, r.capacity);
    var x, y := s.prod.p % r.capacity, s.cons.c % r.capacity;
    if x < y {
      SlotsApart(r.capacity, r.slotSize, x, y);
    } else {
      SlotsApart(r.capacity, r.slotSize, y, x);
    }
    hide SlotStart, Stride;
  }

  // ----- powers of two -----

  function Pow2(k: nat): (p: nat)
    ensures p > 0
  {
    if k == 0 then 1 else 2 * Pow2(k - 1)
  }

  lemma {:induction false} Pow2Sum(a: nat, b: nat)
    ensures Pow2(a + b) == Pow2(a) * Pow2(b)
    decreases a
  {
    if a > 0 {
      Pow2Sum(a - 1, b);
    }
  }

  lemma Square(k: nat, p: nat)
    requires Pow2(k) == p
    ensures Pow2(2 * k) == p * p
  {
    hide Pow2;
    Pow2Sum(k, k);
    assert k + k == 2 * k;
  }

  lemma Pow2Of64()
    ensures Pow2(64) == 0x1_0000_0000_0000_0000
  {
    assert Pow2(1) == 2;
    hide Pow2;
    Square(1, 2);
    Square(2, 4);
    Square(4, 0x10);
    Square(8, 0x100);
    Square(16, 0x1_0000);
    Square(32, 0x1_0000_0000);
  }

  /** The ring format's rule that capacities are powers of two is enough. */
  lemma PowersDivide(k: nat)
    requires k <= 64
    ensures 0x1_0000_0000_0000_0000 % Pow2(k) == 0
  {
    hide Pow2;
    Pow2Of64();
    Pow2Sum(k, 64 - k);
    Arithmetic.Quotient(Pow2(64), Pow2(k), Pow2(64 - k), 0);
  }
}
