/** How long the ring stays a FIFO queue: for ever exactly when its capacity divides
    2^64 (or it can carry nothing). Past 2^64 sends any other capacity loses a packet. */
module RingWrap {
  import opened MachineWords
  import opened LittleEndian
  import opened RingProtocol
  import opened RingProofs
  import opened RingTheorems
  import opened RingEmpty
  import Arithmetic

  const LIVE := Endpoint(false, false)

  lemma {:induction false} ExecAppend(s: Sys, a: seq<Move>, b: seq<Move>)
    ensures Exec(s, a + b) == Exec(Exec(s, a), b)
    decreases |a|
  {
    hide Next;
    if a == [] {
      assert a + b == b;
    } else {
      assert (a + b)[1..] == a[1..] + b;
      ExecAppend(Next(s, a[0]).0, a[1..], b);
    }
  }

  /** One move, then a run. */
  lemma First(s: Sys, m: Move, rest: seq<Move>)
    ensures Exec(s, [m] + rest) == Exec(Next(s, m).0, rest)
  {
    hide Next;
    assert ([m] + rest)[1..] == rest;
  }

  // ----- a whole send, undisturbed -----

  ghost predicate Geometry(r: Ring) {
    r.capacity > 0 && r.slotSize < 0x1_0000_0000 && TotalLen(r.capacity, r.slotSize) == Some(|r.bytes|)
  }

  ghost predicate SameShape(r: Ring, r': Ring) {
    r'.capacity == r.capacity && r'.slotSize == r.slotSize && |r'.bytes| == |r.bytes|
  }

  /** `s'` is `s` after sending `payload`. */
  ghost predicate HasSent(s: Sys, s': Sys, payload: Payload)
    requires s.ring.capacity > 0
  {
    && SameShape(s.ring, s'.ring) && s'.ring.consumer == s.ring.consumer && s'.ring.producer == Next64(s.ring.producer)
    && s'.prod == PIdle && s'.cons == s.cons && s'.sent == s.sent + [payload] && s'.received == s.received
    && InSlot(s'.ring, s.ring.producer, Record(payload), |Record(payload)|)
  }

  lemma {:induction false} WriteRun(s: Sys) returns (moves: seq<Move>)
    requires Geometry(s.ring) && s.prod.PWriting? && |s.prod.payload| <= s.ring.slotSize
    requires s.prod.p == s.ring.producer && InSlot(s.ring, s.prod.p, Record(s.prod.payload), s.prod.k)
    ensures HasSent(s, Exec(s, moves), s.prod.payload)
    decreases |Record(s.prod.payload)| - s.prod.k
  {
    hide SlotStart, TotalLen, Record, Next64, Unpack;
    var (pl, k, record) := (s.prod.payload, s.prod.k, Record(s.prod.payload));
    var m := Producer([], LIVE);
    var s1 := Next(s, m).0;
    if k < |record| {
      SameSlot(s.ring, s.prod.p, record, k);
      hide InSlot;
      var rest := WriteRun(s1);
      moves := [m] + rest;
      First(s, m, rest);
    } else {
      moves := [m] + [];
      First(s, m, []);
      SlotFrame(s.ring, s1.ring, s.prod.p, record, |record|);
    }
  }

  lemma SendRun(s: Sys, payload: Payload) returns (moves: seq<Move>)
    requires Geometry(s.ring) && s.prod == PIdle && |payload| <= s.ring.slotSize
    requires WrapSub(s.ring.producer, s.ring.consumer) < s.ring.capacity
    ensures HasSent(s, Exec(s, moves), payload)
  {
    hide SlotStart, TotalLen, Record, Next64, Unpack, WrapSub;
    var m := Producer(payload, LIVE);
    var s1 := s.(prod := PStarted(payload));
    var s2 := s.(prod := PHaveProducer(payload, s.ring.producer));
    var s3 := s.(prod := PWriting(payload, s.ring.producer, 0));
    var rest := WriteRun(s3);
    hide HasSent, InSlot, Geometry;
    First(s2, m, rest);
    First(s1, m, [m] + rest);
    First(s, m, [m] + ([m] + rest));
    moves := [m] + ([m] + ([m] + rest));
    SentAlike(s, s3, Exec(s, moves), payload);
  }

  /** Where the producer was in its code does not show in what it did. */
  lemma SentAlike(s: Sys, t: Sys, s': Sys, payload: Payload)
    requires s.ring.capacity > 0 && t == s.(prod := t.prod) && HasSent(t, s', payload)
    ensures HasSent(s, s', payload)
  {
  }

  // ----- a whole receive, undisturbed -----

  /** `s` after receiving `payload`. */
  function AfterRecv(s: Sys, payload: Payload): Sys {
    s.(ring := s.ring.(consumer := Next64(s.ring.consumer)), cons := CIdle, received := s.received + [payload])
  }

  ghost predicate Readable(r: Ring, payload: Payload) {
    && r.capacity > 0 && r.slotSize < 0x1_0000_0000 && |payload| <= r.slotSize
    && InSlot(r, r.consumer, Record(payload), |Record(payload)|)
  }

  lemma {:induction false} DataRun(s: Sys, payload: Payload) returns (moves: seq<Move>)
    requires Readable(s.ring, payload) && s.cons.CReading? && s.cons.c == s.ring.consumer && s.cons.len == |payload|
    requires |s.cons.got| <= |payload| && s.cons.got == payload[..|s.cons.got|]
    ensures Exec(s, moves) == AfterRecv(s, payload)
    decreases |payload| - |s.cons.got|
  {
    hide SlotStart, Next64, Unpack;
    var m, got := Consumer(LIVE), s.cons.got;
    if |got| < |payload| {
      assert Record(payload)[4 + |got|] == payload[|got|];
      assert payload[..|got| + 1] == payload[..|got|] + [payload[|got|]];
      hide Record;
      var s1 := Next(s, m).0;
      assert s1 == s.(cons := CReading(s.ring.consumer, |payload|, payload[..|got| + 1]));
      hide InSlot, ConsumerStep;
      var rest := DataRun(s1, payload);
      moves := [m] + rest;
      First(s, m, rest);
    } else {
      assert got == payload;
      moves := [m] + [];
      First(s, m, []);
    }
  }

  lemma {:induction false} LenRun(s: Sys, payload: Payload) returns (moves: seq<Move>)
    requires Readable(s.ring, payload) && s.cons.CReadingLen? && s.cons.c == s.ring.consumer
    requires |s.cons.got| <= 4 && s.cons.got == Unpack(|payload|, 4)[..|s.cons.got|]
    ensures Exec(s, moves) == AfterRecv(s, payload)
    decreases 4 - |s.cons.got|
  {
    hide SlotStart, Next64, Unpack, Pack;
    var m, got := Consumer(LIVE), s.cons.got;
    var whole := Unpack(|payload|, 4);
    if |got| < 4 {
      assert Record(payload)[|got|] == whole[|got|];
      assert whole[..|got| + 1] == whole[..|got|] + [whole[|got|]];
      hide Record;
      var s1 := Next(s, m).0;
      assert s1 == s.(cons := CReadingLen(s.ring.consumer, whole[..|got| + 1]));
      hide InSlot, ConsumerStep;
      var rest := LenRun(s1, payload);
      moves := [m] + rest;
      First(s, m, rest);
    } else {
      hide Record, InSlot;
      Pow256Values();
      PackUnpack(|payload|, 4);
      assert got == whole;
      var s1 := s.(cons := CReading(s.ring.consumer, |payload|, []));
      assert Next(s, m).0 == s1;
      hide ConsumerStep;
      var rest := DataRun(s1, payload);
      moves := [m] + rest;
      First(s, m, rest);
    }
  }

  lemma RecvRun(s: Sys, payload: Payload) returns (moves: seq<Move>)
    requires Readable(s.ring, payload) && s.cons == CIdle && s.ring.consumer != s.ring.producer
    ensures Exec(s, moves) == AfterRecv(s, payload)
  {
    hide SlotStart, Next64, Unpack, Record, InSlot;
    var m := Consumer(LIVE);
    var s1 := s.(cons := CStarted);
    var s2 := s.(cons := CHaveConsumer(s.ring.consumer));
    var s3 := s.(cons := CReadingLen(s.ring.consumer, []));
    var rest := LenRun(s3, payload);
    First(s2, m, rest);
    First(s1, m, [m] + rest);
    First(s, m, [m] + ([m] + rest));
    moves := [m] + ([m] + ([m] + rest));
  }

  // ----- long runs -----

  ghost predicate Resting(s: Sys) {
    Inv(s) && s.prod == PIdle && s.cons == CIdle && s.ring.capacity > 0
  }

  /** A send to a resting ring with room leaves it resting. */
  lemma SendMore(s: Sys, payload: Payload) returns (moves: seq<Move>)
    requires Resting(s) && |payload| <= s.ring.slotSize
    requires |s.sent| < |s.received| + s.ring.capacity && |s.sent| < 0x1_0000_0000_0000_0000
    ensures HasSent(s, Exec(s, moves), payload) && Resting(Exec(s, moves))
  {
    WrapDiff(|s.sent|, |s.received|);
    hide WrapSub;
    moves := SendRun(s, payload);
    hide Inv;
    hide InSlot, Record, Next64;
    ExecRefines(s, moves);
  }

  /** One packet sent and received. */
  lemma Exchange(s: Sys) returns (moves: seq<Move>)
    requires Resting(s) && |s.sent| == |s.received| < 0x1_0000_0000_0000_0000
    ensures var s' := Exec(s, moves);
      && Resting(s') && SameShape(s.ring, s'.ring) && |s'.sent| == |s'.received| == |s.sent| + 1
  {
    hide SlotStart, Unpack, Record, InSlot, Next64;
    var a := SendMore(s, []);
    var s1 := Exec(s, a);
    WrapDiff(|s1.sent|, |s1.received|);
    hide QueueOk;
    var b := RecvRun(s1, []);
    moves := a + b;
    ExecAppend(s, a, b);
    hide Inv;
    ExecRefines(s1, b);
  }

  lemma {:induction false} Pump(s: Sys, n: nat) returns (moves: seq<Move>)
    requires Resting(s) && |s.sent| == |s.received| && |s.sent| + n <= 0x1_0000_0000_0000_0000
    ensures var s' := Exec(s, moves);
      && Resting(s') && SameShape(s.ring, s'.ring) && |s'.sent| == |s'.received| == |s.sent| + n
    decreases n
  {
    hide Resting;
    if n == 0 {
      moves := [];
    } else {
      var a := Exchange(s);
      var b := Pump(Exec(s, a), n - 1);
      moves := a + b;
      ExecAppend(s, a, b);
    }
  }

  lemma {:induction false} SendAll(s: Sys, payloads: seq<Payload>) returns (moves: seq<Move>)
    requires Resting(s) && (forall i | 0 <= i < |payloads| :: |payloads[i]| <= s.ring.slotSize)
    requires |s.sent| + |payloads| <= |s.received| + s.ring.capacity && |s.sent| + |payloads| <= 0x1_0000_0000_0000_0000
    ensures var s' := Exec(s, moves);
      && Resting(s') && SameShape(s.ring, s'.ring) && s'.sent == s.sent + payloads && s'.received == s.received
    decreases |payloads|
  {
    if payloads == [] {
      moves := [];
    } else {
      hide Inv;
      var a := SendMore(s, payloads[0]);
      hide Resting, InSlot, Record, Next64;
      var b := SendAll(Exec(s, a), payloads[1..]);
      moves := a + b;
      ExecAppend(s, a, b);
      assert s.sent + payloads == s.sent + [payloads[0]] + payloads[1..];
    }
  }

  /** The last slots before the indices wrap are the first ones of the ring. */
  lemma LastLap(capacity: nat)
    requires 0 < capacity < 0x1_0000_0000
    ensures var r := 0x1_0000_0000_0000_0000 % capacity; r < capacity && (0x1_0000_0000_0000_0000 - r) % capacity == 0
  {
    var m := 0x1_0000_0000_0000_0000;
    Arithmetic.Quotient(m - m % capacity, capacity, m / capacity, 0);
  }

  /** The ring filled with `r` packets, the first of them not empty, as its producer
      index comes back to zero. */
  lemma NearWrap(s: Sys, r: nat) returns (moves: seq<Move>)
    requires Resting(s) && s.sent == [] && s.received == [] && s.ring.slotSize > 0
    requires 0 < r < s.ring.capacity < 0x1_0000_0000
    ensures var s' := Exec(s, moves);
      && Resting(s') && SameShape(s.ring, s'.ring) && |s'.sent| == 0x1_0000_0000_0000_0000
      && |s'.received| == 0x1_0000_0000_0000_0000 - r && s'.sent[0x1_0000_0000_0000_0000 - r] == [0]
  {
    hide Resting;
    var a := Pump(s, 0x1_0000_0000_0000_0000 - r);
    var s1 := Exec(s, a);
    var payloads: seq<Payload> := [[0]] + seq(r - 1, _ => []);
    var b := SendAll(s1, payloads);
    moves := a + b;
    ExecAppend(s, a, b);
  }

  lemma AtWrap(s: Sys, r: nat)
    requires Resting(s) && |s.sent| == 0x1_0000_0000_0000_0000 && |s.received| == 0x1_0000_0000_0000_0000 - r
    requires 0 < r < s.ring.capacity
    ensures s.ring.producer == 0 && s.ring.consumer == 0x1_0000_0000_0000_0000 - r && s.ring.capacity < 0x1_0000_0000
    ensures WrapSub(s.ring.producer, s.ring.consumer) == r && Geometry(s.ring) && s.prod == PIdle && s.cons == CIdle
  {
    WrapDiff(|s.sent|, |s.received|);
    hide QueueOk, WrapSub, TotalLen;
  }

  /** The next packet lands on the oldest one in flight and is received in its place. */
  lemma Overrun(s: Sys, r: nat) returns (moves: seq<Move>)
    requires Resting(s) && |s.sent| == 0x1_0000_0000_0000_0000 && |s.received| == 0x1_0000_0000_0000_0000 - r
    requires 0 < r < s.ring.capacity && (0x1_0000_0000_0000_0000 - r) % s.ring.capacity == 0
    ensures Exec(s, moves).sent == s.sent + [[]] && Exec(s, moves).received == s.received + [[]]
  {
    hide Resting, WrapSub, TotalLen, InSlot, Record;
    AtWrap(s, r);
    var a := SendRun(s, []);
    var s1 := Exec(s, a);
    SameRemainder(s1.ring, 0, s1.ring.consumer, Record([]));
    var b := RecvRun(s1, []);
    moves := a + b;
    ExecAppend(s, a, b);
  }

  lemma SameRemainder(r: Ring, a: nat, b: nat, record: seq<Byte>)
    requires r.capacity > 0 && a % r.capacity == b % r.capacity && InSlot(r, a, record, |record|)
    ensures InSlot(r, b, record, |record|)
  {
  }

  /** With a capacity that does not divide 2^64 the ring overwrites a packet that
      was never received, and hands over another in its place. */
  lemma WrapLoses(s: Sys) returns (moves: seq<Move>)
    requires Fresh(s) && s.ring.capacity > 0 && s.ring.slotSize > 0
    requires 0x1_0000_0000_0000_0000 % s.ring.capacity != 0
    ensures !(Exec(s, moves).received <= Exec(s, moves).sent)
  {
    FreshOk(s);
    assert Resting(s);
    hide Resting;
    LastLap(s.ring.capacity);
    var r := 0x1_0000_0000_0000_0000 % s.ring.capacity;
    var a := NearWrap(s, r);
    var s1 := Exec(s, a);
    var b := Overrun(s1, r);
    moves := a + b;
    ExecAppend(s, a, b);
    var s2 := Exec(s, moves);
    assert s2.received[0x1_0000_0000_0000_0000 - r] == [] && s2.sent[0x1_0000_0000_0000_0000 - r] == [0];
  }

  // ----- the exact condition -----

  /** In every run from a fresh ring of this geometry, what is received is a prefix
      of what is sent. */
  ghost predicate AlwaysFifo(capacity: nat, slotSize: nat) {
    forall s, moves | Fresh(s) && s.ring.capacity == capacity && s.ring.slotSize == slotSize ::
      Exec(s, moves).received <= Exec(s, moves).sent
  }

  /** In every such run each step is one of the bounded FIFO queue. */
  ghost predicate AlwaysRefines(capacity: nat, slotSize: nat) {
    forall s, moves | Fresh(s) && s.ring.capacity == capacity && s.ring.slotSize == slotSize :: RunRefines(s, moves)
  }

  /** What a step does to the packets sent and received shows in its event. */
  lemma StepRecords(s: Sys, m: Move)
    ensures var (s', e) := Next(s, m);
      match e
      case SendOk(payload) => s'.sent == s.sent + [payload] && s'.received == s.received
      case RecvSome(payload) => s'.sent == s.sent && s'.received == s.received + [payload]
      case _ => s'.sent == s.sent && s'.received == s.received
  {
    hide WrapSub, Next64, Record, Place, Pack, WriteByte, ReadByte;
  }

  /** A run of queue steps hands packets over in the order they were sent. */
  lemma {:induction false} RefinesFifo(s: Sys, moves: seq<Move>)
    requires s.received <= s.sent && RunRefines(s, moves)
    ensures Exec(s, moves).received <= Exec(s, moves).sent
    decreases |moves|
  {
    hide Next;
    if moves != [] {
      StepRecords(s, moves[0]);
      RefinesFifo(Next(s, moves[0]).0, moves[1..]);
    }
  }

  lemma {:induction false} ExecShape(s: Sys, moves: seq<Move>)
    ensures Exec(s, moves).ring.capacity == s.ring.capacity
    decreases |moves|
  {
    if moves != [] {
      assert Next(s, moves[0]).0.ring.capacity == s.ring.capacity by { hide Record, Place, Pack; }
      hide Next;
      ExecShape(Next(s, moves[0]).0, moves[1..]);
    }
  }

  lemma FreshRefines(s: Sys, moves: seq<Move>)
    requires Fresh(s)
    requires s.ring.capacity == 0 || s.ring.slotSize == 0 || 0x1_0000_0000_0000_0000 % s.ring.capacity == 0
    ensures RunRefines(s, moves)
  {
    hide Exec, RunRefines;
    if s.ring.capacity == 0 || 0x1_0000_0000_0000_0000 % s.ring.capacity == 0 {
      ExecShape(s, moves);
      EveryRunIsFifo(s, moves);
    } else {
      hide Fresh, EmptyInv;
      EmptyStart(s);
      EmptyRun(s, moves);
    }
  }

  /** Exactly the rings that refine a bounded FIFO queue under every interleaving, for ever;
      the others do not even keep the order of packets. */
  lemma FifoExactly(capacity: nat, slotSize: nat)
    requires capacity < 0x1_0000_0000 && slotSize < 0x1_0000_0000 && TotalLen(capacity, slotSize).Some?
    ensures AlwaysRefines(capacity, slotSize) <==>
      capacity == 0 || slotSize == 0 || 0x1_0000_0000_0000_0000 % capacity == 0
    ensures AlwaysFifo(capacity, slotSize) <==> AlwaysRefines(capacity, slotSize)
  {
    hide Exec, RunRefines, TotalLen;
    if capacity == 0 || slotSize == 0 || 0x1_0000_0000_0000_0000 % capacity == 0 {
      forall s, moves | Fresh(s) && s.ring.capacity == capacity && s.ring.slotSize == slotSize
        ensures RunRefines(s, moves) && Exec(s, moves).received <= Exec(s, moves).sent
      {
        FreshRefines(s, moves);
        RefinesFifo(s, moves);
      }
    } else {
      var ring := Ring(capacity, slotSize, seq(TotalLen(capacity, slotSize).value, _ => 0), 0, 0);
      var s := Sys(ring, PIdle, CIdle, [], []);
      var moves := WrapLoses(s);
      if RunRefines(s, moves) {
        RefinesFifo(s, moves);
      }
    }
  }
}
