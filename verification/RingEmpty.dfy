/** Rings whose slots have no room for data: they carry empty packets only, and refine a
    bounded FIFO queue for ever, whatever their capacity. */
module RingEmpty {
  import opened MachineWords
  import opened LittleEndian
  import opened RingProtocol
  import opened RingProofs
  import opened RingCalls
  import opened RingTheorems

  /** The first `k` length bytes in the slot of `index` are zero. */
  ghost predicate ZeroAt(r: Ring, index: Word, k: nat)
    requires r.capacity > 0
  {
    forall i | 0 <= i < k :: ReadByte(r, Place(r, index, i)) == 0
  }

  /** Every slot in flight has a zero length. */
  ghost predicate ZeroLengths(s: Sys)
    requires s.ring.capacity > 0
  {
    forall n | |s.received| <= n < |s.sent| :: ZeroAt(s.ring, n % 0x1_0000_0000_0000_0000, 4)
  }

  ghost predicate EmptyCounts(s: Sys) {
    && |s.received| <= |s.sent| <= |s.received| + s.ring.capacity && 0 < s.ring.capacity < 0x1_0000_0000
    && s.ring.slotSize == 0
    && s.ring.producer == |s.sent| % 0x1_0000_0000_0000_0000
    && s.ring.consumer == |s.received| % 0x1_0000_0000_0000_0000
    && (forall n | 0 <= n < |s.sent| :: s.sent[n] == []) && (forall n | 0 <= n < |s.received| :: s.received[n] == [])
  }

  ghost predicate EmptyProd(s: Sys)
    requires s.ring.capacity > 0
  {
    match s.prod
    case PIdle => true
    case PStarted(pl) => pl == []
    case PHaveProducer(pl, p) => pl == [] && p == s.ring.producer
    case PWriting(pl, p, k) =>
      pl == [] && p == s.ring.producer && |s.sent| < |s.received| + s.ring.capacity && k <= 4 && ZeroAt(s.ring, p, k)
  }

  ghost predicate EmptyCons(s: Sys) {
    match s.cons
    case CIdle => true
    case CStarted => true
    case CHaveConsumer(c) => c == s.ring.consumer
    case CReadingLen(c, got) =>
      c == s.ring.consumer && |s.received| < |s.sent| && |got| <= 4 && forall i | 0 <= i < |got| :: got[i] == 0
    case CReading(c, len, got) => c == s.ring.consumer && |s.received| < |s.sent| && len == 0 && got == []
  }

  /** Whatever the bytes of the ring, only empty packets go in or out, never more out than
      in, and what is in flight has its zero length in place. */
  ghost predicate EmptyInv(s: Sys) {
    EmptyCounts(s) && ZeroLengths(s) && EmptyProd(s) && EmptyCons(s)
  }

  lemma EmptyRecord()
    ensures Record([]) == [0, 0, 0, 0]
  {
    UnpackZero(4);
  }

  lemma ZeroPack(got: seq<Byte>)
    requires |got| == 4 && forall i | 0 <= i < 4 :: got[i] == 0
    ensures Pack(got) == 0
  {
    UnpackZero(4);
    assert got == Unpack(0, 4);
    Pow256Values();
    PackUnpack(0, 4);
  }

  // ----- zeroes stay -----

  /** A zero written anywhere leaves every zero length alone. */
  lemma ZeroWritten(r: Ring, a: nat, index: Word, k: nat)
    requires r.capacity > 0 && ZeroAt(r, index, k)
    ensures ZeroAt(WriteByte(r, a, 0), index, k)
  {
    var r' := WriteByte(r, a, 0);
    forall i | 0 <= i < k
      ensures ReadByte(r', Place(r', index, i)) == 0
    {
      SamePlace(r, r', index, i);
    }
  }

  lemma SamePlace(r: Ring, r': Ring, index: Word, k: nat)
    requires r.capacity > 0 && r'.capacity == r.capacity && r'.slotSize == r.slotSize
    ensures Place(r', index, k) == Place(r, index, k)
  {
  }

  lemma ZeroExtends(r: Ring, p: Word, k: nat)
    requires r.capacity > 0 && ZeroAt(r, p, k)
    ensures ZeroAt(WriteByte(r, Place(r, p, k), 0), p, k + 1)
  {
    hide Place;
    var r' := WriteByte(r, Place(r, p, k), 0);
    ZeroWritten(r, Place(r, p, k), p, k);
    SamePlace(r, r', p, k);
  }

  /** The indices take no part in it. */
  lemma ZeroFrame(r: Ring, r': Ring, index: Word, k: nat)
    requires r.capacity > 0 && r'.capacity == r.capacity && r'.slotSize == r.slotSize && r'.bytes == r.bytes
    ensures ZeroAt(r', index, k) == ZeroAt(r, index, k)
  {
    forall i | 0 <= i < k
      ensures ReadByte(r', Place(r', index, i)) == ReadByte(r, Place(r, index, i))
    {
      SamePlace(r, r', index, i);
    }
  }

  // ----- producer -----

  lemma EmptyWrites(s: Sys, payload: Payload, endpoint: Endpoint)
    requires EmptyInv(s) && s.prod.PWriting? && s.prod.k < 4
    ensures var (s', e) := ProducerStep(s, payload, endpoint);
      EmptyInv(s') && FifoStep(Queue(s), s.ring.capacity, e, Queue(s'))
  {
    EmptyRecord();
    hide Record, Place, ZeroAt;
    var (r, p, k) := (s.ring, s.prod.p, s.prod.k);
    var s' := ProducerStep(s, payload, endpoint).0;
    assert s' == s.(ring := WriteByte(r, Place(r, p, k), 0), prod := PWriting([], p, k + 1));
    forall n | |s'.received| <= n < |s'.sent|
      ensures ZeroAt(s'.ring, n % 0x1_0000_0000_0000_0000, 4)
    {
      ZeroWritten(r, Place(r, p, k), n % 0x1_0000_0000_0000_0000, 4);
    }
    ZeroExtends(r, p, k);
  }

  lemma EmptyStores(s: Sys, payload: Payload, endpoint: Endpoint)
    requires EmptyInv(s) && s.prod.PWriting? && s.prod.k == 4
    ensures var (s', e) := ProducerStep(s, payload, endpoint);
      EmptyInv(s') && FifoStep(Queue(s), s.ring.capacity, e, Queue(s'))
  {
    EmptyRecord();
    hide Record, Place, ZeroAt, Next64;
    NextIs(|s.sent|);
    var s' := ProducerStep(s, payload, endpoint).0;
    assert s' == s.(ring := s.ring.(producer := Next64(s.prod.p)), prod := PIdle, sent := s.sent + [[]]);
    forall n | |s'.received| <= n < |s'.sent|
      ensures ZeroAt(s'.ring, n % 0x1_0000_0000_0000_0000, 4)
    {
      ZeroFrame(s.ring, s'.ring, n % 0x1_0000_0000_0000_0000, 4);
    }
  }

  lemma EmptyProduces(s: Sys, payload: Payload, endpoint: Endpoint)
    requires EmptyInv(s)
    ensures var (s', e) := ProducerStep(s, payload, endpoint);
      EmptyInv(s') && FifoStep(Queue(s), s.ring.capacity, e, Queue(s'))
  {
    if s.prod.PWriting? {
      if s.prod.k < 4 {
        EmptyWrites(s, payload, endpoint);
      } else {
        EmptyStores(s, payload, endpoint);
      }
    } else {
      WrapDiff(|s.sent|, |s.received|);
      hide WrapSub, Record, Place, ZeroAt, EmptyCons;
    }
  }

  // ----- consumer -----

  lemma EmptyReadsLen(s: Sys, endpoint: Endpoint)
    requires EmptyInv(s) && s.cons.CReadingLen?
    ensures var (s', e) := ConsumerStep(s, endpoint); EmptyInv(s') && FifoStep(Queue(s), s.ring.capacity, e, Queue(s'))
  {
    var got := s.cons.got;
    if |got| == 4 {
      ZeroPack(got);
      hide Pack, Place, ZeroAt, EmptyProd, EmptyCounts;
      var s' := ConsumerStep(s, endpoint).0;
      assert s' == s.(cons := CReading(s.cons.c, 0, []));
      CountsOnly(s, s'.cons);
      ProdOnly(s, s'.cons);
    } else {
      LengthByte(s, |got|);
      hide Pack, Place, ZeroAt, EmptyProd, EmptyCounts, ReadByte;
      var s' := ConsumerStep(s, endpoint).0;
      assert s' == s.(cons := CReadingLen(s.cons.c, got + [0]));
      CountsOnly(s, s'.cons);
      ProdOnly(s, s'.cons);
    }
  }

  lemma LengthByte(s: Sys, k: nat)
    requires EmptyInv(s) && |s.received| < |s.sent| && k < 4
    ensures ReadByte(s.ring, Place(s.ring, s.ring.consumer, k)) == 0
  {
    hide Place, ReadByte;
    assert ZeroAt(s.ring, |s.received| % 0x1_0000_0000_0000_0000, 4);
  }

  lemma CountsOnly(s: Sys, cons: Cons)
    requires EmptyCounts(s)
    ensures EmptyCounts(s.(cons := cons)) && s.ring.capacity > 0 && |s.received| <= |s.sent|
  {
  }

  lemma ProdOnly(s: Sys, cons: Cons)
    requires s.ring.capacity > 0 && EmptyProd(s)
    ensures EmptyProd(s.(cons := cons))
  {
    hide ZeroAt;
  }

  lemma EmptyTakes(s: Sys, endpoint: Endpoint)
    requires EmptyInv(s) && s.cons.CReading?
    ensures var (s', e) := ConsumerStep(s, endpoint); EmptyInv(s') && FifoStep(Queue(s), s.ring.capacity, e, Queue(s'))
  {
    hide Place, ZeroAt, Next64, ReadByte, Pack;
    NextIs(|s.received|);
    var s' := ConsumerStep(s, endpoint).0;
    assert s' == s.(ring := s.ring.(consumer := Next64(s.cons.c)), cons := CIdle, received := s.received + [[]]);
    forall n | |s'.received| <= n < |s'.sent|
      ensures ZeroAt(s'.ring, n % 0x1_0000_0000_0000_0000, 4)
    {
      ZeroFrame(s.ring, s'.ring, n % 0x1_0000_0000_0000_0000, 4);
    }
    if s.prod.PWriting? {
      ZeroFrame(s.ring, s'.ring, s.prod.p, s.prod.k);
    }
  }

  lemma EmptyConsumes(s: Sys, endpoint: Endpoint)
    requires EmptyInv(s)
    ensures var (s', e) := ConsumerStep(s, endpoint); EmptyInv(s') && FifoStep(Queue(s), s.ring.capacity, e, Queue(s'))
  {
    match s.cons {
      case CReadingLen(_, _) => EmptyReadsLen(s, endpoint);
      case CReading(_, _, _) => EmptyTakes(s, endpoint);
      case _ =>
        WrapDiff(|s.sent|, |s.received|);
        hide Record, Place, ZeroAt, Pack;
    }
  }

  // ----- runs -----

  lemma EmptyStep(s: Sys, m: Move)
    requires EmptyInv(s)
    ensures var (s', e) := Next(s, m); EmptyInv(s') && FifoStep(Queue(s), s.ring.capacity, e, Queue(s'))
  {
    hide EmptyInv, ProducerStep, ConsumerStep, FifoStep;
    match m {
      case Producer(payload, endpoint) => EmptyProduces(s, payload, endpoint);
      case Consumer(endpoint) => EmptyConsumes(s, endpoint);
    }
  }

  lemma EmptyOrder(s: Sys)
    requires EmptyInv(s)
    ensures |s.received| <= |s.sent|
  {
  }

  lemma {:induction false} EmptyRun(s: Sys, moves: seq<Move>)
    requires EmptyInv(s)
    ensures |s.received| <= |s.sent| && RunRefines(s, moves)
    decreases |moves|
  {
    hide Next, EmptyInv, FifoStep, CallStep;
    EmptyOrder(s);
    if moves != [] {
      CallSteps(s, moves[0]);
      EmptyStep(s, moves[0]);
      EmptyOrder(Next(s, moves[0]).0);
      EmptyRun(Next(s, moves[0]).0, moves[1..]);
    }
  }

  lemma EmptyStart(s: Sys)
    requires Fresh(s) && s.ring.capacity > 0 && s.ring.slotSize == 0
    ensures EmptyInv(s)
  {
  }
}
