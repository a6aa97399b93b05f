/** Every interleaving of the ring's two sides refines a bounded FIFO queue. */
module RingProofs {
  import opened MachineWords
  import opened LittleEndian
  import opened RingProtocol
  import Arithmetic

  /** The first 2^64 sends, counting one in progress, or a capacity that divides 2^64. */
  ghost predicate Coherent(s: Sys) {
    || s.ring.capacity == 0
    || 0x1_0000_0000_0000_0000 % s.ring.capacity == 0
    || |s.sent| + (if s.prod.PWriting? then 1 else 0) <= 0x1_0000_0000_0000_0000
  }

  /** Slot of the `n`-th packet. */
  function SlotOf(n: nat, capacity: nat): nat
    requires capacity > 0
  {
    n % 0x1_0000_0000_0000_0000 % capacity
  }

  lemma SlotIs(n: nat, capacity: nat)
    requires capacity > 0 && (0x1_0000_0000_0000_0000 % capacity == 0 || n < 0x1_0000_0000_0000_0000)
    ensures SlotOf(n, capacity) == n % capacity
  {
    if n >= 0x1_0000_0000_0000_0000 {
      var m := 0x1_0000_0000_0000_0000;
      var q, r, d := n / m, n % m, m / capacity;
      assert m == d * capacity;
      assert n == (q * d + r / capacity) * capacity + r % capacity;
      Arithmetic.Quotient(n, capacity, q * d + r / capacity, r % capacity);
    }
  }

  /** Two packets less than a capacity apart are in different slots. */
  lemma SlotsDiffer(a: nat, b: nat, capacity: nat)
    requires capacity > 0 && a < b < a + capacity
    ensures a % capacity != b % capacity
  {
    var qa, qb, ra, rb := a / capacity, b / capacity, a % capacity, b % capacity;
    assert a == qa * capacity + ra && b == qb * capacity + rb;
    Gap(qa, qb, ra, rb, capacity);
  }

  lemma Gap(qa: int, qb: int, ra: int, rb: int, d: int)
    requires d > 0 && 0 < (qb * d + rb) - (qa * d + ra) < d
    ensures ra != rb
  {
    var k := qb - qa;
    assert (qb * d + rb) - (qa * d + ra) == k * d + rb - ra;
    if k >= 1 {
      Arithmetic.AtLeast(k, d);
    } else if k <= -1 {
      Arithmetic.AtLeast(-k, d);
      assert -k * d == -(k * d);
    }
  }

  /** The first `k` bytes of packet `n`'s slot are the first `k` of `record`. */
  ghost predicate InSlot(r: Ring, n: nat, record: seq<Byte>, k: nat)
    requires r.capacity > 0
  {
    k <= |record| && forall i | 0 <= i < k :: ReadByte(r, SlotStart(n % r.capacity, r.slotSize) + i) == record[i]
  }

  ghost predicate IndicesOk(s: Sys) {
    var (p, c) := (|s.sent|, |s.received|);
    && c <= p <= c + s.ring.capacity
    && s.ring.producer == p % 0x1_0000_0000_0000_0000 && s.ring.consumer == c % 0x1_0000_0000_0000_0000
    && s.ring.capacity < 0x1_0000_0000 && s.ring.slotSize < 0x1_0000_0000
    && TotalLen(s.ring.capacity, s.ring.slotSize) == Some(|s.ring.bytes|)
    && (forall n | 0 <= n < p :: |s.sent[n]| <= s.ring.slotSize)
    && s.received == s.sent[..c]
  }

  /** Every packet in flight is intact in its slot. */
  ghost predicate QueueOk(s: Sys) {
    forall n | |s.received| <= n < |s.sent| ::
      s.ring.capacity > 0 && InSlot(s.ring, n, Record(s.sent[n]), |Record(s.sent[n])|)
  }

  ghost predicate ProdOk(s: Sys) {
    match s.prod
    case PIdle => true
    case PStarted(pl) => |pl| <= s.ring.slotSize
    case PHaveProducer(pl, p) => |pl| <= s.ring.slotSize && p == s.ring.producer
    case PWriting(pl, p, k) =>
      && |pl| <= s.ring.slotSize && p == s.ring.producer
      && s.ring.capacity > 0 && |s.sent| < |s.received| + s.ring.capacity
      && InSlot(s.ring, |s.sent|, Record(pl), k)
  }

  ghost predicate ConsOk(s: Sys) {
    match s.cons
    case CIdle => true
    case CStarted => true
    case CHaveConsumer(c) => c == s.ring.consumer
    case CReadingLen(c, got) =>
      && c == s.ring.consumer && s.ring.capacity > 0 && |s.received| < |s.sent|
      && |got| <= 4 && got == Unpack(|s.sent[|s.received|]|, 4)[..|got|]
    case CReading(c, len, got) =>
      && c == s.ring.consumer && s.ring.capacity > 0 && |s.received| < |s.sent|
      && len == |s.sent[|s.received|]| && |got| <= len && got == s.sent[|s.received|][..|got|]
  }

  ghost predicate Inv(s: Sys) {
    IndicesOk(s) && QueueOk(s) && ProdOk(s) && ConsOk(s)
  }

  lemma FreshOk(s: Sys)
    requires Fresh(s)
    ensures Inv(s) && Coherent(s)
  {
  }

  /** The queue the ring stands for. */
  function Queue(s: Sys): seq<Payload>
    requires |s.received| <= |s.sent|
  {
    s.sent[|s.received|..]
  }

  /** One step of a bounded FIFO queue, with its answer. */
  ghost predicate FifoStep(q: seq<Payload>, capacity: nat, e: Event, q': seq<Payload>) {
    match e
    case SendOk(payload) => |q| < capacity && q' == q + [payload]
    case RecvSome(payload) => q != [] && payload == q[0] && q' == q[1..]
    case SendFails(QueueFull) => |q| == capacity && q' == q
    case RecvNone => q == [] && q' == q
    case RecvFails(InvalidObject) => false
    case DividesByZero => false
    case _ => q' == q
  }

  // ----- index arithmetic -----

  lemma WrapDiff(p: nat, c: nat)
    requires c <= p < c + 0x1_0000_0000_0000_0000
    ensures WrapSub(p % 0x1_0000_0000_0000_0000, c % 0x1_0000_0000_0000_0000) == p - c
    ensures p % 0x1_0000_0000_0000_0000 == c % 0x1_0000_0000_0000_0000 <==> p == c
  {
    var m := 0x1_0000_0000_0000_0000;
    var q := c / m - p / m;
    assert p % m - c % m == q * m + (p - c);
    Arithmetic.Quotient(p % m - c % m, m, q, p - c);
  }

  lemma NextIs(n: nat)
    ensures Next64(n % 0x1_0000_0000_0000_0000) == (n + 1) % 0x1_0000_0000_0000_0000
  {
    var m := 0x1_0000_0000_0000_0000;
    var q, r := n / m, n % m;
    if r + 1 < m {
      Arithmetic.Quotient(n + 1, m, q, r + 1);
    } else {
      Arithmetic.Quotient(n + 1, m, q + 1, 0);
    }
  }

  // ----- one byte written -----

  /** A byte written to one slot leaves every other slot alone. */
  lemma OtherSlot(r: Ring, a: nat, b: nat, k: nat, byte: Byte, record: seq<Byte>, j: nat)
    requires TotalLen(r.capacity, r.slotSize) == Some(|r.bytes|) && r.capacity > 0
    requires a % r.capacity != b % r.capacity && k < Stride(r.slotSize) && |record| <= Stride(r.slotSize)
    requires InSlot(r, b, record, j)
    ensures InSlot(WriteByte(r, SlotStart(a % r.capacity, r.slotSize) + k, byte), b, record, j)
  {
    var x, y := a % r.capacity, b % r.capacity;
    if x < y {
      SlotsApart(r.capacity, r.slotSize, x, y);
    } else {
      SlotsApart(r.capacity, r.slotSize, y, x);
    }
    hide SlotStart, TotalLen;
  }

  /** The next byte of a record written to its slot. */
  lemma SameSlot(r: Ring, n: nat, record: seq<Byte>, k: nat)
    requires TotalLen(r.capacity, r.slotSize) == Some(|r.bytes|) && r.capacity > 0
    requires k < |record| <= Stride(r.slotSize) && InSlot(r, n, record, k)
    ensures InSlot(WriteByte(r, SlotStart(n % r.capacity, r.slotSize) + k, record[k]), n, record, k + 1)
  {
    SlotsApart(r.capacity, r.slotSize, n % r.capacity, r.capacity);
    hide SlotStart, TotalLen;
  }

  // ----- producer -----

  lemma WritingOk(s: Sys, payload: Payload, endpoint: Endpoint)
    requires Inv(s) && Coherent(s) && s.prod.PWriting? && s.prod.k < |Record(s.prod.payload)|
    ensures Inv(ProducerStep(s, payload, endpoint).0)
  {
    var s' := ProducerStep(s, payload, endpoint).0;
    var (pl, k, n, r) := (s.prod.payload, s.prod.k, |s.sent|, s.ring);
    SlotIs(n, r.capacity);
    assert s'.ring == WriteByte(r, SlotStart(n % r.capacity, r.slotSize) + k, Record(pl)[k]);
    hide SlotStart, TotalLen, SlotOf, Record, InSlot;
    SameSlot(r, n, Record(pl), k);
    forall m | |s'.received| <= m < |s'.sent|
      ensures InSlot(s'.ring, m, Record(s'.sent[m]), |Record(s'.sent[m])|)
    {
      SlotsDiffer(m, n, r.capacity);
      OtherSlot(r, n, m, k, Record(pl)[k], Record(s.sent[m]), |Record(s.sent[m])|);
    }
  }

  lemma StoreOk(s: Sys, payload: Payload, endpoint: Endpoint)
    requires Inv(s) && s.prod.PWriting? && s.prod.k == |Record(s.prod.payload)|
    ensures Inv(ProducerStep(s, payload, endpoint).0)
  {
    hide SlotStart, TotalLen, Record, InSlot, Next64, Unpack;
    NextIs(|s.sent|);
    var s' := ProducerStep(s, payload, endpoint).0;
    forall m | |s'.received| <= m < |s'.sent|
      ensures InSlot(s'.ring, m, Record(s'.sent[m]), |Record(s'.sent[m])|)
    {
      SlotFrame(s.ring, s'.ring, m, Record(s'.sent[m]), |Record(s'.sent[m])|);
    }
  }

  /** The indices take no part in what a slot holds. */
  lemma SlotFrame(r: Ring, r': Ring, n: nat, record: seq<Byte>, k: nat)
    requires r.capacity > 0 && r'.capacity == r.capacity && r'.slotSize == r.slotSize && r'.bytes == r.bytes
    ensures InSlot(r', n, record, k) == InSlot(r, n, record, k)
  {
  }

  lemma ProducerKeeps(s: Sys, payload: Payload, endpoint: Endpoint)
    requires Inv(s) && Coherent(s)
    ensures Inv(ProducerStep(s, payload, endpoint).0)
  {
    if s.prod.PWriting? {
      if s.prod.k < |Record(s.prod.payload)| {
        WritingOk(s, payload, endpoint);
      } else {
        StoreOk(s, payload, endpoint);
      }
    } else {
      WrapDiff(|s.sent|, |s.received|);
      hide SlotStart, TotalLen, Record, WrapSub, Unpack;
    }
  }

  // ----- consumer -----

  /** The packet at the head of the queue, byte by byte. */
  lemma HeadByte(s: Sys, k: nat)
    requires Inv(s) && Coherent(s) && |s.received| < |s.sent| && s.ring.capacity > 0
    requires k < |Record(s.sent[|s.received|])|
    ensures ReadByte(s.ring, Place(s.ring, s.ring.consumer, k)) == Record(s.sent[|s.received|])[k]
  {
    SlotIs(|s.received|, s.ring.capacity);
    hide SlotStart, TotalLen, Record, Unpack;
    assert InSlot(s.ring, |s.received|, Record(s.sent[|s.received|]), |Record(s.sent[|s.received|])|);
  }

  lemma LenReadOk(s: Sys, endpoint: Endpoint)
    requires Inv(s) && Coherent(s) && s.cons.CReadingLen?
    ensures Inv(ConsumerStep(s, endpoint).0) && ConsumerStep(s, endpoint).1 == Silent
  {
    var n, got := |s.received|, s.cons.got;
    var whole := Unpack(|s.sent[n]|, 4);
    if |got| < 4 {
      HeadByte(s, |got|);
      hide SlotStart, TotalLen, Unpack, Place, ReadByte, InSlot;
      assert whole[..|got| + 1] == whole[..|got|] + [whole[|got|]];
    } else {
      Pow256Values();
      PackUnpack(|s.sent[n]|, 4);
      hide SlotStart, TotalLen, Unpack, InSlot, Pack;
      assert got == whole;
    }
  }

  lemma DataReadOk(s: Sys, endpoint: Endpoint)
    requires Inv(s) && Coherent(s) && s.cons.CReading? && |s.cons.got| < s.cons.len
    ensures Inv(ConsumerStep(s, endpoint).0)
  {
    var n, got := |s.received|, s.cons.got;
    var whole := s.sent[n];
    HeadByte(s, 4 + |got|);
    hide SlotStart, TotalLen, Unpack, Place, ReadByte, InSlot;
    assert Record(whole)[4 + |got|] == whole[|got|];
    assert whole[..|got| + 1] == whole[..|got|] + [whole[|got|]];
  }

  lemma TakeOk(s: Sys, endpoint: Endpoint)
    requires Inv(s) && s.cons.CReading? && |s.cons.got| == s.cons.len
    ensures Inv(ConsumerStep(s, endpoint).0)
  {
    hide SlotStart, TotalLen, Record, InSlot, Next64, Unpack;
    var s' := ConsumerStep(s, endpoint).0;
    var n := |s.received|;
    NextIs(n);
    assert s.cons.got == s.sent[n];
    assert s.sent[..n + 1] == s.sent[..n] + [s.sent[n]];
    forall m | |s'.received| <= m < |s'.sent|
      ensures InSlot(s'.ring, m, Record(s'.sent[m]), |Record(s'.sent[m])|)
    {
      SlotFrame(s.ring, s'.ring, m, Record(s'.sent[m]), |Record(s'.sent[m])|);
    }
    if s'.prod.PWriting? {
      SlotFrame(s.ring, s'.ring, |s.sent|, Record(s.prod.payload), s.prod.k);
    }
  }

  lemma ConsumerKeeps(s: Sys, endpoint: Endpoint)
    requires Inv(s) && Coherent(s)
    ensures Inv(ConsumerStep(s, endpoint).0)
  {
    match s.cons {
      case CReadingLen(_, _) => LenReadOk(s, endpoint);
      case CReading(_, len, got) =>
        if |got| < len {
          DataReadOk(s, endpoint);
        } else {
          TakeOk(s, endpoint);
        }
      case _ =>
        WrapDiff(|s.sent|, |s.received|);
        hide SlotStart, TotalLen, Record, Unpack;
    }
  }
}
