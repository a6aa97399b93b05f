/** The single-producer single-consumer shared ring, split into its individual
    loads, byte accesses and index stores. A run is any interleaving of the two. */
module RingProtocol {
  import opened MachineWords
  import opened LittleEndian

  type Payload = seq<Byte>

  // ----- geometry -----

  const HEADER := 32

  function Stride(slotSize: nat): nat { 4 + slotSize }

  /** Length of the mapping, unless it does not fit a 64-bit size. */
  function TotalLen(capacity: nat, slotSize: nat): (r: Option<nat>)
    ensures r.None? <==> HEADER + capacity * Stride(slotSize) >= 0x1_0000_0000_0000_0000
    ensures r.Some? ==> HEADER <= r.value == HEADER + capacity * Stride(slotSize) < 0x1_0000_0000_0000_0000
  {
    MulMono(0, capacity, Stride(slotSize));
    if capacity * Stride(slotSize) >= 0x1_0000_0000_0000_0000 then None
    else if HEADER + capacity * Stride(slotSize) >= 0x1_0000_0000_0000_0000 then None
    else Some(HEADER + capacity * Stride(slotSize))
  }

  function SlotStart(slot: nat, slotSize: nat): nat { HEADER + slot * Stride(slotSize) }

  lemma MulMono(a: nat, b: nat, s: nat)
    requires a <= b
    ensures a * s <= b * s
  {
  }

  /** Slots lie behind the header, inside the mapping, and do not overlap. */
  lemma SlotsApart(capacity: nat, slotSize: nat, i: nat, j: nat)
    requires TotalLen(capacity, slotSize).Some? && i < j <= capacity
    ensures HEADER <= SlotStart(i, slotSize)
    ensures SlotStart(i, slotSize) + Stride(slotSize) <= SlotStart(j, slotSize) <= TotalLen(capacity, slotSize).value
  {
    var s := Stride(slotSize);
    MulMono(i + 1, j, s);
    MulMono(j, capacity, s);
    assert (i + 1) * s == i * s + s;
  }

  // ----- state -----

  datatype Status = StatusOk | Revoked | PeerDown | InvalidObject | QueueFull

  /** What a side has been told about its capability and its peer. */
  datatype Endpoint = Endpoint(revoked: bool, peerDown: bool) {
    function Status(): Status {
      if peerDown then PeerDown else if revoked then Revoked else StatusOk
    }
  }

  /** The mapped file: its geometry, its bytes and its two atomic indices. */
  datatype Ring = Ring(capacity: nat, slotSize: nat, bytes: seq<Byte>, producer: Word, consumer: Word)

  datatype Prod =
    | PIdle
    | PStarted(payload: Payload)
    | PHaveProducer(payload: Payload, p: Word)
    | PWriting(payload: Payload, p: Word, k: nat)

  datatype Cons =
    | CIdle
    | CStarted
    | CHaveConsumer(c: Word)
    | CReadingLen(c: Word, got: seq<Byte>)
    | CReading(c: Word, len: nat, got: seq<Byte>)

  /** The ring, where each side is in its code, and what has been sent and received. */
  datatype Sys = Sys(ring: Ring, prod: Prod, cons: Cons, sent: seq<Payload>, received: seq<Payload>)

  /** What a step returns to its caller, if anything. */
  datatype Event =
    | Silent
    | SendOk(payload: Payload)
    | SendFails(status: Status)
    | RecvSome(payload: Payload)
    | RecvNone
    | RecvFails(status: Status)
    | DividesByZero

  /** Who moves next. An idle side starts a call under the given endpoint. */
  datatype Move = Producer(payload: Payload, endpoint: Endpoint) | Consumer(endpoint: Endpoint)

  /** A packet as laid out in a slot: its length, then its bytes. */
  function Record(payload: Payload): (r: seq<Byte>)
    ensures |r| == 4 + |payload|
  {
    Unpack(|payload|, 4) + payload
  }

  function WrapSub(a: Word, b: Word): Word {
    (a - b) % 0x1_0000_0000_0000_0000
  }

  function Next64(a: Word): Word {
    (a + 1) % 0x1_0000_0000_0000_0000
  }

  /** Where byte `k` of the slot of index `index` is. */
  function Place(r: Ring, index: Word, k: nat): nat
    requires r.capacity > 0
  {
    SlotStart(index % r.capacity, r.slotSize) + k
  }

  function ReadByte(r: Ring, a: nat): Byte {
    if a < |r.bytes| then r.bytes[a] else 0
  }

  function WriteByte(r: Ring, a: nat, b: Byte): Ring {
    if a < |r.bytes| then r.(bytes := r.bytes[a := b]) else r
  }

  // ----- steps -----

  function ProducerStep(s: Sys, payload: Payload, endpoint: Endpoint): (Sys, Event) {
    match s.prod
    case PIdle =>
      if endpoint.Status() != StatusOk then (s, SendFails(endpoint.Status()))
      else if |payload| > s.ring.slotSize then (s, SendFails(InvalidObject))
      else (s.(prod := PStarted(payload)), Silent)
    case PStarted(pl) => (s.(prod := PHaveProducer(pl, s.ring.producer)), Silent)
    case PHaveProducer(pl, p) =>
      if WrapSub(p, s.ring.consumer) >= s.ring.capacity then (s.(prod := PIdle), SendFails(QueueFull))
      else if s.ring.capacity == 0 then (s, DividesByZero)
      else (s.(prod := PWriting(pl, p, 0)), Silent)
    case PWriting(pl, p, k) =>
      if k < |Record(pl)| && s.ring.capacity > 0 then
        (s.(ring := WriteByte(s.ring, Place(s.ring, p, k), Record(pl)[k]), prod := PWriting(pl, p, k + 1)), Silent)
      else (s.(ring := s.ring.(producer := Next64(p)), prod := PIdle, sent := s.sent + [pl]), SendOk(pl))
  }

  function ConsumerStep(s: Sys, endpoint: Endpoint): (Sys, Event) {
    match s.cons
    case CIdle =>
      if endpoint.Status() != StatusOk then (s, RecvFails(endpoint.Status()))
      else (s.(cons := CStarted), Silent)
    case CStarted => (s.(cons := CHaveConsumer(s.ring.consumer)), Silent)
    case CHaveConsumer(c) =>
      if c == s.ring.producer then (s.(cons := CIdle), RecvNone)
      else if s.ring.capacity == 0 then (s, DividesByZero)
      else (s.(cons := CReadingLen(c, [])), Silent)
    case CReadingLen(c, got) =>
      if |got| < 4 && s.ring.capacity > 0 then
        (s.(cons := CReadingLen(c, got + [ReadByte(s.ring, Place(s.ring, c, |got|))])), Silent)
      else if Pack(got) > s.ring.slotSize then (s.(cons := CIdle), RecvFails(InvalidObject))
      else (s.(cons := CReading(c, Pack(got), [])), Silent)
    case CReading(c, len, got) =>
      if |got| < len && s.ring.capacity > 0 then
        (s.(cons := CReading(c, len, got + [ReadByte(s.ring, Place(s.ring, c, 4 + |got|))])), Silent)
      else (s.(ring := s.ring.(consumer := Next64(c)), cons := CIdle, received := s.received + [got]), RecvSome(got))
  }

  function Next(s: Sys, m: Move): (Sys, Event) {
    match m
    case Producer(payload, endpoint) => ProducerStep(s, payload, endpoint)
    case Consumer(endpoint) => ConsumerStep(s, endpoint)
  }

  function Exec(s: Sys, moves: seq<Move>): Sys
    decreases |moves|
  {
    if moves == [] then s else Exec(Next(s, moves[0]).0, moves[1..])
  }

  /** A ring just created, whatever its bytes. */
  ghost predicate Fresh(s: Sys) {
    && s.ring.capacity < 0x1_0000_0000 && s.ring.slotSize < 0x1_0000_0000
    && TotalLen(s.ring.capacity, s.ring.slotSize) == Some(|s.ring.bytes|)
    && s.ring.producer == 0 && s.ring.consumer == 0
    && s.prod == PIdle && s.cons == CIdle && s.sent == [] && s.received == []
  }
}
