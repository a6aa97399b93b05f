/** The ring in its mapped file: header layout, creation, opening, and the two calls
    when neither side is disturbed. */
module SharedRings {
  import opened MachineWords
  import opened LittleEndian
  import opened RingProtocol
  import opened RingProofs

  const RING_MAGIC := 0x434b_5247
  const RING_VERSION := 1

  datatype RingError = TooSmall | BadMagic | BadVersion | SizeOverflow | LengthMismatch

  // ----- header layout -----

  function Field(bytes: seq<Byte>, at: nat, n: nat): (w: nat)
    requires at + n <= |bytes|
    ensures n == 8 ==> w < 0x1_0000_0000_0000_0000
    ensures n == 4 ==> w < 0x1_0000_0000
  {
    Pow256Values();
    Pack(bytes[at..at + n])
  }

  function Splice(bytes: seq<Byte>, at: nat, data: seq<Byte>): (r: seq<Byte>)
    requires at + |data| <= |bytes|
    ensures |r| == |bytes|
    ensures forall i | 0 <= i < |bytes| :: r[i] == if at <= i < at + |data| then data[i - at] else bytes[i]
  {
    bytes[..at] + data + bytes[at + |data|..]
  }

  function Header(capacity: nat, slotSize: nat): (h: seq<Byte>)
    ensures |h| == HEADER
  {
    Unpack(RING_MAGIC, 4) + Unpack(RING_VERSION, 2) + Unpack(0, 2) + Unpack(capacity, 4) + Unpack(slotSize, 4)
      + Unpack(0, 8) + Unpack(0, 8)
  }

  /** The ring a mapping holds. */
  function Decode(bytes: seq<Byte>): (r: Ring)
    requires HEADER <= |bytes|
  {
    Ring(Field(bytes, 8, 4), Field(bytes, 12, 4), bytes, Field(bytes, 16, 8), Field(bytes, 24, 8))
  }

  /** What opening a mapping checks. */
  function Check(bytes: seq<Byte>): Option<RingError> {
    if |bytes| < HEADER then Some(TooSmall)
    else if Field(bytes, 0, 4) != RING_MAGIC then Some(BadMagic)
    else if Field(bytes, 4, 2) != RING_VERSION then Some(BadVersion)
    else
      var expected := TotalLen(Field(bytes, 8, 4), Field(bytes, 12, 4));
      if expected == None then Some(SizeOverflow)
      else if expected.value != |bytes| then Some(LengthMismatch)
      else None
  }

  lemma FieldSplice(bytes: seq<Byte>, at: nat, n: nat, w: nat)
    requires at + n <= |bytes| && w < Pow256(n)
    ensures Field(Splice(bytes, at, Unpack(w, n)), at, n) == w
  {
    hide Unpack, Pack;
    assert Splice(bytes, at, Unpack(w, n))[at..at + n] == Unpack(w, n);
    PackUnpack(w, n);
  }

  lemma FieldApart(bytes: seq<Byte>, at: nat, data: seq<Byte>, at': nat, n: nat)
    requires at + |data| <= |bytes| && at' + n <= |bytes| && (at' + n <= at || at + |data| <= at')
    ensures Field(Splice(bytes, at, data), at', n) == Field(bytes, at', n)
  {
    hide Pack;
    assert Splice(bytes, at, data)[at'..at' + n] == bytes[at'..at' + n];
  }

  lemma Parts(a: seq<Byte>, b: seq<Byte>, c: seq<Byte>, d: seq<Byte>, e: seq<Byte>, f: seq<Byte>, g: seq<Byte>,
              rest: seq<Byte>)
    requires |a| == 4 && |b| == 2 && |c| == 2 && |d| == 4 && |e| == 4 && |f| == 8 && |g| == 8
    ensures var all := a + b + c + d + e + f + g + rest;
      && all[0..4] == a && all[4..6] == b && all[8..12] == d && all[12..16] == e && all[16..24] == f && all[24..32] == g
  {
  }

  lemma HeaderFields(capacity: nat, slotSize: nat, rest: seq<Byte>)
    requires capacity < 0x1_0000_0000 && slotSize < 0x1_0000_0000
    ensures var made := Header(capacity, slotSize) + rest;
      && Field(made, 0, 4) == RING_MAGIC && Field(made, 4, 2) == RING_VERSION
      && Field(made, 8, 4) == capacity && Field(made, 12, 4) == slotSize
      && Field(made, 16, 8) == 0 && Field(made, 24, 8) == 0
  {
    hide Unpack, Pack, Pow256;
    Pow256Values();
    Parts(Unpack(RING_MAGIC, 4), Unpack(RING_VERSION, 2), Unpack(0, 2), Unpack(capacity, 4), Unpack(slotSize, 4),
      Unpack(0, 8), Unpack(0, 8), rest);
    PackUnpack(RING_MAGIC, 4);
    PackUnpack(RING_VERSION, 2);
    PackUnpack(capacity, 4);
    PackUnpack(slotSize, 4);
    PackUnpack(0, 8);
  }

  /** A mapping just created opens, as an empty ring of the geometry asked for. */
  lemma CreatedOpens(bytes: seq<Byte>, capacity: nat, slotSize: nat)
    requires capacity < 0x1_0000_0000 && slotSize < 0x1_0000_0000 && TotalLen(capacity, slotSize) == Some(|bytes|)
    ensures var made := Splice(bytes, 0, Header(capacity, slotSize));
      && HEADER <= |made| && Check(made) == None && Decode(made) == Ring(capacity, slotSize, made, 0, 0)
      && Fresh(Sys(Decode(made), PIdle, CIdle, [], []))
  {
    hide Header, Field, TotalLen;
    HeaderFields(capacity, slotSize, bytes[HEADER..]);
    assert Splice(bytes, 0, Header(capacity, slotSize)) == Header(capacity, slotSize) + bytes[HEADER..];
  }

  // ----- the format, byte by byte -----

  /** A mapping opens exactly if it starts with the magic and version 1, and is as long as
      header and slots of the geometry it names; and every field is where the format has
      it. */
  lemma LayoutExactly(bytes: seq<Byte>)
    ensures Check(bytes).None? <==>
      && 32 <= |bytes| < 0x1_0000_0000_0000_0000 && U32(bytes, 0) == 0x434b_5247 && U16(bytes, 4) == 1
      && |bytes| == 32 + U32(bytes, 8) * (4 + U32(bytes, 12))
    ensures |bytes| >= 32 ==>
      && Decode(bytes).capacity == U32(bytes, 8) && Decode(bytes).slotSize == U32(bytes, 12)
      && Decode(bytes).producer == U64(bytes, 16) && Decode(bytes).consumer == U64(bytes, 24)
  {
    hide Pack, U16, U32, U64;
    if |bytes| >= 32 {
      Packed32(bytes, 0);
      Packed16(bytes, 4);
      Packed32(bytes, 8);
      Packed32(bytes, 12);
      Packed64(bytes, 16);
      Packed64(bytes, 24);
    }
  }

  // ----- effect of the two calls on the bytes -----

  /** Storing an index changes that index and no other field or slot. */
  lemma IndexStored(bytes: seq<Byte>, at: nat, w: Word)
    requires HEADER <= |bytes| && (at == 16 || at == 24)
    ensures var (r, r') := (Decode(bytes), Decode(Splice(bytes, at, Unpack(w, 8))));
      && r'.capacity == r.capacity && r'.slotSize == r.slotSize && |r'.bytes| == |r.bytes|
      && r'.producer == (if at == 16 then w else r.producer) && r'.consumer == (if at == 24 then w else r.consumer)
      && forall a | HEADER <= a :: ReadByte(r', a) == ReadByte(r, a)
  {
    Pow256Values();
    var data := Unpack(w, 8);
    hide Unpack, Field, Pow256;
    FieldSplice(bytes, at, 8, w);
    FieldApart(bytes, at, data, 8, 4);
    FieldApart(bytes, at, data, 12, 4);
    if at == 16 {
      FieldApart(bytes, at, data, 24, 8);
    } else {
      FieldApart(bytes, at, data, 16, 8);
    }
  }

  /** Storing a record behind the header changes no field. */
  lemma RecordStored(bytes: seq<Byte>, at: nat, data: seq<Byte>)
    requires HEADER <= at && at + |data| <= |bytes|
    ensures Decode(Splice(bytes, at, data)) == Decode(bytes).(bytes := Splice(bytes, at, data))
  {
    hide Field;
    FieldApart(bytes, at, data, 8, 4);
    FieldApart(bytes, at, data, 12, 4);
    FieldApart(bytes, at, data, 16, 8);
    FieldApart(bytes, at, data, 24, 8);
  }

  /** What a slot holds depends on the bytes behind the header only. */
  lemma SlotSame(r: Ring, r': Ring, n: nat, record: seq<Byte>, k: nat)
    requires r.capacity > 0 && r'.capacity == r.capacity && r'.slotSize == r.slotSize
    requires forall a | HEADER <= a :: ReadByte(r', a) == ReadByte(r, a)
    ensures InSlot(r', n, record, k) == InSlot(r, n, record, k)
  {
    hide ReadByte;
  }

  /** A record stored in one slot is all there, and the other slots are as they were. */
  lemma SlotStored(bytes: seq<Byte>, r: Ring, slot: nat, record: seq<Byte>)
    requires r.bytes == bytes && TotalLen(r.capacity, r.slotSize) == Some(|bytes|)
    requires slot < r.capacity && |record| <= Stride(r.slotSize)
    ensures HEADER <= SlotStart(slot, r.slotSize) && SlotStart(slot, r.slotSize) + |record| <= |bytes|
    ensures var r' := r.(bytes := Splice(bytes, SlotStart(slot, r.slotSize), record));
      && (forall n: nat | n % r.capacity == slot :: InSlot(r', n, record, |record|))
      && (forall n: nat, other, k | n % r.capacity != slot && |other| <= Stride(r.slotSize) && InSlot(r, n, other, k) ::
            InSlot(r', n, other, k))
  {
    SlotsApart(r.capacity, r.slotSize, slot, r.capacity);
    var at := SlotStart(slot, r.slotSize);
    var r' := r.(bytes := Splice(bytes, at, record));
    hide Splice;
    forall n: nat, other, k | n % r.capacity != slot && |other| <= Stride(r.slotSize) && InSlot(r, n, other, k)
      ensures InSlot(r', n, other, k)
    {
      var x := n % r.capacity;
      if x < slot {
        SlotsApart(r.capacity, r.slotSize, x, slot);
      } else {
        SlotsApart(r.capacity, r.slotSize, slot, x);
      }
      SlotsApart(r.capacity, r.slotSize, x, r.capacity);
      hide SlotStart, TotalLen;
    }
    hide SlotStart, TotalLen;
  }

  ghost predicate InSomeSlot(capacity: nat, slotSize: nat, a: nat) {
    exists slot: nat :: slot < capacity && SlotStart(slot, slotSize) <= a < SlotStart(slot, slotSize) + Stride(slotSize)
  }

  /** The slot a byte of the slot region lies in. */
  lemma SlotOfByte(x: nat, s: nat, capacity: nat)
    requires s > 0 && x < capacity * s
    ensures x / s < capacity && x / s * s <= x < x / s * s + s
  {
    assert x == x / s * s + x % s;
    if capacity <= x / s {
      MulMono(capacity, x / s, s);
    }
  }

  lemma SlotHolding(capacity: nat, slotSize: nat, a: nat)
    requires HEADER <= a < HEADER + capacity * Stride(slotSize)
    ensures InSomeSlot(capacity, slotSize, a)
  {
    var stride := Stride(slotSize);
    SlotOfByte(a - HEADER, stride, capacity);
    hide Stride;
    var slot: nat := (a - HEADER) / stride;
    assert SlotStart(slot, slotSize) == HEADER + slot * stride;
    hide SlotStart;
    assert SlotStart(slot, slotSize) <= a < SlotStart(slot, slotSize) + Stride(slotSize);
  }

  lemma SlotInside(capacity: nat, slotSize: nat, a: nat)
    requires TotalLen(capacity, slotSize).Some? && InSomeSlot(capacity, slotSize, a)
    ensures HEADER <= a < TotalLen(capacity, slotSize).value
  {
    hide TotalLen, Stride, SlotStart;
    var slot: nat :| slot < capacity && SlotStart(slot, slotSize) <= a < SlotStart(slot, slotSize) + Stride(slotSize);
    SlotsApart(capacity, slotSize, slot, capacity);
  }

  lemma SlotsCover(capacity: nat, slotSize: nat, a: nat)
    requires TotalLen(capacity, slotSize).Some?
    ensures HEADER <= a < TotalLen(capacity, slotSize).value <==> InSomeSlot(capacity, slotSize, a)
  {
    hide TotalLen, Stride, InSomeSlot;
    if HEADER <= a < TotalLen(capacity, slotSize).value {
      SlotHolding(capacity, slotSize, a);
    } else if InSomeSlot(capacity, slotSize, a) {
      SlotInside(capacity, slotSize, a);
    }
  }

  /** A mapping that opens is its header followed by its slots, and nothing more. */
  lemma OpenedTiled(bytes: seq<Byte>, a: nat)
    requires Check(bytes) == None
    ensures a < |bytes| <==> a < HEADER || InSomeSlot(Decode(bytes).capacity, Decode(bytes).slotSize, a)
  {
    hide Field, InSomeSlot;
    SlotsCover(Decode(bytes).capacity, Decode(bytes).slotSize, a);
  }

  /** A mapping at rest, and what has gone through it. */
  ghost function View(bytes: seq<Byte>, sent: seq<Payload>, received: seq<Payload>): Sys
    requires HEADER <= |bytes|
  {
    Sys(Decode(bytes), PIdle, CIdle, sent, received)
  }

  ghost predicate Sound(bytes: seq<Byte>, sent: seq<Payload>, received: seq<Payload>) {
    HEADER <= |bytes| && Inv(View(bytes, sent, received)) && Coherent(View(bytes, sent, received))
  }

  /** Another send keeps the ring a FIFO queue. */
  ghost predicate CanGrow(capacity: nat, sent: seq<Payload>) {
    capacity > 0 ==> 0x1_0000_0000_0000_0000 % capacity == 0 || |sent| < 0x1_0000_0000_0000_0000
  }

  lemma SendStores(bytes: seq<Byte>, sent: seq<Payload>, received: seq<Payload>, payload: Payload)
    requires Sound(bytes, sent, received) && |payload| <= Decode(bytes).slotSize
    requires |sent| < |received| + Decode(bytes).capacity
    ensures var r := Decode(bytes); var at := SlotStart(r.producer % r.capacity, r.slotSize);
      HEADER <= at && at + 4 + |payload| <= |bytes|
    ensures var r := Decode(bytes); var at := SlotStart(r.producer % r.capacity, r.slotSize);
      CanGrow(r.capacity, sent) ==>
        Sound(Splice(Splice(bytes, at, Record(payload)), 16, Unpack(Next64(r.producer), 8)), sent + [payload], received)
  {
    hide Field, Splice, Unpack, Record, InSlot, SlotStart, TotalLen, Next64, ReadByte;
    var (r, n) := (Decode(bytes), |sent|);
    var at := SlotStart(r.producer % r.capacity, r.slotSize);
    SlotStored(bytes, r, r.producer % r.capacity, Record(payload));
    if CanGrow(r.capacity, sent) {
      SlotIs(n, r.capacity);
      NextIs(n);
      var b1 := Splice(bytes, at, Record(payload));
      RecordStored(bytes, at, Record(payload));
      IndexStored(b1, 16, Next64(r.producer));
      var b2 := Splice(b1, 16, Unpack(Next64(r.producer), 8));
      var (r1, r2, sent') := (Decode(b1), Decode(b2), sent + [payload]);
      forall m | |received| <= m < |sent'|
        ensures InSlot(r2, m, Record(sent'[m]), |Record(sent'[m])|)
      {
        if m < n {
          SlotsDiffer(m, n, r.capacity);
          assert InSlot(r, m, Record(sent[m]), |Record(sent[m])|);
          assert InSlot(r1, m, Record(sent[m]), |Record(sent[m])|);
        }
        SlotSame(r1, r2, m, Record(sent'[m]), |Record(sent'[m])|);
      }
    }
  }

  /** The two indices are equal exactly when nothing is queued. */
  lemma IndicesMeet(bytes: seq<Byte>, sent: seq<Payload>, received: seq<Payload>)
    requires Sound(bytes, sent, received)
    ensures HEADER <= |bytes| && |received| <= |sent|
    ensures Decode(bytes).consumer == Decode(bytes).producer <==> |received| == |sent|
  {
    hide Field, SlotStart, TotalLen, InSlot, Record;
    WrapDiff(|sent|, |received|);
  }

  /** The slot of the `n`-th packet while it is queued. */
  lemma QueuedSlot(bytes: seq<Byte>, sent: seq<Payload>, received: seq<Payload>, n: nat)
    requires Sound(bytes, sent, received) && |received| <= n < |sent|
    ensures var r := Decode(bytes);
      && r.capacity > 0
      && var at := SlotStart(SlotOf(n, r.capacity), r.slotSize); var packet := sent[n];
      && |packet| <= r.slotSize && at + 4 + |packet| <= |bytes| && Field(bytes, at, 4) == |packet|
      && bytes[at + 4..at + 4 + |packet|] == packet
  {
    hide SlotStart, InSlot, Record, Unpack, Pack;
    var (r, packet) := (Decode(bytes), sent[n]);
    assert InSlot(r, n, Record(packet), |Record(packet)|);
    SlotIs(n, r.capacity);
    SlotsApart(r.capacity, r.slotSize, n % r.capacity, r.capacity);
    SlotBytes(r, n, packet);
    Pow256Values();
    PackUnpack(|packet|, 4);
  }

  /** A packet laid out at byte `at`: its length, then its bytes. */
  predicate PacketAt(bytes: seq<Byte>, at: nat, packet: Payload) {
    at + 4 + |packet| <= |bytes| && U32(bytes, at) == |packet| && bytes[at + 4..at + 4 + |packet|] == packet
  }

  /** Where the `n`-th packet is while it is queued. */
  lemma QueuedAt(bytes: seq<Byte>, sent: seq<Payload>, received: seq<Payload>, n: nat, slot: nat, at: nat)
    requires Sound(bytes, sent, received) && |received| <= n < |sent|
    requires Decode(bytes).capacity > 0 ==> slot == n % 0x1_0000_0000_0000_0000 % Decode(bytes).capacity
    requires at == 32 + slot * (4 + Decode(bytes).slotSize)
    ensures |sent[n]| <= Decode(bytes).slotSize && PacketAt(bytes, at, sent[n])
  {
    hide Sound, Decode, U32, Pack;
    QueuedSlot(bytes, sent, received, n);
    Packed32(bytes, at);
  }

  /** The packet next to be received. */
  lemma RecvReads(bytes: seq<Byte>, sent: seq<Payload>, received: seq<Payload>)
    requires Sound(bytes, sent, received) && |received| < |sent|
    ensures var r := Decode(bytes);
      && r.capacity > 0
      && var at := SlotStart(r.consumer % r.capacity, r.slotSize); var packet := sent[|received|];
      && |packet| <= r.slotSize && at + 4 + |packet| <= |bytes| && Field(bytes, at, 4) == |packet|
      && bytes[at + 4..at + 4 + |packet|] == packet
  {
    hide SlotStart, Field;
    QueuedSlot(bytes, sent, received, |received|);
  }

  lemma SlotBytes(r: Ring, n: nat, packet: Payload)
    requires r.capacity > 0 && InSlot(r, n, Record(packet), |Record(packet)|)
    requires SlotStart(n % r.capacity, r.slotSize) + 4 + |packet| <= |r.bytes|
    ensures var at := SlotStart(n % r.capacity, r.slotSize);
      r.bytes[at..at + 4] == Unpack(|packet|, 4) && r.bytes[at + 4..at + 4 + |packet|] == packet
  {
    hide SlotStart, Unpack;
    var at := SlotStart(n % r.capacity, r.slotSize);
    var record := Record(packet);
    var slice := r.bytes[at..at + |record|];
    forall i | 0 <= i < |record|
      ensures slice[i] == record[i]
    {
      assert ReadByte(r, at + i) == record[i];
    }
    assert slice == record;
    assert r.bytes[at..at + 4] == slice[..4] && r.bytes[at + 4..at + |record|] == slice[4..];
  }

  lemma RecvStores(bytes: seq<Byte>, sent: seq<Payload>, received: seq<Payload>)
    requires Sound(bytes, sent, received) && |received| < |sent|
    ensures Sound(Splice(bytes, 24, Unpack(Next64(Decode(bytes).consumer), 8)), sent, received + [sent[|received|]])
  {
    hide Field, Splice, Unpack, Record, InSlot, SlotStart, TotalLen, Next64, ReadByte;
    var (r, n) := (Decode(bytes), |received|);
    NextIs(n);
    IndexStored(bytes, 24, Next64(r.consumer));
    var r2 := Decode(Splice(bytes, 24, Unpack(Next64(r.consumer), 8)));
    assert sent[..n + 1] == sent[..n] + [sent[n]];
    forall m | n + 1 <= m < |sent|
      ensures InSlot(r2, m, Record(sent[m]), |Record(sent[m])|)
    {
      assert InSlot(r, m, Record(sent[m]), |Record(sent[m])|);
      SlotSame(r, r2, m, Record(sent[m]), |Record(sent[m])|);
    }
  }

  // ----- the calls -----

  datatype Received = Packet(payload: Payload) | Nothing | Failed(status: Status)

  /** What a send to a queue answers. */
  function SendAnswer(q: seq<Payload>, capacity: nat, slotSize: nat, endpoint: Endpoint, payload: Payload): Status {
    if endpoint.Status() != StatusOk then endpoint.Status()
    else if |payload| > slotSize then InvalidObject
    else if |q| == capacity then QueueFull
    else StatusOk
  }

  /** What a receive from a queue answers. */
  function RecvAnswer(q: seq<Payload>, endpoint: Endpoint): Received {
    if endpoint.Status() != StatusOk then Failed(endpoint.Status())
    else if q == [] then Nothing
    else Packet(q[0])
  }

  method Copy(mem: array<Byte>, at: nat, data: seq<Byte>)
    requires at + |data| <= mem.Length
    modifies mem
    ensures mem[..] == Splice(old(mem[..]), at, data)
  {
    forall i | 0 <= i < |data| {
      mem[at + i] := data[i];
    }
  }

  class SharedRing {
    const mem: array<Byte>
    ghost var sent: seq<Payload>
    ghost var received: seq<Payload>

    ghost predicate Valid()
      reads this, mem
    {
      Sound(mem[..], sent, received)
    }

    ghost function Contents(): seq<Payload>
      reads this
    {
      if |received| <= |sent| then sent[|received|..] else []
    }

    function Load(at: nat, n: nat): nat
      requires at + n <= mem.Length
      reads mem
    {
      Field(mem[..], at, n)
    }

    /** A new mapping of the right length, its slots whatever they happen to be. */
    constructor (capacity: nat, slotSize: nat)
      requires capacity < 0x1_0000_0000 && slotSize < 0x1_0000_0000 && TotalLen(capacity, slotSize).Some?
      ensures Valid() && fresh(mem) && Contents() == [] && Check(mem[..]) == None
      ensures Decode(mem[..]).capacity == capacity && Decode(mem[..]).slotSize == slotSize
    {
      hide Field, Header, Fresh, Inv, Coherent;
      mem := new Byte[TotalLen(capacity, slotSize).value];
      sent, received := [], [];
      new;
      CreatedOpens(mem[..], capacity, slotSize);
      Copy(mem, 0, Header(capacity, slotSize));
      FreshOk(View(mem[..], [], []));
    }

    /** A ring of the geometry asked for, unless its length does not fit 64 bits. */
    static method Create(capacity: HalfWord, slotSize: HalfWord) returns (r: Option<SharedRing>)
      ensures r.None? <==> HEADER + capacity * Stride(slotSize) >= 0x1_0000_0000_0000_0000
      ensures r.Some? ==>
        fresh(r.value) && fresh(r.value.mem) && r.value.Valid() && r.value.Contents() == []
        && Check(r.value.mem[..]) == None
      ensures r.Some? ==> Decode(r.value.mem[..]).capacity == capacity && Decode(r.value.mem[..]).slotSize == slotSize
    {
      hide Field, Check, Inv, Coherent, Sound;
      if TotalLen(capacity, slotSize).None? {
        return None;
      }
      var ring := new SharedRing(capacity, slotSize);
      r := Some(ring);
    }

    method Send(endpoint: Endpoint, payload: Payload) returns (status: Status)
      requires Valid()
      modifies this`sent, mem
      ensures var r := Decode(old(mem[..]));
        status == SendAnswer(old(Contents()), r.capacity, r.slotSize, endpoint, payload)
      ensures status != StatusOk ==> Valid() && mem[..] == old(mem[..]) && Contents() == old(Contents())
      ensures status == StatusOk ==> sent == old(sent) + [payload] && Contents() == old(Contents()) + [payload]
      ensures CanGrow(Decode(old(mem[..])).capacity, old(sent)) ==> Valid()
    {
      hide Field, SlotStart, TotalLen, InSlot, Record, Unpack, Splice, WrapSub, Next64;
      ghost var bytes := mem[..];
      WrapDiff(|sent|, |received|);
      if endpoint.Status() != StatusOk {
        return endpoint.Status();
      }
      var capacity, slotSize := Load(8, 4), Load(12, 4);
      if |payload| > slotSize {
        return InvalidObject;
      }
      var producer, consumer := Load(16, 8), Load(24, 8);
      if WrapSub(producer, consumer) >= capacity {
        return QueueFull;
      }
      SendStores(bytes, sent, received, payload);
      hide Sound;
      Copy(mem, SlotStart(producer % capacity, slotSize), Record(payload));
      Copy(mem, 16, Unpack(Next64(producer), 8));
      sent := sent + [payload];
      return StatusOk;
    }

    method Recv(endpoint: Endpoint) returns (answer: Received)
      requires Valid()
      modifies this`received, mem
      ensures Valid() && answer == RecvAnswer(old(Contents()), endpoint)
      ensures answer.Packet? ==>
        received == old(received) + [answer.payload] && old(Contents()) == [answer.payload] + Contents()
      ensures !answer.Packet? ==> mem[..] == old(mem[..]) && Contents() == old(Contents())
    {
      hide Field, SlotStart, TotalLen, InSlot, Record, Unpack, Splice, Next64, Sound;
      ghost var bytes := mem[..];
      IndicesMeet(bytes, sent, received);
      if endpoint.Status() != StatusOk {
        return Failed(endpoint.Status());
      }
      var consumer, producer := Load(24, 8), Load(16, 8);
      if consumer == producer {
        return Nothing;
      }
      RecvReads(bytes, sent, received);
      RecvStores(bytes, sent, received);
      var at := SlotStart(consumer % Load(8, 4), Load(12, 4));
      var len := Load(at, 4);
      if len > Load(12, 4) {
        return Failed(InvalidObject);
      }
      var payload := mem[at + 4..at + 4 + len];
      assert payload == bytes[at + 4..at + 4 + len];
      Copy(mem, 24, Unpack(Next64(consumer), 8));
      received := received + [payload];
      return Packet(payload);
    }
  }
}
