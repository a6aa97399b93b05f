/** Byte access to physical memory (little-endian words), zeroing and copying. */
module PhysBytes {
  import opened MachineWords
  import opened LittleEndian

  /** The byte at a physical address. */
  function ByteAt(m: Mem, pa: nat): Byte {
    Unpack(At(m, pa / 0x1000, pa % 0x1000 / 8), 8)[pa % 0x1000 % 8]
  }

  function SetByte(w: Word, i: nat, b: Byte): (r: Word)
    requires i < 8
    ensures Unpack(r, 8) == Unpack(w, 8)[i := b]
  {
    Pow256Values();
    UnpackPack(Unpack(w, 8)[i := b]);
    Pack(Unpack(w, 8)[i := b])
  }

  function PutByte(m: Mem, pa: nat, b: Byte): Mem {
    Put(m, pa / 0x1000, pa % 0x1000 / 8, SetByte(At(m, pa / 0x1000, pa % 0x1000 / 8), pa % 0x1000 % 8, b))
  }

  lemma PutByteOk(m: Mem, pa: nat, b: Byte, a: nat)
    requires pa / 0x1000 in m
    ensures ByteAt(PutByte(m, pa, b), a) == if a == pa then b else ByteAt(m, a)
  {
    hide Unpack;
    if a / 0x1000 == pa / 0x1000 {
      assert a == pa <==> a % 0x1000 == pa % 0x1000;
    }
  }

  /** Copies bytes to consecutive physical addresses. */
  function CopyIn(m: Mem, pa: nat, bytes: seq<Byte>): Mem
    decreases |bytes|
  {
    if bytes == [] then m else CopyIn(PutByte(m, pa, bytes[0]), pa + 1, bytes[1..])
  }

  /** Frames `f` up to `f + n` are backed by memory. */
  ghost predicate Backed(m: Mem, f: nat, n: nat) {
    forall k | f <= k < f + n :: k in m
  }

  lemma {:induction false} CopyInOk(m: Mem, pa: nat, bytes: seq<Byte>, f: nat, n: nat)
    requires Backed(m, f, n) && f * 0x1000 <= pa && pa + |bytes| <= (f + n) * 0x1000
    ensures CopyIn(m, pa, bytes).Keys == m.Keys
    ensures forall a: nat ::
      ByteAt(CopyIn(m, pa, bytes), a) == if pa <= a < pa + |bytes| then bytes[a - pa] else ByteAt(m, a)
    ensures forall k | k in m && !(f <= k < f + n) :: CopyIn(m, pa, bytes)[k] == m[k]
    decreases |bytes|
  {
    hide ByteAt, PutByte;
    if bytes != [] {
      var m1 := PutByte(m, pa, bytes[0]);
      PutByteFrames(m, pa, bytes[0]);
      forall a: nat ensures ByteAt(m1, a) == if a == pa then bytes[0] else ByteAt(m, a) {
        PutByteOk(m, pa, bytes[0], a);
      }
      CopyInOk(m1, pa + 1, bytes[1..], f, n);
    }
  }

  lemma PutByteFrames(m: Mem, pa: nat, b: Byte)
    ensures PutByte(m, pa, b).Keys == m.Keys
    ensures forall k | k in m && k != pa / 0x1000 :: PutByte(m, pa, b)[k] == m[k]
  {
  }

  /** `n` frames from `f` on filled with zeroes. */
  function ZeroFrames(m: Mem, f: nat, n: nat): Mem
    decreases n
  {
    if n == 0 then m else ZeroFrames(m[f := ZeroFrame()], f + 1, n - 1)
  }

  lemma {:induction false} ZeroFramesOk(m: Mem, f: nat, n: nat)
    ensures var r := ZeroFrames(m, f, n);
      && Backed(r, f, n)
      && (forall k: nat :: k in r <==> k in m || f <= k < f + n)
      && (forall k: nat | f <= k < f + n :: r[k] == ZeroFrame())
      && (forall k: nat | k in m && !(f <= k < f + n) :: r[k] == m[k])
    decreases n
  {
    hide ZeroFrame;
    if n > 0 {
      var m1 := m[f := ZeroFrame()];
      ZeroFramesOk(m1, f + 1, n - 1);
      var r := ZeroFrames(m1, f + 1, n - 1);
      forall k: nat
        ensures k in r <==> k in m || f <= k < f + n
        ensures f <= k < f + n ==> r[k] == ZeroFrame()
        ensures k in m && !(f <= k < f + n) ==> r[k] == m[k]
      {
        assert k in m1 <==> k in m || k == f;
      }
    }
  }

  lemma ZeroFramesBytes(m: Mem, f: nat, n: nat, a: nat)
    requires f <= a / 0x1000 < f + n
    ensures ByteAt(ZeroFrames(m, f, n), a) == 0
  {
    ZeroFramesOk(m, f, n);
    UnpackZero(8);
  }

  /** A byte depends only on its frame. */
  lemma ByteInFrame(m: Mem, m': Mem, a: nat)
    requires a / 0x1000 in m && a / 0x1000 in m' && m'[a / 0x1000] == m[a / 0x1000]
    ensures ByteAt(m', a) == ByteAt(m, a)
  {
  }
}
