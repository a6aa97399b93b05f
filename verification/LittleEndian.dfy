/** Little-endian encoding of unsigned integers. */
module LittleEndian {
  import opened MachineWords
  import Arithmetic

  function Pow256(n: nat): (p: nat)
    ensures p > 0
  {
    if n == 0 then 1 else 0x100 * Pow256(n - 1)
  }

  lemma Pow256Values()
    ensures Pow256(2) == 0x1_0000 && Pow256(4) == 0x1_0000_0000 && Pow256(8) == 0x1_0000_0000_0000_0000
  {
    assert Pow256(3) == 0x100_0000;
    assert Pow256(6) == 0x1_0000_0000_0000;
  }

  function Pack(bytes: seq<Byte>): (w: nat)
    ensures w < Pow256(|bytes|)
  {
    if bytes == [] then 0 else bytes[0] + 0x100 * Pack(bytes[1..])
  }

  function Unpack(w: nat, n: nat): (bytes: seq<Byte>)
    ensures |bytes| == n
  {
    if n == 0 then [] else [w % 0x100] + Unpack(w / 0x100, n - 1)
  }

  lemma {:induction false} UnpackPack(bytes: seq<Byte>)
    ensures Unpack(Pack(bytes), |bytes|) == bytes
  {
    if bytes != [] {
      UnpackPack(bytes[1..]);
      Arithmetic.Quotient(Pack(bytes), 0x100, Pack(bytes[1..]), bytes[0]);
    }
  }

  lemma {:induction false} PackUnpack(w: nat, n: nat)
    requires w < Pow256(n)
    ensures Pack(Unpack(w, n)) == w
  {
    if n > 0 {
      PackUnpack(w / 0x100, n - 1);
      assert Unpack(w, n)[1..] == Unpack(w / 0x100, n - 1);
    }
  }

  lemma {:induction false} UnpackZero(n: nat)
    ensures forall i | 0 <= i < n :: Unpack(0, n)[i] == 0
  {
    if n > 0 {
      UnpackZero(n - 1);
    }
  }

  // ----- fields spelled out -----

  function U16(b: seq<Byte>, off: nat): nat
    requires off + 2 <= |b|
  {
    b[off] + 0x100 * (b[off + 1] as int)
  }

  function U32(b: seq<Byte>, off: nat): nat
    requires off + 4 <= |b|
  {
    U16(b, off) + 0x1_0000 * U16(b, off + 2)
  }

  function U64(b: seq<Byte>, off: nat): nat
    requires off + 8 <= |b|
  {
    U32(b, off) + 0x1_0000_0000 * U32(b, off + 4)
  }

  lemma PackStep(b: seq<Byte>, off: nat, n: nat)
    requires n > 0 && off + n <= |b|
    ensures Pack(b[off..off + n]) == b[off] + 0x100 * Pack(b[off + 1..off + 1 + (n - 1)])
  {
    assert b[off..off + n][1..] == b[off + 1..off + 1 + (n - 1)];
  }

  /** A field of `n + 2` bytes is two low bytes and a field of `n`. */
  lemma PackTwo(b: seq<Byte>, off: nat, n: nat)
    requires off + n + 2 <= |b|
    ensures Pack(b[off..off + (n + 2)]) == U16(b, off) + 0x1_0000 * Pack(b[off + 2..off + 2 + n])
  {
    hide Pack;
    PackStep(b, off, n + 2);
    PackStep(b, off + 1, n + 1);
  }

  lemma Packed16(b: seq<Byte>, off: nat)
    requires off + 2 <= |b|
    ensures Pack(b[off..off + 2]) == U16(b, off)
  {
    PackTwo(b, off, 0);
    assert b[off + 2..off + 2] == [];
  }

  lemma Packed32(b: seq<Byte>, off: nat)
    requires off + 4 <= |b|
    ensures Pack(b[off..off + 4]) == U32(b, off)
  {
    hide Pack;
    PackTwo(b, off, 2);
    Packed16(b, off + 2);
  }

  lemma Packed64(b: seq<Byte>, off: nat)
    requires off + 8 <= |b|
    ensures Pack(b[off..off + 8]) == U64(b, off)
  {
    hide Pack;
    PackTwo(b, off, 6);
    PackTwo(b, off + 2, 4);
    Packed32(b, off + 4);
  }
}
