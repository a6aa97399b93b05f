/** Machine words, bytes and page-sized frames.

    Masks and shifts over powers of two are written as division and remainder
    by literals, which is what they compute on unsigned words. */
module MachineWords {

  type Word = w: int | 0 <= w < 0x1_0000_0000_0000_0000
  type HalfWord = h: int | 0 <= h < 0x1_0000_0000
  type Byte = b: int | 0 <= b < 0x100

  datatype Option<+T> = None | Some(value: T)

  function SaturatingAdd(a: Word, b: Word): Word {
    if a + b < 0x1_0000_0000_0000_0000 then a + b else 0xffff_ffff_ffff_ffff
  }

  /** Rounds up to a 4 KiB boundary; near the top of the word it saturates first. */
  function PageAlignUp(value: Word): (r: Word)
    ensures r % 0x1000 == 0
    ensures value <= 0xffff_ffff_ffff_f000 ==> value <= r < value + 0x1000
    ensures value > 0xffff_ffff_ffff_f000 ==> r == 0xffff_ffff_ffff_f000
  {
    SaturatingAdd(value, 0xfff) / 0x1000 * 0x1000
  }

  function PageAlignDown(value: Word): (r: Word)
    ensures r % 0x1000 == 0 && r <= value < r + 0x1000
  {
    value / 0x1000 * 0x1000
  }

  /** A 4 KiB page frame, seen as 512 words. */
  type Frame = f: seq<Word> | |f| == 512 witness seq(512, _ => 0)

  function ZeroFrame(): (f: Frame)
    ensures forall i :: 0 <= i < 512 ==> f[i] == 0
  {
    seq(512, _ => 0)
  }

  /** Physical memory: frame number to contents. A frame outside the map is not
      backed by memory; it reads as zero. */
  type Mem = map<nat, Frame>

  function At(m: Mem, frame: nat, i: nat): Word
    requires i < 512
  {
    if frame in m then m[frame][i] else 0
  }

  function Put(m: Mem, frame: nat, i: nat, w: Word): (r: Mem)
    requires i < 512
    ensures frame in m ==> forall f, j | 0 <= j < 512 :: At(r, f, j) == if f == frame && j == i then w else At(m, f, j)
    ensures r.Keys == m.Keys
    ensures forall f | f in m && f != frame :: r[f] == m[f]
  {
    if frame in m then m[frame := m[frame][i := w]] else m
  }
}
