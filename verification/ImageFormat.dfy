/** The ELF64 image format: header, program headers, and what is sound about them. */
module ImageFormat {
  import opened MachineWords
  import opened LittleEndian
  import PageMapper

  datatype LoadError =
    | Truncated | NotElf | NotElf64Le | BadAbi | BadType | BadMachine | BadPhentsize | BadPhnum
    | PhdrOverflow | PhdrsTruncated | NotLowerHalfSegment | SegmentTooLarge | FileszAboveMemsz
    | OutOfPages | FileOverflow | FileTruncated | Mapping(error: PageMapper.MapError) | EntryNotLoaded | OutOfBounds

  datatype LoadResult = Loaded(entry: Word) | NotLoaded(error: LoadError)

  /** Little-endian field of `n` bytes, or nothing past the end. */
  function ReadLe(image: seq<Byte>, off: nat, n: nat): (r: Option<nat>)
    ensures r.Some? <==> off + n <= |image|
    ensures r.Some? ==> r.value < Pow256(n) && Unpack(r.value, n) == image[off..off + n]
  {
    if off + n <= |image| then
      UnpackPack(image[off..off + n]);
      Some(Pack(image[off..off + n]))
    else None
  }

  datatype Segment = Segment(load: bool, offset: nat, vaddr: nat, filesz: nat, memsz: nat) {
    function PageOff(): nat { vaddr % 0x1000 }

    /** Bytes from the start of the first page to the end of the segment. */
    function Span(): nat { PageOff() + memsz }

    /** The fewest pages that hold it. */
    function Pages(): (n: nat)
      ensures Span() <= 0x1000 * n < Span() + 0x1000
    {
      (Span() + 0xfff) / 0x1000
    }

    function FirstPage(): nat { vaddr / 0x1000 }

    /** The address of the first page. */
    function PageStart(): (a: nat)
      ensures a % 0x1000 == 0 && a <= vaddr < a + 0x1000
    {
      vaddr - vaddr % 0x1000
    }

    /** The segment puts something into memory. */
    predicate Placed() { load && memsz > 0 }
  }

  /** The program header at byte `off`. */
  function ReadSegment(image: seq<Byte>, off: nat): Segment
    requires off + 56 <= |image|
  {
    Segment(ReadLe(image, off, 4).value == 1, ReadLe(image, off + 8, 8).value, ReadLe(image, off + 16, 8).value,
            ReadLe(image, off + 32, 8).value, ReadLe(image, off + 40, 8).value)
  }

  /** The image's header is complete and its program headers lie inside it. */
  predicate HasSegments(image: seq<Byte>) {
    && |image| >= 64
    && ReadLe(image, 32, 8).value + ReadLe(image, 56, 2).value * 56 <= |image|
  }

  function SegmentCount(image: seq<Byte>): nat
    requires HasSegments(image)
  {
    ReadLe(image, 56, 2).value
  }

  function SegmentAt(image: seq<Byte>, i: nat): Segment
    requires HasSegments(image) && i < SegmentCount(image)
  {
    ReadSegment(image, ReadLe(image, 32, 8).value + i * 56)
  }

  /** What byte `k` of a segment holds once loaded. */
  function SegmentByte(image: seq<Byte>, seg: Segment, k: nat): Byte
    requires seg.filesz > 0 ==> seg.offset + seg.filesz <= |image|
  {
    if k < seg.filesz then image[seg.offset + k] else 0
  }

  predicate Covers(seg: Segment, va: nat) { seg.vaddr <= va < seg.vaddr + seg.memsz }

  ghost predicate InImage(image: seq<Byte>, va: nat)
    requires HasSegments(image)
  {
    exists i: nat :: i < SegmentCount(image) && SegmentAt(image, i).Placed() && Covers(SegmentAt(image, i), va)
  }

  /** The checks on the image header, in order. */
  function CheckHeader(image: seq<Byte>): (e: Option<LoadError>)
    ensures e.None? ==> HasSegments(image) && 1 <= SegmentCount(image) <= 8
  {
    if |image| < 64 then Some(Truncated)
    else if image[0..4] != [0x7f, 0x45, 0x4c, 0x46] then Some(NotElf)
    else if image[4] != 2 || image[5] != 1 then Some(NotElf64Le)
    else if image[7] != 0 && image[7] != 3 then Some(BadAbi)
    else if ReadLe(image, 16, 2).value != 2 && ReadLe(image, 16, 2).value != 3 then Some(BadType)
    else if ReadLe(image, 18, 2).value != 62 then Some(BadMachine)
    else if ReadLe(image, 54, 2).value != 56 then Some(BadPhentsize)
    else if ReadLe(image, 56, 2).value == 0 || ReadLe(image, 56, 2).value > 8 then Some(BadPhnum)
    else if ReadLe(image, 32, 8).value + ReadLe(image, 56, 2).value * 56 >= 0x1_0000_0000_0000_0000 then
      Some(PhdrOverflow)
    else if ReadLe(image, 32, 8).value + ReadLe(image, 56, 2).value * 56 > |image| then Some(PhdrsTruncated)
    else None
  }

  /** The entry point the header names. */
  function EntryOf(image: seq<Byte>): nat
    requires |image| >= 64
  {
    ReadLe(image, 24, 8).value
  }

  lemma EntryFits(image: seq<Byte>)
    requires CheckHeader(image).None?
    ensures |image| >= 64 && EntryOf(image) < 0x1_0000_0000_0000_0000 && HasSegments(image)
  {
    Pow256Values();
  }

  // ----- the format, byte by byte -----

  lemma Fields(b: seq<Byte>, off: nat)
    requires off + 8 <= |b|
    ensures ReadLe(b, off, 2) == Some(U16(b, off)) && ReadLe(b, off, 4) == Some(U32(b, off))
    ensures ReadLe(b, off, 8) == Some(U64(b, off))
  {
    hide Pack, U16, U32, U64;
    Packed16(b, off);
    Packed32(b, off);
    Packed64(b, off);
  }

  /** A header the loader accepts: a complete little-endian ELF64 header for x86-64, of
      type ET_EXEC or ET_DYN, with one to eight program headers of 56 bytes, all of them
      inside the image. */
  predicate SoundHeader(b: seq<Byte>) {
    && |b| >= 64 && b[0..4] == [0x7f, 0x45, 0x4c, 0x46] && b[4] == 2 && b[5] == 1 && (b[7] == 0 || b[7] == 3)
    && (U16(b, 16) == 2 || U16(b, 16) == 3) && U16(b, 18) == 62
    && U16(b, 54) == 56 && 1 <= U16(b, 56) <= 8
    && U64(b, 32) + 56 * U16(b, 56) <= |b| && U64(b, 32) + 56 * U16(b, 56) < 0x1_0000_0000_0000_0000
  }

  /** The fields of the program header at byte `off`. */
  predicate FieldsAre(b: seq<Byte>, off: nat, seg: Segment)
    requires off + 56 <= |b|
  {
    && (seg.load <==> U32(b, off) == 1) && seg.offset == U64(b, off + 8) && seg.vaddr == U64(b, off + 16)
    && seg.filesz == U64(b, off + 32) && seg.memsz == U64(b, off + 40)
  }

  /** What is wrong with a header, told for each error from its bytes. */
  predicate HeaderFault(b: seq<Byte>, e: LoadError) {
    if |b| < 64 then e == Truncated
    else
      match e
      case NotElf => b[0..4] != [0x7f, 0x45, 0x4c, 0x46]
      case NotElf64Le => b[4] != 2 || b[5] != 1
      case BadAbi => b[7] != 0 && b[7] != 3
      case BadType => U16(b, 16) != 2 && U16(b, 16) != 3
      case BadMachine => U16(b, 18) != 62
      case BadPhentsize => U16(b, 54) != 56
      case BadPhnum => U16(b, 56) == 0 || U16(b, 56) > 8
      case PhdrOverflow => U64(b, 32) + 56 * U16(b, 56) >= 0x1_0000_0000_0000_0000
      case PhdrsTruncated => U64(b, 32) + 56 * U16(b, 56) > |b|
      case _ => false
  }

  /** The checks accept exactly the sound headers and name a fault of the others, and the program headers and the entry
      point are read from where the format has them. */
  lemma FormatExactly(image: seq<Byte>)
    ensures CheckHeader(image).None? <==> SoundHeader(image)
    ensures CheckHeader(image).Some? ==> HeaderFault(image, CheckHeader(image).value)
    ensures SoundHeader(image) ==>
      && HasSegments(image) && SegmentCount(image) == U16(image, 56) && EntryOf(image) == U64(image, 24)
      && forall i: nat | i < SegmentCount(image) ::
           FieldsAre(image, U64(image, 32) + 56 * i, SegmentAt(image, i))
  {
    hide ReadLe, U16, U64;
    if |image| >= 64 {
      Fields(image, 16);
      Fields(image, 18);
      Fields(image, 54);
      Fields(image, 56);
      Fields(image, 24);
      Fields(image, 32);
      if SoundHeader(image) {
        forall i: nat | i < SegmentCount(image)
          ensures FieldsAre(image, U64(image, 32) + 56 * i, SegmentAt(image, i))
        {
          SegmentFields(image, U64(image, 32) + 56 * i);
        }
      }
    }
  }

  lemma SegmentFields(image: seq<Byte>, off: nat)
    requires off + 56 <= |image|
    ensures FieldsAre(image, off, ReadSegment(image, off))
  {
    hide ReadLe, U32, U64;
    Fields(image, off);
    Fields(image, off + 8);
    Fields(image, off + 16);
    Fields(image, off + 32);
    Fields(image, off + 40);
  }
}
