/** DDS headers: synthesising one for a texture, parsing one back, and the sizes of its
    mips. */
module Dds {
  import opened Wrappers
  import opened Bytes
  import opened Ba2Format

  const MAGIC_DDS: Blob := [0x44, 0x44, 0x53, 0x20]
  const MAGIC_DX10: Blob := [0x44, 0x58, 0x31, 0x30]
  const DXT1: Blob := [0x44, 0x58, 0x54, 0x31]
  const DXT5: Blob := [0x44, 0x58, 0x54, 0x35]
  const BC4U: Blob := [0x42, 0x43, 0x34, 0x55]
  const BC5U: Blob := [0x42, 0x43, 0x35, 0x55]
  const BC5S: Blob := [0x42, 0x43, 0x35, 0x53]

  const DDSD_CAPS: nat := 0x1
  const DDSD_HEIGHT: nat := 0x2
  const DDSD_WIDTH: nat := 0x4
  const DDSD_PITCH: nat := 0x8
  const DDSD_PIXELFORMAT: nat := 0x1000
  const DDSD_MIPMAPCOUNT: nat := 0x2_0000
  const DDSD_LINEARSIZE: nat := 0x8_0000
  const DDSCAPS_COMPLEX: nat := 0x8
  const DDSCAPS_TEXTURE: nat := 0x1000
  const DDSCAPS_MIPMAP: nat := 0x40_0000
  const DDSCAPS2_CUBEMAP: nat := 0x200
  const DDSCAPS2_CUBEMAP_ALLFACES: nat := 0xFC00
  const DDPF_ALPHAPIXELS: nat := 0x1
  const DDPF_FOURCC: nat := 0x4
  const DDPF_RGB: nat := 0x40
  const DDPF_LUMINANCE: nat := 0x2_0000
  const DDS_DIMENSION_TEXTURE2D: nat := 3
  const DDS_RESOURCE_MISC_TEXTURECUBE: nat := 4
  const DDS_HEADER_SIZE: nat := 128
  const DDS_HEADER_DXT10_SIZE: nat := 20

  // -------------------------------------------------------------------------- formats

  datatype PixelFormat = FourCc(code: Tag) | Rgba8888 | Bgra8888 | Luminance8 | Dxt10

  datatype SizeKind = Pitch | Linear

  datatype FormatSpec = FormatSpec(bitsPerPixel: nat, blockCompressed: bool, pixelFormat: PixelFormat, sizeKind: SizeKind)

  /** The fifteen formats the game ships. */
  function SpecFor(dxgiFormat: nat): Option<FormatSpec> {
    match dxgiFormat
    case 10 => Some(FormatSpec(64, false, Dxt10, Pitch))
    case 11 => Some(FormatSpec(64, false, Dxt10, Pitch))
    case 28 => Some(FormatSpec(32, false, Rgba8888, Pitch))
    case 29 => Some(FormatSpec(32, false, Dxt10, Pitch))
    case 61 => Some(FormatSpec(8, false, Luminance8, Pitch))
    case 71 => Some(FormatSpec(4, true, FourCc(DXT1), Linear))
    case 72 => Some(FormatSpec(4, true, Dxt10, Linear))
    case 77 => Some(FormatSpec(8, true, FourCc(DXT5), Linear))
    case 78 => Some(FormatSpec(8, true, Dxt10, Linear))
    case 80 => Some(FormatSpec(4, true, FourCc(BC4U), Linear))
    case 83 => Some(FormatSpec(8, true, FourCc(BC5U), Linear))
    case 84 => Some(FormatSpec(8, true, FourCc(BC5S), Linear))
    case 87 => Some(FormatSpec(32, false, Bgra8888, Pitch))
    case 98 => Some(FormatSpec(8, true, Dxt10, Linear))
    case 99 => Some(FormatSpec(8, true, Dxt10, Linear))
    case _ => None
  }

  /** A right shift. */
  function Shr(n: nat, k: nat): nat {
    if k == 0 then n else Shr(n / 2, k - 1)
  }

  /** A dimension halves per level, to at least one. */
  function Halved(dim: nat, level: nat): nat {
    var d := Shr(dim, level);
    if d == 0 then 1 else d
  }

  function DivCeil(n: nat, d: nat): nat
    requires d > 0
  {
    (n + d - 1) / d
  }

  function Times(a: nat, b: nat): nat {
    a * b
  }

  /** The bytes of one mip; a block-compressed one is rounded up to whole 4x4 blocks. */
  function MipSize(desc: TextureDesc, level: nat): Option<nat> {
    var spec := SpecFor(desc.dxgiFormat);
    if spec.None? then None
    else
      var w, h := Halved(desc.width, level), Halved(desc.height, level);
      var bits := if spec.value.blockCompressed then Times(Times(DivCeil(w, 4), DivCeil(h, 4)) * 16, spec.value.bitsPerPixel)
                  else Times(Times(w, h), spec.value.bitsPerPixel);
      if bits / 8 < U32 then Some(bits / 8) else None
  }

  // ------------------------------------------------------------------ the header's fields

  datatype PixelFields = PixelFields(flags: nat, fourCc: Tag, bitCount: nat, r: nat, g: nat, b: nat, a: nat)

  datatype Extension = Extension(dxgiFormat: nat, miscFlags: nat)

  /** The fields of a header, before they are laid out in bytes. */
  datatype Fields = Fields(
    flags: nat, height: nat, width: nat, pitchOrLinearSize: nat, mipCount: nat,
    pixel: PixelFields, caps: nat, caps2: nat, extension: Option<Extension>)

  function ZeroBytes(n: nat): (z: Blob)
    ensures |z| == n
  {
    seq(n, _ => 0)
  }

  function PrintExtension(e: Option<Extension>): Blob {
    if e.None? then []
    else LE(e.value.dxgiFormat, 4) + LE(DDS_DIMENSION_TEXTURE2D, 4) + LE(e.value.miscFlags, 4) + LE(1, 4) + LE(0, 4)
  }

  function PrintPixel(p: PixelFields): (s: Blob)
    ensures |s| == 32
  {
    LE(32, 4) + LE(p.flags, 4) + p.fourCc + LE(p.bitCount, 4) + LE(p.r, 4) + LE(p.g, 4) + LE(p.b, 4) + LE(p.a, 4)
  }

  function PrintTop(f: Fields): (s: Blob)
    ensures |s| == 76
  {
    MAGIC_DDS + LE(124, 4) + LE(f.flags, 4) + LE(f.height, 4) + LE(f.width, 4) + LE(f.pitchOrLinearSize, 4)
    + LE(1, 4) + LE(f.mipCount, 4) + ZeroBytes(44)
  }

  function PrintFields(f: Fields): Blob {
    PrintTop(f) + PrintPixel(f.pixel) + (LE(f.caps, 4) + LE(f.caps2, 4) + ZeroBytes(12)) + PrintExtension(f.extension)
  }

  predicate HasBit(n: nat, bit: nat)
    requires bit > 0
  {
    n / bit % 2 == 1
  }

  /** Whether the pixel fields announce the extension header. */
  predicate NeedsExtension(p: PixelFields) {
    HasBit(p.flags, DDPF_FOURCC) && p.fourCc == MAGIC_DX10
  }

  ghost predicate FitsPixel(p: PixelFields) {
    p.flags < U32 && p.bitCount < U32 && p.r < U32 && p.g < U32 && p.b < U32 && p.a < U32
  }

  ghost predicate FitsFields(f: Fields) {
    && f.flags < U32 && f.height < U32 && f.width < U32 && f.pitchOrLinearSize < U32 && f.mipCount < U32
    && FitsPixel(f.pixel) && f.caps < U32 && f.caps2 < U32
    && (f.extension.Some? ==> f.extension.value.dxgiFormat < U32 && f.extension.value.miscFlags < U32)
    && (f.extension.Some? <==> NeedsExtension(f.pixel))
  }

  datatype DdsError = TooShort | NotDds | WrongSize | NoExtension | FormatRange | UnknownPixels | Unsupported | Dimensions | MipRange

  // ------------------------------------------------------------------------- synthesis

  function PixelFieldsOf(p: PixelFormat): PixelFields {
    match p
    case FourCc(code) => PixelFields(DDPF_FOURCC, code, 0, 0, 0, 0, 0)
    case Dxt10 => PixelFields(DDPF_FOURCC, MAGIC_DX10, 0, 0, 0, 0, 0)
    case Rgba8888 =>
      PixelFields(DDPF_RGB + DDPF_ALPHAPIXELS, [0, 0, 0, 0], 32, 0x0000_00FF, 0x0000_FF00, 0x00FF_0000, 0xFF00_0000)
    case Bgra8888 =>
      PixelFields(DDPF_RGB + DDPF_ALPHAPIXELS, [0, 0, 0, 0], 32, 0x00FF_0000, 0x0000_FF00, 0x0000_00FF, 0xFF00_0000)
    case Luminance8 => PixelFields(DDPF_LUMINANCE, [0, 0, 0, 0], 8, 0x0000_00FF, 0, 0, 0)
  }

  function FieldsOf(desc: TextureDesc, spec: FormatSpec): Fields {
    var mips := if desc.mipCount == 0 then 1 else desc.mipCount;
    var flags := DDSD_CAPS + DDSD_PIXELFORMAT + DDSD_WIDTH + DDSD_HEIGHT + DDSD_MIPMAPCOUNT
      + (if spec.sizeKind.Linear? then DDSD_LINEARSIZE else DDSD_PITCH);
    var size := if spec.sizeKind.Linear? then desc.width * desc.height * spec.bitsPerPixel / 8
                else desc.width * spec.bitsPerPixel / 8;
    var caps := DDSCAPS_TEXTURE + (if mips > 1 then DDSCAPS_MIPMAP else 0)
      + (if mips > 1 || desc.cubemap then DDSCAPS_COMPLEX else 0);
    var caps2 := if desc.cubemap then DDSCAPS2_CUBEMAP + DDSCAPS2_CUBEMAP_ALLFACES else 0;
    var extension := if spec.pixelFormat.Dxt10?
      then Some(Extension(desc.dxgiFormat, if desc.cubemap then DDS_RESOURCE_MISC_TEXTURECUBE else 0)) else None;
    Fields(flags, desc.height, desc.width, size % U32, mips, PixelFieldsOf(spec.pixelFormat), caps, caps2, extension)
  }

  /** The header put in front of a texture's mips. */
  function SynthHeader(desc: TextureDesc): Option<Blob> {
    var spec := SpecFor(desc.dxgiFormat);
    if spec.None? then None else Some(PrintFields(FieldsOf(desc, spec.value)))
  }

  // --------------------------------------------------------------------------- parsing

  function ReadPixel(dds: Blob): PixelFields
    requires |dds| >= DDS_HEADER_SIZE
  {
    PixelFields(Read(dds, 80, 4), dds[84..88], Read(dds, 88, 4), Read(dds, 92, 4), Read(dds, 96, 4), Read(dds, 100, 4),
                Read(dds, 104, 4))
  }

  /** The format the pixel fields name, and whether the extension says cubemap. */
  function FormatOf(dds: Blob, p: PixelFields): Result<(nat, nat, bool), DdsError>
    requires |dds| >= DDS_HEADER_SIZE
  {
    if NeedsExtension(p) then
      if |dds| < DDS_HEADER_SIZE + DDS_HEADER_DXT10_SIZE then Err(NoExtension)
      else
        var dxgi := Read(dds, 128, 4);
        if dxgi > 255 then Err(FormatRange)
        else
          Ok((dxgi, DDS_HEADER_SIZE + DDS_HEADER_DXT10_SIZE, HasBit(Read(dds, 136, 4), DDS_RESOURCE_MISC_TEXTURECUBE)))
    else if HasBit(p.flags, DDPF_FOURCC) && p.fourCc == DXT1 then Ok((71, DDS_HEADER_SIZE, false))
    else if HasBit(p.flags, DDPF_FOURCC) && p.fourCc == DXT5 then Ok((77, DDS_HEADER_SIZE, false))
    else if HasBit(p.flags, DDPF_FOURCC) && p.fourCc == BC4U then Ok((80, DDS_HEADER_SIZE, false))
    else if HasBit(p.flags, DDPF_FOURCC) && p.fourCc == BC5U then Ok((83, DDS_HEADER_SIZE, false))
    else if HasBit(p.flags, DDPF_FOURCC) && p.fourCc == BC5S then Ok((84, DDS_HEADER_SIZE, false))
    else if HasBit(p.flags, DDPF_RGB) && p.bitCount == 32 && p.r == 0x0000_00FF && p.g == 0x0000_FF00
      && p.b == 0x00FF_0000 && p.a == 0xFF00_0000 then Ok((28, DDS_HEADER_SIZE, false))
    else if HasBit(p.flags, DDPF_RGB) && p.bitCount == 32 && p.r == 0x00FF_0000 && p.g == 0x0000_FF00
      && p.b == 0x0000_00FF && p.a == 0xFF00_0000 then Ok((87, DDS_HEADER_SIZE, false))
    else if HasBit(p.flags, DDPF_LUMINANCE) && p.bitCount == 8 && p.r == 0x0000_00FF then Ok((61, DDS_HEADER_SIZE, false))
    else Err(UnknownPixels)
  }

  datatype Meta = Meta(desc: TextureDesc, headerLen: nat)

  function ParseHeader(dds: Blob): Result<Meta, DdsError> {
    if |dds| < DDS_HEADER_SIZE then Err(TooShort)
    else if dds[0..4] != MAGIC_DDS then Err(NotDds)
    else if Read(dds, 4, 4) != 124 then Err(WrongSize)
    else
      var height, width, stored := Read(dds, 12, 4), Read(dds, 16, 4), Read(dds, 28, 4);
      var mips := if stored == 0 then 1 else stored;
      var format := FormatOf(dds, ReadPixel(dds));
      if format.Err? then Err(format.error)
      else
        var (dxgi, headerLen, extensionCube) := format.value;
        if SpecFor(dxgi).None? then Err(Unsupported)
        else if width == 0 || height == 0 || width >= U16 || height >= U16 then Err(Dimensions)
        else if mips > 255 then Err(MipRange)
        else
          var cubemap := extensionCube || HasBit(Read(dds, 112, 4), DDSCAPS2_CUBEMAP);
          Ok(Meta(TextureDesc(dxgi, width, height, mips, cubemap), headerLen))
  }

  // ------------------------------------------------------------------------ round trip

  lemma PrintedTop(f: Fields, rest: Blob)
    requires FitsFields(f)
    ensures var s := PrintFields(f) + rest;
      && |s| >= DDS_HEADER_SIZE && s[0..4] == MAGIC_DDS && Read(s, 4, 4) == 124
      && Read(s, 12, 4) == f.height && Read(s, 16, 4) == f.width && Read(s, 28, 4) == f.mipCount
  {
    hide LE, FromLE, Pow256, PrintPixel, PrintExtension;
    Widths();
    FromLEOfLE(124, 4);
    FromLEOfLE(f.height, 4);
    FromLEOfLE(f.width, 4);
    FromLEOfLE(f.mipCount, 4);
    var s, top := PrintFields(f) + rest, PrintTop(f);
    assert top[0..4] == MAGIC_DDS && top[4..8] == LE(124, 4) && top[12..16] == LE(f.height, 4);
    assert top[16..20] == LE(f.width, 4) && top[28..32] == LE(f.mipCount, 4);
    assert s[..76] == top;
    assert s[0..4] == top[0..4] && s[4..8] == top[4..8] && s[12..16] == top[12..16];
    assert s[16..20] == top[16..20] && s[28..32] == top[28..32];
  }

  lemma PrintedPixel(f: Fields, rest: Blob)
    requires FitsFields(f)
    ensures |PrintFields(f) + rest| >= DDS_HEADER_SIZE && ReadPixel(PrintFields(f) + rest) == f.pixel
    ensures Read(PrintFields(f) + rest, 112, 4) == f.caps2
  {
    hide LE, FromLE, Pow256, PrintTop, PrintExtension;
    Widths();
    var p := f.pixel;
    FromLEOfLE(p.flags, 4);
    FromLEOfLE(p.bitCount, 4);
    FromLEOfLE(p.r, 4);
    FromLEOfLE(p.g, 4);
    FromLEOfLE(p.b, 4);
    FromLEOfLE(p.a, 4);
    FromLEOfLE(f.caps2, 4);
    var s, t := PrintFields(f) + rest, PrintPixel(p);
    assert t[4..8] == LE(p.flags, 4) && t[8..12] == p.fourCc && t[12..16] == LE(p.bitCount, 4);
    assert t[16..20] == LE(p.r, 4) && t[20..24] == LE(p.g, 4) && t[24..28] == LE(p.b, 4) && t[28..32] == LE(p.a, 4);
    assert s[76..108] == t;
    assert s[80..84] == t[4..8] && s[84..88] == t[8..12] && s[88..92] == t[12..16];
    assert s[92..96] == t[16..20] && s[96..100] == t[20..24] && s[100..104] == t[24..28] && s[104..108] == t[28..32];
    assert s[112..116] == LE(f.caps2, 4);
  }

  lemma PrintedExtension(f: Fields, rest: Blob)
    requires FitsFields(f)
    ensures var s := PrintFields(f) + rest;
      f.extension.Some? ==>
        && |s| >= DDS_HEADER_SIZE + DDS_HEADER_DXT10_SIZE
        && Read(s, 128, 4) == f.extension.value.dxgiFormat && Read(s, 136, 4) == f.extension.value.miscFlags
    ensures |PrintFields(f)| == DDS_HEADER_SIZE + if f.extension.Some? then DDS_HEADER_DXT10_SIZE else 0
  {
    hide LE, FromLE, Pow256, PrintTop, PrintPixel;
    Widths();
    if f.extension.Some? {
      var e := f.extension.value;
      FromLEOfLE(e.dxgiFormat, 4);
      FromLEOfLE(e.miscFlags, 4);
      var s := PrintFields(f) + rest;
      assert s[128..132] == LE(e.dxgiFormat, 4) && s[136..140] == LE(e.miscFlags, 4);
    }
  }

  lemma FieldsFit(desc: TextureDesc, spec: FormatSpec)
    requires FitsDesc(desc) && SpecFor(desc.dxgiFormat) == Some(spec)
    ensures FitsFields(FieldsOf(desc, spec))
  {}

  /** The pixel fields of each supported format name that format and no other. */
  lemma FormatIsNamed(desc: TextureDesc, spec: FormatSpec, dds: Blob)
    requires FitsDesc(desc) && SpecFor(desc.dxgiFormat) == Some(spec) && |dds| >= DDS_HEADER_SIZE
    requires spec.pixelFormat.Dxt10? ==>
      && |dds| >= DDS_HEADER_SIZE + DDS_HEADER_DXT10_SIZE && Read(dds, 128, 4) == desc.dxgiFormat
      && Read(dds, 136, 4) == if desc.cubemap then DDS_RESOURCE_MISC_TEXTURECUBE else 0
    ensures FormatOf(dds, PixelFieldsOf(spec.pixelFormat))
         == Ok((desc.dxgiFormat, DDS_HEADER_SIZE + if spec.pixelFormat.Dxt10? then DDS_HEADER_DXT10_SIZE else 0,
                spec.pixelFormat.Dxt10? && desc.cubemap))
  {
    hide Read;
  }

  /** What parsing a synthesised header gives, whatever data follows it: a stored mip
      count of zero reads as one, and a texture without area is refused. */
  lemma SynthesisedParses(desc: TextureDesc, rest: Blob)
    requires FitsDesc(desc) && SpecFor(desc.dxgiFormat).Some?
    ensures var header := SynthHeader(desc).value;
      var mips := if desc.mipCount == 0 then 1 else desc.mipCount;
      ParseHeader(header + rest) ==
        if desc.width == 0 || desc.height == 0 then Err(Dimensions) else Ok(Meta(desc.(mipCount := mips), |header|))
  {
    hide Read, FormatOf, PrintFields, SpecFor, ReadPixel;
    var spec := SpecFor(desc.dxgiFormat).value;
    var f := FieldsOf(desc, spec);
    var dds := PrintFields(f) + rest;
    FieldsFit(desc, spec);
    PrintedTop(f, rest);
    PrintedPixel(f, rest);
    PrintedExtension(f, rest);
    FormatIsNamed(desc, spec, dds);
  }

  /** The round trip holds exactly for textures with an area and a mip. */
  lemma SynthRoundTripIff(desc: TextureDesc, rest: Blob)
    requires FitsDesc(desc) && SpecFor(desc.dxgiFormat).Some?
    ensures var header := SynthHeader(desc).value;
      ParseHeader(header + rest) == Ok(Meta(desc, |header|)) <==> desc.width > 0 && desc.height > 0 && desc.mipCount > 0
  {
    hide ParseHeader, SpecFor, SynthHeader;
    SynthesisedParses(desc, rest);
  }

  /** Whatever is parsed can be synthesised again, and the mips begin inside the file. */
  lemma ParsedIsSupported(dds: Blob)
    requires ParseHeader(dds).Ok?
    ensures var m := ParseHeader(dds).value;
      && FitsDesc(m.desc) && SynthHeader(m.desc).Some? && m.headerLen <= |dds|
      && m.desc.width > 0 && m.desc.height > 0 && m.desc.mipCount > 0
  {
    hide Read, ReadPixel, PrintFields;
  }

  // -------------------------------------------------------------------- sizes of mips

  ghost function TwoTo(k: nat): (p: nat)
    ensures p > 0
  {
    if k == 0 then 1 else 2 * TwoTo(k - 1)
  }

  /** Each level halves a dimension, rounding down, but to no less than one. */
  lemma {:induction false} ShiftsHalve(n: nat, k: nat)
    ensures Shr(n, k) == n / TwoTo(k)
    ensures Halved(n, k) == if n < TwoTo(k) then 1 else n / TwoTo(k)
  {
    if k > 0 {
      ShiftsHalve(n / 2, k - 1);
      DivideTwice(n, 2, TwoTo(k - 1));
    }
    QuotientZero(n, TwoTo(k));
  }

  lemma QuotientZero(n: nat, d: nat)
    requires d > 0
    ensures n / d == 0 <==> n < d
  {
    MultipleIsFar(n / d, d);
  }

  /** The 4x4 blocks one side of a mip needs. */
  ghost function Blocks(side: nat): nat {
    side / 4 + if side % 4 == 0 then 0 else 1
  }

  lemma BlocksRoundUp(side: nat)
    ensures DivCeil(side, 4) == Blocks(side)
  {}

  /** What a pixel or a block of each supported format takes, in bytes. */
  ghost function MipBytes(dxgiFormat: nat, w: nat, h: nat): Option<nat> {
    if dxgiFormat in {71, 72, 80} then Some(Times(Blocks(w), Blocks(h)) * 8)
    else if dxgiFormat in {77, 78, 83, 84, 98, 99} then Some(Times(Blocks(w), Blocks(h)) * 16)
    else if dxgiFormat in {28, 29, 87} then Some(Times(w, h) * 4)
    else if dxgiFormat in {10, 11} then Some(Times(w, h) * 8)
    else if dxgiFormat == 61 then Some(Times(w, h))
    else None
  }

  /** A mip takes what its pixels or blocks take; formats outside the list have no size,
      nor has a mip of four gibibytes. */
  lemma MipSizeIs(desc: TextureDesc, level: nat)
    ensures var bytes := MipBytes(desc.dxgiFormat, Halved(desc.width, level), Halved(desc.height, level));
      && (bytes.Some? <==> SynthHeader(desc).Some?)
      && MipSize(desc, level) == if bytes.Some? && bytes.value < 0x1_0000_0000 then bytes else None
  {
    hide Halved, PrintFields, FieldsOf;
    var w, h := Halved(desc.width, level), Halved(desc.height, level);
    BlocksRoundUp(w);
    BlocksRoundUp(h);
    hide DivCeil, Blocks;
    BitsAndBytes(Times(w, h));
    BitsAndBytes(Times(DivCeil(w, 4), DivCeil(h, 4)));
  }

  lemma BitsAndBytes(n: nat)
    ensures Times(n, 64) / 8 == n * 8 && Times(n, 32) / 8 == n * 4 && Times(n, 8) / 8 == n
    ensures Times(n * 16, 4) / 8 == n * 8 && Times(n * 16, 8) / 8 == n * 16
  {}

  // ------------------------------------------------------------- the bytes of a header

  /** Which codes name which format when the pixel fields hold one. */
  lemma CodesName(dds: Blob, p: PixelFields)
    requires |dds| >= DDS_HEADER_SIZE && HasBit(p.flags, 4)
    ensures var named := FormatOf(dds, p);
      && (p.fourCc == [0x44, 0x58, 0x54, 0x31] ==> named == Ok((71, 128, false)))
      && (p.fourCc == [0x44, 0x58, 0x54, 0x35] ==> named == Ok((77, 128, false)))
      && (p.fourCc == [0x42, 0x43, 0x34, 0x55] ==> named == Ok((80, 128, false)))
      && (p.fourCc == [0x42, 0x43, 0x35, 0x55] ==> named == Ok((83, 128, false)))
      && (p.fourCc == [0x42, 0x43, 0x35, 0x53] ==> named == Ok((84, 128, false)))
  {
    hide Read, HasBit;
  }

  /** And where the extension names it, which has its place behind the header. */
  lemma ExtensionNames(dds: Blob, p: PixelFields)
    requires |dds| >= DDS_HEADER_SIZE && HasBit(p.flags, 4) && p.fourCc == [0x44, 0x58, 0x31, 0x30]
    ensures FormatOf(dds, p)
      == if |dds| < 148 then Err(NoExtension)
         else
           var code := Word4(dds[128], dds[129], dds[130], dds[131]);
           if code > 255 then Err(FormatRange)
           else Ok((code, 148, HasBit(Word4(dds[136], dds[137], dds[138], dds[139]), 4)))
  {
    hide Read, HasBit, Word4;
    if |dds| >= 148 {
      ReadsWord4(dds, 128);
      ReadsWord4(dds, 136);
    }
  }

  /** Which masks name which format when they hold none. */
  lemma MasksName(dds: Blob, p: PixelFields)
    requires |dds| >= DDS_HEADER_SIZE && !HasBit(p.flags, 4)
    ensures var named := FormatOf(dds, p);
      named ==
        if HasBit(p.flags, 0x40) && (p.bitCount, p.r, p.g, p.b, p.a) == (32, 0xFF, 0xFF00, 0xFF_0000, 0xFF00_0000)
        then Ok((28, 128, false))
        else if HasBit(p.flags, 0x40) && (p.bitCount, p.r, p.g, p.b, p.a) == (32, 0xFF_0000, 0xFF00, 0xFF, 0xFF00_0000)
        then Ok((87, 128, false))
        else if HasBit(p.flags, 0x2_0000) && p.bitCount == 8 && p.r == 0xFF then Ok((61, 128, false))
        else Err(UnknownPixels)
  {}

  /** At which byte of a file that parses each field lies. A cubemap is marked by the
      extension or by bit 0x200 of the second capabilities. */
  lemma ParsedBytes(dds: Blob)
    requires ParseHeader(dds).Ok?
    ensures |dds| >= 128 && dds[..8] == [0x44, 0x44, 0x53, 0x20, 124, 0, 0, 0]
    ensures var m := ParseHeader(dds).value;
      var mips := Word4(dds[28], dds[29], dds[30], dds[31]);
      && m.desc.height == Word4(dds[12], dds[13], dds[14], dds[15])
      && m.desc.width == Word4(dds[16], dds[17], dds[18], dds[19])
      && m.desc.mipCount == (if mips == 0 then 1 else mips)
      && FormatOf(dds, ReadPixel(dds)).Ok? && FormatOf(dds, ReadPixel(dds)).value.0 == m.desc.dxgiFormat
      && m.headerLen == FormatOf(dds, ReadPixel(dds)).value.1
      && (m.desc.cubemap <==> FormatOf(dds, ReadPixel(dds)).value.2 || dds[113] / 2 % 2 == 1)
  {
    hide Read, FormatOf, SpecFor, ReadPixel, Word4, HasBit;
    ReadsWord4(dds, 4);
    ReadsWord4(dds, 12);
    ReadsWord4(dds, 16);
    ReadsWord4(dds, 28);
    ReadsWord4(dds, 112);
    SizeBytes(dds[4], dds[5], dds[6], dds[7]);
    CubeBit(dds[112], dds[113], dds[114], dds[115]);
    assert dds[..8] == dds[0..4] + [dds[4], dds[5], dds[6], dds[7]];
  }

  lemma SizeBytes(a: byte, b: byte, c: byte, d: byte)
    ensures Word4(a, b, c, d) == 124 ==> a == 124 && b == 0 && c == 0 && d == 0
  {}

  lemma CubeBit(a: byte, b: byte, c: byte, d: byte)
    ensures HasBit(Word4(a, b, c, d), 0x200) <==> b / 2 % 2 == 1
  {
    var n, rest := Word4(a, b, c, d), Word2(c, d);
    QuotientIs(n, 256, b as nat + 256 * rest, a as nat);
    DivideTwice(n, 256, 2);
    SecondBit(b as nat, rest);
  }

  lemma SecondBit(b: nat, rest: nat)
    ensures (b + 256 * rest) / 2 % 2 == b / 2 % 2
  {
    QuotientIs(b + 256 * rest, 2, b / 2 + 128 * rest, b % 2);
    EvenAside(b / 2, 64 * rest);
  }

  lemma EvenAside(x: nat, y: nat)
    ensures (x + 2 * y) % 2 == x % 2
  {}

  lemma PixelBytes(dds: Blob)
    requires |dds| >= DDS_HEADER_SIZE
    ensures var p := ReadPixel(dds);
      && p.flags == Word4(dds[80], dds[81], dds[82], dds[83]) && p.fourCc == dds[84..88]
      && p.bitCount == Word4(dds[88], dds[89], dds[90], dds[91]) && p.r == Word4(dds[92], dds[93], dds[94], dds[95])
      && p.g == Word4(dds[96], dds[97], dds[98], dds[99]) && p.b == Word4(dds[100], dds[101], dds[102], dds[103])
      && p.a == Word4(dds[104], dds[105], dds[106], dds[107])
  {
    hide Read, Word4;
    ReadsWord4(dds, 80);
    ReadsWord4(dds, 88);
    ReadsWord4(dds, 92);
    ReadsWord4(dds, 96);
    ReadsWord4(dds, 100);
    ReadsWord4(dds, 104);
  }

  /** What a header says of the top mip: the bytes of all its pixels for a format of
      blocks, and of one row for any other. */
  ghost function TopSize(desc: TextureDesc): nat {
    if desc.dxgiFormat in {71, 72, 80} then Times(desc.width, desc.height) / 2
    else if desc.dxgiFormat in {77, 78, 83, 84, 98, 99} then Times(desc.width, desc.height)
    else if desc.dxgiFormat in {28, 29, 87} then desc.width * 4
    else if desc.dxgiFormat == 61 then desc.width
    else desc.width * 8
  }

  lemma TopSizeIs(desc: TextureDesc, spec: FormatSpec)
    requires FitsDesc(desc) && SpecFor(desc.dxgiFormat) == Some(spec)
    ensures FieldsOf(desc, spec).pitchOrLinearSize == TopSize(desc)
  {
    hide FieldsOf, Times;
    SizeField(desc, spec);
    AreaFits(desc.width, desc.height);
    WholeBytes(Times(desc.width, desc.height), spec.bitsPerPixel);
    WholeBytes(desc.width, spec.bitsPerPixel);
  }

  lemma SizeField(desc: TextureDesc, spec: FormatSpec)
    ensures FieldsOf(desc, spec).pitchOrLinearSize
      == (if spec.sizeKind.Linear? then Times(Times(desc.width, desc.height), spec.bitsPerPixel) / 8
          else Times(desc.width, spec.bitsPerPixel) / 8) % U32
  {}

  lemma WholeBytes(n: nat, bits: nat)
    ensures bits == 4 ==> Times(n, bits) / 8 == n / 2
    ensures bits == 8 ==> Times(n, bits) / 8 == n
    ensures bits == 32 ==> Times(n, bits) / 8 == n * 4
    ensures bits == 64 ==> Times(n, bits) / 8 == n * 8
  {}

  lemma AreaFits(w: nat, h: nat)
    requires w <= 65535 && h <= 65535
    ensures Times(w, h) <= 65535 * 65535
  {
    LessTimes(w, 65535, h);
    LessTimes(h, 65535, 65535);
  }

  lemma LessTimes(a: nat, b: nat, n: nat)
    requires a <= b
    ensures a * n <= b * n
  {}

  /** The fields of a synthesised header that parsing ignores. */
  lemma SynthesisedRest(desc: TextureDesc)
    requires FitsDesc(desc) && SynthHeader(desc).Some?
    ensures var s := SynthHeader(desc).value;
      var blocks := desc.dxgiFormat in {71, 72, 77, 78, 80, 83, 84, 98, 99};
      var extended := desc.dxgiFormat in {10, 11, 29, 72, 78, 98, 99};
      && |s| == (if extended then 148 else 128)
      && Read(s, 8, 4) == 0x2_1007 + (if blocks then 0x8_0000 else 8)
      && Read(s, 20, 4) == TopSize(desc)
      && Read(s, 24, 4) == 1 && Read(s, 76, 4) == 32
      && Read(s, 108, 4) == 0x1000 + (if desc.mipCount > 1 then 0x40_0000 else 0) + (if desc.mipCount > 1 || desc.cubemap then 8 else 0)
      && Read(s, 112, 4) == (if desc.cubemap then 0xFE00 else 0)
      && (extended ==> Read(s, 132, 4) == 3 && Read(s, 140, 4) == 1 && Read(s, 144, 4) == 0)
  {
    hide Read, PrintFields;
    var spec := SpecFor(desc.dxgiFormat).value;
    var f := FieldsOf(desc, spec);
    FieldsFit(desc, spec);
    TopSizeIs(desc, spec);
    PrintedRest(f);
    PrintedPixel(f, []);
    PrintedExtension(f, []);
    assert PrintFields(f) + [] == PrintFields(f);
  }

  lemma PrintedRest(f: Fields)
    requires FitsFields(f)
    ensures var s := PrintFields(f);
      && |s| >= 128 && Read(s, 8, 4) == f.flags && Read(s, 20, 4) == f.pitchOrLinearSize && Read(s, 24, 4) == 1
      && Read(s, 76, 4) == 32 && Read(s, 108, 4) == f.caps
    ensures var s := PrintFields(f);
      f.extension.Some? ==> |s| == 148 && Read(s, 132, 4) == 3 && Read(s, 140, 4) == 1 && Read(s, 144, 4) == 0
  {
    hide LE, FromLE, Pow256;
    Widths();
    FromLEOfLE(f.flags, 4);
    FromLEOfLE(f.pitchOrLinearSize, 4);
    FromLEOfLE(1, 4);
    FromLEOfLE(32, 4);
    FromLEOfLE(f.caps, 4);
    FromLEOfLE(3, 4);
    FromLEOfLE(0, 4);
    var s, top, pixel := PrintFields(f), PrintTop(f), PrintPixel(f.pixel);
    assert top[8..12] == LE(f.flags, 4) && top[20..24] == LE(f.pitchOrLinearSize, 4) && top[24..28] == LE(1, 4);
    assert pixel[0..4] == LE(32, 4);
    hide PrintTop, PrintPixel;
    assert s[..76] == top && s[76..108] == pixel;
    assert s[8..12] == top[8..12] && s[20..24] == top[20..24] && s[24..28] == top[24..28];
    assert s[76..80] == pixel[0..4];
    assert s[108..112] == LE(f.caps, 4);
    if f.extension.Some? {
      assert s[132..136] == LE(3, 4) && s[140..144] == LE(1, 4) && s[144..148] == LE(0, 4);
    }
  }
}
