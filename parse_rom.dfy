/** Stage 1 of the pipeline: the iNES 1.0 / NES 2.0 header decoder, the
    interrupt-vector reader and the slicing of a ROM image into its PRG, CHR
    and trainer segments. */
module ParseRom {
  import opened Common
  import opened Bits
  import opened PyText

  /** `b"NES\x1a"`. */
  const Magic: seq<byte> := [0x4E, 0x45, 0x53, 0x1A]

  const HeaderSize: nat := 16
  const TrainerSize: nat := 512
  const PrgBankSize: nat := 16 * 1024
  const ChrBankSize: nat := 8 * 1024
  const DefaultPrgRam: nat := 8192

  const MapperNames: map<nat, string> := map[
    0 := "NROM", 1 := "MMC1 (SxROM)", 2 := "UNROM", 3 := "CNROM", 4 := "MMC3 (TxROM)",
    5 := "MMC5 (ExROM)", 7 := "AxROM", 9 := "MMC2 (PxROM)", 10 := "MMC4 (FxROM)",
    11 := "ColorDreams", 66 := "GxROM", 71 := "Camerica", 94 := "UN1ROM",
    180 := "UNROM (variant)"]

  const SupportedMappers: set<nat> := {0, 1, 2, 3, 4}

  datatype Mirroring = Horizontal | Vertical | FourScreen

  /** The manifest spelling of a mirroring mode. */
  function MirroringText(m: Mirroring): string
  {
    match m
    case Horizontal => "horizontal"
    case Vertical => "vertical"
    case FourScreen => "four_screen"
  }

  /** The decoded header, one field per manifest key. */
  datatype Header = Header(
    format: string,
    mapperId: nat,
    mapperName: string,
    mapperSupported: bool,
    prgRomBanks: nat,
    prgRomSize: nat,
    chrRomBanks: nat,
    chrRomSize: nat,
    chrRam: bool,
    prgRamSize: nat,
    mirroring: Mirroring,
    batteryBacked: bool,
    trainerPresent: bool,
    tvSystem: string,
    prgOffset: nat,
    chrOffset: nat,
    trainerOffset: Option<nat>)

  /** `(flags7 & 0x0C) == 0x08`: bit 3 set and bit 2 clear. */
  predicate IsNes2(flags7: byte)
  {
    (flags7 / 4) % 4 == 2
  }

  /** `(flags6 >> 4) | (flags7 & 0xF0)`: the two operands have no bit in
      common, so the or is their sum. */
  function MapperId(flags6: byte, flags7: byte): nat
  {
    flags6 / 16 + (flags7 / 16) * 16
  }

  /** `MAPPER_NAMES.get(id, f"Unknown (#{id})")`. */
  function MapperName(id: nat): (name: string)
    ensures id in MapperNames ==> name == MapperNames[id]
    ensures id !in MapperNames ==> name == "Unknown (#" + DecPad(id, 1) + ")"
  {
    if id in MapperNames then MapperNames[id] else "Unknown (#" + DecPad(id, 1) + ")"
  }

  function MirroringOf(flags6: byte): Mirroring
  {
    if Bit(flags6, 3) then FourScreen else if Bit(flags6, 0) then Vertical else Horizontal
  }

  /** `parse_ines_header`: decodes bytes 4..7 (and byte 10 of a NES 2.0
      header). A missing magic raises ValueError; a header too short for the
      bytes it reads raises IndexError. */
  function ParseHeader(data: seq<byte>): (r: Result<Header, string>)
    ensures r.Ok? <==> |data| >= 8 && data[..4] == Magic && (IsNes2(data[7]) ==> |data| >= 11)
    ensures (|data| < 4 || data[..4] != Magic) ==> r == Err("ValueError")
    ensures r.Err? ==> r.error in {"ValueError", "IndexError"}
  {
    if |data| < 4 || data[..4] != Magic then Err("ValueError")
    else if |data| < 8 then Err("IndexError")
    else
      var flags6 := data[6];
      var flags7 := data[7];
      var nes2 := IsNes2(flags7);
      if nes2 && |data| < 11 then Err("IndexError")
      else
        var id := MapperId(flags6, flags7);
        var trainer := Bit(flags6, 2);
        var prgSize := data[4] * PrgBankSize;
        var prgOffset := HeaderSize + (if trainer then TrainerSize else 0);
        Ok(Header(
          format := if nes2 then "NES2" else "iNES1",
          mapperId := id,
          mapperName := MapperName(id),
          mapperSupported := id in SupportedMappers,
          prgRomBanks := data[4],
          prgRomSize := prgSize,
          chrRomBanks := data[5],
          chrRomSize := data[5] * ChrBankSize,
          chrRam := data[5] == 0,
          prgRamSize := if nes2 then 64 * Pow2(data[10] % 16) else DefaultPrgRam,
          mirroring := MirroringOf(flags6),
          batteryBacked := Bit(flags6, 1),
          trainerPresent := trainer,
          tvSystem := "NTSC",
          prgOffset := prgOffset,
          chrOffset := prgOffset + prgSize,
          trainerOffset := if trainer then Some(HeaderSize) else None))
  }

  /** The mapper id is a byte whose low nibble is the high nibble of flags 6
      and whose high nibble is the high nibble of flags 7; it is supported
      exactly when it is one of 0..4, and an unknown id is named by its
      decimal value. */
  lemma MapperField(data: seq<byte>)
    requires ParseHeader(data).Ok?
    ensures var h := ParseHeader(data).value;
      && h.mapperId < 256
      && h.mapperId % 16 == data[6] / 16
      && h.mapperId / 16 == data[7] / 16
      && (h.mapperSupported <==> h.mapperId <= 4)
      && (h.mapperId !in MapperNames ==> h.mapperName == "Unknown (#" + DecPad(h.mapperId, 1) + ")")
  {
    var h := ParseHeader(data).value;
    assert h.mapperId == MapperId(data[6], data[7]);
    Nibbles(data[6] / 16, data[7] / 16);
  }

  /** A byte is determined by its two nibbles. */
  lemma Nibbles(lo: nat, hi: nat)
    requires lo < 16 && hi < 16
    ensures (lo + hi * 16) % 16 == lo && (lo + hi * 16) / 16 == hi && lo + hi * 16 < 256
  {
  }

  /** The layout of the file the header describes: PRG follows the header
      and the optional 512-byte trainer, CHR follows PRG, and CHR RAM is
      used exactly when no CHR banks are present. */
  lemma HeaderLayout(data: seq<byte>)
    requires ParseHeader(data).Ok?
    ensures var h := ParseHeader(data).value;
      && h.prgRomSize == h.prgRomBanks * 16384
      && h.chrRomSize == h.chrRomBanks * 8192
      && (h.chrRam <==> h.chrRomSize == 0)
      && h.prgOffset == (if h.trainerPresent then 528 else 16)
      && h.chrOffset == h.prgOffset + h.prgRomSize
      && (h.trainerOffset.Some? <==> h.trainerPresent)
      && (h.trainerPresent ==> h.trainerOffset == Some(16))
  {
  }

  /** The header fields as a ROM author chooses them: the reference
      description of a header. `prgRamShift` is the low nibble of byte 10. */
  datatype Fields = Fields(
    prgBanks: byte,
    chrBanks: byte,
    mapper: byte,
    mirroring: Mirroring,
    battery: bool,
    trainer: bool,
    nes2: bool,
    prgRamShift: nat)

  predicate ValidFields(f: Fields)
  {
    f.prgRamShift < 16
  }

  /** The 16-byte header that records `f`, with every unused bit clear. */
  function EncodeHeader(f: Fields): (data: seq<byte>)
    requires ValidFields(f)
    ensures |data| == 16 && data[..4] == Magic
  {
    var flags6 := (f.mapper % 16) * 16
      + (match f.mirroring case FourScreen => 8 case Vertical => 1 case Horizontal => 0)
      + (if f.trainer then 4 else 0)
      + (if f.battery then 2 else 0);
    var flags7 := (f.mapper / 16) * 16 + (if f.nes2 then 8 else 0);
    Magic + [f.prgBanks, f.chrBanks, flags6, flags7, 0, 0, f.prgRamShift, 0, 0, 0, 0, 0]
  }

  /** `r` is a decoded header that records every field of `f`. */
  predicate Records(r: Result<Header, string>, f: Fields)
  {
    && r.Ok?
    && r.value.mapperId == f.mapper
    && r.value.mirroring == f.mirroring
    && r.value.batteryBacked == f.battery
    && r.value.trainerPresent == f.trainer
    && r.value.format == (if f.nes2 then "NES2" else "iNES1")
    && r.value.prgRomBanks == f.prgBanks
    && r.value.chrRomBanks == f.chrBanks
    && r.value.prgRamSize == (if f.nes2 then 64 * Pow2(f.prgRamShift) else 8192)
  }

  /** The decoder reads back every field the encoder wrote. */
  lemma HeaderRoundTrip(f: Fields)
    requires ValidFields(f)
    ensures Records(ParseHeader(EncodeHeader(f)), f)
  {
    var data := EncodeHeader(f);
    HeaderBytes(f);
    assert data[10] % 16 == f.prgRamShift;
  }

  /** The bytes of an encoded header, field by field. */
  lemma HeaderBytes(f: Fields)
    requires ValidFields(f)
    ensures var data := EncodeHeader(f);
      && data[4] == f.prgBanks && data[5] == f.chrBanks && data[10] == f.prgRamShift
      && MapperId(data[6], data[7]) == f.mapper
      && MirroringOf(data[6]) == f.mirroring
      && Bit(data[6], 2) == f.trainer && Bit(data[6], 1) == f.battery
      && IsNes2(data[7]) == f.nes2
  {
    var data := EncodeHeader(f);
    var m := match f.mirroring case FourScreen => 8 case Vertical => 1 case Horizontal => 0;
    Flags6Bits(f.mapper % 16, m, if f.trainer then 4 else 0, if f.battery then 2 else 0);
    Flags7Bits(f.mapper / 16, f.nes2);
    Nibbles(f.mapper % 16, f.mapper / 16);
  }

  /** Flags 6 as the encoder writes it: mapper low nibble over the mirroring,
      trainer and battery bits. */
  lemma Flags6Bits(lo: nat, m: nat, t: nat, b: nat)
    requires lo < 16 && m in {0, 1, 8} && t in {0, 4} && b in {0, 2}
    ensures var flags6 := lo * 16 + m + t + b;
      && flags6 < 256
      && flags6 / 16 == lo
      && Bit(flags6, 3) == (m == 8)
      && Bit(flags6, 0) == (m == 1)
      && Bit(flags6, 2) == (t == 4)
      && Bit(flags6, 1) == (b == 2)
  {
    NibbleBits(lo, if m == 8 then 1 else 0, t / 4, b / 2, if m == 1 then 1 else 0);
  }

  /** Flags 7 as the encoder writes it: mapper high nibble over the NES 2.0
      marker. */
  lemma Flags7Bits(hi: nat, nes2: bool)
    requires hi < 16
    ensures var flags7 := hi * 16 + (if nes2 then 8 else 0);
      && flags7 < 256
      && flags7 / 16 == hi
      && IsNes2(flags7) == nes2
  {
  }

  /** The decoder reads nothing past byte 10, so trailing PRG, CHR and
      trainer data never change the header. */
  lemma HeaderPrefix(a: seq<byte>, b: seq<byte>)
    requires |a| >= 16
    ensures ParseHeader(a + b) == ParseHeader(a)
  {
    assert (a + b)[..4] == a[..4];
    assert forall i :: 0 <= i < 11 ==> (a + b)[i] == a[i];
  }

  // ---------------------------------------------------------------------------
  // Interrupt vectors
  // ---------------------------------------------------------------------------

  /** The vector table of the manifest: each address as `0x%04X`. */
  datatype Vectors = Vectors(nmi: string, reset: string, irq: string)

  /** `struct.unpack_from("<H", s, off)[0]`; a buffer too short for the word
      raises struct.error. */
  function LeWord(s: seq<byte>, off: nat): (r: Result<nat, string>)
    ensures r.Ok? <==> off + 2 <= |s|
    ensures r.Ok? ==> r.value < 65536
    ensures r.Err? ==> r.error == "struct.error"
  {
    if off + 2 <= |s| then Ok(s[off] as int + 256 * (s[off + 1] as int)) else Err("struct.error")
  }

  /** `prg_rom[-0x4000:]`: the last 16 KiB, or all of a shorter PRG. */
  function LastBank(prg: seq<byte>): (last: seq<byte>)
    ensures |last| == Min(|prg|, 0x4000)
    ensures last == prg[|prg| - |last|..]
  {
    if |prg| <= 0x4000 then prg else prg[|prg| - 0x4000..]
  }

  /** `extract_interrupt_vectors`: the NMI, RESET and IRQ words at offsets
      0x3FFA, 0x3FFC and 0x3FFE of the last 16 KiB bank. */
  function InterruptVectors(prg: seq<byte>): (r: Result<Vectors, string>)
    ensures r.Ok? <==> |prg| >= 0x4000
    ensures r.Err? ==> r.error == "struct.error"
  {
    var last := LastBank(prg);
    match LeWord(last, 0x3FFA)
    case Err(e) => Err(e)
    case Ok(nmi) =>
      match LeWord(last, 0x3FFC)
      case Err(e) => Err(e)
      case Ok(reset) =>
        match LeWord(last, 0x3FFE)
        case Err(e) => Err(e)
        case Ok(irq) => Ok(Vectors(AddrText(nmi), AddrText(reset), AddrText(irq)))
  }

  /** The vector at `pos` bytes before the end of PRG, as a little-endian word. */
  function TailWord(prg: seq<byte>, pos: nat): nat
    requires 2 <= pos <= |prg|
  {
    prg[|prg| - pos] as int + 256 * (prg[|prg| - pos + 1] as int)
  }

  /** Each vector text reads back, through `int(..., 16)`, as the
      little-endian word in the last six bytes of PRG: NMI at -6, RESET at
      -4, IRQ at -2. */
  lemma VectorsRoundTrip(prg: seq<byte>)
    requires |prg| >= 0x4000
    ensures var v := InterruptVectors(prg).value;
      && ParseHex(v.nmi) == Some(TailWord(prg, 6) as int)
      && ParseHex(v.reset) == Some(TailWord(prg, 4) as int)
      && ParseHex(v.irq) == Some(TailWord(prg, 2) as int)
  {
    VectorWords(prg);
    AddrTextRoundTrip(TailWord(prg, 6));
    AddrTextRoundTrip(TailWord(prg, 4));
    AddrTextRoundTrip(TailWord(prg, 2));
  }

  lemma VectorWords(prg: seq<byte>)
    requires |prg| >= 0x4000
    ensures InterruptVectors(prg)
      == Ok(Vectors(AddrText(TailWord(prg, 6)), AddrText(TailWord(prg, 4)), AddrText(TailWord(prg, 2))))
  {
    var last := LastBank(prg);
    LastBankWord(prg, 6);
    LastBankWord(prg, 4);
    LastBankWord(prg, 2);
    assert LeWord(last, 0x3FFA) == Ok(TailWord(prg, 6));
    assert LeWord(last, 0x3FFC) == Ok(TailWord(prg, 4));
    assert LeWord(last, 0x3FFE) == Ok(TailWord(prg, 2));
  }

  lemma LastBankWord(prg: seq<byte>, pos: nat)
    requires |prg| >= 0x4000 && pos in {2, 4, 6}
    ensures LeWord(LastBank(prg), 0x4000 - pos) == Ok(TailWord(prg, pos))
  {
    var last := LastBank(prg);
    assert last[0x4000 - pos] == prg[|prg| - pos];
    assert last[0x4000 - pos + 1] == prg[|prg| - pos + 1];
  }

  // ---------------------------------------------------------------------------
  // Whole file
  // ---------------------------------------------------------------------------

  /** The manifest and the segments written beside it. */
  datatype Rom = Rom(header: Header, prg: seq<byte>, chr: seq<byte>, trainer: seq<byte>, vectors: Vectors)

  /** The segments `parse_rom` cuts out of the file, using clamped slices. */
  function Segments(data: seq<byte>, h: Header): (seg: (seq<byte>, seq<byte>, seq<byte>))
  {
    var prg := Slice(data, h.prgOffset, h.prgOffset + h.prgRomSize);
    var chr := if h.chrRam then [] else Slice(data, h.chrOffset, h.chrOffset + h.chrRomSize);
    var trainer := if h.trainerPresent then Slice(data, HeaderSize, HeaderSize + TrainerSize) else [];
    (prg, chr, trainer)
  }

  /** `parse_rom` without its file I/O: a file under 16 bytes is rejected
      before the header is read, and a PRG too short for the vector table
      raises struct.error. */
  function ParseRom(data: seq<byte>): (r: Result<Rom, string>)
    ensures |data| < 16 ==> r == Err("ValueError")
    ensures |data| >= 16 && data[..4] != Magic ==> r == Err("ValueError")
    ensures r.Ok? ==> ParseHeader(data) == Ok(r.value.header)
  {
    if |data| < 16 then Err("ValueError")
    else
      match ParseHeader(data)
      case Err(e) => Err(e)
      case Ok(h) =>
        var seg := Segments(data, h);
        match InterruptVectors(seg.0)
        case Err(e) => Err(e)
        case Ok(v) => Ok(Rom(h, seg.0, seg.1, seg.2, v))
  }

  /** A file of 16 bytes or more whose magic is right never fails on the
      header; it then fails only when fewer than 16 KiB of PRG are present.
      PRG never exceeds the size the header declares, and CHR is empty
      whenever CHR RAM is used. */
  lemma ParseRomOutcome(data: seq<byte>)
    requires |data| >= 16 && data[..4] == Magic
    ensures ParseHeader(data).Ok?
    ensures var h := ParseHeader(data).value;
      var r := ParseRom(data);
      && (r.Ok? <==> |Segments(data, h).0| >= 0x4000)
      && (r.Err? ==> r.error == "struct.error")
      && (r.Ok? ==> |r.value.prg| <= h.prgRomSize && (h.chrRam ==> r.value.chr == []))
  {
  }

  /** The file a ROM author assembles: header, optional trainer, PRG, CHR. */
  function RomImage(f: Fields, trainer: seq<byte>, prg: seq<byte>, chr: seq<byte>): seq<byte>
    requires ValidFields(f)
  {
    EncodeHeader(f) + trainer + prg + chr
  }

  /** Cutting a well-formed image gives back the segments it was built from. */
  lemma ImageRoundTrip(f: Fields, trainer: seq<byte>, prg: seq<byte>, chr: seq<byte>)
    requires ValidFields(f)
    requires |trainer| == (if f.trainer then 512 else 0)
    requires |prg| == f.prgBanks * 16384 && |chr| == f.chrBanks * 8192
    requires f.prgBanks >= 1
    ensures var r := ParseRom(RomImage(f, trainer, prg, chr));
      && r.Ok?
      && r.value.prg == prg
      && r.value.chr == chr
      && r.value.trainer == trainer
  {
    var data := RomImage(f, trainer, prg, chr);
    ImageHeader(f, trainer, prg, chr);
    var h := ParseHeader(data).value;
    ImageSegments(EncodeHeader(f), trainer, prg, chr, h);
  }

  /** The header decoded from a well-formed image describes its segments. */
  lemma ImageHeader(f: Fields, trainer: seq<byte>, prg: seq<byte>, chr: seq<byte>)
    requires ValidFields(f)
    requires |trainer| == (if f.trainer then 512 else 0)
    requires |prg| == f.prgBanks * 16384 && |chr| == f.chrBanks * 8192
    ensures var r := ParseHeader(RomImage(f, trainer, prg, chr));
      && r.Ok?
      && r.value.prgOffset == 16 + |trainer|
      && r.value.prgRomSize == |prg|
      && r.value.chrOffset == 16 + |trainer| + |prg|
      && r.value.chrRomSize == |chr|
      && (r.value.chrRam ==> chr == [])
      && (r.value.trainerPresent <==> f.trainer)
  {
    var head := EncodeHeader(f);
    var rest := trainer + prg + chr;
    HeaderRoundTrip(f);
    Regroup(head, trainer, prg, chr);
    HeaderPrefix(head, rest);
    HeaderLayout(head);
    var h := ParseHeader(head).value;
    assert h.prgRomBanks == f.prgBanks && h.chrRomBanks == f.chrBanks && h.trainerPresent == f.trainer;
  }

  lemma Regroup(head: seq<byte>, trainer: seq<byte>, prg: seq<byte>, chr: seq<byte>)
    ensures head + trainer + prg + chr == head + (trainer + prg + chr)
  {
  }

  /** The clamped slices of `Segments` cut an image at the offsets its
      header gives. */
  lemma ImageSegments(head: seq<byte>, trainer: seq<byte>, prg: seq<byte>, chr: seq<byte>, h: Header)
    requires |head| == 16
    requires h.prgOffset == 16 + |trainer| && h.prgRomSize == |prg|
    requires h.chrOffset == 16 + |trainer| + |prg| && h.chrRomSize == |chr|
    requires h.chrRam ==> chr == []
    requires h.trainerPresent ==> |trainer| == 512
    requires !h.trainerPresent ==> trainer == []
    ensures Segments(head + trainer + prg + chr, h) == (prg, chr, trainer)
  {
    var data := head + trainer + prg + chr;
    assert data[16 + |trainer|..16 + |trainer| + |prg|] == prg;
    assert data[16 + |trainer| + |prg|..16 + |trainer| + |prg| + |chr|] == chr;
    assert data[16..16 + |trainer|] == trainer;
  }
}
