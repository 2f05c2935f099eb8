/** Stage 6 of the pipeline: NES 2bpp planar CHR tiles become SNES 4bpp
    planar tiles, and the NES master palette becomes SNES 15-bit BGR CGRAM
    words. */
module ConvertGraphics {
  import opened Common
  import opened Bits

  datatype Rgb = Rgb(r: byte, g: byte, b: byte)

  /** The NTSC NES master palette: 64 RGB triples in four rows of sixteen,
      one row per luminance level. */
  const NesPalette: seq<Rgb> := PaletteRow0 + PaletteRow1 + PaletteRow2 + PaletteRow3

  const PaletteRow0: seq<Rgb> := [
    Rgb(84, 84, 84), Rgb(0, 30, 116), Rgb(8, 16, 144), Rgb(48, 0, 136),
    Rgb(68, 0, 100), Rgb(92, 0, 48), Rgb(84, 4, 0), Rgb(60, 24, 0),
    Rgb(32, 42, 0), Rgb(8, 58, 0), Rgb(0, 64, 0), Rgb(0, 60, 0),
    Rgb(0, 50, 60), Rgb(0, 0, 0), Rgb(0, 0, 0), Rgb(0, 0, 0)]

  const PaletteRow1: seq<Rgb> := [
    Rgb(152, 150, 152), Rgb(8, 76, 196), Rgb(48, 50, 236), Rgb(92, 30, 228),
    Rgb(136, 20, 176), Rgb(160, 20, 100), Rgb(152, 34, 32), Rgb(120, 60, 0),
    Rgb(84, 90, 0), Rgb(40, 114, 0), Rgb(8, 124, 0), Rgb(0, 118, 40),
    Rgb(0, 102, 120), Rgb(0, 0, 0), Rgb(0, 0, 0), Rgb(0, 0, 0)]

  const PaletteRow2: seq<Rgb> := [
    Rgb(236, 238, 236), Rgb(76, 154, 236), Rgb(120, 124, 236), Rgb(176, 98, 236),
    Rgb(228, 84, 236), Rgb(236, 88, 180), Rgb(236, 106, 100), Rgb(212, 136, 32),
    Rgb(160, 170, 0), Rgb(116, 196, 0), Rgb(76, 208, 32), Rgb(56, 204, 108),
    Rgb(56, 180, 204), Rgb(60, 60, 60), Rgb(0, 0, 0), Rgb(0, 0, 0)]

  const PaletteRow3: seq<Rgb> := [
    Rgb(236, 238, 236), Rgb(168, 204, 236), Rgb(188, 188, 236), Rgb(212, 178, 236),
    Rgb(236, 174, 236), Rgb(236, 174, 212), Rgb(236, 180, 176), Rgb(228, 196, 144),
    Rgb(204, 210, 120), Rgb(180, 222, 120), Rgb(168, 226, 144), Rgb(152, 226, 180),
    Rgb(160, 214, 228), Rgb(160, 162, 160), Rgb(0, 0, 0), Rgb(0, 0, 0)]

  // ---------------------------------------------------------------------------
  // Colours
  // ---------------------------------------------------------------------------

  /** `((b >> 3) << 10) | ((g >> 3) << 5) | (r >> 3)`: the three five-bit
      fields occupy disjoint bits, so the or is their sum. */
  function RgbToSnesBgr(c: Rgb): nat
  {
    (c.b / 8) * 1024 + (c.g / 8) * 32 + c.r / 8
  }

  /** The word is 15 bits wide, with red in bits 0-4, green in bits 5-9 and
      blue in bits 10-14, each the top five bits of its 8-bit channel. */
  lemma BgrFields(c: Rgb)
    ensures var w := RgbToSnesBgr(c);
      && w < 0x8000
      && w % 32 == c.r / 8
      && (w / 32) % 32 == c.g / 8
      && w / 1024 == c.b / 8
  {
    var w := RgbToSnesBgr(c);
    FieldSplit(c.r / 8, c.g / 8, c.b / 8);
  }

  lemma FieldSplit(r: nat, g: nat, b: nat)
    requires r < 32 && g < 32 && b < 32
    ensures var w := b * 1024 + g * 32 + r;
      && w < 0x8000
      && w % 32 == r
      && w / 32 == b * 32 + g
      && (w / 32) % 32 == g
      && w / 1024 == b
  {
  }

  /** Two colours map to the same word exactly when they agree in the top
      five bits of every channel. */
  lemma BgrSameWord(c: Rgb, d: Rgb)
    ensures RgbToSnesBgr(c) == RgbToSnesBgr(d)
      <==> c.r / 8 == d.r / 8 && c.g / 8 == d.g / 8 && c.b / 8 == d.b / 8
  {
    BgrFields(c);
    BgrFields(d);
  }

  function Brightness(c: Rgb): nat
  {
    c.r + c.g + c.b
  }

  /** `default_nes_subpalette`: master colours 0x0F, 0x00, 0x10, 0x30. */
  function DefaultSubpalette(): (pal: seq<Rgb>)
    ensures |pal| == 4 && pal[0] == Rgb(0, 0, 0)
    ensures forall i, j :: 0 <= i < j < 4 ==> Brightness(pal[i]) < Brightness(pal[j])
  {
    assert NesPalette[0x0F] == Rgb(0, 0, 0) && NesPalette[0x00] == Rgb(84, 84, 84);
    assert NesPalette[0x10] == Rgb(152, 150, 152) && NesPalette[0x30] == Rgb(236, 238, 236);
    [NesPalette[0x0F], NesPalette[0x00], NesPalette[0x10], NesPalette[0x30]]
  }

  // ---------------------------------------------------------------------------
  // Tiles
  // ---------------------------------------------------------------------------

  /** The SNES 4bpp layout of a 2bpp tile: plane 0 and plane 1 rows
      interleaved in bytes 0..15, planes 2 and 3 zero in bytes 16..31. */
  function Snes4bpp(tile: seq<byte>): (out: seq<byte>)
    requires |tile| == 16
    ensures |out| == 32
    ensures forall row :: 0 <= row < 8 ==> out[2 * row] == tile[row] && out[2 * row + 1] == tile[8 + row]
    ensures forall k :: 16 <= k < 32 ==> out[k] == 0
  {
    seq(32, k requires 0 <= k < 32 => if k >= 16 then 0 else if k % 2 == 0 then tile[k / 2] else tile[8 + k / 2])
  }

  /** The NES tile a 4bpp tile holds in planes 0 and 1. */
  function NesTileOf(snes: seq<byte>): (tile: seq<byte>)
    requires |snes| == 32
    ensures |tile| == 16
  {
    seq(16, k requires 0 <= k < 16 => if k < 8 then snes[2 * k] else snes[2 * (k - 8) + 1])
  }

  /** Nothing of a tile is lost in the conversion. */
  lemma TileRoundTrip(tile: seq<byte>)
    requires |tile| == 16
    ensures NesTileOf(Snes4bpp(tile)) == tile
  {
    var back := NesTileOf(Snes4bpp(tile));
    forall k | 0 <= k < 16 ensures back[k] == tile[k] {
      if k >= 8 {
        assert Snes4bpp(tile)[2 * (k - 8) + 1] == tile[8 + (k - 8)];
      }
    }
  }

  /** `nes_tile_to_snes_4bpp`: anything but 16 bytes raises ValueError. */
  method NesTileToSnes4bpp(tile: seq<byte>) returns (r: Result<seq<byte>, string>)
    ensures r.Ok? <==> |tile| == 16
    ensures r.Ok? ==> r.value == Snes4bpp(tile)
    ensures r.Err? ==> r.error == "ValueError"
  {
    if |tile| != 16 {
      return Err("ValueError");
    }
    var plane0 := tile[0..8];
    var plane1 := tile[8..16];
    var planes01: seq<byte> := [];
    for row := 0 to 8
      invariant |planes01| == 2 * row
      invariant forall k :: 0 <= k < 2 * row ==> planes01[k] == Snes4bpp(tile)[k]
    {
      assert plane0[row] == Snes4bpp(tile)[2 * row] && plane1[row] == Snes4bpp(tile)[2 * row + 1];
      SnocIndex(planes01, plane0[row]);
      planes01 := planes01 + [plane0[row]];
      SnocIndex(planes01, plane1[row]);
      planes01 := planes01 + [plane1[row]];
    }
    var planes23: seq<byte> := seq(16, _ => 0);
    var out := planes01 + planes23;
    forall k | 0 <= k < 32
      ensures out[k] == Snes4bpp(tile)[k]
    {
      if k >= 16 {
        assert out[k] == planes23[k - 16];
      }
    }
    return Ok(out);
  }

  /** The 2bpp colour index of a pixel: bit `col` of the plane 1 row above
      bit `col` of the plane 0 row. */
  function PixelIndex(tile: seq<byte>, row: nat, col: nat): (idx: nat)
    requires |tile| >= 16 && row < 8 && col < 8
    ensures idx < 4
    ensures idx % 2 == (if Bit(tile[row], col) then 1 else 0)
    ensures idx / 2 == (if Bit(tile[8 + row], col) then 1 else 0)
  {
    (if Bit(tile[8 + row], col) then 2 else 0) + (if Bit(tile[row], col) then 1 else 0)
  }

  /** The colour index of pixel k in row-major order, leftmost pixel (bit 7)
      first. */
  function PixelAt(tile: seq<byte>, k: nat): (idx: nat)
    requires |tile| >= 16 && k < 64
    ensures idx < 4
  {
    PixelIndex(tile, k / 8, 7 - k % 8)
  }

  /** Pixel (row, x) of the image is bit 7 - x of the two plane rows. */
  lemma PixelPosition(tile: seq<byte>, row: nat, x: nat)
    requires |tile| >= 16 && row < 8 && x < 8
    ensures PixelAt(tile, 8 * row + x) == PixelIndex(tile, row, 7 - x)
  {
  }

  /** The colour indices `tile_to_rgba_image` looks up, in the order it
      appends the pixels. */
  method TilePixelIndices(tile: seq<byte>) returns (pixels: seq<nat>)
    requires |tile| >= 16
    ensures |pixels| == 64
    ensures forall k :: 0 <= k < 64 ==> pixels[k] == PixelAt(tile, k)
    ensures forall k :: 0 <= k < 64 ==> pixels[k] < 4
  {
    pixels := [];
    for row := 0 to 8
      invariant |pixels| == 8 * row
      invariant forall k :: 0 <= k < 8 * row ==> pixels[k] == PixelAt(tile, k)
    {
      var col := 7;
      while col >= 0
        invariant -1 <= col <= 7
        invariant |pixels| == 8 * row + (7 - col)
        invariant forall k :: 0 <= k < |pixels| ==> pixels[k] == PixelAt(tile, k)
      {
        PixelPosition(tile, row, 7 - col);
        pixels := pixels + [PixelIndex(tile, row, col)];
        col := col - 1;
      }
    }
  }

  // ---------------------------------------------------------------------------
  // Whole CHR
  // ---------------------------------------------------------------------------

  datatype TileMapEntry = TileMapEntry(nesTile: nat, snesTile: nat, palette: nat)

  datatype Graphics = Graphics(chrSnes: seq<byte>, cgram: seq<byte>, tileMap: seq<TileMapEntry>)

  /** The first n tiles of CHR, converted and concatenated. */
  function SnesChr(chr: seq<byte>, n: nat): (out: seq<byte>)
    requires 16 * n <= |chr|
    ensures |out| == 32 * n
  {
    if n == 0 then [] else SnesChr(chr, n - 1) + Snes4bpp(chr[16 * (n - 1)..16 * n])
  }

  /** Tile i of the SNES CHR is the conversion of NES tile i. */
  lemma {:induction false} SnesChrTile(chr: seq<byte>, n: nat, i: nat)
    requires 16 * n <= |chr| && i < n
    ensures SnesChr(chr, n)[32 * i..32 * i + 32] == Snes4bpp(chr[16 * i..16 * i + 16])
  {
    var prefix := SnesChr(chr, n - 1);
    if i < n - 1 {
      SnesChrTile(chr, n - 1, i);
      assert SnesChr(chr, n)[32 * i..32 * i + 32] == prefix[32 * i..32 * i + 32];
    } else {
      assert SnesChr(chr, n)[32 * i..32 * i + 32] == SnesChr(chr, n)[|prefix|..];
    }
  }

  /** Every NES tile can be read back from the SNES CHR. */
  lemma ChrRoundTrip(chr: seq<byte>, n: nat, i: nat)
    requires 16 * n <= |chr| && i < n
    ensures NesTileOf(SnesChr(chr, n)[32 * i..32 * i + 32]) == chr[16 * i..16 * i + 16]
  {
    SnesChrTile(chr, n, i);
    TileRoundTrip(chr[16 * i..16 * i + 16]);
  }

  /** The CGRAM words of the first n colours of a palette, little-endian. */
  function CgramOf(pal: seq<Rgb>, n: nat): (out: seq<byte>)
    requires n <= |pal|
    ensures |out| == 2 * n
  {
    if n == 0 then []
    else
      var w := RgbToSnesBgr(pal[n - 1]);
      BgrFields(pal[n - 1]);
      CgramOf(pal, n - 1) + [w % 256, w / 256]
  }

  /** Colour i of CGRAM is the BGR word of palette colour i, and its high
      byte never has bit 7 set. */
  lemma {:induction false} CgramWord(pal: seq<Rgb>, n: nat, i: nat)
    requires n <= |pal| && i < n
    ensures var out := CgramOf(pal, n);
      && out[2 * i] as int + 256 * (out[2 * i + 1] as int) == RgbToSnesBgr(pal[i])
      && out[2 * i + 1] < 128
  {
    BgrFields(pal[n - 1]);
    if i < n - 1 {
      CgramWord(pal, n - 1, i);
      assert CgramOf(pal, n)[2 * i] == CgramOf(pal, n - 1)[2 * i];
      assert CgramOf(pal, n)[2 * i + 1] == CgramOf(pal, n - 1)[2 * i + 1];
    }
  }

  lemma CgramSnoc(pal: seq<Rgb>, n: nat)
    requires n < |pal|
    ensures RgbToSnesBgr(pal[n]) < 0x8000
    ensures CgramOf(pal, n + 1) == CgramOf(pal, n) + [RgbToSnesBgr(pal[n]) % 256, RgbToSnesBgr(pal[n]) / 256]
  {
    BgrFields(pal[n]);
  }

  /** The tile loop of `convert_graphics`: every whole 16-byte tile is
      converted and appended, and gets the identity tile-map entry; a
      trailing partial tile is ignored. */
  method ConvertTiles(data: seq<byte>) returns (snesChr: seq<byte>, tileMap: seq<TileMapEntry>)
    ensures snesChr == SnesChr(data, |data| / 16)
    ensures |tileMap| == |data| / 16
    ensures forall i :: 0 <= i < |tileMap| ==> tileMap[i] == TileMapEntry(i, i, 0)
  {
    var tileCount := |data| / 16;
    snesChr := [];
    tileMap := [];
    for i := 0 to tileCount
      invariant snesChr == SnesChr(data, i)
      invariant |tileMap| == i
      invariant forall k :: 0 <= k < i ==> tileMap[k] == TileMapEntry(k, k, 0)
    {
      var tileBytes := data[i * 16..(i + 1) * 16];
      var snesTile := NesTileToSnes4bpp(tileBytes);
      snesChr := snesChr + snesTile.value;
      tileMap := tileMap + [TileMapEntry(i, i, 0)];
    }
  }

  /** The CGRAM loop of `convert_graphics`: the first 16 master colours. */
  method BuildCgram() returns (cgram: seq<byte>)
    ensures cgram == CgramOf(NesPalette, 16)
  {
    cgram := CgramLoop(NesPalette, 16);
  }

  /** The words of the first `count` colours of `pal`, the index taken
      modulo the palette length as the source does. */
  method CgramLoop(pal: seq<Rgb>, count: nat) returns (cgram: seq<byte>)
    requires count <= |pal|
    ensures cgram == CgramOf(pal, count)
  {
    cgram := [];
    for colorIdx := 0 to count
      invariant cgram == CgramOf(pal, colorIdx)
    {
      ModSmall(colorIdx, |pal|);
      var nesRgb := pal[colorIdx % |pal|];
      var snesColor := RgbToSnesBgr(nesRgb);
      CgramSnoc(pal, colorIdx);
      cgram := cgram + [snesColor % 256, snesColor / 256];
    }
  }

  lemma ModSmall(x: nat, n: nat)
    requires x < n
    ensures x % n == x
  {
  }

  /** `convert_graphics` without its file I/O. `chr` is None when
      chr_rom.bin is missing; a missing or empty CHR gives empty outputs. */
  method ConvertChr(chr: Option<seq<byte>>) returns (g: Graphics)
    ensures chr.None? || chr.value == [] ==> g == Graphics([], [], [])
    ensures chr.Some? && chr.value != [] ==>
      && g.chrSnes == SnesChr(chr.value, |chr.value| / 16)
      && g.cgram == CgramOf(NesPalette, 16)
      && |g.tileMap| == |chr.value| / 16
      && (forall i :: 0 <= i < |g.tileMap| ==> g.tileMap[i] == TileMapEntry(i, i, 0))
  {
    if chr.None? || chr.value == [] {
      return Graphics([], [], []);
    }
    var snesChr, tileMap := ConvertTiles(chr.value);
    var cgram := BuildCgram();
    return Graphics(snesChr, cgram, tileMap);
  }
}
