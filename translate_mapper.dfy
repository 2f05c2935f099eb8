/** Stage 5 of the pipeline: the choice of the SNES-side mapper stub and the
    LoROM bank layout that places each 16 KiB NES PRG bank in its own SNES
    bank. */
module TranslateMapper {
  import opened Common
  import opened PyText
  import ParseRom

  /** The mapper stub texts, kept as opaque tokens. */
  datatype Stub = NromAsm | Mmc1Asm | UnromAsm | CnromAsm | Mmc3Asm | UnsupportedAsm

  const MapperAsm: map<nat, Stub> := map[0 := NromAsm, 1 := Mmc1Asm, 2 := UnromAsm, 3 := CnromAsm, 4 := Mmc3Asm]

  /** `set(MAPPER_ASM.keys())`. */
  const SupportedMappers: set<nat> := MapperAsm.Keys

  /** The stub `main` writes and the warning it prints to stderr. */
  function SelectStub(mapperId: nat): (r: (Stub, Option<string>))
    ensures r.0 == UnsupportedAsm <==> mapperId !in SupportedMappers
    ensures r.1.Some? <==> mapperId !in SupportedMappers
    ensures r.1.Some? ==>
      r.1.value == "[translate_mapper] WARNING: Mapper #" + DecPad(mapperId, 1) + " not supported \U{2014} writing diagnostic stub"
  {
    var asm := if mapperId in MapperAsm then MapperAsm[mapperId] else UnsupportedAsm;
    var warning := if mapperId !in SupportedMappers then
      Some("[translate_mapper] WARNING: Mapper #" + DecPad(mapperId, 1) + " not supported \U{2014} writing diagnostic stub")
    else None;
    (asm, warning)
  }

  /** Every supported mapper gets a stub of its own. */
  lemma StubsDistinct(m: nat, n: nat)
    requires m in SupportedMappers && n in SupportedMappers && m != n
    ensures SelectStub(m).0 != SelectStub(n).0
  {
  }

  /** The stage agrees with the manifest: it writes a real stub exactly when
      stage 1 marked the mapper as supported. */
  lemma SupportAgrees(data: seq<byte>)
    requires ParseRom.ParseHeader(data).Ok?
    ensures var h := ParseRom.ParseHeader(data).value;
      (SelectStub(h.mapperId).0 != UnsupportedAsm) == h.mapperSupported
  {
    var h := ParseRom.ParseHeader(data).value;
    assert h.mapperSupported == (h.mapperId in ParseRom.SupportedMappers);
    assert ParseRom.SupportedMappers == SupportedMappers;
  }

  // ---------------------------------------------------------------------------
  // Bank layout
  // ---------------------------------------------------------------------------

  const NesBankSize: nat := 0x4000

  datatype BankEntry = BankEntry(snesBank: string, prgSourceOffset: nat, prgSourceSize: nat, nesBankNum: nat)

  datatype Layout = Layout(
    romFormat: string,
    totalSnesBanks: nat,
    bankMap: seq<BankEntry>,
    systemBank: string,
    audioBank: string,
    fixedLastBank: string)

  /** `f"0x{n:02X}"`. */
  function BankText(n: nat): string
  {
    "0x" + HexPad(n, 2)
  }

  /** A bank number's text reads back as that number. */
  lemma BankTextParses(n: nat)
    ensures ParseHex(BankText(n)) == Some(n)
  {
    ParsePrefixedHex(HexPad(n, 2));
  }

  /** The entry for NES bank i. */
  function EntryFor(i: nat): BankEntry
  {
    BankEntry(BankText(i + 1), i * 0x4000, 0x4000, i)
  }

  /** `build_bank_layout`: NES bank i goes to SNES bank i + 1, bank 0 is kept
      for the system code, and the audio bank and the fixed last bank follow
      the PRG banks. */
  method BuildBankLayout(prgBanks: nat) returns (layout: Layout)
    ensures |layout.bankMap| == prgBanks
    ensures forall i :: 0 <= i < prgBanks ==> layout.bankMap[i] == EntryFor(i)
    ensures layout.totalSnesBanks == prgBanks + 1
    ensures layout.romFormat == "LoROM" && layout.systemBank == "0x00"
    ensures layout.audioBank == BankText(prgBanks + 1)
    ensures layout.fixedLastBank == BankText(prgBanks + 2)
  {
    var bankMap: seq<BankEntry> := [];
    var loromBank := 1;
    for i := 0 to prgBanks
      invariant loromBank == i + 1
      invariant |bankMap| == i
      invariant forall k :: 0 <= k < i ==> bankMap[k] == EntryFor(k)
    {
      var entry := BankEntry(BankText(loromBank), i * 0x4000, 0x4000, i);
      assert entry == EntryFor(i);
      LayoutSnoc(bankMap, entry);
      bankMap := bankMap + [entry];
      loromBank := loromBank + 1;
    }
    return Layout("LoROM", loromBank, bankMap, "0x00", BankText(loromBank), BankText(loromBank + 1));
  }

  lemma LayoutSnoc(bankMap: seq<BankEntry>, entry: BankEntry)
    requires forall k :: 0 <= k < |bankMap| ==> bankMap[k] == EntryFor(k)
    requires entry == EntryFor(|bankMap|)
    ensures forall k :: 0 <= k < |bankMap| + 1 ==> (bankMap + [entry])[k] == EntryFor(k)
  {
  }

  /** Entries built by `EntryFor` cover the PRG image: consecutive ranges
      abut, distinct ranges are disjoint, and every PRG offset lies in the
      range of exactly one bank, the one numbered offset / 0x4000. */
  lemma LayoutCoversPrg(prgBanks: nat, x: nat)
    requires x < prgBanks * NesBankSize
    ensures var i := x / NesBankSize;
      && i < prgBanks
      && EntryFor(i).prgSourceOffset <= x < EntryFor(i).prgSourceOffset + EntryFor(i).prgSourceSize
      && forall j :: 0 <= j < prgBanks && EntryFor(j).prgSourceOffset <= x < EntryFor(j).prgSourceOffset + EntryFor(j).prgSourceSize ==> j == i
  {
    var i := x / NesBankSize;
    forall j | 0 <= j < prgBanks && EntryFor(j).prgSourceOffset <= x < EntryFor(j).prgSourceOffset + EntryFor(j).prgSourceSize
      ensures j == i
    {
      UniqueQuotient(x, j);
    }
  }

  lemma UniqueQuotient(x: nat, j: nat)
    requires j * 0x4000 <= x < j * 0x4000 + 0x4000
    ensures x / 0x4000 == j
  {
  }

  /** Neighbouring entries abut and any two entries are disjoint. */
  lemma EntriesContiguous(i: nat, j: nat)
    requires i < j
    ensures EntryFor(i).prgSourceOffset + EntryFor(i).prgSourceSize == EntryFor(i + 1).prgSourceOffset
    ensures EntryFor(i).prgSourceOffset + EntryFor(i).prgSourceSize <= EntryFor(j).prgSourceOffset
  {
  }

  /** Different bank numbers have different texts. */
  lemma BankTextInjective(m: nat, n: nat)
    ensures BankText(m) == BankText(n) <==> m == n
  {
    if BankText(m) == BankText(n) {
      assert BankText(m)[2..] == HexPad(m, 2);
      assert BankText(n)[2..] == HexPad(n, 2);
    }
  }

  /** The system bank text of the layout is bank number 0. */
  lemma SystemBankText()
    ensures BankText(0) == "0x00"
  {
    assert HexPad(0, 1) == "0";
    assert HexPad(0, 2) == HexPad(0, 1) + "0";
  }

  /** Every NES bank has a SNES bank of its own. */
  lemma SnesBanksDistinct(i: nat, j: nat)
    requires i < j
    ensures EntryFor(i).snesBank != EntryFor(j).snesBank
  {
    BankTextDistinct(i + 1, j + 1);
  }

  /** No NES bank is placed in a reserved bank: the system bank
      (`BankText(0)`, the "0x00" of the layout), the audio bank or the fixed
      last bank. */
  lemma SnesBanksReserved(prgBanks: nat, i: nat, reserved: nat)
    requires i < prgBanks
    requires reserved == 0 || reserved == prgBanks + 1 || reserved == prgBanks + 2
    ensures EntryFor(i).snesBank != BankText(reserved)
  {
    BankTextDistinct(i + 1, reserved);
  }

  lemma BankTextDistinct(m: nat, n: nat)
    requires m != n
    ensures BankText(m) != BankText(n)
  {
    BankTextInjective(m, n);
  }

}
