/** The fallback recursive-descent 6502 disassembler of disassemble.py
    (`disassemble_with_capstone`): the opcode table, operand decoding with
    clamped reads, the worklist traversal from the interrupt vectors, the
    hardware-register access sites, the function records and the per-bank
    listings. Files are not written: the tables and listings are results. */
module Disassembler {
  import opened Common
  import opened PyText

  /** Load address of the PRG image. */
  const Base: int := 0x8000
  /** Size of one NES PRG bank (and of one listing). */
  const BankSize: int := 0x4000

  // ---------------------------------------------------------------------------
  // Opcode table
  // ---------------------------------------------------------------------------

  datatype Mnemonic =
    ADC | AND | ASL | BCC | BCS | BEQ | BIT | BMI | BNE | BPL | BRK | BVC | BVS | CLC
    | CLD | CLI | CLV | CMP | CPX | CPY | DEC | DEX | DEY | EOR | INC | INX | INY | JMP
    | JSR | LDA | LDX | LDY | LSR | NOP | ORA | PHA | PHP | PLA | PLP | ROL | ROR | RTI
    | RTS | SBC | SEC | SED | SEI | STA | STX | STY | TAX | TAY | TSX | TXA | TXS | TYA

  function MnemonicText(m: Mnemonic): (s: string)
    ensures |s| == 3 && 'A' <= s[0] <= 'Z' && 'A' <= s[1] <= 'Z' && 'A' <= s[2] <= 'Z'
  {
    match m
    case ADC => "ADC"
    case AND => "AND"
    case ASL => "ASL"
    case BCC => "BCC"
    case BCS => "BCS"
    case BEQ => "BEQ"
    case BIT => "BIT"
    case BMI => "BMI"
    case BNE => "BNE"
    case BPL => "BPL"
    case BRK => "BRK"
    case BVC => "BVC"
    case BVS => "BVS"
    case CLC => "CLC"
    case CLD => "CLD"
    case CLI => "CLI"
    case CLV => "CLV"
    case CMP => "CMP"
    case CPX => "CPX"
    case CPY => "CPY"
    case DEC => "DEC"
    case DEX => "DEX"
    case DEY => "DEY"
    case EOR => "EOR"
    case INC => "INC"
    case INX => "INX"
    case INY => "INY"
    case JMP => "JMP"
    case JSR => "JSR"
    case LDA => "LDA"
    case LDX => "LDX"
    case LDY => "LDY"
    case LSR => "LSR"
    case NOP => "NOP"
    case ORA => "ORA"
    case PHA => "PHA"
    case PHP => "PHP"
    case PLA => "PLA"
    case PLP => "PLP"
    case ROL => "ROL"
    case ROR => "ROR"
    case RTI => "RTI"
    case RTS => "RTS"
    case SBC => "SBC"
    case SEC => "SEC"
    case SED => "SED"
    case SEI => "SEI"
    case STA => "STA"
    case STX => "STX"
    case STY => "STY"
    case TAX => "TAX"
    case TAY => "TAY"
    case TSX => "TSX"
    case TXA => "TXA"
    case TXS => "TXS"
    case TYA => "TYA"
  }

  /** Addressing modes: imp, acc, imm, zp, zpx, zpy, abs, abx, aby, ind, izx, izy, rel. */
  datatype Mode = Imp | Acc | Imm | Zp | Zpx | Zpy | Abs | Abx | Aby | Ind | Izx | Izy | Rel

  /** The encoded length a mode implies: one opcode byte plus its operand bytes. */
  function ModeLength(mode: Mode): (n: nat)
    ensures 1 <= n <= 3
  {
    match mode
    case Imp | Acc => 1
    case Imm | Zp | Zpx | Zpy | Izx | Izy | Rel => 2
    case Abs | Abx | Aby | Ind => 3
  }

  datatype OpInfo = OpInfo(mnem: Mnemonic, mode: Mode, length: nat)

  predicate IsBranch(m: Mnemonic)
  {
    m in {BPL, BMI, BVC, BVS, BCC, BCS, BNE, BEQ}
  }

  predicate IsTerminator(m: Mnemonic)
  {
    m in {RTS, RTI, BRK}
  }

  /** The fixed opcode table: 151 documented 6502 opcodes, each with its
      mnemonic, addressing mode and length; `None` for every other byte.
      The table is written one row (high nibble) at a time. */
  function Opcode(b: byte): (r: Option<OpInfo>)
    ensures r.Some? ==> r.value.length == ModeLength(r.value.mode)
    ensures r.Some? ==> (IsBranch(r.value.mnem) <==> r.value.mode == Rel)
    ensures r.Some? && r.value.mnem == JSR ==> r.value.mode == Abs
    ensures r.Some? && r.value.mnem == JMP ==> r.value.mode in {Abs, Ind}
  {
    var low := b % 16;
    match b / 16
    case 0x0 => OpcodeRow0(low)
    case 0x1 => OpcodeRow1(low)
    case 0x2 => OpcodeRow2(low)
    case 0x3 => OpcodeRow3(low)
    case 0x4 => OpcodeRow4(low)
    case 0x5 => OpcodeRow5(low)
    case 0x6 => OpcodeRow6(low)
    case 0x7 => OpcodeRow7(low)
    case 0x8 => OpcodeRow8(low)
    case 0x9 => OpcodeRow9(low)
    case 0xA => OpcodeRowA(low)
    case 0xB => OpcodeRowB(low)
    case 0xC => OpcodeRowC(low)
    case 0xD => OpcodeRowD(low)
    case 0xE => OpcodeRowE(low)
    case 0xF => OpcodeRowF(low)
  }

  /** Opcodes 0x00..0x0F, indexed by the low nibble. */
  function OpcodeRow0(low: nat): (r: Option<OpInfo>)
    ensures r.Some? ==> r.value.length == ModeLength(r.value.mode)
    ensures r.Some? ==> (IsBranch(r.value.mnem) <==> r.value.mode == Rel)
    ensures r.Some? && r.value.mnem == JSR ==> r.value.mode == Abs
    ensures r.Some? && r.value.mnem == JMP ==> r.value.mode in {Abs, Ind}
  {
    match low
    case 0x0 => Some(OpInfo(BRK, Imp, 1))
    case 0x1 => Some(OpInfo(ORA, Izx, 2))
    case 0x5 => Some(OpInfo(ORA, Zp, 2))
    case 0x6 => Some(OpInfo(ASL, Zp, 2))
    case 0x8 => Some(OpInfo(PHP, Imp, 1))
    case 0x9 => Some(OpInfo(ORA, Imm, 2))
    case 0xA => Some(OpInfo(ASL, Acc, 1))
    case 0xD => Some(OpInfo(ORA, Abs, 3))
    case 0xE => Some(OpInfo(ASL, Abs, 3))
    case _ => None
  }

  /** Opcodes 0x10..0x1F, indexed by the low nibble. */
  function OpcodeRow1(low: nat): (r: Option<OpInfo>)
    ensures r.Some? ==> r.value.length == ModeLength(r.value.mode)
    ensures r.Some? ==> (IsBranch(r.value.mnem) <==> r.value.mode == Rel)
    ensures r.Some? && r.value.mnem == JSR ==> r.value.mode == Abs
    ensures r.Some? && r.value.mnem == JMP ==> r.value.mode in {Abs, Ind}
  {
    match low
    case 0x0 => Some(OpInfo(BPL, Rel, 2))
    case 0x1 => Some(OpInfo(ORA, Izy, 2))
    case 0x5 => Some(OpInfo(ORA, Zpx, 2))
    case 0x6 => Some(OpInfo(ASL, Zpx, 2))
    case 0x8 => Some(OpInfo(CLC, Imp, 1))
    case 0x9 => Some(OpInfo(ORA, Aby, 3))
    case 0xD => Some(OpInfo(ORA, Abx, 3))
    case 0xE => Some(OpInfo(ASL, Abx, 3))
    case _ => None
  }

  /** Opcodes 0x20..0x2F, indexed by the low nibble. */
  function OpcodeRow2(low: nat): (r: Option<OpInfo>)
    ensures r.Some? ==> r.value.length == ModeLength(r.value.mode)
    ensures r.Some? ==> (IsBranch(r.value.mnem) <==> r.value.mode == Rel)
    ensures r.Some? && r.value.mnem == JSR ==> r.value.mode == Abs
    ensures r.Some? && r.value.mnem == JMP ==> r.value.mode in {Abs, Ind}
  {
    match low
    case 0x0 => Some(OpInfo(JSR, Abs, 3))
    case 0x1 => Some(OpInfo(AND, Izx, 2))
    case 0x4 => Some(OpInfo(BIT, Zp, 2))
    case 0x5 => Some(OpInfo(AND, Zp, 2))
    case 0x6 => Some(OpInfo(ROL, Zp, 2))
    case 0x8 => Some(OpInfo(PLP, Imp, 1))
    case 0x9 => Some(OpInfo(AND, Imm, 2))
    case 0xA => Some(OpInfo(ROL, Acc, 1))
    case 0xC => Some(OpInfo(BIT, Abs, 3))
    case 0xD => Some(OpInfo(AND, Abs, 3))
    case 0xE => Some(OpInfo(ROL, Abs, 3))
    case _ => None
  }

  /** Opcodes 0x30..0x3F, indexed by the low nibble. */
  function OpcodeRow3(low: nat): (r: Option<OpInfo>)
    ensures r.Some? ==> r.value.length == ModeLength(r.value.mode)
    ensures r.Some? ==> (IsBranch(r.value.mnem) <==> r.value.mode == Rel)
    ensures r.Some? && r.value.mnem == JSR ==> r.value.mode == Abs
    ensures r.Some? && r.value.mnem == JMP ==> r.value.mode in {Abs, Ind}
  {
    match low
    case 0x0 => Some(OpInfo(BMI, Rel, 2))
    case 0x1 => Some(OpInfo(AND, Izy, 2))
    case 0x5 => Some(OpInfo(AND, Zpx, 2))
    case 0x6 => Some(OpInfo(ROL, Zpx, 2))
    case 0x8 => Some(OpInfo(SEC, Imp, 1))
    case 0x9 => Some(OpInfo(AND, Aby, 3))
    case 0xD => Some(OpInfo(AND, Abx, 3))
    case 0xE => Some(OpInfo(ROL, Abx, 3))
    case _ => None
  }

  /** Opcodes 0x40..0x4F, indexed by the low nibble. */
  function OpcodeRow4(low: nat): (r: Option<OpInfo>)
    ensures r.Some? ==> r.value.length == ModeLength(r.value.mode)
    ensures r.Some? ==> (IsBranch(r.value.mnem) <==> r.value.mode == Rel)
    ensures r.Some? && r.value.mnem == JSR ==> r.value.mode == Abs
    ensures r.Some? && r.value.mnem == JMP ==> r.value.mode in {Abs, Ind}
  {
    match low
    case 0x0 => Some(OpInfo(RTI, Imp, 1))
    case 0x1 => Some(OpInfo(EOR, Izx, 2))
    case 0x5 => Some(OpInfo(EOR, Zp, 2))
    case 0x6 => Some(OpInfo(LSR, Zp, 2))
    case 0x8 => Some(OpInfo(PHA, Imp, 1))
    case 0x9 => Some(OpInfo(EOR, Imm, 2))
    case 0xA => Some(OpInfo(LSR, Acc, 1))
    case 0xC => Some(OpInfo(JMP, Abs, 3))
    case 0xD => Some(OpInfo(EOR, Abs, 3))
    case 0xE => Some(OpInfo(LSR, Abs, 3))
    case _ => None
  }

  /** Opcodes 0x50..0x5F, indexed by the low nibble. */
  function OpcodeRow5(low: nat): (r: Option<OpInfo>)
    ensures r.Some? ==> r.value.length == ModeLength(r.value.mode)
    ensures r.Some? ==> (IsBranch(r.value.mnem) <==> r.value.mode == Rel)
    ensures r.Some? && r.value.mnem == JSR ==> r.value.mode == Abs
    ensures r.Some? && r.value.mnem == JMP ==> r.value.mode in {Abs, Ind}
  {
    match low
    case 0x0 => Some(OpInfo(BVC, Rel, 2))
    case 0x1 => Some(OpInfo(EOR, Izy, 2))
    case 0x5 => Some(OpInfo(EOR, Zpx, 2))
    case 0x6 => Some(OpInfo(LSR, Zpx, 2))
    case 0x8 => Some(OpInfo(CLI, Imp, 1))
    case 0x9 => Some(OpInfo(EOR, Aby, 3))
    case 0xD => Some(OpInfo(EOR, Abx, 3))
    case 0xE => Some(OpInfo(LSR, Abx, 3))
    case _ => None
  }

  /** Opcodes 0x60..0x6F, indexed by the low nibble. */
  function OpcodeRow6(low: nat): (r: Option<OpInfo>)
    ensures r.Some? ==> r.value.length == ModeLength(r.value.mode)
    ensures r.Some? ==> (IsBranch(r.value.mnem) <==> r.value.mode == Rel)
    ensures r.Some? && r.value.mnem == JSR ==> r.value.mode == Abs
    ensures r.Some? && r.value.mnem == JMP ==> r.value.mode in {Abs, Ind}
  {
    match low
    case 0x0 => Some(OpInfo(RTS, Imp, 1))
    case 0x1 => Some(OpInfo(ADC, Izx, 2))
    case 0x5 => Some(OpInfo(ADC, Zp, 2))
    case 0x6 => Some(OpInfo(ROR, Zp, 2))
    case 0x8 => Some(OpInfo(PLA, Imp, 1))
    case 0x9 => Some(OpInfo(ADC, Imm, 2))
    case 0xA => Some(OpInfo(ROR, Acc, 1))
    case 0xC => Some(OpInfo(JMP, Ind, 3))
    case 0xD => Some(OpInfo(ADC, Abs, 3))
    case 0xE => Some(OpInfo(ROR, Abs, 3))
    case _ => None
  }

  /** Opcodes 0x70..0x7F, indexed by the low nibble. */
  function OpcodeRow7(low: nat): (r: Option<OpInfo>)
    ensures r.Some? ==> r.value.length == ModeLength(r.value.mode)
    ensures r.Some? ==> (IsBranch(r.value.mnem) <==> r.value.mode == Rel)
    ensures r.Some? && r.value.mnem == JSR ==> r.value.mode == Abs
    ensures r.Some? && r.value.mnem == JMP ==> r.value.mode in {Abs, Ind}
  {
    match low
    case 0x0 => Some(OpInfo(BVS, Rel, 2))
    case 0x1 => Some(OpInfo(ADC, Izy, 2))
    case 0x5 => Some(OpInfo(ADC, Zpx, 2))
    case 0x6 => Some(OpInfo(ROR, Zpx, 2))
    case 0x8 => Some(OpInfo(SEI, Imp, 1))
    case 0x9 => Some(OpInfo(ADC, Aby, 3))
    case 0xD => Some(OpInfo(ADC, Abx, 3))
    case 0xE => Some(OpInfo(ROR, Abx, 3))
    case _ => None
  }

  /** Opcodes 0x80..0x8F, indexed by the low nibble. */
  function OpcodeRow8(low: nat): (r: Option<OpInfo>)
    ensures r.Some? ==> r.value.length == ModeLength(r.value.mode)
    ensures r.Some? ==> (IsBranch(r.value.mnem) <==> r.value.mode == Rel)
    ensures r.Some? && r.value.mnem == JSR ==> r.value.mode == Abs
    ensures r.Some? && r.value.mnem == JMP ==> r.value.mode in {Abs, Ind}
  {
    match low
    case 0x1 => Some(OpInfo(STA, Izx, 2))
    case 0x4 => Some(OpInfo(STY, Zp, 2))
    case 0x5 => Some(OpInfo(STA, Zp, 2))
    case 0x6 => Some(OpInfo(STX, Zp, 2))
    case 0x8 => Some(OpInfo(DEY, Imp, 1))
    case 0xA => Some(OpInfo(TXA, Imp, 1))
    case 0xC => Some(OpInfo(STY, Abs, 3))
    case 0xD => Some(OpInfo(STA, Abs, 3))
    case 0xE => Some(OpInfo(STX, Abs, 3))
    case _ => None
  }

  /** Opcodes 0x90..0x9F, indexed by the low nibble. */
  function OpcodeRow9(low: nat): (r: Option<OpInfo>)
    ensures r.Some? ==> r.value.length == ModeLength(r.value.mode)
    ensures r.Some? ==> (IsBranch(r.value.mnem) <==> r.value.mode == Rel)
    ensures r.Some? && r.value.mnem == JSR ==> r.value.mode == Abs
    ensures r.Some? && r.value.mnem == JMP ==> r.value.mode in {Abs, Ind}
  {
    match low
    case 0x0 => Some(OpInfo(BCC, Rel, 2))
    case 0x1 => Some(OpInfo(STA, Izy, 2))
    case 0x4 => Some(OpInfo(STY, Zpx, 2))
    case 0x5 => Some(OpInfo(STA, Zpx, 2))
    case 0x6 => Some(OpInfo(STX, Zpy, 2))
    case 0x8 => Some(OpInfo(TYA, Imp, 1))
    case 0x9 => Some(OpInfo(STA, Aby, 3))
    case 0xA => Some(OpInfo(TXS, Imp, 1))
    case 0xD => Some(OpInfo(STA, Abx, 3))
    case _ => None
  }

  /** Opcodes 0xA0..0xAF, indexed by the low nibble. */
  function OpcodeRowA(low: nat): (r: Option<OpInfo>)
    ensures r.Some? ==> r.value.length == ModeLength(r.value.mode)
    ensures r.Some? ==> (IsBranch(r.value.mnem) <==> r.value.mode == Rel)
    ensures r.Some? && r.value.mnem == JSR ==> r.value.mode == Abs
    ensures r.Some? && r.value.mnem == JMP ==> r.value.mode in {Abs, Ind}
  {
    match low
    case 0x0 => Some(OpInfo(LDY, Imm, 2))
    case 0x1 => Some(OpInfo(LDA, Izx, 2))
    case 0x2 => Some(OpInfo(LDX, Imm, 2))
    case 0x4 => Some(OpInfo(LDY, Zp, 2))
    case 0x5 => Some(OpInfo(LDA, Zp, 2))
    case 0x6 => Some(OpInfo(LDX, Zp, 2))
    case 0x8 => Some(OpInfo(TAY, Imp, 1))
    case 0x9 => Some(OpInfo(LDA, Imm, 2))
    case 0xA => Some(OpInfo(TAX, Imp, 1))
    case 0xC => Some(OpInfo(LDY, Abs, 3))
    case 0xD => Some(OpInfo(LDA, Abs, 3))
    case 0xE => Some(OpInfo(LDX, Abs, 3))
    case _ => None
  }

  /** Opcodes 0xB0..0xBF, indexed by the low nibble. */
  function OpcodeRowB(low: nat): (r: Option<OpInfo>)
    ensures r.Some? ==> r.value.length == ModeLength(r.value.mode)
    ensures r.Some? ==> (IsBranch(r.value.mnem) <==> r.value.mode == Rel)
    ensures r.Some? && r.value.mnem == JSR ==> r.value.mode == Abs
    ensures r.Some? && r.value.mnem == JMP ==> r.value.mode in {Abs, Ind}
  {
    match low
    case 0x0 => Some(OpInfo(BCS, Rel, 2))
    case 0x1 => Some(OpInfo(LDA, Izy, 2))
    case 0x4 => Some(OpInfo(LDY, Zpx, 2))
    case 0x5 => Some(OpInfo(LDA, Zpx, 2))
    case 0x6 => Some(OpInfo(LDX, Zpy, 2))
    case 0x8 => Some(OpInfo(CLV, Imp, 1))
    case 0x9 => Some(OpInfo(LDA, Aby, 3))
    case 0xA => Some(OpInfo(TSX, Imp, 1))
    case 0xC => Some(OpInfo(LDY, Abx, 3))
    case 0xD => Some(OpInfo(LDA, Abx, 3))
    case 0xE => Some(OpInfo(LDX, Aby, 3))
    case _ => None
  }

  /** Opcodes 0xC0..0xCF, indexed by the low nibble. */
  function OpcodeRowC(low: nat): (r: Option<OpInfo>)
    ensures r.Some? ==> r.value.length == ModeLength(r.value.mode)
    ensures r.Some? ==> (IsBranch(r.value.mnem) <==> r.value.mode == Rel)
    ensures r.Some? && r.value.mnem == JSR ==> r.value.mode == Abs
    ensures r.Some? && r.value.mnem == JMP ==> r.value.mode in {Abs, Ind}
  {
    match low
    case 0x0 => Some(OpInfo(CPY, Imm, 2))
    case 0x1 => Some(OpInfo(CMP, Izx, 2))
    case 0x4 => Some(OpInfo(CPY, Zp, 2))
    case 0x5 => Some(OpInfo(CMP, Zp, 2))
    case 0x6 => Some(OpInfo(DEC, Zp, 2))
    case 0x8 => Some(OpInfo(INY, Imp, 1))
    case 0x9 => Some(OpInfo(CMP, Imm, 2))
    case 0xA => Some(OpInfo(DEX, Imp, 1))
    case 0xC => Some(OpInfo(CPY, Abs, 3))
    case 0xD => Some(OpInfo(CMP, Abs, 3))
    case 0xE => Some(OpInfo(DEC, Abs, 3))
    case _ => None
  }

  /** Opcodes 0xD0..0xDF, indexed by the low nibble. */
  function OpcodeRowD(low: nat): (r: Option<OpInfo>)
    ensures r.Some? ==> r.value.length == ModeLength(r.value.mode)
    ensures r.Some? ==> (IsBranch(r.value.mnem) <==> r.value.mode == Rel)
    ensures r.Some? && r.value.mnem == JSR ==> r.value.mode == Abs
    ensures r.Some? && r.value.mnem == JMP ==> r.value.mode in {Abs, Ind}
  {
    match low
    case 0x0 => Some(OpInfo(BNE, Rel, 2))
    case 0x1 => Some(OpInfo(CMP, Izy, 2))
    case 0x5 => Some(OpInfo(CMP, Zpx, 2))
    case 0x6 => Some(OpInfo(DEC, Zpx, 2))
    case 0x8 => Some(OpInfo(CLD, Imp, 1))
    case 0x9 => Some(OpInfo(CMP, Aby, 3))
    case 0xD => Some(OpInfo(CMP, Abx, 3))
    case 0xE => Some(OpInfo(DEC, Abx, 3))
    case _ => None
  }

  /** Opcodes 0xE0..0xEF, indexed by the low nibble. */
  function OpcodeRowE(low: nat): (r: Option<OpInfo>)
    ensures r.Some? ==> r.value.length == ModeLength(r.value.mode)
    ensures r.Some? ==> (IsBranch(r.value.mnem) <==> r.value.mode == Rel)
    ensures r.Some? && r.value.mnem == JSR ==> r.value.mode == Abs
    ensures r.Some? && r.value.mnem == JMP ==> r.value.mode in {Abs, Ind}
  {
    match low
    case 0x0 => Some(OpInfo(CPX, Imm, 2))
    case 0x1 => Some(OpInfo(SBC, Izx, 2))
    case 0x4 => Some(OpInfo(CPX, Zp, 2))
    case 0x5 => Some(OpInfo(SBC, Zp, 2))
    case 0x6 => Some(OpInfo(INC, Zp, 2))
    case 0x8 => Some(OpInfo(INX, Imp, 1))
    case 0x9 => Some(OpInfo(SBC, Imm, 2))
    case 0xA => Some(OpInfo(NOP, Imp, 1))
    case 0xC => Some(OpInfo(CPX, Abs, 3))
    case 0xD => Some(OpInfo(SBC, Abs, 3))
    case 0xE => Some(OpInfo(INC, Abs, 3))
    case _ => None
  }

  /** Opcodes 0xF0..0xFF, indexed by the low nibble. */
  function OpcodeRowF(low: nat): (r: Option<OpInfo>)
    ensures r.Some? ==> r.value.length == ModeLength(r.value.mode)
    ensures r.Some? ==> (IsBranch(r.value.mnem) <==> r.value.mode == Rel)
    ensures r.Some? && r.value.mnem == JSR ==> r.value.mode == Abs
    ensures r.Some? && r.value.mnem == JMP ==> r.value.mode in {Abs, Ind}
  {
    match low
    case 0x0 => Some(OpInfo(BEQ, Rel, 2))
    case 0x1 => Some(OpInfo(SBC, Izy, 2))
    case 0x5 => Some(OpInfo(SBC, Zpx, 2))
    case 0x6 => Some(OpInfo(INC, Zpx, 2))
    case 0x8 => Some(OpInfo(SED, Imp, 1))
    case 0x9 => Some(OpInfo(SBC, Aby, 3))
    case 0xD => Some(OpInfo(SBC, Abx, 3))
    case 0xE => Some(OpInfo(INC, Abx, 3))
    case _ => None
  }

  // ---------------------------------------------------------------------------
  // Decoding one instruction
  // ---------------------------------------------------------------------------

  /** `addr` lies in the image `[Base, Base + |prg|)`. */
  predicate InImage(prg: seq<byte>, addr: int)
  {
    Base <= addr < Base + |prg|
  }

  /** An instruction decoded at some address: the table entry and its operand bytes. */
  datatype Decoded = Decoded(mnem: Mnemonic, mode: Mode, length: nat, lo: byte, hi: byte)

  /** The operand byte `k` places after the opcode at offset `off`, or 0 when
      the instruction does not have that byte or it lies past the image end. */
  function OperandByte(prg: seq<byte>, off: nat, k: nat, length: nat): (v: byte)
    ensures off + k < |prg| && length > k ==> v == prg[off + k]
    ensures off + k >= |prg| || length <= k ==> v == 0
  {
    if length > k && off + k < |prg| then prg[off + k] else 0
  }

  /** Decodes the instruction at `addr`: `None` outside the image or for a byte
      the opcode table does not list; otherwise the table entry with its
      operand bytes, read as 0 past the end of the image. */
  function DecodeAt(prg: seq<byte>, addr: int): (r: Option<Decoded>)
    ensures r.Some? ==> InImage(prg, addr)
    ensures r.Some? ==> r.value.length == ModeLength(r.value.mode)
    ensures r.Some? ==> (IsBranch(r.value.mnem) <==> r.value.mode == Rel)
    ensures r.Some? && r.value.mnem == JSR ==> r.value.mode == Abs
    ensures r.Some? && r.value.mnem == JMP ==> r.value.mode in {Abs, Ind}
  {
    if !InImage(prg, addr) then None
    else
      var off := addr - Base;
      match Opcode(prg[off])
      case None => None
      case Some(op) =>
        Some(Decoded(op.mnem, op.mode, op.length,
                     OperandByte(prg, off, 1, op.length), OperandByte(prg, off, 2, op.length)))
  }

  /** `(hi << 8) | lo`: the little-endian 16-bit word of two operand bytes. */
  function Word(lo: byte, hi: byte): nat
  {
    hi * 256 + lo
  }

  /** The word splits back into the two bytes it was built from. */
  lemma WordBytes(lo: byte, hi: byte)
    ensures Word(lo, hi) < 0x10000 && Word(lo, hi) % 256 == lo && Word(lo, hi) / 256 == hi
  {
  }

  /** `DecodeAt` reads the opcode table at the instruction's offset and its
      operand bytes through `OperandByte`, so it never reads past the image. */
  lemma DecodeAtTable(prg: seq<byte>, addr: int)
    ensures DecodeAt(prg, addr).None? <==> !InImage(prg, addr) || Opcode(prg[addr - Base]).None?
    ensures DecodeAt(prg, addr).Some? ==> var d := DecodeAt(prg, addr).value;
      && Opcode(prg[addr - Base]) == Some(OpInfo(d.mnem, d.mode, d.length))
      && d.lo == OperandByte(prg, addr - Base, 1, d.length)
      && d.hi == OperandByte(prg, addr - Base, 2, d.length)
  {
  }

  /** `DecodeAt` for the table entry `o` of the byte at `addr`. */
  lemma DecodeWith(prg: seq<byte>, addr: int, o: Option<OpInfo>)
    requires InImage(prg, addr) && o == Opcode(prg[addr - Base])
    ensures o.None? ==> DecodeAt(prg, addr).None?
    ensures o.Some? ==> DecodeAt(prg, addr) == Some(Decoded(o.value.mnem, o.value.mode, o.value.length,
      OperandByte(prg, addr - Base, 1, o.value.length), OperandByte(prg, addr - Base, 2, o.value.length)))
  {
  }

  /** `abs_addr`: the 16-bit address of an absolute or absolute-indexed operand. */
  function AbsAddr(mode: Mode, lo: byte, hi: byte): (r: Option<nat>)
    ensures r.Some? <==> mode in {Abs, Abx, Aby}
    ensures r.Some? ==> r.value == Word(lo, hi)
  {
    if mode in {Abs, Abx, Aby} then Some(Word(lo, hi)) else None
  }

  /** The signed displacement the traversal gives a relative operand (`lo - 256` for `lo >= 0x80`). */
  function BranchOffset(lo: byte): (d: int)
    ensures -128 <= d < 128
    ensures (d + 256) % 256 == lo
  {
    if lo < 0x80 then lo else lo - 256
  }

  /** The displacement the operand text uses: the source writes `lo - 0x256` here. */
  function DisplayOffset(lo: byte): int
  {
    if lo < 0x80 then lo else lo - 0x256
  }

  /** `f"{b:02X}"`: a byte as exactly two upper-case hex digits. */
  function Hex2(b: byte): (s: string)
    ensures |s| == 2 && s == HexPad(b, 2)
  {
    HexPadStep(b, 2);
    HexPadDigit(b / 16);
    HexPad(b, 2)
  }

  /** `f"{hi:02X}{lo:02X}"`: the operand word as four hex digits. */
  function WordText(lo: byte, hi: byte): (s: string)
    ensures |s| == 4 && s == HexPad(Word(lo, hi), 4)
  {
    HexPadWord(hi, lo, Word(lo, hi));
    Hex2(hi) + Hex2(lo)
  }

  /** `fmt_operand`: the operand text of a listing line. Absolute operands show
      their address, zero-page ones their byte, relative ones a target address
      computed with `DisplayOffset`. */
  function FmtOperand(mode: Mode, lo: byte, hi: byte, pc: int): (s: string)
    requires pc >= Base
    ensures mode in {Imp, Acc} <==> s == []
    ensures mode == Imm ==> s == "#$" + HexPad(lo, 2)
    ensures mode == Zp ==> s == "$" + HexPad(lo, 2)
    ensures mode == Zpx ==> s == "$" + HexPad(lo, 2) + ",X"
    ensures mode == Zpy ==> s == "$" + HexPad(lo, 2) + ",Y"
    ensures mode == Abs ==> s == "$" + HexPad(Word(lo, hi), 4)
    ensures mode == Abx ==> s == "$" + HexPad(Word(lo, hi), 4) + ",X"
    ensures mode == Aby ==> s == "$" + HexPad(Word(lo, hi), 4) + ",Y"
    ensures mode == Ind ==> s == "($" + HexPad(Word(lo, hi), 4) + ")"
    ensures mode == Izx ==> s == "($" + HexPad(lo, 2) + ",X)"
    ensures mode == Izy ==> s == "($" + HexPad(lo, 2) + "),Y"
    ensures mode == Rel ==> s == "$" + HexPad(pc + 2 + DisplayOffset(lo), 4)
  {
    match mode
    case Imp | Acc => ""
    case Imm => "#$" + Hex2(lo)
    case Zp => "$" + Hex2(lo)
    case Zpx => "$" + Hex2(lo) + ",X"
    case Zpy => "$" + Hex2(lo) + ",Y"
    case Abs => "$" + WordText(lo, hi)
    case Abx => "$" + WordText(lo, hi) + ",X"
    case Aby => "$" + WordText(lo, hi) + ",Y"
    case Ind => "($" + WordText(lo, hi) + ")"
    case Izx => "($" + Hex2(lo) + ",X)"
    case Izy => "($" + Hex2(lo) + "),Y"
    case Rel => "$" + HexPad(pc + 2 + DisplayOffset(lo), 4)
  }

  // ---------------------------------------------------------------------------
  // Hardware registers
  // ---------------------------------------------------------------------------

  /** `NES_PPU_REGS`: the picture-unit registers and their names. */
  const PpuRegs: map<int, string> := map[
    0x2000 := "PPUCTRL", 0x2001 := "PPUMASK", 0x2002 := "PPUSTATUS",
    0x2003 := "OAMADDR", 0x2004 := "OAMDATA", 0x2005 := "PPUSCROLL",
    0x2006 := "PPUADDR", 0x2007 := "PPUDATA", 0x4014 := "OAMDMA"]

  /** `NES_APU_REGS`: the audio-unit registers and their names. */
  const ApuRegs: map<int, string> := map[
    0x4000 := "SQ1_VOL", 0x4001 := "SQ1_SWEEP", 0x4002 := "SQ1_LO", 0x4003 := "SQ1_HI",
    0x4004 := "SQ2_VOL", 0x4005 := "SQ2_SWEEP", 0x4006 := "SQ2_LO", 0x4007 := "SQ2_HI",
    0x4008 := "TRI_LINEAR", 0x400A := "TRI_LO", 0x400B := "TRI_HI",
    0x400C := "NOISE_VOL", 0x400E := "NOISE_LO", 0x400F := "NOISE_HI",
    0x4010 := "DMC_FREQ", 0x4011 := "DMC_RAW", 0x4012 := "DMC_START", 0x4013 := "DMC_LEN",
    0x4015 := "APU_STATUS", 0x4017 := "FRAME_CNT"]

  /** `ALL_HW_REGS`, the union of both tables. */
  const HwRegs: map<int, string> := PpuRegs + ApuRegs

  /** The two tables share no address, so the union keeps every name of both. */
  lemma HwRegsUnion()
    ensures PpuRegs.Keys !! ApuRegs.Keys
    ensures forall a :: a in PpuRegs ==> HwRegs[a] == PpuRegs[a]
  {
    PpuRange();
    ApuRange();
    forall a | a in PpuRegs
      ensures a !in ApuRegs
    {
    }
  }

  lemma PpuRange()
    ensures forall a :: a in PpuRegs ==> a < 0x2008 || a == 0x4014
  {
  }

  lemma ApuRange()
    ensures forall a :: a in ApuRegs ==> 0x4000 <= a < 0x4018 && a != 0x4014
  {
  }

  // ---------------------------------------------------------------------------
  // What one instruction contributes
  // ---------------------------------------------------------------------------

  /** An `all_instructions` entry: mnemonic, operand text and length. */
  datatype Insn = Insn(mnem: Mnemonic, operand: string, length: nat)

  /** The entry the traversal records for the instruction at `a`, if it decodes. */
  function InsnAt(prg: seq<byte>, a: int): (r: Option<Insn>)
    ensures r.Some? <==> DecodeAt(prg, a).Some?
    ensures r.Some? ==> r.value.mnem == DecodeAt(prg, a).value.mnem
    ensures r.Some? ==> 1 <= r.value.length <= 3 && r.value.length == DecodeAt(prg, a).value.length
  {
    match DecodeAt(prg, a)
    case None => None
    case Some(d) => Some(Insn(d.mnem, FmtOperand(d.mode, d.lo, d.hi, a), d.length))
  }

  datatype Subsystem = PPU | APU
  datatype AccessKind = Read | Write

  /** A `register_accesses` entry. */
  datatype RegisterAccess = RegisterAccess(address: int, hwAddress: int, hwName: string,
                                           subsystem: Subsystem, access: AccessKind, mnem: Mnemonic)

  /** The register access the instruction at `a` makes, if it has an absolute
      (or absolute-indexed) operand naming a hardware register. */
  function AccessAt(prg: seq<byte>, a: int): (r: Option<RegisterAccess>)
    ensures r.Some? <==> (DecodeAt(prg, a).Some? &&
      var d := DecodeAt(prg, a).value; AbsAddr(d.mode, d.lo, d.hi).Some? && AbsAddr(d.mode, d.lo, d.hi).value in HwRegs)
    ensures r.Some? ==> var d := DecodeAt(prg, a).value;
      r.value.address == a && r.value.mnem == d.mnem && r.value.hwAddress == Word(d.lo, d.hi)
    ensures r.Some? ==> r.value.hwAddress in HwRegs && r.value.hwName == HwRegs[r.value.hwAddress]
    ensures r.Some? ==> (r.value.access == Write <==> r.value.mnem in {STA, STX, STY})
    ensures r.Some? ==> (r.value.subsystem == PPU <==> r.value.hwAddress in PpuRegs)
  {
    match DecodeAt(prg, a)
    case None => None
    case Some(d) => AccessOf(a, d)
  }

  /** The register access of the decoded instruction `d` at `a`. */
  function AccessOf(a: int, d: Decoded): Option<RegisterAccess>
  {
    match AbsAddr(d.mode, d.lo, d.hi)
    case None => None
    case Some(t) =>
      if t in HwRegs then
        Some(RegisterAccess(a, t, HwRegs[t], if t in PpuRegs then PPU else APU,
                            if d.mnem in {STA, STX, STY} then Write else Read, d.mnem))
      else None
  }

  /** The accesses found along a sequence of decoded addresses, in that order. */
  function AccessesOf(prg: seq<byte>, order: seq<int>): (r: seq<RegisterAccess>)
    ensures |r| <= |order|
  {
    if order == [] then []
    else
      var last := order[|order| - 1];
      AccessesOf(prg, order[..|order| - 1]) + (match AccessAt(prg, last) case None => [] case Some(x) => [x])
  }

  /** `if t:` keeps a target only when it is a non-zero address. */
  function NonZero(t: Option<nat>): (r: Option<nat>)
    ensures r.Some? <==> t.Some? && t.value != 0
    ensures r.Some? ==> r.value == t.value
  {
    if t.Some? && t.value != 0 then Some(t.value) else None
  }

  /** Where control goes after one instruction: the address it puts on the
      worklist, and the address the current run continues at. */
  datatype Flow = Flow(target: Option<int>, next: Option<int>)

  /** The control-flow dispatch of the instruction at `a`; an address that
      does not decode ends the run. */
  function FlowAt(prg: seq<byte>, a: int): Flow
  {
    match DecodeAt(prg, a)
    case None => Flow(None, None)
    case Some(d) => FlowOf(a, d)
  }

  /** The control-flow dispatch of the decoded instruction `d` at `a`. */
  function FlowOf(a: int, d: Decoded): Flow
  {
    if d.mnem == JSR then Flow(NonZero(AbsAddr(d.mode, d.lo, d.hi)), Some(a + d.length))
    else if d.mnem == JMP && d.mode == Abs then Flow(NonZero(AbsAddr(d.mode, d.lo, d.hi)), None)
    else if IsBranch(d.mnem) then Flow(Some(a + 2 + BranchOffset(d.lo)), Some(a + d.length))
    else if IsTerminator(d.mnem) || d.mnem == JMP then Flow(None, None)
    else Flow(None, Some(a + d.length))
  }

  /** The dispatch promised for each kind of instruction: JSR queues its non-zero
      target and falls through; JMP abs queues its non-zero target and ends the
      run; a branch queues `a + 2 + offset` and falls through; RTS, RTI, BRK and
      JMP (ind) end the run; everything else falls through to `a + length`. */
  lemma FlowAtDispatch(prg: seq<byte>, a: int)
    ensures DecodeAt(prg, a).None? ==> FlowAt(prg, a) == Flow(None, None)
    ensures DecodeAt(prg, a).Some? ==> var d, f := DecodeAt(prg, a).value, FlowAt(prg, a);
      && (f.next.Some? <==> d.mnem != JMP && !IsTerminator(d.mnem))
      && (f.next.Some? ==> f.next.value == a + d.length)
      && (d.mnem == JSR ==> f.target == NonZero(Some(Word(d.lo, d.hi))))
      && (d.mnem == JMP && d.mode == Abs ==> f.target == NonZero(Some(Word(d.lo, d.hi))))
      && (d.mnem == JMP && d.mode == Ind ==> f.target.None?)
      && (IsBranch(d.mnem) ==> f.target == Some(a + 2 + BranchOffset(d.lo)))
      && (f.target.Some? ==> d.mnem == JSR || d.mnem == JMP || IsBranch(d.mnem))
  {
    match DecodeAt(prg, a)
    case None =>
    case Some(d) => FlowOfDispatch(a, d);
  }

  /** The same dispatch for one decoded instruction, as the table shapes it. */
  lemma FlowOfDispatch(a: int, d: Decoded)
    requires (IsBranch(d.mnem) <==> d.mode == Rel) && (d.mnem == JSR ==> d.mode == Abs)
    ensures var f := FlowOf(a, d);
      && (f.next.Some? <==> d.mnem != JMP && !IsTerminator(d.mnem))
      && (f.next.Some? ==> f.next.value == a + d.length)
      && (d.mnem == JSR ==> f.target == NonZero(Some(Word(d.lo, d.hi))))
      && (d.mnem == JMP && d.mode == Abs ==> f.target == NonZero(Some(Word(d.lo, d.hi))))
      && (d.mnem == JMP && d.mode == Ind ==> f.target.None?)
      && (IsBranch(d.mnem) ==> f.target == Some(a + 2 + BranchOffset(d.lo)))
      && (f.target.Some? ==> d.mnem == JSR || d.mnem == JMP || IsBranch(d.mnem))
  {
  }

  /** `b` is reached from the instruction at `a` in one step. */
  predicate Succ(prg: seq<byte>, a: int, b: int)
  {
    FlowAt(prg, a).target == Some(b) || FlowAt(prg, a).next == Some(b)
  }

  /** The target a JSR at `c` calls, when it is non-zero. */
  function CallTarget(prg: seq<byte>, c: int): (r: Option<nat>)
    ensures r.Some? ==> DecodeAt(prg, c).Some? && DecodeAt(prg, c).value.mnem == JSR
  {
    match DecodeAt(prg, c)
    case None => None
    case Some(d) => CallOf(d)
  }

  /** The subroutine a decoded instruction calls: the non-zero target of a JSR. */
  function CallOf(d: Decoded): Option<nat>
  {
    if d.mnem == JSR then NonZero(AbsAddr(d.mode, d.lo, d.hi)) else None
  }

  // ---------------------------------------------------------------------------
  // Entry points and function records
  // ---------------------------------------------------------------------------

  /** `interrupt_vectors` as (name, address text) pairs, in the manifest's order. */
  type Vectors = seq<(string, string)>

  /** The value of a vector's address text, if it parses as hex. */
  function VectorValue(v: (string, string)): Option<int>
  {
    ParseHex(v.1)
  }

  /** `entry_addrs`: the vector values that parse as hex; the others are skipped. */
  function EntryAddrs(vectors: Vectors): set<int>
  {
    Gather(vectors, VectorValue)
  }

  /** Every vector text that parses gives an entry address. */
  lemma EntryAddrsHas(vectors: Vectors, i: nat)
    requires i < |vectors| && ParseHex(vectors[i].1).Some?
    ensures ParseHex(vectors[i].1).value in EntryAddrs(vectors)
  {
    GatherHas(vectors, VectorValue, i);
  }

  /** Every entry address is the value of some vector text. */
  lemma EntryAddrsFrom(vectors: Vectors, x: int) returns (i: nat)
    requires x in EntryAddrs(vectors)
    ensures i < |vectors| && ParseHex(vectors[i].1) == Some(x)
  {
    i := GatherFrom(vectors, VectorValue, x);
  }

  /** The entry set loop of the source. */
  method CollectEntries(vectors: Vectors) returns (entries: set<int>)
    ensures entries == EntryAddrs(vectors)
  {
    entries := {};
    for i := 0 to |vectors|
      invariant entries == Gather(vectors[..i], VectorValue)
    {
      GatherSnoc(vectors, i, VectorValue);
      match ParseHex(vectors[i].1)
      case Some(x) => entries := entries + {x};
      case None =>
    }
    assert vectors[..|vectors|] == vectors;
  }

  predicate AllVectorsParse(vectors: Vectors)
  {
    forall i :: 0 <= i < |vectors| ==> ParseHex(vectors[i].1).Some?
  }

  /** `{int(v, 16): k for k, v in vectors.items()}`: `None` when some value is
      not hex (the comprehension raises); a later name wins for a repeated address. */
  function VectorNames(vectors: Vectors): (r: Option<map<int, string>>)
    ensures r.Some? <==> AllVectorsParse(vectors)
    ensures r.Some? ==> r.value.Keys == EntryAddrs(vectors)
    ensures r.Some? && vectors != [] ==>
      r.value[ParseHex(vectors[|vectors| - 1].1).value] == vectors[|vectors| - 1].0
  {
    if vectors == [] then Some(map[])
    else
      var init, last := vectors[..|vectors| - 1], vectors[|vectors| - 1];
      VectorsSnoc(vectors);
      match VectorNames(init)
      case None => None
      case Some(m) =>
        match ParseHex(last.1)
        case None => None
        case Some(x) => Some(m[x := last.0])
  }

  /** The entry set and the parse condition of a table, from those of its front. */
  lemma VectorsSnoc(vectors: Vectors)
    requires vectors != []
    ensures var init, last := vectors[..|vectors| - 1], vectors[|vectors| - 1];
      && EntryAddrs(vectors) == EntryAddrs(init) + (if ParseHex(last.1).Some? then {ParseHex(last.1).value} else {})
      && (AllVectorsParse(vectors) <==> AllVectorsParse(init) && ParseHex(last.1).Some?)
  {
    var n := |vectors| - 1;
    var init := vectors[..n];
    GatherSnoc(vectors, n, VectorValue);
    assert vectors[..n + 1] == vectors;
    assert VectorValue(vectors[n]) == ParseHex(vectors[n].1);
    assert forall i :: 0 <= i < |init| ==> init[i] == vectors[i];
  }

  /** `_VEC_LABEL.get(raw, raw)`. */
  function VecLabel(raw: string): (name: string)
    ensures raw !in {"NMI", "RESET", "IRQ"} ==> name == raw
  {
    if raw == "NMI" then "NMI_HANDLER"
    else if raw == "RESET" then "RESET_HANDLER"
    else if raw == "IRQ" then "IRQ_HANDLER"
    else raw
  }

  /** A `functions` entry; `start` and the callers are addresses, which the
      source stores as `AddrText` strings. */
  datatype FuncRecord = FuncRecord(name: string, start: int, callers: seq<int>, callees: seq<int>)

  /** `sub_XXXX`, the name of an address reached by JSR. */
  function SubName(t: nat): string
  {
    "sub_" + HexPad(t, 4)
  }

  /** The record written when a vector entry starts a run. */
  function EntryRecord(vectors: Vectors, a: int): (f: FuncRecord)
    requires AllVectorsParse(vectors) && a >= 0
    ensures f.start == a && f.callers == [] && f.callees == []
  {
    var names := VectorNames(vectors).value;
    FuncRecord(VecLabel(if a in names then names[a] else SubName(a)), a, [], [])
  }

  /** The record every JSR at `caller` writes for its target. */
  function SubRecord(t: nat, caller: int): (f: FuncRecord)
    ensures f.start == t && f.callers == [caller] && f.callees == [] && f.name == SubName(t)
  {
    FuncRecord(SubName(t), t, [caller], [])
  }

  /** The record update a JSR at `caller` evidently intends: a record is
      created for the target only when it has none, so no record already
      written (a vector name, an earlier caller) is ever replaced. */
  function IntendedCallRecords(funcs: map<int, FuncRecord>, t: nat, caller: int): (r: map<int, FuncRecord>)
    ensures r.Keys == funcs.Keys + {t}
    ensures forall k :: k in funcs ==> r[k] == funcs[k]
    ensures t !in funcs ==> r[t] == SubRecord(t, caller)
  {
    if t in funcs then funcs else funcs[t := SubRecord(t, caller)]
  }

  /** A JSR into a vector handler whose record (`EntryRecord`) is already
      written renames it `sub_XXXX` as written, because the membership test
      compares an int with the string keys; the intended update keeps the
      handler's name. */
  lemma JsrRenamesHandler(funcs: map<int, FuncRecord>, t: nat, caller: int)
    requires t in funcs && funcs[t].name in {"NMI_HANDLER", "RESET_HANDLER", "IRQ_HANDLER"}
    ensures funcs[t := SubRecord(t, caller)][t].name != funcs[t].name
    ensures IntendedCallRecords(funcs, t, caller)[t] == funcs[t]
  {
    assert SubName(t)[0] == 's';
  }

  // ---------------------------------------------------------------------------
  // The reachable code: the least set closed under control flow
  // ---------------------------------------------------------------------------

  /** `S` holds every entry inside the image and every in-image successor of its members. */
  ghost predicate Closed(prg: seq<byte>, entries: set<int>, S: set<int>)
  {
    && (forall e :: e in entries && InImage(prg, e) ==> e in S)
    && (forall a, b :: a in S && Succ(prg, a, b) && InImage(prg, b) ==> b in S)
  }

  /** `x` lies in every closed set. */
  ghost predicate InAllClosed(prg: seq<byte>, entries: set<int>, x: int)
  {
    forall S :: Closed(prg, entries, S) ==> x in S
  }

  lemma EntryInAllClosed(prg: seq<byte>, entries: set<int>, e: int)
    requires e in entries && InImage(prg, e)
    ensures InAllClosed(prg, entries, e)
  {
  }

  lemma SuccInAllClosed(prg: seq<byte>, entries: set<int>, a: int, b: int)
    requires InAllClosed(prg, entries, a) && Succ(prg, a, b) && InImage(prg, b)
    ensures InAllClosed(prg, entries, b)
  {
  }

  // ---------------------------------------------------------------------------
  // Traversal state and what it keeps
  // ---------------------------------------------------------------------------

  /** The locals of the traversal: worklist, visited set and the three tables. */
  datatype Walk = Walk(queue: seq<int>, seen: set<int>, instructions: map<int, Insn>,
                       functions: map<int, FuncRecord>, accesses: seq<RegisterAccess>)

  /** The visited addresses lie in the image, `order` lists each once in visiting
      order, and the instruction and access tables are exactly what those
      addresses contribute. */
  ghost predicate Tables(prg: seq<byte>, w: Walk, order: seq<int>)
  {
    && (forall a :: a in w.seen ==> InImage(prg, a))
    && (forall a :: a in w.seen <==> a in order)
    && NoDuplicates(order)
    && (forall a :: a in w.instructions <==> a in w.seen && DecodeAt(prg, a).Some?)
    && (forall a :: a in w.instructions ==> InsnAt(prg, a) == Some(w.instructions[a]))
    && w.accesses == AccessesOf(prg, order)
  }

  /** A function record is a vector entry's own record, or the record of a JSR
      that was decoded and calls that address. */
  ghost predicate ValidRecord(prg: seq<byte>, vectors: Vectors, instructions: map<int, Insn>, k: int, f: FuncRecord)
  {
    || (k in EntryAddrs(vectors) && InImage(prg, k) && AllVectorsParse(vectors) && f == EntryRecord(vectors, k))
    || (k >= 0 && |f.callers| == 1 && f.callers[0] in instructions
        && CallTarget(prg, f.callers[0]) == Some(k) && f == SubRecord(k, f.callers[0]))
  }

  /** Every record is valid and every decoded JSR's target has a record. */
  ghost predicate Records(prg: seq<byte>, vectors: Vectors, w: Walk)
  {
    && (forall k :: k in w.functions ==> ValidRecord(prg, vectors, w.instructions, k, w.functions[k]))
    && (forall c :: c in w.instructions && CallTarget(prg, c).Some? ==> CallTarget(prg, c).value in w.functions)
  }

  /** Nothing visited or queued inside the image lies outside the least closed set. */
  ghost predicate Minimal(prg: seq<byte>, entries: set<int>, w: Walk)
  {
    && (forall a :: a in w.seen ==> InAllClosed(prg, entries, a))
    && (forall i :: 0 <= i < |w.queue| && InImage(prg, w.queue[i]) ==> InAllClosed(prg, entries, w.queue[i]))
  }

  /** Every in-image successor of a visited address is visited, queued, or the
      address `cur` the current run goes on at. */
  ghost predicate ClosedBut(prg: seq<byte>, w: Walk, cur: Option<int>)
  {
    forall a, b :: a in w.seen && Succ(prg, a, b) && InImage(prg, b) ==> b in w.seen || b in w.queue || cur == Some(b)
  }

  /** The state after visiting `addr`, described by what `addr` contributes. */
  function StepWalk(prg: seq<byte>, w: Walk, addr: int): Walk
  {
    var t := FlowAt(prg, addr).target;
    var i := InsnAt(prg, addr);
    var c := CallTarget(prg, addr);
    var x := AccessAt(prg, addr);
    Walk(if t.Some? then w.queue + [t.value] else w.queue,
         w.seen + {addr},
         if i.Some? then w.instructions[addr := i.value] else w.instructions,
         if c.Some? then w.functions[c.value := SubRecord(c.value, addr)] else w.functions,
         if x.Some? then w.accesses + [x.value] else w.accesses)
  }

  lemma TablesStep(prg: seq<byte>, w: Walk, order: seq<int>, addr: int)
    requires Tables(prg, w, order) && InImage(prg, addr) && addr !in w.seen
    ensures Tables(prg, StepWalk(prg, w, addr), order + [addr])
  {
    var order' := order + [addr];
    assert order'[..|order|] == order;
    NoDuplicatesSnoc(order, addr);
  }

  lemma RecordsStep(prg: seq<byte>, vectors: Vectors, w: Walk, addr: int)
    requires Records(prg, vectors, w)
    ensures Records(prg, vectors, StepWalk(prg, w, addr))
  {
    var w' := StepWalk(prg, w, addr);
    forall k | k in w'.functions
      ensures ValidRecord(prg, vectors, w'.instructions, k, w'.functions[k])
    {
      if CallTarget(prg, addr) == Some(k) {
        assert addr in w'.instructions;
      } else {
        assert ValidRecord(prg, vectors, w.instructions, k, w.functions[k]);
      }
    }
  }

  lemma MinimalStep(prg: seq<byte>, entries: set<int>, w: Walk, addr: int)
    requires Minimal(prg, entries, w) && InAllClosed(prg, entries, addr)
    ensures Minimal(prg, entries, StepWalk(prg, w, addr))
    ensures var n := FlowAt(prg, addr).next; n.Some? && InImage(prg, n.value) ==> InAllClosed(prg, entries, n.value)
  {
    var w' := StepWalk(prg, w, addr);
    forall i | 0 <= i < |w'.queue| && InImage(prg, w'.queue[i])
      ensures InAllClosed(prg, entries, w'.queue[i])
    {
      if i >= |w.queue| {
        SuccInAllClosed(prg, entries, addr, w'.queue[i]);
      }
    }
    var n := FlowAt(prg, addr).next;
    if n.Some? && InImage(prg, n.value) {
      SuccInAllClosed(prg, entries, addr, n.value);
    }
  }

  lemma ClosureStep(prg: seq<byte>, w: Walk, addr: int)
    requires ClosedBut(prg, w, Some(addr))
    ensures ClosedBut(prg, StepWalk(prg, w, addr), FlowAt(prg, addr).next)
  {
    var w' := StepWalk(prg, w, addr);
    forall a, b | a in w'.seen && Succ(prg, a, b) && InImage(prg, b)
      ensures b in w'.seen || b in w'.queue || FlowAt(prg, addr).next == Some(b)
    {
      if a != addr {
        assert b in w.seen || b in w.queue || b == addr;
      }
    }
  }

  // ---------------------------------------------------------------------------
  // The traversal
  // ---------------------------------------------------------------------------

  /** One pass of the inner loop's body at a fresh in-image address: marks it
      visited, decodes it, records the instruction and any register access,
      and dispatches on control flow. `stop` is the source's `break`; otherwise
      the run continues at `next`. */
  method Visit(prg: seq<byte>, w: Walk, addr: int) returns (w': Walk, stop: bool, next: int)
    requires InImage(prg, addr)
    ensures w' == StepWalk(prg, w, addr)
    ensures stop <==> FlowAt(prg, addr).next.None?
    ensures !stop ==> FlowAt(prg, addr).next.value == next
    ensures !stop ==> next > addr
  {
    var queue, seen, instructions, functions, accesses := w.queue, w.seen, w.instructions, w.functions, w.accesses;
    seen := seen + {addr};
    var dec := Decode(prg, addr);
    if dec.None? {
      StepUndecoded(prg, w, addr);
      return Walk(queue, seen, instructions, functions, accesses), true, addr;
    }
    var d := dec.value;
    instructions := instructions[addr := Insn(d.mnem, FmtOperand(d.mode, d.lo, d.hi, addr), d.length)];
    accesses := NoteAccess(addr, d, accesses);
    queue, functions, stop, next := Dispatch(addr, d, queue, functions);
    StepDecoded(prg, w, addr, d, queue, functions, accesses);
    w' := Walk(queue, seen, instructions, functions, accesses);
  }

  /** An address that does not decode is only marked visited, and ends the run. */
  lemma StepUndecoded(prg: seq<byte>, w: Walk, addr: int)
    requires DecodeAt(prg, addr).None?
    ensures StepWalk(prg, w, addr) == Walk(w.queue, w.seen + {addr}, w.instructions, w.functions, w.accesses)
    ensures FlowAt(prg, addr).next.None?
  {
  }

  /** The step at a decoded address, given what the dispatch and the access
      detection produced. */
  lemma StepDecoded(prg: seq<byte>, w: Walk, addr: int, d: Decoded,
                    queue: seq<int>, functions: map<int, FuncRecord>, accesses: seq<RegisterAccess>)
    requires DecodeAt(prg, addr) == Some(d)
    requires var t := FlowOf(addr, d).target; queue == if t.Some? then w.queue + [t.value] else w.queue
    requires var c := CallOf(d);
      functions == if c.Some? then w.functions[c.value := SubRecord(c.value, addr)] else w.functions
    requires accesses == w.accesses + (if AccessOf(addr, d).Some? then [AccessOf(addr, d).value] else [])
    ensures StepWalk(prg, w, addr) == Walk(queue, w.seen + {addr},
      w.instructions[addr := Insn(d.mnem, FmtOperand(d.mode, d.lo, d.hi, addr), d.length)], functions, accesses)
    ensures FlowAt(prg, addr) == FlowOf(addr, d)
    ensures d.length >= 1
  {
  }

  /** Reads the opcode at `addr` and its operand bytes the way the source does. */
  method Decode(prg: seq<byte>, addr: int) returns (dec: Option<Decoded>)
    requires InImage(prg, addr)
    ensures dec == DecodeAt(prg, addr)
  {
    var offset := addr - Base;
    var op := Opcode(prg[offset]);
    DecodeWith(prg, addr, op);
    if op.None? {
      return None;
    }
    var mnem, mode, length := op.value.mnem, op.value.mode, op.value.length;
    var lo := if length > 1 && offset + 1 < |prg| then prg[offset + 1] else 0;
    var hi := if length > 2 && offset + 2 < |prg| then prg[offset + 2] else 0;
    assert lo == OperandByte(prg, offset, 1, length) && hi == OperandByte(prg, offset, 2, length);
    dec := Some(Decoded(mnem, mode, length, lo, hi));
  }

  /** Hardware register access detection for the instruction `d` at `addr`. */
  method NoteAccess(addr: int, d: Decoded, accesses: seq<RegisterAccess>)
    returns (accesses': seq<RegisterAccess>)
    ensures accesses' == accesses + (if AccessOf(addr, d).Some? then [AccessOf(addr, d).value] else [])
  {
    var mnem, mode, lo, hi := d.mnem, d.mode, d.lo, d.hi;
    accesses' := accesses;
    var target := AbsAddr(mode, lo, hi);
    if target.Some? && target.value in HwRegs {
      var kind := if mnem in {STA, STX, STY} then Write else Read;
      var unit := if target.value in PpuRegs then PPU else APU;
      accesses' := accesses' + [RegisterAccess(addr, target.value, HwRegs[target.value], unit, kind, mnem)];
    }
  }

  /** "Follow control flow" for the instruction `d` at `addr`: queues targets,
      writes the JSR target's record, and says whether the run ends here. */
  method Dispatch(addr: int, d: Decoded, queue: seq<int>, functions: map<int, FuncRecord>)
    returns (queue': seq<int>, functions': map<int, FuncRecord>, stop: bool, next: int)
    ensures var t := FlowOf(addr, d).target; queue' == if t.Some? then queue + [t.value] else queue
    ensures var c := CallOf(d);
      functions' == if c.Some? then functions[c.value := SubRecord(c.value, addr)] else functions
    ensures stop <==> FlowOf(addr, d).next.None?
    ensures !stop ==> FlowOf(addr, d).next.value == next
    ensures next == addr + d.length
  {
    var mnem, mode, lo, hi := d.mnem, d.mode, d.lo, d.hi;
    queue', functions', stop, next := queue, functions, false, addr + d.length;
    if mnem == JSR {
      var jsrTarget := AbsAddr(mode, lo, hi);
      if jsrTarget.Some? && jsrTarget.value != 0 {
        functions' := functions'[jsrTarget.value := SubRecord(jsrTarget.value, addr)];
        queue' := queue' + [jsrTarget.value];
      }
    } else if mnem == JMP && mode == Abs {
      var jmpTarget := AbsAddr(mode, lo, hi);
      if jmpTarget.Some? && jmpTarget.value != 0 {
        queue' := queue' + [jmpTarget.value];
      }
      stop := true;
    } else if IsBranch(mnem) {
      queue' := queue' + [addr + 2 + BranchOffset(lo)];
    } else if IsTerminator(mnem) || mnem == JMP {
      stop := true;
    }
  }

  /** The traversal invariant proper: vectors parse (the run would not have
      started otherwise) and the tables, records and minimality hold. */
  ghost predicate Good(prg: seq<byte>, vectors: Vectors, w: Walk, order: seq<int>)
  {
    AllVectorsParse(vectors) && Tables(prg, w, order) && Records(prg, vectors, w) && Minimal(prg, EntryAddrs(vectors), w)
  }

  /** What the walk `w` has gained over `w0` while a run goes on: more visited
      addresses, the old queue as a prefix, and at most one queued address per
      newly visited one. */
  ghost predicate Grown(w0: Walk, w: Walk)
  {
    && w0.seen <= w.seen
    && |w0.queue| <= |w.queue| && w.queue[..|w0.queue|] == w0.queue
    && |w.queue| - |w0.queue| <= |w.seen| - |w0.seen|
  }

  /** The inner loop's invariant, with the run at `addr`. */
  ghost predicate RunInv(prg: seq<byte>, vectors: Vectors, w0: Walk, w: Walk, order: seq<int>, start: int, addr: int)
  {
    && Good(prg, vectors, w, order)
    && (InImage(prg, addr) ==> InAllClosed(prg, EntryAddrs(vectors), addr))
    && ClosedBut(prg, w, Some(addr))
    && Grown(w0, w)
    && (start in w.seen || (addr == start && start !in w.seen))
  }

  /** What a finished run guarantees. */
  ghost predicate RunDone(prg: seq<byte>, vectors: Vectors, w0: Walk, w: Walk, order: seq<int>, start: int)
  {
    Good(prg, vectors, w, order) && ClosedBut(prg, w, None) && Grown(w0, w) && start in w.seen
  }

  lemma RunStep(prg: seq<byte>, vectors: Vectors, w0: Walk, w: Walk, order: seq<int>, start: int, addr: int)
    requires RunInv(prg, vectors, w0, w, order, start, addr) && addr !in w.seen && InImage(prg, addr)
    ensures var w', n := StepWalk(prg, w, addr), FlowAt(prg, addr).next;
      && (n.None? ==> RunDone(prg, vectors, w0, w', order + [addr], start))
      && (n.Some? ==> RunInv(prg, vectors, w0, w', order + [addr], start, n.value))
  {
    StepGood(prg, vectors, w, order, addr);
    ClosureStep(prg, w, addr);
    StepGrown(prg, w0, w, addr);
  }

  /** One visit keeps the tables, the records and minimality. */
  lemma StepGood(prg: seq<byte>, vectors: Vectors, w: Walk, order: seq<int>, addr: int)
    requires Good(prg, vectors, w, order) && addr !in w.seen && InImage(prg, addr)
    requires InAllClosed(prg, EntryAddrs(vectors), addr)
    ensures Good(prg, vectors, StepWalk(prg, w, addr), order + [addr])
    ensures var n := FlowAt(prg, addr).next;
      n.Some? && InImage(prg, n.value) ==> InAllClosed(prg, EntryAddrs(vectors), n.value)
  {
    TablesStep(prg, w, order, addr);
    RecordsStep(prg, vectors, w, addr);
    MinimalStep(prg, EntryAddrs(vectors), w, addr);
  }

  /** One visit adds the address and queues at most one more. */
  lemma StepGrown(prg: seq<byte>, w0: Walk, w: Walk, addr: int)
    requires Grown(w0, w) && addr !in w.seen
    ensures Grown(w0, StepWalk(prg, w, addr)) && addr in StepWalk(prg, w, addr).seen
  {
    var w' := StepWalk(prg, w, addr);
    assert w'.queue[..|w.queue|] == w.queue;
    assert w'.queue[..|w0.queue|] == w.queue[..|w0.queue|];
  }

  lemma RunEnds(prg: seq<byte>, vectors: Vectors, w0: Walk, w: Walk, order: seq<int>, start: int, addr: int)
    requires RunInv(prg, vectors, w0, w, order, start, addr) && (addr in w.seen || !InImage(prg, addr))
    requires InImage(prg, start)
    ensures RunDone(prg, vectors, w0, w, order, start)
  {
  }

  /** The inner `while True` of the traversal: decodes one straight-line run
      from `start` until it meets a visited or out-of-image address, an
      unknown opcode, a jump or a return. */
  method FollowRun(prg: seq<byte>, vectors: Vectors, w: Walk, ghost order: seq<int>, start: int)
    returns (w': Walk, ghost order': seq<int>)
    requires Good(prg, vectors, w, order)
    requires InImage(prg, start) && start !in w.seen && InAllClosed(prg, EntryAddrs(vectors), start)
    requires ClosedBut(prg, w, Some(start))
    ensures RunDone(prg, vectors, w, w', order', start)
  {
    w' := w;
    order' := order;
    var addr := start;
    assert w'.queue[..|w.queue|] == w.queue;
    while true
      invariant RunInv(prg, vectors, w, w', order', start, addr)
      decreases Base + |prg| - addr
    {
      if addr in w'.seen || !InImage(prg, addr) {
        RunEnds(prg, vectors, w, w', order', start, addr);
        break;
      }
      RunStep(prg, vectors, w, w', order', start, addr);
      var stop, next;
      w', stop, next := Visit(prg, w', addr);
      order' := order' + [addr];
      if stop {
        break;
      }
      addr := next;
    }
  }

  /** The tables the fallback disassembler produces. */
  datatype Disassembly = Disassembly(instructions: map<int, Insn>, functions: map<int, FuncRecord>,
                                     accesses: seq<RegisterAccess>)

  /** The exception the traversal can raise: a vector text that is not hex
      makes the name lookup of an entry fail. */
  datatype DisasmError = VectorNotHex

  /** The outer loop's invariant. */
  ghost predicate WalkInv(prg: seq<byte>, vectors: Vectors, initial: seq<int>, w: Walk, order: seq<int>, pops: nat)
  {
    var entries := EntryAddrs(vectors);
    && Tables(prg, w, order) && Records(prg, vectors, w) && Minimal(prg, entries, w)
    && ClosedBut(prg, w, None)
    && (forall e :: e in entries && InImage(prg, e) ==> e in w.seen || e in w.queue)
    && pops + |w.queue| <= |initial| + |w.seen|
    && (AllVectorsParse(vectors) || (w.seen == {} && forall i :: 0 <= i < |w.queue| ==> w.queue[i] in entries))
  }

  lemma WalkInit(prg: seq<byte>, vectors: Vectors, initial: seq<int>)
    requires forall x :: x in initial <==> x in EntryAddrs(vectors)
    ensures WalkInv(prg, vectors, initial, Walk(initial, {}, map[], map[], []), [], 0)
  {
    var entries := EntryAddrs(vectors);
    var w := Walk(initial, {}, map[], map[], []);
    forall i | 0 <= i < |initial| && InImage(prg, initial[i])
      ensures InAllClosed(prg, entries, initial[i])
    {
      EntryInAllClosed(prg, entries, initial[i]);
    }
    assert Minimal(prg, entries, w);
  }

  /** The members of a worklist are those left after a pop and the popped one. */
  lemma PopMembers(q: seq<int>)
    requires |q| > 0
    ensures forall x :: x in q <==> x in q[..|q| - 1] || x == q[|q| - 1]
    ensures forall i :: 0 <= i < |q| - 1 ==> q[..|q| - 1][i] == q[i]
  {
    assert q == q[..|q| - 1] + [q[|q| - 1]];
  }

  /** Popping a visited or out-of-image address changes nothing else. */
  lemma WalkSkip(prg: seq<byte>, vectors: Vectors, initial: seq<int>, w: Walk, order: seq<int>, pops: nat)
    requires WalkInv(prg, vectors, initial, w, order, pops) && |w.queue| > 0
    requires var addr := w.queue[|w.queue| - 1]; addr in w.seen || !InImage(prg, addr)
    ensures WalkInv(prg, vectors, initial, w.(queue := w.queue[..|w.queue| - 1]), order, pops + 1)
  {
    var addr := w.queue[|w.queue| - 1];
    var rest := w.queue[..|w.queue| - 1];
    var w' := w.(queue := rest);
    SplitLast(w.queue);
    QueueFree(prg, vectors, w, order, rest);
    PopMinimal(prg, EntryAddrs(vectors), w, w', rest, addr);
    PopClosed(prg, w, w', rest, addr);
    ClosedButSettled(prg, w', addr);
    PopEntries(prg, EntryAddrs(vectors), w.seen, rest, addr);
  }

  /** Tables and records do not depend on the worklist. */
  lemma QueueFree(prg: seq<byte>, vectors: Vectors, w: Walk, order: seq<int>, q: seq<int>)
    ensures Tables(prg, w.(queue := q), order) == Tables(prg, w, order)
    ensures Records(prg, vectors, w.(queue := q)) == Records(prg, vectors, w)
  {
  }

  /** Popping keeps minimality. */
  lemma PopMinimal(prg: seq<byte>, entries: set<int>, w: Walk, w': Walk, rest: seq<int>, addr: int)
    requires w.queue == rest + [addr] && w'.queue == rest && w'.seen == w.seen
    requires Minimal(prg, entries, w)
    ensures Minimal(prg, entries, w')
  {
    forall i | 0 <= i < |rest| && InImage(prg, rest[i])
      ensures InAllClosed(prg, entries, rest[i])
    {
      assert w.queue[i] == rest[i];
    }
  }

  /** After a pop, every successor of a visited address is visited, queued or
      the popped address. */
  lemma PopClosed(prg: seq<byte>, w: Walk, w': Walk, rest: seq<int>, addr: int)
    requires w.queue == rest + [addr] && w'.queue == rest && w'.seen == w.seen
    requires ClosedBut(prg, w, None)
    ensures ClosedBut(prg, w', Some(addr))
  {
    forall a, b | a in w'.seen && Succ(prg, a, b) && InImage(prg, b)
      ensures b in w'.seen || b in w'.queue || Some(addr) == Some(b)
    {
      assert b in w.seen || b in rest + [addr];
    }
  }

  /** A popped address that is visited or outside the image needs no run. */
  lemma ClosedButSettled(prg: seq<byte>, w: Walk, addr: int)
    requires ClosedBut(prg, w, Some(addr)) && (addr in w.seen || !InImage(prg, addr))
    ensures ClosedBut(prg, w, None)
  {
  }

  /** Popping a visited or out-of-image address loses no entry point. */
  lemma PopEntries(prg: seq<byte>, entries: set<int>, seen: set<int>, rest: seq<int>, addr: int)
    requires forall e :: e in entries && InImage(prg, e) ==> e in seen || e in rest + [addr]
    requires addr in seen || !InImage(prg, addr)
    ensures forall e :: e in entries && InImage(prg, e) ==> e in seen || e in rest
  {
    forall e | e in entries && InImage(prg, e)
      ensures e in seen || e in rest
    {
      assert e in seen || e in rest + [addr];
    }
  }

  /** Popping a fresh in-image address: the error case, when a vector does not parse. */
  lemma WalkNoParse(prg: seq<byte>, vectors: Vectors, initial: seq<int>, w: Walk, order: seq<int>, pops: nat)
    requires WalkInv(prg, vectors, initial, w, order, pops) && |w.queue| > 0
    requires var addr := w.queue[|w.queue| - 1]; addr !in w.seen && InImage(prg, addr)
    requires !AllVectorsParse(vectors)
    ensures var addr := w.queue[|w.queue| - 1]; addr in EntryAddrs(vectors) && InImage(prg, addr)
  {
  }

  /** Popping a fresh in-image address: the state `FollowRun` starts from. */
  lemma WalkEnter(prg: seq<byte>, vectors: Vectors, initial: seq<int>, w: Walk, order: seq<int>, pops: nat,
                  funcs: map<int, FuncRecord>)
    requires WalkInv(prg, vectors, initial, w, order, pops) && |w.queue| > 0
    requires var addr := w.queue[|w.queue| - 1]; addr !in w.seen && InImage(prg, addr)
    requires var addr := w.queue[|w.queue| - 1];
      if addr in EntryAddrs(vectors) then AllVectorsParse(vectors) && funcs == w.functions[addr := EntryRecord(vectors, addr)]
      else funcs == w.functions
    ensures var addr, pre := w.queue[|w.queue| - 1], w.(queue := w.queue[..|w.queue| - 1], functions := funcs);
      && Good(prg, vectors, pre, order) && InAllClosed(prg, EntryAddrs(vectors), addr) && ClosedBut(prg, pre, Some(addr))
  {
    var addr := w.queue[|w.queue| - 1];
    var rest := w.queue[..|w.queue| - 1];
    var entries := EntryAddrs(vectors);
    var pre := w.(queue := rest, functions := funcs);
    SplitLast(w.queue);
    EnterParses(vectors, w.queue, entries);
    assert InAllClosed(prg, entries, addr) by {
      assert InImage(prg, w.queue[|w.queue| - 1]);
    }
    PopMinimal(prg, entries, w, pre, rest, addr);
    PopClosed(prg, w, pre, rest, addr);
    EnterTables(prg, w, order, rest, funcs);
    EnterRecords(prg, vectors, w, rest, funcs, addr);
  }

  /** A fresh pop that is not an entry only happens once the vectors parse. */
  lemma EnterParses(vectors: Vectors, q: seq<int>, entries: set<int>)
    requires |q| > 0
    requires AllVectorsParse(vectors) || forall i :: 0 <= i < |q| ==> q[i] in entries
    requires q[|q| - 1] in entries ==> AllVectorsParse(vectors)
    ensures AllVectorsParse(vectors)
  {
    var last := q[|q| - 1];
  }

  /** The instruction and access tables do not depend on the worklist or the records. */
  lemma EnterTables(prg: seq<byte>, w: Walk, order: seq<int>, rest: seq<int>, funcs: map<int, FuncRecord>)
    requires Tables(prg, w, order)
    ensures Tables(prg, w.(queue := rest, functions := funcs), order)
  {
  }

  /** Writing a vector entry's own record keeps every record valid. */
  lemma EnterRecords(prg: seq<byte>, vectors: Vectors, w: Walk, rest: seq<int>, funcs: map<int, FuncRecord>, addr: int)
    requires Records(prg, vectors, w) && InImage(prg, addr)
    requires if addr in EntryAddrs(vectors) then AllVectorsParse(vectors) && funcs == w.functions[addr := EntryRecord(vectors, addr)]
      else funcs == w.functions
    ensures Records(prg, vectors, w.(queue := rest, functions := funcs))
  {
    var w' := w.(queue := rest, functions := funcs);
    forall k | k in w'.functions
      ensures ValidRecord(prg, vectors, w'.instructions, k, w'.functions[k])
    {
      if k != addr || addr !in EntryAddrs(vectors) {
        assert ValidRecord(prg, vectors, w.instructions, k, w.functions[k]);
      }
    }
  }

  /** After the run, the outer invariant holds again with one more pop. */
  lemma WalkLeave(prg: seq<byte>, vectors: Vectors, initial: seq<int>, w: Walk, order: seq<int>, pops: nat,
                  pre: Walk, w': Walk, order': seq<int>)
    requires WalkInv(prg, vectors, initial, w, order, pops) && |w.queue| > 0
    requires var addr := w.queue[|w.queue| - 1]; addr !in w.seen && InImage(prg, addr)
    requires pre.queue == w.queue[..|w.queue| - 1] && pre.seen == w.seen
    requires RunDone(prg, vectors, pre, w', order', w.queue[|w.queue| - 1])
    ensures WalkInv(prg, vectors, initial, w', order', pops + 1)
  {
    var addr := w.queue[|w.queue| - 1];
    var entries := EntryAddrs(vectors);
    assert Good(prg, vectors, w', order') && ClosedBut(prg, w', None) && Grown(pre, w') && addr in w'.seen;
    SplitLast(w.queue);
    LeaveEntries(prg, entries, w.seen, w.queue, pre.queue, addr, w'.seen, w'.queue);
    assert pops + 1 + |w'.queue| <= |initial| + |w'.seen| by {
      assert |w'.seen - w.seen| == |w'.seen| - |w.seen|;
      assert addr in w'.seen - w.seen;
    }
  }

  /** The entries reached or queued before a run still are after it. */
  lemma LeaveEntries(prg: seq<byte>, entries: set<int>, seen: set<int>, queue: seq<int>, rest: seq<int>, addr: int,
                     seen': set<int>, queue': seq<int>)
    requires queue == rest + [addr]
    requires forall e :: e in entries && InImage(prg, e) ==> e in seen || e in queue
    requires seen <= seen' && addr in seen' && |rest| <= |queue'| && queue'[..|rest|] == rest
    ensures forall e :: e in entries && InImage(prg, e) ==> e in seen' || e in queue'
  {
    forall e | e in entries && InImage(prg, e)
      ensures e in seen' || e in queue'
    {
      if e != addr && e !in seen {
        var i :| 0 <= i < |queue| && queue[i] == e;
        assert rest[i] == e && queue'[i] == e;
      }
    }
  }

  /** An empty worklist: the visited set is closed, and by minimality the least such set. */
  lemma WalkDone(prg: seq<byte>, vectors: Vectors, initial: seq<int>, w: Walk, order: seq<int>, pops: nat)
    requires WalkInv(prg, vectors, initial, w, order, pops) && w.queue == []
    ensures Closed(prg, EntryAddrs(vectors), w.seen)
    ensures forall S :: Closed(prg, EntryAddrs(vectors), S) ==> w.seen <= S
    ensures AllVectorsParse(vectors) || forall e :: e in EntryAddrs(vectors) ==> !InImage(prg, e)
    ensures pops <= |initial| + |prg|
  {
    CardinalityInInterval(w.seen, Base, |prg|);
  }

  /** `disassemble_with_capstone` without its file writes: a LIFO worklist
      seeded with the entry addresses (in the order `initial`, which is how
      `list(entry_addrs)` happens to enumerate them) drives `FollowRun` until it
      is empty. The visited set is the least set closed under control flow
      from the entries; the tables are exactly what its members contribute;
      the number of pops is bounded by the entries plus the image size. */
  method Disassemble(prg: seq<byte>, vectors: Vectors, initial: seq<int>)
    returns (r: Result<Disassembly, DisasmError>, ghost seen: set<int>, ghost order: seq<int>, ghost pops: nat)
    requires NoDuplicates(initial)
    requires forall x :: x in initial <==> x in EntryAddrs(vectors)
    ensures r.Err? <==> !AllVectorsParse(vectors) && exists e :: e in EntryAddrs(vectors) && InImage(prg, e)
    ensures pops <= |initial| + |prg|
    ensures r.Ok? ==> Closed(prg, EntryAddrs(vectors), seen)
    ensures r.Ok? ==> forall S :: Closed(prg, EntryAddrs(vectors), S) ==> seen <= S
    ensures r.Ok? ==> Tables(prg, Walk([], seen, r.value.instructions, r.value.functions, r.value.accesses), order)
    ensures r.Ok? ==> Records(prg, vectors, Walk([], seen, r.value.instructions, r.value.functions, r.value.accesses))
  {
    var entries := CollectEntries(vectors);
    var w := Walk(initial, {}, map[], map[], []);
    order := [];
    pops := 0;
    WalkInit(prg, vectors, initial);
    while |w.queue| > 0
      invariant WalkInv(prg, vectors, initial, w, order, pops)
      decreases |initial| + |prg| - pops
    {
      CardinalityInInterval(w.seen, Base, |prg|);
      var addr := w.queue[|w.queue| - 1];
      if addr in w.seen || !InImage(prg, addr) {
        WalkSkip(prg, vectors, initial, w, order, pops);
        w := w.(queue := w.queue[..|w.queue| - 1]);
        pops := pops + 1;
        continue;
      }
      var entered := EnterFunctions(vectors, entries, addr, w.functions);
      if entered.None? {
        WalkNoParse(prg, vectors, initial, w, order, pops);
        return Err(VectorNotHex), w.seen, order, pops + 1;
      }
      var funcs := entered.value;
      WalkEnter(prg, vectors, initial, w, order, pops, funcs);
      var pre := w.(queue := w.queue[..|w.queue| - 1], functions := funcs);
      var w', order' := FollowRun(prg, vectors, pre, order, addr);
      WalkLeave(prg, vectors, initial, w, order, pops, pre, w', order');
      w, order, pops := w', order', pops + 1;
    }
    WalkDone(prg, vectors, initial, w, order, pops);
    seen := w.seen;
    r := Ok(Disassembly(w.instructions, w.functions, w.accesses));
  }

  /** The records after popping a fresh address: an entry address gets its
      vector's name (through the address-to-name table, which fails when a
      vector text is not hex); any other address leaves them as they are. */
  method EnterFunctions(vectors: Vectors, entries: set<int>, addr: nat, funcs: map<int, FuncRecord>)
    returns (r: Option<map<int, FuncRecord>>)
    requires entries == EntryAddrs(vectors)
    ensures r.None? <==> addr in entries && !AllVectorsParse(vectors)
    ensures r.Some? && addr in entries ==> r.value == funcs[addr := EntryRecord(vectors, addr)]
    ensures r.Some? && addr !in entries ==> r.value == funcs
  {
    if addr !in entries {
      return Some(funcs);
    }
    var names := VectorNames(vectors);
    if names.None? {
      return None;
    }
    var fallback := SubName(addr);
    var raw := if addr in names.value then names.value[addr] else fallback;
    r := Some(funcs[addr := FuncRecord(VecLabel(raw), addr, [], [])]);
  }

  // ---------------------------------------------------------------------------
  // Properties of the traversal's results
  // ---------------------------------------------------------------------------

  /** An access is listed exactly when some visited address makes it. */
  lemma {:induction false} AccessesOfMembers(prg: seq<byte>, order: seq<int>, x: RegisterAccess)
    ensures x in AccessesOf(prg, order) <==> exists a :: a in order && AccessAt(prg, a) == Some(x)
  {
    if order != [] {
      var init, last := order[..|order| - 1], order[|order| - 1];
      AccessesOfMembers(prg, init, x);
      assert order == init + [last];
      assert forall a :: a in order <==> a in init || a == last;
    }
  }

  /** The address of every listed access was visited, so with each address
      visited once no instruction is reported twice. */
  lemma {:induction false} AccessesOfDistinct(prg: seq<byte>, order: seq<int>)
    requires NoDuplicates(order)
    ensures forall i :: 0 <= i < |AccessesOf(prg, order)| ==> AccessesOf(prg, order)[i].address in order
    ensures forall i, j :: 0 <= i < j < |AccessesOf(prg, order)| ==>
      AccessesOf(prg, order)[i].address != AccessesOf(prg, order)[j].address
  {
    if order != [] {
      var init, last := order[..|order| - 1], order[|order| - 1];
      assert NoDuplicates(init) by {
        assert forall i :: 0 <= i < |init| ==> init[i] == order[i];
      }
      AccessesOfDistinct(prg, init);
      assert forall a :: a in init ==> a != last by {
        forall a | a in init ensures a != last {
          var i :| 0 <= i < |init| && init[i] == a;
          assert order[i] == a;
        }
      }
    }
  }

  /** The least closed set is unique, so two traversals that enumerate the
      entries in different orders record the same instruction table. */
  lemma InstructionsDeterministic(prg: seq<byte>, entries: set<int>, s1: set<int>, s2: set<int>,
                                  t1: map<int, Insn>, t2: map<int, Insn>)
    requires Closed(prg, entries, s1) && (forall S :: Closed(prg, entries, S) ==> s1 <= S)
    requires Closed(prg, entries, s2) && (forall S :: Closed(prg, entries, S) ==> s2 <= S)
    requires forall a :: a in t1 <==> a in s1 && DecodeAt(prg, a).Some?
    requires forall a :: a in t1 ==> InsnAt(prg, a) == Some(t1[a])
    requires forall a :: a in t2 <==> a in s2 && DecodeAt(prg, a).Some?
    requires forall a :: a in t2 ==> InsnAt(prg, a) == Some(t2[a])
    ensures s1 == s2 && t1 == t2
  {
    assert s1 <= s2 && s2 <= s1;
    forall a | a in t1
      ensures a in t2 && t1[a] == t2[a]
    {
      assert InsnAt(prg, a) == Some(t1[a]);
    }
    forall a | a in t2
      ensures a in t1
    {
    }
  }

  /** The operand text of a relative branch disagrees with where the traversal
      goes: for a backward displacement the text is 342 (0x156) lower, because
      the display subtracts 0x256 instead of 256. Forward displacements agree. */
  lemma RelDisplayOffset(lo: byte)
    ensures lo < 0x80 ==> DisplayOffset(lo) == BranchOffset(lo)
    ensures lo >= 0x80 ==> DisplayOffset(lo) == BranchOffset(lo) - 342
  {
  }

  /** A branch to itself at $8000 (`BNE` with displacement 0xFE) is followed
      back to $8000 ... */
  lemma RelBranchFollowed()
    ensures FlowAt([0xD0, 0xFE], Base).target == Some(0x8000)
  {
    var prg: seq<byte> := [0xD0, 0xFE];
    assert Opcode(0xD0) == Some(OpInfo(BNE, Rel, 2)) by {
      assert 0xD0 / 16 == 0xD && 0xD0 % 16 == 0;
    }
    assert DecodeAt(prg, Base) == Some(Decoded(BNE, Rel, 2, 0xFE, 0));
  }

  /** ... but listed as `$7EAA`. */
  lemma RelBranchListed()
    ensures FmtOperand(Rel, 0xFE, 0, Base) == "$7EAA"
  {
    assert Base + 2 + DisplayOffset(0xFE) == 0x7EAA;
    HexPad7EAA();
  }

  lemma HexPad7EA()
    ensures HexPad(0x7EA, 3) == "7EA"
  {
    HexPadDigit(7);
    HexPadStep(0x7E, 2);
    assert HexPad(0x7E, 2) == "7E";
    HexPadStep(0x7EA, 3);
  }

  lemma HexPad7EAA()
    ensures HexPad(0x7EAA, 4) == "7EAA"
  {
    HexPad7EA();
    HexPadStep(0x7EAA, 4);
  }

  /** For every decoded branch, the address its listed operand names falls
      short of the address the traversal follows by 342 when the branch goes
      backward, and is that address when it goes forward. */
  lemma RelListedTarget(prg: seq<byte>, a: int)
    requires DecodeAt(prg, a).Some? && DecodeAt(prg, a).value.mode == Rel
    ensures a >= Base && FlowAt(prg, a).target.Some?
    ensures var d, s := DecodeAt(prg, a).value, FmtOperand(Rel, DecodeAt(prg, a).value.lo, DecodeAt(prg, a).value.hi, a);
      && s[0] == '$' && AllHexDigits(s[1..])
      && HexValue(s[1..]) == FlowAt(prg, a).target.value - (if d.lo >= 0x80 then 342 else 0)
  {
    var d := DecodeAt(prg, a).value;
    RelDisplayOffset(d.lo);
    assert ("$" + HexPad(a + 2 + DisplayOffset(d.lo), 4))[1..] == HexPad(a + 2 + DisplayOffset(d.lo), 4);
  }

  /** `fmt_operand` as evidently intended: a relative operand shows the
      address the traversal follows, with `lo - 256` for a backward branch;
      every other mode is shown as `FmtOperand` shows it. */
  function IntendedFmtOperand(mode: Mode, lo: byte, hi: byte, pc: int): (s: string)
    requires pc >= Base
    ensures mode != Rel ==> s == FmtOperand(mode, lo, hi, pc)
    ensures mode == Rel ==> |s| >= 5 && s[0] == '$' && AllHexDigits(s[1..]) && HexValue(s[1..]) == pc + 2 + BranchOffset(lo)
  {
    if mode == Rel then
      var digits := HexPad(pc + 2 + BranchOffset(lo), 4);
      assert ("$" + digits)[1..] == digits;
      "$" + digits
    else FmtOperand(mode, lo, hi, pc)
  }

  /** The intended operand text of every decoded branch names exactly the
      address the traversal follows. */
  lemma IntendedRelTarget(prg: seq<byte>, a: int)
    requires DecodeAt(prg, a).Some? && DecodeAt(prg, a).value.mode == Rel
    ensures a >= Base && FlowAt(prg, a).target.Some?
    ensures var d := DecodeAt(prg, a).value;
      HexValue(IntendedFmtOperand(Rel, d.lo, d.hi, a)[1..]) == FlowAt(prg, a).target.value
  {
  }

  // ---------------------------------------------------------------------------
  // Bank listings
  // ---------------------------------------------------------------------------

  /** `max(1, prg_size // 0x4000)`. */
  function NumBanks(prgSize: nat): (n: nat)
    ensures n >= 1
    ensures prgSize >= BankSize ==> n * BankSize <= prgSize < (n + 1) * BankSize
  {
    Max(1, prgSize / BankSize)
  }

  /** `sorted(k for k in keys if lo <= k < lo + n)`, built by scanning the range upwards. */
  function SortedIn(keys: set<int>, lo: int, n: nat): (r: seq<int>)
    ensures forall i :: 0 <= i < |r| ==> lo <= r[i] < lo + n && r[i] in keys
    ensures forall i, j :: 0 <= i < j < |r| ==> r[i] < r[j]
    ensures forall a :: a in keys && lo <= a < lo + n ==> a in r
  {
    if n == 0 then []
    else
      var rest := SortedIn(keys, lo, n - 1);
      if lo + n - 1 in keys then rest + [lo + n - 1] else rest
  }

  /** The first lines of bank `k`'s listing. */
  function BankHeader(k: nat): seq<string>
  {
    ["; NES PRG Bank " + DecPad(k, 2), ""]
  }

  /** `f"\n{name}:"`. */
  function LabelLine(name: string): string
  {
    "\n" + name + ":"
  }

  /** `f"    {mnem:<6} {op_str}"`: four blanks, the three-letter mnemonic, four
      blanks (the padding to six and the separator) and then the operand text. */
  function InsnLine(i: Insn): (line: string)
    ensures |line| == 11 + |i.operand|
    ensures line[..4] == "    " && line[4..7] == MnemonicText(i.mnem)
    ensures line[7..11] == "    " && line[11..] == i.operand
  {
    var m := PadRight(MnemonicText(i.mnem), 6);
    var line := "    " + m + " " + i.operand;
    assert line[4..7] == m[..3];
    assert line[7..10] == m[3..];
    line
  }

  /** The lines of one listed address: a label line first when the address is
      a function key, then the instruction line. */
  function AddrLines(d: Disassembly, a: int): (lines: seq<string>)
    requires a in d.instructions
    ensures 1 <= |lines| <= 2 && lines[|lines| - 1] == InsnLine(d.instructions[a])
    ensures |lines| == 2 <==> a in d.functions
  {
    (if a in d.functions then [LabelLine(d.functions[a].name)] else [])
      + [InsnLine(d.instructions[a])]
  }

  /** The listing lines of the addresses `addrs`, in order. */
  function ListingLines(d: Disassembly, addrs: seq<int>): (lines: seq<string>)
    requires forall i :: 0 <= i < |addrs| ==> addrs[i] in d.instructions
    ensures |addrs| <= |lines| <= 2 * |addrs|
  {
    if addrs == [] then []
    else ListingLines(d, addrs[..|addrs| - 1]) + AddrLines(d, addrs[|addrs| - 1])
  }

  lemma ListingLinesSnoc(d: Disassembly, addrs: seq<int>, i: nat)
    requires forall j :: 0 <= j < |addrs| ==> addrs[j] in d.instructions
    requires i < |addrs|
    ensures ListingLines(d, addrs[..i + 1]) == ListingLines(d, addrs[..i]) + AddrLines(d, addrs[i])
  {
    assert addrs[..i + 1][..i] == addrs[..i];
  }

  /** The loop over one bank's sorted addresses. */
  method Listing(d: Disassembly, addrs: seq<int>) returns (lines: seq<string>)
    requires forall i :: 0 <= i < |addrs| ==> addrs[i] in d.instructions
    ensures lines == ListingLines(d, addrs)
  {
    lines := [];
    for i := 0 to |addrs|
      invariant lines == ListingLines(d, addrs[..i])
    {
      ghost var before := lines;
      var addr := addrs[i];
      ListingLinesSnoc(d, addrs, i);
      if addr in d.functions {
        lines := lines + [LabelLine(d.functions[addr].name)];
      }
      lines := lines + [InsnLine(d.instructions[addr])];
      AppendAddrLines(d, addr, before, lines);
    }
    assert addrs[..|addrs|] == addrs;
  }

  /** The label line, if any, and the instruction line appended one at a
      time are the lines of the address. */
  lemma AppendAddrLines(d: Disassembly, addr: int, before: seq<string>, after: seq<string>)
    requires addr in d.instructions
    requires after == (if addr in d.functions then before + [LabelLine(d.functions[addr].name)] else before)
      + [InsnLine(d.instructions[addr])]
    ensures after == before + AddrLines(d, addr)
  {
  }

  /** The addresses listed in bank `k`. */
  function BankAddrs(d: Disassembly, k: nat): (r: seq<int>)
    ensures forall i :: 0 <= i < |r| ==> r[i] in d.instructions
  {
    SortedIn(d.instructions.Keys, Base + k * BankSize, BankSize)
  }

  function BankLines(d: Disassembly, k: nat): seq<string>
  {
    BankHeader(k) + ListingLines(d, BankAddrs(d, k))
  }

  /** One bank's lines: the header, then the listing of its addresses. */
  method BankListing(d: Disassembly, k: nat) returns (lines: seq<string>)
    ensures lines == BankLines(d, k)
  {
    var addrs := BankAddrs(d, k);
    var body := Listing(d, addrs);
    lines := BankHeader(k) + body;
  }

  /** The text of `bank_NN.asm` for bank `k`. */
  function BankText(d: Disassembly, k: nat): string
  {
    Join(BankLines(d, k), "\n")
  }

  /** The text written to `bank_NN.asm`: the bank's lines joined by newlines. */
  method BankFile(d: Disassembly, k: nat) returns (text: string)
    ensures text == BankText(d, k)
  {
    var lines := BankListing(d, k);
    text := Join(lines, "\n");
  }

  /** The text of every `bank_NN.asm`, in bank order. */
  method AllBanks(d: Disassembly, prgSize: nat) returns (texts: seq<string>)
    ensures |texts| == NumBanks(prgSize)
    ensures forall k :: 0 <= k < |texts| ==> texts[k] == BankText(d, k)
  {
    texts := [];
    var n := NumBanks(prgSize);
    for k := 0 to n
      invariant |texts| == k
      invariant forall j :: 0 <= j < k ==> texts[j] == BankText(d, j)
    {
      var text := BankFile(d, k);
      BanksSnoc(d, texts, text);
      texts := texts + [text];
    }
  }

  lemma BanksSnoc(d: Disassembly, texts: seq<string>, text: string)
    requires forall j :: 0 <= j < |texts| ==> texts[j] == BankText(d, j)
    requires text == BankText(d, |texts|)
    ensures forall j :: 0 <= j < |texts| + 1 ==> (texts + [text])[j] == BankText(d, j)
  {
  }

  /** A decoded address is listed in the bank its offset falls in and in no other. */
  lemma BankOf(d: Disassembly, a: int)
    requires a in d.instructions && a >= Base
    ensures a in BankAddrs(d, BankIndex(a))
    ensures forall j: nat :: a in BankAddrs(d, j) ==> j == BankIndex(a)
  {
    var b := BankIndex(a);
    assert b * BankSize <= a - Base < b * BankSize + BankSize;
    forall j: nat | a in BankAddrs(d, j) ensures j == b {
      var lo := Base + j * BankSize;
      assert lo <= a < lo + BankSize;
      assert a - Base == j * BankSize + (a - lo);
    }
  }

  /** The bank an address falls in when the image is cut into 16 KiB banks. */
  function BankIndex(a: int): int
  {
    (a - Base) / BankSize
  }

  /** Every decoded address is listed in exactly the bank its offset falls in,
      and there only when that bank exists: addresses past the last whole bank
      of an image that is not a multiple of 16 KiB are listed nowhere. */
  lemma BankPartition(d: Disassembly, prgSize: nat, a: int, k: nat)
    requires a in d.instructions && a >= Base
    ensures a in BankAddrs(d, k) <==> k == BankIndex(a)
    ensures (exists j :: 0 <= j < NumBanks(prgSize) && a in BankAddrs(d, j)) <==> BankIndex(a) < NumBanks(prgSize)
  {
    BankOf(d, a);
    var lo := Base + k * BankSize;
    if a in BankAddrs(d, k) {
      assert lo <= a < lo + BankSize;
      assert (a - Base) == k * BankSize + (a - lo);
    }
    if k == BankIndex(a) {
      assert k * BankSize <= a - Base < k * BankSize + BankSize;
    }
  }
}
