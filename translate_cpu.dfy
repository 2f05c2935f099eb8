/** The deterministic first pass of the 6502 to 65816 translator and the
    bookkeeping around its model-assisted second pass: hardware-register
    accesses become calls to wrapper routines, the RESET handler gets the 65816
    start-up preamble, and lines that need the second pass are flagged. */
module TranslateCpu {
  import opened Common
  import opened PyText
  import Disassembler

  // ---------------------------------------------------------------------------
  // Tables
  // ---------------------------------------------------------------------------

  /** Operand text (lower case) of a register store, to the routine that replaces it. */
  const WriteWrappers: map<string, string> := map[
    "$2000" := "PPU_CTRL_WRITE",
    "$2001" := "PPU_MASK_WRITE",
    "$2003" := "OAM_ADDR_WRITE",
    "$2004" := "OAM_DATA_WRITE",
    "$2005" := "PPU_SCROLL_WRITE",
    "$2006" := "PPU_ADDR_WRITE",
    "$2007" := "PPU_DATA_WRITE",
    "$4014" := "OAM_DMA_TRIGGER",
    "$4000" := "APU_SQ1_VOL",
    "$4001" := "APU_SQ1_SWEEP",
    "$4002" := "APU_SQ1_LO",
    "$4003" := "APU_SQ1_HI",
    "$4004" := "APU_SQ2_VOL",
    "$4005" := "APU_SQ2_SWEEP",
    "$4006" := "APU_SQ2_LO",
    "$4007" := "APU_SQ2_HI",
    "$4008" := "APU_TRI_LINEAR",
    "$400a" := "APU_TRI_LO",
    "$400b" := "APU_TRI_HI",
    "$400c" := "APU_NOISE_VOL",
    "$400e" := "APU_NOISE_LO",
    "$400f" := "APU_NOISE_HI",
    "$4010" := "APU_DMC_FREQ",
    "$4011" := "APU_DMC_RAW",
    "$4012" := "APU_DMC_START",
    "$4013" := "APU_DMC_LEN",
    "$4015" := "APU_STATUS_WRITE",
    "$4017" := "APU_FRAME_CNT"
  ]

  /** Operand text (lower case) of a register load, to the routine that replaces it. */
  const ReadWrappers: map<string, string> := map[
    "$2002" := "PPU_STATUS_READ",
    "$2007" := "PPU_DATA_READ",
    "$4015" := "APU_STATUS_READ",
    "$4016" := "JOYPAD1_READ",
    "$4017" := "JOYPAD2_READ"
  ]

  const StoreMnemonics: set<string> := {"STA", "STX", "STY", "STZ"}
  const LoadMnemonics: set<string> := {"LDA", "LDX", "LDY", "BIT"}

  /** The 65816 start-up code appended after the RESET label. */
  const ResetPreamble: string :=
    "    ; === 65816 initialization \U{2014} injected by translate_cpu.py ===\n" +
    "    SEI                 ; disable interrupts\n" +
    "    CLC\n" +
    "    XCE                 ; switch CPU to 65816 native mode\n" +
    "    REP #$30            ; A/X/Y = 16-bit\n" +
    "    LDX #$01FF\n" +
    "    TXS                 ; set stack pointer\n" +
    "    REP #$20            ; A = 16-bit\n" +
    "    LDA #$0000\n" +
    "    TCD                 ; Direct Page register = $0000 (Zero Page compat)\n" +
    "    SEP #$30            ; back to 8-bit A/X/Y for NES code compatibility\n" +
    "    ; === end 65816 init ===\n"

  /** The three registers both tables name; the mnemonic class picks the routine. */
  lemma SharedRegisters()
    ensures WriteWrappers.Keys * ReadWrappers.Keys == {"$2007", "$4015", "$4017"}
  {
    ReadKeys();
    WriteKeysShared();
    WriteKeysMissing();
  }

  lemma ReadKeys()
    ensures ReadWrappers.Keys == {"$2002", "$2007", "$4015", "$4016", "$4017"}
  {
  }

  lemma WriteKeysShared()
    ensures "$2007" in WriteWrappers && "$4015" in WriteWrappers && "$4017" in WriteWrappers
  {
  }

  lemma WriteKeysMissing()
    ensures "$2002" !in WriteWrappers && "$4016" !in WriteWrappers
  {
  }

  // ---------------------------------------------------------------------------
  // The trigger patterns (case-insensitive regular-expression searches)
  // ---------------------------------------------------------------------------

  /** `lit`, given in lower case, occurs at position `i` of `s` up to case. */
  predicate TextAt(s: string, i: nat, lit: string)
  {
    i + |lit| <= |s| && Lower(s[i..i + |lit|]) == lit
  }

  /** `\b` before a match that starts with a word character at `i`. */
  predicate BoundaryBefore(s: string, i: nat)
    requires i <= |s|
  {
    i == 0 || !IsWordChar(s[i - 1])
  }

  /** `\b` after a match that ends with a word character just before `i`. */
  predicate BoundaryAfter(s: string, i: nat)
    requires i <= |s|
  {
    i == |s| || !IsWordChar(s[i])
  }

  /** `.*` can span `s[i..j]`: no newline in between. */
  predicate NoNewline(s: string, i: nat, j: nat)
    requires i <= j <= |s|
  {
    forall k :: i <= k < j ==> s[k] != '\n'
  }

  /** `\bJMP\s+\(` matches at `i`: an indirect jump. */
  predicate IndirectJumpAt(s: string, i: nat)
  {
    && TextAt(s, i, "jmp") && BoundaryBefore(s, i)
    && var rest := s[i + 3..];
       var t := LStrip(rest);
       |t| < |rest| && t != [] && t[0] == '('
  }

  /** `;\s*self.modif` matches at `i`: a self-modifying-code annotation. */
  predicate SelfModifyingAt(s: string, i: nat)
  {
    && i < |s| && s[i] == ';'
    && var t := LStrip(s[i + 1..]);
       TextAt(t, 0, "self") && TextAt(t, 5, "modif") && t[4] != '\n'
  }

  /** `\bJSR\b.*bank` matches at `i`: a call annotated as crossing banks. */
  predicate BankCallAt(s: string, i: nat)
  {
    && TextAt(s, i, "jsr") && BoundaryBefore(s, i) && BoundaryAfter(s, i + 3)
    && exists j :: i + 3 <= j <= |s| && NoNewline(s, i + 3, j) && TextAt(s, j, "bank")
  }

  /** `\$[89AB][0-9A-Fa-f]{3}:` matches at `i`: a label in the mapper-register range. */
  predicate MapperLabelAt(s: string, i: nat)
  {
    && i + 6 <= |s| && s[i] == '$' && s[i + 1] in "89ABab"
    && IsHexDigit(s[i + 2]) && IsHexDigit(s[i + 3]) && IsHexDigit(s[i + 4]) && s[i + 5] == ':'
  }

  /** Some trigger pattern is found somewhere in `s`. */
  predicate AnyTrigger(s: string)
  {
    || (exists i :: 0 <= i <= |s| && IndirectJumpAt(s, i))
    || (exists i :: 0 <= i <= |s| && SelfModifyingAt(s, i))
    || (exists i :: 0 <= i <= |s| && BankCallAt(s, i))
    || (exists i :: 0 <= i <= |s| && MapperLabelAt(s, i))
  }

  // ---------------------------------------------------------------------------
  // One line
  // ---------------------------------------------------------------------------

  /** A rewritten line and whether it needs the model-assisted pass. */
  datatype Processed = Processed(text: string, flagged: bool)

  /** `s.split(",")[0]`. */
  function BeforeComma(s: string): (r: string)
    ensures |r| <= |s| && r == s[..|r|] && ',' !in r
    ensures |r| < |s| ==> s[|r|] == ','
  {
    if s == [] || s[0] == ',' then [] else [s[0]] + BeforeComma(s[1..])
  }

  /** The value of a label token: `int(token.rstrip(":").lstrip("$"), 16)`. */
  function LabelValue(token: string): Option<int>
  {
    ParseHex(LStripChar(RStripChar(token, ':'), '$'))
  }

  /** The register key of an operand: lower case, up to the first comma, stripped. */
  function OperandKey(op: string): string
  {
    Strip(BeforeComma(Lower(op)))
  }

  /** The call to a wrapper routine that replaces a register access. */
  function WrapperCall(line: string, wrapper: string, mnem: string, op: string): string
  {
    Indent(line) + "JSR " + wrapper + "    ; was: " + mnem + " " + op
  }

  /** Blank and comment lines are passed through untouched. */
  predicate Skipped(line: string)
  {
    var s := Strip(line);
    s == [] || s[0] == ';'
  }

  /** The tokens the pass looks at: `line.strip().split(None, 2)`. */
  function Tokens(line: string): (parts: seq<string>)
    ensures parts != [] <==> Strip(line) != []
  {
    var s := Strip(line);
    assert s != [] ==> LStrip(s) == s;
    SplitWs(s, 2)
  }

  /** The mnemonic of an instruction line, upper-cased. */
  function Mnem(line: string): string
    requires !Skipped(line)
  {
    Upper(Tokens(line)[0])
  }

  /** The first operand token of an instruction line, or empty. */
  function Operand(line: string): string
    requires !Skipped(line)
  {
    var parts := Tokens(line);
    if |parts| > 1 then parts[1] else ""
  }

  /** A line whose first token ends in `:`. */
  predicate IsLabel(line: string)
  {
    !Skipped(line) && EndsWith(Tokens(line)[0], ":")
  }

  /** Pass 1 on one line. */
  function PreprocessLine(line: string, resetVec: int): (r: Processed)
    ensures Skipped(line) ==> r == Processed(line, false)
    ensures r.flagged ==> r.text == line
  {
    var stripped := Strip(line);
    if stripped == [] || stripped[0] == ';' then Processed(line, false)
    else
      var parts := SplitWs(stripped, 2);
      if parts == [] then Processed(line, false)
      else if EndsWith(parts[0], ":") then LabelResult(line, parts[0], resetVec)
      else
        var op := if |parts| > 1 then parts[1] else "";
        InstructionResult(line, Upper(parts[0]), op, OperandKey(op))
  }

  /** A label line: the preamble follows the RESET label, every other label is kept. */
  function LabelResult(line: string, token: string, resetVec: int): (r: Processed)
    ensures !r.flagged
  {
    if LabelValue(token) == Some(resetVec) then Processed(line + "\n" + ResetPreamble, false)
    else Processed(line, false)
  }

  /** An instruction line with mnemonic `mnem`, first operand `op` and its register key `key`. */
  function InstructionResult(line: string, mnem: string, op: string, key: string): (r: Processed)
    ensures r.flagged ==> r.text == line
  {
    if mnem in StoreMnemonics && key in WriteWrappers then
      Processed(WrapperCall(line, WriteWrappers[key], mnem, op), false)
    else if mnem in LoadMnemonics && key in ReadWrappers then
      Processed(WrapperCall(line, ReadWrappers[key], mnem, op), false)
    else if mnem == "JSR" then Processed(line, AnyTrigger(line))
    else Processed(line, mnem == "JMP" && '(' in op)
  }

  /** The pass splits a line into its parts just as `Tokens` does. */
  lemma LineCases(line: string, resetVec: int)
    requires !Skipped(line)
    ensures IsLabel(line) ==> PreprocessLine(line, resetVec) == LabelResult(line, Tokens(line)[0], resetVec)
    ensures !IsLabel(line) ==>
      PreprocessLine(line, resetVec) == InstructionResult(line, Mnem(line), Operand(line), OperandKey(Operand(line)))
  {
  }

  /** A label line is never rewritten or flagged; the preamble is appended
      exactly when the label's hexadecimal value is the RESET vector. */
  lemma LabelRule(line: string, resetVec: int)
    requires IsLabel(line)
    ensures var r := PreprocessLine(line, resetVec);
      && !r.flagged
      && (r.text == line + "\n" + ResetPreamble <==> LabelValue(Tokens(line)[0]) == Some(resetVec))
      && (r.text == line || r.text == line + "\n" + ResetPreamble)
  {
    LineCases(line, resetVec);
    assert |line + "\n" + ResetPreamble| > |line|;
  }

  /** Only indirect jumps and calls that match a trigger pattern are flagged,
      and both always are. */
  lemma FlagRule(line: string, resetVec: int)
    requires !Skipped(line) && !IsLabel(line)
    ensures PreprocessLine(line, resetVec).flagged <==>
      (Mnem(line) == "JMP" && '(' in Operand(line)) || (Mnem(line) == "JSR" && AnyTrigger(line))
  {
    LineCases(line, resetVec);
    InstructionFlag(line, Mnem(line), Operand(line), OperandKey(Operand(line)));
  }

  lemma InstructionFlag(line: string, mnem: string, op: string, key: string)
    ensures InstructionResult(line, mnem, op, key).flagged <==>
      (mnem == "JMP" && '(' in op) || (mnem == "JSR" && AnyTrigger(line))
  {
    assert "JMP" !in StoreMnemonics && "JMP" !in LoadMnemonics;
    assert "JSR" !in StoreMnemonics && "JSR" !in LoadMnemonics;
  }

  /** Register stores become calls to the write routine, register loads calls
      to the read routine (the store test comes first), and nothing else is
      rewritten. */
  lemma RewriteRule(line: string, resetVec: int)
    requires !Skipped(line) && !IsLabel(line)
    ensures var r := PreprocessLine(line, resetVec);
      var m, op := Mnem(line), Operand(line);
      var key := OperandKey(op);
      && (m in StoreMnemonics && key in WriteWrappers ==>
            r == Processed(WrapperCall(line, WriteWrappers[key], m, op), false))
      && (m in LoadMnemonics && key in ReadWrappers ==>
            r == Processed(WrapperCall(line, ReadWrappers[key], m, op), false))
      && (r.text != line ==>
            (m in StoreMnemonics && key in WriteWrappers) || (m in LoadMnemonics && key in ReadWrappers))
  {
    LineCases(line, resetVec);
    InstructionRewrite(line, Mnem(line), Operand(line), OperandKey(Operand(line)));
  }

  lemma InstructionRewrite(line: string, mnem: string, op: string, key: string)
    ensures var r := InstructionResult(line, mnem, op, key);
      && (mnem in StoreMnemonics && key in WriteWrappers ==>
            r == Processed(WrapperCall(line, WriteWrappers[key], mnem, op), false))
      && (mnem in LoadMnemonics && key in ReadWrappers ==>
            r == Processed(WrapperCall(line, ReadWrappers[key], mnem, op), false))
      && (r.text != line ==>
            (mnem in StoreMnemonics && key in WriteWrappers) || (mnem in LoadMnemonics && key in ReadWrappers))
  {
    if mnem in LoadMnemonics {
      assert mnem !in StoreMnemonics;
    }
  }

  /** `t` ends with the text `op` and not with a line terminator. */
  predicate Unterminated(t: string, op: string)
  {
    t != [] && EndsWith(t, op) && !IsLineBreak(t[|t| - 1])
  }

  /** A rewritten line is rebuilt from its tokens and so loses its line
      terminator: it ends with the operand it replaced. */
  lemma RewriteDropsTerminator(line: string, resetVec: int)
    requires !Skipped(line) && !IsLabel(line) && PreprocessLine(line, resetVec).text != line
    ensures Unterminated(PreprocessLine(line, resetVec).text, Operand(line))
  {
    RewriteRule(line, resetVec);
    OperandEnd(line);
    NoEmptyKey();
    EmptyOperandKey();
    RewrittenEnds(line, PreprocessLine(line, resetVec), Mnem(line), Operand(line), OperandKey(Operand(line)),
      StoreMnemonics, LoadMnemonics, WriteWrappers, ReadWrappers);
  }

  /** The same fact for any result that obeys a rewrite rule with tables
      `writes` and `reads` that have no entry for the empty key. */
  lemma RewrittenEnds(line: string, r: Processed, m: string, op: string, key: string,
                      stores: set<string>, loads: set<string>, writes: map<string, string>, readTable: map<string, string>)
    requires op != [] ==> !IsSpace(op[|op| - 1])
    requires op == [] ==> key == []
    requires [] !in writes && [] !in readTable
    requires m in stores && key in writes ==> r == Processed(WrapperCall(line, writes[key], m, op), false)
    requires m in loads && key in readTable ==> r == Processed(WrapperCall(line, readTable[key], m, op), false)
    requires r.text != line ==> (m in stores && key in writes) || (m in loads && key in readTable)
    requires r.text != line
    ensures Unterminated(r.text, op)
  {
    var wrapper := if m in stores && key in writes then writes[key] else readTable[key];
    assert r.text == WrapperCall(line, wrapper, m, op);
    WrapperCallEnds(line, wrapper, m, op);
  }

  /** A wrapper call ends with the operand it replaced, so it keeps no terminator. */
  lemma WrapperCallEnds(line: string, wrapper: string, mnem: string, op: string)
    requires op != [] && !IsSpace(op[|op| - 1])
    ensures Unterminated(WrapperCall(line, wrapper, mnem, op), op)
  {
    var head := Indent(line) + "JSR " + wrapper + "    ; was: " + mnem + " ";
    var t := WrapperCall(line, wrapper, mnem, op);
    assert t == head + op;
    EndsWithAppend(head, op);
    assert t[|t| - 1] == op[|op| - 1];
    if IsLineBreak(op[|op| - 1]) {
      LineBreakIsSpace(op[|op| - 1]);
    }
  }

  lemma EmptyOperandKey()
    ensures OperandKey([]) == []
  {
    assert Lower([]) == [];
  }

  /** The operand token does not end in whitespace. */
  lemma OperandEnd(line: string)
    requires !Skipped(line)
    ensures var op := Operand(line); op != [] ==> !IsSpace(op[|op| - 1])
  {
    var parts := Tokens(line);
    if |parts| >= 2 {
      SplitWsSecond(Strip(line));
    }
  }

  /** No table has an entry for an empty operand. */
  lemma NoEmptyKey()
    ensures [] !in WriteWrappers && [] !in ReadWrappers
  {
  }

  // ---------------------------------------------------------------------------
  // The pass on the fallback disassembler's listings
  // ---------------------------------------------------------------------------

  /** A line holding one token, up to whitespace at its end. */
  lemma OneTokenLine(tok: string, end: string)
    requires tok != [] && NoSpace(tok) && AllSpace(end)
    ensures Strip(tok + end) == tok && Tokens(tok + end) == [tok]
  {
    assert [] + tok + end == tok + end;
    StripAround([], tok, end);
    assert [] + tok == tok;
    SplitOneWord([], tok, 2);
  }

  /** A name that does not start like a number has no hexadecimal value. */
  lemma NameValue(name: string)
    requires name != [] && NoSpace(name) && name[|name| - 1] != ':'
    requires !IsHexDigit(name[0]) && name[0] !in "$+-"
    ensures LabelValue(name + ":") == None
  {
    var tok := name + ":";
    assert tok[..|tok| - 1] == name;
    assert RStripChar(tok, ':') == name;
    assert LStripChar(name, '$') == name;
    StripUnpadded(name);
    assert !AllHexDigits(name);
  }

  /** A label whose name cannot be read as a hexadecimal number is passed
      through as it is, whatever whitespace ends its line. */
  lemma NamedLabelKept(name: string, end: string, resetVec: int)
    requires name != [] && NoSpace(name) && name[|name| - 1] != ':' && AllSpace(end)
    requires !IsHexDigit(name[0]) && name[0] !in "$+-;"
    ensures PreprocessLine(name + ":" + end, resetVec) == Processed(name + ":" + end, false)
  {
    NamedLabelLine(name, end);
    LabelRule(name + ":" + end, resetVec);
  }

  /** Such a line is a label line whose token has no value. */
  lemma NamedLabelLine(name: string, end: string)
    requires name != [] && NoSpace(name) && name[|name| - 1] != ':' && AllSpace(end)
    requires !IsHexDigit(name[0]) && name[0] !in "$+-;"
    ensures var line := name + ":" + end;
      IsLabel(line) && LabelValue(Tokens(line)[0]) == None
  {
    var tok := name + ":";
    var line := tok + end;
    NoSpaceAppend(name, ":");
    OneTokenLine(tok, end);
    assert !Skipped(line);
    assert EndsWith(tok, ":");
    NameValue(name);
  }

  /** The `sub_XXXX:` labels of the fallback disassembly are kept. */
  lemma SubLabelKept(t: nat, end: string, resetVec: int)
    requires AllSpace(end)
    ensures var line := Disassembler.SubName(t) + ":" + end;
      PreprocessLine(line, resetVec) == Processed(line, false)
  {
    SubNameShape(t);
    NamedLabelKept(Disassembler.SubName(t), end, resetVec);
  }

  lemma SubNameShape(t: nat)
    ensures var name := Disassembler.SubName(t);
      && name != [] && NoSpace(name) && name[|name| - 1] != ':'
      && !IsHexDigit(name[0]) && name[0] !in "$+-;"
  {
    var h := HexPad(t, 4);
    HexNoSpace(h);
    NoSpaceAppend("sub_", h);
    var name := Disassembler.SubName(t);
    assert name[0] == 's';
    assert name[|name| - 1] == h[|h| - 1];
  }

  /** The vector-handler labels of the fallback disassembly are kept: the
      RESET label is a name, never its address, so the preamble is not added. */
  lemma HandlerLabelKept(raw: string, end: string, resetVec: int)
    requires raw in {"NMI", "RESET", "IRQ"} && AllSpace(end)
    ensures var line := Disassembler.VecLabel(raw) + ":" + end;
      PreprocessLine(line, resetVec) == Processed(line, false)
  {
    HandlerNameShape(raw);
    NamedLabelKept(Disassembler.VecLabel(raw), end, resetVec);
  }

  lemma HandlerNameShape(raw: string)
    requires raw in {"NMI", "RESET", "IRQ"}
    ensures var name := Disassembler.VecLabel(raw);
      && name != [] && NoSpace(name) && name[|name| - 1] != ':'
      && !IsHexDigit(name[0]) && name[0] !in "$+-;"
  {
    var name := Disassembler.VecLabel(raw);
    assert name in {"NMI_HANDLER", "RESET_HANDLER", "IRQ_HANDLER"};
  }

  /** The tokens of an instruction line are its mnemonic and its operand. */
  lemma InsnTextSplit(m: string, op: string, end: string)
    requires |m| == 3 && NoSpace(m) && op != [] && NoSpace(op) && AllSpace(end)
    ensures var body := m + "    " + op;
      Strip("    " + body + end) == body && Tokens("    " + body + end) == [m, op]
  {
    var body := m + "    " + op;
    assert body[|body| - 1] == op[|op| - 1];
    StripAround("    ", body, end);
    SplitTwoWords(m, "    ", op);
  }

  /** A line laid out as the fallback disassembler lays out an instruction:
      a three-letter upper-case mnemonic padded to six columns, then the operand. */
  lemma InsnTextTokens(m: string, op: string, end: string)
    requires |m| == 3 && forall k :: 0 <= k < 3 ==> 'A' <= m[k] <= 'Z'
    requires op != [] && NoSpace(op) && AllSpace(end)
    ensures var line := "    " + PadRight(m, 6) + " " + op + end;
      && !Skipped(line) && !IsLabel(line) && Mnem(line) == m && Operand(line) == op
  {
    var line := "    " + PadRight(m, 6) + " " + op + end;
    InsnTextLayout(m, op, end);
    InsnTextSplit(m, op, end);
    UpperFixed(m);
    EndsWithChar(m, ':');
  }

  lemma InsnTextLayout(m: string, op: string, end: string)
    requires |m| == 3
    ensures "    " + PadRight(m, 6) + " " + op + end == "    " + (m + "    " + op) + end
  {
    assert PadRight(m, 6) == m + "   ";
  }

  /** The instruction lines of the fallback disassembly split into the
      mnemonic and the operand text. */
  lemma InsnLineTokens(i: Disassembler.Insn, end: string)
    requires i.operand != [] && NoSpace(i.operand) && AllSpace(end)
    ensures var line := Disassembler.InsnLine(i) + end;
      && !Skipped(line) && !IsLabel(line)
      && Mnem(line) == Disassembler.MnemonicText(i.mnem) && Operand(line) == i.operand
  {
    var m := Disassembler.MnemonicText(i.mnem);
    assert Disassembler.InsnLine(i) == "    " + PadRight(m, 6) + " " + i.operand;
    InsnTextTokens(m, i.operand, end);
  }

  /** Stores, loads and the two jumps are four disjoint kinds of mnemonic. */
  lemma MnemonicClasses(m: string)
    ensures m in StoreMnemonics ==> m !in LoadMnemonics && m != "JMP" && m != "JSR"
    ensures m in LoadMnemonics ==> m !in StoreMnemonics && m != "JMP" && m != "JSR"
  {
  }

  /** A store instruction is rewritten exactly when its key is write-wrapped. */
  lemma StoreLine(line: string, resetVec: int)
    requires !Skipped(line) && !IsLabel(line) && Mnem(line) in StoreMnemonics
    ensures var m, op := Mnem(line), Operand(line);
      var key := OperandKey(op);
      PreprocessLine(line, resetVec) ==
        if key in WriteWrappers then Processed(WrapperCall(line, WriteWrappers[key], m, op), false)
        else Processed(line, false)
  {
    RewriteRule(line, resetVec);
    FlagRule(line, resetVec);
    MnemonicClasses(Mnem(line));
  }

  /** A load instruction is rewritten exactly when its key is read-wrapped. */
  lemma LoadLine(line: string, resetVec: int)
    requires !Skipped(line) && !IsLabel(line) && Mnem(line) in LoadMnemonics
    ensures var m, op := Mnem(line), Operand(line);
      var key := OperandKey(op);
      PreprocessLine(line, resetVec) ==
        if key in ReadWrappers then Processed(WrapperCall(line, ReadWrappers[key], m, op), false)
        else Processed(line, false)
  {
    RewriteRule(line, resetVec);
    FlagRule(line, resetVec);
    MnemonicClasses(Mnem(line));
  }

  /** An indirect jump is flagged and kept. */
  lemma JumpLine(line: string, resetVec: int)
    requires !Skipped(line) && !IsLabel(line) && Mnem(line) == "JMP" && '(' in Operand(line)
    ensures PreprocessLine(line, resetVec) == Processed(line, true)
  {
    FlagRule(line, resetVec);
  }

  lemma JmpText()
    ensures Disassembler.MnemonicText(Disassembler.JMP) == "JMP"
  {
  }

  lemma StoreText(mn: Disassembler.Mnemonic)
    requires mn in {Disassembler.STA, Disassembler.STX, Disassembler.STY}
    ensures Disassembler.MnemonicText(mn) in StoreMnemonics
  {
  }

  lemma LoadText(mn: Disassembler.Mnemonic)
    requires mn in {Disassembler.LDA, Disassembler.LDX, Disassembler.LDY, Disassembler.BIT}
    ensures Disassembler.MnemonicText(mn) in LoadMnemonics
  {
  }

  /** A fallback-disassembled store becomes a call to the write routine
      exactly when its operand names a write-wrapped register. */
  lemma DisassembledStore(i: Disassembler.Insn, end: string, resetVec: int)
    requires i.mnem in {Disassembler.STA, Disassembler.STX, Disassembler.STY}
    requires i.operand != [] && NoSpace(i.operand) && AllSpace(end)
    ensures var line := Disassembler.InsnLine(i) + end;
      var m, key := Disassembler.MnemonicText(i.mnem), OperandKey(i.operand);
      PreprocessLine(line, resetVec) ==
        if key in WriteWrappers then Processed(WrapperCall(line, WriteWrappers[key], m, i.operand), false)
        else Processed(line, false)
  {
    var line := Disassembler.InsnLine(i) + end;
    InsnLineTokens(i, end);
    StoreText(i.mnem);
    StoreLine(line, resetVec);
  }

  /** A fallback-disassembled load (or BIT) becomes a call to the read
      routine exactly when its operand names a read-wrapped register. */
  lemma DisassembledLoad(i: Disassembler.Insn, end: string, resetVec: int)
    requires i.mnem in {Disassembler.LDA, Disassembler.LDX, Disassembler.LDY, Disassembler.BIT}
    requires i.operand != [] && NoSpace(i.operand) && AllSpace(end)
    ensures var line := Disassembler.InsnLine(i) + end;
      var m, key := Disassembler.MnemonicText(i.mnem), OperandKey(i.operand);
      PreprocessLine(line, resetVec) ==
        if key in ReadWrappers then Processed(WrapperCall(line, ReadWrappers[key], m, i.operand), false)
        else Processed(line, false)
  {
    var line := Disassembler.InsnLine(i) + end;
    InsnLineTokens(i, end);
    LoadText(i.mnem);
    LoadLine(line, resetVec);
  }

  /** A fallback-disassembled indirect jump is flagged and kept. */
  lemma DisassembledIndirectJump(i: Disassembler.Insn, end: string, resetVec: int)
    requires i.mnem == Disassembler.JMP && i.operand != [] && NoSpace(i.operand) && '(' in i.operand
    requires AllSpace(end)
    ensures var line := Disassembler.InsnLine(i) + end;
      PreprocessLine(line, resetVec) == Processed(line, true)
  {
    var line := Disassembler.InsnLine(i) + end;
    InsnLineTokens(i, end);
    JmpText();
    JumpLine(line, resetVec);
  }

  // ---------------------------------------------------------------------------
  // One bank
  // ---------------------------------------------------------------------------

  /** Pass 1 as a function of the line number and the line. */
  function Pass1(resetVec: int): (nat, string) -> Processed
  {
    (k: nat, line: string) => PreprocessLine(line, resetVec)
  }

  /** Pass 1 applied to each line, in order. */
  function Results(lines: seq<string>, resetVec: int): (ps: seq<Processed>)
    ensures |ps| == |lines|
  {
    MapIndexed(lines, Pass1(resetVec))
  }

  /** Result k is pass 1 on line k. */
  lemma ResultAt(lines: seq<string>, resetVec: int, k: nat)
    requires k < |lines|
    ensures Results(lines, resetVec)[k] == PreprocessLine(lines[k], resetVec)
  {
    MapIndexedAt(lines, Pass1(resetVec), k);
  }

  /** One more line adds one more result. */
  lemma ResultsSnoc(lines: seq<string>, i: nat, resetVec: int)
    requires i < |lines|
    ensures Results(lines[..i + 1], resetVec) == Results(lines[..i], resetVec) + [PreprocessLine(lines[i], resetVec)]
  {
    MapIndexedSnoc(lines, i, Pass1(resetVec));
  }

  /** The texts of a sequence of results. */
  function Texts(ps: seq<Processed>): (texts: seq<string>)
    ensures |texts| == |ps|
    ensures forall k :: 0 <= k < |ps| ==> texts[k] == ps[k].text
  {
    if ps == [] then [] else Texts(ps[..|ps| - 1]) + [ps[|ps| - 1].text]
  }

  /** The 0-based positions of the flagged results: exactly the flagged ones, ascending. */
  function FlaggedIndices(ps: seq<Processed>): (nums: seq<nat>)
    ensures forall k :: k in nums <==> 0 <= k < |ps| && ps[k].flagged
    ensures forall a, b :: 0 <= a < b < |nums| ==> nums[a] < nums[b]
  {
    if ps == [] then []
    else
      var n := |ps| - 1;
      var init := FlaggedIndices(ps[..n]);
      assert forall a :: 0 <= a < |init| ==> init[a] in init;
      init + (if ps[n].flagged then [n] else [])
  }

  /** Pass 1 on a whole bank listing: every line (terminator kept) is
      transformed, the results are joined, and the flagged line numbers
      are collected. */
  method PreprocessBank(asmText: string, resetVec: int) returns (text: string, flagged: seq<nat>)
    ensures var ps := Results(SplitLines(asmText), resetVec);
      text == Concat(Texts(ps)) && flagged == FlaggedIndices(ps)
  {
    var lines := SplitLines(asmText);
    text, flagged := PreprocessLines(lines, resetVec);
  }

  /** The loop of `PreprocessBank` over the already split lines. */
  method PreprocessLines(lines: seq<string>, resetVec: int) returns (text: string, flagged: seq<nat>)
    ensures var ps := Results(lines, resetVec);
      text == Concat(Texts(ps)) && flagged == FlaggedIndices(ps)
  {
    var outLines: seq<string> := [];
    flagged := [];
    for i := 0 to |lines|
      invariant outLines == Texts(Results(lines[..i], resetVec))
      invariant flagged == FlaggedIndices(Results(lines[..i], resetVec))
    {
      ghost var done := Results(lines[..i], resetVec);
      var r := PreprocessLine(lines[i], resetVec);
      ResultsSnoc(lines, i, resetVec);
      TextsSnoc(done, r);
      FlaggedSnoc(done, r);
      outLines := outLines + [r.text];
      if r.flagged {
        flagged := flagged + [i];
      }
    }
    assert lines[..|lines|] == lines;
    text := Concat(outLines);
  }

  lemma TextsSnoc(ps: seq<Processed>, p: Processed)
    ensures Texts(ps + [p]) == Texts(ps) + [p.text]
  {
    assert (ps + [p])[..|ps|] == ps;
  }

  lemma FlaggedSnoc(ps: seq<Processed>, p: Processed)
    ensures FlaggedIndices(ps + [p]) == FlaggedIndices(ps) + (if p.flagged then [|ps|] else [])
  {
    assert (ps + [p])[..|ps|] == ps;
  }

  /** A bank in which no line is rewritten comes out exactly as it went in. */
  lemma UnchangedBank(asmText: string, resetVec: int)
    requires forall line :: line in SplitLines(asmText) ==> PreprocessLine(line, resetVec).text == line
    ensures Concat(Texts(Results(SplitLines(asmText), resetVec))) == asmText
  {
    var lines := SplitLines(asmText);
    var texts := Texts(Results(lines, resetVec));
    forall k | 0 <= k < |lines|
      ensures texts[k] == lines[k]
    {
      ResultAt(lines, resetVec, k);
    }
    assert texts == lines;
    SplitLinesRoundTrip(asmText);
  }

  /** A rewritten register access carries no terminator, so in the joined
      text it runs straight into the next line's text. */
  lemma RewriteMerges(lines: seq<string>, k: nat, resetVec: int)
    requires k + 1 < |lines| && !Skipped(lines[k]) && !IsLabel(lines[k])
    requires PreprocessLine(lines[k], resetVec).text != lines[k]
    ensures var texts := Texts(Results(lines, resetVec));
      && Concat(texts) == Concat(texts[..k]) + (texts[k] + texts[k + 1]) + Concat(texts[k + 2..])
      && Unterminated(texts[k], Operand(lines[k]))
  {
    var texts := Texts(Results(lines, resetVec));
    ResultAt(lines, resetVec, k);
    RewriteDropsTerminator(lines[k], resetVec);
    ConcatAround(texts, k);
  }

  /** Joining splits around two neighbouring parts. */
  lemma ConcatAround(texts: seq<string>, k: nat)
    requires k + 1 < |texts|
    ensures Concat(texts) == Concat(texts[..k]) + (texts[k] + texts[k + 1]) + Concat(texts[k + 2..])
  {
    ConcatSplit(texts, k + 2);
    ConcatPrefixTwo(texts, k);
  }

  lemma ConcatSplit(texts: seq<string>, j: nat)
    requires j <= |texts|
    ensures Concat(texts) == Concat(texts[..j]) + Concat(texts[j..])
  {
    assert texts == texts[..j] + texts[j..];
    ConcatAppend(texts[..j], texts[j..]);
  }

  lemma ConcatPrefixTwo(texts: seq<string>, k: nat)
    requires k + 1 < |texts|
    ensures Concat(texts[..k + 2]) == Concat(texts[..k]) + (texts[k] + texts[k + 1])
  {
    var p := texts[..k + 2];
    assert p[..k + 1] == texts[..k + 1];
    assert texts[..k + 1][..k] == texts[..k];
  }

  // ---------------------------------------------------------------------------
  // Pass 1 with terminators kept
  // ---------------------------------------------------------------------------

  /** The terminator `splitlines(keepends=True)` leaves on a line: `\r\n`, a
      single line break, or nothing. */
  function LineEnd(line: string): (t: string)
    ensures |t| <= |line| && EndsWith(line, t)
    ensures t == [] <==> line == [] || !IsLineBreak(line[|line| - 1])
  {
    if |line| >= 2 && line[|line| - 2..] == "\r\n" then "\r\n"
    else if line != [] && IsLineBreak(line[|line| - 1]) then [line[|line| - 1]]
    else []
  }

  /** Pass 1 as evidently intended: a rewritten register access keeps the
      terminator of the line it replaces; every other line is treated as
      `PreprocessLine` treats it. */
  function IntendedPreprocessLine(line: string, resetVec: int): (r: Processed)
    ensures r.flagged == PreprocessLine(line, resetVec).flagged
    ensures Skipped(line) || IsLabel(line) || PreprocessLine(line, resetVec).text == line
      ==> r == PreprocessLine(line, resetVec)
  {
    var p := PreprocessLine(line, resetVec);
    if !Skipped(line) && !IsLabel(line) && p.text != line then Processed(p.text + LineEnd(line), false)
    else p
  }

  /** The rewritten line as written ends with no terminator; the intended one
      ends with the terminator of the line it replaces. */
  lemma IntendedKeepsTerminator(line: string, resetVec: int)
    requires !Skipped(line) && !IsLabel(line) && PreprocessLine(line, resetVec).text != line
    ensures LineEnd(PreprocessLine(line, resetVec).text) == []
    ensures LineEnd(IntendedPreprocessLine(line, resetVec).text) == LineEnd(line)
  {
    var w := PreprocessLine(line, resetVec).text;
    RewriteDropsTerminator(line, resetVec);
    UnterminatedEnd(w, LineEnd(line));
  }

  /** Appending a terminator to a text that ends in neither a line break
      nor whitespace gives a text whose terminator is exactly that one. */
  lemma UnterminatedEnd(w: string, t: string)
    requires w != [] && !IsLineBreak(w[|w| - 1])
    requires t == [] || t == "\r\n" || (|t| == 1 && IsLineBreak(t[0]))
    ensures LineEnd(w) == []
    ensures LineEnd(w + t) == t
  {
    var wt := w + t;
    if t == "\r\n" {
      assert wt[|wt| - 2..] == t;
    } else if |t| == 1 {
      assert wt[|wt| - 1] == t[0];
      assert wt[|wt| - 2..] != "\r\n" by {
        assert wt[|wt| - 2..][0] == w[|w| - 1];
      }
    } else {
      assert wt == w;
    }
  }

  /** The forms `LineEnd` takes. */
  lemma LineEndForms(line: string)
    ensures var t := LineEnd(line); t == [] || t == "\r\n" || (|t| == 1 && IsLineBreak(t[0]))
  {
  }

  /** The preamble is a whole number of lines. */
  lemma PreambleEnds()
    ensures ResetPreamble != [] && ResetPreamble[|ResetPreamble| - 1] == '\n'
  {
  }

  /** Under the intended pass, a line that ends in a line break still does
      after it is transformed. */
  lemma IntendedEndsLine(line: string, resetVec: int)
    requires line != [] && IsLineBreak(line[|line| - 1])
    ensures var t := IntendedPreprocessLine(line, resetVec).text; t != [] && IsLineBreak(t[|t| - 1])
  {
    IntendedText(line, resetVec);
    LabelText(line, resetVec);
    RewriteText(line, resetVec);
    PreambleEnds();
    EndsLine(line, PreprocessLine(line, resetVec), IntendedPreprocessLine(line, resetVec).text,
      Skipped(line), IsLabel(line), ResetPreamble);
  }

  lemma IntendedText(line: string, resetVec: int)
    ensures var p := PreprocessLine(line, resetVec);
      IntendedPreprocessLine(line, resetVec).text
        == if !Skipped(line) && !IsLabel(line) && p.text != line then p.text + LineEnd(line) else p.text
  {
  }

  lemma LabelText(line: string, resetVec: int)
    ensures IsLabel(line) ==>
      var p := PreprocessLine(line, resetVec); p.text == line || p.text == line + "\n" + ResetPreamble
  {
    if IsLabel(line) {
      LabelRule(line, resetVec);
    }
  }

  lemma RewriteText(line: string, resetVec: int)
    ensures var p := PreprocessLine(line, resetVec);
      !Skipped(line) && !IsLabel(line) && p.text != line ==> LineEnd(p.text + LineEnd(line)) == LineEnd(line)
  {
    var p := PreprocessLine(line, resetVec);
    if !Skipped(line) && !IsLabel(line) && p.text != line {
      LineEndForms(line);
      IntendedKeepsTerminator(line, resetVec);
    }
  }

  /** The case analysis of `IntendedEndsLine` over a result `p` obeying the
      labelled and rewrite rules. */
  lemma EndsLine(line: string, p: Processed, t: string, skipped: bool, labelled: bool, pre: string)
    requires line != [] && IsLineBreak(line[|line| - 1])
    requires pre != [] && pre[|pre| - 1] == '\n'
    requires t == if !skipped && !labelled && p.text != line then p.text + LineEnd(line) else p.text
    requires skipped ==> p.text == line
    requires labelled ==> p.text == line || p.text == line + "\n" + pre
    requires !skipped && !labelled && p.text != line ==> LineEnd(p.text + LineEnd(line)) == LineEnd(line)
    ensures t != [] && IsLineBreak(t[|t| - 1])
  {
    if !skipped && !labelled && p.text != line {
      assert LineEnd(t) != [];
    } else if t != line {
      assert t == (line + "\n") + pre;
      assert t[|t| - 1] == pre[|pre| - 1];
    }
  }

  /** With terminators kept, no transformed line runs into the next one:
      every line of a bank but the last still ends in a line break. */
  lemma IntendedBankKeepsLines(asmText: string, resetVec: int)
    ensures var lines := SplitLines(asmText);
      forall k :: 0 <= k < |lines| - 1 ==>
        var t := IntendedPreprocessLine(lines[k], resetVec).text; t != [] && IsLineBreak(t[|t| - 1])
  {
    var lines := SplitLines(asmText);
    forall k | 0 <= k < |lines| - 1
      ensures var t := IntendedPreprocessLine(lines[k], resetVec).text; t != [] && IsLineBreak(t[|t| - 1])
    {
      IntendedEndsLine(lines[k], resetVec);
    }
  }

  // ---------------------------------------------------------------------------
  // The function list
  // ---------------------------------------------------------------------------

  /** One record of the function table read from the disassembler's output:
      each field may be missing. */
  datatype FuncInfo = FuncInfo(name: Option<string>, callers: Option<seq<string>>, callees: Option<seq<string>>)

  /** One function of the batch list, with its address parsed. */
  datatype FuncEntry = FuncEntry(addr: int, addrStr: string, name: string, callers: seq<string>, callees: seq<string>)

  /** The entry built for key `addrStr` whose hexadecimal value is `addr`:
      missing fields take their defaults. */
  function EntryOf(addrStr: string, info: FuncInfo, addr: int): (e: FuncEntry)
    ensures e.addr == addr && e.addrStr == addrStr
    ensures e.name == if info.name.Some? then info.name.value else "sub_" + addrStr
    ensures e.callers == (if info.callers.Some? then info.callers.value else [])
    ensures e.callees == (if info.callees.Some? then info.callees.value else [])
  {
    FuncEntry(addr, addrStr,
      if info.name.Some? then info.name.value else "sub_" + addrStr,
      if info.callers.Some? then info.callers.value else [],
      if info.callees.Some? then info.callees.value else [])
  }

  /** Every key of the table is a hexadecimal number. */
  predicate AllKeysParse(table: seq<(string, FuncInfo)>)
  {
    forall k :: 0 <= k < |table| ==> ParseHex(table[k].0).Some?
  }

  /** The hexadecimal values of the keys of a table whose keys all parse. */
  function KeyValues(table: seq<(string, FuncInfo)>): (addrs: seq<int>)
    requires AllKeysParse(table)
    ensures |addrs| == |table|
    ensures forall k :: 0 <= k < |table| ==> ParseHex(table[k].0) == Some(addrs[k])
  {
    seq(|table|, k requires 0 <= k < |table| && ParseHex(table[k].0).Some? => ParseHex(table[k].0).value)
  }

  /** The entries of a table, in table order, given the values of its keys. */
  function Entries(table: seq<(string, FuncInfo)>, addrs: seq<int>): (es: seq<FuncEntry>)
    requires |addrs| == |table|
    ensures |es| == |table|
    ensures forall k :: 0 <= k < |table| ==> es[k] == EntryOf(table[k].0, table[k].1, addrs[k])
  {
    if table == [] then []
    else
      var n := |table| - 1;
      Entries(table[..n], addrs[..n]) + [EntryOf(table[n].0, table[n].1, addrs[n])]
  }

  predicate SortedByAddr(es: seq<FuncEntry>)
  {
    forall i, j :: 0 <= i < j < |es| ==> es[i].addr <= es[j].addr
  }

  predicate AllAtMost(es: seq<FuncEntry>, bound: int)
  {
    forall i :: 0 <= i < |es| ==> es[i].addr <= bound
  }

  /** Places `x` after every entry whose address is not greater than its own. */
  function Insert(es: seq<FuncEntry>, x: FuncEntry): (r: seq<FuncEntry>)
    ensures multiset(r) == multiset(es) + multiset{x}
  {
    if es == [] then [x]
    else
      var n := |es| - 1;
      assert es == es[..n] + [es[n]];
      if es[n].addr <= x.addr then es + [x]
      else Insert(es[..n], x) + [es[n]]
  }

  lemma {:induction false} InsertBound(es: seq<FuncEntry>, x: FuncEntry, b: int)
    requires AllAtMost(es, b) && x.addr <= b
    ensures AllAtMost(Insert(es, x), b)
  {
    if es != [] && es[|es| - 1].addr > x.addr {
      InsertBound(es[..|es| - 1], x, b);
    }
  }

  lemma {:induction false} InsertSorted(es: seq<FuncEntry>, x: FuncEntry)
    requires SortedByAddr(es)
    ensures SortedByAddr(Insert(es, x))
  {
    if es != [] {
      var n := |es| - 1;
      if es[n].addr > x.addr {
        InsertSorted(es[..n], x);
        InsertBound(es[..n], x, es[n].addr);
      }
    }
  }

  /** `sorted(entries, key=addr)`: Python's sort is stable, as this insertion is. */
  function SortByAddr(es: seq<FuncEntry>): (r: seq<FuncEntry>)
    ensures SortedByAddr(r) && multiset(r) == multiset(es)
  {
    if es == [] then []
    else
      var n := |es| - 1;
      assert es == es[..n] + [es[n]];
      InsertSorted(SortByAddr(es[..n]), es[n]);
      Insert(SortByAddr(es[..n]), es[n])
  }

  /** The entries with address `a`, in order. */
  function WithAddr(es: seq<FuncEntry>, a: int): seq<FuncEntry>
  {
    if es == [] then []
    else WithAddr(es[..|es| - 1], a) + (if es[|es| - 1].addr == a then [es[|es| - 1]] else [])
  }

  lemma WithAddrSnoc(es: seq<FuncEntry>, y: FuncEntry, a: int)
    ensures WithAddr(es + [y], a) == WithAddr(es, a) + (if y.addr == a then [y] else [])
  {
    assert (es + [y])[..|es|] == es;
  }

  lemma {:induction false} InsertWithAddr(es: seq<FuncEntry>, x: FuncEntry, a: int)
    ensures WithAddr(Insert(es, x), a) == WithAddr(es, a) + (if x.addr == a then [x] else [])
  {
    if es != [] {
      var n := |es| - 1;
      if es[n].addr <= x.addr {
        WithAddrSnoc(es, x, a);
      } else {
        var init, last := es[..n], es[n];
        InsertWithAddr(init, x, a);
        WithAddrSnoc(Insert(init, x), last, a);
        assert WithAddr(es, a) == WithAddr(init, a) + (if last.addr == a then [last] else []);
        SwapEmpty(WithAddr(init, a), if x.addr == a then [x] else [], if last.addr == a then [last] else []);
      }
    }
  }

  lemma SwapEmpty<T>(p: seq<T>, u: seq<T>, v: seq<T>)
    requires u == [] || v == []
    ensures p + u + v == p + v + u
  {
  }

  /** The sort is stable: entries with equal addresses keep their table order. */
  lemma {:induction false} SortStable(es: seq<FuncEntry>, a: int)
    ensures WithAddr(SortByAddr(es), a) == WithAddr(es, a)
  {
    if es != [] {
      var n := |es| - 1;
      SortStable(es[..n], a);
      InsertWithAddr(SortByAddr(es[..n]), es[n], a);
    }
  }

  /** Key `k` is the first key of the table that is not a hexadecimal number. */
  predicate FirstBadKey(table: seq<(string, FuncInfo)>, k: int)
  {
    0 <= k < |table| && ParseHex(table[k].0) == None && AllKeysParse(table[..k])
  }

  /** `extract_functions`: one entry per table record, sorted by address;
      the first key that is not a hexadecimal number raises. */
  method ExtractFunctions(table: seq<(string, FuncInfo)>) returns (r: Result<seq<FuncEntry>, string>)
    ensures r.Ok? <==> AllKeysParse(table)
    ensures r.Ok? ==> AllKeysParse(table) && r.value == SortByAddr(Entries(table, KeyValues(table)))
    ensures r.Err? ==> exists k :: FirstBadKey(table, k) && table[k].0 == r.error
  {
    var funcs: seq<FuncEntry> := [];
    ghost var addrs: seq<int> := [];
    for i := 0 to |table|
      invariant |addrs| == i && KeysValued(table, addrs)
      invariant funcs == Entries(table[..i], addrs)
    {
      var (addrStr, info) := table[i];
      var addr := ParseHex(addrStr);
      if addr.None? {
        assert FirstBadKey(table, i);
        return Err(addrStr);
      }
      EntriesSnoc(table, addrs, i, addr.value);
      KeysValuedSnoc(table, addrs, addr.value);
      addrs := addrs + [addr.value];
      funcs := funcs + [EntryOf(addrStr, info, addr.value)];
    }
    assert table[..|table|] == table;
    KeyValuesOf(table, addrs);
    return Ok(SortByAddr(funcs));
  }

  /** `addrs` are the values of the first keys of the table. */
  predicate KeysValued(table: seq<(string, FuncInfo)>, addrs: seq<int>)
  {
    |addrs| <= |table| && forall k :: 0 <= k < |addrs| ==> ParseHex(table[k].0) == Some(addrs[k])
  }

  lemma KeysValuedSnoc(table: seq<(string, FuncInfo)>, addrs: seq<int>, v: int)
    requires KeysValued(table, addrs) && |addrs| < |table| && ParseHex(table[|addrs|].0) == Some(v)
    ensures KeysValued(table, addrs + [v])
  {
    var next := addrs + [v];
    SnocIndex(addrs, v);
    forall k | 0 <= k < |next|
      ensures ParseHex(table[k].0) == Some(next[k])
    {
      if k < |addrs| {
        assert next[k] == addrs[k];
      } else {
        assert k == |addrs| && next[k] == v;
      }
    }
  }

  /** The values of the keys are determined by the keys. */
  lemma KeyValuesOf(table: seq<(string, FuncInfo)>, addrs: seq<int>)
    requires |addrs| == |table| && KeysValued(table, addrs)
    ensures AllKeysParse(table) && addrs == KeyValues(table)
  {
  }

  lemma EntriesSnoc(table: seq<(string, FuncInfo)>, addrs: seq<int>, i: nat, v: int)
    requires i < |table| && |addrs| == i
    ensures Entries(table[..i + 1], addrs + [v]) == Entries(table[..i], addrs) + [EntryOf(table[i].0, table[i].1, v)]
  {
    assert table[..i + 1][..i] == table[..i];
    assert (addrs + [v])[..i] == addrs;
  }

  // ---------------------------------------------------------------------------
  // The model-assisted pass: scoring, stubs and selection
  // ---------------------------------------------------------------------------

  /** The annotation a translation uses to mark an uncertain instruction. */
  const ReviewMarker: string := "; REVIEW:"

  /** `round(max(0.0, 1.0 - n * 0.1), 2)`, in tenths: for every count the
      rounded value is a whole number of tenths. */
  function ConfidenceTenths(reviewCount: nat): (t: nat)
    ensures t <= 10
    ensures reviewCount <= 10 ==> t + reviewCount == 10
    ensures reviewCount >= 10 ==> t == 0
  {
    if reviewCount >= 10 then 0 else 10 - reviewCount
  }

  /** More review annotations never raise the confidence. */
  lemma ConfidenceAntitone(a: nat, b: nat)
    requires a <= b
    ensures ConfidenceTenths(b) <= ConfidenceTenths(a)
  {
  }

  /** The text that stands in for a function whose translation failed. */
  function FailureStub(name: string, error: string): (stub: string)
    ensures EndsWith(stub, name + "_65816:\n    BRK\n    RTL\n")
  {
    var tail := name + "_65816:\n    BRK\n    RTL\n";
    var head := "; LLM translation failed for " + name + ": " + error + "\n";
    EndsWithAppend(head, tail);
    assert head + tail == "; LLM translation failed for " + name + ": " + error + "\n" + name + "_65816:\n    BRK\n    RTL\n";
    head + tail
  }

  /** A function sent to the model: its table key and record, and whether it
      is an interrupt handler. */
  datatype Candidate = Candidate(addrStr: string, info: FuncInfo, isInterrupt: bool)

  /** One entry of the translation log. */
  datatype Translation = Translation(addr: string, name: string, translated: string, tenths: nat, reviewCount: nat)

  /** The fields the request is built from are present. */
  predicate Complete(info: FuncInfo)
  {
    info.name.Some? && info.callers.Some? && info.callees.Some?
  }

  /** The number of review annotations in a reply. */
  function ReviewCount(text: string): nat
  {
    Count(text, ReviewMarker)
  }

  /** The review count of the most recent successful reply among the first
      `k`: the value the log reads back from the stale local, if it was ever set. */
  function LastCount(reply: nat -> Result<string, string>, k: nat): Option<nat>
  {
    if k == 0 then None
    else if reply(k - 1).Ok? then Some(ReviewCount(reply(k - 1).value))
    else LastCount(reply, k - 1)
  }

  /** The log entry for one function, given the model's reply (an exception's
      text on failure) and the review count left over from earlier replies. */
  function TranslateOne(c: Candidate, reply: Result<string, string>, stale: Option<nat>): (t: Translation)
    requires Complete(c.info)
    ensures t.addr == c.addrStr && t.name == c.info.name.value
    ensures reply.Ok? ==>
      && t.translated == reply.value
      && t.tenths == ConfidenceTenths(ReviewCount(reply.value))
      && t.reviewCount == ReviewCount(reply.value)
    ensures reply.Err? ==>
      && t.translated == FailureStub(c.info.name.value, reply.error)
      && t.tenths == 0
      && t.reviewCount == (if stale.Some? then stale.value else 0)
  {
    var name := c.info.name.value;
    match reply
    case Ok(text) =>
      var n := ReviewCount(text);
      Translation(c.addrStr, name, text, ConfidenceTenths(n), n)
    case Err(e) =>
      Translation(c.addrStr, name, FailureStub(name, e), 0, if stale.Some? then stale.value else 0)
  }

  /** A result is below one half exactly when the call failed or the reply
      carries at least six review annotations. */
  lemma LowConfidenceIff(c: Candidate, reply: Result<string, string>, stale: Option<nat>)
    requires Complete(c.info)
    ensures TranslateOne(c, reply, stale).tenths < 5 <==> reply.Err? || ReviewCount(reply.value) >= 6
  {
  }

  /** The first `n` records of the batch are complete. */
  predicate CompleteUpTo(batch: seq<Candidate>, n: nat)
  {
    n <= |batch| && forall k :: 0 <= k < n ==> Complete(batch[k].info)
  }

  /** The log of the first `n` functions of the batch. */
  function Log(batch: seq<Candidate>, reply: nat -> Result<string, string>, n: nat): (log: seq<Translation>)
    requires CompleteUpTo(batch, n)
    ensures |log| == n
  {
    if n == 0 then []
    else Log(batch, reply, n - 1) + [TranslateOne(batch[n - 1], reply(n - 1), LastCount(reply, n - 1))]
  }

  /** Entry `k` of the log is the translation of function `k`. */
  lemma {:induction false} LogEntry(batch: seq<Candidate>, reply: nat -> Result<string, string>, n: nat, k: nat)
    requires CompleteUpTo(batch, n) && k < n
    ensures Log(batch, reply, n)[k] == TranslateOne(batch[k], reply(k), LastCount(reply, k))
  {
    if k < n - 1 {
      LogEntry(batch, reply, n - 1, k);
    }
  }

  /** `call_llm_translate` over a batch, with the model's replies given by
      `reply`; a record without its name, callers or callees raises before the
      call is tried. */
  method CallLlmTranslate(batch: seq<Candidate>, reply: nat -> Result<string, string>)
    returns (r: Result<seq<Translation>, string>)
    ensures r.Ok? <==> CompleteUpTo(batch, |batch|)
    ensures r.Ok? ==> CompleteUpTo(batch, |batch|) && r.value == Log(batch, reply, |batch|)
    ensures r.Err? ==> r.error == "KeyError"
  {
    var results: seq<Translation> := [];
    var stale: Option<nat> := None;
    for i := 0 to |batch|
      invariant CompleteUpTo(batch, i)
      invariant stale == LastCount(reply, i)
      invariant results == Log(batch, reply, i)
    {
      var c := batch[i];
      if !Complete(c.info) {
        return Err("KeyError");
      }
      var t := TranslateOne(c, reply(i), stale);
      if reply(i).Ok? {
        stale := Some(ReviewCount(reply(i).value));
      }
      results := results + [t];
    }
    return Ok(results);
  }

  /** Whether the function at `addr` goes to the model. */
  predicate Picked(addr: int, nmiVec: int, irqVec: int, anyFlagged: bool)
  {
    addr == nmiVec || addr == irqVec || anyFlagged
  }

  /** The functions sent to the model, in table order, given the values of the keys. */
  function Selected(table: seq<(string, FuncInfo)>, addrs: seq<int>, nmiVec: int, irqVec: int, anyFlagged: bool)
    : (cs: seq<Candidate>)
    requires |addrs| == |table|
    ensures anyFlagged ==> |cs| == |table|
  {
    if table == [] then []
    else
      var n := |table| - 1;
      var init := Selected(table[..n], addrs[..n], nmiVec, irqVec, anyFlagged);
      var interrupt := addrs[n] == nmiVec || addrs[n] == irqVec;
      init + (if Picked(addrs[n], nmiVec, irqVec, anyFlagged) then [Candidate(table[n].0, table[n].1, interrupt)] else [])
  }

  /** The candidate for table record k. */
  function CandidateAt(table: seq<(string, FuncInfo)>, addrs: seq<int>, nmiVec: int, irqVec: int, k: nat): Candidate
    requires k < |table| && |addrs| == |table|
  {
    Candidate(table[k].0, table[k].1, addrs[k] == nmiVec || addrs[k] == irqVec)
  }

  /** Exactly the picked records are selected. */
  lemma {:induction false} SelectedMembers(table: seq<(string, FuncInfo)>, addrs: seq<int>, nmiVec: int, irqVec: int, anyFlagged: bool)
    requires |addrs| == |table|
    ensures forall c :: c in Selected(table, addrs, nmiVec, irqVec, anyFlagged) <==>
      exists k :: 0 <= k < |table| && Picked(addrs[k], nmiVec, irqVec, anyFlagged)
        && c == CandidateAt(table, addrs, nmiVec, irqVec, k)
    decreases |table|
  {
    if table != [] {
      var n := |table| - 1;
      var t, a := table[..n], addrs[..n];
      SelectedMembers(t, a, nmiVec, irqVec, anyFlagged);
      forall k | 0 <= k < n
        ensures CandidateAt(t, a, nmiVec, irqVec, k) == CandidateAt(table, addrs, nmiVec, irqVec, k)
        ensures a[k] == addrs[k]
      {
      }
    }
  }

  /** When no line of the bank is flagged, only the interrupt handlers are sent. */
  lemma OnlyHandlersUnflagged(table: seq<(string, FuncInfo)>, addrs: seq<int>, nmiVec: int, irqVec: int)
    requires |addrs| == |table|
    ensures forall c :: c in Selected(table, addrs, nmiVec, irqVec, false) ==> c.isInterrupt
  {
    SelectedMembers(table, addrs, nmiVec, irqVec, false);
    forall c | c in Selected(table, addrs, nmiVec, irqVec, false)
      ensures c.isInterrupt
    {
      var k :| 0 <= k < |table| && Picked(addrs[k], nmiVec, irqVec, false)
        && c == CandidateAt(table, addrs, nmiVec, irqVec, k);
    }
  }

  /** The selection loop of `translate_banks`: every key is parsed, and a
      key that is not a hexadecimal number raises. */
  method SelectFunctions(table: seq<(string, FuncInfo)>, nmiVec: int, irqVec: int, anyFlagged: bool)
    returns (r: Result<seq<Candidate>, string>)
    ensures r.Ok? <==> AllKeysParse(table)
    ensures r.Ok? ==> AllKeysParse(table) && r.value == Selected(table, KeyValues(table), nmiVec, irqVec, anyFlagged)
    ensures r.Err? ==> r.error == "ValueError"
  {
    var picked: seq<Candidate> := [];
    ghost var addrs: seq<int> := [];
    for i := 0 to |table|
      invariant |addrs| == i && KeysValued(table, addrs)
      invariant picked == Selected(table[..i], addrs, nmiVec, irqVec, anyFlagged)
    {
      var (addrStr, info) := table[i];
      var addr := ParseHex(addrStr);
      if addr.None? {
        return Err("ValueError");
      }
      var interrupt := addr.value == nmiVec || addr.value == irqVec;
      SelectedSnoc(table, addrs, i, addr.value, nmiVec, irqVec, anyFlagged);
      KeysValuedSnoc(table, addrs, addr.value);
      addrs := addrs + [addr.value];
      if interrupt || anyFlagged {
        picked := picked + [Candidate(addrStr, info, interrupt)];
      }
    }
    assert table[..|table|] == table;
    KeyValuesOf(table, addrs);
    return Ok(picked);
  }

  lemma SelectedSnoc(table: seq<(string, FuncInfo)>, addrs: seq<int>, i: nat, v: int,
                     nmiVec: int, irqVec: int, anyFlagged: bool)
    requires i < |table| && |addrs| == i
    ensures Selected(table[..i + 1], addrs + [v], nmiVec, irqVec, anyFlagged) ==
      Selected(table[..i], addrs, nmiVec, irqVec, anyFlagged) +
      (if Picked(v, nmiVec, irqVec, anyFlagged) then [Candidate(table[i].0, table[i].1, v == nmiVec || v == irqVec)] else [])
  {
    assert table[..i + 1][..i] == table[..i];
    assert (addrs + [v])[..i] == addrs;
  }

  // ---------------------------------------------------------------------------
  // The bank output
  // ---------------------------------------------------------------------------

  /** How a rounded confidence prints: `0.0`, `0.1`, ..., `1.0`, the units
      digit, a point and the tenths digit. */
  function ConfidenceText(tenths: nat): (s: string)
    requires tenths <= 10
    ensures |s| == 3 && s[1] == '.'
    ensures s[0] == DecChar(tenths / 10) && s[2] == DecChar(tenths % 10)
  {
    if tenths == 10 then "1.0" else "0." + [DecChar(tenths)]
  }

  const LlmHeader: string := "\n; ---- LLM-translated functions ----\n"

  function LowConfidenceWarning(tenths: nat): string
    requires tenths <= 10
  {
    "; WARNING: low confidence (" + ConfidenceText(tenths) + ") \U{2014} manual review needed\n"
  }

  /** The text appended for one translation: a warning follows it exactly
      when its confidence is below one half. */
  function ResultSection(t: Translation): (s: string)
    requires t.tenths <= 10
    ensures StartsWith(s, "\n" + t.translated + "\n")
    ensures t.tenths < 5 <==> |s| > |t.translated| + 2
  {
    var body := "\n" + t.translated + "\n";
    var tail := if t.tenths < 5 then LowConfidenceWarning(t.tenths) else "";
    assert (body + tail)[..|body|] == body;
    body + tail
  }

  /** Every confidence in a log is a number of tenths. */
  predicate Scored(log: seq<Translation>)
  {
    forall k :: 0 <= k < |log| ==> log[k].tenths <= 10
  }

  /** The section appended to a bank for a log of translations. */
  function SectionText(log: seq<Translation>): (s: string)
    requires Scored(log)
  {
    if log == [] then LlmHeader
    else SectionText(log[..|log| - 1]) + ResultSection(log[|log| - 1])
  }

  /** The section starts with its header. */
  lemma {:induction false} SectionHeader(log: seq<Translation>)
    requires Scored(log)
    ensures StartsWith(SectionText(log), LlmHeader)
  {
    if log != [] {
      SectionHeader(log[..|log| - 1]);
      var init := SectionText(log[..|log| - 1]);
      assert (init + ResultSection(log[|log| - 1]))[..|LlmHeader|] == init[..|LlmHeader|];
    }
  }

  /** Every log entry carries a score in tenths. */
  lemma LogScored(batch: seq<Candidate>, reply: nat -> Result<string, string>, n: nat)
    requires CompleteUpTo(batch, n)
    ensures Scored(Log(batch, reply, n))
  {
    forall k | 0 <= k < n
      ensures Log(batch, reply, n)[k].tenths <= 10
    {
      LogEntry(batch, reply, n, k);
    }
  }

  /** The section is built by appending one result at a time. */
  method BuildLlmSection(log: seq<Translation>) returns (section: string)
    requires Scored(log)
    ensures section == SectionText(log)
  {
    section := LlmHeader;
    for i := 0 to |log|
      invariant section == SectionText(log[..i])
    {
      assert log[..i + 1][..i] == log[..i];
      section := section + ResultSection(log[i]);
    }
    assert log[..|log|] == log;
  }

  /** The joined output of pass 1 on a bank. */
  function PassText(asmText: string, resetVec: int): string
  {
    Concat(Texts(Results(SplitLines(asmText), resetVec)))
  }

  /** Some line of the bank is flagged. */
  predicate AnyFlagged(asmText: string, resetVec: int)
  {
    FlaggedIndices(Results(SplitLines(asmText), resetVec)) != []
  }

  /** What translating `batch` adds to a bank whose pass-1 text is `pass`:
      the text with the translations appended and their log entries, or the
      exception that ends the run. */
  function BatchOutput(pass: string, batch: seq<Candidate>, reply: nat -> Result<string, string>)
    : Result<(string, seq<Translation>), string>
  {
    if batch == [] then Ok((pass, []))
    else if !CompleteUpTo(batch, |batch|) then Err("KeyError")
    else
      var log := Log(batch, reply, |batch|);
      LogScored(batch, reply, |batch|);
      Ok((pass + SectionText(log), log))
  }

  /** What the model-assisted pass makes of a bank whose pass-1 text is `pass`. */
  function LlmOutput(pass: string, anyFlagged: bool, nmiVec: int, irqVec: int, useLlm: bool,
                     table: seq<(string, FuncInfo)>, reply: nat -> Result<string, string>)
    : Result<(string, seq<Translation>), string>
  {
    if !useLlm || table == [] then Ok((pass, []))
    else if !AllKeysParse(table) then Err("ValueError")
    else BatchOutput(pass, Selected(table, KeyValues(table), nmiVec, irqVec, anyFlagged), reply)
  }

  /** What one bank produces. */
  function BankOutput(asmText: string, resetVec: int, nmiVec: int, irqVec: int, useLlm: bool,
                      table: seq<(string, FuncInfo)>, reply: nat -> Result<string, string>)
    : Result<(string, seq<Translation>), string>
  {
    LlmOutput(PassText(asmText, resetVec), AnyFlagged(asmText, resetVec), nmiVec, irqVec, useLlm, table, reply)
  }

  /** The pass-1 text always opens the bank's output, without the model it is
      the whole output, and translations come after the section header. */
  lemma LlmOutputShape(pass: string, anyFlagged: bool, nmiVec: int, irqVec: int, useLlm: bool,
                       table: seq<(string, FuncInfo)>, reply: nat -> Result<string, string>)
    ensures var r := LlmOutput(pass, anyFlagged, nmiVec, irqVec, useLlm, table, reply);
      && (r.Ok? ==> StartsWith(r.value.0, pass))
      && (!useLlm || table == [] ==> r == Ok((pass, [])))
      && (r.Ok? && r.value.1 != [] ==> StartsWith(r.value.0, pass + LlmHeader))
  {
    var r := LlmOutput(pass, anyFlagged, nmiVec, irqVec, useLlm, table, reply);
    if r.Ok? && r.value.1 != [] {
      var batch := Selected(table, KeyValues(table), nmiVec, irqVec, anyFlagged);
      var log := Log(batch, reply, |batch|);
      LogScored(batch, reply, |batch|);
      SectionHeader(log);
      PrefixAppend(pass, SectionText(log), LlmHeader);
    } else if r.Ok? {
      assert r.value.0 == pass;
    }
  }

  lemma PrefixAppend(a: string, b: string, p: string)
    requires StartsWith(b, p)
    ensures StartsWith(a + b, a) && StartsWith(a + b, a + p)
  {
    assert (a + b)[..|a|] == a;
    assert (a + b)[..|a + p|] == a + p;
  }

  /** When every record is complete, each selected function gets one log
      entry, in table order. */
  lemma LogsSelection(pass: string, anyFlagged: bool, nmiVec: int, irqVec: int,
                      table: seq<(string, FuncInfo)>, reply: nat -> Result<string, string>)
    requires table != [] && AllKeysParse(table)
    requires forall k :: 0 <= k < |table| ==> Complete(table[k].1)
    ensures var r := LlmOutput(pass, anyFlagged, nmiVec, irqVec, true, table, reply);
      var batch := Selected(table, KeyValues(table), nmiVec, irqVec, anyFlagged);
      && r.Ok? && |r.value.1| == |batch|
      && forall k :: 0 <= k < |batch| ==> r.value.1[k].addr == batch[k].addrStr
  {
    var addrs := KeyValues(table);
    var batch := Selected(table, addrs, nmiVec, irqVec, anyFlagged);
    SelectedMembers(table, addrs, nmiVec, irqVec, anyFlagged);
    forall k | 0 <= k < |batch|
      ensures Complete(batch[k].info)
    {
      assert batch[k] in batch;
      var j :| 0 <= j < |table| && Picked(addrs[j], nmiVec, irqVec, anyFlagged)
        && batch[k] == CandidateAt(table, addrs, nmiVec, irqVec, j);
    }
    if batch != [] {
      forall k | 0 <= k < |batch|
        ensures Log(batch, reply, |batch|)[k].addr == batch[k].addrStr
      {
        LogEntry(batch, reply, |batch|, k);
      }
    }
  }

  /** The model-assisted pass of `translate_banks` on one bank. */
  method LlmPass(pass: string, anyFlagged: bool, nmiVec: int, irqVec: int, useLlm: bool,
                 table: seq<(string, FuncInfo)>, reply: nat -> Result<string, string>)
    returns (r: Result<(string, seq<Translation>), string>)
    ensures r == LlmOutput(pass, anyFlagged, nmiVec, irqVec, useLlm, table, reply)
  {
    if !useLlm || table == [] {
      return Ok((pass, []));
    }
    var selection := SelectFunctions(table, nmiVec, irqVec, anyFlagged);
    if selection.Err? {
      return Err(selection.error);
    }
    r := TranslateBatch(pass, selection.value, reply);
  }

  /** Translating the selected functions and appending the section. */
  method TranslateBatch(pass: string, batch: seq<Candidate>, reply: nat -> Result<string, string>)
    returns (r: Result<(string, seq<Translation>), string>)
    ensures r == BatchOutput(pass, batch, reply)
  {
    if batch == [] {
      return Ok((pass, []));
    }
    var results := CallLlmTranslate(batch, reply);
    if results.Err? {
      return Err(results.error);
    }
    LogScored(batch, reply, |batch|);
    var section := BuildLlmSection(results.value);
    return Ok((pass + section, results.value));
  }

  /** Pass 1 on a bank and then, when the model is in use and there is a
      function table, the model-assisted pass over the selected functions. */
  method TranslateBank(asmText: string, resetVec: int, nmiVec: int, irqVec: int, useLlm: bool,
                       table: seq<(string, FuncInfo)>, reply: nat -> Result<string, string>)
    returns (r: Result<(string, seq<Translation>), string>)
    ensures r == BankOutput(asmText, resetVec, nmiVec, irqVec, useLlm, table, reply)
  {
    var transformed, flagged := PreprocessBank(asmText, resetVec);
    r := LlmPass(transformed, flagged != [], nmiVec, irqVec, useLlm, table, reply);
  }

  // ---------------------------------------------------------------------------
  // All banks
  // ---------------------------------------------------------------------------

  /** The interrupt vectors as the manifest records them. */
  datatype VectorTexts = VectorTexts(nmi: string, reset: string, irq: string)

  /** What a run over the banks leaves behind: the output of every bank
      finished, the log entries gathered, and the exception that stopped the
      run, if any (the log file is written only when there is none). */
  datatype Run = Run(written: seq<string>, log: seq<Translation>, failure: Option<string>)

  /** The model's replies for the calls made while translating bank `b`. */
  function BankReply(reply: (nat, nat) -> Result<string, string>, b: nat): nat -> Result<string, string>
  {
    (k: nat) => reply(b, k)
  }

  /** The outcome of one bank: its output text and log entries, or an exception. */
  type BankResult = Result<(string, seq<Translation>), string>

  /** Bank b translated with the replies of its own calls. */
  function BankStep(resetVec: int, nmiVec: int, irqVec: int, useLlm: bool,
                    table: seq<(string, FuncInfo)>, reply: (nat, nat) -> Result<string, string>): (nat, string) -> BankResult
  {
    (b: nat, asmText: string) => BankOutput(asmText, resetVec, nmiVec, irqVec, useLlm, table, BankReply(reply, b))
  }

  /** The outcome of every bank, each translated on its own. */
  function BankOutputs(banks: seq<string>, resetVec: int, nmiVec: int, irqVec: int, useLlm: bool,
                       table: seq<(string, FuncInfo)>, reply: (nat, nat) -> Result<string, string>): (outs: seq<BankResult>)
    ensures |outs| == |banks|
  {
    MapIndexed(banks, BankStep(resetVec, nmiVec, irqVec, useLlm, table, reply))
  }

  /** Outcome b is bank b translated with the replies of its own calls. */
  lemma BankOutputsAt(banks: seq<string>, resetVec: int, nmiVec: int, irqVec: int, useLlm: bool,
                      table: seq<(string, FuncInfo)>, reply: (nat, nat) -> Result<string, string>, b: nat)
    requires b < |banks|
    ensures BankOutputs(banks, resetVec, nmiVec, irqVec, useLlm, table, reply)[b] ==
      BankOutput(banks[b], resetVec, nmiVec, irqVec, useLlm, table, BankReply(reply, b))
  {
    MapIndexedAt(banks, BankStep(resetVec, nmiVec, irqVec, useLlm, table, reply), b);
  }

  /** The run over the first `n` banks: banks are processed in order and the
      first exception ends the run. */
  function RunOf(outs: seq<BankResult>, n: nat): (run: Run)
    requires n <= |outs|
    ensures |run.written| <= n
    ensures run.failure.None? ==> |run.written| == n
  {
    if n == 0 then Run([], [], None)
    else
      var prev := RunOf(outs, n - 1);
      if prev.failure.Some? then prev
      else match outs[n - 1]
        case Err(e) => Run(prev.written, prev.log, Some(e))
        case Ok(out) => Run(prev.written + [out.0], prev.log + out.1, None)
  }

  /** Once a bank has failed, no later bank is processed. */
  lemma {:induction false} FailureSticks(outs: seq<BankResult>, i: nat, j: nat)
    requires i <= j <= |outs| && RunOf(outs, i).failure.Some?
    ensures RunOf(outs, j) == RunOf(outs, i)
    decreases j
  {
    if j > i {
      FailureSticks(outs, i, j - 1);
    }
  }

  /** Every output written is its bank's output, in bank order, and a run
      without failure has passed every bank. */
  lemma {:induction false} WrittenOutputs(outs: seq<BankResult>, n: nat, b: nat)
    requires n <= |outs| && b < |RunOf(outs, n).written|
    ensures outs[b].Ok? && RunOf(outs, n).written[b] == outs[b].value.0
  {
    var prev := RunOf(outs, n - 1);
    if b < |prev.written| {
      WrittenOutputs(outs, n - 1, b);
    }
  }

  /** A run fails exactly when some bank fails, and then with the first failure. */
  lemma {:induction false} RunFailure(outs: seq<BankResult>, n: nat)
    requires n <= |outs|
    ensures RunOf(outs, n).failure.None? <==> forall b :: 0 <= b < n ==> outs[b].Ok?
    ensures RunOf(outs, n).failure.Some? ==>
      exists b :: (0 <= b < n && outs[b].Err?
        && RunOf(outs, n).failure == Some(outs[b].error) && |RunOf(outs, n).written| == b)
  {
    if n > 0 {
      RunFailure(outs, n - 1);
    }
  }

  /** A run in which every bank succeeds without log entries writes every
      bank's text and an empty log. */
  lemma {:induction false} QuietRun(outs: seq<BankResult>, n: nat)
    requires n <= |outs| && forall b :: 0 <= b < n ==> outs[b].Ok? && outs[b].value.1 == []
    ensures var run := RunOf(outs, n);
      && run.failure.None? && run.log == [] && |run.written| == n
      && forall b :: 0 <= b < n ==> run.written[b] == outs[b].value.0
  {
    if n > 0 {
      QuietRun(outs, n - 1);
    }
  }

  /** Without the model every bank is written as its pass-1 text and the
      log stays empty. */
  lemma PlainRun(banks: seq<string>, resetVec: int, nmiVec: int, irqVec: int,
                 table: seq<(string, FuncInfo)>, reply: (nat, nat) -> Result<string, string>)
    ensures var run := RunOf(BankOutputs(banks, resetVec, nmiVec, irqVec, false, table, reply), |banks|);
      && run.failure.None? && run.log == [] && |run.written| == |banks|
      && forall b :: 0 <= b < |banks| ==> run.written[b] == PassText(banks[b], resetVec)
  {
    var outs := BankOutputs(banks, resetVec, nmiVec, irqVec, false, table, reply);
    forall b | 0 <= b < |banks|
      ensures outs[b] == Ok((PassText(banks[b], resetVec), []))
    {
      BankOutputsAt(banks, resetVec, nmiVec, irqVec, false, table, reply, b);
      PlainBank(banks[b], resetVec, nmiVec, irqVec, table, BankReply(reply, b));
    }
    QuietRun(outs, |banks|);
  }

  lemma PlainBank(asmText: string, resetVec: int, nmiVec: int, irqVec: int,
                  table: seq<(string, FuncInfo)>, reply: nat -> Result<string, string>)
    ensures BankOutput(asmText, resetVec, nmiVec, irqVec, false, table, reply) == Ok((PassText(asmText, resetVec), []))
  {
  }

  /** One more bank in a run that has not failed. */
  lemma RunStep(outs: seq<BankResult>, i: nat)
    requires i < |outs| && RunOf(outs, i).failure.None?
    ensures var prev := RunOf(outs, i);
      RunOf(outs, i + 1) == match outs[i]
        case Err(e) => Run(prev.written, prev.log, Some(e))
        case Ok(out) => Run(prev.written + [out.0], prev.log + out.1, None)
  {
  }

  /** `translate_banks`: the manifest's vectors are parsed first (RESET, NMI,
      IRQ), then every bank listing is translated in order; the model is used
      only when asked for and available. */
  method TranslateBanks(banks: seq<string>, vectors: VectorTexts, useLlm: bool, llmReady: bool,
                        table: seq<(string, FuncInfo)>, reply: (nat, nat) -> Result<string, string>)
    returns (run: Run)
    ensures ParseHex(vectors.reset).None? || ParseHex(vectors.nmi).None? || ParseHex(vectors.irq).None? ==>
      run == Run([], [], Some("ValueError"))
    ensures ParseHex(vectors.reset).Some? && ParseHex(vectors.nmi).Some? && ParseHex(vectors.irq).Some? ==>
      run == RunOf(BankOutputs(banks, ParseHex(vectors.reset).value, ParseHex(vectors.nmi).value,
                               ParseHex(vectors.irq).value, useLlm && llmReady, table, reply), |banks|)
  {
    var resetVec := ParseHex(vectors.reset);
    var nmiVec := ParseHex(vectors.nmi);
    var irqVec := ParseHex(vectors.irq);
    if resetVec.None? || nmiVec.None? || irqVec.None? {
      return Run([], [], Some("ValueError"));
    }
    run := RunBanks(banks, resetVec.value, nmiVec.value, irqVec.value, useLlm && llmReady, table, reply);
  }

  /** The loop over the bank listings. */
  method RunBanks(banks: seq<string>, resetVec: int, nmiVec: int, irqVec: int, useLlm: bool,
                  table: seq<(string, FuncInfo)>, reply: (nat, nat) -> Result<string, string>)
    returns (run: Run)
    ensures run == RunOf(BankOutputs(banks, resetVec, nmiVec, irqVec, useLlm, table, reply), |banks|)
  {
    ghost var outs := BankOutputs(banks, resetVec, nmiVec, irqVec, useLlm, table, reply);
    var written: seq<string> := [];
    var log: seq<Translation> := [];
    for i := 0 to |banks|
      invariant Run(written, log, None) == RunOf(outs, i)
    {
      var out := TranslateBankAt(banks, i, resetVec, nmiVec, irqVec, useLlm, table, reply);
      RunStep(outs, i);
      if out.Err? {
        run := Run(written, log, Some(out.error));
        FailureSticks(outs, i + 1, |banks|);
        return;
      }
      written := written + [out.value.0];
      log := log + out.value.1;
    }
    run := Run(written, log, None);
  }

  /** Bank i of the run. */
  method TranslateBankAt(banks: seq<string>, i: nat, resetVec: int, nmiVec: int, irqVec: int, useLlm: bool,
                         table: seq<(string, FuncInfo)>, reply: (nat, nat) -> Result<string, string>)
    returns (out: BankResult)
    requires i < |banks|
    ensures out == BankOutputs(banks, resetVec, nmiVec, irqVec, useLlm, table, reply)[i]
  {
    out := TranslateBank(banks[i], resetVec, nmiVec, irqVec, useLlm, table, BankReply(reply, i));
    BankOutputsAt(banks, resetVec, nmiVec, irqVec, useLlm, table, reply, i);
  }
}
