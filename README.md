# NES → SNES port pipeline: a verified model of its core

rompipe ports an NES ROM to the SNES in eight stages, and this project models the integer and string core of those stages in Dafny:

- **parse_rom**: the iNES / NES 2.0 header decoder, the interrupt-vector words and how the file is cut into trainer, PRG and CHR segments (`ParseRom`).
- **disassemble**: the fallback recursive-descent 6502 disassembler (`Disassembler`). It has a fixed opcode table, operand formatting and register-access detection. A LIFO worklist traverses the code over `[0x8000, 0x8000 + |PRG|)`. The result is split into 16 KiB bank listings.
- **translate_cpu**: the deterministic pass-1 line rewriter and the bank loop around it (`TranslateCpu`). This stage also covers the function-list extraction, the selection of functions for the language model, and the confidence score and failure stub of each translation. Each bank comes out as text, and the run writes a translation log.
- **translate_mapper**: the LoROM bank layout and the choice of mapper stub (`TranslateMapper`).
- **convert_graphics**: the 2bpp → 4bpp tile codec, the RGB → 15-bit BGR packing, CGRAM, the tile map and the 2bpp pixel-index rule (`ConvertGraphics`).
- **main**: the stage loop with its skip and fatal-abort rules, the fidelity estimate and the warnings of the build report (`Pipeline`).

Python's string and integer builtins that the stages rely on live in `PyText` and `Common`:
- `strip`, `split(None, n)`, `splitlines(keepends=True)`, `upper`/`lower`, `count`;
- `int(s, 16)`;
- the `X`, `d` and `<` format specifiers;
- clamped slicing.

Bit arithmetic lemmas live in `Bits`.

State the source keeps in local variables is modelled as values that methods thread through their loops. The disassembler's worklist, `seen_addrs`, instruction table, function records and access list form the `Walk` record. The stage results are a `seq`. No source entity is an object updated in place.

Each loop of the source is a Dafny method proved against a specification function. Examples:
- `Disassemble`: the inner `while True` is `FollowRun`.
- `PreprocessBank`, `ExtractFunctions`, `CallLlmTranslate`, `SelectFunctions`, `TranslateBanks`.
- `NesTileToSnes4bpp`, `ConvertChr`, `BuildBankLayout`, `RunStages`.

The properties the source promises are then lemmas about those functions:
- round trips: header, vectors, tiles, CHR, `splitlines`, address text;
- closure and minimality of the disassembler's visited set;
- the pass-1 rewrite rules;
- the fidelity priority.

Oracles stand in for what the model cannot see, as parameters:
- `run: nat -> StageRun` is the exit status and time of each stage's script once its arguments parse; main's argument lists and the scripts' parsers are modelled (`Launch`);
- `reply: nat -> Result<string, string>` is the language model's answer, or the exception's text;
- `initial` is the order in which `list(entry_addrs)` enumerates a Python set;
- existence of files is an `Option` or a `bool`.

translate_cpu.py does not rewrite conditional branches: pass 1 keeps them as they are (`RewriteRule`), and the code has no skip labels and no label counter.

## Model

| member | source | states |
|---|---|---|
| `Disassembler.Opcode` | disassemble.py:127-168 | Every listed opcode's length is the one its addressing mode implies. The mnemonic is a branch exactly when the mode is relative. JSR is absolute and JMP is absolute or indirect. |
| `Disassembler.ModeLength` | disassemble.py:127-166 | Every instruction is 1 to 3 bytes long. |
| `Disassembler.MnemonicText` | disassemble.py:127-166 | Every mnemonic is three upper-case letters. |
| `Disassembler.OperandByte` | disassemble.py:232-233 | An operand byte is the image byte when the instruction has it and it lies inside the image, and 0 otherwise. |
| `Disassembler.DecodeAt` | disassemble.py:225-233 | Decoding succeeds only inside the image, and gives a table entry with the table's invariants. |
| `Disassembler.DecodeAtTable` | disassemble.py:226-233 | Decoding fails exactly outside the image or on an unlisted opcode byte. Otherwise it is the table entry with operands read through the clamped reader, so nothing is read out of bounds. |
| `Disassembler.WordBytes` | disassemble.py:188 | `(hi << 8) \| lo` is a 16-bit word that splits back into `lo` and `hi`. |
| `Disassembler.AbsAddr` | disassemble.py:187-191 | There is an address exactly for abs/abx/aby, and it is the little-endian word. |
| `Disassembler.BranchOffset` | disassemble.py:265 | The traversal displacement lies in -128..127 and is the operand byte modulo 256. |
| `Disassembler.Hex2` | disassemble.py:172 | A byte prints as exactly two upper-case hex digits. |
| `Disassembler.WordText` | disassemble.py:176 | `hi` then `lo` print as the four hex digits of the word. |
| `Disassembler.FmtOperand` | disassemble.py:170-185 | The operand text for each of the 13 modes, including the `pc + 2 + offset` display of relative operands. |
| `Disassembler.RelDisplayOffset` | disassemble.py:183 | Displayed and followed branch offsets agree for forward branches. For backward ones the display is 342 lower, because it subtracts 0x256 where the traversal subtracts 256. |
| `Disassembler.RelListedTarget` | disassemble.py:182-184 | For every decoded branch, the listed operand names the followed address for a forward branch and an address 342 lower for a backward one. |
| `Disassembler.IntendedFmtOperand` | disassemble.py:182-184 | The corrected relative operand is `$` and the hex digits of `pc + 2 + offset`, with the traversal's signed offset. Every other mode prints as before. |
| `Disassembler.IntendedRelTarget` | disassemble.py:264-266 | The corrected operand of every decoded branch names exactly the address the traversal follows. |
| `Disassembler.RelBranchFollowed` | disassemble.py:264-266 | `BNE` with displacement 0xFE at $8000 is followed back to $8000. |
| `Disassembler.RelBranchListed` | disassemble.py:182-184 | The same branch is listed as `$7EAA`. |
| `Disassembler.HwRegsUnion` | disassemble.py:18-31 | The PPU and APU tables are disjoint, and the union keeps every name of both. |
| `Disassembler.InsnAt` | disassemble.py:231-235 | An instruction is recorded exactly when the address decodes, with its mnemonic and a length of 1 to 3. |
| `Disassembler.AccessAt` | disassemble.py:237-248 | There is an access exactly when the mode is abs/abx/aby and the word is a hardware register. It is a write iff the mnemonic is STA/STX/STY, and PPU iff the register is in the PPU table. |
| `Disassembler.NonZero` | disassemble.py:253 | A call or jump target is kept exactly when it is non-zero. |
| `Disassembler.FlowAtDispatch` | disassemble.py:250-270 | JSR queues its non-zero target and falls through. JMP abs queues its non-zero target and ends the run. JMP ind queues nothing. A branch queues `a + 2 + offset` and falls through. RTS/RTI/BRK end the run, and every other instruction falls through to `a + length`. |
| `Disassembler.CallTarget` | disassemble.py:251-253 | Only a decoded JSR has a call target. |
| `Disassembler.CollectEntries` | disassemble.py:197-202 | The entry set is the set of vector texts that parse as hex. Texts that do not parse are skipped. |
| `Disassembler.EntryAddrsHas` | disassemble.py:198-200 | Every vector text that parses contributes its value. |
| `Disassembler.EntryAddrsFrom` | disassemble.py:198-202 | Every entry address is the value of some vector text. |
| `Disassembler.VectorNames` | disassemble.py:217 | The address-to-name table exists exactly when every vector text parses, its keys are the entry set, and a later vector wins. |
| `Disassembler.VecLabel` | disassemble.py:216-218 | Names other than NMI/RESET/IRQ pass through unchanged. |
| `Disassembler.EntryRecord` | disassemble.py:215-219 | A vector entry's record starts at the address and has no callers or callees. |
| `Disassembler.EnterFunctions` | disassemble.py:215-219 | Popping a fresh entry address writes that address's vector record. This is always done, because the `not in functions` test compares an int with string keys. It fails exactly when some vector text is not hex. Any other address leaves the records unchanged. |
| `Disassembler.SubRecord` | disassemble.py:254-257 | Every JSR overwrites its target's record with `sub_XXXX` and the single caller. The membership test compares an int with string keys, so it is always true. |
| `Disassembler.IntendedCallRecords` | disassemble.py:253-257 | The corrected update adds a record only for a target that has none. It keeps every record already written and adds exactly the target's key. |
| `Disassembler.JsrRenamesHandler` | disassemble.py:253-257 | A JSR into a vector handler renames its record `sub_XXXX` as written. The corrected update keeps the handler's name. |
| `Disassembler.Decode` | disassemble.py:225-233 | The inner loop's opcode and operand reads equal `DecodeAt`. |
| `Disassembler.NoteAccess` | disassemble.py:237-248 | The access list grows by the access the instruction makes, if any. |
| `Disassembler.Dispatch` | disassemble.py:250-270 | The queue grows by the flow target and the JSR record is written. The run stops exactly when there is no fall-through, and otherwise continues at `addr + length`. |
| `Disassembler.Visit` | disassemble.py:222-270 | One inner-loop step: the address is marked visited, the instruction and access are recorded, and the run continues at a strictly higher address or stops exactly when the flow says so. |
| `Disassembler.StepUndecoded` | disassemble.py:226-230 | An unknown opcode is only marked visited, records nothing and ends the run. |
| `Disassembler.StepDecoded` | disassemble.py:231-270 | A decoded address records `(mnem, op_str, length)`, its access and its flow. |
| `Disassembler.StepGrown` | disassemble.py:222-224 | Each visit adds its fresh address to `seen` and queues at most one address. |
| `Disassembler.FollowRun` | disassemble.py:221-270 | One straight-line run keeps the tables, the records, minimality and closure; so each address is decoded at most once. |
| `Disassembler.WalkInit` | disassemble.py:207-208 | The worklist starts as the entry set and nothing is seen. |
| `Disassembler.WalkSkip` | disassemble.py:211-213 | Popping a visited or out-of-image address changes nothing else. |
| `Disassembler.WalkDone` | disassemble.py:210 | When the worklist is empty, the visited set is closed under control flow and is the least such set. Pops are at most the entries plus the image size. |
| `Disassembler.Disassemble` | disassemble.py:193-270 | It fails exactly when a vector text is not hex and some entry lies in the image (the ValueError of line 217). Pops never exceed `len(entries) + prg_size`. On success the visited set is the least closed set containing the in-image entries. Every recorded instruction, record and access is the one its address determines. |
| `Disassembler.AccessesOfMembers` | disassemble.py:238-248 | An access is listed exactly when some visited address makes it. |
| `Disassembler.AccessesOfDistinct` | disassemble.py:222-248 | No instruction's access is listed twice. |
| `Disassembler.InstructionsDeterministic` | disassemble.py:207-211 | The instruction table does not depend on the order in which the entry set is enumerated. |
| `Disassembler.NumBanks` | disassemble.py:278 | There is at least one bank, and `n` whole banks fit in PRG when PRG is at least one bank. |
| `Disassembler.SortedIn` | disassemble.py:289-291 | The listed addresses are those of the range, strictly ascending and complete. |
| `Disassembler.InsnLine` | disassemble.py:299 | An instruction line is four blanks, the mnemonic padded to six characters, a blank, then exactly the operand text. |
| `Disassembler.AddrLines` | disassemble.py:295-299 | A `name:` line precedes an address exactly when it is a function key, and the instruction line comes last. |
| `Disassembler.ListingLines` | disassemble.py:289-299 | A listing has between one and two lines per address. |
| `Disassembler.Listing` | disassemble.py:289-299 | The listing loop produces `ListingLines` of the sorted addresses. |
| `Disassembler.BankAddrs` | disassemble.py:289-291 | Every address a bank lists is a decoded address. |
| `Disassembler.BankListing` | disassemble.py:288-299 | A bank is its header line and blank line, then its listing. |
| `Disassembler.AllBanks` | disassemble.py:277-300 | One text per bank, `max(1, prg_size // 0x4000)` of them, in bank order. |
| `Disassembler.BankPartition` | disassemble.py:278-291 | Each decoded address is listed in exactly the bank its offset falls in. It is listed in one of the `max(1, prg_size // 0x4000)` written banks exactly when that bank index is below the bank count, so code past the last whole bank is listed nowhere. |
| `TranslateCpu.SharedRegisters` | translate_cpu.py:34-70 | `$2007`, `$4015` and `$4017` are the only registers both tables name. |
| `TranslateCpu.BeforeComma` | translate_cpu.py:129 | `split(",")[0]` is the longest comma-free prefix. |
| `TranslateCpu.Tokens` | translate_cpu.py:112-114 | A line has tokens exactly when its stripped text is non-empty. |
| `TranslateCpu.PreprocessLine` | translate_cpu.py:102-156 | Blank and comment lines come back unchanged and unflagged. A flagged line is never rewritten. |
| `TranslateCpu.LineCases` | translate_cpu.py:111-129 | A non-blank line is handled either as a label or as an instruction with its upper-cased mnemonic and operand key. |
| `TranslateCpu.LabelRule` | translate_cpu.py:117-125 | A label is never flagged. The RESET preamble is appended exactly when its hex value is the RESET vector. Otherwise the label is unchanged. |
| `TranslateCpu.FlagRule` | translate_cpu.py:145-156 | An instruction is flagged exactly when it is JMP with `(` in its operand, or JSR matching a trigger pattern. |
| `TranslateCpu.RewriteRule` | translate_cpu.py:133-143 | Register stores become a JSR to the write routine, register loads a JSR to the read routine (the store test first). Nothing else is rewritten. |
| `TranslateCpu.InstructionRewrite` | translate_cpu.py:133-143 | A rewritten instruction is a wrapped store or load, and these are the only rewrites. |
| `TranslateCpu.RewriteDropsTerminator` | translate_cpu.py:137 | A rewritten line ends with the operand it replaced and has no line terminator. |
| `TranslateCpu.MnemonicClasses` | translate_cpu.py:73-75 | Stores, loads, JMP and JSR are disjoint kinds. |
| `TranslateCpu.StoreLine` | translate_cpu.py:134-137 | A store is rewritten exactly when its key is write-wrapped, and kept otherwise. |
| `TranslateCpu.LoadLine` | translate_cpu.py:140-143 | A load is rewritten exactly when its key is read-wrapped, and kept otherwise. |
| `TranslateCpu.JumpLine` | translate_cpu.py:146-147 | An indirect jump is flagged and kept. |
| `TranslateCpu.NamedLabelKept` | translate_cpu.py:117-125 | A label whose name cannot be read as hex passes through unchanged and unflagged. |
| `TranslateCpu.SubLabelKept` | translate_cpu.py:117-125 | The fallback disassembly's `sub_XXXX:` labels are kept. |
| `TranslateCpu.HandlerLabelKept` | translate_cpu.py:117-125 | The `*_HANDLER:` labels are kept. The RESET label is a name, not its address, so no preamble is added to a fallback listing. |
| `TranslateCpu.InsnLineTokens` | translate_cpu.py:112-129 | A disassembler instruction line splits into its mnemonic and operand. |
| `TranslateCpu.DisassembledStore` | translate_cpu.py:134-137 | A disassembled store becomes a write-routine call exactly when its operand names a write-wrapped register. |
| `TranslateCpu.DisassembledLoad` | translate_cpu.py:140-143 | A disassembled load or BIT becomes a read-routine call exactly when its operand names a read-wrapped register. |
| `TranslateCpu.DisassembledIndirectJump` | translate_cpu.py:146-147 | A disassembled `JMP (...)` is flagged and kept. |
| `TranslateCpu.Results` | translate_cpu.py:167-169 | One result per input line. |
| `TranslateCpu.ResultAt` | translate_cpu.py:167-169 | Result k is pass 1 on line k. |
| `TranslateCpu.Texts` | translate_cpu.py:169 | The texts are those of the results, in order. |
| `TranslateCpu.FlaggedIndices` | translate_cpu.py:170-171 | The flagged indices are exactly the 0-based positions of flagged results, ascending. |
| `TranslateCpu.PreprocessBank` | translate_cpu.py:159-172 | The bank text is the concatenation of the per-line results of `splitlines(keepends=True)`, and the flagged list is `FlaggedIndices`. |
| `TranslateCpu.UnchangedBank` | translate_cpu.py:164-172 | A bank in which no line is rewritten comes out exactly as it went in. |
| `TranslateCpu.RewriteMerges` | translate_cpu.py:137 | A rewritten line runs into the next line's text in the joined bank. |
| `TranslateCpu.LineEnd` | translate_cpu.py:164 | The terminator a kept-ends line carries is a suffix of it, and is empty exactly when the line does not end in a line break. |
| `TranslateCpu.IntendedPreprocessLine` | translate_cpu.py:133-143 | The corrected pass flags the same lines and treats blank, comment, label and unchanged lines as before. |
| `TranslateCpu.IntendedKeepsTerminator` | translate_cpu.py:137 | A rewritten line has no terminator as written. With the correction it carries the terminator of the line it replaces. |
| `TranslateCpu.IntendedEndsLine` | translate_cpu.py:133-143 | With the correction, a line ending in a line break still ends in one after pass 1. |
| `TranslateCpu.IntendedBankKeepsLines` | translate_cpu.py:164-172 | With the correction, every transformed line of a bank but the last ends in a line break, so no line runs into the next. |
| `TranslateCpu.EntryOf` | translate_cpu.py:179-185 | Each entry carries its key and value, with `sub_<key>` and empty lists as defaults. |
| `TranslateCpu.KeyValues` | translate_cpu.py:180 | Each key's value is `int(key, 16)`. |
| `TranslateCpu.Entries` | translate_cpu.py:178-185 | One entry per record, in table order. |
| `TranslateCpu.Insert` | translate_cpu.py:186 | Insertion adds exactly one element. |
| `TranslateCpu.SortByAddr` | translate_cpu.py:186 | The sorted list is ordered by address and is a permutation of the entries. |
| `TranslateCpu.SortStable` | translate_cpu.py:186 | Entries with equal addresses keep their table order. |
| `TranslateCpu.ExtractFunctions` | translate_cpu.py:175-186 | It succeeds exactly when every key is hex, and then gives the sorted entries. Otherwise it reports the first bad key. |
| `TranslateCpu.ConfidenceTenths` | translate_cpu.py:232-233 | The confidence is at most 1.0, it drops by 0.1 per review annotation, and it is 0 from ten annotations on. |
| `TranslateCpu.ConfidenceAntitone` | translate_cpu.py:233 | More review annotations never raise the confidence. |
| `TranslateCpu.FailureStub` | translate_cpu.py:235 | The failure text ends with `<name>_65816:`, `BRK`, `RTL`. |
| `TranslateCpu.TranslateOne` | translate_cpu.py:224-244 | A successful reply is logged with its review count and score. A failed one is logged as the stub with confidence 0 and the stale review count. |
| `TranslateCpu.LowConfidenceIff` | translate_cpu.py:233-236 | The confidence is below 0.5 exactly when the call failed or the reply has six or more review annotations. |
| `TranslateCpu.Log` | translate_cpu.py:213-247 | The log has one entry per function. |
| `TranslateCpu.LogEntry` | translate_cpu.py:238-244 | Entry k is function k translated with its own reply. |
| `TranslateCpu.CallLlmTranslate` | translate_cpu.py:207-247 | It succeeds exactly when every record has a name, callers and callees, and then gives the log. Otherwise the error is KeyError. |
| `TranslateCpu.Selected` | translate_cpu.py:289-301 | When the bank has a flagged line, every function is sent. |
| `TranslateCpu.SelectedMembers` | translate_cpu.py:290-294 | Exactly the functions at the NMI or IRQ vector are selected, or all of them when some line is flagged. |
| `TranslateCpu.OnlyHandlersUnflagged` | translate_cpu.py:293-294 | A bank without a flagged line sends only the interrupt handlers. |
| `TranslateCpu.SelectFunctions` | translate_cpu.py:289-301 | It succeeds exactly when every key is hex, and then gives the selection. Otherwise the error is ValueError. |
| `TranslateCpu.ConfidenceText` | translate_cpu.py:317 | A confidence of n tenths prints as `d.d`: the units digit of n/10, a point, then the tenths digit. |
| `TranslateCpu.ResultSection` | translate_cpu.py:315-317 | Each translation is appended between newlines. The low-confidence warning follows exactly when the score is below 0.5. |
| `TranslateCpu.SectionHeader` | translate_cpu.py:313 | The appended section starts with its header. |
| `TranslateCpu.BuildLlmSection` | translate_cpu.py:313-317 | The section loop produces `SectionText` of the log. |
| `TranslateCpu.LlmOutputShape` | translate_cpu.py:285-318 | The pass-1 text opens every bank's output. Without the model or a function table it is the whole output. Translations follow the section header. |
| `TranslateCpu.LogsSelection` | translate_cpu.py:303-311 | With complete records, every selected function gets one log entry, in table order. |
| `TranslateCpu.LlmPass` | translate_cpu.py:288-318 | The model-assisted pass of one bank equals `LlmOutput`. |
| `TranslateCpu.TranslateBatch` | translate_cpu.py:303-318 | Translating a batch and appending its section equals `BatchOutput`. |
| `TranslateCpu.TranslateBank` | translate_cpu.py:282-318 | One bank's output equals `BankOutput`: pass 1, then the model pass. |
| `TranslateCpu.BankOutputs` | translate_cpu.py:280-321 | One outcome per bank. |
| `TranslateCpu.BankOutputsAt` | translate_cpu.py:280-321 | Outcome b is bank b translated with its own replies. |
| `TranslateCpu.RunOf` | translate_cpu.py:280-321 | Without a failure every bank is written. |
| `TranslateCpu.FailureSticks` | translate_cpu.py:280-321 | After an exception no later bank is processed. |
| `TranslateCpu.WrittenOutputs` | translate_cpu.py:320-321 | Every written text is its bank's output, in bank order. |
| `TranslateCpu.RunFailure` | translate_cpu.py:280-321 | The run fails exactly when some bank fails, with the first failure, after writing the banks before it. |
| `TranslateCpu.QuietRun` | translate_cpu.py:280-325 | A run whose banks all succeed without log entries writes every bank and an empty log. |
| `TranslateCpu.PlainRun` | translate_cpu.py:284-288 | Without the model every bank is written as its pass-1 text and the log is empty. |
| `TranslateCpu.RunStep` | translate_cpu.py:280-321 | One more bank either records the failure or appends its text and log. |
| `TranslateCpu.TranslateBanks` | translate_cpu.py:250-327 | A vector that is not hex raises ValueError before any bank. Otherwise the run is `RunOf` the per-bank outcomes. |
| `TranslateCpu.RunBanks` | translate_cpu.py:280-321 | The bank loop of `translate_banks` equals `RunOf` over `BankOutputs`. |
| `TranslateCpu.TranslateBankAt` | translate_cpu.py:282-321 | Bank i's outcome is the i-th of `BankOutputs`. |
| `ParseRom.MapperName` | parse_rom.py:69 | A known id gets its table name, and an unknown one `Unknown (#id)`. |
| `ParseRom.ParseHeader` | parse_rom.py:35-84 | Decoding succeeds exactly with the magic, 8 bytes, and 11 for NES 2.0. A missing magic is ValueError, and any other failure is IndexError. |
| `ParseRom.MapperField` | parse_rom.py:47 | The mapper id is a byte built from the high nibbles of flags 6 and 7. It is supported iff it is at most 4, and unknown ids are named `Unknown (#id)`. |
| `ParseRom.HeaderLayout` | parse_rom.py:52-64 | The PRG and CHR sizes, CHR RAM iff no CHR banks, PRG after the 16-byte header and optional trainer, CHR after PRG, and a trainer offset iff there is a trainer. |
| `ParseRom.EncodeHeader` | parse_rom.py:35-48 | The reference encoder writes a 16-byte header with the magic. |
| `ParseRom.HeaderRoundTrip` | parse_rom.py:35-84 | The decoder reads back every field the encoder wrote. These are the mapper, mirroring, NES 2.0, PRG-RAM size, trainer, battery and bank counts. |
| `ParseRom.HeaderBytes` | parse_rom.py:39-58 | The encoded bytes decode field by field. |
| `ParseRom.HeaderPrefix` | parse_rom.py:35-84 | Bytes past the 16-byte header never change the decoded header. |
| `ParseRom.LeWord` | parse_rom.py:90-92 | A little-endian word is read exactly when two bytes are available, and is below 65536. Otherwise the error is struct.error. |
| `ParseRom.LastBank` | parse_rom.py:89 | The last bank is the last 16 KiB, or all of a shorter PRG. |
| `ParseRom.InterruptVectors` | parse_rom.py:87-97 | The vectors are read exactly when PRG has at least 16 KiB, and the error is struct.error otherwise. |
| `ParseRom.VectorsRoundTrip` | parse_rom.py:90-96 | Each vector text reads back through `int(..., 16)` as the word at -6, -4 or -2 from the end of PRG. |
| `ParseRom.ParseRom` | parse_rom.py:100-130 | A file under 16 bytes, or with a wrong magic, is ValueError. A successful result carries the decoded header. |
| `ParseRom.ParseRomOutcome` | parse_rom.py:104-124 | A 16-byte file with the magic fails only with struct.error, exactly when its PRG is under 16 KiB. PRG never exceeds the declared size, and CHR is empty under CHR RAM. |
| `ParseRom.ImageRoundTrip` | parse_rom.py:109-116 | Cutting a well-formed image gives back its PRG, CHR and trainer. |
| `ParseRom.ImageHeader` | parse_rom.py:61-64 | The header of a well-formed image gives the offsets of its segments. |
| `ParseRom.ImageSegments` | parse_rom.py:109-116 | The clamped slices cut an image at the header's offsets. |
| `ConvertGraphics.BgrFields` | convert_graphics.py:46-48 | The word is below 0x8000, with r>>3 in bits 0-4, g>>3 in bits 5-9 and b>>3 in bits 10-14. |
| `ConvertGraphics.BgrSameWord` | convert_graphics.py:46-48 | Two colours share a word exactly when their top five bits agree in every channel. |
| `ConvertGraphics.DefaultSubpalette` | convert_graphics.py:93-96 | Four colours, the first black, in strictly ascending brightness. |
| `ConvertGraphics.Snes4bpp` | convert_graphics.py:60-71 | 32 bytes: out[2·row] is plane 0 row, out[2·row+1] is plane 1 row, and bytes 16..31 are zero. |
| `ConvertGraphics.TileRoundTrip` | convert_graphics.py:51-71 | The NES tile is read back from its 4bpp form. |
| `ConvertGraphics.NesTileToSnes4bpp` | convert_graphics.py:51-71 | It succeeds exactly on 16 bytes, and then gives the 4bpp layout. Otherwise the error is ValueError. |
| `ConvertGraphics.PixelIndex` | convert_graphics.py:84-86 | The index is below 4, with the plane 0 bit low and the plane 1 bit high. |
| `ConvertGraphics.PixelAt` | convert_graphics.py:82-88 | Every pixel index is below 4. |
| `ConvertGraphics.PixelPosition` | convert_graphics.py:83 | Pixel (row, x) reads bit 7 - x, leftmost pixel first. |
| `ConvertGraphics.TilePixelIndices` | convert_graphics.py:82-88 | 64 indices in row-major order, each below 4. |
| `ConvertGraphics.SnesChr` | convert_graphics.py:119-124 | The SNES CHR is 32 bytes per tile. |
| `ConvertGraphics.SnesChrTile` | convert_graphics.py:120-124 | SNES tile i is the conversion of NES tile i. |
| `ConvertGraphics.ChrRoundTrip` | convert_graphics.py:119-124 | Every NES tile is read back from the SNES CHR. |
| `ConvertGraphics.CgramOf` | convert_graphics.py:141-145 | CGRAM is 2 bytes per colour. |
| `ConvertGraphics.CgramWord` | convert_graphics.py:144-145 | Colour i is the little-endian BGR word of palette entry i, and its high byte is below 0x80. |
| `ConvertGraphics.ConvertTiles` | convert_graphics.py:109-132 | `len // 16` tiles are converted and a trailing part is ignored. Each gets the tile-map entry `(i, i, 0)`. |
| `ConvertGraphics.BuildCgram` | convert_graphics.py:141-145 | CGRAM holds the words of the first 16 master colours. |
| `ConvertGraphics.CgramLoop` | convert_graphics.py:142-145 | The loop with its index taken modulo the palette length gives `CgramOf`. |
| `ConvertGraphics.ConvertChr` | convert_graphics.py:99-151 | Missing or empty CHR gives empty CHR, palette and tile map. Otherwise the outputs are the converted tiles, the 16-colour CGRAM and the identity tile map. |
| `TranslateMapper.SelectStub` | translate_mapper.py:279-282 | The unsupported stub and the warning text are chosen exactly for ids outside 0..4. |
| `TranslateMapper.StubsDistinct` | translate_mapper.py:228-234 | Each supported mapper has a stub of its own. |
| `TranslateMapper.SupportAgrees` | translate_mapper.py:236 | The stage writes a real stub exactly when stage 1 marked the mapper supported. |
| `TranslateMapper.BankTextParses` | translate_mapper.py:248 | A bank number's text reads back as that number. |
| `TranslateMapper.BuildBankLayout` | translate_mapper.py:239-262 | One entry per PRG bank, entry i built by `EntryFor(i)`. The total and audio bank are `prg_banks + 1` and the fixed last bank is `prg_banks + 2`. The system bank is `0x00` and the format LoROM. |
| `TranslateMapper.LayoutCoversPrg` | translate_mapper.py:249-250 | Every PRG offset lies in the source range of exactly one entry. |
| `TranslateMapper.EntriesContiguous` | translate_mapper.py:249-250 | Neighbouring source ranges abut and any two are disjoint. |
| `TranslateMapper.BankTextInjective` | translate_mapper.py:248 | Different bank numbers have different texts. |
| `TranslateMapper.SystemBankText` | translate_mapper.py:259 | The system bank text is bank number 0. |
| `TranslateMapper.SnesBanksDistinct` | translate_mapper.py:245-253 | Every NES bank has a SNES bank of its own. |
| `TranslateMapper.SnesBanksReserved` | translate_mapper.py:245-261 | No NES bank lands in the system, audio or fixed last bank. |
| `Pipeline.FatalStages` | main.py:25-34 | Exactly parse_rom and build_snes_rom, the first and last stages, are fatal. |
| `Pipeline.FailedStages` | main.py:77 | The failed list names exactly the failed stages. |
| `Pipeline.EstimateFidelity` | main.py:75-76 | An unsupported or absent mapper flag gives UNSUPPORTED_MAPPER. |
| `Pipeline.FidelityPriority` | main.py:74-87 | Each estimate holds exactly under its condition: UNSUPPORTED_MAPPER, then BUILD_FAILED, then TRANSLATION_FAILED, then DEGRADED for disassemble or convert_graphics, and HIGH when nothing failed. |
| `Pipeline.FidelityPartial` | main.py:85-86 | PARTIAL holds exactly when only other stages failed. |
| `Pipeline.NoneFailed` | main.py:77 | The failed list is empty exactly when every stage succeeded. |
| `Pipeline.Warnings` | main.py:101-103 | There is one warning per failed stage, in stage order, naming it. |
| `Pipeline.WarningsNameFailures` | main.py:101-103 | There are warnings exactly when some stage failed, and each failed stage is named. |
| `Pipeline.ResultAt` | main.py:164-172 | Each result names its stage and has success iff return code 0. A skipped audio stage is a success. |
| `Pipeline.ResultsUpTo` | main.py:160-172 | Result i is stage i's entry. |
| `Pipeline.FirstFatal` | main.py:180-183 | The first fatal failure, and no earlier one. |
| `Pipeline.StagePositions` | main.py:25-34 | parse_rom is stage 0 and convert_audio stage 6. |
| `Pipeline.RunStages` | main.py:160-183 | The loop aborts exactly at the first fatal failure. It collects the results up to that point and loads the manifest after stage 1. |
| `Pipeline.StageArgs` | main.py:145-158 | Every stage gets `--workspace` and the workspace; parse_rom gets the ROM path before it. |
| `Pipeline.Positionals` | translate_cpu.py:331-337 | The argument reader fails on an unknown option or a missing value, and otherwise counts positional arguments. |
| `Pipeline.Launched` | translate_cpu.py:337 | A script whose parser rejects its arguments exits with status 2. Otherwise it does what the script does. |
| `Pipeline.BackendRejected` | main.py:150-152 | translate_cpu.py's parser has no `--backend`, so it rejects the arguments main gives it on every run. |
| `Pipeline.IntendedStageArgs` | main.py:145-158 | The corrected arguments equal main's for every stage but translate_cpu, which loses the `--backend` pair. |
| `Pipeline.IntendedArgsAccepted` | main.py:145-158 | Every stage script in this model accepts its corrected arguments. |
| `Pipeline.IntendedLaunchRuns` | main.py:160-172 | With the corrected arguments every stage reports what its script does. |
| `Pipeline.RunPipeline` | main.py:160-203 | The run equals `PipelineOutcome` over the stages as main launches them. |
| `Pipeline.TranslationAlwaysFails` | main.py:74-87 | After stage 1, translate_cpu is always recorded as failed with status 2. The estimate is then UNSUPPORTED_MAPPER, BUILD_FAILED or TRANSLATION_FAILED, never HIGH, PARTIAL or DEGRADED. |
| `Pipeline.OutcomeShape` | main.py:160-203 | Results follow STAGES order with one entry per stage run or skipped. After a fatal failure no later stage runs and there is no output ROM. The exit code is 0 exactly when every stage ran, the last did not fail and output.sfc exists. |
| `Pipeline.SkipAudioIgnoresStage` | main.py:164-168 | With skip-audio the audio script's behaviour has no effect, and it is recorded as success with code 0 and no time. |
| `PyText.Strip` | translate_cpu.py:107 | `strip` leaves no whitespace at either end, and is empty exactly for all-whitespace text. |
| `PyText.StripIsMiddle` | translate_cpu.py:107 | The stripped text is the part of the line between its leading and its trailing whitespace. |
| `PyText.LStrip` | translate_cpu.py:136 | `lstrip` removes exactly the leading whitespace. |
| `PyText.Indent` | translate_cpu.py:136 | The indent is whitespace and followed by the `lstrip` text. |
| `PyText.SplitWs` | translate_cpu.py:112 | `split(None, n)` has at most n + 1 parts, and none exactly for blank text. |
| `PyText.Upper` | translate_cpu.py:127 | `upper` maps every character. |
| `PyText.Lower` | translate_cpu.py:129 | `lower` maps every character. |
| `PyText.RStripChar` | translate_cpu.py:118 | `rstrip(":")` removes exactly the trailing colons. |
| `PyText.LStripChar` | translate_cpu.py:120 | `lstrip("$")` removes exactly the leading dollar signs. |
| `PyText.SplitLines` | translate_cpu.py:164 | `splitlines(keepends=True)` gives non-empty lines. Each ends at its first line break, with `\r\n` counted as one. Every line but the last ends in a line break. |
| `PyText.SplitLinesRoundTrip` | translate_cpu.py:164 | Joining the kept-ends lines gives back the text. |
| `PyText.Count` | translate_cpu.py:232 | Non-overlapping occurrences fit within the text. |
| `PyText.CountOccurrences` | translate_cpu.py:232 | The count is zero exactly when the marker occurs nowhere. An occurrence at the front is counted once and skipped whole, so occurrences never overlap. |
| `PyText.HexPad` | disassemble.py:172 | `{:0wX}` has at least w upper-case digits whose value is the number. |
| `PyText.AddrText` | parse_rom.py:94-96 | `0x%04X` starts with `0x` and has at least four digits. |
| `PyText.AddrTextRoundTrip` | translate_cpu.py:255-257 | The address text of every stage reads back as the same address. |
| `PyText.AddrTextInjective` | disassemble.py:219 | Distinct addresses have distinct `0x%04X` keys, so keying function records by int loses nothing. |
| `PyText.DecPad` | disassemble.py:288 | `{:02d}` gives at least the width, all decimal digits, whose decimal value is the number. |
| `PyText.PadRight` | disassemble.py:299 | `{:<6}` keeps the text and pads it with blanks to the width. |
| `Common.Slice` | parse_rom.py:114-116 | A Python slice clamps both ends and never fails. |

## Findings

| source | as written | input that shows it | evidently intended | confidence | as-written member | corrected member |
|---|---|---|---|---|---|---|
| disassemble.py:183 | A backward relative operand is listed as `pc + 2 + lo - 0x256`. | `D0 FE` (BNE back to itself) at $8000 is followed to $8000 but listed as `$7EAA`. | `lo - 256`, the displacement the traversal uses at disassemble.py:265, so the listing names the branch target (`IntendedRelTarget`). | high; not executed | `Disassembler.RelListedTarget` | `Disassembler.IntendedFmtOperand` |
| disassemble.py:253-257 | `jsr_target not in functions` tests an int against `0x%04X` string keys, so it is always true and every JSR rewrites its target's record. | `20 00 80` (`JSR $8000`) at the RESET entry $8000: the record `RESET_HANDLER` is written, then replaced by `sub_8000`. | Create the record only for a target with no record, keeping vector names and earlier records. | medium; not executed | `Disassembler.JsrRenamesHandler` | `Disassembler.IntendedCallRecords` |
| translate_cpu.py:137 | A rewritten register access is rebuilt from its tokens and loses its line terminator. | `"    STA $2000\n    LDA #$01\n"` comes out as one line, `JSR PPU_CTRL_WRITE    ; was: STA $2000    LDA #$01`, so the load ends up in the comment. | Keep the replaced line's terminator, so that every line but the last still ends in a line break (`IntendedBankKeepsLines`). | high; not executed | `TranslateCpu.RewriteMerges` | `TranslateCpu.IntendedPreprocessLine` |
| main.py:150-152 | main passes `--backend <b>` to translate_cpu.py, whose parser (translate_cpu.py:331-337) has no such option. | Any run that gets past parse_rom: translate_cpu.py exits with status 2, so a supported mapper can only be TRANSLATION_FAILED or BUILD_FAILED. | Leave `--backend` out of translate_cpu's arguments, since no stage script reads it (`IntendedArgsAccepted`). | high; not executed | `Pipeline.TranslationAlwaysFails` | `Pipeline.IntendedStageArgs` |

The traversal, pass 1 and the stage loop are modelled as the code is written, because that is what the program does. Each corrected member is defined beside them and carries the intended property.

## Left out

- File and directory I/O in every stage is not modelled. This covers manifests, `.bin` files, bank files, JSON output and `exists()` tests. Every read becomes a parameter and every write becomes part of a returned value.
- `find_ghidra`, `disassemble_with_ghidra` and the `main` of each stage script are not modelled: they are subprocesses, environment and filesystem. Only the pure-Python fallback is modelled.
- The Anthropic client call is a `reply` oracle, and an exception's text is its error value. The system prompt, the user message text and `time.sleep` rate limiting are not modelled.
- The `_model` choice of `translate_banks` is not modelled: `call_llm_translate` never reads it.
- TranslateCpu.TranslateOne: the `review_count in dir()` introspection is modelled as the count of the last successful reply (`LastCount`). Python locals are not modelled further.
- TranslateCpu.ConfidenceTenths: the float `round(max(0.0, 1.0 - n * 0.1), 2)` is modelled exactly as whole tenths, not as floating point.
- PIL image construction and saving, and the ComfyUI HTTP upscale, are not modelled. Only the colour indices the image is built from are modelled.
- The mapper ASM stub texts are opaque, distinct enum values rather than the assembler text.
- Logging, `print` messages and the subprocess in `run_stage` are not modelled. A stage run is the `run` oracle, with elapsed time in hundredths of a second. `run` says what a script does once its arguments parse.
- argparse is modelled only as far as the stage loop needs it. `Positionals` takes exact option names, and any token that starts with `-` is an option. Abbreviated option names, `--opt=value`, `-h` and the choices check on `--backend` are not modelled. main's own parser is not modelled: its result is the `Options` value.
- translate_ppu.py and build_snes_rom.py are not part of this model, so their parsers are taken to accept their arguments.
- Pipeline.TotalElapsed: the float `round(sum(...), 2)` is a sum of whole hundredths.
- The order in which `list(entry_addrs)` enumerates a Python set is not modelled. It is the parameter `initial`, and the instruction table does not depend on it (`InstructionsDeterministic`).
- `int(s, 16)` is modelled without `_` digit separators and without non-ASCII decimal digits (Python also reads `'١٠'` as 16). ParseHex rejects both.
- `upper`, `lower` and `\w` are modelled for ASCII only. `isspace` uses Python's whitespace set.
- The four trigger regular expressions are hand-written predicates over the line (`IndirectJumpAt`, `SelfModifyingAt`, `BankCallAt`, `MapperLabelAt`), with ASCII case-insensitive matching.
- dashboard.py, test_dashboard.py, convert_audio.py and the Ghidra scripts are not part of this model. Their content is concurrency, a web UI, floating-point audio and analysis that cannot be seen.
- translate_ppu.py and build_snes_rom.py are not part of this model. In `Pipeline` they are only stages whose outcome comes from the `run` oracle.
- The disassembler's queue, `seen_addrs` and tables, and the pipeline's stage results, are modelled as values threaded through methods. The source keeps them in local variables, so no aliasing is lost.
