# Second pass of a two-pass assembler, in Dafny

This project models the second pass of an assembler for an imaginary
14-bit machine (`secondRead.c`) and the string and table utilities it and
the first pass rely on (`utility.c`).

The second pass runs in this order:

- it moves every data label past the code by the instruction count IC;
- it counts the `.entry` declarations that name no label, or name an
  external label;
- for each instruction line not already marked erroneous, it resolves the
  LABEL and INDEX operands to label addresses: op1 first, and op2 only
  when op1 resolved;
- it encodes each such line into the memory image, whether or not its
  labels resolved;
- it appends the data segment to the image.

Each line becomes:

- an instruction word holding the opcode and the two operand modes;
- for two register operands, one shared register word;
- otherwise, one word per present operand, plus an absolute index word
  after an INDEX operand.

Outside a register pair, each present operand records the address of its
word: FIRST_ADDRESS plus the memory counter at that moment. The two
operands of a register pair record no address. A word carries a two-bit
relocation tag (absolute, external or relocatable) below a 12-bit payload.
The image holds MAX_DATA_NUM words; whatever does not fit is dropped, and
the counter stays at MAX_DATA_NUM. An operand emitted after that point
therefore records FIRST_ADDRESS + MAX_DATA_NUM, which is the address of no
written word. The result of the pass is the number of illegal `.entry`
lines plus the number of instruction lines, not already marked erroneous,
whose labels did not resolve.

The modules are:

- `CText` (`ctext.dfy`): C strings as buffers and pointers.
  - A buffer is a `seq<char>` (an `array<char>` when a function writes
    into it).
  - A pointer is an index, and `Str(s, p)` is the string that starts
    there.
  - The `isspace` family is modelled for the C locale.
- `CNumber` (`cnumber.dfy`): `strtol(s, &end, 0)` and the conversion of
  its `long` result to a 32-bit `int`.
- `Assembler` (`assembler.dfy`): the declarations that come from
  `assembler.h`, as datatypes and constants.
  - `assembler.h` is not part of this model. The values taken for its
    constants are stated where they are declared: MEMORY_WORD_LENGTH 14,
    MAX_DATA_NUM 1000, FIRST_ADDRESS 100, MAX_LABEL_LENGTH 30,
    MAX_REGISTER_DIGIT 7, era codes 0/1/2 and mode codes 0..3.
- `Utility` (`utility.dfy`): `utility.c`.
- `SecondRead` (`second_read.dfy`): `secondRead.c`.

State that the source keeps in globals becomes parameters. This covers
the label table and its count, the macro table, the `.entry` lines, the
data array and the command table. The label table, the line array and the
memory image stay arrays that the methods update in place. The shared
memory counter is passed in and returned.

Each imperative function is proved against a specification function:

- `TokBuffer`, `TrimBuffer`, `CommaCut` and `QuoteCut` describe the
  buffers;
- `Appended` describes the image;
- `ResolvedLine`, `LineWords` and `LineStep` describe one line;
- `LinesStep` describes the line loop.

Lemmas then state what those functions mean.

Two consequences of the code are worth noting:

- A line with one register operand and one other operand (`MOV LOOP, r3`)
  takes three words: the instruction, the label, and a register word
  holding only the destination half. `LabelToRegisterWords` states this.
- When a label is not found, `updateLableOpAddress` calls `isLegalLabel`
  with printing switched on (secondRead.c:78). An unresolved name that is
  not even a legal label is therefore reported with its syntactic verdict.
  The model returns that report as a value (`OpReport`).

## Model

| member | source | states |
|---|---|---|
| Utility.FindLabel | utility.c:38-53 | the index found names the label and is the first that does; None only for a NULL name or a name no label has |
| Utility.GetLabel | utility.c:38-53 | the label found is FindLabel over the first labelNum labels of the table |
| Utility.FindMacro | utility.c:21-36 | the index found names the macro and is the first that does; None only for a NULL name or a name no macro has |
| Utility.GetMacro | utility.c:21-36 | the macro found is FindMacro over the first macroArrInd macros |
| Utility.IsExistingLabel | utility.c:282-290 | true exactly when the name is not NULL and some label among the first labelNum has it |
| Utility.IsExistingMacro | utility.c:291-297 | true exactly when the name is not NULL and some macro among the first macroArrInd has it |
| Utility.IsExistingEntryLabel | utility.c:299-314 | true exactly when the name is not NULL and some recorded .entry line's text equals it |
| Utility.CmdIndex | utility.c:75-89 | -1 when no command before the table's terminator has the name; otherwise the first index that has it |
| Utility.GetCmdId | utility.c:75-89 | the table walk up to the terminating entry returns CmdIndex |
| Utility.IsRegister | utility.c:317-330 | true exactly when the string is two characters long: `r` and a digit no larger than MAX_REGISTER_DIGIT |
| Utility.RegisterValue | utility.c:317-330 | the number stored for a register name is its digit, at most MAX_REGISTER_DIGIT, and the name is `r` followed by it |
| Utility.IsRegisterIff | utility.c:317-330 | a string is a register name exactly when it is one of r0 .. r7 |
| Utility.IsDirective | utility.c:364-367 | true exactly for `.` followed by `d`, `s` or `e` where the third character is not `e` |
| Utility.IsMacro | utility.c:369-372 | true exactly when the text starts with `.de` |
| Utility.DirectiveIsNotMacro | utility.c:364-372 | no word is both a directive and a macro definition |
| Utility.LabelVerdictOf | utility.c:222-279 | the verdict is Legal exactly when the name has 1 to 30 characters, starts with a letter, is alphanumeric, names no register and names no command |
| Utility.IsLegalLabel | utility.c:222-279 | the checks run in the source's order and yield the first failing one (LabelVerdictOf) |
| Utility.IsWhiteSpaces | utility.c:209-219 | true exactly when every character is white space |
| Utility.SingleWordIff | utility.c:199-206 | a string holds at most one word exactly when what follows its first word is blank |
| Utility.IsOneWord | utility.c:199-206 | true exactly when the string holds at most one word |
| Utility.OneWordIffBlankAfter | utility.c:199-206 | isOneWord holds exactly when what getFirstTok leaves after the first word is blank |
| Utility.OneWordTrimmed | utility.c:199-206 | a single word padded with white space is, trimmed, its own first word |
| Utility.TrimLeftStr | utility.c:123-136 | the pointer moves past exactly the leading white space, onto a character that is not white space or onto the terminator |
| Utility.SkipWord | utility.c:103-106 | the loop stops at the end of the word: the first white space or the terminator |
| Utility.GetFirstTok | utility.c:93-121 | the token starts after the leading blanks; the end pointer lies past the separator; the buffer is TokBuffer (NUL written over the separator, if any) |
| Utility.FirstTokHeld | utility.c:93-121 | after getFirstTok the token pointer reads the first word and the end pointer reads the rest after its separator |
| Utility.FirstWordEmptyIffBlank | utility.c:93-121 | the token is empty exactly when the string is blank |
| Utility.ClearTrailingBlanks | utility.c:188-195 | the backward walk overwrites with NUL exactly the white space after the last character that is not white space |
| Utility.TrimText | utility.c:186-195 | on a non-empty string the pointer moves past the leading blanks and the buffer is the cleared one |
| Utility.TrimStr | utility.c:176-196 | the pointer moves past the leading blanks and then reads the trimmed text; the buffer is TrimBuffer |
| Utility.TrimEmpty | utility.c:180-184 | trimStr of the empty string changes nothing |
| Utility.Operand | utility.c:143-154 | the first operand has no comma; it is the whole text when there is no comma, and otherwise the text is operand, comma, rest |
| Utility.CommaCutHolds | utility.c:143-150 | after the cut, the line pointer reads the first operand |
| Utility.CommaCutRest | utility.c:143-150 | after the cut, the text past the comma is intact |
| Utility.GetFirstOperand | utility.c:139-173 | a blank line leaves foundComma and endOfOp as they were; otherwise foundComma says whether the line has a comma and endOfOp points past it or at the terminator; the result always reads the trimmed first operand, in the buffer cut at the comma and trimmed |
| Utility.TrimBufferFrame | utility.c:188-195 | trimStr writes nothing at or after the terminator of its string |
| Utility.OperandRestKept | utility.c:139-173 | after a comma, endOfOp reads the rest of the line intact, ready for the next operand |
| Utility.IsCommentOrEmpty | utility.c:334-360 | true exactly for a blank line or one whose first non-blank character is `;`; the line is marked erroneous exactly when that `;` is not the first character |
| Utility.QuoteCut | utility.c:379-384 | the buffer after acceptance: the closing quote becomes NUL |
| Utility.IsLegalStringParam | utility.c:376-396 | accepted exactly when the first and last characters are `"`; then the pointer moves past the opening quote and the closing one is cut; otherwise nothing changes |
| Utility.StringParam | utility.c:376-396 | the intended check: the parameter is an opening quote, the text and a distinct closing quote |
| Utility.StringParamRoundTrip | utility.c:376-396 | any text between quotes is read back by StringParam |
| Utility.StringParamHeld | utility.c:379-384 | after acceptance, the advanced pointer reads the text between the quotes |
| Utility.LoneQuoteAccepted | utility.c:379-384 | a lone `"` passes the test as written and yields an empty string; the intended check rejects it |
| Utility.MaxNum | utility.c:405 | the largest accepted magnitude, (1 << numOfBits) - 1, is not negative |
| Utility.IsLegalNum | utility.c:400-431 | a blank parameter is EmptyParam and leaves the value alone; otherwise the value is strtol's result narrowed to an int, NotANumber exactly when strtol stops before the end, NumOk exactly when it does not and the narrowed value is within MaxNum of zero |
| Utility.LegalNumValue | utility.c:400-431 | the intended check: the whole parameter is a number within MaxNum of zero, judged before narrowing |
| Utility.NumeralNotBlank | utility.c:407-411 | the decimal numeral of a value is never rejected as empty |
| Utility.NumeralAccepted | utility.c:400-431 | the intended check accepts the numeral of every in-range value and reads that value |
| Utility.NarrowedNumAccepted | utility.c:413-428 | a long beyond MaxNum whose low 32 bits fall in range is accepted as written, with a different value; the intended check rejects it |
| Utility.NarrowedNumExample | utility.c:413 | 4294967301 is beyond MaxNum yet narrows to 5 |
| CNumber.StrToL | utility.c:413 | strtol base 0 stops within the string; when it stops at the start the value is 0; the value always lies within long |
| CNumber.NumeralRoundTrip | utility.c:413 | strtol reads back the decimal numeral of every long, to its end |
| CNumber.IntOfLong | utility.c:413 | the int a long becomes keeps its low 32 bits: it is in int range, congruent modulo 2^32, and unchanged when already in range |
| CNumber.DecimalValue | utility.c:413 | decimal digits read back in base 10 give the number |
| SecondRead.ShiftedLabel | secondRead.c:24-37 | only a data label's address changes; name, external and data flags are kept |
| SecondRead.UpdateDataLabelsAddress | secondRead.c:24-37 | each of the first labelNum labels becomes ShiftedLabel; the rest of the table is unchanged |
| SecondRead.ShiftedLabelMoves | secondRead.c:24-37 | a data label moves by exactly IC; any other label is unchanged |
| SecondRead.ShiftedTwice | secondRead.c:24-37 | moving by a and then by b moves by a + b, so the move must happen exactly once |
| SecondRead.ShiftedLookup | secondRead.c:24-37 | moving the data labels changes no lookup by name |
| SecondRead.IllegalCount | secondRead.c:40-64 | the count never exceeds the number of .entry lines |
| SecondRead.IllegalCountZero | secondRead.c:40-64 | the count is zero exactly when every .entry line names a label that is not external |
| SecondRead.CountIllegalEntries | secondRead.c:40-64 | the loop returns IllegalCount over the .entry lines |
| SecondRead.Resolved | secondRead.c:68-89 | a LABEL or INDEX operand takes the address of a label with its name, and fails only when no label has that name; other operands are kept |
| SecondRead.UpdateLabelOpAddress | secondRead.c:68-89 | succeeds exactly when Resolved does and returns the resolved operand; on failure the report is "no such label" for a legal name and the isLegalLabel verdict otherwise |
| SecondRead.GetNumFromMemoryWord | secondRead.c:92-100 | the encoded word lies in [0, 2^14) |
| SecondRead.MemoryWordDecodes | secondRead.c:92-100 | the two low bits of the encoded word give back its era and the bits above give back its payload modulo 2^12 |
| SecondRead.GetOpTypeId | secondRead.c:103-113 | the mode code of a present operand, 0 for an absent one, always within 0..3 |
| SecondRead.GetCmdMemoryWord | secondRead.c:116-127 | an absolute instruction word with the source mode, the destination mode and the opcode |
| SecondRead.GetOpMemoryWord | secondRead.c:130-169 | a register fills only its half of a register word; any other operand holds its value, external exactly for a LABEL naming an external label, absolute exactly for NUMBER and REGISTER |
| SecondRead.IndexNotExternal | secondRead.c:130-169 | an INDEX operand's word is relocatable even when its label is external |
| Assembler.Mask | secondRead.c:253-263 | the masked value lies in [0, 2^14) and differs from the input by a multiple of 2^14: a value already in range is kept, and a negative value down to -2^14 becomes its two's-complement word |
| Assembler.PackedValue | secondRead.c:99 | the payload of a plain word is its value; an instruction word's payload fits in 8 bits and gives back dest, src and opcode from bits 0-1, 2-3 and 4-7; a register word's fits in 6 bits and gives back destBits and srcBits from bits 0-2 and 3-5 |
| SecondRead.CounterAfter | secondRead.c:172-180 | the counter never moves back; it advances by exactly n when that fits, and otherwise stops at MAX_DATA_NUM, or stays where it is if it was already there |
| SecondRead.MaskedData | secondRead.c:257-264 | one value per data value, in order, each reduced by Mask |
| SecondRead.Appended | secondRead.c:172-180 | appending never changes the image size |
| SecondRead.AppendedAt | secondRead.c:172-180 | appending writes the values one per cell from the counter up to the new counter, and no other cell |
| SecondRead.AppendedConcat | secondRead.c:172-180 | appending xs then ys appends xs + ys, and the counters compose |
| SecondRead.AppendedFull | secondRead.c:172-180 | once the counter reaches MAX_DATA_NUM nothing more is written and the counter stays |
| SecondRead.AddWordToMemory | secondRead.c:172-180 | the word is written at the counter when the image is not full, and the counter advances by one, capped |
| SecondRead.AddDataToMemory | secondRead.c:250-271 | the first DC data values, masked to 14 bits, are appended in order until the image is full |
| SecondRead.ResolvedLine | secondRead.c:189-194 | resolution keeps the line number, text, command and both operand modes; the line is marked erroneous exactly when it was already or a resolution failed |
| SecondRead.ShortCircuitResolution | secondRead.c:189-194 | when op1 does not resolve, both operands are left as they were, so a label in op2 is never looked up; otherwise op1 takes its resolved value and op2 its resolved value when it has one; success means both resolved |
| SecondRead.OperandWords | secondRead.c:212-241 | an absent operand takes no word; a present one takes its word, and an INDEX one also an absolute word holding its index |
| SecondRead.PairWord | secondRead.c:199-209 | two register operands share one absolute word, destination from op2 and source from op1 |
| SecondRead.LineWords | secondRead.c:196-243 | the instruction word comes first, then the shared register word or each present operand's words |
| SecondRead.EncodedDecodes | secondRead.c:92-100 | every stored value lies in [0, 2^14), and reads back the era of its word from the two low bits and the payload modulo 2^12 from the bits above |
| SecondRead.ResolveLineOperands | secondRead.c:189-194 | the resolution step returns ResolvedLine |
| SecondRead.Addressed | secondRead.c:212-241 | recording addresses changes nothing but the operands' address fields |
| SecondRead.LineStep | secondRead.c:183-247 | one line keeps the image size; what its outcome means is stated by LineStepCounter, LineStepFlags, SourceAtAddress and DestAtAddress |
| SecondRead.EmitOperand | secondRead.c:212-241 | the operand's address is FIRST_ADDRESS plus the counter before its word, and its words are appended |
| SecondRead.EmitOperands | secondRead.c:212-242 | each present operand records FIRST_ADDRESS plus the counter before its words, and the two operands' words follow the instruction word in order; an absent operand records nothing and takes no word |
| SecondRead.EmitLine | secondRead.c:196-243 | the line's words are appended from the counter, and the addresses are recorded as Addressed |
| SecondRead.AddLineToMemory | secondRead.c:183-247 | the result, the line, the image and the counter are those of LineStep |
| SecondRead.LineStepCounter | secondRead.c:183-247 | the counter moves by the line's size from its modes alone, failed resolution or not: 0 for a skipped line, 2 for a register pair, else 1 plus 2 per INDEX and 1 per other present operand |
| SecondRead.LineStepFlags | secondRead.c:183-247 | the result is false exactly when an instruction line not yet marked erroneous has an operand label that does not resolve; the line comes back marked erroneous exactly when it was or the result is false |
| SecondRead.SourceAtAddress | secondRead.c:212-225 | the image cell at the source operand's recorded address holds its word, and the next cell holds the index word for INDEX |
| SecondRead.DestAtAddress | secondRead.c:228-241 | the same for the destination operand |
| SecondRead.LabelToRegisterWords | secondRead.c:196-243 | `MOV LOOP, r3` takes three words: instruction, LOOP's address (relocatable), and a register word whose source half is 0 |
| SecondRead.LinesStep | secondRead.c:286-293 | the pass keeps the number of lines and the image size and fails on at most every line |
| SecondRead.LinesStepSummary | secondRead.c:286-293 | the pass fails on exactly the failing lines and marks exactly them; the counter advances by the total size of the lines, capped |
| SecondRead.FailingCountZero | secondRead.c:286-293 | no line fails exactly when no line is failing |
| SecondRead.AddLineAt | secondRead.c:286-293 | one turn of the loop: lines 0..i, the image and the counter become those of LinesStep over lines 0..i, the failure count grows by exactly that line's failure, and no other line changes |
| SecondRead.AddLines | secondRead.c:286-293 | the loop leaves the lines, the image and the counter of LinesStep and adds its failures to the error count |
| SecondRead.SecondFileRead | secondRead.c:275-299 | the labels are moved, the lines and image are those of LinesStep from counter 0 followed by the data, and the result is the illegal entries plus the failed lines |
| SecondRead.NoErrorsIffClean | secondRead.c:275-299 | the pass reports no error exactly when every .entry line is legal and every instruction line not already marked erroneous has labels that resolve |

## Left out

- Diagnostics: `printError` messages and the line numbers passed for them are not modelled. `isLegalLabel` and `updateLableOpAddress` return the message they would print as a verdict value instead.
- `getMacroValue`, `getAddressValue` and `getIndexValue` (utility.c:56-72) are plain field reads. They have no logic to state.
- The C locale: `isspace`, `isalpha` and `isalnum` are modelled for ASCII in the "C" locale.
- Utility.TrimStr: for a non-empty string made only of white space, the source's backward walk runs before the start of the string. It stops only at a character that is not white space. The model requires such a character (`Trimmable`) rather than modelling a read before the buffer.
- Utility.GetFirstOperand: the same requirement applies to the text before the first comma. The NULL checks on `endOfOp` and `ptStr` are left out, because every caller passes a real pointer.
- Utility.IsLegalNum: requires numOfBits <= INT_BITS - 2, because `1 << numOfBits` overflows an `int` beyond that.
- `strtol`: locale-specific number formats are left out. `errno` is not set.
- SecondRead.UpdateDataLabelsAddress: `address += IC` is computed on unbounded integers. The `int` overflow it could have for huge tables is not modelled.
- SecondRead.GetNumFromMemoryWord: the bit layout of instruction and register words inside the 12-bit payload is not shown in this code. It is assumed as dest:2 src:2 opcode:4 and destBits:3 srcBits:3, and no lemma depends on it beyond its range.
- The `.entry` lines are pointers into the line array in the source. The model passes them as values, so an update to a line made through one does not reach the other. The second pass does not write the `lineStr` they are compared on.
- SecondRead.AddLineToMemory: requires that a LABEL or INDEX operand it looks up has a name, because `isLegalLabel` reads the name of a label that is not found. A NULL name there is not modelled.
- SecondRead.SecondFileRead: carries the same requirement for every line (`LinesCallable`).
- `strtol` is modelled with a 64-bit `long` and `int` with 32 bits. Other widths are not modelled.
- The memory image is taken to hold at least MAX_DATA_NUM cells, as the caller's array does.
- The first-pass tables (`g_cmdArr`, labels, macros, `.entry` lines, data) are inputs. How they are built is not part of this model.

## Findings

| source | as written | input that shows it | evidently intended | confidence | as-written member | corrected member |
|---|---|---|---|---|---|---|
| utility.c:379 | the parameter is accepted when its first and last characters are `"` | the one-character parameter `"` is accepted and becomes the empty string | accept only text between an opening and a distinct closing quote | not executed | Utility.LoneQuoteAccepted | Utility.StringParam |
| utility.c:413-424 | the `long` from `strtol` is stored in an `int` before the range check | `4294967301` (2^32 + 5) is accepted as 5 for any numOfBits from 3 to 30 | judge the value `strtol` returned, before narrowing | not executed; the narrowing keeps the low 32 bits, as common compilers do | Utility.NarrowedNumAccepted | Utility.LegalNumValue |
