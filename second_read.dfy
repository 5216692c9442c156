/**
 * The second pass of the assembler: it moves the data labels behind the
 * code, checks the .entry declarations, resolves label operands to
 * addresses, and encodes every instruction line, then the data segment,
 * into the memory image `memoryArr`, a buffer of MAX_DATA_NUM words filled
 * through a shared counter.
 *
 * The globals the C code reads and writes (the label table and its count,
 * the .entry lines, the data array, the command table) are parameters here;
 * the label table is an array the pass updates in place. Diagnostics are
 * left out.
 */
module SecondRead {
  import opened CText
  import opened Assembler
  import opened Utility

  // =====================================================================
  // The memory image

  /**
   * The image after the values vs are appended at counter c: each value is
   * written at the next index while the image is not full; the values that
   * do not fit are dropped.
   */
  function Appended(m: seq<int>, c: nat, vs: seq<int>): (r: seq<int>)
    requires |m| >= MAX_DATA_NUM
    ensures |r| == |m|
    decreases |vs|
  {
    if vs == [] || c >= MAX_DATA_NUM then m else Appended(m[c := vs[0]], c + 1, vs[1..])
  }

  /** The counter after n values are appended at c: it stops at MAX_DATA_NUM, and never moves once there. */
  function CounterAfter(c: nat, n: nat): (r: nat)
    ensures c <= r
    ensures c < MAX_DATA_NUM ==> r <= MAX_DATA_NUM
    ensures c + n <= MAX_DATA_NUM ==> r == c + n
    ensures c + n > MAX_DATA_NUM ==> r == if c >= MAX_DATA_NUM then c else MAX_DATA_NUM
  {
    if c >= MAX_DATA_NUM then c else Min(c + n, MAX_DATA_NUM)
  }

  /** Appending writes exactly the cells from c up to the new counter, value by value, and no other cell. */
  lemma {:induction false} AppendedAt(m: seq<int>, c: nat, vs: seq<int>, i: nat)
    requires |m| >= MAX_DATA_NUM && i < |m|
    ensures c <= i < CounterAfter(c, |vs|) ==> i - c < |vs| && Appended(m, c, vs)[i] == vs[i - c]
    ensures !(c <= i < CounterAfter(c, |vs|)) ==> Appended(m, c, vs)[i] == m[i]
    decreases |vs|
  {
    if vs != [] && c < MAX_DATA_NUM {
      AppendedAt(m[c := vs[0]], c + 1, vs[1..], i);
      if c < i < CounterAfter(c, |vs|) {
        assert vs[1..][i - (c + 1)] == vs[i - c];
      }
    }
  }

  /** Appending xs and then ys, from where xs left the counter, appends xs + ys. */
  lemma {:induction false} AppendedConcat(m: seq<int>, c: nat, xs: seq<int>, ys: seq<int>)
    requires |m| >= MAX_DATA_NUM
    ensures Appended(m, c, xs + ys) == Appended(Appended(m, c, xs), CounterAfter(c, |xs|), ys)
    ensures CounterAfter(c, |xs + ys|) == CounterAfter(CounterAfter(c, |xs|), |ys|)
    decreases |xs|
  {
    if xs == [] {
      assert xs + ys == ys;
    } else if c < MAX_DATA_NUM {
      assert (xs + ys)[0] == xs[0] && (xs + ys)[1..] == xs[1..] + ys;
      AppendedConcat(m[c := xs[0]], c + 1, xs[1..], ys);
    }
  }

  /** The image is full: nothing more is written. */
  lemma {:induction false} AppendedFull(m: seq<int>, c: nat, vs: seq<int>)
    requires |m| >= MAX_DATA_NUM && c >= MAX_DATA_NUM
    ensures Appended(m, c, vs) == m && CounterAfter(c, |vs|) == c
  {
  }

  // =====================================================================
  // Machine words

  /** getNumFromMemoryWord: the payload shifted past the two era bits, plus the era, masked to a word. */
  function GetNumFromMemoryWord(memory: MemoryWord): (n: int)
    ensures 0 <= n < WORD_RANGE
  {
    Mask(PackedValue(memory.valueBits) * 4 + EraCode(memory.era))
  }

  /** The era a word's two low bits name, when they name one. */
  function EraOfCode(c: int): Option<Era> {
    if c == 0 then Some(Absolute)
    else if c == 1 then Some(External)
    else if c == 2 then Some(Relocatable)
    else None
  }

  /**
   * A word read back: its two low bits give its era and the bits above
   * them the payload, modulo VALUE_RANGE.
   */
  lemma {:induction false} MemoryWordDecodes(memory: MemoryWord)
    ensures EraOfCode(GetNumFromMemoryWord(memory) % 4) == Some(memory.era)
    ensures GetNumFromMemoryWord(memory) / 4 == PackedValue(memory.valueBits) % VALUE_RANGE
  {
    assert WORD_RANGE == 4 * VALUE_RANGE by {
      Pow2Add(2, MEMORY_WORD_LENGTH - 2);
    }
    ShiftedPayload(PackedValue(memory.valueBits), EraCode(memory.era), VALUE_RANGE, WORD_RANGE);
  }

  /** Two low bits e below a payload v, kept modulo w = 4k: e is the remainder by 4 and v mod k the quotient. */
  lemma {:induction false} ShiftedPayload(v: int, e: int, k: int, w: int)
    requires k > 0 && w == 4 * k && 0 <= e < 4
    ensures (v * 4 + e) % w % 4 == e
    ensures (v * 4 + e) % w / 4 == v % k
  {
    var q := v / k;
    var r := v % k;
    assert v == q * k + r;
    assert v * 4 + e == q * w + (4 * r + e);
    assert 0 <= 4 * r + e < w;
    ModOfMultiple(v * 4 + e, q, w, 4 * r + e);
  }

  /** The remainder of q * w + r by w, for 0 <= r < w, is r. */
  lemma {:induction false} ModOfMultiple(x: int, q: int, w: int, r: int)
    requires w > 0 && 0 <= r < w && x == q * w + r
    ensures x % w == r
  {
    var d := q - x / w;
    assert d * w == x % w - r by {
      assert x == (x / w) * w + x % w;
      assert q * w - (x / w) * w == (q - x / w) * w;
    }
    if d > 0 {
      MulAtLeast(d, w);
    } else if d < 0 {
      MulAtLeast(-d, w);
    }
  }

  lemma {:induction false} MulAtLeast(a: int, w: int)
    requires a >= 1 && w > 0
    ensures a * w >= w
  {
    assert a * w == (a - 1) * w + w;
  }

  // =====================================================================
  // Filling the image

  /** addWordToMemory: while the image is not full, encode the word at the counter and advance it. */
  method AddWordToMemory(memoryArr: array<int>, memoryCounter: nat, memory: MemoryWord) returns (counter: nat)
    requires memoryArr.Length >= MAX_DATA_NUM
    modifies memoryArr
    ensures memoryArr[..] == Appended(old(memoryArr[..]), memoryCounter, [GetNumFromMemoryWord(memory)])
    ensures counter == CounterAfter(memoryCounter, 1)
  {
    counter := memoryCounter;
    if counter < MAX_DATA_NUM {
      memoryArr[counter] := GetNumFromMemoryWord(memory);
      counter := counter + 1;
    }
  }

  /** The data values as the image stores them: each masked to a word. */
  function MaskedData(data: seq<int>): (r: seq<int>)
    ensures |r| == |data|
    ensures forall i :: 0 <= i < |data| ==> r[i] == Mask(data[i])
  {
    seq(|data|, i requires 0 <= i < |data| => Mask(data[i]))
  }

  /** addDataToMemory: append the first DC data values, masked, until the image is full. */
  method AddDataToMemory(memoryArr: array<int>, memoryCounter: nat, dataArr: seq<int>, dc: nat) returns (counter: nat)
    requires memoryArr.Length >= MAX_DATA_NUM && dc <= |dataArr|
    modifies memoryArr
    ensures memoryArr[..] == Appended(old(memoryArr[..]), memoryCounter, MaskedData(dataArr[..dc]))
    ensures counter == CounterAfter(memoryCounter, dc)
  {
    ghost var m0 := memoryArr[..];
    counter := memoryCounter;
    for i := 0 to dc
      invariant memoryArr[..] == Appended(m0, memoryCounter, MaskedData(dataArr[..i]))
      invariant counter == CounterAfter(memoryCounter, i)
    {
      if counter < MAX_DATA_NUM {
        DataStep(m0, memoryCounter, dataArr, i);
        memoryArr[counter] := Mask(dataArr[i]);
        counter := counter + 1;
      } else {
        DataFull(m0, memoryCounter, dataArr, i, dc);
        return;
      }
    }
  }

  /** One more data value appended: the image for the first i + 1 values. */
  lemma {:induction false} DataStep(m0: seq<int>, c0: nat, dataArr: seq<int>, i: nat)
    requires |m0| >= MAX_DATA_NUM && i < |dataArr| && CounterAfter(c0, i) < MAX_DATA_NUM
    ensures Appended(m0, c0, MaskedData(dataArr[..i + 1]))
      == Appended(m0, c0, MaskedData(dataArr[..i]))[CounterAfter(c0, i) := Mask(dataArr[i])]
    ensures CounterAfter(c0, i + 1) == CounterAfter(c0, i) + 1
  {
    AppendedConcat(m0, c0, MaskedData(dataArr[..i]), [Mask(dataArr[i])]);
    assert MaskedData(dataArr[..i]) + [Mask(dataArr[i])] == MaskedData(dataArr[..i + 1]);
  }

  /** Once the image is full, the remaining data values change nothing. */
  lemma {:induction false} DataFull(m0: seq<int>, c0: nat, dataArr: seq<int>, i: nat, dc: nat)
    requires |m0| >= MAX_DATA_NUM && i <= dc <= |dataArr| && CounterAfter(c0, i) >= MAX_DATA_NUM
    ensures Appended(m0, c0, MaskedData(dataArr[..dc])) == Appended(m0, c0, MaskedData(dataArr[..i]))
    ensures CounterAfter(c0, dc) == CounterAfter(c0, i)
  {
    var xs := MaskedData(dataArr[..i]);
    var ys := MaskedData(dataArr[i..dc]);
    assert xs + ys == MaskedData(dataArr[..dc]);
    AppendedConcat(m0, c0, xs, ys);
    AppendedFull(Appended(m0, c0, xs), CounterAfter(c0, i), ys);
  }

  // =====================================================================
  // Labels

  /** A label as updateDataLabelsAddress leaves it: a data label moves on by the instruction count. */
  function ShiftedLabel(info: LabelInfo, ic: int): (r: LabelInfo)
    ensures r.name == info.name && r.isExtern == info.isExtern && r.isData == info.isData
  {
    if info.isData then info.(address := info.address + ic) else info
  }

  /** updateDataLabelsAddress: add IC to the address of every data label among the first labelNum. */
  method UpdateDataLabelsAddress(labels: array<LabelInfo>, labelNum: nat, ic: int)
    requires labelNum <= labels.Length
    modifies labels
    ensures forall i :: 0 <= i < labelNum ==> labels[i] == ShiftedLabel(old(labels[i]), ic)
    ensures forall i :: labelNum <= i < labels.Length ==> labels[i] == old(labels[i])
  {
    for i := 0 to labelNum
      invariant forall j :: 0 <= j < i ==> labels[j] == ShiftedLabel(old(labels[j]), ic)
      invariant forall j :: i <= j < labels.Length ==> labels[j] == old(labels[j])
    {
      if labels[i].isData {
        labels[i] := labels[i].(address := labels[i].address + ic);
      }
    }
  }

  /** The moved table: a data label's address grows by ic, and nothing else changes. */
  lemma {:induction false} ShiftedLabelMoves(info: LabelInfo, ic: int)
    ensures info.isData ==> ShiftedLabel(info, ic).address == info.address + ic
    ensures !info.isData ==> ShiftedLabel(info, ic) == info
    ensures ShiftedLabel(info, ic) == info.(address := ShiftedLabel(info, ic).address)
  {
  }

  /** Moving twice moves by the sum: the pass must move the data labels exactly once. */
  lemma {:induction false} ShiftedTwice(info: LabelInfo, a: int, b: int)
    ensures ShiftedLabel(ShiftedLabel(info, a), b) == ShiftedLabel(info, a + b)
  {
  }

  /** The table with every label moved by ic. */
  function ShiftedLabels(labels: seq<LabelInfo>, ic: int): (r: seq<LabelInfo>)
    ensures |r| == |labels|
    ensures forall i :: 0 <= i < |labels| ==> r[i] == ShiftedLabel(labels[i], ic)
  {
    seq(|labels|, i requires 0 <= i < |labels| => ShiftedLabel(labels[i], ic))
  }

  /** Moving the data labels changes no lookup by name. */
  lemma {:induction false} ShiftedLookup(labels: seq<LabelInfo>, ic: int, name: Option<CStr>)
    ensures FindLabel(ShiftedLabels(labels, ic), name) == FindLabel(labels, name)
    decreases |labels|
  {
    if name.Some? && labels != [] && labels[0].name != name.value {
      assert ShiftedLabels(labels, ic)[1..] == ShiftedLabels(labels[1..], ic);
      ShiftedLookup(labels[1..], ic, name);
    }
  }

  /** An .entry line is illegal when no label has its name, or when the label it names is external. */
  predicate IllegalEntry(labels: seq<LabelInfo>, entry: LineInfo) {
    match FindLabel(labels, Some(entry.lineStr))
    case None => true
    case Some(k) => labels[k].isExtern
  }

  /** The number of illegal lines among entries. */
  function IllegalCount(labels: seq<LabelInfo>, entries: seq<LineInfo>): (n: nat)
    ensures n <= |entries|
  {
    if entries == [] then 0
    else
      IllegalCount(labels, entries[..|entries| - 1]) + (if IllegalEntry(labels, entries[|entries| - 1]) then 1 else 0)
  }

  /** No .entry line is illegal exactly when the count is zero. */
  lemma {:induction false} IllegalCountZero(labels: seq<LabelInfo>, entries: seq<LineInfo>)
    ensures IllegalCount(labels, entries) == 0 ==> forall i :: 0 <= i < |entries| ==> !IllegalEntry(labels, entries[i])
    ensures (forall i :: 0 <= i < |entries| ==> !IllegalEntry(labels, entries[i])) ==> IllegalCount(labels, entries) == 0
    decreases |entries|
  {
    if entries != [] {
      var init := entries[..|entries| - 1];
      IllegalCountZero(labels, init);
      assert forall i :: 0 <= i < |init| ==> init[i] == entries[i];
    }
  }

  /** countIllegalEntries: count the .entry lines whose label is missing or external. */
  method CountIllegalEntries(labels: array<LabelInfo>, labelNum: nat, entryLines: seq<LineInfo>) returns (ret: nat)
    requires labelNum <= labels.Length
    ensures ret == IllegalCount(labels[..labelNum], entryLines)
  {
    ret := 0;
    for i := 0 to |entryLines|
      invariant ret == IllegalCount(labels[..labelNum], entryLines[..i])
    {
      assert entryLines[..i + 1][..i] == entryLines[..i];
      var found := GetLabel(labels, labelNum, Some(entryLines[i].lineStr));
      if found.Some? {
        if labels[found.value].isExtern {
          ret := ret + 1;
        }
      } else {
        ret := ret + 1;
      }
    }
    assert entryLines[..|entryLines|] == entryLines;
  }

  // =====================================================================
  // Operands

  /** The modes whose operand names a label. */
  predicate NamesLabel(op: OperandInfo) {
    op.opType == Label || op.opType == Index
  }

  /**
   * What updateLableOpAddress makes of op: an operand naming a label takes
   * that label's address as its value, and is None when no label has its
   * name; any other operand is kept as it is.
   */
  function Resolved(labels: seq<LabelInfo>, op: OperandInfo): (r: Option<OperandInfo>)
    ensures r.None? ==> NamesLabel(op) && (op.str.None? || forall j :: 0 <= j < |labels| ==> labels[j].name != op.str.value)
    ensures NamesLabel(op) && op.str.Some? && (exists j :: 0 <= j < |labels| && labels[j].name == op.str.value) ==> r.Some?
    ensures r.Some? && NamesLabel(op) ==>
      exists j :: 0 <= j < |labels| && Some(labels[j].name) == op.str && r.value == op.(value := labels[j].address)
    ensures !NamesLabel(op) ==> r == Some(op)
  {
    if NamesLabel(op) then
      match FindLabel(labels, op.str)
      case None => None
      case Some(k) => Some(op.(value := labels[k].address))
    else Some(op)
  }

  /** The message updateLableOpAddress has printed. */
  datatype OpReport = NoReport | NoSuchLabel | IllegalName(verdict: LabelVerdict)

  /** An operand naming a label must have a name: isLegalLabel reads it when the lookup fails. */
  predicate HasName(op: OperandInfo) {
    NamesLabel(op) ==> op.str.Some?
  }

  /**
   * updateLableOpAddress: for a LABEL or INDEX operand, look its name up;
   * when it is missing, report it (through isLegalLabel when the name is
   * not even legal) and fail.
   */
  method UpdateLabelOpAddress(labels: array<LabelInfo>, labelNum: nat, cmds: seq<Command>, op: OperandInfo)
    returns (ok: bool, op': OperandInfo, report: OpReport)
    requires labelNum <= labels.Length && CmdTableTerminated(cmds) && HasName(op)
    ensures ok == Resolved(labels[..labelNum], op).Some?
    ensures op' == Resolved(labels[..labelNum], op).GetOr(op)
    ensures ok ==> report == NoReport
    ensures !ok ==> report == if LabelVerdictOf(op.str.value, cmds) == Legal then NoSuchLabel
                              else IllegalName(LabelVerdictOf(op.str.value, cmds))
  {
    op', report := op, NoReport;
    if op.opType == Label || op.opType == Index {
      var found := GetLabel(labels, labelNum, op.str);
      if found.None? {
        var verdict := IsLegalLabel(op.str.value, cmds);
        report := if verdict == Legal then NoSuchLabel else IllegalName(verdict);
        return false, op', report;
      }
      op' := op.(value := labels[found.value].address);
    }
    return true, op', report;
  }

  // =====================================================================
  // Word builders

  /** getOpTypeId: the code of the operand's mode, 0 for an absent operand. */
  function GetOpTypeId(op: OperandInfo): (id: int)
    ensures 0 <= id <= 3
    ensures op.opType != Invalid ==> id == OpTypeCode(op.opType)
    ensures op.opType == Invalid ==> id == 0
  {
    if op.opType != Invalid then OpTypeCode(op.opType) else 0
  }

  /** getCmdMemoryWord: an absolute word with the source and destination modes and the opcode. */
  function GetCmdMemoryWord(line: LineInfo): (memory: MemoryWord)
    requires line.cmd.Some?
    ensures memory.era == Absolute
    ensures memory.valueBits.CmdBits?
    ensures memory.valueBits.src == GetOpTypeId(line.op1) && memory.valueBits.dest == GetOpTypeId(line.op2)
    ensures memory.valueBits.opcode == line.cmd.value.opcode
  {
    MemoryWord(Absolute, CmdBits(GetOpTypeId(line.op2), GetOpTypeId(line.op1), line.cmd.value.opcode))
  }

  /** The operand names a label of the table that is external. */
  predicate ExternLabel(labels: seq<LabelInfo>, name: Option<CStr>) {
    match FindLabel(labels, name)
    case None => false
    case Some(k) => labels[k].isExtern
  }

  /**
   * getOpMemoryWord: a register operand fills its half of a register word
   * (the other half stays 0); any other operand is a word holding its
   * value, external for a LABEL naming an external label, absolute for a
   * NUMBER and relocatable otherwise.
   */
  function GetOpMemoryWord(labels: seq<LabelInfo>, op: OperandInfo, isDest: bool): (memory: MemoryWord)
    ensures op.opType == Register ==>
      memory == MemoryWord(Absolute, if isDest then RegBits(op.value, 0) else RegBits(0, op.value))
    ensures op.opType != Register ==> memory.valueBits == Value(op.value)
    ensures memory.era == External <==> op.opType == Label && ExternLabel(labels, op.str)
    ensures memory.era == Absolute <==> op.opType == Register || op.opType == Number
  {
    if op.opType == Register then
      MemoryWord(Absolute, if isDest then RegBits(op.value, 0) else RegBits(0, op.value))
    else
      var era := if op.opType == Label && ExternLabel(labels, op.str) then External
                 else if op.opType == Number then Absolute
                 else Relocatable;
      MemoryWord(era, Value(op.value))
  }

  /** An INDEX operand's word is never external, even when its label is. */
  lemma {:induction false} IndexNotExternal(labels: seq<LabelInfo>, op: OperandInfo, isDest: bool)
    requires op.opType == Index
    ensures GetOpMemoryWord(labels, op, isDest).era == Relocatable
  {
  }

  // =====================================================================
  // Lines

  /** The words of an operand: none when it is absent; its word, then for INDEX an absolute word holding the index. */
  function OperandWords(labels: seq<LabelInfo>, op: OperandInfo, isDest: bool): (ws: seq<MemoryWord>)
    ensures |ws| == OperandWordCount(op)
    ensures |ws| > 0 ==> ws[0] == GetOpMemoryWord(labels, op, isDest)
    ensures op.opType == Index ==> ws[1] == MemoryWord(Absolute, Value(op.indexVal))
  {
    if op.opType == Invalid then []
    else if op.opType == Index then [GetOpMemoryWord(labels, op, isDest), MemoryWord(Absolute, Value(op.indexVal))]
    else [GetOpMemoryWord(labels, op, isDest)]
  }

  /** How many words an operand takes: 0 when absent, 2 for INDEX, 1 otherwise. */
  function OperandWordCount(op: OperandInfo): nat {
    match op.opType
    case Invalid => 0
    case Index => 2
    case _ => 1
  }

  /** Both operands are registers: they share one register word. */
  predicate RegisterPair(line: LineInfo) {
    line.op1.opType == Register && line.op2.opType == Register
  }

  /** The register word of a register pair: the destination is op2, the source op1. */
  function PairWord(line: LineInfo): (memory: MemoryWord)
    ensures memory.era == Absolute && memory.valueBits.RegBits?
    ensures memory.valueBits.destBits == line.op2.value && memory.valueBits.srcBits == line.op1.value
  {
    MemoryWord(Absolute, RegBits(line.op2.value, line.op1.value))
  }

  /**
   * The words addLineToMemory emits for a line whose operands are
   * resolved: the instruction word, then one shared register word for a
   * register pair, or else the words of the source and then of the
   * destination operand.
   */
  function LineWords(labels: seq<LabelInfo>, line: LineInfo): (ws: seq<MemoryWord>)
    requires line.cmd.Some?
    ensures |ws| >= 1 && ws[0] == GetCmdMemoryWord(line)
  {
    [GetCmdMemoryWord(line)]
      + if RegisterPair(line) then [PairWord(line)]
        else OperandWords(labels, line.op1, false) + OperandWords(labels, line.op2, true)
  }

  /** Each word as the image stores it. */
  function Encoded(ws: seq<MemoryWord>): (vs: seq<int>)
    ensures |vs| == |ws|
    ensures forall i :: 0 <= i < |ws| ==> vs[i] == GetNumFromMemoryWord(ws[i])
  {
    seq(|ws|, i requires 0 <= i < |ws| => GetNumFromMemoryWord(ws[i]))
  }

  /** Each stored value is a word that reads back its era and its payload, modulo VALUE_RANGE. */
  lemma {:induction false} EncodedDecodes(ws: seq<MemoryWord>)
    ensures forall i :: 0 <= i < |ws| ==>
      0 <= Encoded(ws)[i] < WORD_RANGE
      && EraOfCode(Encoded(ws)[i] % 4) == Some(ws[i].era)
      && Encoded(ws)[i] / 4 == PackedValue(ws[i].valueBits) % VALUE_RANGE
  {
    forall i | 0 <= i < |ws|
      ensures EraOfCode(Encoded(ws)[i] % 4) == Some(ws[i].era)
      ensures Encoded(ws)[i] / 4 == PackedValue(ws[i].valueBits) % VALUE_RANGE
    {
      MemoryWordDecodes(ws[i]);
    }
  }

  lemma {:induction false} EncodedConcat(xs: seq<MemoryWord>, ys: seq<MemoryWord>)
    ensures Encoded(xs + ys) == Encoded(xs) + Encoded(ys)
  {
    assert forall i :: 0 <= i < |xs + ys| ==> Encoded(xs + ys)[i] == (Encoded(xs) + Encoded(ys))[i];
  }

  /**
   * The operand resolution of addLineToMemory: op2 is resolved only when
   * op1 is; a failure marks the line as erroneous. The flag says whether
   * both resolved.
   */
  function ResolvedLine(labels: seq<LabelInfo>, line: LineInfo): (r: (bool, LineInfo))
    ensures r.1.lineNum == line.lineNum && r.1.lineStr == line.lineStr && r.1.cmd == line.cmd
    ensures r.1.op1.opType == line.op1.opType && r.1.op2.opType == line.op2.opType
    ensures r.1.isError <==> line.isError || !r.0
  {
    match Resolved(labels, line.op1)
    case None => (false, line.(isError := true))
    case Some(op1) =>
      match Resolved(labels, line.op2)
      case None => (false, line.(op1 := op1, isError := true))
      case Some(op2) => (true, line.(op1 := op1, op2 := op2))
  }

  /**
   * What resolution leaves in the line's operands. When op1 does not
   * resolve, op2 is never looked up and keeps its first-pass value, even
   * when it names a label; otherwise op1 is resolved and op2 is resolved
   * when it can be. The flag is set exactly when both resolve.
   */
  lemma {:induction false} ShortCircuitResolution(labels: seq<LabelInfo>, line: LineInfo)
    ensures Resolved(labels, line.op1).None? ==>
      ResolvedLine(labels, line).1.op1 == line.op1 && ResolvedLine(labels, line).1.op2 == line.op2
    ensures Resolved(labels, line.op1).Some? ==>
      ResolvedLine(labels, line).1.op1 == Resolved(labels, line.op1).value
      && ResolvedLine(labels, line).1.op2 == Resolved(labels, line.op2).GetOr(line.op2)
    ensures ResolvedLine(labels, line).0 <==> Resolved(labels, line.op1).Some? && Resolved(labels, line.op2).Some?
  {
  }

  /**
   * The line with the address of each present operand recorded: the image
   * address (FIRST_ADDRESS + counter) of the operand's first word, for
   * words emitted from counter c. A register pair records none.
   */
  function Addressed(labels: seq<LabelInfo>, line: LineInfo, c: nat): (r: LineInfo)
    ensures r == line.(op1 := r.op1, op2 := r.op2)
    ensures r.op1 == line.op1.(address := r.op1.address) && r.op2 == line.op2.(address := r.op2.address)
  {
    if RegisterPair(line) then line
    else
      var op1 := if line.op1.opType != Invalid then line.op1.(address := FIRST_ADDRESS + CounterAfter(c, 1)) else line.op1;
      var n1 := OperandWordCount(line.op1);
      var op2 := if line.op2.opType != Invalid then line.op2.(address := FIRST_ADDRESS + CounterAfter(c, 1 + n1)) else line.op2;
      line.(op1 := op1, op2 := op2)
  }

  /** What addLineToMemory returns and leaves behind: its result, the line, the image and the counter. */
  datatype LineOutcome = LineOutcome(ok: bool, line: LineInfo, mem: seq<int>, counter: nat)

  /** addLineToMemory on line, with the image m filled up to counter c. */
  function LineStep(labels: seq<LabelInfo>, line: LineInfo, m: seq<int>, c: nat): (r: LineOutcome)
    requires |m| >= MAX_DATA_NUM
    ensures |r.mem| == |m|
  {
    if line.isError || line.cmd.None? then LineOutcome(true, line, m, c)
    else
      var resolved := ResolvedLine(labels, line);
      var ws := Encoded(LineWords(labels, resolved.1));
      LineOutcome(resolved.0, Addressed(labels, resolved.1, c), Appended(m, c, ws), CounterAfter(c, |ws|))
  }

  /** The operands addLineToMemory looks up have names (isLegalLabel reads the name of one it cannot find). */
  predicate LineCallable(labels: seq<LabelInfo>, line: LineInfo) {
    line.isError || line.cmd.None? || (HasName(line.op1) && (Resolved(labels, line.op1).Some? ==> HasName(line.op2)))
  }

  /** addLineToMemory, first part: resolve the label operands, op2 only when op1 succeeds. */
  method ResolveLineOperands(labels: array<LabelInfo>, labelNum: nat, cmds: seq<Command>, line: LineInfo)
    returns (ok: bool, line': LineInfo)
    requires labelNum <= labels.Length && CmdTableTerminated(cmds)
    requires HasName(line.op1) && (Resolved(labels[..labelNum], line.op1).Some? ==> HasName(line.op2))
    ensures (ok, line') == ResolvedLine(labels[..labelNum], line)
  {
    var ok1, op1, _ := UpdateLabelOpAddress(labels, labelNum, cmds, line.op1);
    line' := line.(op1 := op1);
    ok := ok1;
    if ok1 {
      var ok2, op2, _ := UpdateLabelOpAddress(labels, labelNum, cmds, line.op2);
      line' := line'.(op2 := op2);
      ok := ok2;
    }
    if !ok {
      line' := line'.(isError := true);
    }
  }

  /** One more word appended: the image for ws + [w]. */
  lemma {:induction false} EmitStep(m0: seq<int>, c0: nat, ws: seq<MemoryWord>, w: MemoryWord)
    requires |m0| >= MAX_DATA_NUM
    ensures Appended(Appended(m0, c0, Encoded(ws)), CounterAfter(c0, |ws|), [GetNumFromMemoryWord(w)])
      == Appended(m0, c0, Encoded(ws + [w]))
    ensures CounterAfter(CounterAfter(c0, |ws|), 1) == CounterAfter(c0, |ws + [w]|)
  {
    EncodedConcat(ws, [w]);
    assert Encoded([w]) == [GetNumFromMemoryWord(w)];
    AppendedConcat(m0, c0, Encoded(ws), [GetNumFromMemoryWord(w)]);
  }

  /**
   * addLineToMemory, the words of one operand: record its address, then
   * append its word and, for INDEX, the index word.
   */
  method EmitOperand(memoryArr: array<int>, memoryCounter: nat, labels: seq<LabelInfo>, op: OperandInfo, isDest: bool,
                     ghost m0: seq<int>, ghost c0: nat, ghost ws: seq<MemoryWord>)
    returns (op': OperandInfo, counter: nat)
    requires memoryArr.Length >= MAX_DATA_NUM && |m0| >= MAX_DATA_NUM && op.opType != Invalid
    requires memoryArr[..] == Appended(m0, c0, Encoded(ws)) && memoryCounter == CounterAfter(c0, |ws|)
    modifies memoryArr
    ensures op' == op.(address := FIRST_ADDRESS + memoryCounter)
    ensures memoryArr[..] == Appended(m0, c0, Encoded(ws + OperandWords(labels, op, isDest)))
    ensures counter == CounterAfter(c0, |ws + OperandWords(labels, op, isDest)|)
  {
    op' := op.(address := FIRST_ADDRESS + memoryCounter);
    var w := GetOpMemoryWord(labels, op', isDest);
    assert w == GetOpMemoryWord(labels, op, isDest);
    EmitStep(m0, c0, ws, w);
    counter := AddWordToMemory(memoryArr, memoryCounter, w);
    if op'.opType == Index {
      var x := MemoryWord(Absolute, Value(op'.indexVal));
      EmitStep(m0, c0, ws + [w], x);
      counter := AddWordToMemory(memoryArr, counter, x);
      assert ws + [w] + [x] == ws + OperandWords(labels, op, isDest);
    } else {
      assert ws + [w] == ws + OperandWords(labels, op, isDest);
    }
  }

  /** addLineToMemory, the words after the instruction word when the operands are not a register pair. */
  method EmitOperands(memoryArr: array<int>, memoryCounter: nat, labels: seq<LabelInfo>, line: LineInfo,
                      ghost m0: seq<int>, ghost c0: nat, ghost ws: seq<MemoryWord>)
    returns (line': LineInfo, counter: nat)
    requires memoryArr.Length >= MAX_DATA_NUM && |m0| >= MAX_DATA_NUM && |ws| == 1
    requires memoryArr[..] == Appended(m0, c0, Encoded(ws)) && memoryCounter == CounterAfter(c0, 1)
    modifies memoryArr
    ensures line' == line.(op1 := line'.op1, op2 := line'.op2)
    ensures line'.op1 == (if line.op1.opType != Invalid then line.op1.(address := FIRST_ADDRESS + CounterAfter(c0, 1)) else line.op1)
    ensures line'.op2 == (if line.op2.opType != Invalid
                          then line.op2.(address := FIRST_ADDRESS + CounterAfter(c0, 1 + OperandWordCount(line.op1)))
                          else line.op2)
    ensures memoryArr[..] == Appended(m0, c0, Encoded(ws + OperandWords(labels, line.op1, false) + OperandWords(labels, line.op2, true)))
    ensures counter == CounterAfter(c0, 1 + OperandWordCount(line.op1) + OperandWordCount(line.op2))
  {
    line', counter := line, memoryCounter;
    ghost var ws1 := ws + OperandWords(labels, line.op1, false);
    if line.op1.opType != Invalid {
      var op1: OperandInfo;
      op1, counter := EmitOperand(memoryArr, counter, labels, line.op1, false, m0, c0, ws);
      line' := line'.(op1 := op1);
    } else {
      assert ws1 == ws;
    }
    ghost var ws2 := ws1 + OperandWords(labels, line.op2, true);
    if line.op2.opType != Invalid {
      var op2: OperandInfo;
      op2, counter := EmitOperand(memoryArr, counter, labels, line.op2, true, m0, c0, ws1);
      line' := line'.(op2 := op2);
    } else {
      assert ws2 == ws1;
    }
  }

  /** addLineToMemory, the words of a line whose operands are resolved, from the instruction word on. */
  method EmitLine(memoryArr: array<int>, memoryCounter: nat, labels: seq<LabelInfo>, line: LineInfo)
    returns (line': LineInfo, counter: nat)
    requires memoryArr.Length >= MAX_DATA_NUM && line.cmd.Some?
    modifies memoryArr
    ensures line' == Addressed(labels, line, memoryCounter)
    ensures memoryArr[..] == Appended(old(memoryArr[..]), memoryCounter, Encoded(LineWords(labels, line)))
    ensures counter == CounterAfter(memoryCounter, |LineWords(labels, line)|)
  {
    ghost var m0 := memoryArr[..];
    var cmdWord := GetCmdMemoryWord(line);
    EmitStep(m0, memoryCounter, [], cmdWord);
    assert Appended(m0, memoryCounter, Encoded([])) == m0;
    counter := AddWordToMemory(memoryArr, memoryCounter, cmdWord);
    assert [] + [cmdWord] == [cmdWord];
    if line.op1.opType == Register && line.op2.opType == Register {
      EmitStep(m0, memoryCounter, [cmdWord], PairWord(line));
      counter := AddWordToMemory(memoryArr, counter, PairWord(line));
      line' := line;
      assert [cmdWord] + [PairWord(line)] == LineWords(labels, line);
    } else {
      line', counter := EmitOperands(memoryArr, counter, labels, line, m0, memoryCounter, [cmdWord]);
      assert [cmdWord] + OperandWords(labels, line.op1, false) + OperandWords(labels, line.op2, true)
        == LineWords(labels, line);
    }
  }

  /**
   * addLineToMemory: a line that is not an error and holds an instruction
   * has its label operands resolved and its words appended to the image,
   * even when a label is missing; the result says whether both operands
   * resolved.
   */
  method AddLineToMemory(memoryArr: array<int>, memoryCounter: nat, line: LineInfo,
                         labels: array<LabelInfo>, labelNum: nat, cmds: seq<Command>)
    returns (ok: bool, line': LineInfo, counter: nat)
    requires memoryArr.Length >= MAX_DATA_NUM && labelNum <= labels.Length && CmdTableTerminated(cmds)
    requires LineCallable(labels[..labelNum], line)
    modifies memoryArr
    ensures LineOutcome(ok, line', memoryArr[..], counter)
      == LineStep(labels[..labelNum], line, old(memoryArr[..]), memoryCounter)
  {
    ok, line', counter := true, line, memoryCounter;
    if !line.isError && line.cmd.Some? {
      var resolved: LineInfo;
      ok, resolved := ResolveLineOperands(labels, labelNum, cmds, line);
      line', counter := EmitLine(memoryArr, memoryCounter, labels[..labelNum], resolved);
    }
  }

  // ---------------------------------------------------------------------
  // What one line leaves behind

  /** The size of a line in words, from its operand types alone: none when it is skipped, two for a register pair, else one plus each operand's. */
  function LineWordCount(line: LineInfo): nat {
    if line.isError || line.cmd.None? then 0
    else if RegisterPair(line) then 2
    else 1 + OperandWordCount(line.op1) + OperandWordCount(line.op2)
  }

  /**
   * The counter moves by the size of the line, capped at MAX_DATA_NUM,
   * whether its labels resolve or not; a skipped line changes nothing.
   */
  lemma {:induction false} LineStepCounter(labels: seq<LabelInfo>, line: LineInfo, m: seq<int>, c: nat)
    requires |m| >= MAX_DATA_NUM
    ensures LineStep(labels, line, m, c).counter == CounterAfter(c, LineWordCount(line))
    ensures line.isError || line.cmd.None? ==> LineStep(labels, line, m, c) == LineOutcome(true, line, m, c)
  {
    if !line.isError && line.cmd.Some? {
      var l1 := ResolvedLine(labels, line).1;
      assert |LineWords(labels, l1)| == LineWordCount(line);
    }
  }

  /**
   * The result is false exactly when an instruction line has a label
   * operand that does not resolve (op1's, or else op2's), and the line is
   * marked erroneous exactly when it was already or the result is false.
   */
  lemma {:induction false} LineStepFlags(labels: seq<LabelInfo>, line: LineInfo, m: seq<int>, c: nat)
    requires |m| >= MAX_DATA_NUM
    ensures LineStep(labels, line, m, c).ok <==>
      line.isError || line.cmd.None? || (Resolved(labels, line.op1).Some? && Resolved(labels, line.op2).Some?)
    ensures LineStep(labels, line, m, c).line.isError <==> line.isError || !LineStep(labels, line, m, c).ok
  {
  }

  /** The k-th of the words ws appended at c lands at the counter after the first k, if that is inside the image. */
  lemma {:induction false} WordAt(m: seq<int>, c: nat, ws: seq<MemoryWord>, k: nat)
    requires |m| >= MAX_DATA_NUM && k < |ws|
    ensures CounterAfter(c, k) < MAX_DATA_NUM ==> Appended(m, c, Encoded(ws))[CounterAfter(c, k)] == GetNumFromMemoryWord(ws[k])
  {
    if CounterAfter(c, k) < MAX_DATA_NUM {
      AppendedAt(m, c, Encoded(ws), CounterAfter(c, k));
    }
  }

  /** The words ow appended after the words pre: the first lands at the counter after pre, the second in the next cell. */
  lemma {:induction false} WordsAt(m: seq<int>, c: nat, pre: seq<MemoryWord>, ow: seq<MemoryWord>, post: seq<MemoryWord>)
    requires |m| >= MAX_DATA_NUM && |ow| >= 1
    ensures var a := CounterAfter(c, |pre|);
            a < MAX_DATA_NUM ==> Appended(m, c, Encoded(pre + ow + post))[a] == GetNumFromMemoryWord(ow[0])
    ensures var a := CounterAfter(c, |pre|);
            |ow| >= 2 && a + 1 < MAX_DATA_NUM ==> Appended(m, c, Encoded(pre + ow + post))[a + 1] == GetNumFromMemoryWord(ow[1])
  {
    var ws := pre + ow + post;
    assert ws[|pre|] == ow[0];
    WordAt(m, c, ws, |pre|);
    if |ow| >= 2 {
      assert ws[|pre| + 1] == ow[1];
      WordAt(m, c, ws, |pre| + 1);
    }
  }

  /**
   * The address recorded for a present source operand is where its word
   * lies: FIRST_ADDRESS plus the index of the cell that holds it, when that
   * cell is inside the image; an INDEX operand's index word lies in the
   * next cell. Stated for a line whose operands are resolved, as LineStep
   * emits it.
   */
  lemma {:induction false} SourceAtAddress(labels: seq<LabelInfo>, line: LineInfo, m: seq<int>, c: nat)
    requires |m| >= MAX_DATA_NUM && line.cmd.Some? && !RegisterPair(line) && line.op1.opType != Invalid
    ensures var mem := Appended(m, c, Encoded(LineWords(labels, line)));
            var a := Addressed(labels, line, c).op1.address - FIRST_ADDRESS;
            0 <= a < MAX_DATA_NUM ==> mem[a] == GetNumFromMemoryWord(GetOpMemoryWord(labels, line.op1, false))
    ensures var mem := Appended(m, c, Encoded(LineWords(labels, line)));
            var a := Addressed(labels, line, c).op1.address - FIRST_ADDRESS;
            line.op1.opType == Index && 0 <= a && a + 1 < MAX_DATA_NUM ==>
              mem[a + 1] == GetNumFromMemoryWord(MemoryWord(Absolute, Value(line.op1.indexVal)))
  {
    var pre := [GetCmdMemoryWord(line)];
    var ow := OperandWords(labels, line.op1, false);
    var post := OperandWords(labels, line.op2, true);
    assert LineWords(labels, line) == pre + ow + post;
    WordsAt(m, c, pre, ow, post);
  }

  /** The same for a present destination operand, whose words follow the source operand's. */
  lemma {:induction false} DestAtAddress(labels: seq<LabelInfo>, line: LineInfo, m: seq<int>, c: nat)
    requires |m| >= MAX_DATA_NUM && line.cmd.Some? && !RegisterPair(line) && line.op2.opType != Invalid
    ensures var mem := Appended(m, c, Encoded(LineWords(labels, line)));
            var a := Addressed(labels, line, c).op2.address - FIRST_ADDRESS;
            0 <= a < MAX_DATA_NUM ==> mem[a] == GetNumFromMemoryWord(GetOpMemoryWord(labels, line.op2, true))
    ensures var mem := Appended(m, c, Encoded(LineWords(labels, line)));
            var a := Addressed(labels, line, c).op2.address - FIRST_ADDRESS;
            line.op2.opType == Index && 0 <= a && a + 1 < MAX_DATA_NUM ==>
              mem[a + 1] == GetNumFromMemoryWord(MemoryWord(Absolute, Value(line.op2.indexVal)))
  {
    var pre := [GetCmdMemoryWord(line)] + OperandWords(labels, line.op1, false);
    var ow := OperandWords(labels, line.op2, true);
    assert LineWords(labels, line) == pre + ow + [];
    assert Addressed(labels, line, c).op2.address == FIRST_ADDRESS + CounterAfter(c, |pre|);
    WordsAt(m, c, pre, ow, []);
  }

  /**
   * A LABEL source with a REGISTER destination (`MOV LOOP, r3`) takes three
   * words: the instruction word, the label's address, relocatable unless
   * the label is external, and a register word whose source half is 0.
   */
  lemma {:induction false} LabelToRegisterWords(labels: seq<LabelInfo>, line: LineInfo, k: nat)
    requires line.cmd.Some? && line.op1.opType == Label && line.op2.opType == Register
    requires FindLabel(labels, line.op1.str) == Some(k)
    ensures var l1 := ResolvedLine(labels, line).1;
            LineWords(labels, l1) == [
              GetCmdMemoryWord(line),
              MemoryWord(if labels[k].isExtern then External else Relocatable, Value(labels[k].address)),
              MemoryWord(Absolute, RegBits(line.op2.value, 0))]
  {
    var l1 := ResolvedLine(labels, line).1;
    assert l1.op1 == line.op1.(value := labels[k].address);
    assert l1.op2 == line.op2;
    assert ExternLabel(labels, l1.op1.str) == labels[k].isExtern;
  }

  // =====================================================================
  // The pass

  /** What the line loop of secondFileRead leaves behind: the lines, the image, the counter and the failed lines. */
  datatype PassOutcome = PassOutcome(lines: seq<LineInfo>, mem: seq<int>, counter: nat, failures: nat)

  /** addLineToMemory on each line in turn, from image m and counter c, counting the lines it fails on. */
  function LinesStep(labels: seq<LabelInfo>, lines: seq<LineInfo>, m: seq<int>, c: nat): (r: PassOutcome)
    requires |m| >= MAX_DATA_NUM
    ensures |r.lines| == |lines| && |r.mem| == |m| && r.failures <= |lines|
    decreases |lines|
  {
    if lines == [] then PassOutcome([], m, c, 0)
    else
      var prev := LinesStep(labels, lines[..|lines| - 1], m, c);
      var step := LineStep(labels, lines[|lines| - 1], prev.mem, prev.counter);
      PassOutcome(prev.lines + [step.line], step.mem, step.counter, prev.failures + if step.ok then 0 else 1)
  }

  /** An instruction line not already erroneous whose label operands do not both resolve. */
  predicate FailingLine(labels: seq<LabelInfo>, line: LineInfo) {
    !line.isError && line.cmd.Some? && !(Resolved(labels, line.op1).Some? && Resolved(labels, line.op2).Some?)
  }

  /** The number of failing lines. */
  function FailingCount(labels: seq<LabelInfo>, lines: seq<LineInfo>): (n: nat)
    ensures n <= |lines|
  {
    if lines == [] then 0
    else FailingCount(labels, lines[..|lines| - 1]) + if FailingLine(labels, lines[|lines| - 1]) then 1 else 0
  }

  /** The total size in words of the lines. */
  function TotalWords(lines: seq<LineInfo>): nat {
    if lines == [] then 0 else TotalWords(lines[..|lines| - 1]) + LineWordCount(lines[|lines| - 1])
  }

  lemma {:induction false} CounterAfterAdd(c: nat, a: nat, b: nat)
    ensures CounterAfter(CounterAfter(c, a), b) == CounterAfter(c, a + b)
  {
  }

  /**
   * The pass fails on exactly the failing lines, marks exactly them as
   * erroneous and leaves the other lines' flags as they were, and moves the
   * counter by the total size of the lines, capped at MAX_DATA_NUM.
   */
  lemma {:induction false} LinesStepSummary(labels: seq<LabelInfo>, lines: seq<LineInfo>, m: seq<int>, c: nat)
    requires |m| >= MAX_DATA_NUM
    ensures LinesStep(labels, lines, m, c).failures == FailingCount(labels, lines)
    ensures forall i :: 0 <= i < |lines| ==>
      (LinesStep(labels, lines, m, c).lines[i].isError <==> lines[i].isError || FailingLine(labels, lines[i]))
    ensures LinesStep(labels, lines, m, c).counter == CounterAfter(c, TotalWords(lines))
    decreases |lines|
  {
    if lines != [] {
      var init := lines[..|lines| - 1];
      var last := lines[|lines| - 1];
      var prev := LinesStep(labels, init, m, c);
      LinesStepSummary(labels, init, m, c);
      LineStepFlags(labels, last, prev.mem, prev.counter);
      LineStepCounter(labels, last, prev.mem, prev.counter);
      CounterAfterAdd(c, TotalWords(init), LineWordCount(last));
      var r := LinesStep(labels, lines, m, c);
      forall i | 0 <= i < |lines|
        ensures r.lines[i].isError <==> lines[i].isError || FailingLine(labels, lines[i])
      {
        if i < |lines| - 1 {
          assert r.lines[i] == prev.lines[i] && lines[i] == init[i];
        }
      }
    }
  }

  /** No line fails exactly when no line is failing. */
  lemma {:induction false} FailingCountZero(labels: seq<LabelInfo>, lines: seq<LineInfo>)
    ensures FailingCount(labels, lines) == 0 <==> forall i :: 0 <= i < |lines| ==> !FailingLine(labels, lines[i])
    decreases |lines|
  {
    if lines != [] {
      var init := lines[..|lines| - 1];
      FailingCountZero(labels, init);
      if FailingCount(labels, lines) == 0 {
        forall i | 0 <= i < |lines| ensures !FailingLine(labels, lines[i]) {
          if i < |lines| - 1 {
            assert lines[i] == init[i];
          }
        }
      } else if !FailingLine(labels, lines[|lines| - 1]) {
        var i :| 0 <= i < |init| && FailingLine(labels, init[i]);
        assert lines[i] == init[i];
      }
    }
  }

  /** The pass over the first i + 1 lines is the pass over the first i, then line i. */
  lemma {:induction false} LinesStepLast(labels: seq<LabelInfo>, lines: seq<LineInfo>, m: seq<int>, c: nat, i: nat)
    requires |m| >= MAX_DATA_NUM && i < |lines|
    ensures var prev := LinesStep(labels, lines[..i], m, c);
            var step := LineStep(labels, lines[i], prev.mem, prev.counter);
            LinesStep(labels, lines[..i + 1], m, c)
              == PassOutcome(prev.lines + [step.line], step.mem, step.counter, prev.failures + if step.ok then 0 else 1)
  {
    assert lines[..i + 1][..i] == lines[..i] && lines[..i + 1][i] == lines[i];
  }

  /** The lines secondFileRead may hand to addLineToMemory, against the moved label table. */
  predicate LinesCallable(labels: seq<LabelInfo>, lines: seq<LineInfo>) {
    forall i :: 0 <= i < |lines| ==> LineCallable(labels, lines[i])
  }

  /** One turn of the line loop of secondFileRead: line i is added to the image and stored back. */
  method AddLineAt(memoryArr: array<int>, linesArr: array<LineInfo>, i: nat, memoryCounter: nat,
                   labels: array<LabelInfo>, labelNum: nat, cmds: seq<Command>,
                   ghost lines0: seq<LineInfo>, ghost m0: seq<int>, ghost failures: nat)
    returns (ok: bool, counter: nat)
    requires memoryArr.Length >= MAX_DATA_NUM && |m0| >= MAX_DATA_NUM && i < |lines0| && i < linesArr.Length
    requires labelNum <= labels.Length && CmdTableTerminated(cmds) && LineCallable(labels[..labelNum], lines0[i])
    requires linesArr[i] == lines0[i]
    requires LinesStep(labels[..labelNum], lines0[..i], m0, 0)
      == PassOutcome(linesArr[..i], memoryArr[..], memoryCounter, failures)
    modifies memoryArr, linesArr
    ensures LinesStep(labels[..labelNum], lines0[..i + 1], m0, 0)
      == PassOutcome(linesArr[..i + 1], memoryArr[..], counter, failures + if ok then 0 else 1)
    ensures forall j :: 0 <= j < linesArr.Length && j != i ==> linesArr[j] == old(linesArr[j])
  {
    ghost var done := linesArr[..i];
    ghost var step := LineStep(labels[..labelNum], lines0[i], memoryArr[..], memoryCounter);
    LinesStepLast(labels[..labelNum], lines0, m0, 0, i);
    var line';
    ok, line', counter := AddLineToMemory(memoryArr, memoryCounter, linesArr[i], labels, labelNum, cmds);
    assert LineOutcome(ok, line', memoryArr[..], counter) == step;
    linesArr[i] := line';
    assert linesArr[..i + 1] == done + [line'];
  }

  /** The line loop of secondFileRead: each line is added to the image in turn, and each failure counts as an error. */
  method AddLines(memoryArr: array<int>, linesArr: array<LineInfo>, lineNum: nat,
                  labels: array<LabelInfo>, labelNum: nat, cmds: seq<Command>, errorsFound0: nat)
    returns (errorsFound: nat, memoryCounter: nat)
    requires memoryArr.Length >= MAX_DATA_NUM && lineNum <= linesArr.Length && labelNum <= labels.Length
    requires CmdTableTerminated(cmds) && LinesCallable(labels[..labelNum], linesArr[..lineNum])
    modifies memoryArr, linesArr
    ensures var pass := LinesStep(labels[..labelNum], old(linesArr[..lineNum]), old(memoryArr[..]), 0);
            linesArr[..lineNum] == pass.lines && memoryArr[..] == pass.mem && memoryCounter == pass.counter
            && errorsFound == errorsFound0 + pass.failures
    ensures linesArr[lineNum..] == old(linesArr[lineNum..])
  {
    ghost var lines0 := linesArr[..lineNum];
    ghost var m0 := memoryArr[..];
    errorsFound, memoryCounter := errorsFound0, 0;
    ghost var failures := 0;
    for i := 0 to lineNum
      invariant forall j :: i <= j < linesArr.Length ==> linesArr[j] == old(linesArr[j])
      invariant LinesStep(labels[..labelNum], lines0[..i], m0, 0)
        == PassOutcome(linesArr[..i], memoryArr[..], memoryCounter, failures)
      invariant errorsFound == errorsFound0 + failures
    {
      assert LineCallable(labels[..labelNum], lines0[i]);
      var ok;
      ok, memoryCounter := AddLineAt(memoryArr, linesArr, i, memoryCounter, labels, labelNum, cmds, lines0, m0, failures);
      if !ok {
        errorsFound := errorsFound + 1;
        failures := failures + 1;
      }
    }
    assert lines0[..lineNum] == lines0;
    assert linesArr[lineNum..] == old(linesArr[lineNum..]);
  }

  /**
   * secondFileRead: move the data labels past the code, count the illegal
   * .entry lines, add each line to the image from counter 0, then append
   * the data; the result is the number of illegal entries plus the number
   * of lines that failed.
   */
  method SecondFileRead(memoryArr: array<int>, linesArr: array<LineInfo>, lineNum: nat, ic: int, dc: nat,
                        labels: array<LabelInfo>, labelNum: nat, entryLines: seq<LineInfo>,
                        dataArr: seq<int>, cmds: seq<Command>)
    returns (errorsFound: nat)
    requires memoryArr.Length >= MAX_DATA_NUM && lineNum <= linesArr.Length && labelNum <= labels.Length
    requires dc <= |dataArr| && CmdTableTerminated(cmds)
    requires LinesCallable(ShiftedLabels(labels[..labelNum], ic), linesArr[..lineNum])
    modifies memoryArr, linesArr, labels
    ensures labels[..labelNum] == ShiftedLabels(old(labels[..labelNum]), ic)
    ensures labels[labelNum..] == old(labels[labelNum..])
    ensures var pass := LinesStep(labels[..labelNum], old(linesArr[..lineNum]), old(memoryArr[..]), 0);
            linesArr[..lineNum] == pass.lines
            && memoryArr[..] == Appended(pass.mem, pass.counter, MaskedData(dataArr[..dc]))
            && errorsFound == IllegalCount(labels[..labelNum], entryLines) + pass.failures
    ensures linesArr[lineNum..] == old(linesArr[lineNum..])
  {
    UpdateDataLabelsAddress(labels, labelNum, ic);
    assert labels[labelNum..] == old(labels[labelNum..]);
    assert labels[..labelNum] == ShiftedLabels(old(labels[..labelNum]), ic);
    errorsFound := CountIllegalEntries(labels, labelNum, entryLines);
    var memoryCounter;
    errorsFound, memoryCounter := AddLines(memoryArr, linesArr, lineNum, labels, labelNum, cmds, errorsFound);
    memoryCounter := AddDataToMemory(memoryArr, memoryCounter, dataArr, dc);
  }

  /**
   * secondFileRead reports no error exactly when every .entry line names a
   * label of the table that is not external and every instruction line's
   * label operands resolve.
   */
  lemma {:induction false} NoErrorsIffClean(labels: seq<LabelInfo>, entries: seq<LineInfo>, lines: seq<LineInfo>, m: seq<int>)
    requires |m| >= MAX_DATA_NUM
    ensures IllegalCount(labels, entries) + LinesStep(labels, lines, m, 0).failures == 0 ==>
      (forall i :: 0 <= i < |entries| ==> !IllegalEntry(labels, entries[i]))
      && (forall i :: 0 <= i < |lines| ==> !FailingLine(labels, lines[i]))
    ensures ((forall i :: 0 <= i < |entries| ==> !IllegalEntry(labels, entries[i]))
             && (forall i :: 0 <= i < |lines| ==> !FailingLine(labels, lines[i])))
            ==> IllegalCount(labels, entries) + LinesStep(labels, lines, m, 0).failures == 0
  {
    IllegalCountZero(labels, entries);
    LinesStepSummary(labels, lines, m, 0);
    FailingCountZero(labels, lines);
  }
}
