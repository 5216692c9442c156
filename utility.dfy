/**
 * The parsing helpers of the assembler: table lookups (labels, macros,
 * commands, .entry records), classification of names and lines, and the
 * in-place string surgery that splits a source line into tokens and
 * operands.
 *
 * The global tables the C code reads (the label array and its count, the
 * macro array and its count, the .entry records, the command table) are
 * parameters here. Diagnostics printed through printError are left out;
 * where the choice of message is the point, it is returned as a value.
 */
module Utility {
  import opened CText
  import opened CNumber
  import opened Assembler

  // =====================================================================
  // Lookups

  /** The index of the first label named `name`, or None (also for a NULL name). */
  function FindLabel(labels: seq<LabelInfo>, name: Option<CStr>): (r: Option<nat>)
    ensures r.Some? ==> name.Some? && r.value < |labels| && labels[r.value].name == name.value
    ensures r.Some? ==> forall j :: 0 <= j < r.value ==> labels[j].name != name.value
    ensures r.None? ==> name.None? || forall j :: 0 <= j < |labels| ==> labels[j].name != name.value
  {
    if name.None? || labels == [] then None
    else if labels[0].name == name.value then Some(0)
    else match FindLabel(labels[1..], name)
      case None => None
      case Some(k) => Some(k + 1)
  }

  /** getLabel: the first of the labelNum labels named labelName, as an index into the table. */
  method GetLabel(labels: array<LabelInfo>, labelNum: nat, labelName: Option<CStr>) returns (found: Option<nat>)
    requires labelNum <= labels.Length
    ensures found == FindLabel(labels[..labelNum], labelName)
  {
    if labelName.Some? {
      for i := 0 to labelNum
        invariant forall j :: 0 <= j < i ==> labels[j].name != labelName.value
      {
        if labelName.value == labels[i].name {
          return Some(i);
        }
      }
    }
    return None;
  }

  /** The index of the first macro named `name`, or None (also for a NULL name). */
  function FindMacro(macros: seq<Macro>, name: Option<CStr>): (r: Option<nat>)
    ensures r.Some? ==> name.Some? && r.value < |macros| && macros[r.value].name == name.value
    ensures r.Some? ==> forall j :: 0 <= j < r.value ==> macros[j].name != name.value
    ensures r.None? ==> name.None? || forall j :: 0 <= j < |macros| ==> macros[j].name != name.value
  {
    if name.None? || macros == [] then None
    else if macros[0].name == name.value then Some(0)
    else match FindMacro(macros[1..], name)
      case None => None
      case Some(k) => Some(k + 1)
  }

  /** getMacro: the first of the macroArrInd macros named macroName, as an index into the table. */
  method GetMacro(macros: array<Macro>, macroArrInd: nat, macroName: Option<CStr>) returns (mac: Option<nat>)
    requires macroArrInd <= macros.Length
    ensures mac == FindMacro(macros[..macroArrInd], macroName)
  {
    if macroName.Some? {
      for i := 0 to macroArrInd
        invariant forall j :: 0 <= j < i ==> macros[j].name != macroName.value
      {
        if macroName.value == macros[i].name {
          return Some(i);
        }
      }
    }
    return None;
  }

  method IsExistingLabel(labels: array<LabelInfo>, labelNum: nat, labelName: Option<CStr>) returns (r: bool)
    requires labelNum <= labels.Length
    ensures r <==> labelName.Some? && exists j :: 0 <= j < labelNum && labels[j].name == labelName.value
  {
    var found := GetLabel(labels, labelNum, labelName);
    if found.Some? {
      assert labels[..labelNum][found.value] == labels[found.value];
    }
    r := found.Some?;
  }

  method IsExistingMacro(macros: array<Macro>, macroArrInd: nat, mac: Option<CStr>) returns (r: bool)
    requires macroArrInd <= macros.Length
    ensures r <==> mac.Some? && exists j :: 0 <= j < macroArrInd && macros[j].name == mac.value
  {
    var found := GetMacro(macros, macroArrInd, mac);
    if found.Some? {
      assert macros[..macroArrInd][found.value] == macros[found.value];
    }
    r := found.Some?;
  }

  /** isExistingEntryLabel: some recorded .entry line already names labelName. */
  method IsExistingEntryLabel(entryLines: seq<LineInfo>, labelName: Option<CStr>) returns (r: bool)
    ensures r <==> labelName.Some? && exists j :: 0 <= j < |entryLines| && entryLines[j].lineStr == labelName.value
  {
    if labelName.Some? {
      for i := 0 to |entryLines|
        invariant forall j :: 0 <= j < i ==> entryLines[j].lineStr != labelName.value
      {
        if labelName.value == entryLines[i].lineStr {
          return true;
        }
      }
    }
    return false;
  }

  // =====================================================================
  // The command table

  /** The command table ends at an entry without a name. */
  predicate CmdTableTerminated(cmds: seq<Command>) {
    exists i :: 0 <= i < |cmds| && cmds[i].name.None?
  }

  lemma {:induction false} CmdTableTail(cmds: seq<Command>)
    requires CmdTableTerminated(cmds) && cmds[0].name.Some?
    ensures CmdTableTerminated(cmds[1..])
  {
    var i :| 0 <= i < |cmds| && cmds[i].name.None?;
    assert cmds[1..][i - 1] == cmds[i];
  }

  /** The number of commands: the index of the terminating entry. */
  function CmdCount(cmds: seq<Command>): (n: nat)
    requires CmdTableTerminated(cmds)
    ensures n < |cmds| && cmds[n].name.None?
    ensures forall j :: 0 <= j < n ==> cmds[j].name.Some?
  {
    if cmds[0].name.None? then 0
    else
      CmdTableTail(cmds);
      1 + CmdCount(cmds[1..])
  }

  /** The id of the first command named `name`, or -1 when no command before the terminator has it. */
  function CmdIndex(cmds: seq<Command>, name: CStr): (r: int)
    requires CmdTableTerminated(cmds)
    ensures -1 <= r < CmdCount(cmds)
    ensures r >= 0 ==> cmds[r].name == Some(name) && forall j :: 0 <= j < r ==> cmds[j].name != Some(name)
    ensures r == -1 ==> forall j :: 0 <= j < CmdCount(cmds) ==> cmds[j].name != Some(name)
  {
    if cmds[0].name.None? then -1
    else if cmds[0].name == Some(name) then 0
    else
      CmdTableTail(cmds);
      var k := CmdIndex(cmds[1..], name);
      if k == -1 then -1 else k + 1
  }

  /** getCmdId: walk the table up to its terminator. */
  method GetCmdId(cmds: seq<Command>, cmdName: CStr) returns (id: int)
    requires CmdTableTerminated(cmds)
    ensures id == CmdIndex(cmds, cmdName)
  {
    var i := 0;
    while cmds[i].name.Some?
      invariant 0 <= i <= CmdCount(cmds)
      invariant forall j :: 0 <= j < i ==> cmds[j].name != Some(cmdName)
      decreases CmdCount(cmds) - i
    {
      if cmdName == cmds[i].name.value {
        return i;
      }
      i := i + 1;
    }
    return -1;
  }

  // =====================================================================
  // Names

  /** The name of register d: `r` followed by the digit d. */
  function RegisterName(d: nat): CStr
    requires d <= MAX_REGISTER_DIGIT
  {
    ['r', ('0' as int + d) as char]
  }

  /** isRegister: `r`, one digit no larger than MAX_REGISTER_DIGIT, and nothing more. */
  function IsRegister(str: CStr): (r: bool)
    ensures r <==> |str| == 2 && str[0] == 'r' && IsDigit(str[1]) && str[1] as int - '0' as int <= MAX_REGISTER_DIGIT
  {
    At(str, 0) == 'r' && At(str, 1) >= '0' && At(str, 1) as int - '0' as int <= MAX_REGISTER_DIGIT
    && At(str, 2) == NUL
  }

  /** The number isRegister stores through `value`. */
  function RegisterValue(str: CStr): (d: nat)
    requires IsRegister(str)
    ensures d <= MAX_REGISTER_DIGIT && RegisterName(d) == str
  {
    str[1] as int - '0' as int
  }

  /** The register names are exactly r0 .. r<MAX_REGISTER_DIGIT>. */
  lemma {:induction false} IsRegisterIff(str: CStr)
    ensures IsRegister(str) <==> exists d: nat :: d <= MAX_REGISTER_DIGIT && str == RegisterName(d)
  {
    if IsRegister(str) {
      var d := RegisterValue(str);
      assert str == RegisterName(d);
    }
  }

  /** isDirective: `.` then `d`, `s` or `e`, and the third character is not `e`. */
  function IsDirective(cmd: CStr): (r: bool)
    ensures r <==> |cmd| >= 2 && cmd[0] == '.' && cmd[1] in "dse" && (|cmd| == 2 || cmd[2] != 'e')
  {
    At(cmd, 0) == '.' && (At(cmd, 1) == 'd' || At(cmd, 1) == 's' || At(cmd, 1) == 'e') && At(cmd, 2) != 'e'
  }

  /** isMacro: the text starts with `.de`. */
  function IsMacro(cmd: CStr): (r: bool)
    ensures r <==> |cmd| >= 3 && cmd[..3] == ".de"
  {
    At(cmd, 0) == '.' && At(cmd, 1) == 'd' && At(cmd, 2) == 'e'
  }

  /** A word is never both a directive and a macro definition. */
  lemma {:induction false} DirectiveIsNotMacro(cmd: CStr)
    ensures !(IsDirective(cmd) && IsMacro(cmd))
  {
    if IsMacro(cmd) {
      assert cmd[2] == cmd[..3][2];
    }
  }

  /** Why isLegalLabel rejects a name, in the order its checks run; Legal when none fails. */
  datatype LabelVerdict =
    | Legal
    | TooLong
    | EmptyName
    | NotAtLineStart
    | NotAlphanumeric
    | FirstNotLetter
    | NamesRegister
    | NamesCommand

  /** The first failing check of isLegalLabel on labelStr. */
  function LabelVerdictOf(labelStr: CStr, cmds: seq<Command>): (v: LabelVerdict)
    requires CmdTableTerminated(cmds)
    ensures v == Legal <==>
      && 1 <= |labelStr| <= MAX_LABEL_LENGTH
      && IsAlpha(labelStr[0])
      && (forall i :: 1 <= i < |labelStr| ==> IsAlnum(labelStr[i]))
      && !(exists d: nat :: d <= MAX_REGISTER_DIGIT && labelStr == RegisterName(d))
      && forall j :: 0 <= j < CmdCount(cmds) ==> cmds[j].name != Some(labelStr)
  {
    IsRegisterIff(labelStr);
    if |labelStr| > MAX_LABEL_LENGTH then TooLong
    else if labelStr == [] then EmptyName
    else if IsSpace(labelStr[0]) then NotAtLineStart
    else if exists i :: 1 <= i < |labelStr| && !IsAlnum(labelStr[i]) then NotAlphanumeric
    else if !IsAlpha(labelStr[0]) then FirstNotLetter
    else if IsRegister(labelStr) then NamesRegister
    else if CmdIndex(cmds, labelStr) != -1 then NamesCommand
    else Legal
  }

  /** isLegalLabel, with the message it would print returned as the verdict. */
  method IsLegalLabel(labelStr: CStr, cmds: seq<Command>) returns (verdict: LabelVerdict)
    requires CmdTableTerminated(cmds)
    ensures verdict == LabelVerdictOf(labelStr, cmds)
  {
    var labelLength := |labelStr|;
    if labelLength > MAX_LABEL_LENGTH {
      return TooLong;
    }
    if At(labelStr, 0) == NUL {
      return EmptyName;
    }
    if IsSpace(labelStr[0]) {
      return NotAtLineStart;
    }
    for i := 1 to labelLength
      invariant forall j :: 1 <= j < i ==> IsAlnum(labelStr[j])
    {
      if !IsAlnum(labelStr[i]) {
        return NotAlphanumeric;
      }
    }
    if !IsAlpha(labelStr[0]) {
      return FirstNotLetter;
    }
    if IsRegister(labelStr) {
      return NamesRegister;
    }
    var id := GetCmdId(cmds, labelStr);
    if id != -1 {
      return NamesCommand;
    }
    return Legal;
  }

  // =====================================================================
  // Blanks and words

  /** isWhiteSpaces: every character up to the terminator is white space. */
  method IsWhiteSpaces(str: CStr) returns (r: bool)
    ensures r <==> IsBlank(str)
  {
    var i := 0;
    while At(str, i) != NUL
      invariant 0 <= i <= |str|
      invariant forall j :: 0 <= j < i ==> IsSpace(str[j])
      decreases |str| - i
    {
      if !IsSpace(str[i]) {
        return false;
      }
      i := i + 1;
    }
    return true;
  }

  /** t holds at most one word: white space that follows text is followed only by white space. */
  ghost predicate SingleWord(t: seq<char>) {
    forall j :: 0 <= j < |t| && IsSpace(t[j]) && !IsBlank(t[..j]) ==> IsBlank(t[j..])
  }

  /** One word, padded: after the leading blanks and the first word only blanks remain. */
  lemma {:induction false} SingleWordIff(t: seq<char>, b: nat)
    requires b == WordEnd(t, LeadingBlanks(t))
    ensures b <= |t| && (SingleWord(t) <==> IsBlank(t[b..]))
  {
    var lead := LeadingBlanks(t);
    if IsBlank(t[b..]) {
      forall j | 0 <= j < |t| && IsSpace(t[j]) && !IsBlank(t[..j]) ensures IsBlank(t[j..]) {
        var i :| 0 <= i < j && !IsSpace(t[..j][i]);
        assert !IsSpace(t[i]);
        assert j >= b;
        forall k | 0 <= k < |t[j..]| ensures IsSpace(t[j..][k]) {
          assert t[j..][k] == t[b..][j - b + k];
        }
      }
    } else {
      var k :| 0 <= k < |t[b..]| && !IsSpace(t[b..][k]);
      assert !IsSpace(t[b + k]);
      assert lead < b && !IsSpace(t[lead]) && IsSpace(t[b]);
      assert t[..b][lead] == t[lead];
      assert t[b..][k] == t[b..][b - b + k];
    }
  }

  /** isOneWord: skip the leading blanks and the first word; the rest must be blank. */
  method IsOneWord(str: CStr) returns (r: bool)
    ensures r <==> SingleWord(str)
  {
    StrOfContent(str);
    var p := TrimLeftStr(str + [NUL], 0);
    ghost var lead := p;
    assert lead == LeadingBlanks(str);
    p := SkipWord(str + [NUL], 0, p, lead);
    SingleWordIff(str, p);
    CStrDrop(str, p);
    r := IsWhiteSpaces(str[p..]);
  }

  // =====================================================================
  // Pointer walks over a buffer. A C string pointer is an index into the
  // buffer; a pointer moved by the callee (`char **`) is returned.

  /** trimLeftStr: move the pointer past the leading white space. */
  method TrimLeftStr(s: seq<char>, p: nat) returns (q: nat)
    requires Terminated(s, p)
    ensures q == p + LeadingBlanks(Str(s, p))
    ensures Terminated(s, q) && q + StrLen(s, q) == p + StrLen(s, p)
    ensures q < p + StrLen(s, p) ==> !IsSpace(s[q])
  {
    q := p;
    while IsSpace(s[q])
      invariant p <= q <= p + StrLen(s, p)
      invariant forall i :: p <= i < q ==> IsSpace(s[i])
      decreases p + StrLen(s, p) - q
    {
      q := q + 1;
    }
    LeadingBlanksIs(Str(s, p), q - p);
    StrSuffix(s, p, q - p);
  }

  /**
   * The loop of getFirstTok and isOneWord that moves past a word: up to the
   * next white space or the terminator. p lies k characters into the string
   * at p0.
   */
  method SkipWord(s: seq<char>, p0: nat, p: nat, ghost k: nat) returns (q: nat)
    requires Terminated(s, p0) && p == p0 + k && k <= StrLen(s, p0)
    ensures q == p0 + WordEnd(Str(s, p0), k)
    ensures s[q] != NUL ==> q < p0 + StrLen(s, p0)
    ensures s[q] == NUL ==> q == p0 + StrLen(s, p0)
  {
    q := p;
    while s[q] != NUL && !IsSpace(s[q])
      invariant p <= q <= p0 + StrLen(s, p0)
      invariant forall i :: p <= i < q ==> !IsSpace(s[i])
      decreases p0 + StrLen(s, p0) - q
    {
      q := q + 1;
    }
    WordEndFound(s, p0, p, q, k);
  }

  /** Where the loop of SkipWord stops, the word that starts k characters into the string at p0 ends. */
  lemma {:induction false} WordEndFound(s: seq<char>, p0: nat, p: nat, q: nat, k: nat)
    requires Terminated(s, p0) && p == p0 + k && p <= q <= p0 + StrLen(s, p0)
    requires forall i :: p <= i < q ==> !IsSpace(s[i])
    requires s[q] == NUL || IsSpace(s[q])
    ensures q == p0 + WordEnd(Str(s, p0), k)
    ensures s[q] != NUL ==> q < p0 + StrLen(s, p0)
    ensures s[q] == NUL ==> q == p0 + StrLen(s, p0)
  {
    var t := Str(s, p0);
    forall i | k <= i < q - p0 ensures !IsSpace(t[i]) {
      assert t[i] == s[p0 + i];
    }
    if q < p0 + |t| {
      assert t[q - p0] == s[q];
    }
    WordEndIs(t, k, q - p0);
  }

  /**
   * The buffer getFirstTok leaves: a NUL replaces the white space that ends
   * the first word of the string at str, if white space ends it.
   */
  function TokBuffer(s: seq<char>, str: nat): (s1: seq<char>)
    requires Terminated(s, str)
    ensures |s1| == |s|
  {
    var t := Str(s, str);
    var w := WordEnd(t, LeadingBlanks(t));
    if w < |t| then s[str + w := NUL] else s
  }

  /** Where getFirstTok leaves its end pointer, as an offset into t: past the separator after the first word, if any. */
  function NextTok(t: seq<char>): (k: nat)
    ensures k <= |t|
  {
    var w := WordEnd(t, LeadingBlanks(t));
    if w < |t| then w + 1 else w
  }

  /**
   * getFirstTok: skip the leading white space, then the first word, and end
   * the word with a NUL when white space follows it. Returns the start of
   * the word and the pointer just past it (past the new NUL, if one was
   * written).
   */
  method GetFirstTok(buf: array<char>, str: nat) returns (tokStart: nat, endOfTok: nat)
    requires Terminated(buf[..], str)
    modifies buf
    ensures tokStart == str + LeadingBlanks(old(Str(buf[..], str)))
    ensures endOfTok == str + NextTok(old(Str(buf[..], str)))
    ensures buf[..] == TokBuffer(old(buf[..]), str)
  {
    var s0 := buf[..];
    ghost var t := Str(s0, str);
    tokStart := TrimLeftStr(s0, str);
    var tokEnd := SkipWord(s0, str, tokStart, LeadingBlanks(t));
    if s0[tokEnd] != NUL {
      buf[tokEnd] := NUL;
      tokEnd := tokEnd + 1;
    }
    endOfTok := tokEnd;
  }

  /** After getFirstTok, its two pointers reach the first word and what follows its separator. */
  lemma {:induction false} FirstTokHeld(s0: seq<char>, str: nat)
    requires Terminated(s0, str)
    ensures Terminated(TokBuffer(s0, str), str + LeadingBlanks(Str(s0, str)))
    ensures Str(TokBuffer(s0, str), str + LeadingBlanks(Str(s0, str))) == FirstWord(Str(s0, str))
    ensures Terminated(TokBuffer(s0, str), str + NextTok(Str(s0, str)))
    ensures Str(TokBuffer(s0, str), str + NextTok(Str(s0, str))) == AfterWord(Str(s0, str))
  {
    var t := Str(s0, str);
    var tokStart := str + LeadingBlanks(t);
    var w := WordEnd(t, LeadingBlanks(t));
    if w < |t| {
      FirstTokSplit(s0, str, tokStart, w);
    } else {
      FirstTokWhole(s0, str, tokStart, w);
    }
  }

  /** FirstTokHeld when the first word runs to the terminator. */
  lemma {:induction false} FirstTokWhole(s0: seq<char>, str: nat, tokStart: nat, w: nat)
    requires Terminated(s0, str) && tokStart == str + LeadingBlanks(Str(s0, str))
    requires w == WordEnd(Str(s0, str), LeadingBlanks(Str(s0, str))) && w == StrLen(s0, str)
    ensures Terminated(TokBuffer(s0, str), tokStart) && Str(TokBuffer(s0, str), tokStart) == FirstWord(Str(s0, str))
    ensures Terminated(TokBuffer(s0, str), str + NextTok(Str(s0, str)))
    ensures Str(TokBuffer(s0, str), str + NextTok(Str(s0, str))) == AfterWord(Str(s0, str))
  {
    assert TokBuffer(s0, str) == s0;
    FirstWordHeld(s0, s0, str, tokStart, str + w);
    assert AfterWord(Str(s0, str)) == [];
    StrIs(s0, str + w, AfterWord(Str(s0, str)));
  }

  /** FirstTokHeld when white space follows the first word. */
  lemma {:induction false} FirstTokSplit(s0: seq<char>, str: nat, tokStart: nat, w: nat)
    requires Terminated(s0, str) && tokStart == str + LeadingBlanks(Str(s0, str))
    requires w == WordEnd(Str(s0, str), LeadingBlanks(Str(s0, str))) && w < StrLen(s0, str)
    ensures Terminated(TokBuffer(s0, str), tokStart) && Str(TokBuffer(s0, str), tokStart) == FirstWord(Str(s0, str))
    ensures Terminated(TokBuffer(s0, str), str + NextTok(Str(s0, str)))
    ensures Str(TokBuffer(s0, str), str + NextTok(Str(s0, str))) == AfterWord(Str(s0, str))
  {
    assert TokBuffer(s0, str) == s0[str + w := NUL];
    FirstWordHeld(s0, TokBuffer(s0, str), str, tokStart, str + w);
    AfterWordHeld(s0, TokBuffer(s0, str), str, w, str + w);
  }

  /** A buffer that keeps the first word of the string at str and ends it at sep holds that word at tokStart. */
  lemma {:induction false} FirstWordHeld(s0: seq<char>, s1: seq<char>, str: nat, tokStart: nat, sep: nat)
    requires Terminated(s0, str) && tokStart == str + LeadingBlanks(Str(s0, str))
    requires sep == str + WordEnd(Str(s0, str), LeadingBlanks(Str(s0, str)))
    requires sep < |s1| && s1[sep] == NUL
    requires forall i :: tokStart <= i < sep ==> s1[i] == s0[i]
    ensures Terminated(s1, tokStart) && Str(s1, tokStart) == FirstWord(Str(s0, str))
  {
    var t := Str(s0, str);
    var lead := LeadingBlanks(t);
    var r := FirstWord(t);
    forall i | 0 <= i < |r| ensures s1[tokStart + i] == r[i] && r[i] != NUL {
      assert r[i] == t[lead + i] == s0[str + (lead + i)];
      assert str + (lead + i) == tokStart + i < sep;
    }
    StrIs(s1, tokStart, r);
  }

  /** A buffer that keeps the string at str after sep holds, at sep + 1, what follows the first word. */
  lemma {:induction false} AfterWordHeld(s0: seq<char>, s1: seq<char>, str: nat, w: nat, sep: nat)
    requires Terminated(s0, str) && w == WordEnd(Str(s0, str), LeadingBlanks(Str(s0, str)))
    requires sep == str + w && w < StrLen(s0, str)
    requires |s1| == |s0| && forall i :: sep < i < |s0| ==> s1[i] == s0[i]
    ensures Terminated(s1, str + NextTok(Str(s0, str)))
    ensures Str(s1, str + NextTok(Str(s0, str))) == AfterWord(Str(s0, str))
  {
    var t := Str(s0, str);
    var a := AfterWord(t);
    assert str + NextTok(t) == sep + 1;
    forall i | 0 <= i < |a| ensures s1[sep + 1 + i] == a[i] && a[i] != NUL {
      assert a[i] == t[w + 1 + i] == s0[str + (w + 1 + i)];
      assert str + (w + 1 + i) == sep + 1 + i;
    }
    assert sep + 1 + |a| == str + StrLen(s0, str);
    StrIs(s1, sep + 1, a);
  }

  /** getFirstTok finds an empty word exactly when the string is blank. */
  lemma {:induction false} FirstWordEmptyIffBlank(t: seq<char>)
    ensures FirstWord(t) == [] ==> IsBlank(t)
    ensures IsBlank(t) ==> FirstWord(t) == []
  {
    BlankIffAllLeading(t);
  }

  /** isOneWord holds exactly when what follows the first word and its separator is blank. */
  lemma {:induction false} OneWordIffBlankAfter(t: seq<char>)
    ensures SingleWord(t) ==> IsBlank(AfterWord(t))
    ensures IsBlank(AfterWord(t)) ==> SingleWord(t)
  {
    var b := WordEnd(t, LeadingBlanks(t));
    SingleWordIff(t, b);
    var a := AfterWord(t);
    if b < |t| {
      forall i | 0 <= i < |a| ensures a[i] == t[b..][i + 1] {
      }
      if IsBlank(a) {
        forall i | 0 <= i < |t[b..]| ensures IsSpace(t[b..][i]) {
          if i > 0 {
            assert t[b..][i] == a[i - 1];
          }
        }
      }
    } else {
      assert t[b..] == [];
    }
  }

  /** A single word padded with white space is, trimmed, its own first word. */
  lemma {:induction false} OneWordTrimmed(t: seq<char>)
    requires SingleWord(t)
    ensures FirstWord(t) == Trimmed(t)
  {
    var lead := LeadingBlanks(t);
    var b := WordEnd(t, lead);
    SingleWordIff(t, b);
    BlankIffAllLeading(t);
    if lead < |t| {
      forall i | b <= i < |t| ensures IsSpace(t[i]) {
        assert t[i] == t[b..][i - b];
      }
      TrimmedIs(t, lead, b);
    }
  }

  /**
   * The buffer after the backward walk of trimStr from e - 1: every
   * character after the last one before e that is not white space, and
   * before e, is overwritten with NUL.
   */
  function Cleared(s: seq<char>, e: nat): (s1: seq<char>)
    requires e <= |s| && HasNonSpaceBefore(s, e)
    ensures |s1| == |s|
  {
    seq(|s|, i requires 0 <= i < |s| => if LastNonSpace(s, e) < i < e then NUL else s[i])
  }

  /**
   * Trimmed of a string that is not blank lies, in the buffer, from the end
   * q of its leading blanks to the last character j before its terminator
   * that is not white space.
   */
  lemma {:induction false} TrimmedInBuffer(s0: seq<char>, p: nat, q: nat, j: nat)
    requires Terminated(s0, p) && p <= q <= j < p + StrLen(s0, p)
    requires forall i :: p <= i < q ==> IsSpace(s0[i])
    requires !IsSpace(s0[q]) && !IsSpace(s0[j])
    requires forall i :: j < i < p + StrLen(s0, p) ==> IsSpace(s0[i])
    ensures |Trimmed(Str(s0, p))| == j + 1 - q
    ensures forall i :: 0 <= i < j + 1 - q ==> Trimmed(Str(s0, p))[i] == s0[q + i] != NUL
  {
    var t := Str(s0, p);
    TrimmedSpan(s0, p, q, j);
    forall i | 0 <= i < j + 1 - q ensures Trimmed(t)[i] == s0[q + i] != NUL {
      assert Trimmed(t)[i] == t[q - p + i];
    }
  }

  /** Where Trimmed of the string at p starts and how long it is, read off the buffer. */
  lemma {:induction false} TrimmedSpan(s0: seq<char>, p: nat, q: nat, j: nat)
    requires Terminated(s0, p) && p <= q <= j < p + StrLen(s0, p)
    requires forall i :: p <= i < q ==> IsSpace(s0[i])
    requires !IsSpace(s0[q]) && !IsSpace(s0[j])
    requires forall i :: j < i < p + StrLen(s0, p) ==> IsSpace(s0[i])
    ensures LeadingBlanks(Str(s0, p)) == q - p && |Trimmed(Str(s0, p))| == j + 1 - q
  {
    var t := Str(s0, p);
    forall i | 0 <= i < q - p ensures IsSpace(t[i]) {
      assert t[i] == s0[p + i];
    }
    forall i | j + 1 - p <= i < |t| ensures IsSpace(t[i]) {
      assert t[i] == s0[p + i];
    }
    assert t[q - p] == s0[q] && t[j - p] == s0[j];
    TrimmedIs(t, q - p, j + 1 - p);
  }

  /** Where the leading blanks of a string that is not blank end, and where its last non-blank character lies. */
  lemma {:induction false} TrimmedBounds(s0: seq<char>, p: nat, q: nat)
    requires Terminated(s0, p) && !IsBlank(Str(s0, p))
    requires q == p + LeadingBlanks(Str(s0, p))
    ensures p <= q < p + StrLen(s0, p) && !IsSpace(s0[q])
    ensures forall i :: p <= i < q ==> IsSpace(s0[i])
    ensures HasNonSpaceBefore(s0, p + StrLen(s0, p))
    ensures q <= LastNonSpace(s0, p + StrLen(s0, p))
  {
    var t := Str(s0, p);
    BlankIffAllLeading(t);
    assert t[q - p] == s0[q];
    forall i | p <= i < q ensures IsSpace(s0[i]) {
      assert t[i - p] == s0[i];
    }
  }

  /** Clearing after a blank string leaves the empty string where its blanks ended. */
  lemma {:induction false} ClearedBlank(s0: seq<char>, p: nat, q: nat)
    requires Terminated(s0, p) && IsBlank(Str(s0, p))
    requires HasNonSpaceBefore(s0, p + StrLen(s0, p))
    requires q == p + LeadingBlanks(Str(s0, p))
    ensures Terminated(Cleared(s0, p + StrLen(s0, p)), q)
    ensures Str(Cleared(s0, p + StrLen(s0, p)), q) == []
  {
    BlankIffAllLeading(Str(s0, p));
    assert Cleared(s0, p + StrLen(s0, p))[q] == NUL;
    StrLenAt(Cleared(s0, p + StrLen(s0, p)), q, 0);
  }

  /** Clearing after a string that is not blank leaves its trimmed text, terminated, where its leading blanks end. */
  lemma {:induction false} ClearedWord(s0: seq<char>, p: nat, q: nat, e: nat)
    requires Terminated(s0, p) && !IsBlank(Str(s0, p))
    requires e == p + StrLen(s0, p) && HasNonSpaceBefore(s0, e)
    requires q == p + LeadingBlanks(Str(s0, p))
    ensures Terminated(Cleared(s0, e), q) && Str(Cleared(s0, e), q) == Trimmed(Str(s0, p))
  {
    var j := LastNonSpace(s0, e);
    TrimmedBounds(s0, p, q);
    TrimmedInBuffer(s0, p, q, j);
    ClearedHolds(s0, e, q, j, Trimmed(Str(s0, p)));
  }

  /** The cleared buffer holds, at q, the text r that ends at the last non-blank character j before e. */
  lemma {:induction false} ClearedHolds(s0: seq<char>, e: nat, q: nat, j: nat, r: seq<char>)
    requires e < |s0| && s0[e] == NUL && HasNonSpaceBefore(s0, e)
    requires j == LastNonSpace(s0, e) && q <= j
    requires |r| == j + 1 - q
    requires forall i :: 0 <= i < j + 1 - q ==> r[i] == s0[q + i] != NUL
    ensures Terminated(Cleared(s0, e), q) && Str(Cleared(s0, e), q) == r
  {
    var c := Cleared(s0, e);
    assert c[q + |r|] == NUL;
    forall i | 0 <= i < |r| ensures c[q + i] == r[i] && r[i] != NUL {
    }
    StrIs(c, q, r);
  }

  /** The buffer trimStr leaves behind holds Trimmed of the string it was given. */
  lemma {:induction false} TrimStrPost(s0: seq<char>, p: nat, q: nat, e: nat)
    requires Terminated(s0, p) && Str(s0, p) != []
    requires e == p + StrLen(s0, p) && HasNonSpaceBefore(s0, e)
    requires q == p + LeadingBlanks(Str(s0, p))
    ensures Terminated(Cleared(s0, e), q) && Str(Cleared(s0, e), q) == Trimmed(Str(s0, p))
  {
    if IsBlank(Str(s0, p)) {
      ClearedBlank(s0, p, q);
    } else {
      ClearedWord(s0, p, q, e);
    }
  }

  /**
   * The backward walk of trimStr: from e - 1 down, overwrite white space
   * with NUL until a character that is not white space, or the start q of
   * the trimmed text, is reached.
   */
  method ClearTrailingBlanks(buf: array<char>, q: nat, e: nat)
    requires q <= e < buf.Length && HasNonSpaceBefore(buf[..], e)
    requires q < e ==> !IsSpace(buf[q])
    modifies buf
    ensures buf[..] == Cleared(old(buf[..]), e)
  {
    ghost var j := LastNonSpace(buf[..], e);
    var eos: int := e - 1;
    while IsSpace(buf[eos]) && eos != q
      invariant j <= eos < e
      invariant forall i :: 0 <= i < buf.Length && !(eos < i < e) ==> buf[i] == old(buf[i])
      invariant forall i :: eos < i < e ==> buf[i] == NUL
      decreases eos
    {
      buf[eos] := NUL;
      eos := eos - 1;
    }
    assert buf[eos] == old(buf[eos]);
    assert q < e ==> q <= j;
    assert forall i :: 0 <= i < buf.Length ==> buf[..][i] == Cleared(old(buf[..]), e)[i];
  }

  /**
   * trimStr may be applied at p: the string there is empty, or some
   * character before its terminator is not white space (for a non-empty
   * blank string, one before the string), where the backward walk stops.
   */
  predicate Trimmable(s: seq<char>, p: nat) {
    Terminated(s, p) && (s[p] == NUL || HasNonSpaceBefore(s, p + StrLen(s, p)))
  }

  /** The buffer trimStr leaves: unchanged for an empty string, else cleared back from the terminator. */
  function TrimBuffer(s: seq<char>, p: nat): (s1: seq<char>)
    requires Trimmable(s, p)
    ensures |s1| == |s|
  {
    if s[p] == NUL then s else Cleared(s, p + StrLen(s, p))
  }

  /** trimStr on a string that is not empty, whose terminator sits at e. */
  method TrimText(buf: array<char>, p: nat, ghost e: nat) returns (q: nat)
    requires Trimmable(buf[..], p) && buf[p] != NUL
    requires e == p + StrLen(buf[..], p)
    modifies buf
    ensures q == p + LeadingBlanks(old(Str(buf[..], p)))
    ensures buf[..] == TrimBuffer(old(buf[..]), p)
    ensures Terminated(buf[..], q) && Str(buf[..], q) == Trimmed(old(Str(buf[..], p)))
  {
    ghost var s0 := buf[..];
    assert Str(s0, p) != [] by {
      assert StrLen(s0, p) != 0;
    }
    q := TrimLeftStr(buf[..], p);
    assert buf[..] == s0;
    var eos := q + StrLen(buf[..], q);
    assert eos == e;
    ClearTrailingBlanks(buf, q, eos);
    TrimStrPost(s0, p, q, e);
    TrimBufferText(s0, p, e);
  }

  /** For a string that is not empty, trimStr's buffer is the one cleared back from its terminator e. */
  lemma {:induction false} TrimBufferText(s: seq<char>, p: nat, e: nat)
    requires Trimmable(s, p) && s[p] != NUL && e == p + StrLen(s, p)
    ensures HasNonSpaceBefore(s, e) && TrimBuffer(s, p) == Cleared(s, e)
  {
  }

  /**
   * trimStr: move the pointer past the leading white space and overwrite
   * the trailing white space with NUL. The backward walk stops at the first
   * character that is not white space; for a non-empty blank string that
   * character lies before the string, so the walk also clears the blanks
   * between it and the string, and the caller must guarantee it exists.
   */
  method TrimStr(buf: array<char>, p: nat) returns (q: nat)
    requires Trimmable(buf[..], p)
    modifies buf
    ensures q == p + LeadingBlanks(old(Str(buf[..], p)))
    ensures buf[..] == TrimBuffer(old(buf[..]), p)
    ensures Terminated(buf[..], q) && Str(buf[..], q) == Trimmed(old(Str(buf[..], p)))
  {
    if buf[p] == NUL {
      TrimEmpty(buf[..], p);
      return p;
    }
    q := TrimText(buf, p, p + StrLen(buf[..], p));
  }

  /** trimStr of the empty string changes nothing. */
  lemma {:induction false} TrimEmpty(s: seq<char>, p: nat)
    requires Terminated(s, p) && s[p] == NUL
    ensures Trimmable(s, p) && TrimBuffer(s, p) == s
    ensures LeadingBlanks(Str(s, p)) == 0 && Str(s, p) == Trimmed(Str(s, p))
  {
    StrLenAt(s, p, 0);
    assert Str(s, p) == [];
  }

  // =====================================================================
  // getFirstOperand

  /** The first operand of t: everything before its first comma. */
  function Operand(t: seq<char>): (r: seq<char>)
    ensures ',' !in r
    ensures ',' !in t ==> r == t
    ensures ',' in t ==> |r| < |t| && t == r + [','] + t[|r| + 1..]
  {
    var k := IndexOf(t, ',');
    assert forall i :: 0 <= i < k ==> t[..k][i] == t[i];
    if k < |t| then assert t == t[..k] + [','] + t[k + 1..]; t[..k] else t
  }

  /** The buffer after the cut of getFirstOperand: the first comma of the string at line, if any, becomes NUL. */
  function CommaCut(s: seq<char>, line: nat): (s1: seq<char>)
    requires Terminated(s, line)
    ensures |s1| == |s|
  {
    var k := IndexOf(Str(s, line), ',');
    if k < StrLen(s, line) then s[line + k := NUL] else s
  }

  /** After the cut, line holds the first operand. */
  lemma {:induction false} CommaCutHolds(s: seq<char>, line: nat)
    requires Terminated(s, line)
    ensures Terminated(CommaCut(s, line), line)
    ensures Str(CommaCut(s, line), line) == Operand(Str(s, line))
  {
    var t := Str(s, line);
    var k := IndexOf(t, ',');
    if k < |t| {
      var s1 := CommaCut(s, line);
      assert s1 == s[line + k := NUL];
      CutOperand(s, line, k, s1);
    } else {
      assert ',' !in t && Operand(t) == t;
      StrIs(s, line, t);
    }
  }

  /** After the cut, the rest of the line past the comma is intact. */
  lemma {:induction false} CommaCutRest(s: seq<char>, line: nat)
    requires Terminated(s, line) && ',' in Str(s, line)
    ensures Terminated(CommaCut(s, line), line + |Operand(Str(s, line))| + 1)
    ensures Str(CommaCut(s, line), line + |Operand(Str(s, line))| + 1) == Str(s, line)[|Operand(Str(s, line))| + 1..]
  {
    var t := Str(s, line);
    var k := IndexOf(t, ',');
    var s1 := CommaCut(s, line);
    assert |Operand(t)| == k;
    assert s1 == s[line + k := NUL];
    CutRest(s, line, k, s1);
  }

  /** The cut buffer s1 holds the first operand at line. */
  lemma {:induction false} CutOperand(s: seq<char>, line: nat, k: nat, s1: seq<char>)
    requires Terminated(s, line) && k == IndexOf(Str(s, line), ',') && k < StrLen(s, line)
    requires s1 == s[line + k := NUL]
    ensures Terminated(s1, line) && Str(s1, line) == Operand(Str(s, line))
  {
    var t := Str(s, line);
    var r := Operand(t);
    assert |r| == k;
    forall i | 0 <= i < |r| ensures s1[line + i] == r[i] && r[i] != NUL {
      assert r[i] == t[i] == s[line + i];
    }
    StrIs(s1, line, r);
  }

  /** The cut buffer s1 holds, past the comma, the rest of the string. */
  lemma {:induction false} CutRest(s: seq<char>, line: nat, k: nat, s1: seq<char>)
    requires Terminated(s, line) && k == IndexOf(Str(s, line), ',') && k < StrLen(s, line)
    requires s1 == s[line + k := NUL]
    ensures Terminated(s1, line + k + 1) && Str(s1, line + k + 1) == Str(s, line)[k + 1..]
  {
    var t := Str(s, line);
    var a := t[k + 1..];
    forall i | 0 <= i < |a| ensures s1[line + k + 1 + i] == a[i] && a[i] != NUL {
      assert a[i] == t[k + 1 + i] == s[line + (k + 1 + i)];
    }
    assert line + k + 1 + |a| == line + StrLen(s, line);
    StrIs(s1, line + k + 1, a);
  }

  /** A blank string holds no comma. */
  lemma {:induction false} BlankHasNoComma(t: seq<char>)
    requires IsBlank(t)
    ensures IndexOf(t, ',') == |t|
  {
  }

  /**
   * getFirstOperand: unless the string at line is blank, cut it at its
   * first comma (foundComma says whether there was one) and set endOfOp
   * past the comma, or to the terminator when there is none; then trim
   * what remains at line. For a blank string endOfOp and foundComma keep
   * the values they had.
   */
  method GetFirstOperand(buf: array<char>, line: nat, endOfOp0: nat, foundComma0: bool)
    returns (op: nat, endOfOp: nat, foundComma: bool)
    requires Terminated(buf[..], line) && Trimmable(CommaCut(buf[..], line), line)
    modifies buf
    ensures IsBlank(old(Str(buf[..], line))) ==> endOfOp == endOfOp0 && foundComma == foundComma0
    ensures !IsBlank(old(Str(buf[..], line))) ==> foundComma == (',' in old(Str(buf[..], line)))
    ensures !IsBlank(old(Str(buf[..], line))) ==>
      endOfOp == line + |Operand(old(Str(buf[..], line)))| + (if foundComma then 1 else 0)
    ensures op == line + LeadingBlanks(Operand(old(Str(buf[..], line))))
    ensures buf[..] == TrimBuffer(CommaCut(old(buf[..]), line), line)
    ensures Terminated(buf[..], op) && Str(buf[..], op) == Trimmed(Operand(old(Str(buf[..], line))))
  {
    var s0 := buf[..];
    ghost var t := Str(s0, line);
    endOfOp, foundComma := endOfOp0, foundComma0;
    var blank := IsWhiteSpaces(Str(s0, line));
    if !blank {
      var k := IndexOf(Str(s0, line), ',');
      if k < StrLen(s0, line) {
        foundComma := true;
        buf[line + k] := NUL;
        endOfOp := line + k + 1;
      } else {
        foundComma := false;
        endOfOp := line + StrLen(s0, line);
      }
    } else {
      BlankHasNoComma(t);
    }
    assert buf[..] == CommaCut(s0, line);
    CommaCutHolds(s0, line);
    op := TrimStr(buf, line);
  }

  /** trimStr writes nothing at or after the terminator of its string. */
  lemma {:induction false} TrimBufferFrame(s: seq<char>, p: nat)
    requires Trimmable(s, p)
    ensures forall i :: p + StrLen(s, p) <= i < |s| ==> TrimBuffer(s, p)[i] == s[i]
  {
  }

  /**
   * When getFirstOperand finds a comma, the rest of the line after it is
   * left intact where endOfOp points, ready for the next operand.
   */
  lemma {:induction false} OperandRestKept(s0: seq<char>, line: nat)
    requires Terminated(s0, line) && Trimmable(CommaCut(s0, line), line)
    requires ',' in Str(s0, line)
    ensures Terminated(TrimBuffer(CommaCut(s0, line), line), line + |Operand(Str(s0, line))| + 1)
    ensures Str(TrimBuffer(CommaCut(s0, line), line), line + |Operand(Str(s0, line))| + 1)
      == Str(s0, line)[|Operand(Str(s0, line))| + 1..]
  {
    var c := CommaCut(s0, line);
    var k := |Operand(Str(s0, line))|;
    CommaCutHolds(s0, line);
    CommaCutRest(s0, line);
    assert StrLen(c, line) == k;
    TrimBufferFrame(c, line);
    StrFrame(c, TrimBuffer(c, line), line + k + 1);
  }

  // =====================================================================
  // Line and parameter checks

  /** The text of t from its first character that is not white space starts with a `;`. */
  predicate StartsComment(t: seq<char>) {
    LeadingBlanks(t) < |t| && t[LeadingBlanks(t)] == ';'
  }

  /**
   * isCommentOrEmpty: true for a comment or a blank line. A `;` after
   * leading white space still makes a comment, but an illegal one: the line
   * is marked as erroneous.
   */
  method IsCommentOrEmpty(line: LineInfo) returns (r: bool, line': LineInfo)
    ensures r <==> IsBlank(line.lineStr) || StartsComment(line.lineStr)
    ensures line'.isError <==> line.isError || (StartsComment(line.lineStr) && line.lineStr[0] != ';')
    ensures line' == line.(isError := line'.isError)
  {
    line' := line;
    if At(line.lineStr, 0) == ';' {
      LeadingBlanksIs(line.lineStr, 0);
      return true, line';
    }
    StrOfContent(line.lineStr);
    var startOfText := TrimLeftStr(line.lineStr + [NUL], 0);
    BlankIffAllLeading(line.lineStr);
    if At(line.lineStr, startOfText) == NUL {
      return true, line';
    }
    if line.lineStr[startOfText] == ';' {
      line' := line.(isError := true);
      return true, line';
    }
    return false, line';
  }

  /** The test isLegalStringParam makes: the first and the last character are both a double quote. */
  predicate QuotedAsWritten(t: seq<char>) {
    |t| >= 1 && t[0] == '"' && t[|t| - 1] == '"'
  }

  /** The buffer after isLegalStringParam accepts the string at p: its last character, the closing quote, is overwritten by NUL. */
  function QuoteCut(s: seq<char>, p: nat): (s1: seq<char>)
    requires Terminated(s, p) && s[p] != NUL
    ensures |s1| == |s|
  {
    s[p + StrLen(s, p) - 1 := NUL]
  }

  /**
   * isLegalStringParam: a parameter whose first and last characters are
   * double quotes is accepted; its closing quote is overwritten and the
   * pointer moves past the opening one. Otherwise nothing changes.
   */
  method IsLegalStringParam(buf: array<char>, p: nat) returns (legal: bool, q: nat)
    requires Terminated(buf[..], p)
    modifies buf
    ensures legal == QuotedAsWritten(old(Str(buf[..], p)))
    ensures legal ==> q == p + 1 && old(buf[p]) != NUL && buf[..] == QuoteCut(old(buf[..]), p)
    ensures !legal ==> q == p && buf[..] == old(buf[..])
  {
    var s0 := buf[..];
    ghost var t := Str(s0, p);
    var n := StrLen(s0, p);
    if s0[p] == '"' && s0[p + n - 1] == '"' {
      assert t[0] == s0[p] && t[|t| - 1] == s0[p + n - 1];
      buf[p + n - 1] := NUL;
      return true, p + 1;
    }
    if n > 0 {
      assert t[0] == s0[p] && t[|t| - 1] == s0[p + n - 1];
    }
    return false, p;
  }

  /**
   * The text of a .string parameter as intended: what lies between an
   * opening and a distinct closing quote.
   */
  function StringParam(t: seq<char>): (r: Option<seq<char>>)
    ensures r.Some? ==> t == ['"'] + r.value + ['"']
    ensures r.None? ==> |t| < 2 || t[0] != '"' || t[|t| - 1] != '"'
  {
    if |t| >= 2 && t[0] == '"' && t[|t| - 1] == '"' then
      assert t == ['"'] + t[1..|t| - 1] + ['"'];
      Some(t[1..|t| - 1])
    else None
  }

  /** Any text, put between quotes, is read back by StringParam. */
  lemma {:induction false} StringParamRoundTrip(c: seq<char>)
    ensures StringParam(['"'] + c + ['"']) == Some(c)
  {
    var t := ['"'] + c + ['"'];
    assert t[1..|t| - 1] == c;
  }

  /** After isLegalStringParam accepts, the advanced pointer reads the text between the quotes. */
  lemma {:induction false} StringParamHeld(s0: seq<char>, p: nat)
    requires Terminated(s0, p) && StringParam(Str(s0, p)).Some?
    ensures Terminated(QuoteCut(s0, p), p + 1)
    ensures Str(QuoteCut(s0, p), p + 1) == StringParam(Str(s0, p)).value
  {
    var t := Str(s0, p);
    var c := StringParam(t).value;
    var s1 := QuoteCut(s0, p);
    assert s0[p] == t[0] != NUL;
    forall i | 0 <= i < |c| ensures s1[p + 1 + i] == c[i] && c[i] != NUL {
      assert c[i] == t[1 + i] == s0[p + (1 + i)];
    }
    assert p + 1 + |c| == p + StrLen(s0, p) - 1;
    StrIs(s1, p + 1, c);
  }

  /**
   * The test as written also accepts a lone double quote, which is not
   * enclosed in quotes: the quote is overwritten and the pointer moves to
   * the old terminator, leaving an empty string.
   */
  lemma {:induction false} LoneQuoteAccepted(s0: seq<char>, p: nat)
    requires Terminated(s0, p) && Str(s0, p) == ['"']
    ensures QuotedAsWritten(Str(s0, p)) && StringParam(Str(s0, p)).None?
    ensures Terminated(QuoteCut(s0, p), p + 1) && Str(QuoteCut(s0, p), p + 1) == []
  {
    assert s0[p] == '"' && StrLen(s0, p) == 1;
    assert QuoteCut(s0, p)[p + 1] == NUL;
    StrLenAt(QuoteCut(s0, p), p + 1, 0);
  }

  /** Why isLegalNum rejects a parameter, in the order of its checks; NumOk when none fails. */
  datatype NumVerdict = NumOk | EmptyParam | NotANumber | OutOfRange

  /** The largest magnitude isLegalNum accepts: (1 << numOfBits) - 1. */
  function MaxNum(numOfBits: nat): (m: int)
    ensures m >= 0
  {
    Pow2(numOfBits) - 1
  }

  /**
   * isLegalNum: the parameter must not be blank, strtol (base 0) must
   * consume all of it, and the value, stored through `value` as an `int`,
   * must lie within MaxNum(numOfBits) of zero. The shift that computes
   * MaxNum overflows for numOfBits >= INT_BITS - 1, which the callers must
   * avoid.
   */
  method IsLegalNum(numStr: CStr, numOfBits: nat, value0: int) returns (verdict: NumVerdict, value: int)
    requires numOfBits <= INT_BITS - 2
    ensures IsBlank(numStr) ==> verdict == EmptyParam && value == value0
    ensures verdict == EmptyParam ==> IsBlank(numStr)
    ensures !IsBlank(numStr) ==> value == IntOfLong(StrToL(numStr).value)
    ensures verdict == NotANumber ==> !IsBlank(numStr) && StrToL(numStr).end < |numStr|
    ensures !IsBlank(numStr) && StrToL(numStr).end < |numStr| ==> verdict == NotANumber
    ensures verdict == NumOk ==>
      !IsBlank(numStr) && StrToL(numStr).end == |numStr| && -MaxNum(numOfBits) <= value <= MaxNum(numOfBits)
    ensures !IsBlank(numStr) && StrToL(numStr).end == |numStr| && -MaxNum(numOfBits) <= value <= MaxNum(numOfBits)
      ==> verdict == NumOk
  {
    var maxNum := Pow2(numOfBits) - 1;
    var blank := IsWhiteSpaces(numStr);
    if blank {
      return EmptyParam, value0;
    }
    var parsed := StrToL(numStr);
    value := IntOfLong(parsed.value);
    if At(numStr, parsed.end) != NUL {
      return NotANumber, value;
    }
    if value > maxNum || value < -maxNum {
      return OutOfRange, value;
    }
    return NumOk, value;
  }

  /**
   * The check isLegalNum evidently intends: the whole parameter is a number
   * within MaxNum(numOfBits) of zero, judged on the value strtol returns,
   * before it is narrowed to an `int`.
   */
  function LegalNumValue(numStr: CStr, numOfBits: nat): (r: Option<int>)
    ensures r.Some? ==> -MaxNum(numOfBits) <= r.value <= MaxNum(numOfBits) && r.value == StrToL(numStr).value
    ensures r.Some? ==> !IsBlank(numStr) && StrToL(numStr).end == |numStr|
  {
    var parsed := StrToL(numStr);
    if !IsBlank(numStr) && parsed.end == |numStr| && -MaxNum(numOfBits) <= parsed.value <= MaxNum(numOfBits) then
      Some(parsed.value)
    else None
  }

  /** A numeral is not blank: it starts with a digit or a minus sign. */
  lemma {:induction false} NumeralNotBlank(x: int)
    ensures !IsBlank(Numeral(x))
  {
    NumeralShape(x);
    BlankIffAllLeading(Numeral(x));
  }

  /** The intended check accepts the numeral of every value within range, and reads that value. */
  lemma {:induction false} NumeralAccepted(x: int, numOfBits: nat)
    requires numOfBits <= INT_BITS - 2 && -MaxNum(numOfBits) <= x <= MaxNum(numOfBits)
    ensures LegalNumValue(Numeral(x), numOfBits) == Some(x)
  {
    assert MaxNum(numOfBits) <= LONG_MAX by {
      Pow2Mono(numOfBits, 30);
      Pow2Thirty();
    }
    NumeralRoundTrip(x);
    NumeralNotBlank(x);
  }

  /**
   * isLegalNum as written accepts the numeral of a `long` x beyond
   * MaxNum(numOfBits) whenever the low 32 bits of x, read as an `int`, fall
   * within MaxNum(numOfBits): the narrowed value is compared, and stored,
   * instead of x. The intended check rejects it.
   */
  lemma {:induction false} NarrowedNumAccepted(x: int, numOfBits: nat)
    requires numOfBits <= INT_BITS - 2 && MaxNum(numOfBits) < x <= LONG_MAX
    requires -MaxNum(numOfBits) <= IntOfLong(x) <= MaxNum(numOfBits)
    ensures !IsBlank(Numeral(x)) && StrToL(Numeral(x)).end == |Numeral(x)|
    ensures -MaxNum(numOfBits) <= IntOfLong(StrToL(Numeral(x)).value) <= MaxNum(numOfBits)
    ensures IntOfLong(StrToL(Numeral(x)).value) != x
    ensures LegalNumValue(Numeral(x), numOfBits) == None
  {
    NumeralRoundTrip(x);
    NumeralNotBlank(x);
  }

  /** 4294967301 (2^32 + 5) is such a number: it is narrowed to 5. */
  lemma {:induction false} NarrowedNumExample(numOfBits: nat)
    requires 3 <= numOfBits <= INT_BITS - 2
    ensures MaxNum(numOfBits) < 0x1_0000_0005 <= LONG_MAX
    ensures IntOfLong(0x1_0000_0005) == 5 && 5 <= MaxNum(numOfBits)
  {
    Pow2Mono(3, numOfBits);
    Pow2Mono(numOfBits, 30);
    Pow2Thirty();
    assert Pow2(3) == 8;
  }
}
